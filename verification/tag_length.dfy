/**
  `TagLength`: the property node recording an authentication tag length
  in bits.
 */
module TagLengths {
  import opened JavaText
  import opened Nodes

  /** `instanceof TagLength` together with the field the class always sets. */
  predicate IsTagLength(n: Node) {
    n.cls == "TagLength" && n.kind == TagLength && n.value.IntValue?
  }

  /** `new TagLength(value, location)`. */
  function NewTagLength(v: Int32, loc: Location): (t: Node)
    ensures IsTagLength(t) && WellFormed(t)
    ensures t.kind == TagLength && t.children == map[] && t.location == loc
    ensures GetValue(t) == v
  {
    Node("TagLength", TagLength, "TagLength", IntValue(v), {}, map[], loc)
  }

  /** `getValue()`. */
  function GetValue(t: Node): Int32
    requires IsTagLength(t)
  {
    t.value.number
  }

  /** `asString()`: the decimal rendering of the value, which parses back
      to the value. */
  function TagLengthAsString(t: Node): (s: string)
    requires IsTagLength(t)
    ensures ParseInt(s) == Some(GetValue(t))
    ensures s == AsString(t)
  {
    ParseIntOfDecimalString(t.value.number);
    DecimalString(t.value.number as int)
  }

  lemma TagLength128Renders()
    ensures forall loc :: TagLengthAsString(NewTagLength(128, loc)) == "128"
  {
  }

  /** The part of a node `Property.equals` compares: everything but the value. */
  function Base(n: Node): Node {
    n.(value := NoValue)
  }

  /** `equals(object)`: the other object is a TagLength, the base parts are
      equal and so are the values. */
  predicate TagLengthEquals(t: Node, other: Node)
    requires IsTagLength(t)
  {
    other.cls == "TagLength" && Base(t) == Base(other) && t.value == other.value
  }

  /** TagLength equality is exactly structural equality of the nodes. */
  lemma TagLengthEqualsIsIdentity(t: Node, other: Node)
    requires IsTagLength(t)
    ensures TagLengthEquals(t, other) <==> t == other
  {
    if TagLengthEquals(t, other) {
      assert t == Base(t).(value := t.value);
      assert other == Base(other).(value := other.value);
    }
  }

  /** `deepCopy()`: the same node with every child deep-copied and
      re-inserted under its own kind. */
  function TagLengthDeepCopy(t: Node): (c: Node)
    requires IsTagLength(t) && WellFormed(t)
    ensures IsTagLength(c) && GetValue(c) == GetValue(t)
    ensures c.children.Keys == t.children.Keys
    ensures forall k :: k in c.children ==> c.children[k].kind == k
    ensures TagLengthEquals(c, t)
  {
    DeepCopy(t)
  }

  /**
    `hashCode()` combines the base hash and the value; the combining
    function and the base hash are parameters, since the arithmetic of
    `Objects.hash` is not modelled.
   */
  function TagLengthHashCode(t: Node, baseHash: Node -> int, combine: (int, Int32) -> int): int
    requires IsTagLength(t)
  {
    combine(baseHash(Base(t)), t.value.number)
  }

  /** Equal TagLengths hash alike, whatever the base hash and combiner. */
  lemma EqualTagLengthsHashAlike(t: Node, other: Node, baseHash: Node -> int, combine: (int, Int32) -> int)
    requires IsTagLength(t) && TagLengthEquals(t, other)
    ensures IsTagLength(other)
    ensures TagLengthHashCode(t, baseHash, combine) == TagLengthHashCode(other, baseHash, combine)
  {
    TagLengthEqualsIsIdentity(t, other);
  }
}
