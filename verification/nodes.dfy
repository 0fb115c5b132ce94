/**
  The semantic node tree the translation stage produces (`INode`): every
  node has a kind, a name, an optional value, and at most one child per
  kind, so that `put` replaces whatever child of the same kind was there.
 */
module Nodes {
  import opened JavaText

  /** The Java classes and interfaces used as node kinds and as children keys. */
  datatype Kind =
    // properties
    | TagLength | BlockSize | DigestSize | KeyLength | NumberOfIterations
    | InitializationVectorLength | ParameterSetIdentifier | Version
    | CipherSuiteCollection | Mode
    // functionalities and markers
    | Encrypt | Decrypt | Unknown
    // primitives
    | Cipher | BlockCipher | StreamCipher | AuthenticatedEncryption | Mac
    | MessageDigest | ExtendableOutputFunction | Signature
    | PublicKeyEncryption | KeyAgreement | KeyEncapsulationMechanism
    | PasswordBasedEncryption
    // protocols
    | Protocol | TLS

  /** Where in the scanned file a node was detected (`DetectionLocation`). */
  datatype Location = Location(filePath: string, lineNumber: int, offsetInLine: int)

  /** The payload of a property node: none for algorithms and markers. */
  datatype Value = NoValue | IntValue(number: Int32) | TextValue(text: string)

  /**
    A semantic node. `cls` is the concrete class that built it, `kind` the
    key it is stored under in a parent, and `capabilities` the interfaces
    its class declares directly; interfaces those extend are not recorded.
   */
  datatype Node = Node(
    cls: string,
    kind: Kind,
    name: string,
    value: Value,
    capabilities: set<Kind>,
    children: map<Kind, Node>,
    location: Location)

  /** Every child is stored under its own kind, all the way down: the
      invariant `put` maintains. */
  ghost predicate WellFormed(n: Node)
    decreases n
  {
    forall k :: k in n.children ==> n.children[k].kind == k && WellFormed(n.children[k])
  }

  /** `INode.put`: store `child` under its kind, replacing any previous one. */
  function Put(n: Node, child: Node): (r: Node)
    ensures r.children.Keys == n.children.Keys + {child.kind}
    ensures r.children[child.kind] == child
    ensures forall k :: k in n.children && k != child.kind ==> r.children[k] == n.children[k]
    ensures r.(children := n.children) == n
  {
    n.(children := n.children[child.kind := child])
  }

  lemma PutPreservesWellFormed(n: Node, child: Node)
    requires WellFormed(n) && WellFormed(child)
    ensures WellFormed(Put(n, child))
  {
  }

  lemma LeafWellFormed(n: Node)
    requires n.children == map[]
    ensures WellFormed(n)
  {
  }

  /** Two `put`s of different kinds commute, and neither hides the other. */
  lemma PutDistinctKindsCommute(n: Node, a: Node, b: Node)
    requires a.kind != b.kind
    ensures Put(Put(n, a), b) == Put(Put(n, b), a)
    ensures Put(Put(n, a), b).children[a.kind] == a
  {
  }

  /** `getChildren().get(kind)`, wrapped as an optional. */
  function GetChild(n: Node, k: Kind): (r: Option<Node>)
    ensures r.Some? <==> k in n.children
    ensures r.Some? ==> r.value == n.children[k]
  {
    if k in n.children then Some(n.children[k]) else None
  }

  /** `asString()` of a node: the rendering of its value if it has one
      (`Integer.toString` for numbers), otherwise its name. */
  function AsString(n: Node): string {
    match n.value
    case IntValue(i) => DecimalString(i as int)
    case TextValue(t) => t
    case NoValue => n.name
  }

  /**
    `deepCopy()`: a node with the same own fields whose children are the
    deep copies of the original children, each re-inserted under that
    child's own kind. On a well-formed tree the copy is equal to the
    original.
   */
  function DeepCopy(n: Node): (r: Node)
    requires WellFormed(n)
    ensures r == n
    decreases n
  {
    var copies := map c | c in n.children.Values :: c.kind := DeepCopy(c);
    n.(children := n.children + copies)
  }
}
