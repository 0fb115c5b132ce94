/**
  The read-only child lookups `PasswordBasedEncryption` offers: the Mac and
  the MessageDigest by kind, and the first child that is a Cipher.
 */
module PasswordBasedEncryptions {
  import opened JavaText
  import opened Nodes

  /** `getMac()`: the child stored under kind Mac, if any. */
  function GetMac(n: Node): (r: Option<Node>)
    ensures r.Some? <==> Mac in n.children
    ensures r.Some? ==> r.value == n.children[Mac]
  {
    if Mac in n.children then Some(n.children[Mac]) else None
  }

  /** `getDigest()`: the child stored under kind MessageDigest, if any. */
  function GetDigest(n: Node): (r: Option<Node>)
    ensures r.Some? <==> MessageDigest in n.children
    ensures r.Some? ==> r.value == n.children[MessageDigest]
  {
    if MessageDigest in n.children then Some(n.children[MessageDigest]) else None
  }

  /** The lookups see exactly what `put` stored: a child of the looked-up
      kind is found, and a child of any other kind leaves the answer as it
      was. */
  lemma LookupsFollowPut(n: Node, child: Node)
    ensures child.kind == Mac ==> GetMac(Put(n, child)) == Some(child)
    ensures child.kind != Mac ==> GetMac(Put(n, child)) == GetMac(n)
    ensures child.kind == MessageDigest ==> GetDigest(Put(n, child)) == Some(child)
    ensures child.kind != MessageDigest ==> GetDigest(Put(n, child)) == GetDigest(n)
  {
  }

  /** `instanceof Cipher`. */
  predicate IsCipher(n: Node) {
    Cipher in n.capabilities
  }

  /** The children map's iteration order: every key exactly once. */
  predicate IsKeyListing(order: seq<Kind>, children: map<Kind, Node>) {
    && (forall i, j :: 0 <= i < j < |order| ==> order[i] != order[j])
    && (forall k :: k in children <==> k in order)
  }

  /** The first child, in the order `order` lists the keys, that is a Cipher. */
  function FirstCipher(order: seq<Kind>, children: map<Kind, Node>): (r: Option<Node>)
    requires forall i :: 0 <= i < |order| ==> order[i] in children
    ensures r.Some? <==> exists i :: 0 <= i < |order| && IsCipher(children[order[i]])
    ensures r.Some? ==> exists i :: 0 <= i < |order| && r.value == children[order[i]] && IsCipher(r.value)
                                    && forall j :: 0 <= j < i ==> !IsCipher(children[order[j]])
  {
    if |order| == 0 then None
    else if IsCipher(children[order[0]]) then Some(children[order[0]])
    else
      var r := FirstCipher(order[1..], children);
      assert forall i :: 1 <= i < |order| ==> order[1..][i - 1] == order[i];
      r
  }

  /**
    `getCipher()`: the first child, in the children map's iteration order,
    that implements Cipher; empty when none does. That order is a hash-map
    order Java does not fix, so it is a parameter here.
   */
  function GetCipher(n: Node, order: seq<Kind>): (r: Option<Node>)
    requires IsKeyListing(order, n.children)
    ensures r.Some? <==> exists k :: k in n.children && IsCipher(n.children[k])
    ensures r.Some? ==> IsCipher(r.value) && r.value in n.children.Values
    ensures r.Some? ==> exists i :: 0 <= i < |order| && r.value == n.children[order[i]]
                                    && forall j :: 0 <= j < i ==> !IsCipher(n.children[order[j]])
  {
    ListedCipherIsChild(order, n.children);
    FirstCipher(order, n.children)
  }

  lemma ListedCipherIsChild(order: seq<Kind>, children: map<Kind, Node>)
    requires IsKeyListing(order, children)
    ensures (exists i :: 0 <= i < |order| && IsCipher(children[order[i]]))
            <==> (exists k :: k in children && IsCipher(children[k]))
  {
    if exists k :: k in children && IsCipher(children[k]) {
      var k :| k in children && IsCipher(children[k]);
      var i :| 0 <= i < |order| && order[i] == k;
      assert IsCipher(children[order[i]]);
    }
  }

  /** Whichever listing of the keys is used, getCipher finds a Cipher
      exactly when one exists; with a single Cipher child it always
      returns that child. */
  lemma GetCipherUniqueCipher(n: Node, order: seq<Kind>, k: Kind)
    requires IsKeyListing(order, n.children)
    requires k in n.children && IsCipher(n.children[k])
    requires forall k' :: k' in n.children && k' != k ==> !IsCipher(n.children[k'])
    ensures GetCipher(n, order) == Some(n.children[k])
  {
    var r := GetCipher(n, order);
    var i :| 0 <= i < |order| && r.value == n.children[order[i]]
             && forall j :: 0 <= j < i ==> !IsCipher(n.children[order[j]]);
    assert order[i] in n.children;
  }
}
