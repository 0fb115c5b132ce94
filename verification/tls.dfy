/**
  The `TLS` protocol node: named "TLS", or "TLSv" plus its version when
  built from a Version, with lookups for the version and the cipher suites.
 */
module Protocols {
  import opened JavaText
  import opened Nodes
  import opened Primitives

  /** `new TLS(detectionLocation)`. */
  function NewTls(loc: Location): (t: Node)
    ensures t.name == "TLS" && t.kind == TLS && t.location == loc
    ensures Protocol in t.capabilities
    ensures t.children == map[] && WellFormed(t)
  {
    Node("TLS", TLS, "TLS", NoValue, {Protocol}, map[], loc)
  }

  /** `new TLS(version)`: named after the version, located where the version
      was found, and holding the version as its Version child. */
  function TlsWithVersion(version: Node): (t: Node)
    requires version.kind == Version
    ensures t.name == "TLSv" + AsString(version) && t.kind == TLS
    ensures t.location == version.location
    ensures t.children.Keys == {Version} && t.children[Version] == version
    ensures WellFormed(version) ==> WellFormed(t)
  {
    Put(Node("TLS", TLS, "TLSv" + AsString(version), NoValue, {Protocol}, map[], version.location), version)
  }

  /** `getVersion()`. */
  function GetVersion(t: Node): (r: Option<Node>)
    ensures r.Some? <==> Version in t.children
    ensures r.Some? ==> r.value == t.children[Version]
  {
    if Version in t.children then Some(t.children[Version]) else None
  }

  /** `getCipherSuits()`. */
  function GetCipherSuits(t: Node): (r: Option<Node>)
    ensures r.Some? <==> CipherSuiteCollection in t.children
    ensures r.Some? ==> r.value == t.children[CipherSuiteCollection]
  {
    if CipherSuiteCollection in t.children then Some(t.children[CipherSuiteCollection]) else None
  }

  /** The version a TLS node is built from is the version it reports, and
      it has no cipher suites yet; a bare TLS node reports neither. */
  lemma TlsVersionRoundTrip(version: Node, loc: Location)
    requires version.kind == Version
    ensures GetVersion(TlsWithVersion(version)) == Some(version)
    ensures GetCipherSuits(TlsWithVersion(version)) == None
    ensures GetVersion(NewTls(loc)) == None && GetCipherSuits(NewTls(loc)) == None
  {
  }

  /** For example, version "1.3" gives a node named "TLSv1.3". */
  lemma TlsNamedAfterVersion(loc: Location)
    ensures TlsWithVersion(VersionNode("1.3", loc)).name == "TLSv1.3"
  {
  }
}
