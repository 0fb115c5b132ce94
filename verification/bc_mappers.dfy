/**
  Mappers for Bouncy Castle detection values: the integer a cipher's
  `init` receives as its operation mode, and the class name of a
  password-based-encryption parameters generator. A Java `null` string is
  `None`.
 */
module BcMappers {
  import opened JavaText
  import opened Nodes
  import opened Primitives
  import opened PasswordBasedEncryptions

  /** Bouncy Castle's mode constants: DECRYPTION = 0, ENCRYPTION = 1. */
  const DecryptionMode: Int32 := 0
  const EncryptionMode: Int32 := 1

  /** `BcOperationModeEncryptionMapper.parse`: the decimal mode 0 is
      Decrypt, 1 is Encrypt; anything else, including text that is not a
      Java `int`, yields nothing. */
  function BcOperationModeParse(str: Option<string>, loc: Location): (r: Option<Node>)
    ensures str.None? ==> r.None?
    ensures str.Some? ==>
              (r.Some? <==> ParseInt(str.value) == Some(DecryptionMode) || ParseInt(str.value) == Some(EncryptionMode))
    ensures r.Some? ==> r.value.children == map[] && r.value.location == loc
    ensures r.Some? ==> (r.value.kind == Decrypt <==> ParseInt(str.value) == Some(DecryptionMode))
    ensures r.Some? ==> (r.value.kind == Encrypt <==> ParseInt(str.value) == Some(EncryptionMode))
    ensures r.Some? ==> r.value.kind in {Encrypt, Decrypt}
  {
    match str
    case None => None
    case Some(s) =>
      match ParseInt(s)
      case None => None
      case Some(mode) =>
        if mode == DecryptionMode then Some(DecryptNode(loc))
        else if mode == EncryptionMode then Some(EncryptNode(loc))
        else None
  }

  /** Every Java `int` rendered in decimal maps by its value: 0 to Decrypt,
      1 to Encrypt, every other value to nothing. */
  lemma BcOperationModeOfDecimal(mode: Int32, loc: Location)
    ensures mode == 0 ==> BcOperationModeParse(Some(DecimalString(mode as int)), loc) == Some(DecryptNode(loc))
    ensures mode == 1 ==> BcOperationModeParse(Some(DecimalString(mode as int)), loc) == Some(EncryptNode(loc))
    ensures mode != 0 && mode != 1 ==> BcOperationModeParse(Some(DecimalString(mode as int)), loc) == None
  {
    ParseIntOfDecimalString(mode);
  }

  /** Signs and leading zeros are accepted as `parseInt` accepts them; an
      overflowing or non-numeric string is no mode at all. */
  lemma BcOperationModeExamples(loc: Location)
    ensures BcOperationModeParse(Some("1"), loc) == Some(EncryptNode(loc))
    ensures BcOperationModeParse(Some("+1"), loc) == Some(EncryptNode(loc))
    ensures BcOperationModeParse(Some("-0"), loc) == Some(DecryptNode(loc))
    ensures BcOperationModeParse(Some("2"), loc) == None
    ensures BcOperationModeParse(Some("true"), loc) == None
  {
  }

  /** A decimal that a 32-bit wrap-around would turn into 1 is rejected. */
  lemma BcOperationModeRejectsOverflow(loc: Location)
    ensures BcOperationModeParse(Some(DecimalString(0x1_0000_0001)), loc) == None
  {
    ParseIntRejectsOutOfRange(0x1_0000_0001);
  }

  // ---------------------------------------------------------------------
  // BcPbeMapper
  // ---------------------------------------------------------------------

  /** The generator class names the PBE mapper recognises. */
  predicate IsKnownPbeGenerator(s: string) {
    s in {"OpenSSLPBEParametersGenerator", "OpenSSLPBEParametersGenerator[MD5]",
          "PKCS12ParametersGenerator", "PKCS5S1ParametersGenerator", "PKCS5S2ParametersGenerator"}
  }

  /** `BcPbeMapper.map`: an exact, case-sensitive switch over the generator
      class name, falling back to a generic password-based-encryption
      Algorithm named by the input and marked Unknown. */
  function BcPbeMap(s: string, loc: Location): (r: Node)
    ensures s == "OpenSSLPBEParametersGenerator" || s == "PKCS5S1ParametersGenerator" ==> r == PbeNode("PBES1", loc)
    ensures s == "OpenSSLPBEParametersGenerator[MD5]" ==>
              r == Put(PbeNode("PBES1", loc), Md5Node(loc)) && r.children[MessageDigest] == Md5Node(loc)
    ensures s == "PKCS12ParametersGenerator" ==> r == PbeNode("PKCS12PBE", loc)
    ensures s == "PKCS5S2ParametersGenerator" ==> r == PbeNode("PBES2", loc)
    ensures !IsKnownPbeGenerator(s) ==>
              && r.cls == "Algorithm" && r.name == s && r.kind == PasswordBasedEncryption
              && r.children.Keys == {Unknown}
    ensures r.kind == PasswordBasedEncryption && r.location == loc
  {
    if s == "OpenSSLPBEParametersGenerator" then PbeNode("PBES1", loc)
    else if s == "OpenSSLPBEParametersGenerator[MD5]" then Put(PbeNode("PBES1", loc), Md5Node(loc))
    else if s == "PKCS12ParametersGenerator" then PbeNode("PKCS12PBE", loc)
    else if s == "PKCS5S1ParametersGenerator" then PbeNode("PBES1", loc)
    else if s == "PKCS5S2ParametersGenerator" then PbeNode("PBES2", loc)
    else Put(AlgorithmNode("Algorithm", s, PasswordBasedEncryption, {}, loc), UnknownNode(loc))
  }

  /** `BcPbeMapper.parse`: nothing for `null`, a node for every string. */
  function BcPbeParse(str: Option<string>, loc: Location): (r: Option<Node>)
    ensures r.Some? <==> str.Some?
    ensures str.Some? ==> r == Some(BcPbeMap(str.value, loc))
    ensures r.Some? ==> r.value.kind == PasswordBasedEncryption
  {
    match str
    case None => None
    case Some(s) => Some(BcPbeMap(s, loc))
  }

  /** A generator name is never dropped: the result carries the Unknown
      marker exactly when the name is not one the mapper recognises, and
      then it carries the name itself. */
  lemma BcPbeUnknownExactlyWhenUnrecognised(s: string, loc: Location)
    ensures Unknown in BcPbeMap(s, loc).children <==> !IsKnownPbeGenerator(s)
    ensures !IsKnownPbeGenerator(s) ==> AsString(BcPbeMap(s, loc)) == s
  {
  }

  /** Matching is case-sensitive: a differently cased known name is unknown. */
  lemma BcPbeIsCaseSensitive(loc: Location)
    ensures BcPbeMap("pkcs5s2parametersgenerator", loc).name == "pkcs5s2parametersgenerator"
    ensures Unknown in BcPbeMap("pkcs5s2parametersgenerator", loc).children
  {
  }

  /** Read through `PasswordBasedEncryption`'s lookups, a mapped generator
      carries a digest exactly when its name asks for MD5, and never a Mac. */
  lemma BcPbeDigestAndMac(s: string, loc: Location)
    ensures GetDigest(BcPbeMap(s, loc)).Some? <==> s == "OpenSSLPBEParametersGenerator[MD5]"
    ensures s == "OpenSSLPBEParametersGenerator[MD5]" ==> GetDigest(BcPbeMap(s, loc)) == Some(Md5Node(loc))
    ensures GetMac(BcPbeMap(s, loc)) == None
  {
  }
}
