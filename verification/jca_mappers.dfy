/**
  Mappers for JCA algorithm names: key agreements and key encapsulation.
  Both upper-case and trim their input before an exact switch; a Java
  `null` string is `None`.
 */
module JcaMappers {
  import opened JavaText
  import opened Nodes
  import opened Primitives

  // ---------------------------------------------------------------------
  // JcaKeyAgreementMapper
  // ---------------------------------------------------------------------

  predicate IsKeyAgreementName(s: string) {
    s in {"ECDH", "X25519", "X448", "XDH"}
  }

  /** `JcaKeyAgreementMapper.parse`. The four recognised names happen to be
      the names of the classes they construct. */
  function KeyAgreementParse(str: Option<string>, loc: Location): (r: Option<Node>)
    ensures r.Some? <==> str.Some? && IsKeyAgreementName(Normalise(str.value))
    ensures r.Some? ==> r.value == KeyAgreementNode(Normalise(str.value), loc)
    ensures r.Some? ==> r.value.kind == KeyAgreement
  {
    match str
    case None => None
    case Some(s) => KeyAgreementOfName(Normalise(s), loc)
  }

  /** The switch over the normalised name. */
  function KeyAgreementOfName(name: string, loc: Location): (r: Option<Node>)
    ensures r.Some? <==> IsKeyAgreementName(name)
    ensures r.Some? ==> r.value == KeyAgreementNode(name, loc)
  {
    match name
    case "ECDH" => Some(KeyAgreementNode("ECDH", loc))
    case "X25519" => Some(KeyAgreementNode("X25519", loc))
    case "X448" => Some(KeyAgreementNode("X448", loc))
    case "XDH" => Some(KeyAgreementNode("XDH", loc))
    case _ => None
  }

  /** Normalising first changes nothing: the mapper only sees the upper-cased,
      trimmed name. */
  lemma KeyAgreementParseIgnoresNormalisation(s: string, loc: Location)
    ensures KeyAgreementParse(Some(Normalise(s)), loc) == KeyAgreementParse(Some(s), loc)
  {
    NormaliseIdempotent(s);
  }

  /** Case and surrounding whitespace do not matter: a name padded with
      blanks or control chars parses as the bare name does. */
  lemma KeyAgreementIgnoresPadding(pre: string, core: string, post: string, loc: Location)
    requires AllTrimmable(pre) && AllTrimmable(post)
    requires |core| > 0 && !IsTrimmable(core[0]) && !IsTrimmable(core[|core| - 1])
    ensures KeyAgreementParse(Some(pre + core + post), loc) == KeyAgreementParse(Some(core), loc)
  {
    NormalisePadded(pre, core, post);
    NormaliseUnpadded(core);
  }

  /** For example, " x25519\n" is X25519. */
  lemma KeyAgreementExample(loc: Location)
    ensures KeyAgreementParse(Some(" x25519\n"), loc) == Some(KeyAgreementNode("X25519", loc))
  {
    assert Normalise(" x25519\n") == "X25519" by {
      assert " x25519\n" == " " + "x25519" + "\n";
      NormalisePadded(" ", "x25519", "\n");
      UpperX25519();
    }
  }

  lemma UpperX25519()
    ensures ToUpper("x25519") == "X25519"
  {
    var u := ToUpper("x25519");
    assert u[0] == 'X' && u[1] == '2' && u[2] == '5' && u[3] == '5' && u[4] == '1' && u[5] == '9';
  }

  // ---------------------------------------------------------------------
  // JcaKemMapper
  // ---------------------------------------------------------------------

  /** The ML-KEM parameter set a (normalised) name selects; the bare name
      means ML-KEM-768. */
  function KemParameterSet(name: string): Option<Int32> {
    if name == "ML-KEM" || name == "ML-KEM-768" then Some(768)
    else if name == "ML-KEM-512" then Some(512)
    else if name == "ML-KEM-1024" then Some(1024)
    else None
  }

  /** The parameter set an ML-KEM node records. */
  function MlkemParameterSet(n: Node): Option<Int32> {
    match GetChild(n, ParameterSetIdentifier)
    case Some(p) => ParseInt(AsString(p))
    case None => None
  }

  /** `JcaKemMapper.parse`. */
  function KemParse(str: Option<string>, loc: Location): (r: Option<Node>)
    ensures r.Some? <==> str.Some? && KemParameterSet(Normalise(str.value)).Some?
    ensures r.Some? ==> r.value == MlkemNode(KemParameterSet(Normalise(str.value)).value, loc)
    ensures r.Some? ==> r.value.kind == KeyEncapsulationMechanism
    ensures r.Some? ==> MlkemParameterSet(r.value) == KemParameterSet(Normalise(str.value))
    ensures r.Some? ==> MlkemParameterSet(r.value).value in {512, 768, 1024}
  {
    match str
    case None => None
    case Some(s) => KemOfName(Normalise(s), loc)
  }

  /** The switch over the normalised name. */
  function KemOfName(name: string, loc: Location): (r: Option<Node>)
    ensures r.Some? <==> KemParameterSet(name).Some?
    ensures r.Some? ==> r.value == MlkemNode(KemParameterSet(name).value, loc)
    ensures r.Some? ==> r.value.kind == KeyEncapsulationMechanism
    ensures r.Some? ==> MlkemParameterSet(r.value) == KemParameterSet(name)
  {
    match name
    case "ML-KEM" => MlkemRecordsParameterSet(768, loc); Some(MlkemNode(768, loc))
    case "ML-KEM-768" => MlkemRecordsParameterSet(768, loc); Some(MlkemNode(768, loc))
    case "ML-KEM-512" => MlkemRecordsParameterSet(512, loc); Some(MlkemNode(512, loc))
    case "ML-KEM-1024" => MlkemRecordsParameterSet(1024, loc); Some(MlkemNode(1024, loc))
    case _ => None
  }

  lemma MlkemRecordsParameterSet(p: Int32, loc: Location)
    ensures MlkemParameterSet(MlkemNode(p, loc)) == Some(p)
    ensures MlkemNode(p, loc).kind == KeyEncapsulationMechanism
  {
    ParseIntOfDecimalString(p);
  }

  lemma KemParseIgnoresNormalisation(s: string, loc: Location)
    ensures KemParse(Some(Normalise(s)), loc) == KemParse(Some(s), loc)
  {
    NormaliseIdempotent(s);
  }

  /** Case and surrounding whitespace do not matter. */
  lemma KemIgnoresPadding(pre: string, core: string, post: string, loc: Location)
    requires AllTrimmable(pre) && AllTrimmable(post)
    requires |core| > 0 && !IsTrimmable(core[0]) && !IsTrimmable(core[|core| - 1])
    ensures KemParse(Some(pre + core + post), loc) == KemParse(Some(core), loc)
  {
    NormalisePadded(pre, core, post);
    NormaliseUnpadded(core);
  }

  /** The bare name means ML-KEM-768, whatever its case. */
  lemma KemExample(loc: Location)
    ensures KemParse(Some("ml-kem"), loc) == Some(MlkemNode(768, loc))
  {
    NormaliseUnpadded("ml-kem");
    assert ToUpper("ml-kem") == "ML-KEM";
    assert KemOfName("ML-KEM", loc) == Some(MlkemNode(768, loc));
  }
}
