/**
  Three rule catalogues, each written as the builder chain its class
  declares: the JCA `GCMParameterSpec` and `DESedeKeySpec` constructors, and
  Bouncy Castle's legacy `NTRUSigningPublicKeyParameters` constructors with
  the `NTRUSigningParameters` base constructors they depend on.
 */
module DetectionRules {
  import opened JavaText
  import opened RuleBuilder

  const GcmParameterSpecType := "javax.crypto.spec.GCMParameterSpec"
  const DesedeKeySpecType := "javax.crypto.spec.DESedeKeySpec"
  const NtruSigningParametersType := "org.bouncycastle.pqc.legacy.crypto.ntru.NTRUSigningParameters"
  const NtruSigningPublicKeyParametersType := "org.bouncycastle.pqc.legacy.crypto.ntru.NTRUSigningPublicKeyParameters"
  const DigestType := "org.bouncycastle.crypto.Digest"
  const InputStreamType := "java.io.InputStream"
  const IntegerPolynomialType := "org.bouncycastle.pqc.legacy.math.ntru.polynomial.IntegerPolynomial"
  /** The byte-array type shortcut the rules share. */
  const ByteArrayType := "byte[]"

  // ---------------------------------------------------------------------
  // The rules, as their builder chains declare them
  // ---------------------------------------------------------------------

  const GcmParameterSpec1 := EmptyRule
    .ForObjectTypes([GcmParameterSpecType]).ForConstructor()
    .ShouldBeDetectedAs(ModeOf("GCM"))
    .WithMethodParameter("int").ShouldBeDetectedAs(TagSize(Bit))
    .WithMethodParameter("byte[]").ShouldBeDetectedAs(InitializationVectorSize(Byte))
    .BuildForContext(AlgorithmParameterContext).InBundle("Jca").WithoutDependingDetectionRules()

  const GcmParameterSpec2 := EmptyRule
    .ForObjectTypes([GcmParameterSpecType]).ForConstructor()
    .ShouldBeDetectedAs(ModeOf("GCM"))
    .WithMethodParameter("int").ShouldBeDetectedAs(TagSize(Bit))
    .WithMethodParameter("byte[]")
    .WithMethodParameter("int")
    .WithMethodParameter("int").ShouldBeDetectedAs(InitializationVectorSize(Byte))
    .BuildForContext(AlgorithmParameterContext).InBundle("Jca").WithoutDependingDetectionRules()

  const DesedeKeySpec1 := EmptyRule
    .ForObjectTypes([DesedeKeySpecType]).ForConstructor()
    .WithMethodParameter(ByteArrayType).ShouldBeDetectedAs(KeySize)
    .BuildForContext(SecretKeyContext(DESede)).InBundle("Jca").WithoutDependingDetectionRules()

  const DesedeKeySpec2 := EmptyRule
    .ForObjectTypes([DesedeKeySpecType]).ForConstructor()
    .WithMethodParameter(ByteArrayType).ShouldBeDetectedAs(KeySize)
    .WithMethodParameter("int")
    .BuildForContext(SecretKeyContext(DESede)).InBundle("Jca").WithoutDependingDetectionRules()

  const NtruBaseConstructor1 := EmptyRule
    .ForObjectTypes([NtruSigningParametersType]).ForConstructor()
    .WithMethodParameter("int").WithMethodParameter("int").WithMethodParameter("int").WithMethodParameter("int")
    .WithMethodParameter("double").WithMethodParameter("double")
    .WithMethodParameter(DigestType).AddDependingDetectionRules(BcDigestRules)
    .BuildForContext(AlgorithmParameterContext).InBundle("Bc").WithoutDependingDetectionRules()

  const NtruBaseConstructor2 := EmptyRule
    .ForObjectTypes([NtruSigningParametersType]).ForConstructor()
    .WithMethodParameter("int").WithMethodParameter("int").WithMethodParameter("int")
    .WithMethodParameter("int").WithMethodParameter("int").WithMethodParameter("int")
    .WithMethodParameter("double").WithMethodParameter("double").WithMethodParameter("double")
    .WithMethodParameter(DigestType).AddDependingDetectionRules(BcDigestRules)
    .BuildForContext(AlgorithmParameterContext).InBundle("Bc").WithoutDependingDetectionRules()

  /** The public-key constructors differ only in their first parameter. */
  function NtruPublicKeyConstructor(keyType: string): Rule {
    EmptyRule
      .ForObjectTypes([NtruSigningPublicKeyParametersType]).ForConstructor()
      .WithMethodParameter(keyType)
      .WithMethodParameter(NtruSigningParametersType).AddDependingDetectionRules(NtruBaseConstructors)
      .BuildForContext(AlgorithmParameterContext).InBundle("Bc").WithoutDependingDetectionRules()
  }

  const NtruPublicKeyConstructor1 := NtruPublicKeyConstructor(ByteArrayType)
  const NtruPublicKeyConstructor2 := NtruPublicKeyConstructor(InputStreamType)
  const NtruPublicKeyConstructor3 := NtruPublicKeyConstructor(IntegerPolynomialType)

  /** `BcDigests.rules()`, treated as one group. */
  const BcDigestRules: seq<RuleId> := [BcDigests]

  /** `BASE_CONSTRUCTORS`. */
  const NtruBaseConstructors: seq<RuleId> := [NtruBase1, NtruBase2]

  /** The rule behind a name; none for the digest catalogue, which is not
      part of this model. */
  function RuleOf(id: RuleId): (r: Option<Rule>)
    ensures r.Some? <==> id != BcDigests
  {
    match id
    case GcmSpec1 => Some(GcmParameterSpec1)
    case GcmSpec2 => Some(GcmParameterSpec2)
    case DesedeSpec1 => Some(DesedeKeySpec1)
    case DesedeSpec2 => Some(DesedeKeySpec2)
    case NtruBase1 => Some(NtruBaseConstructor1)
    case NtruBase2 => Some(NtruBaseConstructor2)
    case NtruPublicKey1 => Some(NtruPublicKeyConstructor1)
    case NtruPublicKey2 => Some(NtruPublicKeyConstructor2)
    case NtruPublicKey3 => Some(NtruPublicKeyConstructor3)
    case BcDigests => None
  }

  // ---------------------------------------------------------------------
  // The catalogues' `rules()`
  // ---------------------------------------------------------------------

  const JcaGcmParameterSpecRules: seq<RuleId> := [GcmSpec1, GcmSpec2]
  const JcaDesedeKeySpecRules: seq<RuleId> := [DesedeSpec1, DesedeSpec2]
  const BcNtruSigningPublicKeyParametersRules: seq<RuleId> := [NtruPublicKey1, NtruPublicKey2, NtruPublicKey3]

  /** A rule no other rule has to match for: nothing at the top level and
      nothing on any parameter. */
  predicate Standalone(r: Rule) {
    r.dependents == [] && forall i :: 0 <= i < |r.parameters| ==> r.parameters[i].dependents == []
  }

  lemma StandaloneHasNoDependents(r: Rule)
    requires Standalone(r)
    ensures AllDependents(r) == {}
  {
    if d :| d in AllDependents(r) {
      var i :| 0 <= i < |r.parameters| && d in r.parameters[i].dependents;
    }
  }

  // ---------------------------------------------------------------------
  // GCMParameterSpec
  // ---------------------------------------------------------------------

  /** `GCMParameterSpec(int tLen, byte[] src)`: the call is detected as mode
      GCM, the `int` as a tag size in bits and the array as an
      initialisation-vector size in bytes. */
  lemma GcmSpec1Shape()
    ensures var r := GcmParameterSpec1;
            && r.objectTypes == [GcmParameterSpecType] && r.isConstructor
            && r.callDetection == Some(ModeOf("GCM"))
            && ParameterTypes(r) == ["int", "byte[]"]
            && r.parameters[0].extraction == Some(TagSize(Bit))
            && r.parameters[1].extraction == Some(InitializationVectorSize(Byte))
    ensures GcmParameterSpec1.context == Some(AlgorithmParameterContext) && GcmParameterSpec1.bundle == Some("Jca")
    ensures Standalone(GcmParameterSpec1)
  {
  }

  /** `GCMParameterSpec(int tLen, byte[] src, int offset, int len)`: the
      initialisation-vector size is attached to the last `int`, the length;
      nothing is detected on the array or the offset. */
  lemma GcmSpec2Shape()
    ensures var r := GcmParameterSpec2;
            && r.objectTypes == [GcmParameterSpecType] && r.isConstructor
            && r.callDetection == Some(ModeOf("GCM"))
            && ParameterTypes(r) == ["int", "byte[]", "int", "int"]
            && r.parameters[0].extraction == Some(TagSize(Bit))
            && r.parameters[1].extraction == None
            && r.parameters[2].extraction == None
            && r.parameters[3].extraction == Some(InitializationVectorSize(Byte))
    ensures GcmParameterSpec2.context == Some(AlgorithmParameterContext) && GcmParameterSpec2.bundle == Some("Jca")
    ensures Standalone(GcmParameterSpec2)
  {
  }

  /** `rules()` lists the two GCM rules in declaration order; both target the
      `GCMParameterSpec` constructor, detect the call as mode GCM and the
      first `int` as a tag size in bits, and depend on nothing. */
  lemma GcmCatalogue()
    ensures |JcaGcmParameterSpecRules| == 2
    ensures RuleOf(JcaGcmParameterSpecRules[0]) == Some(GcmParameterSpec1)
    ensures RuleOf(JcaGcmParameterSpecRules[1]) == Some(GcmParameterSpec2)
    ensures forall id :: id in JcaGcmParameterSpecRules ==>
              var r := RuleOf(id).value;
              && r.objectTypes == [GcmParameterSpecType] && r.isConstructor
              && r.callDetection == Some(ModeOf("GCM"))
              && r.parameters[0].extraction == Some(TagSize(Bit))
              && r.context == Some(AlgorithmParameterContext) && r.bundle == Some("Jca")
              && AllDependents(r) == {}
  {
    GcmSpec1Shape();
    GcmSpec2Shape();
    StandaloneHasNoDependents(GcmParameterSpec1);
    StandaloneHasNoDependents(GcmParameterSpec2);
  }

  // ---------------------------------------------------------------------
  // DESedeKeySpec
  // ---------------------------------------------------------------------

  /** `DESedeKeySpec(byte[] key)`: the key size is read off the array. */
  lemma DesedeSpec1Shape()
    ensures var r := DesedeKeySpec1;
            && r.objectTypes == [DesedeKeySpecType] && r.isConstructor && r.callDetection == None
            && ParameterTypes(r) == [ByteArrayType]
            && r.parameters[0].extraction == Some(KeySize)
    ensures DesedeKeySpec1.context == Some(SecretKeyContext(DESede)) && DesedeKeySpec1.bundle == Some("Jca")
    ensures Standalone(DesedeKeySpec1)
  {
  }

  /** `DESedeKeySpec(byte[] key, int offset)`: the key size is read off the
      array and nothing off the offset. */
  lemma DesedeSpec2Shape()
    ensures var r := DesedeKeySpec2;
            && r.objectTypes == [DesedeKeySpecType] && r.isConstructor && r.callDetection == None
            && ParameterTypes(r) == [ByteArrayType, "int"]
            && r.parameters[0].extraction == Some(KeySize)
            && r.parameters[1].extraction == None
    ensures DesedeKeySpec2.context == Some(SecretKeyContext(DESede)) && DesedeKeySpec2.bundle == Some("Jca")
    ensures Standalone(DesedeKeySpec2)
  {
  }

  /** `rules()` lists the two DESede rules in declaration order; both
      produce DESede secret-key findings in the Jca bundle and depend on
      nothing. */
  lemma DesedeCatalogue()
    ensures |JcaDesedeKeySpecRules| == 2
    ensures RuleOf(JcaDesedeKeySpecRules[0]) == Some(DesedeKeySpec1)
    ensures RuleOf(JcaDesedeKeySpecRules[1]) == Some(DesedeKeySpec2)
    ensures forall id :: id in JcaDesedeKeySpecRules ==>
              var r := RuleOf(id).value;
              && r.objectTypes == [DesedeKeySpecType]
              && r.parameters[0].extraction == Some(KeySize)
              && r.context == Some(SecretKeyContext(DESede)) && r.bundle == Some("Jca")
              && AllDependents(r) == {}
  {
    DesedeSpec1Shape();
    DesedeSpec2Shape();
    StandaloneHasNoDependents(DesedeKeySpec1);
    StandaloneHasNoDependents(DesedeKeySpec2);
  }

  // ---------------------------------------------------------------------
  // NTRUSigningPublicKeyParameters
  // ---------------------------------------------------------------------

  /** `NTRUSigningParameters(int, int, int, int, double, double, Digest)`:
      the digest rules are wired to the `Digest`, the last parameter, and
      nowhere else. */
  lemma NtruBase1Shape()
    ensures ParameterTypes(NtruBaseConstructor1) == ["int", "int", "int", "int", "double", "double", DigestType]
    ensures NtruBaseConstructor1.parameters[6].dependents == BcDigestRules
    ensures forall i :: 0 <= i < 6 ==> NtruBaseConstructor1.parameters[i].dependents == []
    ensures NtruBaseConstructor1.dependents == []
    ensures NtruBaseConstructor1.objectTypes == [NtruSigningParametersType] && NtruBaseConstructor1.isConstructor
    ensures NtruBaseConstructor1.context == Some(AlgorithmParameterContext) && NtruBaseConstructor1.bundle == Some("Bc")
  {
  }

  /** `NTRUSigningParameters(int × 6, double × 3, Digest)`: likewise, with
      the digest rules on parameter 9. */
  lemma NtruBase2Shape()
    ensures ParameterTypes(NtruBaseConstructor2)
            == ["int", "int", "int", "int", "int", "int", "double", "double", "double", DigestType]
    ensures NtruBaseConstructor2.parameters[9].dependents == BcDigestRules
    ensures forall i :: 0 <= i < 9 ==> NtruBaseConstructor2.parameters[i].dependents == []
    ensures NtruBaseConstructor2.dependents == []
    ensures NtruBaseConstructor2.objectTypes == [NtruSigningParametersType] && NtruBaseConstructor2.isConstructor
    ensures NtruBaseConstructor2.context == Some(AlgorithmParameterContext) && NtruBaseConstructor2.bundle == Some("Bc")
  {
  }

  /** A public-key constructor: the key material, then the
      `NTRUSigningParameters`, on which the base-constructor rules must
      match. */
  lemma NtruPublicKeyShape(keyType: string)
    ensures var r := NtruPublicKeyConstructor(keyType);
            && ParameterTypes(r) == [keyType, NtruSigningParametersType]
            && r.parameters[0].dependents == []
            && r.parameters[1].dependents == NtruBaseConstructors
            && r.parameters[0].extraction == None && r.parameters[1].extraction == None
            && r.objectTypes == [NtruSigningPublicKeyParametersType] && r.isConstructor
            && r.callDetection == None
            && r.context == Some(AlgorithmParameterContext) && r.bundle == Some("Bc") && r.dependents == []
  {
  }

  /** `rules()` exports the three public-key constructors, in declaration
      order, and not the base constructors. */
  lemma NtruCatalogue()
    ensures |BcNtruSigningPublicKeyParametersRules| == 3
    ensures RuleOf(BcNtruSigningPublicKeyParametersRules[0]) == Some(NtruPublicKeyConstructor1)
    ensures RuleOf(BcNtruSigningPublicKeyParametersRules[1]) == Some(NtruPublicKeyConstructor2)
    ensures RuleOf(BcNtruSigningPublicKeyParametersRules[2]) == Some(NtruPublicKeyConstructor3)
    ensures NtruBase1 !in BcNtruSigningPublicKeyParametersRules
    ensures NtruBase2 !in BcNtruSigningPublicKeyParametersRules
  {
  }

  /** The three public-key constructors' parameter lists differ only in the
      first type: an array, a stream or a polynomial. */
  lemma NtruPublicKeyVariants()
    ensures ParameterTypes(NtruPublicKeyConstructor1) == [ByteArrayType, NtruSigningParametersType]
    ensures ParameterTypes(NtruPublicKeyConstructor2) == [InputStreamType, NtruSigningParametersType]
    ensures ParameterTypes(NtruPublicKeyConstructor3) == [IntegerPolynomialType, NtruSigningParametersType]
  {
    NtruPublicKeyShape(ByteArrayType);
    NtruPublicKeyShape(InputStreamType);
    NtruPublicKeyShape(IntegerPolynomialType);
  }

  // ---------------------------------------------------------------------
  // The dependency graph
  // ---------------------------------------------------------------------

  /** The rules a rule depends on. */
  function Dependents(id: RuleId): set<RuleId> {
    match RuleOf(id)
    case Some(r) => AllDependents(r)
    case None => {}
  }

  /** A rule whose dependents all sit on one parameter has exactly those. */
  lemma DependentsOnOneParameter(r: Rule, k: nat)
    requires k < |r.parameters| && r.dependents == []
    requires forall i :: 0 <= i < |r.parameters| && i != k ==> r.parameters[i].dependents == []
    ensures AllDependents(r) == set d | d in r.parameters[k].dependents
  {
    forall d | d in AllDependents(r) ensures d in r.parameters[k].dependents {
      var i :| 0 <= i < |r.parameters| && d in r.parameters[i].dependents;
    }
  }

  lemma JcaDependents()
    ensures Dependents(GcmSpec1) == {} && Dependents(GcmSpec2) == {}
    ensures Dependents(DesedeSpec1) == {} && Dependents(DesedeSpec2) == {}
  {
    GcmCatalogue();
    DesedeCatalogue();
  }

  lemma NtruBase1Dependents()
    ensures Dependents(NtruBase1) == {BcDigests}
  {
    NtruBase1Shape();
    DependentsOnOneParameter(NtruBaseConstructor1, 6);
    assert AllDependents(NtruBaseConstructor1) == {BcDigests};
    assert RuleOf(NtruBase1) == Some(NtruBaseConstructor1);
  }

  lemma NtruBase2Dependents()
    ensures Dependents(NtruBase2) == {BcDigests}
  {
    NtruBase2Shape();
    DependentsOnOneParameter(NtruBaseConstructor2, 9);
    assert AllDependents(NtruBaseConstructor2) == {BcDigests};
    assert RuleOf(NtruBase2) == Some(NtruBaseConstructor2);
  }

  lemma NtruPublicKeyDependents(id: RuleId, keyType: string)
    requires RuleOf(id) == Some(NtruPublicKeyConstructor(keyType))
    ensures Dependents(id) == {NtruBase1, NtruBase2}
  {
    NtruPublicKeyShape(keyType);
    DependentsOnOneParameter(NtruPublicKeyConstructor(keyType), 1);
    assert AllDependents(NtruPublicKeyConstructor(keyType)) == {NtruBase1, NtruBase2};
  }

  /** The edges of the graph as the catalogues declare them. */
  function Edges(id: RuleId): set<RuleId> {
    match id
    case NtruBase1 | NtruBase2 => {BcDigests}
    case NtruPublicKey1 | NtruPublicKey2 | NtruPublicKey3 => {NtruBase1, NtruBase2}
    case _ => {}
  }

  /** The edge table is exactly the dependents the rules declare. */
  lemma DependentsAreEdges(id: RuleId)
    ensures Dependents(id) == Edges(id)
  {
    match id
    case GcmSpec1 | GcmSpec2 | DesedeSpec1 | DesedeSpec2 => JcaDependents();
    case NtruBase1 => NtruBase1Dependents();
    case NtruBase2 => NtruBase2Dependents();
    case NtruPublicKey1 => NtruPublicKeyDependents(NtruPublicKey1, ByteArrayType);
    case NtruPublicKey2 => NtruPublicKeyDependents(NtruPublicKey2, InputStreamType);
    case NtruPublicKey3 => NtruPublicKeyDependents(NtruPublicKey3, IntegerPolynomialType);
    case BcDigests =>
  }

  /** A height for every rule: the digest group at the bottom, the base
      constructors above it, the public-key constructors on top. */
  function Rank(id: RuleId): nat {
    match id
    case BcDigests => 0
    case NtruBase1 | NtruBase2 => 1
    case NtruPublicKey1 | NtruPublicKey2 | NtruPublicKey3 => 2
    case _ => 0
  }

  /** Every edge goes strictly down in rank. */
  lemma EdgesDescend(id: RuleId, d: RuleId)
    requires d in Edges(id)
    ensures Rank(d) < Rank(id)
  {
  }

  /** A path through the graph, following dependency edges. */
  predicate IsChain(p: seq<RuleId>) {
    |p| >= 1 && forall i :: 0 <= i < |p| - 1 ==> p[i + 1] in Edges(p[i])
  }

  /** Along a chain the rank falls by at least one per edge, so a chain
      never revisits a rule and has at most Rank + 1 members. */
  lemma {:induction false} ChainDescends(p: seq<RuleId>)
    requires IsChain(p)
    ensures |p| <= Rank(p[0]) + 1
    ensures forall i, j :: 0 <= i < j < |p| ==> Rank(p[j]) + (j - i) <= Rank(p[i])
  {
    if |p| > 1 {
      var q := p[1..];
      assert IsChain(q) by {
        forall i | 0 <= i < |q| - 1 ensures q[i + 1] in Edges(q[i]) {
          assert q[i + 1] == p[i + 2] && q[i] == p[i + 1];
        }
      }
      ChainDescends(q);
      EdgesDescend(p[0], p[1]);
      forall i, j | 0 <= i < j < |p| ensures Rank(p[j]) + (j - i) <= Rank(p[i]) {
        assert p[j] == q[j - 1];
        if i > 0 {
          assert p[i] == q[i - 1];
        } else {
          assert p[1] == q[0];
        }
      }
    }
  }

  /** The graph is acyclic: no chain returns to a rule it has visited. */
  lemma DependenciesAcyclic(p: seq<RuleId>)
    requires IsChain(p)
    ensures forall i, j :: 0 <= i < j < |p| ==> p[i] != p[j]
  {
    ChainDescends(p);
  }

  /** From every exported NTRU rule the dependency chain public key → base →
      digest has depth exactly two: such a chain exists and none is longer. */
  lemma NtruDependencyDepth()
    ensures forall root :: root in BcNtruSigningPublicKeyParametersRules ==> IsChain([root, NtruBase1, BcDigests])
    ensures forall p :: IsChain(p) && p[0] in BcNtruSigningPublicKeyParametersRules ==> |p| - 1 <= 2
  {
    forall p | IsChain(p) && p[0] in BcNtruSigningPublicKeyParametersRules ensures |p| - 1 <= 2 {
      ChainDescends(p);
    }
  }

  /** The base constructors are not exported: a chain from an exported
      rule reaches one only after at least one edge, and every exported rule
      has an edge to each. */
  lemma NtruBaseReachedOnlyAsDependents()
    ensures forall root, b :: root in BcNtruSigningPublicKeyParametersRules && b in NtruBaseConstructors ==>
              b in Edges(root)
    ensures forall p :: IsChain(p) && p[0] in BcNtruSigningPublicKeyParametersRules && p[|p| - 1] in NtruBaseConstructors ==>
              |p| >= 2
  {
  }
}
