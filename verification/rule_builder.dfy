/**
  Detection rules as plain data, and the fluent builder that produces them.
  A rule names the object types and the call it looks for, the declared
  parameter types, what to extract from the call and from each parameter,
  the context and bundle its findings belong to, and the rules that must
  match on a parameter's value for the finding to be complete.

  Rules refer to the rules they depend on by name (`RuleId`), so the
  dependency graph is a finite relation over names.
 */
module RuleBuilder {
  import opened JavaText

  /** The unit a size factory records. */
  datatype SizeUnit = Bit | Byte

  /** What a rule detects as a value: a fixed mode name for the call itself,
      or the size a value factory reads off an argument. */
  datatype Extraction =
    | ModeOf(mode: string)
    | TagSize(unit: SizeUnit)
    | InitializationVectorSize(unit: SizeUnit)
    | KeySize

  datatype KeyKind = DESede

  /** The detection context a rule builds its findings for. */
  datatype Context = AlgorithmParameterContext | SecretKeyContext(keyKind: KeyKind)

  /** The rules named in the modelled catalogues. `BcDigests` stands for the
      whole Bouncy Castle digest catalogue, whose rules are not part of this
      model. */
  datatype RuleId =
    | GcmSpec1 | GcmSpec2
    | DesedeSpec1 | DesedeSpec2
    | NtruBase1 | NtruBase2
    | NtruPublicKey1 | NtruPublicKey2 | NtruPublicKey3
    | BcDigests

  /** A declared parameter: its type, what is detected on it, and the rules
      that must match on the value passed there. */
  datatype Parameter = Parameter(typeName: string, extraction: Option<Extraction>, dependents: seq<RuleId>)

  /** A rule, and the builder calls that fill it in. A detection or a
      dependency declared after a parameter belongs to the most recently
      declared parameter; a detection declared before any parameter belongs
      to the call itself. */
  datatype Rule = Rule(
    objectTypes: seq<string>,
    isConstructor: bool,
    callDetection: Option<Extraction>,
    parameters: seq<Parameter>,
    context: Option<Context>,
    bundle: Option<string>,
    dependents: seq<RuleId>)
  {
    function ForObjectTypes(types: seq<string>): Rule {
      this.(objectTypes := types)
    }

    function ForConstructor(): Rule {
      this.(isConstructor := true)
    }

    /** Declares the next parameter, with nothing detected on it yet. */
    function WithMethodParameter(typeName: string): Rule {
      this.(parameters := parameters + [Parameter(typeName, None, [])])
    }

    /** Attaches a detection to the latest parameter, or to the call itself
      when no parameter has been declared. */
    function ShouldBeDetectedAs(e: Extraction): Rule {
      var n := |parameters|;
      if n == 0 then this.(callDetection := Some(e))
      else this.(parameters := parameters[n - 1 := parameters[n - 1].(extraction := Some(e))])
    }

    /** Declares the rules that must match on the latest parameter's value
      (on the call itself when no parameter has been declared). */
    function AddDependingDetectionRules(rules: seq<RuleId>): Rule {
      var n := |parameters|;
      if n == 0 then this.(dependents := dependents + rules)
      else this.(parameters := parameters[n - 1 := parameters[n - 1].(dependents := parameters[n - 1].dependents + rules)])
    }

    function BuildForContext(c: Context): Rule {
      this.(context := Some(c))
    }

    function InBundle(b: string): Rule {
      this.(bundle := Some(b))
    }

    /** Finishes the rule with no rules depending on the whole call. */
    function WithoutDependingDetectionRules(): Rule {
      this.(dependents := [])
    }
  }

  /** `createDetectionRule()`: nothing declared yet. */
  const EmptyRule := Rule([], false, None, [], None, None, [])

  /** The types of the declared parameters, in declaration order. */
  function ParameterTypes(r: Rule): (types: seq<string>)
    ensures |types| == |r.parameters|
    ensures forall i :: 0 <= i < |types| ==> types[i] == r.parameters[i].typeName
  {
    seq(|r.parameters|, i requires 0 <= i < |r.parameters| => r.parameters[i].typeName)
  }

  /** Every rule a rule depends on, at the top level or on any parameter. */
  function AllDependents(r: Rule): (s: set<RuleId>)
    ensures forall d :: d in r.dependents ==> d in s
    ensures forall i, d :: 0 <= i < |r.parameters| && d in r.parameters[i].dependents ==> d in s
    ensures forall d :: d in s ==> d in r.dependents || exists i :: 0 <= i < |r.parameters| && d in r.parameters[i].dependents
  {
    (set d | d in r.dependents) + (set i, d | 0 <= i < |r.parameters| && d in r.parameters[i].dependents :: d)
  }

  /** Declaring a parameter appends it, with nothing detected on it and no
      dependents, after the parameters already declared. */
  lemma ParametersAreAppended(r: Rule, typeName: string)
    ensures ParameterTypes(r.WithMethodParameter(typeName)) == ParameterTypes(r) + [typeName]
    ensures var r' := r.WithMethodParameter(typeName);
            && r'.parameters[..|r.parameters|] == r.parameters
            && r'.parameters[|r.parameters|] == Parameter(typeName, None, [])
            && r'.(parameters := r.parameters) == r
  {
  }

  /** A detection goes to the latest parameter, or to the call itself when
      no parameter has been declared; nothing else changes. */
  lemma DetectionGoesToLatestParameter(r: Rule, e: Extraction)
    ensures ParameterTypes(r.ShouldBeDetectedAs(e)) == ParameterTypes(r)
    ensures |r.parameters| == 0 ==> r.ShouldBeDetectedAs(e) == r.(callDetection := Some(e))
    ensures |r.parameters| > 0 ==>
              var n := |r.parameters|;
              var r' := r.ShouldBeDetectedAs(e);
              && r'.parameters[..n - 1] == r.parameters[..n - 1]
              && r'.parameters[n - 1] == r.parameters[n - 1].(extraction := Some(e))
              && r'.(parameters := r.parameters) == r
  {
  }

  /** Depending rules go to the latest parameter, or to the call itself when
      no parameter has been declared, after any declared before. */
  lemma DependentsGoToLatestParameter(r: Rule, rules: seq<RuleId>)
    ensures ParameterTypes(r.AddDependingDetectionRules(rules)) == ParameterTypes(r)
    ensures |r.parameters| == 0 ==> r.AddDependingDetectionRules(rules) == r.(dependents := r.dependents + rules)
    ensures |r.parameters| > 0 ==>
              var n := |r.parameters|;
              var r' := r.AddDependingDetectionRules(rules);
              && r'.parameters[..n - 1] == r.parameters[..n - 1]
              && r'.parameters[n - 1] == r.parameters[n - 1].(dependents := r.parameters[n - 1].dependents + rules)
              && r'.(parameters := r.parameters) == r
  {
  }

  /** Declaring a parameter after a detection never moves that detection:
      what was attached to parameter `i` stays on parameter `i`, whatever is
      declared afterwards. */
  lemma DetectionsStayPut(r: Rule, typeName: string, e: Extraction, i: nat)
    requires i < |r.parameters|
    ensures var r' := r.WithMethodParameter(typeName).ShouldBeDetectedAs(e);
            && r'.parameters[i] == r.parameters[i]
            && r'.parameters[|r.parameters|].extraction == Some(e)
  {
    ParametersAreAppended(r, typeName);
    var r1 := r.WithMethodParameter(typeName);
    assert r1.parameters[i] == r1.parameters[..|r.parameters|][i];
    DetectionGoesToLatestParameter(r1, e);
    var r' := r1.ShouldBeDetectedAs(e);
    assert r'.parameters[i] == r'.parameters[..|r1.parameters| - 1][i];
  }
}
