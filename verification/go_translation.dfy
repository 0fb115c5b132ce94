/**
  The Go language translation: how the detection engine reads a Go call
  expression — its callee name, the type of the object it is invoked on,
  its return type and its parameter types — and which type comparison it
  applies. Outside a hook context, and unless a rule asks for exact types,
  a type name matches when the frontend type *is* it or is a subtype of it;
  otherwise only *is* counts.
 */
module GoTranslation {
  import opened JavaText

  /** A type as the Go frontend reports it: its answers to `is(name)`,
      `isSubtypeOf(name)` and `isUnknown()`, which are left uninterpreted. */
  datatype GoType = GoType(isType: string -> bool, isSubtypeOf: string -> bool, isUnknown: bool)

  /** What the frontend knows about a tree: `type()`, `symbolType()`,
      `returnType().type()` and the type of `enclosingClass()`, if any. */
  datatype Attributes = Attributes(
    ty: GoType,
    symbolType: GoType,
    returnType: GoType,
    enclosingClass: Option<GoType>)

  /** The shapes of Go syntax tree the translation distinguishes. */
  datatype Tree =
    | Identifier(name: string, attrs: Attributes)
    | MemberSelect(expression: Tree, identifier: string, attrs: Attributes)
    | FunctionInvocation(memberSelect: Tree, arguments: seq<Tree>, attrs: Attributes)
    | OtherTree(attrs: Attributes)

  /** `MatchContext`: whether the rule is a hook, whether the receiver must
      match exactly, and which parameters must. */
  datatype MatchContext = MatchContext(
    isHookContext: bool,
    objectShouldMatchExactTypes: bool,
    parametersShouldMatchExactTypes: seq<bool>)

  /** An `IType`: the predicate a rule's type name is checked against — the
      frontend type it asks, and whether subtypes are excluded. */
  datatype TypeMatcher = TypeMatcher(ty: GoType, exact: bool)

  /** `IType.is(typeName)`: an exact matcher asks only `is`; a relaxed one
      also accepts subtypes. */
  predicate Matches(m: TypeMatcher, typeName: string) {
    if m.exact then m.ty.isType(typeName)
    else m.ty.isType(typeName) || m.ty.isSubtypeOf(typeName)
  }

  /** Relaxed matching accepts everything exact matching accepts. */
  lemma ExactImpliesRelaxed(t: GoType, typeName: string)
    ensures Matches(TypeMatcher(t, true), typeName) ==> Matches(TypeMatcher(t, false), typeName)
    ensures Matches(TypeMatcher(t, false), typeName) <==> t.isType(typeName) || t.isSubtypeOf(typeName)
  {
  }

  /** The receiver and return-type comparison is exact in a hook context or
      when the rule asks for exact object types. */
  predicate ObjectExact(ctx: MatchContext) {
    ctx.isHookContext || ctx.objectShouldMatchExactTypes
  }

  // ---------------------------------------------------------------------
  // Callee name and identifiers
  // ---------------------------------------------------------------------

  /** `getMethodName`: the selected member's name for `x.f(...)`, the
      identifier for `f(...)`, nothing for any other callee or tree. */
  function GetMethodName(ctx: MatchContext, t: Tree): (r: Option<string>)
    ensures r.Some? ==> t.FunctionInvocation?
    ensures t.FunctionInvocation? && t.memberSelect.Identifier? ==> r == Some(t.memberSelect.name)
    ensures t.FunctionInvocation? && t.memberSelect.MemberSelect? ==> r == Some(t.memberSelect.identifier)
    ensures t.FunctionInvocation? ==> (r.Some? <==> t.memberSelect.Identifier? || t.memberSelect.MemberSelect?)
  {
    if t.FunctionInvocation? then
      match t.memberSelect
      case Identifier(name, _) => Some(name)
      case MemberSelect(_, identifier, _) => Some(identifier)
      case _ => None
    else None
  }

  /** `resolveIdentifierAsString`: an identifier's name, nothing otherwise. */
  function ResolveIdentifierAsString(ctx: MatchContext, t: Tree): (r: Option<string>)
    ensures r.Some? <==> t.Identifier?
    ensures r.Some? ==> r.value == t.name
  {
    if t.Identifier? then Some(t.name) else None
  }

  /** `getEnumIdentifierName`: resolved exactly like an identifier. */
  function GetEnumIdentifierName(ctx: MatchContext, t: Tree): (r: Option<string>)
    ensures r.Some? <==> t.Identifier?
    ensures r.Some? ==> r.value == t.name
  {
    ResolveIdentifierAsString(ctx, t)
  }

  /** `getEnumClassName`: never resolved for Go. */
  function GetEnumClassName(ctx: MatchContext, t: Tree): (r: Option<string>)
    ensures r.None?
  {
    None
  }

  // ---------------------------------------------------------------------
  // Object and return types
  // ---------------------------------------------------------------------

  /** `getMethodReturnTypeString`: the return type of an invocation's
      callee, compared exactly or relaxed as the context says. */
  function GetMethodReturnType(ctx: MatchContext, t: Tree): (r: Option<TypeMatcher>)
    ensures r.Some? <==> t.FunctionInvocation?
    ensures r.Some? ==> r.value.exact == ObjectExact(ctx)
    ensures r.Some? ==> forall s :: Matches(r.value, s) <==>
              (t.memberSelect.attrs.returnType.isType(s)
               || (!ObjectExact(ctx) && t.memberSelect.attrs.returnType.isSubtypeOf(s)))
  {
    if t.FunctionInvocation? then Some(TypeMatcher(t.memberSelect.attrs.returnType, ObjectExact(ctx)))
    else None
  }

  /** `getInvokedObjectTypeString`: for `f().g()` the inner call's return
      type; for `x.g()` the symbol type of `x`; for a callee whose own type
      is unknown, the type of its enclosing class, if any; otherwise the
      callee's type. */
  function GetInvokedObjectType(ctx: MatchContext, t: Tree): (r: Option<TypeMatcher>)
    ensures r.Some? ==> t.FunctionInvocation?
    ensures r.Some? ==> r.value.exact == ObjectExact(ctx)
    ensures t.FunctionInvocation? && t.memberSelect.MemberSelect? && t.memberSelect.expression.FunctionInvocation? ==>
              r.Some? && r.value.ty == t.memberSelect.expression.memberSelect.attrs.returnType
    ensures t.FunctionInvocation? && t.memberSelect.MemberSelect? && !t.memberSelect.expression.FunctionInvocation? ==>
              r.Some? && r.value.ty == t.memberSelect.expression.attrs.symbolType
    ensures t.FunctionInvocation? && !t.memberSelect.MemberSelect? && t.memberSelect.attrs.ty.isUnknown ==>
              (r.Some? <==> t.memberSelect.attrs.enclosingClass.Some?)
              && (r.Some? ==> r.value.ty == t.memberSelect.attrs.enclosingClass.value)
    ensures t.FunctionInvocation? && !t.memberSelect.MemberSelect? && !t.memberSelect.attrs.ty.isUnknown ==>
              r.Some? && r.value.ty == t.memberSelect.attrs.ty
  {
    if t.FunctionInvocation? then
      var callee := t.memberSelect;
      if callee.MemberSelect? && callee.expression.FunctionInvocation? then
        GetMethodReturnType(ctx, callee.expression)
      else if callee.MemberSelect? then
        Some(TypeMatcher(callee.expression.attrs.symbolType, ObjectExact(ctx)))
      else if callee.attrs.ty.isUnknown then
        match callee.attrs.enclosingClass
        case Some(c) => Some(TypeMatcher(c, ObjectExact(ctx)))
        case None => None
      else
        Some(TypeMatcher(callee.attrs.ty, ObjectExact(ctx)))
    else None
  }

  /** In a hook context the object type matches a name only if it *is* that
      type, never merely because it is a subtype. */
  lemma HookObjectTypeIsExact(ctx: MatchContext, t: Tree, s: string)
    requires ctx.isHookContext
    requires GetInvokedObjectType(ctx, t).Some?
    ensures Matches(GetInvokedObjectType(ctx, t).value, s) <==> GetInvokedObjectType(ctx, t).value.ty.isType(s)
  {
  }

  // ---------------------------------------------------------------------
  // Parameter types
  // ---------------------------------------------------------------------

  /** The type an argument is compared with: a nested call's return type,
      any other argument's symbol type. */
  function ArgumentType(argument: Tree): GoType {
    if argument.FunctionInvocation? then argument.memberSelect.attrs.returnType
    else argument.attrs.symbolType
  }

  /** Whether parameter `i` of a call with `count` arguments is compared
      exactly: always in a hook context; otherwise only when the rule's
      exact-match list has one entry per argument and that entry is set. */
  predicate ParameterExact(ctx: MatchContext, count: nat, i: nat) {
    ctx.isHookContext
    || (|ctx.parametersShouldMatchExactTypes| == count && i < count && ctx.parametersShouldMatchExactTypes[i])
  }

  /** `getMethodParameterTypes`: one matcher per argument, in argument order;
      none at all for a tree that is not a call or a call without arguments. */
  method GetMethodParameterTypes(ctx: MatchContext, t: Tree) returns (types: seq<TypeMatcher>)
    ensures !t.FunctionInvocation? ==> types == []
    ensures t.FunctionInvocation? ==> |types| == |t.arguments|
    ensures t.FunctionInvocation? ==> forall i :: 0 <= i < |types| ==>
              types[i].ty == ArgumentType(t.arguments[i])
              && types[i].exact == ParameterExact(ctx, |t.arguments|, i)
  {
    if !t.FunctionInvocation? {
      return [];
    }
    var arguments := t.arguments;
    if |arguments| == 0 {
      return [];
    }
    var matchMatrix := ctx.parametersShouldMatchExactTypes;
    if |matchMatrix| != |arguments| {
      matchMatrix := seq(|arguments|, _ => false);
    }
    types := [];
    var i := 0;
    while i < |arguments|
      invariant 0 <= i <= |arguments| && |types| == i
      invariant forall j :: 0 <= j < i ==>
                  types[j].ty == ArgumentType(arguments[j])
                  && types[j].exact == ParameterExact(ctx, |arguments|, j)
    {
      var argument := arguments[i];
      var exactMatch := matchMatrix[i];
      if argument.FunctionInvocation? {
        var returnType := GetMethodReturnType(MatchContext(ctx.isHookContext, exactMatch, []), argument);
        if returnType.Some? {
          types := types + [returnType.value];
          i := i + 1;
          continue;
        }
      }
      types := types + [TypeMatcher(argument.attrs.symbolType, ctx.isHookContext || exactMatch)];
      i := i + 1;
    }
  }

  /** A hook context forces exact matching of every parameter, whatever the
      rule's exact-match list says. */
  lemma HookParametersAreExact(ctx: MatchContext, count: nat, i: nat)
    requires ctx.isHookContext
    ensures ParameterExact(ctx, count, i)
  {
  }

  /** An exact-match list of the wrong length is ignored: outside a hook
      context every parameter is then matched relaxed. */
  lemma MismatchedMatrixIsRelaxed(ctx: MatchContext, count: nat, i: nat, arg: Tree, s: string)
    requires !ctx.isHookContext && |ctx.parametersShouldMatchExactTypes| != count
    ensures !ParameterExact(ctx, count, i)
    ensures Matches(TypeMatcher(ArgumentType(arg), ParameterExact(ctx, count, i)), s)
            <==> ArgumentType(arg).isType(s) || ArgumentType(arg).isSubtypeOf(s)
  {
  }
}
