/**
 * The C# method generated for a stored procedure (`GenerateMethodCode`) and
 * the versions of it a package class gets (`GenerateAllMethodVersions`).
 */
module MethodSynthesis {
  import opened Wrappers
  import opened Ascii
  import CaseConverter
  import opened Metadata
  import opened Signature
  import opened Generics
  import opened Binding
  import opened Retrieval

  /** `GenerateMethodReturnType`: `void` for a procedure, the return value's C# type for a function. */
  function ReturnTypeOf(proc: Procedure, tr: Translator): (r: string)
    ensures proc.IsFunction() ==> r == tr.ArgType(proc.arguments[0], false)
    ensures !proc.IsFunction() ==> r == tr.voidTypeName
  {
    if !proc.IsFunction() then tr.voidTypeName else tr.ArgType(proc.arguments[0], false)
  }

  /** `public <return type> <name><type parameters>(<parameters>)`. */
  datatype MethodHeader = MethodHeader(returnType: string, name: string, typeParameters: seq<string>,
                                       parameters: seq<SignatureParameter>)

  /** The initial value given to the return variable or an OUT parameter before the call. */
  datatype InitialValue = NullInstance | NewInstance(typeName: string)

  /** `[type ]name = value;`: the type is declared only for the return variable. */
  datatype DefaultInit = DefaultInit(target: Target, declaredType: Option<string>, value: InitialValue)

  /**
   * A generated method. An ignored procedure gets only its header, commented
   * out, after the reason. `connectionParameter` is the parameter the method
   * takes its connection from before falling back to a connection of its own
   * (`conn = parameter ?? GetConnection()`), and `closeGuardParameter` the
   * one its `finally` block tests for null before closing and disposing that
   * connection. `traceReturnCount` is present when the return value is a
   * cursor, and says whether the count is taken of a DataTable's rows.
   */
  datatype MethodCode =
    | IgnoredMethod(reason: string, header: MethodHeader)
    | GeneratedMethod(header: MethodHeader, constraints: seq<Constraint>, defaults: seq<DefaultInit>,
                      connectionParameter: string, commandText: string, bindByName: bool, binds: seq<BindStep>,
                      retrieves: seq<RetrieveStep>, traceReturnCount: Option<bool>, closeGuardParameter: string,
                      returnsValue: bool)

  // ---------------------------------------------------------------------------
  // Default values of the return variable and OUT parameters

  /** The return value and the top-level arguments whose mode is exactly OUT start out defaulted. */
  predicate NeedsDefault(a: Argument) {
    a.isReturn || (a.dataLevel == 0 && a.mode == Out)
  }

  /**
   * The default of one such argument: a new collection for a generic
   * collection type (the concrete class when the type is an interface),
   * `null` otherwise.
   */
  function DefaultOf(a: Argument, tr: Translator): DefaultInit {
    var cSharpType := tr.ArgType(a, !a.isReturn);
    DefaultInit(if a.isReturn then ReturnVariable else ParameterVariable(tr.csharpName(a.name.GetOr([]), true)),
                if a.isReturn then Some(cSharpType) else None,
                if tr.isGenericCollection(cSharpType)
                then NewInstance(if tr.canBeInterface(a.dataType) then tr.ConcreteCollectionType(a, !a.isReturn) else cSharpType)
                else NullInstance)
  }

  /** The defaults of the first `n` arguments, in order. */
  function Defaults(args: seq<Argument>, n: nat, tr: Translator): seq<DefaultInit>
    requires n <= |args|
  {
    if n == 0 then []
    else Defaults(args, n - 1, tr) + (if NeedsDefault(args[n - 1]) then [DefaultOf(args[n - 1], tr)] else [])
  }

  /** The loop over the arguments that writes the defaults. */
  method DefaultInitialisations(args: seq<Argument>, tr: Translator) returns (defaults: seq<DefaultInit>)
    ensures defaults == Defaults(args, |args|, tr)
  {
    defaults := [];
    for k := 0 to |args|
      invariant defaults == Defaults(args, k, tr)
    {
      var arg := args[k];
      if arg.isReturn || (arg.dataLevel == 0 && arg.mode == Out) {
        var cSharpType := tr.ArgType(arg, !arg.isReturn);
        var cSharpName := if arg.isReturn then ReturnVariable else ParameterVariable(tr.csharpName(arg.name.GetOr([]), true));
        var value := NullInstance;
        if tr.isGenericCollection(cSharpType) {
          value := NewInstance(if tr.canBeInterface(arg.dataType) then tr.ConcreteCollectionType(arg, !arg.isReturn) else cSharpType);
        }
        defaults := defaults + [DefaultInit(cSharpName, if arg.isReturn then Some(cSharpType) else None, value)];
      }
    }
  }

  /** Every argument that needs a default among the first `n` gets exactly its default, and nothing else does. */
  lemma {:induction false} DefaultsExactly(args: seq<Argument>, n: nat, tr: Translator, d: DefaultInit)
    requires n <= |args|
    ensures d in Defaults(args, n, tr) <==> exists k :: 0 <= k < n && NeedsDefault(args[k]) && d == DefaultOf(args[k], tr)
  {
    if n > 0 {
      DefaultsExactly(args, n - 1, tr, d);
      if exists k :: 0 <= k < n && NeedsDefault(args[k]) && d == DefaultOf(args[k], tr) {
        var k :| 0 <= k < n && NeedsDefault(args[k]) && d == DefaultOf(args[k], tr);
        if k < n - 1 {
          assert d in Defaults(args, n - 1, tr);
        }
      }
    }
  }

  /** A function's return value can only be its first argument. */
  predicate ReturnFirst(args: seq<Argument>) {
    forall k :: 0 < k < |args| ==> !args[k].isReturn
  }

  /**
   * The defaults are written when the procedure is a function or has an OUT
   * argument, which, with the return value first, is exactly when some
   * argument needs one: so the guard never drops a default.
   */
  lemma DefaultsGuard(proc: Procedure, tr: Translator)
    requires ReturnFirst(proc.arguments)
    ensures (proc.IsFunction() || proc.HasOutArgument()) <==> exists k :: 0 <= k < |proc.arguments| && NeedsDefault(proc.arguments[k])
  {
    var args := proc.arguments;
    if exists k :: 0 <= k < |args| && NeedsDefault(args[k]) {
      var k :| 0 <= k < |args| && NeedsDefault(args[k]);
      if !args[k].isReturn {
        assert args[k].dataLevel == 0 && args[k].mode == Out;
      }
    }
    if proc.IsFunction() {
      assert NeedsDefault(args[0]);
    }
  }

  /** The defaults do not depend on a cursor mode the mapping of the arguments ignores. */
  lemma {:induction false} DefaultsModeBlind(args: seq<Argument>, n: nat, tr: Translator)
    requires n <= |args| && CursorModeBlind(args, tr)
    ensures Defaults(args, n, tr.InCursorMode(true)) == Defaults(args, n, tr.InCursorMode(false))
  {
    if n > 0 {
      DefaultsModeBlind(args, n - 1, tr);
      assert args[n - 1] in args;
    }
  }

  // ---------------------------------------------------------------------------
  // The command

  /** `SCHEMA.[PACKAGE.]PROCEDURE`: the schema upper-cased. */
  function CommandText(schema: string, proc: Procedure): string {
    Upper(schema) + "." + (if IsNullOrEmpty(proc.packageName) then [] else proc.packageName.value + ".") + proc.procedureName
  }

  predicate NoDot(s: string) { forall i :: 0 <= i < |s| ==> s[i] != '.' }

  lemma UpperNoDot(s: string)
    requires NoDot(s)
    ensures NoDot(Upper(s))
  {
  }

  /**
   * For dot-free names the command text reads back as the upper-cased
   * schema, the package (when there is one) and the procedure name.
   */
  lemma CommandTextSegments(schema: string, proc: Procedure)
    requires NoDot(schema) && NoDot(proc.procedureName)
    requires proc.packageName.Some? ==> NoDot(proc.packageName.value)
    ensures CaseConverter.Split(CommandText(schema, proc), '.')
      == [Upper(schema)] + (if IsNullOrEmpty(proc.packageName) then [] else [proc.packageName.value]) + [proc.procedureName]
  {
    var u, name := Upper(schema), proc.procedureName;
    UpperNoDot(schema);
    CaseConverter.SplitNoDelim(name, '.');
    if IsNullOrEmpty(proc.packageName) {
      assert CommandText(schema, proc) == u + ['.'] + name;
      CaseConverter.SplitAfter(u, name, '.');
    } else {
      var p := proc.packageName.value;
      CaseConverter.SplitAfter(p, name, '.');
      assert CommandText(schema, proc) == u + ['.'] + (p + ['.'] + name);
      CaseConverter.SplitAfter(u, p + ['.'] + name, '.');
    }
  }

  // ---------------------------------------------------------------------------
  // GenerateMethodCode

  function TypeNames(gs: seq<GenericType>): (r: seq<string>)
    ensures |r| == |gs| && forall i :: 0 <= i < |gs| ==> r[i] == gs[i].typeName
  {
    seq(|gs|, i requires 0 <= i < |gs| => gs[i].typeName)
  }

  function Constraints(gs: seq<GenericType>, dynamicMapping: bool, prefixLength: nat): seq<Constraint>
    requires forall i :: 0 <= i < |gs| ==> ConstraintDefined(gs[i], dynamicMapping, prefixLength)
  {
    seq(|gs|, i requires 0 <= i < |gs| => ConstraintOf(gs[i], dynamicMapping, prefixLength))
  }


  /** The generic types of a method: none unless cursors are read into generic lists. */
  function MethodGenericTypes(proc: Procedure, opts: Options, tr: Translator): seq<GenericType> {
    if tr.useGenericListForCursor then GenericTypes(proc.arguments, |proc.arguments|, opts.filter, tr) else []
  }

  /**
   * What the generated code of a procedure needs to exist: the element row
   * of each bound or retrieved associative array, the row type names the
   * static readers and interface constraints cut a prefix from.
   */
  predicate MethodCodeDefined(proc: Procedure, forceDynamicMapping: bool, opts: Options, tr: Translator) {
    proc.ignoredReason.None? ==>
      BindDefined(proc.arguments) && RetrieveDefined(proc.arguments, forceDynamicMapping, tr)
      && var gs := MethodGenericTypes(proc, opts, tr);
         forall i :: 0 <= i < |gs| ==> ConstraintDefined(gs[i], forceDynamicMapping, tr.genericPrefixLength)
  }

  function HeaderOf(proc: Procedure, pack: Package, forceDynamicMapping: bool, opts: Options, tr: Translator): MethodHeader
  {
    var gs := MethodGenericTypes(proc, opts, tr);
    MethodHeader(ReturnTypeOf(proc, tr), tr.methodName(proc, pack), TypeNames(gs),
                 SignatureParameters(proc.arguments, |gs| > 0, forceDynamicMapping, opts.isCSharp30, tr))
  }

  /** The return value is a REF CURSOR. */
  predicate ReturnsCursor(proc: Procedure) { proc.IsFunction() && proc.arguments[0].dataType == RefCursor }

  /** The method generated for a procedure, in the cursor mode of `tr`. */
  function MethodCodeOf(proc: Procedure, pack: Package, forceDynamicMapping: bool, opts: Options, tr: Translator): MethodCode
    requires MethodCodeDefined(proc, forceDynamicMapping, opts, tr)
  {
    var header := HeaderOf(proc, pack, forceDynamicMapping, opts, tr);
    if proc.ignoredReason.Some? then IgnoredMethod(proc.ignoredReason.value, header)
    else
      var args := proc.arguments;
      var gs := MethodGenericTypes(proc, opts, tr);
      GeneratedMethod(
        header,
        Constraints(gs, forceDynamicMapping, tr.genericPrefixLength),
        if proc.IsFunction() || proc.HasOutArgument() then Defaults(args, |args|, tr) else [],
        OracleConnectionParamName,
        CommandText(opts.schema, proc),
        !opts.isCSharp30,
        BindSteps(args, |args|, OptionalParameters(args, opts.isCSharp30), opts.maxAssocArraySize, tr),
        RetrieveSteps(args, |args|, gs, forceDynamicMapping, tr),
        if ReturnsCursor(proc) then Some(header.returnType == tr.dataTableTypeName) else None,
        OracleConnectionParamName,
        proc.IsFunction())
  }

  /** `GenerateMethodCode`; the global cursor mode is the one `tr` carries. */
  method GenerateMethodCode(proc: Procedure, pack: Package, forceDynamicMapping: bool, opts: Options, tr: Translator)
    returns (methodText: MethodCode)
    requires MethodCodeDefined(proc, forceDynamicMapping, opts, tr)
    ensures methodText == MethodCodeOf(proc, pack, forceDynamicMapping, opts, tr)
  {
    var methodReturnType := ReturnTypeOf(proc, tr);
    var genericTypesUsed: seq<GenericType> := [];
    if tr.useGenericListForCursor {
      genericTypesUsed := GetMethodGenericTypes(proc.arguments, opts.filter, tr);
    }
    var parameters := GenerateMethodArguments(proc.arguments, |genericTypesUsed| > 0, forceDynamicMapping,
                                              opts.isCSharp30, tr);
    var header := MethodHeader(methodReturnType, tr.methodName(proc, pack), TypeNames(genericTypesUsed), parameters);
    assert genericTypesUsed == MethodGenericTypes(proc, opts, tr);
    assert header == HeaderOf(proc, pack, forceDynamicMapping, opts, tr);
    if proc.ignoredReason.Some? {
      methodText := IgnoredMethod(proc.ignoredReason.value, header);
      return;
    }
    var constraints := GenerateMethodConstraints(genericTypesUsed, forceDynamicMapping, tr.genericPrefixLength);
    assert constraints == Constraints(genericTypesUsed, forceDynamicMapping, tr.genericPrefixLength);
    var defaults: seq<DefaultInit> := [];
    if proc.IsFunction() || proc.HasOutArgument() {
      defaults := DefaultInitialisations(proc.arguments, tr);
    }
    var binds := GenerateArgumentBindCode(proc.arguments, opts.isCSharp30, opts.maxAssocArraySize, tr);
    var retrieves := GenerateOutArgumentRetrieveCode(proc.arguments, genericTypesUsed, forceDynamicMapping, tr);
    methodText := GeneratedMethod(header, constraints, defaults, OracleConnectionParamName, CommandText(opts.schema, proc),
                                  !opts.isCSharp30, binds, retrieves,
                                  if ReturnsCursor(proc) then Some(methodReturnType == tr.dataTableTypeName) else None,
                                  OracleConnectionParamName, proc.IsFunction());
  }

  // ---------------------------------------------------------------------------
  // What a generated method promises

  /**
   * An ignored procedure gets no code at all, only its would-be header as a
   * comment; a procedure that is not ignored gets a method that returns a
   * value exactly when it is a function.
   */
  lemma IgnoredHasHeaderOnly(proc: Procedure, pack: Package, forceDynamicMapping: bool, opts: Options, tr: Translator)
    requires MethodCodeDefined(proc, forceDynamicMapping, opts, tr)
    ensures var m := MethodCodeOf(proc, pack, forceDynamicMapping, opts, tr);
      (m.IgnoredMethod? <==> proc.ignoredReason.Some?)
      && m.header == HeaderOf(proc, pack, forceDynamicMapping, opts, tr)
      && (m.GeneratedMethod? ==> (m.returnsValue <==> proc.IsFunction()))
  {
  }

  /**
   * A method has type parameters exactly in generic-list mode when some
   * argument is an OUT REF CURSOR, and then one per distinct row type, each
   * with one constraint.
   */
  lemma TypeParametersOfCursors(proc: Procedure, pack: Package, forceDynamicMapping: bool, opts: Options, tr: Translator)
    requires MethodCodeDefined(proc, forceDynamicMapping, opts, tr)
    ensures var m := MethodCodeOf(proc, pack, forceDynamicMapping, opts, tr);
      var ts := m.header.typeParameters;
      && (ts != [] <==> tr.useGenericListForCursor && exists i :: 0 <= i < |proc.arguments| && IsCursorOut(proc.arguments[i]))
      && (forall i, j :: 0 <= i < j < |ts| ==> ts[i] != ts[j])
      && (m.GeneratedMethod? ==> |m.constraints| == |ts|)
  {
    var args := proc.arguments;
    GenericsIffCursorOut(args, opts.filter, tr);
    GenericTypesDistinct(args, |args|, opts.filter, tr);
  }

  /**
   * In C# 3.0 mode a method binds by position, so it has no optional
   * parameter and binds every argument unconditionally; otherwise it binds
   * by name.
   */
  lemma CSharp30BindsByPosition(proc: Procedure, pack: Package, forceDynamicMapping: bool, opts: Options, tr: Translator)
    requires MethodCodeDefined(proc, forceDynamicMapping, opts, tr)
    requires proc.ignoredReason.None?
    ensures var m := MethodCodeOf(proc, pack, forceDynamicMapping, opts, tr);
      var args := proc.arguments;
      && (m.bindByName <==> !opts.isCSharp30)
      && (opts.isCSharp30 ==>
            Unguarded(Binds(m.binds))
            && forall i :: 0 <= i < |m.header.parameters| && m.header.parameters[i].Declared? ==> !m.header.parameters[i].optional)
  {
    var args := proc.arguments;
    if opts.isCSharp30 {
      var gs := MethodGenericTypes(proc, opts, tr);
      BindsAreBoundParameters(args, |args|, OptionalParameters(args, true), opts.maxAssocArraySize, tr);
      CSharp30BindsUnguarded(args, |args|, opts.maxAssocArraySize, tr);
      CSharp30HasNoDefaults(args, |gs| > 0, forceDynamicMapping, tr);
    }
  }

  /**
   * The cursor mode left over from the previous procedure does not change
   * the method of a procedure without REF CURSOR arguments, which
   * `GenerateAllMethodVersions` generates without setting the mode, as long
   * as the type mapping of its arguments does not read the mode.
   */
  lemma StaleCursorModeHarmless(proc: Procedure, pack: Package, opts: Options, tr: Translator)
    requires !proc.HasRefCursorArgument() && CursorModeBlind(proc.arguments, tr)
    requires MethodCodeDefined(proc, false, opts, tr.InCursorMode(true)) && MethodCodeDefined(proc, false, opts, tr.InCursorMode(false))
    ensures MethodCodeOf(proc, pack, false, opts, tr.InCursorMode(true)) == MethodCodeOf(proc, pack, false, opts, tr.InCursorMode(false))
  {
    var args := proc.arguments;
    HeaderModeBlind(proc, pack, opts, tr);
    if proc.ignoredReason.None? {
      DefaultsModeBlind(args, |args|, tr);
      BindStepsModeBlind(args, |args|, OptionalParameters(args, opts.isCSharp30), opts.maxAssocArraySize, tr);
      RetrieveStepsModeBlind(args, |args|, [], false, tr);
    }
  }

  lemma HeaderModeBlind(proc: Procedure, pack: Package, opts: Options, tr: Translator)
    requires !proc.HasRefCursorArgument() && CursorModeBlind(proc.arguments, tr)
    ensures MethodGenericTypes(proc, opts, tr.InCursorMode(true)) == []
    ensures HeaderOf(proc, pack, false, opts, tr.InCursorMode(true)) == HeaderOf(proc, pack, false, opts, tr.InCursorMode(false))
  {
    var args := proc.arguments;
    GenericsIffCursorOut(args, opts.filter, tr.InCursorMode(true));
    assert forall i :: 0 <= i < |args| ==> !IsCursorOut(args[i]);
    if proc.IsFunction() {
      assert args[0] in args;
    }
    DeclaredParametersModeBlind(args, OptionalParameters(args, opts.isCSharp30), tr);
  }

  // ---------------------------------------------------------------------------
  // The connection

  /**
   * The connection a generated method runs on: the one the caller passes in
   * the method's connection parameter, or else one it opens itself.
   * `passed` maps each parameter the caller sets to a non-null connection to
   * that connection.
   */
  function ConnectionUsed(m: MethodCode, passed: map<string, nat>, own: nat): nat
    requires m.GeneratedMethod?
  {
    if m.connectionParameter in passed then passed[m.connectionParameter] else own
  }

  /** The connections a generated method closes and disposes in its `finally` block. */
  function ConnectionsClosed(m: MethodCode, passed: map<string, nat>, own: nat): set<nat>
    requires m.GeneratedMethod?
  {
    if m.closeGuardParameter in passed then {} else {ConnectionUsed(m, passed, own)}
  }

  /**
   * A generated method takes its connection from its last parameter, the
   * caller's optional connection: when the caller passes one, the method
   * runs on it and never closes it; otherwise it runs on a connection of
   * its own and always closes that.
   */
  lemma ConnectionOwnership(proc: Procedure, pack: Package, forceDynamicMapping: bool, opts: Options, tr: Translator,
                            passed: map<string, nat>, own: nat)
    requires MethodCodeDefined(proc, forceDynamicMapping, opts, tr)
    requires proc.ignoredReason.None?
    ensures var m := MethodCodeOf(proc, pack, forceDynamicMapping, opts, tr);
      var ps := m.header.parameters;
      && |ps| > 0 && ps[|ps| - 1].OracleConnectionParameter?
      && var conn := ps[|ps| - 1].name;
      && (conn in passed ==>
            ConnectionUsed(m, passed, own) == passed[conn] && ConnectionsClosed(m, passed, own) == {})
      && (conn !in passed ==>
            ConnectionUsed(m, passed, own) == own && ConnectionsClosed(m, passed, own) == {own})
  {
    var gs := MethodGenericTypes(proc, opts, tr);
    SignatureEndsWithConnection(proc.arguments, |gs| > 0, forceDynamicMapping, opts.isCSharp30, tr);
  }

  // ---------------------------------------------------------------------------
  // GenerateAllMethodVersions

  /** One version of a method: its mapping and whether cursors are read into generic lists. */
  datatype Version = Version(forceDynamicMapping: bool, useGenericListForCursor: bool)

  /**
   * The versions generated for a procedure, in order. Without a REF CURSOR
   * argument there is one, in the cursor mode left from before; with one,
   * a dynamic-mapping generic version (weak cursor or the option set, and
   * no IN cursor), a static generic version (strong cursors) and a
   * DataTable version (weak cursor and no IN cursor).
   */
  function Versions(proc: Procedure, opts: Options, cursorMode: bool): seq<Version> {
    if proc.HasRefCursorArgument() then DynamicVersion(proc, opts) + StaticVersion(proc) + DataTableVersion(proc)
    else [Version(false, cursorMode)]
  }

  function DynamicVersion(proc: Procedure, opts: Options): seq<Version> {
    if (proc.usesWeaklyTypedCursor || opts.isGenerateDynamicMappingMethodForTypedCursor) && !proc.hasInRefCursorArgument
    then [Version(true, true)] else []
  }

  function StaticVersion(proc: Procedure): seq<Version> {
    if !proc.usesWeaklyTypedCursor then [Version(false, true)] else []
  }

  function DataTableVersion(proc: Procedure): seq<Version> {
    if proc.usesWeaklyTypedCursor && !proc.hasInRefCursorArgument then [Version(true, false)] else []
  }

  /** The cursor mode after the versions of a procedure are generated. */
  function CursorModeAfter(proc: Procedure, cursorMode: bool): bool {
    if !proc.HasRefCursorArgument() then cursorMode
    else !(proc.usesWeaklyTypedCursor && !proc.hasInRefCursorArgument)
  }

  /** How many methods a procedure gets. */
  lemma VersionCount(proc: Procedure, opts: Options, cursorMode: bool)
    ensures var n, weak, inCursor := |Versions(proc, opts, cursorMode)|, proc.usesWeaklyTypedCursor, proc.hasInRefCursorArgument;
      && (!proc.HasRefCursorArgument() ==> n == 1)
      && (proc.HasRefCursorArgument() ==>
            && (weak && !inCursor ==> n == 2)
            && (weak && inCursor ==> n == 0)
            && (!weak ==> n == if opts.isGenerateDynamicMappingMethodForTypedCursor && !inCursor then 2 else 1))
  {
  }

  /**
   * The versions of a procedure with a cursor are all different; only the
   * DataTable version reads cursors without generics, and every version
   * without generics but with a cursor is a dynamic one.
   */
  lemma VersionsDistinct(proc: Procedure, opts: Options, cursorMode: bool)
    requires proc.HasRefCursorArgument()
    ensures var vs := Versions(proc, opts, cursorMode);
      (forall i, j :: 0 <= i < j < |vs| ==> vs[i] != vs[j])
      && (forall i :: 0 <= i < |vs| && !vs[i].useGenericListForCursor ==>
            vs[i].forceDynamicMapping && proc.usesWeaklyTypedCursor && !proc.hasInRefCursorArgument)
  {
  }

  /** Every version's method exists, each generated in the version's own cursor mode. */
  predicate AllDefined(proc: Procedure, vs: seq<Version>, opts: Options, tr: Translator) {
    forall i :: 0 <= i < |vs| ==>
      MethodCodeDefined(proc, vs[i].forceDynamicMapping, opts, tr.InCursorMode(vs[i].useGenericListForCursor))
  }

  /** The methods of the given versions of a procedure, in order, each in the version's cursor mode. */
  function MethodsFor(proc: Procedure, pack: Package, vs: seq<Version>, opts: Options, tr: Translator): (r: seq<MethodCode>)
    requires AllDefined(proc, vs, opts, tr)
    ensures |r| == |vs|
  {
    seq(|vs|, i requires 0 <= i < |vs| =>
      MethodCodeOf(proc, pack, vs[i].forceDynamicMapping, opts, tr.InCursorMode(vs[i].useGenericListForCursor)))
  }

  lemma MethodsForAppend(proc: Procedure, pack: Package, a: seq<Version>, b: seq<Version>, opts: Options, tr: Translator)
    requires AllDefined(proc, a + b, opts, tr)
    ensures AllDefined(proc, a, opts, tr) && AllDefined(proc, b, opts, tr)
    ensures MethodsFor(proc, pack, a + b, opts, tr) == MethodsFor(proc, pack, a, opts, tr) + MethodsFor(proc, pack, b, opts, tr)
  {
    AllDefinedSplit(proc, a, b, opts, tr);
    var whole, x, y := MethodsFor(proc, pack, a + b, opts, tr), MethodsFor(proc, pack, a, opts, tr), MethodsFor(proc, pack, b, opts, tr);
    forall i | 0 <= i < |a| ensures whole[i] == x[i] {
      assert (a + b)[i] == a[i];
    }
    forall i | 0 <= i < |b| ensures whole[|a| + i] == y[i] {
      assert (a + b)[|a| + i] == b[i];
    }
    assert whole == x + y;
  }

  lemma AllDefinedSplit(proc: Procedure, a: seq<Version>, b: seq<Version>, opts: Options, tr: Translator)
    requires AllDefined(proc, a + b, opts, tr)
    ensures AllDefined(proc, a, opts, tr) && AllDefined(proc, b, opts, tr)
  {
    assert forall i :: 0 <= i < |a| ==> a[i] == (a + b)[i];
    assert forall i :: 0 <= i < |b| ==> b[i] == (a + b)[|a| + i];
  }

  lemma MethodsForOne(proc: Procedure, pack: Package, v: Version, opts: Options, tr: Translator)
    requires AllDefined(proc, [v], opts, tr)
    ensures MethodCodeDefined(proc, v.forceDynamicMapping, opts, tr.InCursorMode(v.useGenericListForCursor))
    ensures MethodsFor(proc, pack, [v], opts, tr)
         == [MethodCodeOf(proc, pack, v.forceDynamicMapping, opts, tr.InCursorMode(v.useGenericListForCursor))]
  {
    assert [v][0] == v;
  }

  lemma ConcatAssoc(o: seq<MethodCode>, a: seq<MethodCode>, b: seq<MethodCode>, c: seq<MethodCode>)
    ensures o + a + b + c == o + (a + b + c)
  {
  }

  /** The methods of the versions of a procedure, starting from the cursor mode `tr` carries. */
  predicate VersionsDefined(proc: Procedure, opts: Options, tr: Translator) {
    AllDefined(proc, Versions(proc, opts, tr.useGenericListForCursor), opts, tr)
  }

  function MethodVersions(proc: Procedure, pack: Package, opts: Options, tr: Translator): (r: seq<MethodCode>)
    requires VersionsDefined(proc, opts, tr)
    ensures |r| == |Versions(proc, opts, tr.useGenericListForCursor)|
  {
    MethodsFor(proc, pack, Versions(proc, opts, tr.useGenericListForCursor), opts, tr)
  }

  /**
   * A procedure with a weakly typed cursor and no IN cursor gets a generic
   * version and a DataTable version: the first with the return type the
   * mapping gives in generic-list mode and type parameters for its cursors,
   * the second with the return type it gives otherwise, no type parameters,
   * and its returned rows counted as a DataTable's exactly when that type
   * is `DataTable`.
   */
  lemma DataTableVersionTypes(proc: Procedure, pack: Package, opts: Options, tr: Translator)
    requires VersionsDefined(proc, opts, tr)
    requires proc.HasRefCursorArgument() && proc.usesWeaklyTypedCursor && !proc.hasInRefCursorArgument
    ensures var ms, args := MethodVersions(proc, pack, opts, tr), proc.arguments;
      |ms| == 2
      && (proc.IsFunction() ==>
            ms[0].header.returnType == tr.argType(args[0], false, true)
            && ms[1].header.returnType == tr.argType(args[0], false, false))
      && ms[0].header.typeParameters == TypeNames(GenericTypes(args, |args|, opts.filter, tr.InCursorMode(true)))
      && ms[1].header.typeParameters == []
      && (ms[1].GeneratedMethod? && ReturnsCursor(proc) ==>
            ms[1].traceReturnCount == Some(tr.argType(args[0], false, false) == tr.dataTableTypeName))
  {
    var vs := Versions(proc, opts, tr.useGenericListForCursor);
    assert vs == [Version(true, true), Version(true, false)];
    assert vs[0].useGenericListForCursor && !vs[1].useGenericListForCursor;
    VersionShape(proc, pack, true, opts, tr.InCursorMode(true));
    VersionShape(proc, pack, true, opts, tr.InCursorMode(false));
  }

  lemma VersionShape(proc: Procedure, pack: Package, forceDynamicMapping: bool, opts: Options, tr: Translator)
    requires MethodCodeDefined(proc, forceDynamicMapping, opts, tr)
    ensures var m := MethodCodeOf(proc, pack, forceDynamicMapping, opts, tr);
      && m.header.returnType == ReturnTypeOf(proc, tr)
      && m.header.typeParameters == TypeNames(MethodGenericTypes(proc, opts, tr))
      && (m.GeneratedMethod? && ReturnsCursor(proc) ==> m.traceReturnCount == Some(ReturnTypeOf(proc, tr) == tr.dataTableTypeName))
  {
  }

  /**
   * The text of a package class being generated: its methods so far, and
   * the type-mapping helpers with the process-wide cursor mode
   * (`Translater.UseGenericListForCursor`) that method generation reads and
   * `GenerateAllMethodVersions` sets.
   */
  class PackageClassText {
    var methods: seq<MethodCode>
    var translator: Translator

    constructor (tr: Translator)
      ensures methods == [] && translator == tr
    {
      methods := [];
      translator := tr;
    }

    /** Generates one method in the current cursor mode and appends it. */
    method AppendMethodCode(proc: Procedure, pack: Package, forceDynamicMapping: bool, opts: Options)
      requires MethodCodeDefined(proc, forceDynamicMapping, opts, translator)
      modifies this
      ensures translator == old(translator)
      ensures methods == old(methods) + [MethodCodeOf(proc, pack, forceDynamicMapping, opts, translator)]
    {
      var m := GenerateMethodCode(proc, pack, forceDynamicMapping, opts, translator);
      methods := methods + [m];
    }

    /** `GenerateAllMethodVersions`: appends the procedure's versions and updates the cursor mode. */
    method GenerateAllMethodVersions(proc: Procedure, pack: Package, opts: Options)
      requires VersionsDefined(proc, opts, translator)
      modifies this
      ensures methods == old(methods) + MethodVersions(proc, pack, opts, old(translator))
      ensures translator == old(translator).InCursorMode(CursorModeAfter(proc, old(translator.useGenericListForCursor)))
    {
      if proc.HasRefCursorArgument() {
        AppendCursorVersions(proc, pack, opts);
      } else {
        ghost var tr := translator;
        MethodsForOne(proc, pack, Version(false, tr.useGenericListForCursor), opts, tr);
        assert tr.InCursorMode(tr.useGenericListForCursor) == tr;
        AppendMethodCode(proc, pack, false, opts);
      }
    }

    /** The REF CURSOR branch of `GenerateAllMethodVersions`. */
    method AppendCursorVersions(proc: Procedure, pack: Package, opts: Options)
      requires proc.HasRefCursorArgument() && VersionsDefined(proc, opts, translator)
      modifies this
      ensures methods == old(methods) + MethodVersions(proc, pack, opts, old(translator))
      ensures translator == old(translator).InCursorMode(CursorModeAfter(proc, old(translator.useGenericListForCursor)))
    {
      var tr := translator;
      var weak, inCursor := proc.usesWeaklyTypedCursor, proc.hasInRefCursorArgument;
      ghost var dynamic, typed, dataTable := DynamicVersion(proc, opts), StaticVersion(proc), DataTableVersion(proc);
      MethodsForAppend(proc, pack, dynamic + typed, dataTable, opts, tr);
      MethodsForAppend(proc, pack, dynamic, typed, opts, tr);
      ghost var a, b, c := MethodsFor(proc, pack, dynamic, opts, tr), MethodsFor(proc, pack, typed, opts, tr),
                           MethodsFor(proc, pack, dataTable, opts, tr);
      translator := tr.InCursorMode(true);
      if (weak || opts.isGenerateDynamicMappingMethodForTypedCursor) && !inCursor {
        MethodsForOne(proc, pack, Version(true, true), opts, tr);
        AppendMethodCode(proc, pack, true, opts);
      }
      assert methods == old(methods) + a;
      if !weak {
        MethodsForOne(proc, pack, Version(false, true), opts, tr);
        AppendMethodCode(proc, pack, false, opts);
      }
      assert methods == old(methods) + a + b;
      if weak && !inCursor {
        translator := tr.InCursorMode(false);
        MethodsForOne(proc, pack, Version(true, false), opts, tr);
        AppendMethodCode(proc, pack, true, opts);
      }
      assert methods == old(methods) + a + b + c;
      ConcatAssoc(old(methods), a, b, c);
    }
  }
}
