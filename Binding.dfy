/**
 * How a generated method binds the procedure's arguments to the Oracle
 * command (`GenerateArgumentBindCode`): one `OracleParameter` per bound
 * argument, plus the collection set-up of associative arrays.
 */
module Binding {
  import opened Wrappers
  import opened Metadata
  import opened Signature

  /** `FUNC_RETURN_PARAM_NAME`: the Oracle parameter name of a function's return value. */
  const ReturnParamName: string := "!RETURN"

  /** `ParameterDirection`. */
  datatype Direction = Input | Output | InputOutput | ReturnValue

  /** The direction of a non-return argument: `Input` if its mode starts with IN, `Output` if it ends with OUT. */
  function DirectionOf(m: Mode): (d: Direction)
    ensures d != ReturnValue
    ensures (d == Input || d == InputOutput) <==> m.StartsWithIn()
    ensures (d == Output || d == InputOutput) <==> m.EndsWithOut()
  {
    match m
    case In => Input
    case Out => Output
    case InOut => InputOutput
  }

  /** The size argument of an associative array parameter. */
  datatype ArraySize = NoArraySize | MaxAssocArraySize(size: nat) | CollectionCount

  /** The value bound: `null` or the C# parameter of that name. */
  datatype BindValue = NullValue | ArgumentValue(csharpName: string)

  /**
   * `new OracleParameter(name, dbType[, arraySize][, stringSize], value, direction)`,
   * preceded by `if (x != null)` when `guarded`.
   */
  datatype Bind = Bind(oracleName: string, dbType: string, arraySize: ArraySize, stringSize: Option<nat>,
                       value: BindValue, direction: Direction, guarded: bool)

  /** `ArrayBindSize = new int[count]`, every element set to `charLength`. */
  datatype ArrayBindSize = ArrayBindSize(count: nat, charLength: nat)

  datatype BindStep =
    | BlankLine
    | AddParameter(bind: Bind)
      /**
       * The associative array set-up after the parameter: the value copied
       * from the C# list (an empty array of `valueElementType` when the list
       * is null or empty), the collection type, and the bind sizes of a list
       * of strings.
       */
    | CollectionSetup(oracleName: string, guarded: bool, valueElementType: Option<string>,
                      arrayBindSize: Option<ArrayBindSize>)

  /** An argument that gets an `OracleParameter`: the return value, or a named top-level argument. */
  predicate IsBound(a: Argument) {
    a.isReturn || (a.dataLevel == 0 && !IsNullOrEmpty(a.name))
  }

  /**
   * A bound associative array reads the argument after it (its element
   * row), which must exist.
   */
  predicate BindDefined(args: seq<Argument>) {
    forall k :: 0 <= k < |args| && !args[k].isReturn && IsBound(args[k]) && args[k].dataType == AssociativeArray
      ==> k + 1 < |args|
  }

  /** The `OracleParameter` of a bound argument. */
  function BindOf(args: seq<Argument>, k: nat, optional: seq<Option<string>>, maxAssocArraySize: nat, tr: Translator): Bind
    requires k < |args| && IsBound(args[k])
  {
    var arg := args[k];
    var isAssoc := arg.dataType == AssociativeArray;
    var cSharpArgType := tr.ArgType(arg, true);
    var dbType := tr.oracleDbType(arg, NextArgument(args, k));
    if arg.isReturn then
      Bind(ReturnParamName, dbType,
           if isAssoc then MaxAssocArraySize(maxAssocArraySize) else NoArraySize,
           if cSharpArgType == tr.stringTypeName then Some(tr.stringBindSize(arg.dataType)) else None,
           NullValue, ReturnValue, false)
    else
      Bind(arg.name.value, dbType,
           if !isAssoc then NoArraySize
           else if arg.mode.EndsWithOut() then MaxAssocArraySize(maxAssocArraySize)
           else CollectionCount,
           if arg.mode.EndsWithOut() && cSharpArgType == tr.stringTypeName then Some(tr.stringBindSize(arg.dataType)) else None,
           if arg.mode == Out || isAssoc then NullValue else ArgumentValue(tr.csharpName(arg.name.value, true)),
           DirectionOf(arg.mode),
           arg.name in optional)
  }

  /** The collection set-up of a bound associative array. */
  function CollectionOf(args: seq<Argument>, k: nat, optional: seq<Option<string>>, maxAssocArraySize: nat, tr: Translator): BindStep
    requires k < |args| && IsBound(args[k])
    requires !args[k].isReturn ==> k + 1 < |args|
  {
    var arg := args[k];
    var cSharpArgType := tr.ArgType(arg, true);
    var sizes := if tr.subtype(cSharpArgType, true) == tr.stringTypeName
                 then Some(ArrayBindSize(maxAssocArraySize, tr.charLength(arg))) else None;
    if arg.isReturn then CollectionSetup(ReturnParamName, false, None, sizes)
    else
      CollectionSetup(arg.name.value, arg.name in optional,
                      if arg.mode.StartsWithIn() then Some(tr.ArgType(args[k + 1], false)) else None,
                      sizes)
  }

  /** What one argument contributes. */
  function ArgumentBind(args: seq<Argument>, k: nat, optional: seq<Option<string>>, maxAssocArraySize: nat,
                        tr: Translator): seq<BindStep>
    requires k < |args| && BindDefined(args)
  {
    var arg := args[k];
    var isAssoc := arg.dataType == AssociativeArray;
    (if isAssoc then [BlankLine] else [])
    + (if IsBound(arg) then
         [AddParameter(BindOf(args, k, optional, maxAssocArraySize, tr))]
         + (if isAssoc then [CollectionOf(args, k, optional, maxAssocArraySize, tr)] else [])
       else [])
  }

  /** The bind code for the first `n` arguments. */
  function BindSteps(args: seq<Argument>, n: nat, optional: seq<Option<string>>, maxAssocArraySize: nat,
                     tr: Translator): seq<BindStep>
    requires n <= |args| && BindDefined(args)
  {
    if n == 0 then []
    else BindSteps(args, n - 1, optional, maxAssocArraySize, tr) + ArgumentBind(args, n - 1, optional, maxAssocArraySize, tr)
  }

  /** `GenerateArgumentBindCode`. */
  method GenerateArgumentBindCode(args: seq<Argument>, isCSharp30: bool, maxAssocArraySize: nat, tr: Translator)
    returns (steps: seq<BindStep>)
    requires BindDefined(args)
    ensures steps == BindSteps(args, |args|, OptionalParameters(args, isCSharp30), maxAssocArraySize, tr)
  {
    var optionalParamNamesInCSharp := GetOptionalCSharpParameters(args, isCSharp30);
    steps := [];
    for k := 0 to |args|
      invariant steps == BindSteps(args, k, optionalParamNamesInCSharp, maxAssocArraySize, tr)
    {
      var argSteps := ArgumentBindCode(args, k, optionalParamNamesInCSharp, maxAssocArraySize, tr);
      steps := steps + argSteps;
    }
  }

  /** The body of the loop of `GenerateArgumentBindCode`, for `args[k]`. */
  method ArgumentBindCode(args: seq<Argument>, k: nat, optionalParamNamesInCSharp: seq<Option<string>>,
                          maxAssocArraySize: nat, tr: Translator) returns (steps: seq<BindStep>)
    requires k < |args| && BindDefined(args)
    ensures steps == ArgumentBind(args, k, optionalParamNamesInCSharp, maxAssocArraySize, tr)
  {
    var arg := args[k];
    var cSharpArgType := tr.ArgType(arg, true);
    var clientOracleDbType := tr.oracleDbType(arg, NextArgument(args, k));
    var isAssocArray := arg.dataType == AssociativeArray;
    steps := [];
    if isAssocArray {
      steps := steps + [BlankLine];
    }
    var sizes: Option<ArrayBindSize> := None;
    if tr.subtype(cSharpArgType, true) == tr.stringTypeName {
      sizes := Some(ArrayBindSize(maxAssocArraySize, tr.charLength(arg)));
    }
    if arg.isReturn {
      steps := steps + [AddParameter(Bind(ReturnParamName, clientOracleDbType,
        if isAssocArray then MaxAssocArraySize(maxAssocArraySize) else NoArraySize,
        if cSharpArgType == tr.stringTypeName then Some(tr.stringBindSize(arg.dataType)) else None,
        NullValue, ReturnValue, false))];
      if isAssocArray {
        steps := steps + [CollectionSetup(ReturnParamName, false, None, sizes)];
      }
    } else if arg.dataLevel == 0 && !IsNullOrEmpty(arg.name) {
      var isCSharpParamOptional := arg.name in optionalParamNamesInCSharp;
      var arraySize := NoArraySize;
      if isAssocArray {
        arraySize := if arg.mode.EndsWithOut() then MaxAssocArraySize(maxAssocArraySize) else CollectionCount;
      }
      steps := steps + [AddParameter(Bind(arg.name.value, clientOracleDbType, arraySize,
        if arg.mode.EndsWithOut() && cSharpArgType == tr.stringTypeName then Some(tr.stringBindSize(arg.dataType)) else None,
        if arg.mode == Out || isAssocArray then NullValue else ArgumentValue(tr.csharpName(arg.name.value, true)),
        DirectionOf(arg.mode), isCSharpParamOptional))];
      if isAssocArray {
        var valueElementType: Option<string> := None;
        if arg.mode.StartsWithIn() {
          valueElementType := Some(tr.ArgType(args[k + 1], false));
        }
        steps := steps + [CollectionSetup(arg.name.value, isCSharpParamOptional, valueElementType, sizes)];
      }
    }
  }

  // ---------------------------------------------------------------------------
  // What the bind code promises

  /**
   * Each bound argument gets one `OracleParameter`: the return value binds
   * as `!RETURN` with direction `ReturnValue`; any other argument under its
   * own name, `Input` exactly when its mode starts with IN and `Output`
   * exactly when it ends with OUT. The value is `null` for the return
   * value, OUT-only arguments and associative arrays, and the parameter is
   * guarded by a null check exactly when it is optional in the signature.
   * Associative arrays (and only they) carry an array size, the maximum for
   * output ones and the list count for input ones; a string carries a bind
   * size exactly when it is output.
   */
  lemma BindSemantics(args: seq<Argument>, k: nat, optional: seq<Option<string>>, maxAssocArraySize: nat, tr: Translator)
    requires k < |args| && IsBound(args[k])
    ensures var a, b := args[k], BindOf(args, k, optional, maxAssocArraySize, tr);
      var isAssoc := a.dataType == AssociativeArray;
      var output := a.isReturn || a.mode.EndsWithOut();
      && b.oracleName == (if a.isReturn then ReturnParamName else a.name.value)
      && b.dbType == tr.oracleDbType(a, NextArgument(args, k))
      && (b.direction == ReturnValue <==> a.isReturn)
      && (!a.isReturn ==>
            ((b.direction == Input || b.direction == InputOutput) <==> a.mode.StartsWithIn())
            && ((b.direction == Output || b.direction == InputOutput) <==> a.mode.EndsWithOut()))
      && (b.value == NullValue <==> a.isReturn || a.mode == Out || isAssoc)
      && (b.guarded <==> !a.isReturn && a.name in optional)
      && (b.arraySize != NoArraySize <==> isAssoc)
      && (isAssoc && output ==> b.arraySize == MaxAssocArraySize(maxAssocArraySize))
      && (isAssoc && !output ==> b.arraySize == CollectionCount)
      && (b.stringSize.Some? <==> output && tr.ArgType(a, true) == tr.stringTypeName)
  {
  }

  /**
   * The value of an associative array is copied from the C# list only for
   * IN arguments; its collection set-up shares the parameter's null guard,
   * and a list of strings gets `maxAssocArraySize` bind sizes of the
   * element's character length.
   */
  lemma CollectionSemantics(args: seq<Argument>, k: nat, optional: seq<Option<string>>, maxAssocArraySize: nat, tr: Translator)
    requires k < |args| && IsBound(args[k])
    requires !args[k].isReturn ==> k + 1 < |args|
    ensures var a, c := args[k], CollectionOf(args, k, optional, maxAssocArraySize, tr);
      && c.CollectionSetup?
      && c.oracleName == BindOf(args, k, optional, maxAssocArraySize, tr).oracleName
      && c.guarded == BindOf(args, k, optional, maxAssocArraySize, tr).guarded
      && (c.valueElementType.Some? <==> !a.isReturn && a.mode.StartsWithIn())
      && (c.arrayBindSize.Some? <==> tr.subtype(tr.ArgType(a, true), true) == tr.stringTypeName)
      && (c.arrayBindSize.Some? ==> c.arrayBindSize.value.count == maxAssocArraySize)
  {
  }

  /**
   * What one argument contributes: a blank line first exactly for an
   * associative array, then, for a bound argument only, its parameter and,
   * for an associative array, the collection set-up.
   */
  lemma ArgumentBindShape(args: seq<Argument>, k: nat, optional: seq<Option<string>>, maxAssocArraySize: nat, tr: Translator)
    requires k < |args| && BindDefined(args)
    ensures var s, a := ArgumentBind(args, k, optional, maxAssocArraySize, tr), args[k];
      var isAssoc := a.dataType == AssociativeArray;
      var b := if isAssoc then 1 else 0;
      && |s| == b + (if IsBound(a) then 1 + b else 0)
      && (isAssoc ==> s[0] == BlankLine)
      && (IsBound(a) ==> s[b] == AddParameter(BindOf(args, k, optional, maxAssocArraySize, tr)))
      && (IsBound(a) && isAssoc ==> s[2].CollectionSetup?)
      && (forall i :: 0 <= i < |s| && i != b ==> !s[i].AddParameter?)
  {
  }

  /** The parameters among a list of bind steps. */
  function Binds(steps: seq<BindStep>): seq<Bind> {
    if steps == [] then []
    else Binds(steps[..|steps| - 1]) + (if steps[|steps| - 1].AddParameter? then [steps[|steps| - 1].bind] else [])
  }

  lemma {:induction false} BindsAppend(a: seq<BindStep>, b: seq<BindStep>)
    ensures Binds(a + b) == Binds(a) + Binds(b)
    decreases |b|
  {
    if b != [] {
      var b' := b[..|b| - 1];
      assert (a + b)[..|a + b| - 1] == a + b';
      BindsAppend(a, b');
    } else {
      assert a + b == a;
    }
  }

  /** The parameters of the bound arguments among the first `n`, in order. */
  function BoundParameters(args: seq<Argument>, n: nat, optional: seq<Option<string>>, maxAssocArraySize: nat,
                           tr: Translator): seq<Bind>
    requires n <= |args|
  {
    if n == 0 then []
    else
      BoundParameters(args, n - 1, optional, maxAssocArraySize, tr)
      + (if IsBound(args[n - 1]) then [BindOf(args, n - 1, optional, maxAssocArraySize, tr)] else [])
  }

  /**
   * Blank lines and collection set-ups aside, the bind code is one
   * parameter per bound argument, in argument order.
   */
  lemma {:induction false} BindsAreBoundParameters(args: seq<Argument>, n: nat, optional: seq<Option<string>>,
                                                   maxAssocArraySize: nat, tr: Translator)
    requires n <= |args| && BindDefined(args)
    ensures Binds(BindSteps(args, n, optional, maxAssocArraySize, tr)) == BoundParameters(args, n, optional, maxAssocArraySize, tr)
  {
    if n > 0 {
      BindsAreBoundParameters(args, n - 1, optional, maxAssocArraySize, tr);
      BindsStep(args, n, optional, maxAssocArraySize, tr);
    }
  }

  lemma BindsStep(args: seq<Argument>, n: nat, optional: seq<Option<string>>, maxAssocArraySize: nat, tr: Translator)
    requires 0 < n <= |args| && BindDefined(args)
    ensures Binds(BindSteps(args, n, optional, maxAssocArraySize, tr))
      == Binds(BindSteps(args, n - 1, optional, maxAssocArraySize, tr))
         + (if IsBound(args[n - 1]) then [BindOf(args, n - 1, optional, maxAssocArraySize, tr)] else [])
  {
    BindStepsUnfold(args, n, optional, maxAssocArraySize, tr);
    ArgumentBindBinds(args, n - 1, optional, maxAssocArraySize, tr);
    BindsExtend(BindSteps(args, n, optional, maxAssocArraySize, tr), BindSteps(args, n - 1, optional, maxAssocArraySize, tr),
                ArgumentBind(args, n - 1, optional, maxAssocArraySize, tr),
                if IsBound(args[n - 1]) then [BindOf(args, n - 1, optional, maxAssocArraySize, tr)] else []);
  }

  lemma BindStepsUnfold(args: seq<Argument>, n: nat, optional: seq<Option<string>>, maxAssocArraySize: nat, tr: Translator)
    requires 0 < n <= |args| && BindDefined(args)
    ensures BindSteps(args, n, optional, maxAssocArraySize, tr)
      == BindSteps(args, n - 1, optional, maxAssocArraySize, tr) + ArgumentBind(args, n - 1, optional, maxAssocArraySize, tr)
  {
  }

  lemma BindsExtend(full: seq<BindStep>, prev: seq<BindStep>, s: seq<BindStep>, x: seq<Bind>)
    requires full == prev + s && Binds(s) == x
    ensures Binds(full) == Binds(prev) + x
  {
    BindsAppend(prev, s);
  }

  lemma ArgumentBindBinds(args: seq<Argument>, k: nat, optional: seq<Option<string>>, maxAssocArraySize: nat, tr: Translator)
    requires k < |args| && BindDefined(args)
    ensures Binds(ArgumentBind(args, k, optional, maxAssocArraySize, tr))
      == if IsBound(args[k]) then [BindOf(args, k, optional, maxAssocArraySize, tr)] else []
  {
    var s := ArgumentBind(args, k, optional, maxAssocArraySize, tr);
    var p := if IsBound(args[k]) then [AddParameter(BindOf(args, k, optional, maxAssocArraySize, tr))] else [];
    var c := if IsBound(args[k]) && args[k].dataType == AssociativeArray
             then [CollectionOf(args, k, optional, maxAssocArraySize, tr)] else [];
    var blank := if args[k].dataType == AssociativeArray then [BlankLine] else [];
    assert s == blank + p + c;
    BindsOfThree(blank, p, c);
  }

  /** `Binds` over a blank line or nothing, an added parameter or nothing, and a collection setup or nothing. */
  lemma BindsOfThree(blank: seq<BindStep>, p: seq<BindStep>, c: seq<BindStep>)
    requires blank == [] || blank == [BlankLine]
    requires p == [] || (|p| == 1 && p[0].AddParameter?)
    requires c == [] || (|c| == 1 && !c[0].AddParameter?)
    ensures Binds(blank + p + c) == if p == [] then [] else [p[0].bind]
  {
    BindsAppend(blank + p, c);
    BindsAppend(blank, p);
    assert Binds(blank) == [] by {
      if blank != [] { assert blank[..0] == []; }
    }
    assert Binds(c) == [] by {
      if c != [] { assert c[..0] == []; }
    }
    if p != [] { assert p[..0] == []; }
  }

  /** The bind code does not depend on a cursor mode the mapping of the arguments ignores. */
  lemma {:induction false} BindStepsModeBlind(args: seq<Argument>, n: nat, optional: seq<Option<string>>,
                                              maxAssocArraySize: nat, tr: Translator)
    requires n <= |args| && BindDefined(args) && CursorModeBlind(args, tr)
    ensures BindSteps(args, n, optional, maxAssocArraySize, tr.InCursorMode(true))
         == BindSteps(args, n, optional, maxAssocArraySize, tr.InCursorMode(false))
  {
    if n > 0 {
      BindStepsModeBlind(args, n - 1, optional, maxAssocArraySize, tr);
      ArgumentBindModeBlind(args, n - 1, optional, maxAssocArraySize, tr);
    }
  }

  lemma ArgumentBindModeBlind(args: seq<Argument>, k: nat, optional: seq<Option<string>>, maxAssocArraySize: nat,
                              tr: Translator)
    requires k < |args| && BindDefined(args) && CursorModeBlind(args, tr)
    ensures ArgumentBind(args, k, optional, maxAssocArraySize, tr.InCursorMode(true))
         == ArgumentBind(args, k, optional, maxAssocArraySize, tr.InCursorMode(false))
  {
    assert args[k] in args;
    if k + 1 < |args| {
      assert args[k + 1] in args;
    }
  }

  /**
   * An argument's parameter is guarded by a null check exactly when the
   * generated signature declares that argument optional, so an optional
   * argument left out by the caller is not bound at all.
   */
  lemma GuardMatchesSignature(args: seq<Argument>, k: nat, isCSharp30: bool, maxAssocArraySize: nat, tr: Translator)
    requires k < |args| && IsSignatureArgument(args[k])
    ensures var optional := OptionalParameters(args, isCSharp30);
      IsBound(args[k])
      && BindOf(args, k, optional, maxAssocArraySize, tr).guarded == DeclaredParameter(args[k], optional, tr).optional
  {
  }

  predicate Unguarded(ps: seq<Bind>) { forall i :: 0 <= i < |ps| ==> !ps[i].guarded }

  /** In C# 3.0 mode no parameter is guarded: every argument is always bound. */
  lemma {:induction false} CSharp30BindsUnguarded(args: seq<Argument>, n: nat, maxAssocArraySize: nat, tr: Translator)
    requires n <= |args|
    ensures Unguarded(BoundParameters(args, n, OptionalParameters(args, true), maxAssocArraySize, tr))
  {
    if n > 0 {
      CSharp30BindsUnguarded(args, n - 1, maxAssocArraySize, tr);
      var optional := OptionalParameters(args, true);
      var ps := BoundParameters(args, n - 1, optional, maxAssocArraySize, tr);
      if IsBound(args[n - 1]) {
        var b := BindOf(args, n - 1, optional, maxAssocArraySize, tr);
        assert !b.guarded;
        assert forall i :: 0 <= i < |ps| ==> (ps + [b])[i] == ps[i];
      }
    }
  }
}
