/**
 * The parameter list of a generated method: which procedure arguments may be
 * left out by the caller (C# optional parameters), the declared parameters
 * and the synthetic ones the generator appends.
 */
module Signature {
  import opened Wrappers
  import opened Metadata

  // ---------------------------------------------------------------------------
  // GetOptionalCSharpParameters

  predicate AllDefaulted(s: seq<Argument>) { forall i :: 0 <= i < |s| ==> s[i].defaulted }

  /**
   * Where the longest run of defaulted arguments at the end of the list
   * starts: every argument from there on is defaulted, and the one just
   * before it (if any) is not.
   */
  function DefaultedSuffixStart(args: seq<Argument>): (k: nat)
    ensures k <= |args| && AllDefaulted(args[k..])
    ensures k == 0 || !args[k - 1].defaulted
  {
    if args == [] then 0
    else if args[|args| - 1].defaulted then
      var init := args[..|args| - 1];
      var k := DefaultedSuffixStart(init);
      assert forall i :: k <= i < |args| - 1 ==> args[i] == init[i];
      k
    else |args|
  }

  /** Only one position has the two properties of `DefaultedSuffixStart`. */
  lemma DefaultedSuffixStartUnique(args: seq<Argument>, k: nat)
    requires k <= |args| && AllDefaulted(args[k..])
    requires k == 0 || !args[k - 1].defaulted
    ensures k == DefaultedSuffixStart(args)
  {
    DefaultedFrom(args, k);
    DefaultedFrom(args, DefaultedSuffixStart(args));
  }

  lemma DefaultedFrom(args: seq<Argument>, k: nat)
    requires k <= |args| && AllDefaulted(args[k..])
    ensures forall j :: k <= j < |args| ==> args[j].defaulted
  {
    forall j | k <= j < |args|
      ensures args[j].defaulted
    {
      assert args[k..][j - k] == args[j];
    }
  }

  /** The names of the arguments, last one first. */
  function ReversedNames(s: seq<Argument>): (r: seq<Option<string>>)
    ensures |r| == |s|
  {
    if s == [] then [] else ReversedNames(s[1..]) + [s[0].name]
  }

  lemma {:induction false} ReversedNamesContains(s: seq<Argument>, n: Option<string>)
    ensures n in ReversedNames(s) <==> exists j :: 0 <= j < |s| && s[j].name == n
  {
    if s != [] {
      ReversedNamesContains(s[1..], n);
      if n in ReversedNames(s[1..]) {
        var j :| 0 <= j < |s[1..]| && s[1..][j].name == n;
        assert s[j + 1].name == n;
      }
      if n == s[0].name {
        assert s[0].name == n;
      }
      if exists j :: 0 <= j < |s| && s[j].name == n {
        var j :| 0 <= j < |s| && s[j].name == n;
        if j > 0 {
          assert s[1..][j - 1].name == n;
        }
      }
    }
  }

  /**
   * The names the generated signature may declare optional: none for C# 3.0,
   * otherwise those of the trailing defaulted arguments, scanning back from
   * the last argument. The whole list is scanned, return value and nested
   * arguments included.
   */
  function OptionalParameters(args: seq<Argument>, isCSharp30: bool): seq<Option<string>> {
    if isCSharp30 then [] else ReversedNames(args[DefaultedSuffixStart(args)..])
  }

  /**
   * A name is optional exactly when some argument of the trailing defaulted
   * run carries it, and never in C# 3.0 mode.
   */
  lemma OptionalParametersMembers(args: seq<Argument>, isCSharp30: bool, n: Option<string>)
    ensures n in OptionalParameters(args, isCSharp30)
      <==> !isCSharp30 && exists j :: DefaultedSuffixStart(args) <= j < |args| && args[j].name == n
    ensures |OptionalParameters(args, isCSharp30)| == if isCSharp30 then 0 else |args| - DefaultedSuffixStart(args)
  {
    var k := DefaultedSuffixStart(args);
    ReversedNamesContains(args[k..], n);
    SuffixNames(args, k, n);
  }

  /** A name occurs in a suffix exactly when it occurs at or after the suffix's start. */
  lemma SuffixNames(args: seq<Argument>, k: nat, n: Option<string>)
    requires k <= |args|
    ensures (exists j :: 0 <= j < |args[k..]| && args[k..][j].name == n)
      <==> (exists j :: k <= j < |args| && args[j].name == n)
  {
    var tail := args[k..];
    if exists j :: 0 <= j < |tail| && tail[j].name == n {
      var j :| 0 <= j < |tail| && tail[j].name == n;
      assert args[k + j].name == n;
    }
    if exists j :: k <= j < |args| && args[j].name == n {
      var j :| k <= j < |args| && args[j].name == n;
      assert tail[j - k].name == n;
    }
  }

  lemma ReversedNamesStep(args: seq<Argument>, i: nat)
    requires i < |args|
    ensures ReversedNames(args[i..]) == ReversedNames(args[i + 1..]) + [args[i].name]
  {
    assert args[i..][1..] == args[i + 1..];
  }

  /** `GetOptionalCSharpParameters`: a reverse scan that stops at the first required argument. */
  method GetOptionalCSharpParameters(args: seq<Argument>, isCSharp30: bool) returns (optionalParamNames: seq<Option<string>>)
    ensures optionalParamNames == OptionalParameters(args, isCSharp30)
  {
    optionalParamNames := [];
    if !isCSharp30 {
      var i := |args| - 1;
      while i >= 0
        invariant -1 <= i < |args|
        invariant AllDefaulted(args[i + 1..])
        invariant optionalParamNames == ReversedNames(args[i + 1..])
        decreases i
      {
        if args[i].defaulted {
          ReversedNamesStep(args, i);
          optionalParamNames := optionalParamNames + [args[i].name];
        } else {
          break;
        }
        i := i - 1;
      }
      DefaultedSuffixStartUnique(args, i + 1);
    }
  }

  // ---------------------------------------------------------------------------
  // GenerateMethodArgumentsCommaDelimited

  /** How C# passes a parameter: `ref` for IN/OUT, `out` for OUT. */
  datatype Passing = ByValue | ByRef | ByOut

  /**
   * One entry of the generated parameter list. `hasDefault` is whether
   * the entry is written with a default value (`= false` / `= null`).
   */
  datatype SignatureParameter =
    | Declared(passing: Passing, csharpType: string, csharpName: string, optional: bool)
    | MapByPosition(hasDefault: bool)
    | AllowUnmappedColumns(hasDefault: bool)
    | ConvertColumnNameToTitleCase(hasDefault: bool)
    | MaximumRowsCursor(hasDefault: bool)
    | OracleConnectionParameter(name: string, hasDefault: bool)

  /** `_oracleConnectionParamName`: the name of the caller's optional connection parameter. */
  const OracleConnectionParamName: string := "optionalPreexistingOpenConnection"


  /** An argument the caller passes: top level, not the return value, with a name. */
  predicate IsSignatureArgument(a: Argument) {
    a.dataLevel == 0 && !a.isReturn && !IsNullOrEmpty(a.name)
  }

  function PassingOf(m: Mode): (p: Passing)
    ensures p == ByRef <==> m == InOut
    ensures p == ByOut <==> m == Out
  {
    match m
    case InOut => ByRef
    case Out => ByOut
    case In => ByValue
  }

  /** The declared parameter for a signature argument. */
  function DeclaredParameter(a: Argument, optional: seq<Option<string>>, tr: Translator): SignatureParameter
    requires IsSignatureArgument(a)
  {
    Declared(PassingOf(a.mode), tr.ArgType(a, false), tr.csharpName(a.name.value, true), a.name in optional)
  }

  /** The signature arguments, in declaration order. */
  function SignatureArguments(args: seq<Argument>): (r: seq<Argument>)
    ensures |r| <= |args|
    ensures forall i :: 0 <= i < |r| ==> IsSignatureArgument(r[i])
  {
    if args == [] then []
    else
      var last := args[|args| - 1];
      SignatureArguments(args[..|args| - 1]) + (if IsSignatureArgument(last) then [last] else [])
  }

  /** The signature arguments are exactly the arguments that pass `IsSignatureArgument`. */
  lemma {:induction false} SignatureArgumentsMembers(args: seq<Argument>, a: Argument)
    ensures a in SignatureArguments(args) <==> a in args && IsSignatureArgument(a)
  {
    if args != [] {
      var init := args[..|args| - 1];
      SignatureArgumentsMembers(init, a);
      assert args == init + [args[|args| - 1]];
    }
  }

  /** The declared parameters, one per signature argument in the same order. */
  function DeclaredParameters(args: seq<Argument>, optional: seq<Option<string>>, tr: Translator): (r: seq<SignatureParameter>)
    ensures |r| == |SignatureArguments(args)|
    ensures forall i :: 0 <= i < |r| ==> r[i] == DeclaredParameter(SignatureArguments(args)[i], optional, tr)
  {
    if args == [] then []
    else
      var last := args[|args| - 1];
      DeclaredParameters(args[..|args| - 1], optional, tr)
      + (if IsSignatureArgument(last) then [DeclaredParameter(last, optional, tr)] else [])
  }

  /**
   * The synthetic parameters after the declared ones, in their fixed order,
   * each only under its condition; the connection always comes last.
   */
  function TrailingParameters(methodHasGenerics: bool, dynamicMapping: bool, useGenericListForCursor: bool,
                              isCSharp30: bool): seq<SignatureParameter>
  {
    var d := !isCSharp30;
    (if methodHasGenerics && dynamicMapping then [MapByPosition(d), AllowUnmappedColumns(d)] else [])
    + (if dynamicMapping && !useGenericListForCursor then [ConvertColumnNameToTitleCase(d)] else [])
    + (if methodHasGenerics || (dynamicMapping && !useGenericListForCursor) then [MaximumRowsCursor(d)] else [])
    + [OracleConnectionParameter(OracleConnectionParamName, d)]
  }

  /** The whole parameter list of a generated method. */
  function SignatureParameters(args: seq<Argument>, methodHasGenerics: bool, dynamicMapping: bool,
                               isCSharp30: bool, tr: Translator): seq<SignatureParameter>
  {
    DeclaredParameters(args, OptionalParameters(args, isCSharp30), tr)
    + TrailingParameters(methodHasGenerics, dynamicMapping, tr.useGenericListForCursor, isCSharp30)
  }

  lemma DeclaredParametersStep(args: seq<Argument>, k: nat, optional: seq<Option<string>>, tr: Translator)
    requires k < |args|
    ensures DeclaredParameters(args[..k + 1], optional, tr)
      == DeclaredParameters(args[..k], optional, tr)
         + (if IsSignatureArgument(args[k]) then [DeclaredParameter(args[k], optional, tr)] else [])
  {
    assert args[..k + 1][..k] == args[..k];
  }

  /** The loop of `GenerateMethodArgumentsCommaDelimited` over the procedure's arguments. */
  method DeclaredParameterList(args: seq<Argument>, optionalParamNamesInCSharp: seq<Option<string>>, tr: Translator)
    returns (argList: seq<SignatureParameter>)
    ensures argList == DeclaredParameters(args, optionalParamNamesInCSharp, tr)
  {
    argList := [];
    for k := 0 to |args|
      invariant argList == DeclaredParameters(args[..k], optionalParamNamesInCSharp, tr)
    {
      DeclaredParametersStep(args, k, optionalParamNamesInCSharp, tr);
      var arg := args[k];
      if arg.dataLevel != 0 {
        continue;
      }
      if arg.isReturn {
        continue;
      }
      if arg.dataLevel == 0 && !IsNullOrEmpty(arg.name) {
        argList := argList + [Declared(PassingOf(arg.mode), tr.ArgType(arg, false), tr.csharpName(arg.name.value, true),
                                       arg.name in optionalParamNamesInCSharp)];
      }
    }
    assert args[..|args|] == args;
  }

  /**
   * `GenerateMethodArgumentsCommaDelimited`, as a list of parameter entries
   * (line wrapping and the `", "` separators are text layout only).
   */
  method GenerateMethodArguments(args: seq<Argument>, methodHasGenerics: bool, dynamicMapping: bool,
                                 isCSharp30: bool, tr: Translator)
    returns (argList: seq<SignatureParameter>)
    ensures argList == SignatureParameters(args, methodHasGenerics, dynamicMapping, isCSharp30, tr)
  {
    var optionalParamNamesInCSharp := GetOptionalCSharpParameters(args, isCSharp30);
    argList := DeclaredParameterList(args, optionalParamNamesInCSharp, tr);
    var trailing := TrailingParameterList(methodHasGenerics, dynamicMapping, tr.useGenericListForCursor, isCSharp30);
    argList := argList + trailing;
  }

  /** The synthetic parameters `GenerateMethodArgumentsCommaDelimited` appends after the declared ones. */
  method TrailingParameterList(methodHasGenerics: bool, dynamicMapping: bool, useGenericListForCursor: bool,
                               isCSharp30: bool)
    returns (trailing: seq<SignatureParameter>)
    ensures trailing == TrailingParameters(methodHasGenerics, dynamicMapping, useGenericListForCursor, isCSharp30)
  {
    var d := !isCSharp30;
    trailing := [];
    if methodHasGenerics {
      if dynamicMapping {
        trailing := trailing + [MapByPosition(d)];
        trailing := trailing + [AllowUnmappedColumns(d)];
      }
    }
    ghost var mapping := trailing;
    if dynamicMapping && !useGenericListForCursor {
      trailing := trailing + [ConvertColumnNameToTitleCase(d)];
    }
    ghost var titleCase := trailing[|mapping|..];
    assert trailing == mapping + titleCase;
    if methodHasGenerics || (dynamicMapping && !useGenericListForCursor) {
      trailing := trailing + [MaximumRowsCursor(d)];
    }
    ghost var maxRows := trailing[|mapping| + |titleCase|..];
    assert trailing == mapping + titleCase + maxRows;
    trailing := trailing + [OracleConnectionParameter(OracleConnectionParamName, d)];
  }

  // ---------------------------------------------------------------------------
  // What the parameter list promises

  /**
   * The declared parameters come first, one per signature argument in
   * declaration order: IN/OUT ones by `ref`, OUT ones by `out`, and a
   * parameter is optional exactly when its name is among the optional names.
   */
  lemma DeclaredParametersFirst(args: seq<Argument>, methodHasGenerics: bool, dynamicMapping: bool,
                                isCSharp30: bool, tr: Translator)
    ensures var r := SignatureParameters(args, methodHasGenerics, dynamicMapping, isCSharp30, tr);
      var sig := SignatureArguments(args);
      var opt := OptionalParameters(args, isCSharp30);
      |sig| < |r|
      && (forall i :: 0 <= i < |sig| ==>
            (r[i].Declared?
             && (r[i].passing == ByRef <==> sig[i].mode == InOut)
             && (r[i].passing == ByOut <==> sig[i].mode == Out)
             && (r[i].optional <==> sig[i].name in opt)))
      && (forall i :: |sig| <= i < |r| ==> !r[i].Declared?)
  {
    var opt := OptionalParameters(args, isCSharp30);
    var decl := DeclaredParameters(args, opt, tr);
    var trailing := TrailingParameters(methodHasGenerics, dynamicMapping, tr.useGenericListForCursor, isCSharp30);
    TrailingNotDeclared(methodHasGenerics, dynamicMapping, tr.useGenericListForCursor, isCSharp30);
    ConcatIndex(decl, trailing);
  }

  lemma TrailingNotDeclared(methodHasGenerics: bool, dynamicMapping: bool, useGenericListForCursor: bool, isCSharp30: bool)
    ensures var t := TrailingParameters(methodHasGenerics, dynamicMapping, useGenericListForCursor, isCSharp30);
      t != [] && forall i :: 0 <= i < |t| ==> !t[i].Declared?
  {
  }

  lemma ConcatIndex(a: seq<SignatureParameter>, b: seq<SignatureParameter>)
    ensures forall i :: 0 <= i < |a| ==> (a + b)[i] == a[i]
    ensures forall i :: |a| <= i < |a| + |b| ==> (a + b)[i] == b[i - |a|]
  {
  }

  /**
   * The synthetic parameters, after the declared ones: map-by-position and
   * allow-unmapped for generic methods with dynamic mapping, the title-case
   * flag for dynamic mapping to a DataTable, the row limit for any method
   * reading a cursor, and the connection, always and always last.
   */
  lemma TrailingParametersOrder(methodHasGenerics: bool, dynamicMapping: bool, useGenericListForCursor: bool,
                                isCSharp30: bool)
    ensures var t := TrailingParameters(methodHasGenerics, dynamicMapping, useGenericListForCursor, isCSharp30);
      var mapping := methodHasGenerics && dynamicMapping;
      var titleCase := dynamicMapping && !useGenericListForCursor;
      var maxRows := methodHasGenerics || titleCase;
      |t| == (if mapping then 2 else 0) + (if titleCase then 1 else 0) + (if maxRows then 1 else 0) + 1
      && t[|t| - 1] == OracleConnectionParameter(OracleConnectionParamName, !isCSharp30)
      && (forall i :: 0 <= i < |t| - 1 ==> !t[i].OracleConnectionParameter?)
      && (mapping ==> t[0].MapByPosition? && t[1].AllowUnmappedColumns?)
      && (titleCase ==> t[if mapping then 2 else 0].ConvertColumnNameToTitleCase?)
      && (maxRows ==> t[|t| - 2].MaximumRowsCursor?)
  {
  }

  /** Every generated signature ends with the caller's optional connection, and has no other. */
  lemma SignatureEndsWithConnection(args: seq<Argument>, methodHasGenerics: bool, dynamicMapping: bool,
                                    isCSharp30: bool, tr: Translator)
    ensures var r := SignatureParameters(args, methodHasGenerics, dynamicMapping, isCSharp30, tr);
      |r| > 0 && r[|r| - 1] == OracleConnectionParameter(OracleConnectionParamName, !isCSharp30)
      && forall i :: 0 <= i < |r| - 1 ==> !r[i].OracleConnectionParameter?
  {
    var decl := DeclaredParameters(args, OptionalParameters(args, isCSharp30), tr);
    var trailing := TrailingParameters(methodHasGenerics, dynamicMapping, tr.useGenericListForCursor, isCSharp30);
    TrailingParametersOrder(methodHasGenerics, dynamicMapping, tr.useGenericListForCursor, isCSharp30);
    ConcatIndex(decl, trailing);
  }

  /** The declared parameters do not depend on a cursor mode the mapping of the arguments ignores. */
  lemma {:induction false} DeclaredParametersModeBlind(args: seq<Argument>, optional: seq<Option<string>>, tr: Translator)
    requires CursorModeBlind(args, tr)
    ensures DeclaredParameters(args, optional, tr.InCursorMode(true)) == DeclaredParameters(args, optional, tr.InCursorMode(false))
  {
    if args != [] {
      var init := args[..|args| - 1];
      assert forall a :: a in init ==> a in args;
      DeclaredParametersModeBlind(init, optional, tr);
      assert args[|args| - 1] in args;
    }
  }

  /**
   * In C# 3.0 mode nothing in the signature has a default: no optional
   * declared parameter and no default on the synthetic ones.
   */
  lemma CSharp30HasNoDefaults(args: seq<Argument>, methodHasGenerics: bool, dynamicMapping: bool, tr: Translator)
    ensures var r := SignatureParameters(args, methodHasGenerics, dynamicMapping, true, tr);
      forall i :: 0 <= i < |r| ==> if r[i].Declared? then !r[i].optional else !r[i].hasDefault
  {
    var decl := DeclaredParameters(args, [], tr);
    var trailing := TrailingParameters(methodHasGenerics, dynamicMapping, tr.useGenericListForCursor, true);
    ConcatIndex(decl, trailing);
  }
}
