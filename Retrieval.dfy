/**
 * How a generated method reads back its OUT arguments and return value
 * after the call (`GenerateOutArgumentRetrieveCode`): a cursor through a
 * row reader, an associative array element by element, anything else from
 * the parameter's value with a null check.
 */
module Retrieval {
  import opened Wrappers
  import opened Metadata
  import opened Generics
  import Binding

  /** Where a retrieved value goes: the local return variable or the C# parameter. */
  datatype Target = ReturnVariable | ParameterVariable(csharpName: string)

  /**
   * The reader of a cursor: with dynamic mapping `ReadResult` into a
   * DataTable or into a list of the row type; with static mapping the
   * row type's own `ReadResultI…` method, qualified by the package class
   * that declares it when that is known.
   */
  datatype CursorReader =
    | DataTableReader
    | DynamicListReader(rowType: string)
    | StaticReader(qualifier: Option<string>, readerInterface: string, rowType: string)

  /** How a scalar is read: as an ODP.NET value, through a LOB's `Value`, or by `Convert.To…`. */
  datatype ScalarRead = OdpNetValue | LobValue | ConvertedValue

  datatype RetrieveStep =
    | BlankLine
    | ReadCursor(target: Target, oracleName: string, reader: CursorReader)
    | ReadAssocArray(target: Target, oracleName: string, elementType: DataType)
    | ReadScalar(target: Target, oracleName: string, read: ScalarRead)

  /** Only top-level arguments whose mode ends with OUT (the return value included) are read back. */
  predicate IsRetrieved(a: Argument) {
    a.dataLevel == 0 && a.mode.EndsWithOut()
  }

  /**
   * The package type name of the first generic type for the row type that
   * has one (`genericTypesUsed.Find`).
   */
  function FirstPackageTypeName(gs: seq<GenericType>, rowType: string): (r: Option<string>)
    ensures r.Some? <==> exists j :: 0 <= j < |gs| && gs[j].typeName == rowType && gs[j].packageTypeName.Some?
    ensures r.Some? ==> exists j :: 0 <= j < |gs| && gs[j].typeName == rowType && gs[j].packageTypeName == r
  {
    if gs == [] then None
    else if gs[0].typeName == rowType && gs[0].packageTypeName.Some? then gs[0].packageTypeName
    else
      var r := FirstPackageTypeName(gs[1..], rowType);
      assert forall j :: 1 <= j < |gs| ==> gs[j] == gs[1..][j - 1];
      r
  }

  /** With distinct row types, the qualifier is that of the one generic type with the row type. */
  lemma FirstPackageTypeNameOfDistinct(gs: seq<GenericType>, j: nat)
    requires DistinctTypeNames(gs) && j < |gs|
    ensures FirstPackageTypeName(gs, gs[j].typeName) == gs[j].packageTypeName
  {
    var r := FirstPackageTypeName(gs, gs[j].typeName);
    if r.Some? {
      var m :| 0 <= m < |gs| && gs[m].typeName == gs[j].typeName && gs[m].packageTypeName == r;
      assert m == j;
    }
  }

  /** A static reader needs a row type of at least two characters (`Substring(2)`). */
  predicate CursorReaderDefined(cSharpArgType: string, dynamicMapping: bool, tr: Translator) {
    dynamicMapping || |tr.subtype(cSharpArgType, false)| >= 2
  }

  function CursorReaderOf(gs: seq<GenericType>, cSharpArgType: string, dynamicMapping: bool, tr: Translator): CursorReader
    requires CursorReaderDefined(cSharpArgType, dynamicMapping, tr)
  {
    var rowType := tr.subtype(cSharpArgType, false);
    if dynamicMapping then
      if cSharpArgType == tr.dataTableTypeName then DataTableReader else DynamicListReader(rowType)
    else StaticReader(FirstPackageTypeName(gs, rowType), ['I'] + rowType[2..], rowType)
  }

  /**
   * What the retrieval of an argument reads: an associative array reads the
   * argument after it (its element type); a static cursor reader needs its
   * row type's name.
   */
  predicate RetrieveDefined(args: seq<Argument>, dynamicMapping: bool, tr: Translator) {
    forall k :: 0 <= k < |args| && IsRetrieved(args[k]) ==>
      (args[k].dataType == AssociativeArray ==> k + 1 < |args|)
      && (args[k].dataType == RefCursor ==> CursorReaderDefined(tr.ArgType(args[k], true), dynamicMapping, tr))
  }

  /** The read of one retrieved argument. */
  function ReadOf(args: seq<Argument>, k: nat, gs: seq<GenericType>, dynamicMapping: bool, tr: Translator): RetrieveStep
    requires k < |args| && IsRetrieved(args[k]) && RetrieveDefined(args, dynamicMapping, tr)
  {
    var arg := args[k];
    var cSharpArgType := tr.ArgType(arg, true);
    var target := if arg.isReturn then ReturnVariable else ParameterVariable(tr.csharpName(arg.name.GetOr([]), true));
    var oracleArgName := arg.name.GetOr(Binding.ReturnParamName);
    if arg.dataType == RefCursor then ReadCursor(target, oracleArgName, CursorReaderOf(gs, cSharpArgType, dynamicMapping, tr))
    else if arg.dataType == AssociativeArray then ReadAssocArray(target, oracleArgName, args[k + 1].dataType)
    else ReadScalar(target, oracleArgName,
                    if tr.isOdpNetType(cSharpArgType) then OdpNetValue
                    else if arg.dataType.IsLob() then LobValue
                    else ConvertedValue)
  }

  /** Whether the last argument read back among the first `n` is an associative array. */
  function LastRetrievedIsAssoc(args: seq<Argument>, n: nat): bool
    requires n <= |args|
  {
    if n == 0 then false
    else if IsRetrieved(args[n - 1]) then args[n - 1].dataType == AssociativeArray
    else LastRetrievedIsAssoc(args, n - 1)
  }

  /**
   * The retrieval code for the first `n` arguments: a blank line before the
   * read of an associative array and before the read that follows one.
   */
  function RetrieveSteps(args: seq<Argument>, n: nat, gs: seq<GenericType>, dynamicMapping: bool, tr: Translator): seq<RetrieveStep>
    requires n <= |args| && RetrieveDefined(args, dynamicMapping, tr)
  {
    if n == 0 then []
    else
      var prev := RetrieveSteps(args, n - 1, gs, dynamicMapping, tr);
      var arg := args[n - 1];
      if !IsRetrieved(arg) then prev
      else
        prev
        + (if arg.dataType == AssociativeArray || LastRetrievedIsAssoc(args, n - 1) then [BlankLine] else [])
        + [ReadOf(args, n - 1, gs, dynamicMapping, tr)]
  }

  /** `GenerateOutArgumentRetrieveCode`. */
  method GenerateOutArgumentRetrieveCode(args: seq<Argument>, genericTypesUsed: seq<GenericType>, dynamicMapping: bool,
                                         tr: Translator) returns (steps: seq<RetrieveStep>)
    requires RetrieveDefined(args, dynamicMapping, tr)
    ensures steps == RetrieveSteps(args, |args|, genericTypesUsed, dynamicMapping, tr)
  {
    steps := [];
    var prevArgIsAssocArray, isAssocArray := false, false;
    for k := 0 to |args|
      invariant steps == RetrieveSteps(args, k, genericTypesUsed, dynamicMapping, tr)
      invariant prevArgIsAssocArray == LastRetrievedIsAssoc(args, k)
    {
      var arg := args[k];
      var cSharpArgType := tr.ArgType(arg, true);
      var cSharpArgName := if arg.isReturn then ReturnVariable else ParameterVariable(tr.csharpName(arg.name.GetOr([]), true));
      var oracleArgName := arg.name.GetOr(Binding.ReturnParamName);
      if arg.dataLevel != 0 || !arg.mode.EndsWithOut() {
        continue;
      }
      isAssocArray := arg.dataType == AssociativeArray;
      if isAssocArray || prevArgIsAssocArray {
        steps := steps + [BlankLine];
      }
      if arg.dataType == RefCursor {
        var reader := GenerateRefCursorReader(genericTypesUsed, cSharpArgType, dynamicMapping, tr);
        steps := steps + [ReadCursor(cSharpArgName, oracleArgName, reader)];
      } else if isAssocArray {
        steps := steps + [ReadAssocArray(cSharpArgName, oracleArgName, args[k + 1].dataType)];
      } else {
        var read := ConvertedValue;
        if tr.isOdpNetType(cSharpArgType) {
          read := OdpNetValue;
        } else if arg.dataType.IsLob() {
          read := LobValue;
        }
        steps := steps + [ReadScalar(cSharpArgName, oracleArgName, read)];
      }
      prevArgIsAssocArray := isAssocArray;
    }
  }

  /** The reader part of `GenerateRefCursorOutArgumentRetrieveCode`. */
  method GenerateRefCursorReader(genericTypesUsed: seq<GenericType>, cSharpArgType: string, dynamicMapping: bool,
                                 tr: Translator) returns (reader: CursorReader)
    requires CursorReaderDefined(cSharpArgType, dynamicMapping, tr)
    ensures reader == CursorReaderOf(genericTypesUsed, cSharpArgType, dynamicMapping, tr)
  {
    var outListSubType := tr.subtype(cSharpArgType, false);
    var returnListSubTypeFullyQualifiedPackageTypeName: Option<string> := None;
    if |genericTypesUsed| > 0 {
      var i := 0;
      while i < |genericTypesUsed|
        invariant 0 <= i <= |genericTypesUsed|
        invariant FirstPackageTypeName(genericTypesUsed, outListSubType) == FirstPackageTypeName(genericTypesUsed[i..], outListSubType)
      {
        var g := genericTypesUsed[i];
        if g.typeName == outListSubType && g.packageTypeName.Some? {
          returnListSubTypeFullyQualifiedPackageTypeName := g.packageTypeName;
          break;
        }
        assert genericTypesUsed[i..][1..] == genericTypesUsed[i + 1..];
        i := i + 1;
      }
      if i == |genericTypesUsed| {
        assert FirstPackageTypeName(genericTypesUsed[i..], outListSubType) == None;
      }
    }
    if dynamicMapping {
      reader := if cSharpArgType == tr.dataTableTypeName then DataTableReader else DynamicListReader(outListSubType);
    } else {
      reader := StaticReader(returnListSubTypeFullyQualifiedPackageTypeName, ['I'] + outListSubType[2..], outListSubType);
    }
  }

  // ---------------------------------------------------------------------------
  // What the retrieval code promises

  /**
   * Each read goes to the return variable exactly for the return value,
   * reads the parameter `!RETURN` exactly for an unnamed argument, and is
   * chosen by the data type: a cursor reader for a REF CURSOR, an element
   * by element copy for an associative array, a scalar read otherwise,
   * where a LOB that is not an ODP.NET type is read through its `Value`.
   */
  lemma ReadSemantics(args: seq<Argument>, k: nat, gs: seq<GenericType>, dynamicMapping: bool, tr: Translator)
    requires k < |args| && IsRetrieved(args[k]) && RetrieveDefined(args, dynamicMapping, tr)
    ensures var a, r := args[k], ReadOf(args, k, gs, dynamicMapping, tr);
      && !r.BlankLine?
      && (r.target == ReturnVariable <==> a.isReturn)
      && (r.oracleName == Binding.ReturnParamName <==> a.name.None? || a.name.value == Binding.ReturnParamName)
      && (r.ReadCursor? <==> a.dataType == RefCursor)
      && (r.ReadAssocArray? <==> a.dataType == AssociativeArray)
      && (r.ReadScalar? && r.read == LobValue <==> a.dataType.IsLob() && !tr.isOdpNetType(tr.ArgType(a, true)))
  {
  }

  /**
   * A statically mapped cursor is read by the row type's interface reader,
   * qualified exactly when a generic type of that row type names its
   * package class; with dynamic mapping a DataTable is read with the
   * title-case option and a list with the mapping options.
   */
  lemma CursorReaderSemantics(gs: seq<GenericType>, cSharpArgType: string, dynamicMapping: bool, tr: Translator)
    requires CursorReaderDefined(cSharpArgType, dynamicMapping, tr)
    ensures var r, rowType := CursorReaderOf(gs, cSharpArgType, dynamicMapping, tr), tr.subtype(cSharpArgType, false);
      && (r.StaticReader? <==> !dynamicMapping)
      && (r.DataTableReader? <==> dynamicMapping && cSharpArgType == tr.dataTableTypeName)
      && (r.StaticReader? ==>
            r.rowType == rowType && r.readerInterface == ['I'] + rowType[2..]
            && (r.qualifier.Some? <==> exists j :: 0 <= j < |gs| && gs[j].typeName == rowType && gs[j].packageTypeName.Some?))
  {
  }

  /** The reads among a list of retrieval steps, blank lines left out. */
  function Reads(steps: seq<RetrieveStep>): seq<RetrieveStep> {
    if steps == [] then []
    else Reads(steps[..|steps| - 1]) + (if steps[|steps| - 1].BlankLine? then [] else [steps[|steps| - 1]])
  }

  lemma {:induction false} ReadsAppend(a: seq<RetrieveStep>, b: seq<RetrieveStep>)
    ensures Reads(a + b) == Reads(a) + Reads(b)
    decreases |b|
  {
    if b != [] {
      var b' := b[..|b| - 1];
      assert (a + b)[..|a + b| - 1] == a + b';
      ReadsAppend(a, b');
    } else {
      assert a + b == a;
    }
  }

  /** The read of each retrieved argument among the first `n`, in argument order. */
  function RetrievedReads(args: seq<Argument>, n: nat, gs: seq<GenericType>, dynamicMapping: bool, tr: Translator)
    : seq<RetrieveStep>
    requires n <= |args| && RetrieveDefined(args, dynamicMapping, tr)
  {
    if n == 0 then []
    else
      RetrievedReads(args, n - 1, gs, dynamicMapping, tr)
      + (if IsRetrieved(args[n - 1]) then [ReadOf(args, n - 1, gs, dynamicMapping, tr)] else [])
  }

  /**
   * Blank lines aside, the retrieval code is one read per retrieved
   * argument (top level, mode ending with OUT), in argument order.
   */
  lemma {:induction false} ReadsAreRetrievedArguments(args: seq<Argument>, n: nat, gs: seq<GenericType>, dynamicMapping: bool,
                                                      tr: Translator)
    requires n <= |args| && RetrieveDefined(args, dynamicMapping, tr)
    ensures Reads(RetrieveSteps(args, n, gs, dynamicMapping, tr)) == RetrievedReads(args, n, gs, dynamicMapping, tr)
  {
    if n > 0 {
      ReadsAreRetrievedArguments(args, n - 1, gs, dynamicMapping, tr);
      if IsRetrieved(args[n - 1]) {
        var prev := RetrieveSteps(args, n - 1, gs, dynamicMapping, tr);
        var blank := if args[n - 1].dataType == AssociativeArray || LastRetrievedIsAssoc(args, n - 1) then [BlankLine] else [];
        var r := ReadOf(args, n - 1, gs, dynamicMapping, tr);
        ReadSemantics(args, n - 1, gs, dynamicMapping, tr);
        assert RetrieveSteps(args, n, gs, dynamicMapping, tr) == prev + blank + [r];
        ReadsExtend(prev, blank, r);
      }
    }
  }

  lemma ReadsExtend(prev: seq<RetrieveStep>, blank: seq<RetrieveStep>, r: RetrieveStep)
    requires forall i :: 0 <= i < |blank| ==> blank[i].BlankLine?
    requires !r.BlankLine?
    ensures Reads(prev + blank + [r]) == Reads(prev) + [r]
  {
    ReadsAppend(prev + blank, [r]);
    ReadsAppend(prev, blank);
    ReadsOfBlanks(blank);
    assert [r][..0] == [];
  }

  lemma {:induction false} ReadsOfBlanks(blank: seq<RetrieveStep>)
    requires forall i :: 0 <= i < |blank| ==> blank[i].BlankLine?
    ensures Reads(blank) == []
  {
    if blank != [] {
      ReadsOfBlanks(blank[..|blank| - 1]);
    }
  }

  /** The retrieval code does not depend on a cursor mode the mapping of the arguments ignores. */
  lemma {:induction false} RetrieveStepsModeBlind(args: seq<Argument>, n: nat, gs: seq<GenericType>, dynamicMapping: bool,
                                                  tr: Translator)
    requires n <= |args| && CursorModeBlind(args, tr)
    requires RetrieveDefined(args, dynamicMapping, tr.InCursorMode(true)) && RetrieveDefined(args, dynamicMapping, tr.InCursorMode(false))
    ensures RetrieveSteps(args, n, gs, dynamicMapping, tr.InCursorMode(true))
         == RetrieveSteps(args, n, gs, dynamicMapping, tr.InCursorMode(false))
  {
    if n > 0 {
      RetrieveStepsModeBlind(args, n - 1, gs, dynamicMapping, tr);
      assert args[n - 1] in args;
    }
  }

  /** Every blank line and every associative array read in place. */
  predicate SetApart(s: seq<RetrieveStep>) {
    && (forall i :: 0 <= i < |s| && s[i].ReadAssocArray? ==> i > 0 && s[i - 1].BlankLine?)
    && (forall i :: 0 < i < |s| && s[i - 1].ReadAssocArray? ==> s[i].BlankLine?)
    && (forall i :: 0 < i < |s| && s[i - 1].BlankLine? ==> !s[i].BlankLine?)
  }

  /** Appending a read, with a blank line first where the neighbours need one, keeps `SetApart`. */
  lemma SetApartExtend(prev: seq<RetrieveStep>, needBlank: bool, r: RetrieveStep)
    requires SetApart(prev) && (prev == [] || !prev[|prev| - 1].BlankLine?)
    requires !r.BlankLine?
    requires r.ReadAssocArray? || (prev != [] && prev[|prev| - 1].ReadAssocArray?) ==> needBlank
    ensures SetApart(prev + (if needBlank then [BlankLine] else []) + [r])
  {
    var s := prev + (if needBlank then [BlankLine] else []) + [r];
    assert forall i :: 0 <= i < |prev| ==> s[i] == prev[i];
    assert s[|s| - 1] == r;
    if needBlank {
      assert s[|prev|] == BlankLine;
    }
  }

  /**
   * Reads of associative arrays are set apart by blank lines on both sides
   * (except at the very end), no two blank lines are adjacent, and the code
   * ends with a read.
   */
  lemma {:induction false} RetrieveStepsSetApart(args: seq<Argument>, n: nat, gs: seq<GenericType>, dynamicMapping: bool,
                                                 tr: Translator)
    requires n <= |args| && RetrieveDefined(args, dynamicMapping, tr)
    ensures var s := RetrieveSteps(args, n, gs, dynamicMapping, tr);
      SetApart(s)
      && (s == [] ==> !LastRetrievedIsAssoc(args, n))
      && (s != [] ==> !s[|s| - 1].BlankLine? && (s[|s| - 1].ReadAssocArray? <==> LastRetrievedIsAssoc(args, n)))
  {
    if n > 0 {
      RetrieveStepsSetApart(args, n - 1, gs, dynamicMapping, tr);
      var arg := args[n - 1];
      if IsRetrieved(arg) {
        var prev := RetrieveSteps(args, n - 1, gs, dynamicMapping, tr);
        var blank := if arg.dataType == AssociativeArray || LastRetrievedIsAssoc(args, n - 1) then [BlankLine] else [];
        var r := ReadOf(args, n - 1, gs, dynamicMapping, tr);
        ReadSemantics(args, n - 1, gs, dynamicMapping, tr);
        SetApartExtend(prev, blank != [], r);
        assert RetrieveSteps(args, n, gs, dynamicMapping, tr) == prev + blank + [r];
      }
    }
  }
}
