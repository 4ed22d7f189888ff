/**
 * The Oracle metadata the generator reads (procedures, their arguments,
 * packages, package record types, entities and their attributes), the
 * type-mapping helpers it calls, and its options.
 *
 * The helpers (`Translater`, `CSharp`, `Orcl`) are not part of this model:
 * they appear as the total functions of a `Translator` value, and the
 * argument-type mapping takes the process-wide cursor mode as an input.
 * The properties proved here hold whatever those functions compute, except
 * where a lemma names a hypothesis about them (`CursorModeBlind`).
 *
 * `IArgument.NextArgument` is modelled as the next element of the
 * procedure's argument list (`NextArgument`), which is how the generator's
 * own bind code finds it.
 */
module Metadata {
  import opened Wrappers

  /** The IN/OUT mode of an argument: Oracle's `IN`, `OUT` and `IN/OUT`. */
  datatype Mode = In | Out | InOut {
    /** The mode's name starts with `IN`. */
    predicate StartsWithIn() { this == In || this == InOut }
    /** The mode's name ends with `OUT`. */
    predicate EndsWithOut() { this == Out || this == InOut }
  }

  /** The Oracle data types the generator tells apart; every other type is `Scalar`. */
  datatype DataType = RefCursor | AssociativeArray | Blob | Clob | NClob | Scalar(name: string) {
    predicate IsLob() { this == Blob || this == Clob || this == NClob }
  }

  /**
   * One row of a procedure's argument list. `name` is absent for a function's
   * return value; arguments nested in a record or collection have
   * `dataLevel > 0` and follow the argument they belong to.
   */
  datatype Argument = Argument(
    name: Option<string>,
    dataLevel: nat,
    mode: Mode,
    dataType: DataType,
    typeName: Option<string>,
    packageName: string,
    defaulted: bool,
    isReturn: bool)

  /** The argument after `args[i]` in the list, or none for the last one. */
  function NextArgument(args: seq<Argument>, i: nat): (r: Option<Argument>)
    requires i < |args|
    ensures r.Some? <==> i + 1 < |args|
    ensures r.Some? ==> r.value == args[i + 1]
  {
    if i + 1 < |args| then Some(args[i + 1]) else None
  }

  /** `String.IsNullOrEmpty`. */
  predicate IsNullOrEmpty(s: Option<string>) { s.None? || s.value == [] }

  /**
   * A stored procedure or function. The three flags are queries the model
   * takes as given: whether a cursor argument or the return value is weakly
   * typed, whether some IN argument is a REF CURSOR, and why the procedure is
   * skipped (if it is).
   */
  datatype Procedure = Procedure(
    packageName: Option<string>,
    procedureName: string,
    arguments: seq<Argument>,
    usesWeaklyTypedCursor: bool,
    hasInRefCursorArgument: bool,
    ignoredReason: Option<string>)
  {
    /** A function's return value is its first argument. */
    predicate IsFunction() { |arguments| > 0 && arguments[0].isReturn }

    predicate HasRefCursorArgument() {
      exists i :: 0 <= i < |arguments| && arguments[i].dataType == RefCursor
    }

    predicate HasOutArgument() {
      exists i :: 0 <= i < |arguments| && arguments[i].dataLevel == 0 && arguments[i].mode == Out
    }
  }

  datatype Package = Package(packageName: string, owner: string, procedures: seq<Procedure>)

  /**
   * The C# side of the type mapping: the helpers the generator calls, taken
   * as given total functions, and the process-wide cursor mode
   * `Translater.UseGenericListForCursor`, which the argument-type mapping
   * reads (a cursor maps to a generic list or to a DataTable by it).
   */
  datatype Translator = Translator(
    /** `Translater.UseGenericListForCursor`. */
    useGenericListForCursor: bool,
    /** `ConvertOracleArgTypeToCSharpType(arg, notNullable)` in the cursor mode given last. */
    argType: (Argument, bool, bool) -> string,
    /** `ConvertOracleNameToCSharpName(name, isNonPublic)`. */
    csharpName: (string, bool) -> string,
    /** `ExtractSubtypeFromGenericCollectionType(type, notNullable)`. */
    subtype: (string, bool) -> string,
    /** `ConvertOracleArgTypeToCSharpOracleDbType(arg, nextArg)`. */
    oracleDbType: (Argument, Option<Argument>) -> string,
    /** `GetStringArgBindSize(dataType)`. */
    stringBindSize: DataType -> nat,
    /** `GetCharLength(arg)`. */
    charLength: Argument -> nat,
    /** `ConvertOracleProcNameToMethodName(proc, pack)`. */
    methodName: (Procedure, Package) -> string,
    /** `CSharp.IsOdpNetType`. */
    isOdpNetType: string -> bool,
    /** `Orcl.IsOracleNumberEquivalent`. */
    isOracleNumber: string -> bool,
    /** `CSharp.IsValidGenericCollectionType`. */
    isGenericCollection: string -> bool,
    /** `Translater.CanBeCSharpInterface(dataType)`. */
    canBeInterface: DataType -> bool,
    /**
     * `ConvertOracleArgTypeToCSharpType(arg, notNullable, true)` in the
     * cursor mode given last: the concrete collection type of an interface.
     */
    concreteCollectionType: (Argument, bool, bool) -> string,
    /** The C# names `String`, `DataTable` and `Decimal`, and `void`. */
    stringTypeName: string,
    dataTableTypeName: string,
    decimalTypeName: string,
    voidTypeName: string,
    /** The length of `CSharp.GENERIC_TYPE_PREFIX`. */
    genericPrefixLength: nat)
  {
    /** The C# type of an argument in the current cursor mode. */
    function ArgType(a: Argument, notNullable: bool): string {
      argType(a, notNullable, useGenericListForCursor)
    }

    /** The concrete collection type of an argument in the current cursor mode. */
    function ConcreteCollectionType(a: Argument, notNullable: bool): string {
      concreteCollectionType(a, notNullable, useGenericListForCursor)
    }

    /** The same helpers with the cursor mode set. */
    function InCursorMode(mode: bool): Translator {
      this.(useGenericListForCursor := mode)
    }
  }

  /** The mapping of the given arguments does not depend on the cursor mode. */
  predicate CursorModeBlind(args: seq<Argument>, tr: Translator) {
    forall a, notNullable :: a in args ==>
      tr.argType(a, notNullable, true) == tr.argType(a, notNullable, false)
      && tr.concreteCollectionType(a, notNullable, true) == tr.concreteCollectionType(a, notNullable, false)
  }

  /** The generator's user options. */
  datatype Options = Options(
    isCSharp30: bool,
    filter: string,
    isIncludeFilterPrefixInNaming: bool,
    isGenerateDynamicMappingMethodForTypedCursor: bool,
    isDuplicatePackageRecordOriginatingOutsideFilterAndSchema: bool,
    maxAssocArraySize: nat,
    baseNamespace: string,
    namespaceSchema: string,
    schema: string)
}
