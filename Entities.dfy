/**
 * The generated entity classes (package records, object types, tables and
 * views), the reader generated for each package record, and `Tab`.
 */
module Entities {
  import opened Wrappers
  import opened Ascii
  import CaseConverter
  import opened Metadata
  import Naming

  // ---------------------------------------------------------------------------
  // Entities

  /** Only an object type can be non-instantiable or have an ancestor type in the database. */
  datatype EntityKind =
    | PackageRecordKind
    | ObjectTypeKind(instantiable: bool, dbAncestorTypeName: Option<string>)
    | TableKind
    | ViewKind

  /** One attribute (field or column) of an entity; `owner` is the owner of its type. */
  datatype EntityAttribute = EntityAttribute(attrName: string, attrType: string, attrTypeOwner: Option<string>,
                                             cSharpType: Option<string>, containerClassName: Option<string>)

  /**
   * An entity. `ignoredReason` is present when the entity uses Oracle types
   * the generator does not implement.
   */
  datatype Entity = Entity(kind: EntityKind, entityName: string, cSharpType: Option<string>, owner: Option<string>,
                           attributes: seq<EntityAttribute>, ignoredReason: Option<string>)

  /** `public [abstract] [partial] class <name>[ : <ancestor>[, <interface>]]`. */
  datatype ClassHeader = ClassHeader(isAbstract: bool, isPartial: bool, className: string,
                                     ancestor: Option<string>, interfaceName: Option<string>)

  function ClassNameOf(e: Entity, tr: Translator): string {
    e.cSharpType.GetOr(tr.csharpName(e.entityName, false))
  }

  function DbAncestorOf(e: Entity): Option<string> {
    if e.kind.ObjectTypeKind? then e.kind.dbAncestorTypeName else None
  }

  /**
   * The first line of an entity class. A database ancestor takes precedence
   * over the given ancestor class, which is qualified by the schema
   * namespace; a package record deriving from the given ancestor also
   * implements its own interface.
   */
  function ClassHeaderOf(e: Entity, ancestorClassName: string, isPartial: bool, namespaceSchema: string,
                         tr: Translator): ClassHeader
  {
    var className := ClassNameOf(e, tr);
    var dbAncestor := DbAncestorOf(e);
    ClassHeader(
      e.kind.ObjectTypeKind? && !e.kind.instantiable,
      isPartial,
      className,
      if !IsNullOrEmpty(dbAncestor) then Some(tr.csharpName(dbAncestor.value, false))
      else if ancestorClassName != [] then Some(namespaceSchema + "." + ancestorClassName)
      else None,
      if IsNullOrEmpty(dbAncestor) && ancestorClassName != [] && e.kind.PackageRecordKind? then Some("I" + className)
      else None)
  }

  /** What the header of an entity class says, case by case. */
  lemma ClassHeaderShape(e: Entity, ancestorClassName: string, isPartial: bool, namespaceSchema: string, tr: Translator)
    ensures var h := ClassHeaderOf(e, ancestorClassName, isPartial, namespaceSchema, tr);
      && (h.isAbstract <==> e.kind.ObjectTypeKind? && !e.kind.instantiable)
      && (h.ancestor.None? <==> IsNullOrEmpty(DbAncestorOf(e)) && ancestorClassName == [])
      && (!IsNullOrEmpty(DbAncestorOf(e)) ==>
            h.ancestor == Some(tr.csharpName(DbAncestorOf(e).value, false)) && h.interfaceName.None?)
      && (h.interfaceName.Some? <==> e.kind.PackageRecordKind? && ancestorClassName != [])
      && (h.interfaceName.Some? ==> h.interfaceName.value == "I" + h.className && h.ancestor.Some?)
  {
  }

  // ---------------------------------------------------------------------------
  // Properties

  /** A property of an entity class: its container class, type and name. */
  datatype Property = Property(containerClassName: Option<string>, typeName: string, name: string)

  /** The attribute type is declared by another owner than the entity's, and not by `SYS`. */
  predicate IsForeignType(attr: EntityAttribute, e: Entity) {
    attr.attrTypeOwner.Some? && Some(attr.attrTypeOwner.value) != e.owner && attr.attrTypeOwner.value != "SYS"
  }

  /**
   * The type of an attribute's property: its C# type (or the mapped Oracle
   * type), qualified by the object type namespace of the owner's schema
   * when the type belongs to another schema.
   */
  function PropertyTypeOf(attr: EntityAttribute, e: Entity, opts: Options, attributeType: EntityAttribute -> string): string {
    var cSharpType := attr.cSharpType.GetOr(attributeType(attr));
    if IsForeignType(attr, e)
    then Naming.NamespaceObjectType(opts.baseNamespace, attr.attrTypeOwner.value, Naming.FilterValueIfUsedInNaming(opts))
         + "." + cSharpType
    else cSharpType
  }

  function PropertyOf(attr: EntityAttribute, e: Entity, opts: Options, tr: Translator,
                      attributeType: EntityAttribute -> string): Property {
    Property(attr.containerClassName, PropertyTypeOf(attr, e, opts, attributeType), tr.csharpName(attr.attrName, false))
  }

  /**
   * A foreign attribute type reads, dot by dot, as the object type namespace
   * of its owner's schema followed by the unqualified type; any other keeps
   * its unqualified type.
   */
  lemma ForeignTypeQualified(attr: EntityAttribute, e: Entity, opts: Options, attributeType: EntityAttribute -> string)
    requires var t := attr.cSharpType.GetOr(attributeType(attr)); forall i :: 0 <= i < |t| ==> t[i] != '.'
    ensures var t := attr.cSharpType.GetOr(attributeType(attr));
      && (!IsForeignType(attr, e) ==> PropertyTypeOf(attr, e, opts, attributeType) == t)
      && (IsForeignType(attr, e) && attr.attrTypeOwner.value != [] ==>
            CaseConverter.Split(PropertyTypeOf(attr, e, opts, attributeType), '.')
            == Naming.SchemaSegments(opts.baseNamespace, attr.attrTypeOwner.value, Naming.FilterValueIfUsedInNaming(opts))
               + ["Type", "Object", t])
  {
    var t := attr.cSharpType.GetOr(attributeType(attr));
    if IsForeignType(attr, e) && attr.attrTypeOwner.value != [] {
      var ns := Naming.NamespaceObjectType(opts.baseNamespace, attr.attrTypeOwner.value, Naming.FilterValueIfUsedInNaming(opts));
      assert PropertyTypeOf(attr, e, opts, attributeType) == ns + ['.'] + t;
      CaseConverter.SplitAround(ns, t, '.');
      CaseConverter.SplitNoDelim(t, '.');
    }
  }

  /** The properties of the first `n` attributes. */
  function Properties(e: Entity, n: nat, opts: Options, tr: Translator, attributeType: EntityAttribute -> string): (r: seq<Property>)
    requires n <= |e.attributes|
    ensures |r| == n
  {
    if n == 0 then [] else Properties(e, n - 1, opts, tr, attributeType) + [PropertyOf(e.attributes[n - 1], e, opts, tr, attributeType)]
  }

  /** The class generated for an entity; a package record of unsupported types is only named in a comment. */
  datatype EntityClass =
    | IgnoredRecordClass(reason: string, header: ClassHeader)
    | EntityClass(header: ClassHeader, properties: seq<Property>)

  /** The body of the attribute loop of `GenerateEntityClass`. */
  method PropertyCode(attr: EntityAttribute, e: Entity, opts: Options, tr: Translator, attributeType: EntityAttribute -> string)
    returns (property: Property)
    ensures property == PropertyOf(attr, e, opts, tr, attributeType)
  {
    var cSharpType := attr.cSharpType.GetOr(attributeType(attr));
    if attr.attrTypeOwner.Some? && Some(attr.attrTypeOwner.value) != e.owner && attr.attrTypeOwner.value != "SYS" {
      cSharpType := Naming.NamespaceObjectType(opts.baseNamespace, attr.attrTypeOwner.value, Naming.FilterValueIfUsedInNaming(opts))
                    + "." + cSharpType;
    }
    property := Property(attr.containerClassName, cSharpType, tr.csharpName(attr.attrName, false));
  }

  /** `GenerateEntityClass`, without its C# attributes and property style. */
  method GenerateEntityClass(e: Entity, ancestorClassName: string, isPartial: bool, opts: Options, tr: Translator,
                             attributeType: EntityAttribute -> string) returns (c: EntityClass)
    ensures e.kind.PackageRecordKind? && e.ignoredReason.Some? ==>
      c == IgnoredRecordClass(e.ignoredReason.value, ClassHeaderOf(e, ancestorClassName, isPartial, opts.namespaceSchema, tr))
    ensures !(e.kind.PackageRecordKind? && e.ignoredReason.Some?) ==>
      c == EntityClass(ClassHeaderOf(e, ancestorClassName, isPartial, opts.namespaceSchema, tr),
                       Properties(e, |e.attributes|, opts, tr, attributeType))
  {
    var header := ClassHeaderOf(e, ancestorClassName, isPartial, opts.namespaceSchema, tr);
    if e.kind.PackageRecordKind? && e.ignoredReason.Some? {
      return IgnoredRecordClass(e.ignoredReason.value, header);
    }
    var properties := GenerateProperties(e, opts, tr, attributeType);
    c := EntityClass(header, properties);
  }

  /** The attribute loop of `GenerateEntityClass`. */
  method GenerateProperties(e: Entity, opts: Options, tr: Translator, attributeType: EntityAttribute -> string)
    returns (properties: seq<Property>)
    ensures properties == Properties(e, |e.attributes|, opts, tr, attributeType)
  {
    properties := [];
    for k := 0 to |e.attributes|
      invariant properties == Properties(e, k, opts, tr, attributeType)
    {
      var property := PropertyCode(e.attributes[k], e, opts, tr, attributeType);
      properties := properties + [property];
    }
  }

  /** One property per attribute, in order, each typed as `PropertyTypeOf` says. */
  lemma PropertiesFollowAttributes(e: Entity, n: nat, opts: Options, tr: Translator,
                                   attributeType: EntityAttribute -> string)
    requires n <= |e.attributes|
    ensures var ps := Properties(e, n, opts, tr, attributeType);
      |ps| == n && forall i :: 0 <= i < n ==>
        ps[i].typeName == PropertyTypeOf(e.attributes[i], e, opts, attributeType)
        && ps[i].containerClassName == e.attributes[i].containerClassName
  {
    forall i | 0 <= i < n
      ensures Properties(e, n, opts, tr, attributeType)[i] == PropertyOf(e.attributes[i], e, opts, tr, attributeType)
    {
      PropertyAt(e, n, i, opts, tr, attributeType);
    }
  }

  lemma {:induction false} PropertyAt(e: Entity, n: nat, i: nat, opts: Options, tr: Translator,
                                      attributeType: EntityAttribute -> string)
    requires i < n <= |e.attributes|
    ensures Properties(e, n, opts, tr, attributeType)[i] == PropertyOf(e.attributes[i], e, opts, tr, attributeType)
  {
    if i < n - 1 {
      PropertyAt(e, n - 1, i, opts, tr, attributeType);
      PropertiesKeepPrefix(e, n, i, opts, tr, attributeType);
    }
  }

  lemma PropertiesKeepPrefix(e: Entity, n: nat, i: nat, opts: Options, tr: Translator,
                             attributeType: EntityAttribute -> string)
    requires i < n - 1 && n <= |e.attributes|
    ensures Properties(e, n, opts, tr, attributeType)[i] == Properties(e, n - 1, opts, tr, attributeType)[i]
  {
  }

  // ---------------------------------------------------------------------------
  // The reader of a package record

  /** A field of a package record: its name, Oracle type, C# type and column position. */
  datatype Field = Field(name: string, attrType: string, cSharpType: string, mapPosition: nat)

  /** `TrimEnd(c)`: the text without its trailing run of `c`. */
  function TrimEndChar(s: string, c: char): (r: string)
    ensures |r| <= |s| && r == s[..|r|]
    ensures r == [] || r[|r| - 1] != c
    ensures forall i :: |r| <= i < |s| ==> s[i] == c
  {
    if s == [] || s[|s| - 1] != c then s else TrimEndChar(s[..|s| - 1], c)
  }

  predicate IsLobType(t: string) { t == "BLOB" || t == "CLOB" || t == "NCLOB" }

  /** The getter of a LOB column: the last four letters of its type, capitalised. */
  function LobGetter(attrType: string): string
    requires IsLobType(attrType)
  {
    var suffix := attrType[|attrType| - 4..];
    assert suffix[0] == 'B' || suffix[0] == 'C';
    TrimEmpty(suffix);
    CaseConverter.ConvertToCapitalized(suffix)
  }

  /** An NCLOB column is read with the CLOB getter. */
  lemma NClobReadAsClob()
    ensures LobGetter("NCLOB") == LobGetter("CLOB")
  {
    assert "NCLOB"[1..] == "CLOB";
  }

  /** How the reader sets one field: the first kind that applies, in this order. */
  datatype FieldRead =
    | DecimalRead(position: nat)
    | OdpNetRead(cSharpType: string, position: nat)
    | LobRead(getter: string, position: nat)
    | ConvertedRead(typeName: string, position: nat)

  function FieldReadOf(f: Field, tr: Translator): (r: FieldRead)
    ensures r.DecimalRead? <==> TrimEndChar(f.cSharpType, '?') == tr.decimalTypeName && tr.isOracleNumber(f.attrType)
    ensures r.OdpNetRead? <==> !r.DecimalRead? && tr.isOdpNetType(f.cSharpType)
    ensures r.LobRead? <==> !r.DecimalRead? && !r.OdpNetRead? && IsLobType(f.attrType)
    ensures r.ConvertedRead? ==> r.typeName == TrimEndChar(f.cSharpType, '?')
  {
    if TrimEndChar(f.cSharpType, '?') == tr.decimalTypeName && tr.isOracleNumber(f.attrType) then DecimalRead(f.mapPosition)
    else if tr.isOdpNetType(f.cSharpType) then OdpNetRead(f.cSharpType, f.mapPosition)
    else if IsLobType(f.attrType) then LobRead(LobGetter(f.attrType), f.mapPosition)
    else ConvertedRead(TrimEndChar(f.cSharpType, '?'), f.mapPosition)
  }

  /** The reader method of a record: its name, generic parameter and the read of each field. */
  datatype ReaderCode = ReaderCode(methodName: string, genericTypeParam: string, interfaceName: string,
                                   maxRowsDefaultsToNull: bool, fieldReads: seq<FieldRead>)

  /** `GenerateRecordTypeReadResultMethod`, given the reader method prefix and the generic type prefix. */
  method GenerateRecordTypeReadResultMethod(cSharpType: string, fields: seq<Field>, readResultPrefix: string,
                                            genericTypePrefix: string, isCSharp30: bool, tr: Translator)
    returns (reader: ReaderCode)
    ensures reader.interfaceName == "I" + cSharpType
    ensures reader.methodName == readResultPrefix + reader.interfaceName
    ensures reader.genericTypeParam == genericTypePrefix + cSharpType
    ensures reader.maxRowsDefaultsToNull <==> !isCSharp30
    ensures |reader.fieldReads| == |fields|
    ensures forall i :: 0 <= i < |fields| ==> reader.fieldReads[i] == FieldReadOf(fields[i], tr)
  {
    var interfaceName := "I" + cSharpType;
    var fieldReads: seq<FieldRead> := [];
    for k := 0 to |fields|
      invariant |fieldReads| == k
      invariant forall i :: 0 <= i < k ==> fieldReads[i] == FieldReadOf(fields[i], tr)
    {
      var f := fields[k];
      var read;
      if TrimEndChar(f.cSharpType, '?') == tr.decimalTypeName && tr.isOracleNumber(f.attrType) {
        read := DecimalRead(f.mapPosition);
      } else if tr.isOdpNetType(f.cSharpType) {
        read := OdpNetRead(f.cSharpType, f.mapPosition);
      } else if f.attrType == "BLOB" || f.attrType == "CLOB" || f.attrType == "NCLOB" {
        read := LobRead(LobGetter(f.attrType), f.mapPosition);
      } else {
        read := ConvertedRead(TrimEndChar(f.cSharpType, '?'), f.mapPosition);
      }
      fieldReads := fieldReads + [read];
    }
    reader := ReaderCode(readResultPrefix + interfaceName, genericTypePrefix + cSharpType, interfaceName, !isCSharp30, fieldReads);
  }

  // ---------------------------------------------------------------------------
  // What the generated reader returns at run time

  /**
   * The generated reader adds each row it reads and then stops once the
   * count has reached the maximum: so it returns at least one row of a
   * non-empty cursor even when the maximum is 0.
   */
  function RowsReadAsWritten<T>(rows: seq<T>, maximum: Option<nat>): (r: seq<T>)
    ensures |r| <= |rows| && r == rows[..|r|]
    ensures maximum.None? ==> r == rows
    ensures maximum.Some? ==> |r| == if rows == [] then 0 else Min(|rows|, Max(maximum.value, 1))
  {
    if maximum.None? then rows else rows[..Min(|rows|, if rows == [] then 0 else Max(maximum.value, 1))]
  }

  function Min(a: int, b: int): int { if a <= b then a else b }
  function Max(a: int, b: int): int { if a >= b then a else b }

  /** The read loop of the generated reader, over the rows of a cursor. */
  method ReadRowsAsWritten<T>(rows: seq<T>, maximum: Option<nat>) returns (ret: seq<T>)
    ensures ret == RowsReadAsWritten(rows, maximum)
  {
    ret := [];
    if rows != [] {
      var k := 0;
      while k < |rows|
        invariant 0 <= k <= |rows| && ret == rows[..k]
        invariant maximum.Some? ==> k <= Max(maximum.value, 1)
        invariant maximum.Some? && 0 < k ==> k < maximum.value || k == Max(maximum.value, 1) || k < |rows|
        invariant maximum.Some? && k < |rows| ==> k < Max(maximum.value, 1)
      {
        ret := ret + [rows[k]];
        k := k + 1;
        if maximum.Some? && |ret| >= maximum.value {
          break;
        }
      }
    }
  }

  /** A maximum of 0 still lets one row through. */
  lemma ZeroMaximumReadsOneRow<T>(row: T)
    ensures RowsReadAsWritten([row, row], Some(0)) == [row]
  {
  }

  /** The intended bound: the count is checked before a row is added. */
  function RowsRead<T>(rows: seq<T>, maximum: Option<nat>): (r: seq<T>)
    ensures |r| <= |rows| && r == rows[..|r|]
    ensures maximum.None? ==> r == rows
    ensures maximum.Some? ==> |r| == Min(|rows|, maximum.value)
  {
    if maximum.None? then rows else rows[..Min(|rows|, maximum.value)]
  }

  /** The corrected read loop: it never returns more rows than the maximum. */
  method ReadRows<T>(rows: seq<T>, maximum: Option<nat>) returns (ret: seq<T>)
    ensures ret == RowsRead(rows, maximum)
  {
    ret := [];
    var k := 0;
    while k < |rows|
      invariant 0 <= k <= |rows| && ret == rows[..k]
      invariant maximum.Some? ==> k <= maximum.value
    {
      if maximum.Some? && |ret| >= maximum.value {
        break;
      }
      ret := ret + [rows[k]];
      k := k + 1;
    }
  }

  /** The two readers agree except that with a maximum of 0 the one as written reads one row and the intended one none. */
  lemma RowsReadAgree<T>(rows: seq<T>, maximum: Option<nat>)
    ensures maximum.None? || maximum.value > 0 ==> RowsReadAsWritten(rows, maximum) == RowsRead(rows, maximum)
    ensures maximum == Some(0) && rows != [] ==> RowsReadAsWritten(rows, maximum) == [rows[0]] && RowsRead(rows, maximum) == []
    ensures maximum.Some? ==> |RowsRead(rows, maximum)| <= maximum.value
  {
  }

  // ---------------------------------------------------------------------------
  // Tab

  /** `Tab(count)`: four spaces per tab; a count below 1 gives nothing. */
  method Tab(count: int) returns (tabs: string)
    ensures |tabs| == 4 * Max(count, 0)
    ensures forall i :: 0 <= i < |tabs| ==> tabs[i] == ' '
  {
    tabs := "";
    var i := 0;
    while i < count
      invariant 0 <= Max(i, 0) && |tabs| == 4 * Max(i, 0)
      invariant i <= Max(count, 0)
      invariant forall j :: 0 <= j < |tabs| ==> tabs[j] == ' '
    {
      tabs := tabs + "    ";
      i := i + 1;
    }
  }
}
