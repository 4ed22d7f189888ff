/**
 * The namespaces and base class names the generator derives from the schema
 * name, the optional filter and the base namespace: every generated file is
 * placed by these.
 */
module Naming {
  import opened Ascii
  import opened CaseConverter
  import opened Metadata

  const Dot := '.'

  /** `ConvertUnderscoreDelimitedToPascalCase`, the public overload. */
  function Pascal(s: string): string {
    PascalCase(s, false)
  }

  /** Letters and digits only: a single namespace segment. */
  lemma IsSegment(p: string)
    requires AllAlnum(p)
    ensures Split(p, Dot) == [p]
  {
    AlnumExcludes(p, Dot);
    SplitNoDelim(p, Dot);
  }

  /** A Pascal name has no dot, so it is a single namespace segment. */
  lemma PascalIsSegment(s: string)
    ensures AllAlnum(Pascal(s))
    ensures Split(Pascal(s), Dot) == [Pascal(s)]
  {
    PascalCaseAlnum(s, false);
    IsSegment(Pascal(s));
  }

  /** `String.IsNullOrWhiteSpace` on a non-null string. */
  predicate IsWhiteSpaceOnly(s: string) { forall i :: 0 <= i < |s| ==> IsWhiteSpace(s[i]) }

  /**
   * `GetFilterValueIfUsedInNaming`: the trimmed filter when the option puts
   * it in names and it is not blank, otherwise nothing.
   */
  function FilterValueIfUsedInNaming(opts: Options): (r: string)
    ensures r != [] <==> opts.isIncludeFilterPrefixInNaming && !IsWhiteSpaceOnly(opts.filter)
    ensures r != [] ==> r == Trim(opts.filter)
  {
    TrimEmpty(opts.filter);
    if opts.isIncludeFilterPrefixInNaming && !IsWhiteSpaceOnly(opts.filter) then Trim(opts.filter) else []
  }

  // ---------------------------------------------------------------------------
  // Namespaces

  /**
   * The base namespace and `.` (when there is a base namespace), the schema
   * name, then `.` and the filter name when there is a filter.
   */
  function JoinNamespace(baseNamespace: string, schemaName: string, filterName: string, hasFilter: bool): string {
    (if baseNamespace == [] then [] else baseNamespace + [Dot])
    + schemaName
    + (if hasFilter then [Dot] + filterName else [])
  }

  /** The segments of the base namespace, if there is one. */
  function BaseSegments(baseNamespace: string): seq<string> {
    if baseNamespace == [] then [] else Split(baseNamespace, Dot)
  }

  /** The schema name and optional filter name, dot-separated. */
  function SchemaAndFilter(schemaName: string, filterName: string, hasFilter: bool): string {
    schemaName + (if hasFilter then [Dot] + filterName else [])
  }

  /** Names without dots read back as one segment each. */
  lemma SchemaAndFilterSegments(schemaName: string, filterName: string, hasFilter: bool)
    requires AllAlnum(schemaName) && AllAlnum(filterName)
    ensures Split(SchemaAndFilter(schemaName, filterName, hasFilter), Dot)
      == [schemaName] + (if hasFilter then [filterName] else [])
  {
    IsSegment(schemaName);
    if hasFilter {
      IsSegment(filterName);
      SplitAround(schemaName, filterName, Dot);
      assert SchemaAndFilter(schemaName, filterName, hasFilter) == schemaName + [Dot] + filterName;
    } else {
      assert SchemaAndFilter(schemaName, filterName, hasFilter) == schemaName;
    }
  }

  /** The joined namespace is the base namespace and `.`, if any, before the schema and filter. */
  lemma JoinNamespaceShape(baseNamespace: string, schemaName: string, filterName: string, hasFilter: bool)
    ensures baseNamespace == [] ==>
      JoinNamespace(baseNamespace, schemaName, filterName, hasFilter) == SchemaAndFilter(schemaName, filterName, hasFilter)
    ensures baseNamespace != [] ==>
      JoinNamespace(baseNamespace, schemaName, filterName, hasFilter)
        == baseNamespace + [Dot] + SchemaAndFilter(schemaName, filterName, hasFilter)
  {
  }

  /** Joined names without dots read back as the base segments, then each name as one segment. */
  lemma JoinNamespaceSegments(baseNamespace: string, schemaName: string, filterName: string, hasFilter: bool)
    requires AllAlnum(schemaName) && AllAlnum(filterName)
    ensures Split(JoinNamespace(baseNamespace, schemaName, filterName, hasFilter), Dot)
      == BaseSegments(baseNamespace) + [schemaName] + (if hasFilter then [filterName] else [])
  {
    var middle := SchemaAndFilter(schemaName, filterName, hasFilter);
    var tail := [schemaName] + (if hasFilter then [filterName] else []);
    SchemaAndFilterSegments(schemaName, filterName, hasFilter);
    JoinNamespaceShape(baseNamespace, schemaName, filterName, hasFilter);
    if baseNamespace != [] {
      SplitAround(baseNamespace, middle, Dot);
      assert Split(baseNamespace + [Dot] + middle, Dot) == Split(baseNamespace, Dot) + tail;
    }
  }

  /**
   * `GenerateNamespaceSchema`: the base namespace (when given), the Pascal
   * schema name and the Pascal filter (when given), dot-separated; nothing
   * for an empty schema.
   */
  function NamespaceSchema(baseNamespace: string, schema: string, filter: string): (r: string)
    ensures schema == [] ==> r == []
  {
    if schema == [] then [] else JoinNamespace(baseNamespace, Pascal(schema), Pascal(filter), filter != [])
  }

  /** The segments of the schema namespace. */
  function SchemaSegments(baseNamespace: string, schema: string, filter: string): seq<string> {
    BaseSegments(baseNamespace) + [Pascal(schema)] + (if filter == [] then [] else [Pascal(filter)])
  }

  /**
   * Read back as dot-separated segments, the schema namespace is the base
   * namespace's segments, then the schema's Pascal name, then the filter's
   * when there is a filter: the schema and filter each give exactly one segment.
   */
  lemma NamespaceSchemaSegments(baseNamespace: string, schema: string, filter: string)
    requires schema != []
    ensures Split(NamespaceSchema(baseNamespace, schema, filter), Dot) == SchemaSegments(baseNamespace, schema, filter)
  {
    PascalIsSegment(schema);
    PascalIsSegment(filter);
    JoinNamespaceSegments(baseNamespace, Pascal(schema), Pascal(filter), filter != []);
  }

  /** The schema namespace, `.` and the given tail, or nothing for an empty schema. */
  function Under(baseNamespace: string, schema: string, filter: string, tail: string): (r: string)
    ensures schema == [] ==> r == []
    ensures schema != [] ==> |r| == |NamespaceSchema(baseNamespace, schema, filter)| + 1 + |tail|
    ensures schema != [] ==> Split(r, Dot) == SchemaSegments(baseNamespace, schema, filter) + Split(tail, Dot)
  {
    if schema == [] then []
    else
      NamespaceSchemaSegments(baseNamespace, schema, filter);
      SplitAround(NamespaceSchema(baseNamespace, schema, filter), tail, Dot);
      NamespaceSchema(baseNamespace, schema, filter) + [Dot] + tail
  }

  /** The fixed tails of the entity namespaces, as segments. */
  lemma TailSegments()
    ensures Split("Package", Dot) == ["Package"]
    ensures Split("Type.Object", Dot) == ["Type", "Object"]
    ensures Split("Table", Dot) == ["Table"]
    ensures Split("View", Dot) == ["View"]
  {
    WordSegment("Package");
    WordSegment("Table");
    WordSegment("View");
    TypeObjectSegments();
  }

  lemma WordSegment(w: string)
    requires w in {"Package", "Table", "View", "Type", "Object"}
    ensures Split(w, Dot) == [w]
  {
    assert AllAlnum(w);
    IsSegment(w);
  }

  lemma TypeObjectSegments()
    ensures Split("Type.Object", Dot) == ["Type", "Object"]
  {
    WordSegment("Type");
    WordSegment("Object");
    assert "Type.Object" == "Type" + [Dot] + "Object";
    SplitAround("Type", "Object", Dot);
  }

  /** `GenerateNamespacePackage`. */
  function NamespacePackage(baseNamespace: string, schema: string, filter: string): (r: string)
    ensures schema == [] ==> r == []
    ensures schema != [] ==> Split(r, Dot) == SchemaSegments(baseNamespace, schema, filter) + ["Package"]
  {
    TailSegments();
    Under(baseNamespace, schema, filter, "Package")
  }

  /** `GenerateNamespaceObjectType`. */
  function NamespaceObjectType(baseNamespace: string, schema: string, filter: string): (r: string)
    ensures schema == [] ==> r == []
    ensures schema != [] ==> Split(r, Dot) == SchemaSegments(baseNamespace, schema, filter) + ["Type", "Object"]
  {
    TailSegments();
    Under(baseNamespace, schema, filter, "Type.Object")
  }

  /** `GenerateNamespaceTable`. */
  function NamespaceTable(baseNamespace: string, schema: string, filter: string): (r: string)
    ensures schema == [] ==> r == []
    ensures schema != [] ==> Split(r, Dot) == SchemaSegments(baseNamespace, schema, filter) + ["Table"]
  {
    TailSegments();
    Under(baseNamespace, schema, filter, "Table")
  }

  /** `GenerateNamespaceView`. */
  function NamespaceView(baseNamespace: string, schema: string, filter: string): (r: string)
    ensures schema == [] ==> r == []
    ensures schema != [] ==> Split(r, Dot) == SchemaSegments(baseNamespace, schema, filter) + ["View"]
  {
    TailSegments();
    Under(baseNamespace, schema, filter, "View")
  }

  /**
   * The four entity namespaces of one schema are different from each other
   * and from the schema namespace: the kinds of generated class never share
   * a namespace.
   */
  lemma EntityNamespacesDistinct(baseNamespace: string, schema: string, filter: string)
    requires schema != []
    ensures var s, p, o, t, v := NamespaceSchema(baseNamespace, schema, filter),
        NamespacePackage(baseNamespace, schema, filter), NamespaceObjectType(baseNamespace, schema, filter),
        NamespaceTable(baseNamespace, schema, filter), NamespaceView(baseNamespace, schema, filter);
      s != p && s != o && s != t && s != v && p != o && p != t && p != v && o != t && o != v && t != v
  {
    var n := |NamespaceSchema(baseNamespace, schema, filter)|;
    assert |NamespacePackage(baseNamespace, schema, filter)| == n + 8;
    assert |NamespaceObjectType(baseNamespace, schema, filter)| == n + 12;
    assert |NamespaceTable(baseNamespace, schema, filter)| == n + 6;
    assert |NamespaceView(baseNamespace, schema, filter)| == n + 5;
  }

  // ---------------------------------------------------------------------------
  // Base class names

  /** The Pascal schema name followed by a fixed suffix, or nothing for an empty schema. */
  function SchemaClassName(schema: string, suffix: string): (r: string)
    requires suffix != [] && AllAlnum(suffix)
    ensures schema == [] <==> r == []
    ensures schema != [] ==> AllAlnum(r) && |r| >= |suffix| && r[|r| - |suffix|..] == suffix
  {
    if schema == [] then []
    else
      PascalIsSegment(schema);
      AllAlnumAppend(Pascal(schema), suffix);
      Pascal(schema) + suffix
  }

  /** A class-name suffix: letters only, checked one character at a time. */
  lemma {:induction false} LiteralAlnum(w: string)
    requires forall c :: c in w ==> IsLetter(c)
    ensures AllAlnum(w)
  {
    forall i | 0 <= i < |w|
      ensures IsAlnum(w[i])
    {
      assert w[i] in w;
    }
  }

  /** `GenerateBaseAdapterClassName`. */
  function BaseAdapterClassName(schema: string): (r: string)
    ensures schema == [] <==> r == []
    ensures schema != [] ==> r == Pascal(schema) + "Adapter" && AllAlnum(r)
  {
    LiteralAlnum("Adapter");
    SchemaClassName(schema, "Adapter")
  }

  /** `GenerateBaseRecordClassName`. */
  function BaseRecordClassName(schema: string): (r: string)
    ensures schema == [] <==> r == []
    ensures schema != [] ==> r == Pascal(schema) + "PackageRecord" && AllAlnum(r)
  {
    LiteralAlnum("PackageRecord");
    SchemaClassName(schema, "PackageRecord")
  }

  /** `GenerateBaseObjectTypeClassName`. */
  function BaseObjectTypeClassName(schema: string): (r: string)
    ensures schema == [] <==> r == []
    ensures schema != [] ==> r == Pascal(schema) + "ObjectType" && AllAlnum(r)
  {
    LiteralAlnum("ObjectType");
    SchemaClassName(schema, "ObjectType")
  }

  /** `GenerateBaseTableClassName`. */
  function BaseTableClassName(schema: string): (r: string)
    ensures schema == [] <==> r == []
    ensures schema != [] ==> r == Pascal(schema) + "Table" && AllAlnum(r)
  {
    LiteralAlnum("Table");
    SchemaClassName(schema, "Table")
  }

  /** `GenerateBaseViewClassName`. */
  function BaseViewClassName(schema: string): (r: string)
    ensures schema == [] <==> r == []
    ensures schema != [] ==> r == Pascal(schema) + "View" && AllAlnum(r)
  {
    LiteralAlnum("View");
    SchemaClassName(schema, "View")
  }

  /** The five base classes of one schema have five different names. */
  lemma BaseClassNamesDistinct(schema: string)
    requires schema != []
    ensures var a, r, o, t, v := BaseAdapterClassName(schema), BaseRecordClassName(schema),
        BaseObjectTypeClassName(schema), BaseTableClassName(schema), BaseViewClassName(schema);
      a != r && a != o && a != t && a != v && r != o && r != t && r != v && o != t && o != v && t != v
  {
    var n := |Pascal(schema)|;
    assert |BaseAdapterClassName(schema)| == n + 7;
    assert |BaseRecordClassName(schema)| == n + 13;
    assert |BaseObjectTypeClassName(schema)| == n + 10;
    assert |BaseTableClassName(schema)| == n + 5;
    assert |BaseViewClassName(schema)| == n + 4;
  }
}
