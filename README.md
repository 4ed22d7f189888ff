# Odapter code generation, modelled in Dafny

Odapter reads the stored procedures, package record types, object types,
tables and views of an Oracle schema and generates C# adapter classes for
them. This project models two parts of it:

- **`CaseConverter`**: the identifier case conversions that every generated
  name goes through. These are underscore_delimited to PascalCase and
  camelCase and back, capitalising, labels, and the `_`-prefixed field form.
- **The decisions of `Generator`**: what each generated piece of C# contains,
  stated as descriptors rather than text. This covers:
  - the namespaces and base class names of a schema;
  - the method signature of a procedure, with its optional parameters and
    trailing synthetic parameters;
  - the generic cursor types of a method and their constraints;
  - the `OracleParameter` binds and the read-back of OUT values;
  - the whole method, including the commented-out header of an ignored
    procedure and the connection handling;
  - the overloads generated per procedure, and the process-wide cursor mode
    they switch;
  - which package record types a package class defines;
  - the header and properties of an entity class;
  - the reader generated for a package record, and `Tab`.

Modules, one per file:

| module | what it holds |
|---|---|
| `Wrappers` | `Option` |
| `Ascii` | ASCII character classes, `ToLower`/`ToUpper`, `Trim` (the .NET primitives the source uses) |
| `CaseConverter` | `CaseConverter` |
| `Metadata` | arguments, procedures and packages as the loader delivers them; the `Translator` and `Options` records |
| `Naming` | namespace and base class name builders |
| `Signature` | optional parameters and the method signature |
| `Generics` | generic cursor types and their constraints |
| `Binding` | the bind code |
| `Retrieval` | the read-back code for OUT arguments and the return value |
| `MethodSynthesis` | the whole method, the method versions, and the package class being built (`PackageClassText`) |
| `PackageRecords` | the record loop of `WritePackageClasses` |
| `Entities` | entity classes, the package record reader, the rows it returns at run time, and `Tab` |

The type mapping of `Translater`, `CSharp` and `Orcl` is not part of the
source text modelled here. It is a `Translator` record of functions that
every operation takes as a parameter. The process-wide
`Translater.UseGenericListForCursor` is a field of that record, and the
argument-type mapping (`ConvertOracleArgTypeToCSharpType`) receives it as an
input, so a cursor can map to a generic list in one mode and to a DataTable
in the other. `GenerateAllMethodVersions` updates it on the `PackageClassText`
class. Nothing is assumed about the mapping's functions, except where a lemma
states a hypothesis (`CursorModeBlind`). The settings of `Parameter.Instance`
are an `Options` record.

`IArgument.NextArgument` is modelled as the next element of the procedure's
argument list (`Metadata.NextArgument`). The loader that sets it is not part
of this model. The generator's own bind code finds the next argument the
same way (Odapter/Generation/Generator.cs:464), and a commented-out line at
Generator.cs:205 equates the two.

Where a source operation would throw, the model has a precondition. The
cases are:
- `DelimitCapitalizedWordsWithUnderscore` and `ConvertToCapitalized` on text
  of white space only (`[0]` of an empty array or string);
- camelCase of text whose Pascal form is empty (`Substring(0, 1)`);
- an associative array bound as the last argument (`args[IndexOf(arg) + 1]`);
- a generic constraint on a row type shorter than the generic prefix
  (`Substring`);
- the statically mapped reader of a cursor whose row type is shorter than two
  characters (`Substring(2)`, Generator.cs:356; `Retrieval.CursorReaderDefined`);
- the read-back of an associative array that is the last argument
  (`oracleArg.NextArgument.DataType`, Generator.cs:379; the element row of
  `Retrieval.RetrieveDefined`).

A procedure with a weakly typed cursor that also takes a cursor as an IN
argument gets no method at all: every branch of `GenerateAllMethodVersions`
excludes it (Odapter/Generation/Generator.cs:665, 669, 672). The model
follows the code (`MethodSynthesis.VersionCount`).

## Model

| member | source | states |
|---|---|---|
| `CaseConverter.DelimitCapitalizedWordsWithUnderscore` | Example/generated/CaseConversion.cs:47-66 | The character loop builds exactly the delimited form of the trimmed text: `""` for `""`, the first character kept whatever its case, and `_` before every later upper-case letter. |
| `CaseConverter.DelimitedLength` | Example/generated/CaseConversion.cs:47-66 | The delimited text is one character longer than the trimmed text for every upper-case letter after the first character. |
| `CaseConverter.DelimitIsInvertible` | Example/generated/CaseConversion.cs:43-66 | Dropping the inserted underscores gives back the trimmed text, so no character's case or order changes. |
| `CaseConverter.ConvertCamelCaseToUnderscoreDelimited` | Example/generated/CaseConversion.cs:73-75 | The result is the lower-cased delimited form and has no upper-case letter. |
| `CaseConverter.ConvertPascalCaseToUnderscoreDelimited` | Example/generated/CaseConversion.cs:82-84 | Computes the same function as the camelCase conversion, with the same guarantees. |
| `CaseConverter.CollapseKeepsAlnum` | Example/generated/CaseConversion.cs:96 | The regular expression keeps every letter and digit in order, and leaves only letters, digits and `_`. |
| `CaseConverter.JoinSplit` | Example/generated/CaseConversion.cs:98 | Splitting on a delimiter loses nothing: joining the pieces gives back the text. |
| `CaseConverter.TitleFromOnlyRaises` | Example/generated/CaseConversion.cs:100 | Title-casing changes the case of letters and nothing else, and keeps text of letters and digits so. |
| `CaseConverter.PascalBodyLetters` | Example/generated/CaseConversion.cs:93-100 | Before the edge rule, the Pascal text is exactly the letters and digits of the input in order, case aside, and holds nothing else. |
| `CaseConverter.ConvertUnderscoreDelimitedToPascalCaseWith` | Example/generated/CaseConversion.cs:91-109 | The token loop builds exactly the Pascal form: trim, collapse, lower, split, title-case each token, then apply the edge rule. |
| `CaseConverter.PascalCaseParts` | Example/generated/CaseConversion.cs:106-107 | Without `preserve`, the Pascal form is the body with the word `Underscorechar` before it when the input starts with `_` and after it when the input ends with `_`. With `preserve` the edges add nothing. |
| `CaseConverter.PascalCaseAlnum` | Example/generated/CaseConversion.cs:91-109 | Pascal text holds only letters and digits. |
| `CaseConverter.PascalCaseStart` | Example/generated/CaseConversion.cs:91-109 | Pascal text never starts with a lower-case letter. |
| `CaseConverter.PascalCaseLetters` | Example/generated/CaseConversion.cs:91-109 | When no edge word is injected, the letters and digits of the Pascal text are exactly the input's, in order, with only their case changed. |
| `CaseConverter.PascalEmpty` | Example/generated/CaseConversion.cs:91-109 | The Pascal text is empty exactly when the input has no letter or digit and no edge word is injected. |
| `CaseConverter.PascalEdges` | Example/generated/CaseConversion.cs:106-107 | `_word_` becomes `UnderscorecharWordUnderscorechar` without `preserve`, and `Word` with it: `preserve` drops the underscores rather than keeping them. |
| `CaseConverter.PascalNotIdempotent` | Example/generated/CaseConversion.cs:98 | A word with a capital after its first letter, such as `FooBar`, is not left as it is: that capital is lowered (`Foobar`). |
| `CaseConverter.PascalOfWord` | Example/generated/CaseConversion.cs:91-109 | Pascal case of one word of letters and digits that starts with a letter is that word capitalised. |
| `CaseConverter.ConvertUnderscoreDelimitedToPascalCase` | Example/generated/CaseConversion.cs:111-113 | The public overload is the conversion with edge words injected. |
| `CaseConverter.PascalOfUnderscoreDelimited` | Example/generated/CaseConversion.cs:82-113 | Round trip: converting a PascalCase word of letters and digits to underscore_delimited and back gives the word again, with its first letter raised in general. |
| `CaseConverter.LowerFirst` | Example/generated/CaseConversion.cs:123 | Lowering the first character keeps the length and the rest of the text. |
| `CaseConverter.CamelCase` | Example/generated/CaseConversion.cs:120-124 | camelCase is the Pascal text with only its first character changed, and never starts with an upper-case letter. It requires a non-empty Pascal text for non-empty input, where `Substring(0, 1)` would throw. |
| `CaseConverter.ConvertUnderscoreDelimitedToCamelCaseWith` | Example/generated/CaseConversion.cs:120-124 | Computes camelCase. |
| `CaseConverter.ConvertUnderscoreDelimitedToCamelCase` | Example/generated/CaseConversion.cs:126-128 | The public overload is camelCase with edge words injected. |
| `CaseConverter.CamelRaisedIsPascal` | Example/generated/CaseConversion.cs:120-124 | Raising the first letter of camelCase gives back the Pascal text. |
| `CaseConverter.CamelCaseAlnum` | Example/generated/CaseConversion.cs:120-124 | camelCase holds only letters and digits. |
| `CaseConverter.CamelOfUnderscoreDelimited` | Example/generated/CaseConversion.cs:73-128 | Round trip: converting a camelCase word of letters and digits to underscore_delimited and back gives the word again. |
| `CaseConverter.ConvertToCapitalized` | Example/generated/CaseConversion.cs:145-150 | `""` for `""`. Otherwise the result equals the trimmed value up to case, its first character is not lower case, and the rest is lower case. |
| `CaseConverter.CapitalizedIdempotent` | Example/generated/CaseConversion.cs:145-150 | Capitalising twice gives the same as capitalising once. |
| `CaseConverter.LabelLetters` | Example/generated/CaseConversion.cs:135-138 | A label is the lowered column name with spaces for underscores, up to the case of letters, and contains no `_`. |
| `CaseConverter.LabelJoin` | Example/generated/CaseConversion.cs:135-138 | The parts of a column name between underscores are labelled one by one and joined by spaces. |
| `CaseConverter.LabelOfWord` | Example/generated/CaseConversion.cs:135-150 | The label of one word of letters and digits is the word capitalised. |
| `CaseConverter.PrefixedCamelCase` | Example/generated/CaseConversion.cs:157-159 | The prefixed form is `_` followed by camelCase. |
| `CaseConverter.PrefixedCamelCaseShape` | Example/generated/CaseConversion.cs:157-159 | The prefixed form has exactly one underscore, its first character. |
| `CaseConverter.ConvertUnderscoreDelimitedToCamelCasePrefixedWithUnderscoreWith` | Example/generated/CaseConversion.cs:157-159 | The overload with a flag computes the prefixed form. |
| `CaseConverter.ConvertUnderscoreDelimitedToCamelCasePrefixedWithUnderscore` | Example/generated/CaseConversion.cs:161-163 | As written, the public overload returns plain camelCase. |
| `CaseConverter.PublicPrefixedLacksUnderscore` | Example/generated/CaseConversion.cs:153-163 | The public overload's result never starts with `_`, so it never equals the prefixed form its name promises. |
| `CaseConverter.ConvertUnderscoreDelimitedToCamelCasePrefixedWithUnderscoreCorrected` | Example/generated/CaseConversion.cs:153-163 | The public overload as intended computes the prefixed form. |
| `Naming.FilterValueIfUsedInNaming` | Odapter/Generation/Generator.cs:144-146 | The filter is used in names exactly when the option says so and the filter is not blank, and then it is trimmed. |
| `Naming.NamespaceSchema` | Odapter/Generation/Generator.cs:114-124 | `""` for an empty schema. |
| `Naming.NamespaceSchemaSegments` | Odapter/Generation/Generator.cs:114-124 | Read back dot by dot, the schema namespace is the base namespace's segments (when there is one), then Pascal(schema), then Pascal(filter) when there is a filter. |
| `Naming.JoinNamespaceSegments` | Odapter/Generation/Generator.cs:115-123 | Names without dots each read back as one segment after the base namespace's segments. |
| `Naming.NamespacePackage` | Odapter/Generation/Generator.cs:128-130 | `""` for an empty schema; otherwise the schema namespace's segments followed by `Package`. |
| `Naming.NamespaceObjectType` | Odapter/Generation/Generator.cs:132-134 | `""` for an empty schema; otherwise the schema namespace's segments followed by `Type`, `Object`. |
| `Naming.NamespaceTable` | Odapter/Generation/Generator.cs:136-138 | `""` for an empty schema; otherwise the schema namespace's segments followed by `Table`. |
| `Naming.NamespaceView` | Odapter/Generation/Generator.cs:140-142 | `""` for an empty schema; otherwise the schema namespace's segments followed by `View`. |
| `Naming.EntityNamespacesDistinct` | Odapter/Generation/Generator.cs:114-142 | The schema, package, object type, table and view namespaces of a schema are pairwise different. |
| `Naming.BaseAdapterClassName` | Odapter/Generation/Generator.cs:150-152 | `""` exactly for an empty schema; otherwise Pascal(schema) + `Adapter`, letters and digits only. |
| `Naming.BaseRecordClassName` | Odapter/Generation/Generator.cs:154-156 | `""` exactly for an empty schema; otherwise Pascal(schema) + `PackageRecord`. |
| `Naming.BaseObjectTypeClassName` | Odapter/Generation/Generator.cs:158-160 | `""` exactly for an empty schema; otherwise Pascal(schema) + `ObjectType`. |
| `Naming.BaseTableClassName` | Odapter/Generation/Generator.cs:162-164 | `""` exactly for an empty schema; otherwise Pascal(schema) + `Table`. |
| `Naming.BaseViewClassName` | Odapter/Generation/Generator.cs:166-168 | `""` exactly for an empty schema; otherwise Pascal(schema) + `View`. |
| `Naming.BaseClassNamesDistinct` | Odapter/Generation/Generator.cs:150-168 | The five base class names of a schema are pairwise different. |
| `Signature.DefaultedSuffixStart` | Odapter/Generation/Generator.cs:230-233 | Where the reverse scan stops: everything after it is defaulted, and the argument just before it is not. |
| `Signature.DefaultedSuffixStartUnique` | Odapter/Generation/Generator.cs:230-233 | Exactly one position has those two properties. |
| `Signature.GetOptionalCSharpParameters` | Odapter/Generation/Generator.cs:227-236 | The reverse loop with `break` computes the optional names. |
| `Signature.OptionalParametersMembers` | Odapter/Generation/Generator.cs:227-236 | In C# 3.0 mode there are no optional names. Otherwise a name is optional exactly when an argument of the maximal defaulted run at the end of the whole list carries it, and the count is that run's length. |
| `Signature.PassingOf` | Odapter/Generation/Generator.cs:260 | IN/OUT is passed by `ref` and OUT by `out`, exactly. |
| `Signature.SignatureArgumentsMembers` | Odapter/Generation/Generator.cs:253-257 | The signature arguments are exactly the top-level, non-return, named arguments. |
| `Signature.DeclaredParameters` | Odapter/Generation/Generator.cs:253-268 | One declared parameter per signature argument, in order. |
| `Signature.DeclaredParameterList` | Odapter/Generation/Generator.cs:253-268 | The argument loop builds those declared parameters. |
| `Signature.GenerateMethodArguments` | Odapter/Generation/Generator.cs:243-309 | Builds the declared parameters, then the trailing synthetic parameters. |
| `Signature.DeclaredParametersFirst` | Odapter/Generation/Generator.cs:253-268 | The declared parameters come first, one per signature argument in declaration order. Each passes by `ref`/`out` exactly as its mode says and is optional (` = null`) exactly when its name is optional. Nothing after them is a declared parameter. |
| `Signature.TrailingParametersOrder` | Odapter/Generation/Generator.cs:271-306 | The synthetic parameters come in this order, each exactly under its condition: map-by-position and allow-unmapped (generics and dynamic mapping), the title-case flag (dynamic mapping without generic lists), maximum rows (generics, or the title-case case), and the connection, always present and last. |
| `Signature.SignatureEndsWithConnection` | Odapter/Generation/Generator.cs:304-306 | Every signature ends with the optional connection parameter, defaulted to `null` exactly outside C# 3.0 mode, and no other parameter is a connection. |
| `Signature.DeclaredParametersModeBlind` | Odapter/Generation/Generator.cs:253-268 | When the mapping of the arguments ignores the cursor mode, the declared parameters are the same in both modes. |
| `Signature.CSharp30HasNoDefaults` | Odapter/Generation/Generator.cs:227-306 | In C# 3.0 mode no parameter of the signature has a default. |
| `Generics.PackageTypeName` | Odapter/Generation/Generator.cs:207-212 | A cursor's row type is qualified by a package class exactly when there is a next argument with a type name, the filter is blank, and that type name is not the cursor's own package. |
| `Generics.CursorGenericType` | Odapter/Generation/Generator.cs:206-215 | The generic type is the cursor's element type, weakly typed exactly when no argument follows it or the next argument is at the same data level. |
| `Generics.GetMethodGenericTypes` | Odapter/Generation/Generator.cs:198-219 | The argument loop computes the generic types. |
| `Generics.GenericTypesDistinct` | Odapter/Generation/Generator.cs:213-215 | No two generic types share a type name. |
| `Generics.GenericTypesSound` | Odapter/Generation/Generator.cs:202-216 | Every generic type is that of a top-level OUT REF CURSOR argument, the first one with its row type. |
| `Generics.GenericTypesComplete` | Odapter/Generation/Generator.cs:202-216 | Every top-level OUT REF CURSOR argument has its row type among the generic types. |
| `Generics.GenericsIffCursorOut` | Odapter/Generation/Generator.cs:202-216 | There are generic types exactly when some top-level argument is an OUT REF CURSOR. |
| `Generics.InterfaceName` | Odapter/Generation/Generator.cs:322-325 | The interface constraint is `I` + the row type without its generic prefix, qualified by the package class when one is known. |
| `Generics.GenerateMethodConstraints` | Odapter/Generation/Generator.cs:316-329 | One constraint per generic type, in order. It has an interface exactly when the mapping is static and the cursor strongly typed, and then it is `InterfaceName`. |
| `Binding.DirectionOf` | Odapter/Generation/Generator.cs:503 | `Input` when the mode starts with IN, and `Output` when it ends with OUT, both for IN OUT. |
| `Binding.GenerateArgumentBindCode` | Odapter/Generation/Generator.cs:454-532 | The argument loop computes the bind steps of all arguments with the signature's optional names. |
| `Binding.ArgumentBindCode` | Odapter/Generation/Generator.cs:461-529 | The loop body computes one argument's bind steps. |
| `Binding.BindSemantics` | Odapter/Generation/Generator.cs:469-503 | Each bound argument's parameter, field by field: its name (`!RETURN` for the return value) and direction; a `null` value exactly for the return value, OUT-only arguments and associative arrays; a null guard exactly when it is optional; an array size exactly for associative arrays, the maximum when output and the list count when input; a string bind size exactly when it is an output string. |
| `Binding.CollectionSemantics` | Odapter/Generation/Generator.cs:481-525 | The collection set-up of an associative array shares the parameter's name and guard. It copies the value exactly for IN arguments, and sets `maxAssocArraySize` bind sizes exactly for a list of strings. |
| `Binding.ArgumentBindShape` | Odapter/Generation/Generator.cs:461-529 | An argument contributes a blank line first exactly when it is an associative array. A bound one then contributes its parameter, and for an associative array the collection set-up. No other step is a parameter. |
| `Binding.BindsAreBoundParameters` | Odapter/Generation/Generator.cs:454-532 | Blank lines and collection set-ups aside, the bind code is one parameter per bound argument, in argument order. |
| `Binding.BindStepsModeBlind` | Odapter/Generation/Generator.cs:454-532 | When the mapping of the arguments ignores the cursor mode, the bind code is the same in both modes. |
| `Binding.GuardMatchesSignature` | Odapter/Generation/Generator.cs:493-497 | A signature argument is bound, and its bind is guarded exactly when its signature parameter is optional, so an optional argument the caller leaves out is not bound. |
| `Binding.CSharp30BindsUnguarded` | Odapter/Generation/Generator.cs:493-497 | In C# 3.0 mode no bind is guarded. |
| `Retrieval.FirstPackageTypeName` | Odapter/Generation/Generator.cs:336-339 | `Find` returns a package type name exactly when a generic type of that row type has one, and then it is one of theirs. |
| `Retrieval.FirstPackageTypeNameOfDistinct` | Odapter/Generation/Generator.cs:336-339 | With distinct row types, it is the qualifier of the one generic type of that row type. |
| `Retrieval.GenerateOutArgumentRetrieveCode` | Odapter/Generation/Generator.cs:406-446 | The argument loop computes the read-back steps. |
| `Retrieval.ReadsAreRetrievedArguments` | Odapter/Generation/Generator.cs:410-444 | Blank lines aside, the read-back code is exactly one read per retrieved argument (top level, mode ending with OUT), in argument order. |
| `Retrieval.RetrieveStepsModeBlind` | Odapter/Generation/Generator.cs:410-444 | When the mapping of the arguments ignores the cursor mode, the read-back code is the same in both modes. |
| `Retrieval.GenerateRefCursorReader` | Odapter/Generation/Generator.cs:331-365 | Computes the cursor reader. |
| `Retrieval.ReadSemantics` | Odapter/Generation/Generator.cs:410-443 | Each read-back goes to the return variable exactly for the return value, and reads `!RETURN` exactly for an unnamed argument. It is a cursor read exactly for a REF CURSOR, an element copy exactly for an associative array, and reads a LOB's `Value` exactly for a LOB that is not an ODP.NET type. |
| `Retrieval.CursorReaderSemantics` | Odapter/Generation/Generator.cs:334-360 | Static mapping reads through `I` + the row type without its prefix, qualified exactly when a generic type names its package class. Dynamic mapping reads a DataTable exactly for a DataTable argument. |
| `Retrieval.RetrieveStepsSetApart` | Odapter/Generation/Generator.cs:409-444 | Associative array reads have a blank line before and after them (except at the end), no two blank lines are adjacent, and the code ends with a read. |
| `MethodSynthesis.ReturnTypeOf` | Odapter/Generation/Generator.cs:188-191 | `void` for a procedure; for a function, the C# type of its first argument. |
| `MethodSynthesis.DefaultInitialisations` | Odapter/Generation/Generator.cs:576-588 | The argument loop computes the default initialisations. |
| `MethodSynthesis.DefaultsExactly` | Odapter/Generation/Generator.cs:578-587 | The return value and every top-level OUT argument get exactly their default, and nothing else gets one. |
| `MethodSynthesis.DefaultsGuard` | Odapter/Generation/Generator.cs:576 | When the return value comes first, the guard "function or has an OUT argument" holds exactly when some argument needs a default. |
| `MethodSynthesis.CommandTextSegments` | Odapter/Generation/Generator.cs:599-603 | The command text reads back as the upper-cased schema, the package when there is one, and the procedure. |
| `MethodSynthesis.GenerateMethodCode` | Odapter/Generation/Generator.cs:539-650 | Computes the method of a procedure with the type mapping in the cursor mode it currently holds, which reaches every argument's C# type. |
| `MethodSynthesis.IgnoredHasHeaderOnly` | Odapter/Generation/Generator.cs:549-561 | An ignored procedure gets only its header, which is the same header a generated method would have. A generated method returns a value exactly for a function. |
| `MethodSynthesis.TypeParametersOfCursors` | Odapter/Generation/Generator.cs:544-570 | A method has type parameters exactly in generic-list mode when some argument is an OUT REF CURSOR. They are distinct, and there is one constraint each. |
| `MethodSynthesis.CSharp30BindsByPosition` | Odapter/Generation/Generator.cs:605-609 | A method binds by name exactly outside C# 3.0 mode. In C# 3.0 mode no parameter is optional and no bind is guarded. |
| `MethodSynthesis.StaleCursorModeHarmless` | Odapter/Generation/Generator.cs:676-679 | For a procedure without a cursor, under the hypothesis that the mapping of its arguments ignores the cursor mode, the mode left from earlier does not change its method. |
| `MethodSynthesis.DefaultsModeBlind` | Odapter/Generation/Generator.cs:576-588 | When the mapping of the arguments ignores the cursor mode, the default initialisations are the same in both modes. |
| `MethodSynthesis.ConnectionOwnership` | Odapter/Generation/Generator.cs:593-640 | The method's last parameter is the caller's optional connection, and both the `??` (line 593) and the `finally` guard (line 636) test that parameter. A caller's connection is used and never closed. Without one, the method's own connection is used and closed. |
| `MethodSynthesis.DataTableVersionTypes` | Odapter/Generation/Generator.cs:660-675 | A weakly typed cursor without an IN cursor gets two methods. The first is generated in generic-list mode: the return type and the type parameters are those the mapping gives in that mode. The second is generated in DataTable mode: the return type is the mapping's in that mode, there are no type parameters, and its row-count trace counts `.Rows` exactly when that return type is `DataTable` (line 627). |
| `MethodSynthesis.VersionCount` | Odapter/Generation/Generator.cs:657-680 | One method without a cursor. With a cursor: 2 when weak without an IN cursor, 0 when weak with an IN cursor, and otherwise 2 or 1 depending on the dynamic-for-typed option. |
| `MethodSynthesis.VersionsDistinct` | Odapter/Generation/Generator.cs:660-675 | The versions of a procedure with a cursor are distinct. Only the DataTable version, weak without an IN cursor, reads cursors without generics. |
| `MethodSynthesis.PackageClassText.AppendMethodCode` | Odapter/Generation/Generator.cs:666 | Appends the method generated in the current cursor mode and leaves the mode unchanged. |
| `MethodSynthesis.PackageClassText.GenerateAllMethodVersions` | Odapter/Generation/Generator.cs:657-680 | Appends the methods of the procedure's versions, in order, each generated with the type mapping in the mode then current. It sets the cursor mode to true for a procedure with a cursor, and to false after a DataTable version. |
| `MethodSynthesis.PackageClassText.AppendCursorVersions` | Odapter/Generation/Generator.cs:660-675 | The cursor branch: sets generic-list mode, appends the dynamic and static versions under their conditions, then switches to DataTable mode and appends the DataTable version. |
| `PackageRecords.Selected` | Odapter/Generation/Generator.cs:937-938 | The `Where` keeps exactly the records loaded for or declared in the package. |
| `PackageRecords.FirstOfEachKeyDistinct` | Odapter/Generation/Generator.cs:939-940 | After the grouping, no two records share a name and C# type. |
| `PackageRecords.FirstOfEachKeyFirst` | Odapter/Generation/Generator.cs:939-940 | Each kept record is the first of its key. |
| `PackageRecords.FirstOfEachKeyComplete` | Odapter/Generation/Generator.cs:939-940 | Every key present before the grouping is present after it. |
| `PackageRecords.TextOf` | Odapter/Generation/Generator.cs:960-977 | A record gets an interface and a reader exactly when it is not ignored. |
| `PackageRecords.WritePackageRecords` | Odapter/Generation/Generator.cs:936-978 | The record loop with its `continue`s computes the record texts. |
| `PackageRecords.RecordTextsMembers` | Odapter/Generation/Generator.cs:943-978 | A text is written exactly for a candidate that passes the filters. |
| `PackageRecords.PackageRecordsDefined` | Odapter/Generation/Generator.cs:936-957 | A package class defines a record exactly when the record is a candidate and passes the owner, scope and declaring-package filters. Every candidate is one of the package's records. |
| `PackageRecords.DefinedRecordsDistinct` | Odapter/Generation/Generator.cs:936-957 | The records a package class defines have distinct names and C# types. |
| `PackageRecords.RecordTextsDistinct` | Odapter/Generation/Generator.cs:936-957 | Texts written from candidates with distinct keys have distinct keys. |
| `PackageRecords.DeclaringPackageOnly` | Odapter/Generation/Generator.cs:952-957 | A record declared in an in-scope package is defined by that package only, never by two. |
| `PackageRecords.OwnRecordsOnly` | Odapter/Generation/Generator.cs:944-949 | Without the duplicate option, a package defines only records of its own owner that are declared in it. |
| `Entities.ClassHeaderShape` | Odapter/Generation/Generator.cs:1013-1030 | An entity class is abstract exactly for a non-instantiable object type. A database ancestor takes precedence over the given ancestor (qualified by the schema namespace). A class has no ancestor exactly when it has neither. It implements its own interface exactly for a package record with a given ancestor and no database ancestor. |
| `Entities.GenerateEntityClass` | Odapter/Generation/Generator.cs:1010-1080 | An ignored package record gets only its header in a comment. Any other entity gets its header and one property per attribute. |
| `Entities.PropertyCode` | Odapter/Generation/Generator.cs:1052-1069 | The loop body computes the property of an attribute. |
| `Entities.GenerateProperties` | Odapter/Generation/Generator.cs:1051-1076 | The attribute loop computes the properties. |
| `Entities.PropertiesFollowAttributes` | Odapter/Generation/Generator.cs:1051-1076 | One property per attribute, in order, with the attribute's container class and qualified type. |
| `Entities.ForeignTypeQualified` | Odapter/Generation/Generator.cs:1053-1057 | A type owned by another schema than the entity's, other than `SYS`, reads back dot by dot as that schema's object type namespace followed by the type. Any other type is unqualified. |
| `Entities.TrimEndChar` | Odapter/Generation/Generator.cs:723 | `TrimEnd('?')` removes exactly the trailing `?`s. |
| `Entities.NClobReadAsClob` | Odapter/Generation/Generator.cs:727-728 | An NCLOB field is read with the CLOB getter (the last four letters of the type). |
| `Entities.FieldReadOf` | Odapter/Generation/Generator.cs:719-733 | A field is read as the first applicable of: decimal with precision, ODP.NET value, LOB, converted value. Each applies exactly under its condition. |
| `Entities.GenerateRecordTypeReadResultMethod` | Odapter/Generation/Generator.cs:698-742 | The reader is named `ReadResult` + `I` + the record type, with the generic parameter prefix + the record type. Maximum rows defaults to `null` exactly outside C# 3.0 mode. There is one read per field, in order. |
| `Entities.RowsReadAsWritten` | Odapter/Generation/Generator.cs:716-735 | At run time the generated reader returns a prefix of the rows: all of them without a maximum, otherwise min(rows, max(maximum, 1)) of a non-empty cursor. |
| `Entities.ReadRowsAsWritten` | Odapter/Generation/Generator.cs:716-735 | The read loop, as generated, returns that prefix. |
| `Entities.ZeroMaximumReadsOneRow` | Odapter/Generation/Generator.cs:735 | With a maximum of 0 the generated reader returns one row. |
| `Entities.RowsRead` | Odapter/Generation/Generator.cs:735 | As intended, the reader returns a prefix of min(rows, maximum) rows. |
| `Entities.ReadRows` | Odapter/Generation/Generator.cs:735 | A read loop that checks the maximum before adding returns that prefix. |
| `Entities.RowsReadAgree` | Odapter/Generation/Generator.cs:735 | Both readers agree except for a maximum of 0, where the generated one returns one row and the intended one none. The intended one never exceeds the maximum. |
| `Entities.Tab` | Odapter/Generation/Generator.cs:1290-1294 | `count` tabs are `4 * count` spaces (none for a negative count). |

## Left out

- File writing, `StreamWriter`, the `try`/`catch` around it, `DisplayMessage`, `Run` (which loads a live database) and `GetAppNameVersionLabel` are input/output or reflection and are not modelled.
- The type mapping of `Translater`, `CSharp`, `Orcl`, `Comment` and `Parameter` is not part of this model. Its functions are parameters (`Translator`, `Options`), and the cursor mode is one of the mapping's inputs. The properties hold for any mapping, except where a lemma states a hypothesis about it.
- `MethodSynthesis.StaleCursorModeHarmless`: holds under the hypothesis `CursorModeBlind`, that the mapping of a procedure's non-cursor arguments ignores the cursor mode. The mapping's code is not part of this model, so this is assumed, not proved.
- Generated text is modelled as descriptors. Indentation (`Tab` is modelled on its own), the `(argNum - 5) % 6` line wrapping, the `//` of `commentOutOnWrap`, and the `excludeTypes` flag (every caller passes `false`) are text layout only.
- The trace, `ExecuteNonQuery`, `using` and singleton boilerplate of a generated method or package class is fixed text. The model records only what varies: the trace's row count, and whether a value is returned.
- C# attributes on entity classes (`Serializable`, `DataContract`, `XmlElement`), the auto-implemented versus backing-field property style, and the partial-class marker property only decorate the class text.
- `GenerateEntityInterface`, `GenerateBaseEntityClass`, `GenerateBasePackageClass` and `GenerateAssocArrayOutArgumentRetrieveCode`'s element conversion text are not modelled beyond the decision to emit them.
- Characters are ASCII. .NET culture rules, Unicode white space and `Regex` are not modelled. `TextInfo.ToTitleCase` is modelled on lower-case ASCII text (both callers lower-case first): a letter is raised when it is the first letter since a separator, so a token starting with a digit has its first letter raised.
- The runtime behaviour of generated code is modelled only for the reader's row count and the connection's ownership.
- `CaseConverter.ConvertUnderscoreDelimitedToLabel`: stated by the lemmas `LabelLetters`, `LabelJoin` and `LabelOfWord` rather than by its own contract.
- `Entities.LobGetter`: has no contract of its own; `NClobReadAsClob` states what it returns for NCLOB and CLOB.
- `Entities.GenerateRecordTypeReadResultMethod`: the field's property name (`ConvertOracleRecordFieldNameToCSharpPropertyName`) belongs to the type mapping and is left out of the field read.

## Findings

| source | as written | input that shows it | evidently intended | confidence | as-written member | corrected member |
|---|---|---|---|---|---|---|
| Example/generated/CaseConversion.cs:161-163 | The public `ConvertUnderscoreDelimitedToCamelCasePrefixedWithUnderscore` returns plain camelCase, without the `_` its name and summary promise. | `"foo_bar"` gives `"fooBar"`, not `"_fooBar"`. | Call the private overload, giving `_` + camelCase. | not executed | `CaseConverter.ConvertUnderscoreDelimitedToCamelCasePrefixedWithUnderscore`, `CaseConverter.PublicPrefixedLacksUnderscore` | `CaseConverter.ConvertUnderscoreDelimitedToCamelCasePrefixedWithUnderscoreCorrected`, `CaseConverter.PrefixedCamelCaseShape` |
| Odapter/Generation/Generator.cs:735 | The generated reader adds a row before comparing the count with the maximum, so a maximum of 0 still returns one row. | A cursor of two rows with maximum 0 returns one row. | Return at most `maximum` rows, none for 0. | not executed | `Entities.ReadRowsAsWritten`, `Entities.ZeroMaximumReadsOneRow` | `Entities.ReadRows`, `Entities.RowsReadAgree` |
