# modelgen in Dafny

modelgen generates Go code that maps between an external struct and a local copy of it. From a
`MappingConfig`, which names the source struct, the target struct, the omitted fields and the
renamed fields, the generator writes into a text buffer:

- a package clause and an import block;
- a local struct definition;
- a `From` method converting the external struct into the local one;
- a `To` method converting it back.

The model has three parts, one per core package.

**Reader** (`internal/reader/reader.go`)
- The Go syntax tree of a type is the datatype `Reader.Expr`.
- The reader renders a type expression as text (`getTypeName`) and sets the pointer, slice and
  nested flags.
- `extractFields` turns a struct's field list into the ordered `FieldInfo` sequence the generator
  consumes.
- `findStructInFile` searches a parsed file for a named struct.

**Mapper** (`internal/mapper/mapper.go`)
- The field matcher pairs fields by name.
- It decides when two fields both hold nested structs.

**Generator** (`internal/generator/generator.go`)
- The expression builders and type helpers are pure functions over strings.
- The class `Generator.Generator` holds the buffer (`buf`), the table of generated struct names
  (`generatedStructs`) and the unused `nestedStructs` list.
- Each writing method is proved to append exactly one text function of the configuration
  (`StructDefText`, `FromMethodText`, `ToMethodText`, …) and to leave the other fields alone.

What that text contains is proved separately, in three modules.

`GeneratorProperties`
- The struct definition splits into one declaration line per kept source field, in order.
- A parser reads it back to the target type name and to each field's renamed name and cleaned type.
- The `From` and `To` bodies are sequences of per-field entries.
- The import block is one quoted line per import path.

`Conversions`
- A `Conversion` names what the Go code does with one field: copy it, convert or cast its
  elements, or convert a nested struct, held by pointer or by value, through `From` or `To`.
- `Closure` spells out, statement by statement, the Go closure that performs a conversion on a
  given field. `Performs` holds when a text's lines are exactly that closure, so every statement
  is checked, including the conversion call line. A text performs at most one conversion
  (`PerformsOne`).
- The emitted `From` and `To` expressions of every kept field are proved to perform the conversion
  given by an independent decision table (`ForwardConversion`, `ReverseConversion`).
- That table is stated in terms of the reader's flags and the mapper's nestedness predicate.

`Classification`
- Joins reader and generator: for well-formed type expressions, spellings and flags agree.
- The zero value is `nil` exactly for pointer, slice and map types.
- The two lists of basic type names disagree on exactly two names, `uintptr` and `error`.

The reverse shortcut of `generateReverseFieldMapping` (generator.go:290-295) is proved as behaviour.
- The `To` method builds its pseudo target with the cleaned source type (generator.go:223).
- So the source and target types it compares are equal whenever cleaning a cleaned type changes
  nothing.
- For every type the reader produces for a struct of the same package, the `To` entry is then
  the bare field `t.<Name>`, even for nested and slice fields (`Classification.SamePackageNested`,
  `Classification.SamePackageSlice`).
- `Conversions.QualifierReappears` exhibits a spelling on which cleaning is not idempotent.

Three behaviours of the code worth noting:
- **`findStructInFile` keeps the last match.** After its callback returns false, `ast.Inspect`
  still visits the remaining siblings, so when several struct specs of a file carry the name, the
  last one wins, not the first (`Reader.StructInFile`).
- **Only "time.Time" triggers the "time" import.** `collectImports` adds "time" only for a type
  spelling that contains "time.Time". A field of type `time.Duration` adds nothing
  (`GeneratorProperties.DurationNotImported`).
- **Import order is not fixed.** The imports come from iterating a Go map, so their order is
  unspecified. The model fixes only their set.

Modules:

| module | contents |
|---|---|
| `Wrappers` | `Option` |
| `Types` | the records of `internal/types` |
| `GoStrings` | the subset of Go's `strings` package used, line splitting and joining |
| `Reader` | the reader |
| `Mapper` | the field matcher |
| `Generator` | the code generator |
| `GeneratorProperties`, `Conversions`, `Classification` | what the emitted text says |
| `Findings` | the argument-order defect described below |

## Model

| member | source | states |
|---|---|---|
| Reader.GetTypeName | internal/reader/reader.go:200-228 | a pointer is spelled with a leading `*`, an array or slice with a leading `[]`, a map with a leading `map[`, and a qualified name contains `.` |
| Reader.IsPointer | internal/reader/reader.go:129-132 | a field flagged as a pointer has a spelling starting with `*` |
| Reader.IsSlice | internal/reader/reader.go:134-137 | a field flagged as a slice (sized arrays included) has a spelling starting with `[]` |
| Reader.IsStructType | internal/reader/reader.go:139-175 | a nested type's innermost element is a struct literal, an identifier or a qualified name |
| Reader.GetStructType | internal/reader/reader.go:189-198 | finds a struct literal under any number of pointer stars, and only there; what it finds is the dereferenced expression, which the reader classifies as nested |
| Reader.FieldInfos | internal/reader/reader.go:103-123 | as many records as there are declared names in the field list |
| Reader.ExtractFields | internal/reader/reader.go:103-123 | the nested loops over declarations and names append exactly FieldInfos of the field list |
| Reader.LastMatch | internal/reader/reader.go:80-98 | the position of an accepted spec (requested name, struct literal) with no accepted spec after it; none when no spec is accepted |
| Reader.StructInFile | internal/reader/reader.go:77-101 | a struct is found exactly when some type spec has the name and a struct literal; what is found carries the requested name, the file's package name and an empty package path |
| Reader.FindStructInFile | internal/reader/reader.go:77-101 | the result of visiting every type spec is StructInFile: the last accepted spec's fields under the file's package name; a result exists exactly when some spec is accepted |
| Reader.IsStructTypeOfElement | internal/reader/reader.go:166-171 | isStructType sees through pointer and slice wrappers: its value is that of the innermost element type, which is neither |
| Reader.NestedIffElementIsRecord | internal/reader/reader.go:139-175 | a type is nested exactly when its element type is a struct literal, an identifier outside the basic list, or a selector outside {time.Time, time.Duration} |
| Reader.FieldInfosAppend | internal/reader/reader.go:106-120 | the records of two concatenated field lists are the concatenated records, so declaration order is kept |
| Reader.FieldInfosAround | internal/reader/reader.go:106-120 | the records before a declaration, then that declaration's, then those after it |
| Reader.FieldInfosLayout | internal/reader/reader.go:106-120 | the j-th name of the i-th declaration sits at position (names before i) + j and carries that name and its declaration's classification |
| Reader.SharedDeclaration | internal/reader/reader.go:107-117 | names sharing one declaration get identical type text and identical flags |
| Reader.EmbeddedFieldIgnored | internal/reader/reader.go:107 | a declaration without names (an embedded field) contributes no record |
| Reader.UniqueMatchFound | internal/reader/reader.go:77-101 | when exactly one spec is accepted, the result is that struct with the file's package name and its extracted fields |
| Reader.NoMatchIsNil | internal/reader/reader.go:82-89 | when no spec of the name is a struct literal (same-named non-structs are skipped) the result is none |
| Mapper.MatchFields | internal/mapper/mapper.go:7-22 | a key is matched exactly when it names a source field and a target field, every match maps a name to itself, and the two loops compute NominalMatches |
| Mapper.RecursiveMappingIgnoresShape | internal/mapper/mapper.go:24-27 | NeedsRecursiveMapping holds exactly when both fields are nested; changing the pointer and slice flags never changes it |
| Mapper.SameNamesMatchAll | internal/mapper/mapper.go:11-19 | with the same field names on both sides every source name is matched to itself |
| Mapper.MatchesAreSourceNames | internal/mapper/mapper.go:15-21 | matched keys are source field names, with no error case, and matching is symmetric in source and target |
| Generator.LookupTargetName | internal/generator/generator.go:122-128 | the scan of FieldMap that stops at the key equal to the field name yields FieldMap[name] when present, else the name |
| Generator.SourcePrefix | internal/generator/generator.go:140-141 | the deleted qualifier is non-empty and ends in '.' |
| Generator.CleanTypeName | internal/generator/generator.go:139-142 | deleting the qualifier never lengthens a type or introduces characters, and a type without the qualifier is returned unchanged |
| Generator.Unqualified | internal/generator/generator.go:425-428 | the key left after dropping the package qualifier holds no `.` and is the whole name or the part after its last `.` |
| Generator.GenerateFieldMapping | internal/generator/generator.go:266-283 | an omitted field gets the zero value of the target type; any other field gets `src.<Name>` or a closure |
| Generator.GenerateReverseFieldMapping | internal/generator/generator.go:285-307 | equal cleaned types give `t.<Name>`; otherwise the value is `t.<Name>` or a closure |
| Generator.GenerateSliceMapping | internal/generator/generator.go:309-344 | the field is copied exactly when its element type needs no conversion and equals the target's; otherwise a closure returning a slice of the cleaned target element type |
| Generator.GenerateReverseSliceMapping | internal/generator/generator.go:346-372 | the field is copied exactly when the target element is neither nested nor qualified; otherwise a closure returning a slice of a type qualified by the source package |
| Generator.GenerateNestedMapping | internal/generator/generator.go:374-395 | a closure returning a pointer to the cleaned target type (star removed) for a pointer field, otherwise that type itself |
| Generator.GenerateReverseNestedMapping | internal/generator/generator.go:397-418 | a closure returning a pointer to, or a value of, a type qualified by the source package, according to the pointer flag |
| Generator.ZeroValue | internal/generator/generator.go:471-490 | "" for string, 0 for every int/uint/float name, false for bool, nil exactly for the other spellings starting with `*`, `[]` or `map[`, otherwise the type followed by `{}` |
| Generator.Kept | internal/generator/generator.go:116-119 | the fields kept after omission are no more than the fields |
| Generator.IndexOfName | internal/generator/generator.go:257-261 | the first position of a field with the name, or -1 when there is none |
| Generator.TargetFieldFor | internal/generator/generator.go:241-264 | none for an omitted field; otherwise a target field named by FieldMap when such a field exists, else one with the source name when that exists; what is found is a target field |
| Generator.KeyList | internal/generator/generator.go:103-106 | the imports listed from the map keys are exactly the keys, without repetition |
| Generator.FromEntryFor | internal/generator/generator.go:160-186 | the entry emitted for a source field in `From`, with the scanned target name and the pseudo target, is FromEntry |
| Generator.ToEntryFor | internal/generator/generator.go:205-234 | the entry emitted for a source field in `To` (zero value when omitted) is ToEntry |
| Generator.Generator.constructor | internal/generator/generator.go:18-22 | a new generator has an empty buffer and an empty generated-struct table |
| Generator.Generator.WritePackage | internal/generator/generator.go:67-69 | appends the package clause and nothing else changes |
| Generator.Generator.CollectImports | internal/generator/generator.go:84-108 | returns a repetition-free list of the source package path when non-empty, plus "time" when a source or target field type contains "time.Time" |
| Generator.Generator.WriteImports | internal/generator/generator.go:71-82 | appends the import block of such a list, nothing when it is empty |
| Generator.Generator.GenerateStructDef | internal/generator/generator.go:110-137 | appends StructDefText and records the target type name as generated; the buffer is otherwise unchanged |
| Generator.Generator.GenerateFromMethod | internal/generator/generator.go:144-191 | appends FromMethodText and changes nothing else |
| Generator.Generator.GenerateToMethod | internal/generator/generator.go:193-239 | appends ToMethodText and changes nothing else |
| Generator.Generator.FindTargetField | internal/generator/generator.go:241-264 | the two scans over the target fields compute TargetFieldFor |
| Generator.Generator.WriteStructAndMethods | internal/generator/generator.go:33-38 | appends the struct definition, then From, then To |
| Generator.Generator.GenerateStructAndMethods | internal/generator/generator.go:50-65 | resets the state and returns exactly the struct definition, From and To texts, with no error |
| Generator.Generator.WriteFile | internal/generator/generator.go:25-38 | resets the state and leaves package clause, import block, struct definition, From and To in the buffer |
| Generator.Generator.Generate | internal/generator/generator.go:24-47 | returns the formatter's output on success, and on failure an empty result and an error carrying the formatter's reason and the unformatted text |
| GeneratorProperties.KeptAppend | internal/generator/generator.go:116-119 | omission filters field by field, preserving order |
| GeneratorProperties.KeptMembers | internal/generator/generator.go:116-119 | a field is kept exactly when it is a source field that is not omitted |
| GeneratorProperties.StructBodyLines | internal/generator/generator.go:116-133 | the struct body splits into one declaration line per kept field, in source order |
| GeneratorProperties.ClosingLines | internal/generator/generator.go:135 | a closing line followed by a blank line splits into that line and two empty ones |
| GeneratorProperties.StructDefLines | internal/generator/generator.go:110-137 | the struct definition is the header line, the kept fields' declarations in order, the closing brace and a blank line |
| GeneratorProperties.ParseFieldDeclRoundTrip | internal/generator/generator.go:132 | a declaration line reads back into the FieldMap name (or the source name) and the cleaned type |
| GeneratorProperties.ParseFieldDeclsRoundTrip | internal/generator/generator.go:116-133 | the declaration lines read back into the declared pairs in order |
| GeneratorProperties.StructDefRoundTrip | internal/generator/generator.go:110-137 | the struct definition reads back into the target type name and exactly the kept fields' renamed names and cleaned types, in source order; omitted fields never appear |
| GeneratorProperties.HeaderRoundTrip | internal/generator/generator.go:113 | the type name can be read back from the header |
| GeneratorProperties.KeptPrintable | internal/generator/generator.go:116-119 | kept fields of a printable configuration are printable |
| GeneratorProperties.FromBodyEntries | internal/generator/generator.go:160-187 | the From body is the kept fields' entries, in source order |
| GeneratorProperties.FromMethodLayout | internal/generator/generator.go:149-190 | From is its comment and signature lines, the `src == nil` guard returning nil, the opening of the result, one entry per kept field, then the closing braces |
| GeneratorProperties.ToBodyEntries | internal/generator/generator.go:205-235 | the To body has one entry per source field, omitted ones included, in source order |
| GeneratorProperties.ToMethodLayout | internal/generator/generator.go:193-239 | To is its usage comment and signature, the opening of the external literal, one entry per source field in order, then the closing braces |
| GeneratorProperties.ToEntryKeyed | internal/generator/generator.go:207-234 | every To entry is keyed by the source field name, and an omitted field's value is the zero value of its source type |
| GeneratorProperties.ImportBodyLines | internal/generator/generator.go:78-80 | the import lines split into one quoted path per import, in list order |
| GeneratorProperties.ImportBlockLines | internal/generator/generator.go:71-82 | a non-empty import block is `import (`, the quoted paths in order, `)` and a blank line; an empty list writes nothing |
| GeneratorProperties.NoImportsIffEmptySet | internal/generator/generator.go:73-75 | the import block is skipped exactly when nothing needs importing |
| GeneratorProperties.DurationNotImported | internal/generator/generator.go:88-101 | fields typed time.Duration alone bring in no "time" import |
| Conversions.PerformsOne | internal/generator/generator.go:266-418 | no text performs two different conversions on one field, so the conversion a template performs is well defined |
| Conversions.SliceConvertPerforms | internal/generator/generator.go:316-328 | the element-wise `From` loop on `src.<Name>` is exactly the FromEach closure: nil test returning nil, allocation, the range loop, the `(&T{}).From(&item)` call, the nil check on its result, the store and the return |
| Conversions.SliceCastPerforms | internal/generator/generator.go:337-343 | the cast loop is exactly the CastEach closure: allocation, the range loop, the `T(v)` store and the return |
| Conversions.NestedPointerPerforms | internal/generator/generator.go:380-385 | the pointer case is exactly the FromPointer closure: `(&T{}).From(src.<Name>)` behind a `src.<Name> != nil` test, nil otherwise |
| Conversions.NestedValuePerforms | internal/generator/generator.go:388-394 | the corrected value case is exactly the FromStruct closure: `(&T{}).From(&src.<Name>)`, the result dereferenced, `T{}` when it is nil |
| Conversions.ReverseSlicePerforms | internal/generator/generator.go:358-367 | the reverse element loop is exactly the ToEach closure on `t.<Name>`, allocating a slice of the qualified element type and storing `item.To()` |
| Conversions.ReverseNestedPointerPerforms | internal/generator/generator.go:406-412 | the reverse pointer case is exactly the ToPointer closure: the address of `t.<Name>.To()` behind a nil test |
| Conversions.ReverseNestedValuePerforms | internal/generator/generator.go:415-417 | the reverse value case is exactly the ToStruct closure returning `t.<Name>.To()` |
| Conversions.ForwardConversion | internal/generator/generator.go:266-344 | the forward decision table: a pointer or value conversion exactly for a non-slice field that needs recursive mapping against its pseudo target, a pointer conversion only for pointers, element loops only for slices |
| Conversions.ForwardClassified | internal/generator/generator.go:266-283 | the emitted From expression of every kept field performs, statement by statement, the conversion the table prescribes: slices first, then nested fields, otherwise `src.<Name>` |
| Conversions.ReverseConversion | internal/generator/generator.go:285-307 | the reverse decision table: never a cast, a copy whenever cleaning the cleaned type is idempotent, element conversion only for slices, struct conversion only for nested non-slices |
| Conversions.ReverseClassified | internal/generator/generator.go:285-307 | the emitted To expression of every kept field performs, statement by statement, the conversion the reverse table prescribes |
| Conversions.ReverseShortcut | internal/generator/generator.go:290-295 | when cleaning is idempotent on a kept field's type its To value is `t.<targetName>`, whatever its shape |
| Conversions.UnqualifiedTakesShortcut | internal/generator/generator.go:223 | a type without the source qualifier always takes the shortcut, so its To value is a copy |
| Conversions.QualifierReappears | internal/generator/generator.go:139-142 | for a nested value field typed `apiapi..T` in package api, cleaning yields `api.T`, which cleans to `T`, so the shortcut misses and the reverse table prescribes the `To` conversion into `api.T` |
| Classification.ZeroNilIffReference | internal/generator/generator.go:484-486 | the zero value is nil exactly for a pointer, slice or map spelling |
| Classification.OmittedZeroIsNil | internal/reader/reader.go:200-211 | for a type the reader renders, the omitted-field zero value is nil exactly when the expression is a pointer, an array or a map |
| Classification.SpellingShowsShape | internal/reader/reader.go:129-137 | a rendered type starts with `*` exactly when isPointer holds, with `[]` exactly when isSlice holds and with `map[` exactly for maps |
| Classification.MarkersIgnored | internal/generator/generator.go:422-465 | both tables look at a type with its leading `*`, `[` and `]` characters trimmed, so markers before a name never change the answer |
| Classification.QualifierIgnored | internal/generator/generator.go:425-428 | a qualified name `pkg.N` is looked up in the primitive table as `N` |
| Classification.SameBasicNames | internal/reader/reader.go:145-150 | apart from uintptr and error, a name is in the reader's basic list exactly when it is in the generator's primitive table |
| Classification.PlainKey | internal/generator/generator.go:423-428 | a plain unqualified name is its own primitive-table key and no builtin |
| Classification.IdentifierKey | internal/generator/generator.go:422-465 | an identifier is looked up as itself and is no builtin |
| Classification.NestedIffNeedsConversion | internal/generator/generator.go:467-469 | for identifiers other than uintptr and error, the reader's nested flag and the generator's needsConversion agree |
| Classification.UintptrDisagrees | internal/generator/generator.go:443 | uintptr is nested for the reader (absent from its basic list) but a primitive for the generator |
| Classification.ErrorDisagrees | internal/reader/reader.go:149 | error is basic for the reader but needs conversion for the generator |
| Classification.SliceElementConversion | internal/generator/generator.go:309-315 | a slice of an identifier is classified as a slice, its element is the identifier, and it is nested exactly when it needs element conversion |
| Classification.SamePackageNested | internal/generator/generator.go:374-395 | a same-package struct field, by value or pointer, is converted in From but copied as `t.<targetName>` in To |
| Classification.SamePackageSlice | internal/generator/generator.go:309-329 | a same-package slice of structs is converted element-wise in From but copied as `t.<targetName>` in To |
| Findings.FromCallRoundTrip | internal/generator/generator.go:389 | a `result := (&T{}).From(&A)` line reads back into T and A |
| Findings.NestedValueConvertsField | internal/generator/generator.go:388-394 | the corrected value case builds the field's type from `&src.<Name>` |
| Findings.NestedValueAsWrittenSwapped | internal/generator/generator.go:388-394 | the value case as the source writes it builds a type named after the field from a selector named after the type |
| Findings.AsWrittenAgreesIffSameName | internal/generator/generator.go:388-394 | the written and the intended templates coincide exactly for a field named after its type |
| Findings.AsWrittenMisconverts | internal/generator/generator.go:388-394 | for every field not named after its type, the value case as written does not perform the FromStruct conversion of `src.<Name>` |
| Findings.AsWrittenEntryMisconverts | internal/generator/generator.go:266-394 | for a kept nested value field whose name is not its local type, the entry the source emits fails the conversion the table prescribes, while the corrected entry performs it |
| Findings.SettingsFieldMisread | examples/everything/api/models.go:18 | for `Settings UserSettings` the written line converts `src.UserSettings` into a `Settings` |

## Findings

| source | as written | input that shows it | evidently intended | confidence | as-written member | corrected member |
|---|---|---|---|---|---|---|
| internal/generator/generator.go:388-394 | the value-case nested template receives the cleaned type, the field name, the type, the type, so its call line is `(&<Name>{}).From(&src.<Type>)` | the field `Settings UserSettings` of `Account` (examples/everything/api/models.go:18) gives `(&Settings{}).From(&src.UserSettings)` | `(&<Type>{}).From(&src.<Name>)`, as in the pointer case at lines 380-385 | high (not executed; read from the format arguments) | Findings.NestedValueLinesAsWritten, Findings.AsWrittenMisconverts, Findings.AsWrittenEntryMisconverts, Findings.SettingsFieldMisread | Generator.NestedValueLines, Findings.NestedValueConvertsField |

The rest of the model (`GenerateNestedMapping`, `FromMethodText`, `Generator.Generator.GenerateFromMethod`) uses the corrected
template. It differs from the source's output only for a value-typed nested field whose name is not its type name
(`Findings.AsWrittenAgreesIffSameName`).

## Left out

- `Reader.Read`, `parseStructFromSource` and `pkgPathToDir` (reader.go:27-75, 178-185): reflection, directory parsing and running `go list`; the model starts from a parsed file (`Reader.File`), whose type specs are listed in the order `ast.Inspect` visits them.
- `exprToString` (reader.go:125-127) is `getTypeName` itself and has no member of its own.
- `go/format.Source` (generator.go:41-44) is a foreign formatter: `Generate` takes it as a parameter returning `Formatted` or `FormatFailed`.
- Generator.Generator.CollectImports: the order of the imports comes from Go map iteration and is unspecified, so only the set of imports and the absence of repeats are stated.
- `internal/util/version.go` and the `examples/*/generate.go` builder programs: the builder's source is not available, and the version lookup reads build information.
- `Reader.StructInFile` leaves `PackagePath` empty, as the source does; the path is filled in by code outside this model.
- `IsOmitted` (types/field.go:6) and `nestedStructs` are carried along but never read, as in the source.
- Nil configuration pointers (`SourceType`, `TargetType`) are not modelled: the records are values.
- GoStrings.ReplaceAll: only non-empty patterns are modelled; the generator's pattern always ends in '.'.
- Conversions.ForwardClassified: stated for fields whose name and type spelling hold no newline, which is every spelling the reader produces from Go identifiers.
- Conversions.ReverseClassified: stated for single-line type spellings, target names and package names, as above.
- Generator.GenerateNestedMapping, Generator.FromMethodText, Generator.Generator.GenerateFromMethod: emit the corrected value-case call `(&<Type>{}).From(&src.<Name>)`, not the source's `(&<Name>{}).From(&src.<Type>)`; the text as written is `Findings.NestedMappingAsWritten` (see Findings).
- Classification.IsIdentifier: only ASCII letters, digits and `_`; Go's Unicode identifiers are not covered by the Classification lemmas.
- Whether the emitted Go compiles is not modelled; the properties are about the emitted text.
