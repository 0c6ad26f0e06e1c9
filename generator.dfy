/**
 * The code generator (internal/generator/generator.go).  Given a mapping
 * configuration it writes, into a text buffer, a local struct definition, a
 * `From` method converting the external struct into it and a `To` method
 * converting back.  The expression builders and the type helpers are pure
 * functions over strings; the `Generator` class holds the buffer the source
 * appends to and the table of generated struct names.
 *
 * The text functions below (StructDefText, FromMethodText, ToMethodText) state
 * exactly what each generating method appends; GeneratorProperties proves what
 * that text contains.
 */
module Generator {
  import opened Wrappers
  import opened Types
  import opened GoStrings

  // ---- Configuration lookups ----

  /** `config.OmitFields[name]`: a missing key reads as false. */
  predicate Omitted(config: MappingConfig, name: string) {
    name in config.omitFields && config.omitFields[name]
  }

  /** The target name of a source field: its FieldMap entry, else the source name. */
  function TargetName(fieldMap: map<string, string>, name: string): string {
    if name in fieldMap then fieldMap[name] else name
  }

  function TargetFieldName(config: MappingConfig, name: string): string {
    TargetName(config.fieldMap, name)
  }

  /**
   * The scan of FieldMap for the entry whose key is the field name
   * (generator.go:122-128, repeated at 166-172 and 214-220).  Map keys are
   * unique, so the scan finds the lookup's answer whatever order it visits them in.
   */
  method LookupTargetName(fieldMap: map<string, string>, name: string) returns (targetFieldName: string)
    ensures name in fieldMap ==> targetFieldName == fieldMap[name]
    ensures name !in fieldMap ==> targetFieldName == name
  {
    targetFieldName := name;
    var unvisited := fieldMap.Keys;
    while unvisited != {}
      invariant unvisited <= fieldMap.Keys
      invariant name in fieldMap ==> name in unvisited
      invariant targetFieldName == name
      decreases |unvisited|
    {
      var srcName :| srcName in unvisited;
      if srcName == name {
        targetFieldName := fieldMap[srcName];
        break;
      }
      unvisited := unvisited - {srcName};
    }
  }

  // ---- Type helpers ----

  /** The qualifier cleanTypeName deletes: the source package name and a dot. */
  function SourcePrefix(config: MappingConfig): (p: string)
    ensures p != [] && p[|p| - 1] == '.'
  {
    config.sourceType.packageName + "."
  }

  /** cleanTypeName (generator.go:139-142): every occurrence of the source qualifier deleted. */
  function CleanTypeName(typeStr: string, config: MappingConfig): (r: string)
    ensures |r| <= |typeStr|
    ensures forall c :: c in r ==> c in typeStr
    ensures !Contains(typeStr, SourcePrefix(config)) ==> r == typeStr
  {
    RemoveAllShrinks(typeStr, SourcePrefix(config));
    if !Contains(typeStr, SourcePrefix(config)) then
      ReplaceAllNoMatch(typeStr, SourcePrefix(config), "");
      ReplaceAll(typeStr, SourcePrefix(config), "")
    else
      ReplaceAll(typeStr, SourcePrefix(config), "")
  }

  const IntTypes: set<string> := {"int", "int8", "int16", "int32", "int64"}
  const UintTypes: set<string> := {"uint", "uint8", "uint16", "uint32", "uint64"}
  const FloatTypes: set<string> := {"float32", "float64"}

  /** The names zeroValue's switch lists (generator.go:472-482). */
  const ZeroTable: set<string> := {"string", "bool"} + IntTypes + UintTypes + FloatTypes

  predicate IsReferenceSpelling(typeStr: string) {
    HasPrefix(typeStr, "*") || HasPrefix(typeStr, "[]") || HasPrefix(typeStr, "map[")
  }

  /** zeroValue (generator.go:471-490): the literal written for an omitted field in `To`. */
  function ZeroValue(typeStr: string): (r: string)
    ensures typeStr == "string" ==> r == "\"\""
    ensures typeStr in IntTypes + UintTypes + FloatTypes ==> r == "0"
    ensures typeStr == "bool" ==> r == "false"
    ensures typeStr !in ZeroTable ==> (r == "nil" <==> IsReferenceSpelling(typeStr))
    ensures typeStr !in ZeroTable && !IsReferenceSpelling(typeStr) ==> r == typeStr + "{}"
  {
    if typeStr == "string" then "\"\""
    else if typeStr in IntTypes then "0"
    else if typeStr in UintTypes then "0"
    else if typeStr in FloatTypes then "0"
    else if typeStr == "bool" then "false"
    else if IsReferenceSpelling(typeStr) then "nil"
    else
      var lit := typeStr + "{}";
      assert lit[|lit| - 1] == '}';
      lit
  }

  /** The names isPrimitiveType accepts (generator.go:430-450). */
  const Primitives: set<string> :=
    {"bool", "string", "int", "int8", "int16", "int32", "int64",
     "uint", "uint8", "uint16", "uint32", "uint64", "uintptr",
     "byte", "rune", "float32", "float64", "complex64", "complex128"}

  /** The names isBuiltinType accepts (generator.go:458-462). */
  const Builtins: set<string> := {"time.Time", "time.Duration"}

  /** The part of a type name isPrimitiveType looks up: wrappers and the qualifier removed. */
  function PrimitiveKey(typeName: string): string
  {
    Unqualified(TrimLeft(typeName, "*[]"))
  }

  /** The part of a name after its last dot: the name without its package qualifier. */
  function Unqualified(name: string): (r: string)
    ensures '.' !in r
    ensures HasSuffix(name, r) && (r == name || HasSuffix(name, "." + r))
  {
    var idx := LastIndexOf(name, '.');
    if idx != -1 then
      KeyAfterDot(name, idx);
      name[idx + 1..]
    else name
  }

  lemma KeyAfterDot(clean: string, idx: nat)
    requires idx < |clean| && clean[idx] == '.'
    ensures HasSuffix(clean, clean[idx + 1..]) && HasSuffix(clean, "." + clean[idx + 1..])
  {
    assert clean[idx..] == "." + clean[idx + 1..];
  }

  /** isPrimitiveType (generator.go:422-453). */
  predicate IsPrimitiveType(typeName: string) {
    PrimitiveKey(typeName) in Primitives
  }

  /** isBuiltinType (generator.go:455-465). */
  predicate IsBuiltinType(typeName: string) {
    TrimLeft(typeName, "*[]") in Builtins
  }

  lemma LastDot(s: string, k: nat)
    requires k < |s| && s[k] == '.' && '.' !in s[k + 1..]
    ensures LastIndexOf(s, '.') == k
  {
    assert forall j | k < j < |s| :: s[j] == s[k + 1..][j - k - 1];
    assert forall j | 0 <= j <= k :: s[k] == s[j..][k - j];
  }

  /** needsConversion (generator.go:467-469). */
  predicate NeedsConversion(typeName: string) {
    !IsPrimitiveType(typeName) && !IsBuiltinType(typeName)
  }

  // ---- Expression builders ----

  /** generateFieldMapping (generator.go:266-283): the value of one `From` entry. */
  function GenerateFieldMapping(sf: FieldInfo, tf: FieldInfo, config: MappingConfig): (r: string)
    ensures Omitted(config, sf.name) ==> r == ZeroValue(tf.fieldType)
    ensures !Omitted(config, sf.name) ==> r == "src." + sf.name || HasPrefix(r, "func() ")
  {
    if Omitted(config, sf.name) then ZeroValue(tf.fieldType)
    else if sf.isSlice && tf.isSlice then GenerateSliceMapping(sf, tf, config)
    else if sf.isNested && tf.isNested then GenerateNestedMapping(sf, tf, config)
    else "src." + sf.name
  }

  /** generateReverseFieldMapping (generator.go:285-307): the value of one `To` entry. */
  function GenerateReverseFieldMapping(tf: FieldInfo, sf: FieldInfo, config: MappingConfig): (r: string)
    ensures CleanTypeName(sf.fieldType, config) == CleanTypeName(tf.fieldType, config) ==> r == "t." + tf.name
    ensures r == "t." + tf.name || HasPrefix(r, "func() ")
  {
    var sourceTypeClean := CleanTypeName(sf.fieldType, config);
    var targetTypeClean := CleanTypeName(tf.fieldType, config);
    if sourceTypeClean == targetTypeClean then "t." + tf.name
    else if tf.isSlice && sf.isSlice then GenerateReverseSliceMapping(tf, sf, config)
    else if tf.isNested && sf.isNested then GenerateReverseNestedMapping(tf, sf, config)
    else "t." + tf.name
  }

  /** generateSliceMapping (generator.go:309-344). */
  function GenerateSliceMapping(sf: FieldInfo, tf: FieldInfo, config: MappingConfig): (r: string)
    ensures r == "src." + sf.name <==>
            !NeedsConversion(TrimPrefix(sf.fieldType, "[]")) && TrimPrefix(sf.fieldType, "[]") == TrimPrefix(tf.fieldType, "[]")
    ensures r != "src." + sf.name ==>
            HasPrefix(r, "func() []" + CleanTypeName(TrimPrefix(tf.fieldType, "[]"), config) + " {") && HasPrefix(r, "func() ")
  {
    var sourceElemType := TrimPrefix(sf.fieldType, "[]");
    var targetElemType := TrimPrefix(tf.fieldType, "[]");
    var elem := CleanTypeName(targetElemType, config);
    var convert, cast := SliceConvertLines(sf.name, elem), SliceCastLines(sf.name, elem);
    Opening(convert, "func() []", elem, "src." + sf.name);
    Opening(cast, "func() []", elem, "src." + sf.name);
    if NeedsConversion(sourceElemType) then JoinLines(convert)
    else if sourceElemType == targetElemType then "src." + sf.name
    else JoinLines(cast)
  }

  /**
   * A template whose first line is `head + x + " {"` opens with that line and
   * with `func() `, so it is not the bare field `other`.
   */
  lemma Opening(lines: seq<string>, head: string, x: string, other: string)
    requires |lines| > 0 && lines[0] == head + x + " {" && HasPrefix(head, "func() ")
    requires |other| > 0 && other[0] != 'f'
    ensures HasPrefix(JoinLines(lines), lines[0]) && HasPrefix(JoinLines(lines), "func() ")
    ensures JoinLines(lines) != other
  {
    JoinLinesHead(lines);
    PrefixExtends(head, "func() ", x);
    PrefixExtends(head + x, "func() ", " {");
    PrefixTrans(JoinLines(lines), lines[0], "func() ");
  }

  /** The element-wise `From` loop (generator.go:319-332): nil stays nil, a nil result leaves the zero element. */
  function SliceConvertLines(name: string, elem: string): seq<string>
  {
    ["func() []" + elem + " {",
     "\t\tif src." + name + " == nil {",
     "\t\t\treturn nil",
     "\t\t}",
     "\t\tresult := make([]" + elem + ", len(src." + name + "))",
     "\t\tfor i, item := range src." + name + " {",
     "\t\t\tconverted := (&" + elem + "{}).From(&item)",
     "\t\t\tif converted != nil {",
     "\t\t\t\tresult[i] = *converted",
     "\t\t\t}",
     "\t\t}",
     "\t\treturn result",
     "\t}()"]
  }

  /** The element-wise cast loop (generator.go:336-343). */
  function SliceCastLines(name: string, elem: string): seq<string>
  {
    ["func() []" + elem + " {",
     "\t\tresult := make([]" + elem + ", len(src." + name + "))",
     "\t\tfor i, v := range src." + name + " {",
     "\t\t\tresult[i] = " + elem + "(v)",
     "\t\t}",
     "\t\treturn result",
     "\t}()"]
  }

  /** generateReverseSliceMapping (generator.go:346-372). */
  function GenerateReverseSliceMapping(tf: FieldInfo, sf: FieldInfo, config: MappingConfig): (r: string)
    ensures r == "t." + tf.name <==> !tf.isNested && !Contains(TrimPrefix(tf.fieldType, "[]"), ".")
    ensures r != "t." + tf.name ==> HasPrefix(r, "func() []" + config.sourceType.packageName + ".") && HasPrefix(r, "func() ")
  {
    var sourceElemType := TrimPrefix(sf.fieldType, "[]");
    var targetElemType := TrimPrefix(tf.fieldType, "[]");
    var pkg := config.sourceType.packageName;
    if tf.isNested || Contains(targetElemType, ".") then
      var lines := ReverseSliceLines(tf.name, pkg, TrimPrefix(sourceElemType, pkg + "."));
      QualifiedOpening(lines, "func() []", pkg, TrimPrefix(sourceElemType, pkg + "."), "t." + tf.name);
      JoinLines(lines)
    else
      "t." + tf.name
  }

  /** A template opening with a closure returning a type of package `pkg`. */
  lemma QualifiedOpening(lines: seq<string>, head: string, pkg: string, x: string, other: string)
    requires |lines| > 0 && lines[0] == head + pkg + "." + x + " {" && HasPrefix(head, "func() ")
    requires |other| > 0 && other[0] != 'f'
    ensures HasPrefix(JoinLines(lines), head + pkg + ".") && HasPrefix(JoinLines(lines), "func() ")
    ensures JoinLines(lines) != other
  {
    Opening(lines, head + pkg + ".", x, other);
    PrefixExtends(head + pkg + ".", head + pkg + ".", x);
    PrefixExtends(head + pkg + "." + x, head + pkg + ".", " {");
    PrefixTrans(JoinLines(lines), lines[0], head + pkg + ".");
    PrefixExtends(head, "func() ", pkg);
    PrefixExtends(head + pkg, "func() ", ".");
  }

  /** The element-wise `To` loop (generator.go:356-367). */
  function ReverseSliceLines(name: string, pkg: string, elem: string): seq<string>
  {
    ["func() []" + pkg + "." + elem + " {",
     "\t\tif t." + name + " == nil {",
     "\t\t\treturn nil",
     "\t\t}",
     "\t\tresult := make([]" + pkg + "." + elem + ", len(t." + name + "))",
     "\t\tfor i, item := range t." + name + " {",
     "\t\t\tresult[i] = item.To()",
     "\t\t}",
     "\t\treturn result",
     "\t}()"]
  }

  /** generateNestedMapping (generator.go:374-395). */
  function GenerateNestedMapping(sf: FieldInfo, tf: FieldInfo, config: MappingConfig): (r: string)
    ensures HasPrefix(r, "func() ")
    ensures var typ := TrimPrefix(CleanTypeName(tf.fieldType, config), "*");
      if sf.isPointer then HasPrefix(r, "func() *" + typ + " {") else HasPrefix(r, "func() " + typ + " {")
  {
    var typ := TrimPrefix(CleanTypeName(tf.fieldType, config), "*");
    if sf.isPointer then
      Opening(NestedPointerLines(sf.name, typ), "func() *", typ, "src." + sf.name);
      JoinLines(NestedPointerLines(sf.name, typ))
    else
      Opening(NestedValueLines(sf.name, typ), "func() ", typ, "src." + sf.name);
      JoinLines(NestedValueLines(sf.name, typ))
  }

  /** The pointer case (generator.go:378-384): a nil source pointer gives nil. */
  function NestedPointerLines(name: string, typ: string): seq<string>
  {
    ["func() *" + typ + " {",
     "\t\tif src." + name + " != nil {",
     "\t\t\treturn (&" + typ + "{}).From(src." + name + ")",
     "\t\t}",
     "\t\treturn nil",
     "\t}()"]
  }

  /**
   * The value case (generator.go:387-394): a nil result falls back to the zero
   * struct.  The conversion call is written in its intended form, building the
   * field's type from `&src.<name>`; the source passes these two the other way
   * round (Findings.NestedValueLinesAsWritten).
   */
  function NestedValueLines(name: string, typ: string): seq<string>
  {
    ["func() " + typ + " {",
     "\t\tresult := (&" + typ + "{}).From(&src." + name + ")",
     "\t\tif result != nil {",
     "\t\t\treturn *result",
     "\t\t}",
     "\t\treturn " + typ + "{}",
     "\t}()"]
  }

  /** generateReverseNestedMapping (generator.go:397-418). */
  function GenerateReverseNestedMapping(tf: FieldInfo, sf: FieldInfo, config: MappingConfig): (r: string)
    ensures HasPrefix(r, "func() ")
    ensures if tf.isPointer then HasPrefix(r, "func() *" + config.sourceType.packageName + ".")
            else HasPrefix(r, "func() " + config.sourceType.packageName + ".")
  {
    var pkg := config.sourceType.packageName;
    var typ := TrimPrefix(TrimPrefix(CleanTypeName(sf.fieldType, config), pkg + "."), "*");
    if tf.isPointer then
      QualifiedOpening(ReverseNestedPointerLines(tf.name, pkg, typ), "func() *", pkg, typ, "t." + tf.name);
      JoinLines(ReverseNestedPointerLines(tf.name, pkg, typ))
    else
      QualifiedOpening(ReverseNestedValueLines(tf.name, pkg, typ), "func() ", pkg, typ, "t." + tf.name);
      JoinLines(ReverseNestedValueLines(tf.name, pkg, typ))
  }

  /** The pointer case (generator.go:401-409). */
  function ReverseNestedPointerLines(name: string, pkg: string, typ: string): seq<string>
  {
    ["func() *" + pkg + "." + typ + " {",
     "\t\tif t." + name + " != nil {",
     "\t\t\tresult := t." + name + ".To()",
     "\t\t\treturn &result",
     "\t\t}",
     "\t\treturn nil",
     "\t}()"]
  }

  /** The value case (generator.go:412-416). */
  function ReverseNestedValueLines(name: string, pkg: string, typ: string): seq<string>
  {
    ["func() " + pkg + "." + typ + " {",
     "\t\treturn t." + name + ".To()",
     "\t}()"]
  }

  // ---- The emitted text ----

  /** The pseudo target field `From` and `To` compare against (generator.go:175-182, 223-230). */
  function PseudoTarget(config: MappingConfig, sf: FieldInfo): FieldInfo
  {
    FieldInfo(TargetFieldName(config, sf.name), CleanTypeName(sf.fieldType, config),
              false, sf.isNested, sf.isSlice, sf.isPointer)
  }

  /** The source fields that are not omitted, in declaration order. */
  function Kept(config: MappingConfig, fields: seq<FieldInfo>): (r: seq<FieldInfo>)
    ensures |r| <= |fields|
  {
    if fields == [] then []
    else
      var n := |fields| - 1;
      Kept(config, fields[..n]) + (if Omitted(config, fields[n].name) then [] else [fields[n]])
  }

  /** One field declaration of the struct definition, without its newline (generator.go:132). */
  function FieldDecl(config: MappingConfig, sf: FieldInfo): string
  {
    "\t" + TargetFieldName(config, sf.name) + " " + CleanTypeName(sf.fieldType, config)
  }

  function StructLine(config: MappingConfig, sf: FieldInfo): string
  {
    FieldDecl(config, sf) + "\n"
  }

  /** The field lines generateStructDef writes for `fields`: one per field not omitted. */
  function StructBody(config: MappingConfig, fields: seq<FieldInfo>): string
  {
    if fields == [] then ""
    else
      var n := |fields| - 1;
      StructBody(config, fields[..n]) + (if Omitted(config, fields[n].name) then "" else StructLine(config, fields[n]))
  }

  function StructHeader(config: MappingConfig): string {
    "type " + config.targetType.typeName + " struct {\n"
  }

  /** What generateStructDef appends (generator.go:110-137). */
  function StructDefText(config: MappingConfig): string
  {
    StructHeader(config)
    + StructBody(config, config.sourceType.fields)
    + "}\n\n"
  }

  /** One `From` entry (generator.go:186). */
  function FromEntry(config: MappingConfig, sf: FieldInfo): string
  {
    "\t\t" + TargetFieldName(config, sf.name) + ": "
    + GenerateFieldMapping(sf, PseudoTarget(config, sf), config) + ",\n"
  }

  /** The entries generateFromMethod writes for `fields`: one per field not omitted. */
  function FromBody(config: MappingConfig, fields: seq<FieldInfo>): string
  {
    if fields == [] then ""
    else
      var n := |fields| - 1;
      FromBody(config, fields[..n]) + (if Omitted(config, fields[n].name) then "" else FromEntry(config, fields[n]))
  }

  /** The nil check that opens the body of `From` (generator.go:153-155). */
  const NilGuardLines: seq<string> := ["\tif src == nil {", "\t\treturn nil", "\t}", ""]

  /** The comment header and signature of `From` (generator.go:149-152). */
  function FromSignatureLines(config: MappingConfig): seq<string>
  {
    var target, source := config.targetType.typeName, config.sourceType.typeName;
    ["// From maps from an external struct to a local",
     "//",
     "// Usage: local" + target + " := (&" + target + "{}).From(&external" + source + ")",
     "func (t *" + target + ") From(src *" + config.sourceType.packageName + "." + source + ") *" + target + " {"]
  }

  /** The opening of the result literal (generator.go:157). */
  function FromOpenLine(config: MappingConfig): string
  {
    "\treturn &" + config.targetType.typeName + "{"
  }

  /** The lines generateFromMethod writes before the entries (generator.go:149-157). */
  function FromPreambleLines(config: MappingConfig): seq<string>
  {
    FromSignatureLines(config) + NilGuardLines + [FromOpenLine(config)]
  }

  function FromPreamble(config: MappingConfig): string
  {
    Unlines(FromPreambleLines(config))
  }

  /** What generateFromMethod appends (generator.go:144-191). */
  function FromMethodText(config: MappingConfig): string
  {
    FromPreamble(config) + FromBody(config, config.sourceType.fields) + "\t}\n}\n\n"
  }

  /** One `To` entry (generator.go:207-234): omitted fields get their zero value. */
  function ToEntry(config: MappingConfig, sf: FieldInfo): string
  {
    "\t\t" + sf.name + ": " + ToValue(config, sf) + ",\n"
  }

  function ToValue(config: MappingConfig, sf: FieldInfo): string
  {
    if Omitted(config, sf.name) then ZeroValue(sf.fieldType)
    else GenerateReverseFieldMapping(PseudoTarget(config, sf), sf, config)
  }

  /** The entries generateToMethod writes for `fields`: one per field, omitted or not. */
  function ToBody(config: MappingConfig, fields: seq<FieldInfo>): string
  {
    if fields == [] then ""
    else ToBody(config, fields[..|fields| - 1]) + ToEntry(config, fields[|fields| - 1])
  }

  /** The lines generateToMethod writes before the entries (generator.go:198-202). */
  function ToPreambleLines(config: MappingConfig): seq<string>
  {
    var target, source, pkg := config.targetType.typeName, config.sourceType.typeName, config.sourceType.packageName;
    ["// Usage: external" + source + " := " + target + ".To()",
     "func (t *" + target + ") To() " + pkg + "." + source + " {",
     "\treturn " + pkg + "." + source + "{"]
  }

  function ToPreamble(config: MappingConfig): string
  {
    Unlines(ToPreambleLines(config))
  }

  /** What generateToMethod appends (generator.go:193-239). */
  function ToMethodText(config: MappingConfig): string
  {
    ToPreamble(config) + ToBody(config, config.sourceType.fields) + "\t}\n}\n\n"
  }

  /** The unformatted output of GenerateStructAndMethods. */
  function StructAndMethodsText(config: MappingConfig): string
  {
    StructDefText(config) + FromMethodText(config) + ToMethodText(config)
  }

  // ---- Imports ----

  predicate UsesTime(fields: seq<FieldInfo>) {
    exists f :: f in fields && Contains(f.fieldType, "time.Time")
  }

  /** The import paths collectImports gathers (generator.go:84-101). */
  function ImportSet(config: MappingConfig): set<string>
  {
    (if config.sourceType.packagePath != "" then {config.sourceType.packagePath} else {})
    + (if UsesTime(config.sourceType.fields) || UsesTime(config.targetType.fields) then {"time"} else {})
  }

  /** A list of import paths without repetition whose members are exactly ImportSet(config). */
  predicate IsImportList(imports: seq<string>, config: MappingConfig) {
    && (forall i, j :: 0 <= i < j < |imports| ==> imports[i] != imports[j])
    && (set x | x in imports) == ImportSet(config)
  }

  function ImportLine(imp: string): string {
    "\t\"" + imp + "\"\n"
  }

  /** One quoted, tab-indented line per import path. */
  function ImportBody(imports: seq<string>): string
  {
    if imports == [] then ""
    else ImportBody(imports[..|imports| - 1]) + ImportLine(imports[|imports| - 1])
  }

  /** What writeImports appends (generator.go:71-82). */
  function ImportBlock(imports: seq<string>): string
  {
    if |imports| == 0 then "" else "import (\n" + ImportBody(imports) + ")\n\n"
  }

  /** What writePackage appends (generator.go:67-69). */
  function PackageClause(pkgName: string): string
  {
    "package " + pkgName + "\n\n"
  }

  /** The outcome of the external formatter (go/format.Source). */
  datatype FormatResult = Formatted(text: string) | FormatFailed(reason: string)

  // ---- Looking up a target field ----

  /** The position of the first field called `name`, or -1. */
  function IndexOfName(fields: seq<FieldInfo>, name: string): (r: int)
    ensures -1 <= r < |fields|
    ensures 0 <= r ==> fields[r].name == name && forall k :: 0 <= k < r ==> fields[k].name != name
    ensures r == -1 ==> forall k :: 0 <= k < |fields| ==> fields[k].name != name
    decreases |fields|
  {
    if |fields| == 0 then -1
    else if fields[0].name == name then 0
    else
      var i := IndexOfName(fields[1..], name);
      if i == -1 then -1 else i + 1
  }

  function FirstNamed(fields: seq<FieldInfo>, name: string): Option<FieldInfo>
  {
    var i := IndexOfName(fields, name);
    if i == -1 then None else Some(fields[i])
  }

  /**
   * The target field findTargetField (generator.go:241-264) returns: none for an
   * omitted field; else the first target field with the FieldMap name, if there
   * is one; else the first with the source field's own name.
   */
  function TargetFieldFor(config: MappingConfig, sf: FieldInfo): (r: Option<FieldInfo>)
    ensures Omitted(config, sf.name) ==> r == None
    ensures r.Some? ==> r.value in config.targetType.fields
    ensures r.Some? ==> r.value.name == TargetFieldName(config, sf.name) || r.value.name == sf.name
    ensures !Omitted(config, sf.name) && TargetFieldName(config, sf.name) in FieldNames(config.targetType.fields)
            ==> r.Some? && r.value.name == TargetFieldName(config, sf.name)
    ensures !Omitted(config, sf.name) && sf.name in FieldNames(config.targetType.fields) ==> r.Some?
  {
    var fields := config.targetType.fields;
    if Omitted(config, sf.name) then None
    else if sf.name in config.fieldMap && FirstNamed(fields, config.fieldMap[sf.name]).Some? then
      FirstNamed(fields, config.fieldMap[sf.name])
    else
      FirstNamed(fields, sf.name)
  }

  /** The keys of a Go map in iteration order: each exactly once, in an order left free. */
  method KeyList(keys: set<string>) returns (list: seq<string>)
    ensures (set x | x in list) == keys
    ensures forall i, j :: 0 <= i < j < |list| ==> list[i] != list[j]
  {
    list := [];
    var unvisited := keys;
    while unvisited != {}
      invariant unvisited <= keys
      invariant forall x :: x in list <==> x in keys - unvisited
      invariant forall i, j :: 0 <= i < j < |list| ==> list[i] != list[j]
      decreases |unvisited|
    {
      var key :| key in unvisited;
      assert key !in list;
      list := list + [key];
      unvisited := unvisited - {key};
    }
    assert (set x | x in list) == keys;
  }

  /** The body of generateFromMethod's loop for a kept field (generator.go:165-186). */
  method FromEntryFor(config: MappingConfig, sourceField: FieldInfo) returns (entry: string)
    ensures entry == FromEntry(config, sourceField)
  {
    var targetFieldName := LookupTargetName(config.fieldMap, sourceField.name);
    var targetFieldType := CleanTypeName(sourceField.fieldType, config);
    var targetField := FieldInfo(targetFieldName, targetFieldType, false,
                                 sourceField.isNested, sourceField.isSlice, sourceField.isPointer);
    assert targetField == PseudoTarget(config, sourceField);
    var mappingExpr := GenerateFieldMapping(sourceField, targetField, config);
    entry := "\t\t" + targetFieldName + ": " + mappingExpr + ",\n";
  }

  /** The body of generateToMethod's loop (generator.go:205-234). */
  method ToEntryFor(config: MappingConfig, sourceField: FieldInfo) returns (entry: string)
    ensures entry == ToEntry(config, sourceField)
  {
    if Omitted(config, sourceField.name) {
      entry := "\t\t" + sourceField.name + ": " + ZeroValue(sourceField.fieldType) + ",\n";
      return;
    }
    var targetFieldName := LookupTargetName(config.fieldMap, sourceField.name);
    var targetFieldType := CleanTypeName(sourceField.fieldType, config);
    var targetField := FieldInfo(targetFieldName, targetFieldType, false,
                                 sourceField.isNested, sourceField.isSlice, sourceField.isPointer);
    assert targetField == PseudoTarget(config, sourceField);
    var mappingExpr := GenerateReverseFieldMapping(targetField, sourceField, config);
    entry := "\t\t" + sourceField.name + ": " + mappingExpr + ",\n";
  }

  // ---- The generator object ----

  class Generator {
    var buf: string
    var generatedStructs: map<string, bool>
    var nestedStructs: seq<FieldInfo>  // reset on every run, never read

    /** New (generator.go:18-22). */
    constructor ()
      ensures buf == "" && generatedStructs == map[] && nestedStructs == []
    {
      buf := "";
      generatedStructs := map[];
      nestedStructs := [];
    }

    /** writePackage (generator.go:67-69). */
    method WritePackage(pkgName: string)
      modifies this`buf
      ensures buf == old(buf) + PackageClause(pkgName)
      ensures generatedStructs == old(generatedStructs) && nestedStructs == old(nestedStructs)
    {
      var clause := "package " + pkgName + "\n\n";
      buf := buf + clause;
    }

    /** collectImports (generator.go:84-108); the order of the result is Go's map order, left free. */
    method CollectImports(config: MappingConfig) returns (imports: seq<string>)
      ensures IsImportList(imports, config)
    {
      var importsMap: map<string, bool> := map[];
      if config.sourceType.packagePath != "" {
        importsMap := importsMap[config.sourceType.packagePath := true];
      }
      var pkgSet := if config.sourceType.packagePath != "" then {config.sourceType.packagePath} else {};
      var sourceFields, targetFields := config.sourceType.fields, config.targetType.fields;

      for i := 0 to |sourceFields|
        invariant importsMap.Keys == pkgSet + (if UsesTime(sourceFields[..i]) then {"time"} else {})
      {
        TakeStep(sourceFields, i);
        if Contains(sourceFields[i].fieldType, "time.Time") {
          importsMap := importsMap["time" := true];
        }
      }
      TakeAll(sourceFields);
      for i := 0 to |targetFields|
        invariant importsMap.Keys
                  == pkgSet + (if UsesTime(sourceFields) || UsesTime(targetFields[..i]) then {"time"} else {})
      {
        TakeStep(targetFields, i);
        if Contains(targetFields[i].fieldType, "time.Time") {
          importsMap := importsMap["time" := true];
        }
      }
      TakeAll(targetFields);

      imports := KeyList(importsMap.Keys);
    }

    /** writeImports (generator.go:71-82). */
    method WriteImports(config: MappingConfig)
      modifies this`buf
      ensures exists imports :: IsImportList(imports, config) && buf == old(buf) + ImportBlock(imports)
      ensures generatedStructs == old(generatedStructs) && nestedStructs == old(nestedStructs)
    {
      var imports := CollectImports(config);
      if |imports| == 0 {
        assert buf == old(buf) + ImportBlock(imports);
        return;
      }
      buf := buf + "import (\n";
      ghost var start := buf;
      for i := 0 to |imports|
        invariant buf == start + ImportBody(imports[..i])
      {
        var line := "\t\"" + imports[i] + "\"\n";
        TakeTake(imports, i);
        AppendAssoc(start, ImportBody(imports[..i]), line);
        buf := buf + line;
      }
      TakeAll(imports);
      buf := buf + ")\n\n";
      AppendAssoc(old(buf), "import (\n", ImportBody(imports));
      AppendAssoc(old(buf), "import (\n" + ImportBody(imports), ")\n\n");
    }

    /** generateStructDef (generator.go:110-137). */
    method GenerateStructDef(config: MappingConfig)
      modifies this`buf, this`generatedStructs
      ensures buf == old(buf) + StructDefText(config)
      ensures generatedStructs == old(generatedStructs)[config.targetType.typeName := true]
      ensures nestedStructs == old(nestedStructs)
    {
      var targetTypeName := config.targetType.typeName;
      var fields := config.sourceType.fields;
      var header := "type " + targetTypeName + " struct {\n";
      buf := buf + header;
      ghost var start := buf;

      for i := 0 to |fields|
        invariant buf == start + StructBody(config, fields[..i])
        invariant generatedStructs == old(generatedStructs)
      {
        TakeTake(fields, i);
        var sourceField := fields[i];
        if Omitted(config, sourceField.name) {
          continue;
        }
        var targetFieldName := LookupTargetName(config.fieldMap, sourceField.name);
        var typeStr := CleanTypeName(sourceField.fieldType, config);
        var line := "\t" + targetFieldName + " " + typeStr + "\n";
        assert line == StructLine(config, sourceField);
        AppendAssoc(start, StructBody(config, fields[..i]), line);
        buf := buf + line;
      }
      TakeAll(fields);

      buf := buf + "}\n\n";
      AppendAssoc(old(buf), header, StructBody(config, fields));
      AppendAssoc(old(buf), header + StructBody(config, fields), "}\n\n");
      generatedStructs := generatedStructs[targetTypeName := true];
    }

    /** generateFromMethod (generator.go:144-191). */
    method GenerateFromMethod(config: MappingConfig)
      modifies this`buf
      ensures buf == old(buf) + FromMethodText(config)
      ensures generatedStructs == old(generatedStructs) && nestedStructs == old(nestedStructs)
    {
      var fields := config.sourceType.fields;

      // the comment header, the signature, the nil check and `return &T{`
      var preamble := FromPreamble(config);
      buf := buf + preamble;
      ghost var start := buf;

      for i := 0 to |fields|
        invariant buf == start + FromBody(config, fields[..i])
      {
        TakeTake(fields, i);
        var sourceField := fields[i];
        if Omitted(config, sourceField.name) {
          continue;
        }
        var entry := FromEntryFor(config, sourceField);
        AppendAssoc(start, FromBody(config, fields[..i]), entry);
        buf := buf + entry;
      }
      TakeAll(fields);

      buf := buf + "\t}\n}\n\n";
      AppendAssoc(old(buf), preamble, FromBody(config, fields));
      AppendAssoc(old(buf), preamble + FromBody(config, fields), "\t}\n}\n\n");
    }

    /** generateToMethod (generator.go:193-239). */
    method GenerateToMethod(config: MappingConfig)
      modifies this`buf
      ensures buf == old(buf) + ToMethodText(config)
      ensures generatedStructs == old(generatedStructs) && nestedStructs == old(nestedStructs)
    {
      var fields := config.sourceType.fields;

      // the comment header, the signature and `return P.S{`
      var preamble := ToPreamble(config);
      buf := buf + preamble;
      ghost var start := buf;

      for i := 0 to |fields|
        invariant buf == start + ToBody(config, fields[..i])
      {
        TakeTake(fields, i);
        var entry := ToEntryFor(config, fields[i]);
        AppendAssoc(start, ToBody(config, fields[..i]), entry);
        buf := buf + entry;
      }
      TakeAll(fields);

      buf := buf + "\t}\n}\n\n";
      AppendAssoc(old(buf), preamble, ToBody(config, fields));
      AppendAssoc(old(buf), preamble + ToBody(config, fields), "\t}\n}\n\n");
    }

    /** findTargetField (generator.go:241-264). */
    method FindTargetField(sourceField: FieldInfo, config: MappingConfig) returns (found: Option<FieldInfo>)
      ensures found == TargetFieldFor(config, sourceField)
    {
      if Omitted(config, sourceField.name) {
        return None;
      }
      var targetFields := config.targetType.fields;
      if sourceField.name in config.fieldMap {
        var targetFieldName := config.fieldMap[sourceField.name];
        for i := 0 to |targetFields|
          invariant forall k :: 0 <= k < i ==> targetFields[k].name != targetFieldName
        {
          if targetFields[i].name == targetFieldName {
            return Some(targetFields[i]);
          }
        }
      }
      for i := 0 to |targetFields|
        invariant forall k :: 0 <= k < i ==> targetFields[k].name != sourceField.name
      {
        if targetFields[i].name == sourceField.name {
          return Some(targetFields[i]);
        }
      }
      return None;
    }

    /** The three generation steps shared by Generate and GenerateStructAndMethods. */
    method WriteStructAndMethods(config: MappingConfig)
      modifies this`buf, this`generatedStructs
      ensures buf == old(buf) + StructAndMethodsText(config)
      ensures generatedStructs == old(generatedStructs)[config.targetType.typeName := true]
      ensures nestedStructs == old(nestedStructs)
    {
      GenerateStructDef(config);
      GenerateFromMethod(config);
      GenerateToMethod(config);
      AppendAssoc(old(buf), StructDefText(config), FromMethodText(config));
      AppendAssoc(old(buf), StructDefText(config) + FromMethodText(config), ToMethodText(config));
    }

    /** GenerateStructAndMethods (generator.go:49-65): the unformatted path, which never fails. */
    method GenerateStructAndMethods(config: MappingConfig) returns (code: string, err: Option<string>)
      modifies this
      ensures code == StructAndMethodsText(config) && err == None
      ensures buf == code
      ensures generatedStructs == map[config.targetType.typeName := true]
      ensures nestedStructs == []
    {
      buf := "";
      generatedStructs := map[];
      nestedStructs := [];
      WriteStructAndMethods(config);
      code, err := buf, None;
    }

    /** The unformatted text Generate produces: package clause, imports, struct and methods. */
    method WriteFile(config: MappingConfig)
      modifies this
      ensures exists imports :: IsImportList(imports, config) &&
                buf == PackageClause(config.targetType.packageName) + ImportBlock(imports) + StructAndMethodsText(config)
      ensures generatedStructs == map[config.targetType.typeName := true]
      ensures nestedStructs == []
    {
      buf := "";
      generatedStructs := map[];
      nestedStructs := [];

      WritePackage(config.targetType.packageName);
      assert buf == PackageClause(config.targetType.packageName);
      WriteImports(config);
      ghost var imports :| IsImportList(imports, config)
        && buf == PackageClause(config.targetType.packageName) + ImportBlock(imports);
      WriteStructAndMethods(config);
    }

    /**
     * Generate (generator.go:24-47), with go/format.Source passed in as `format`.
     * A formatting failure returns no code and an error carrying the raw text.
     */
    method Generate(config: MappingConfig, format: string -> FormatResult) returns (code: string, err: Option<string>)
      modifies this
      ensures format(buf).Formatted? ==> code == format(buf).text && err == None
      ensures format(buf).FormatFailed? ==>
                code == "" && err == Some("format error: " + format(buf).reason + "\nGenerated code:\n" + buf)
      ensures exists imports :: IsImportList(imports, config) &&
                buf == PackageClause(config.targetType.packageName) + ImportBlock(imports) + StructAndMethodsText(config)
      ensures generatedStructs == map[config.targetType.typeName := true]
      ensures nestedStructs == []
    {
      WriteFile(config);
      match format(buf)
      case FormatFailed(reason) =>
        code, err := "", Some("format error: " + reason + "\nGenerated code:\n" + buf);
      case Formatted(formatted) =>
        code, err := formatted, None;
    }
  }
}
