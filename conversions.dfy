/**
 * Which conversion each emitted value expression performs.  A Conversion names
 * what the Go code does with one field: copy it, convert or cast it element by
 * element, or convert a nested struct through its `From` or its `To`, held by
 * pointer or by value.  `Closure` spells out, statement by statement, the Go
 * closure that performs a conversion on a given field, built from the small
 * expressions it is made of; `Performs` holds when a text's lines are exactly
 * that closure.  ForwardConversion and ReverseConversion state, from the
 * field's flags and types, which conversion the `From` and `To` entries should
 * perform, and the lemmas prove the builders' text performs it.
 */
module Conversions {
  import opened Types
  import opened GoStrings
  import opened Generator
  import Mapper

  datatype Conversion =
    | Copy                        // the field itself
    | FromEach(elem: string)      // nil stays nil; each item through (&elem{}).From(&item), nil results left zero
    | CastEach(elem: string)      // each element cast to elem
    | FromPointer(typ: string)    // nil stays nil; otherwise (&typ{}).From(field)
    | FromStruct(typ: string)     // (&typ{}).From(&field), falling back to typ{}
    | ToEach(elem: string)        // nil stays nil; each item through its To()
    | ToPointer(typ: string)      // nil stays nil; otherwise the address of field.To()
    | ToStruct(typ: string)       // field.To()

  // ---- The Go the closures are made of ----

  /** The opening of a closure returning `result`. */
  function Open(result: string): string {
    "func() " + result + " {"
  }

  function NilTest(subject: string): string {
    "\t\tif " + subject + " == nil {"
  }

  function NonNilTest(subject: string): string {
    "\t\tif " + subject + " != nil {"
  }

  /** A result slice of `elem` as long as `subject`. */
  function Alloc(elem: string, subject: string): string {
    "\t\tresult := make([]" + elem + ", len(" + subject + "))"
  }

  /** A loop over `subject` binding each element to `item`. */
  function Range(item: string, subject: string): string {
    "\t\tfor i, " + item + " := range " + subject + " {"
  }

  /** The expression `(&typ{}).From(arg)`. */
  function FromExpr(typ: string, arg: string): string {
    "(&" + typ + "{}).From(" + arg + ")"
  }

  /** The expression `subject.To()`. */
  function ToExpr(subject: string): string {
    subject + ".To()"
  }

  /** The lines of the Go code that performs `c` on `subject`. */
  function Closure(c: Conversion, subject: string): seq<string>
  {
    match c
    case Copy => [subject]
    case FromEach(elem) =>
      [Open("[]" + elem), NilTest(subject), "\t\t\treturn nil", "\t\t}",
       Alloc(elem, subject), Range("item", subject),
       "\t\t\tconverted := " + FromExpr(elem, "&item"),
       "\t\t\tif converted != nil {", "\t\t\t\tresult[i] = *converted", "\t\t\t}",
       "\t\t}", "\t\treturn result", "\t}()"]
    case CastEach(elem) =>
      [Open("[]" + elem), Alloc(elem, subject), Range("v", subject),
       "\t\t\tresult[i] = " + elem + "(v)",
       "\t\t}", "\t\treturn result", "\t}()"]
    case FromPointer(typ) =>
      [Open("*" + typ), NonNilTest(subject), "\t\t\treturn " + FromExpr(typ, subject), "\t\t}",
       "\t\treturn nil", "\t}()"]
    case FromStruct(typ) =>
      [Open(typ), "\t\tresult := " + FromExpr(typ, "&" + subject),
       "\t\tif result != nil {", "\t\t\treturn *result", "\t\t}",
       "\t\treturn " + typ + "{}", "\t}()"]
    case ToEach(elem) =>
      [Open("[]" + elem), NilTest(subject), "\t\t\treturn nil", "\t\t}",
       Alloc(elem, subject), Range("item", subject),
       "\t\t\tresult[i] = item.To()",
       "\t\t}", "\t\treturn result", "\t}()"]
    case ToPointer(typ) =>
      [Open("*" + typ), NonNilTest(subject), "\t\t\tresult := " + ToExpr(subject), "\t\t\treturn &result",
       "\t\t}", "\t\treturn nil", "\t}()"]
    case ToStruct(typ) =>
      [Open(typ), "\t\treturn " + ToExpr(subject), "\t}()"]
  }

  /** `text` is, line for line, the Go code performing `c` on `subject`. */
  predicate Performs(text: string, subject: string, c: Conversion) {
    SplitLines(text) == Closure(c, subject)
  }

  /** The spelling a conversion allocates or returns; the empty string for a copy. */
  function Spelling(c: Conversion): string {
    match c
    case Copy => ""
    case FromEach(elem) => elem
    case CastEach(elem) => elem
    case ToEach(elem) => elem
    case FromPointer(typ) => typ
    case FromStruct(typ) => typ
    case ToPointer(typ) => typ
    case ToStruct(typ) => typ
  }

  // ---- Facts about the closures ----

  /** The fixed lines of the closures are single lines. */
  lemma FixedLinesSingle()
    ensures NoNewline("\t\t\treturn nil") && NoNewline("\t\t}") && NoNewline("\t}()")
    ensures NoNewline("\t\treturn result") && NoNewline("\t\t\t}")
    ensures NoNewline("\t\t\tif converted != nil {") && NoNewline("\t\t\t\tresult[i] = *converted")
    ensures NoNewline("\t\tif result != nil {") && NoNewline("\t\t\treturn *result")
    ensures NoNewline("\t\t\tresult[i] = item.To()") && NoNewline("\t\t\treturn &result")
  {
    Single("\t\t\treturn nil");
    Single("\t\t}");
    Single("\t}()");
    Single("\t\treturn result");
    Single("\t\t\t}");
    Single("\t\t\tif converted != nil {");
    Single("\t\t\t\tresult[i] = *converted");
    Single("\t\tif result != nil {");
    Single("\t\t\treturn *result");
    Single("\t\t\tresult[i] = item.To()");
    Single("\t\t\treturn &result");
  }

  /** A line whose characters are all no newline is a single line. */
  lemma Single(s: string)
    requires forall i | 0 <= i < |s| :: s[i] != '\n'
    ensures NoNewline(s)
  {
  }

  /** The lines built around the subject and the spelling are single lines. */
  lemma BuiltLinesSingle(x: string, subject: string)
    requires NoNewline(subject) && NoNewline(x)
    ensures NoNewline(Open(x)) && NoNewline(Open("[]" + x)) && NoNewline(Open("*" + x))
    ensures NoNewline(NilTest(subject)) && NoNewline(NonNilTest(subject))
    ensures NoNewline(Alloc(x, subject)) && NoNewline(Range("item", subject)) && NoNewline(Range("v", subject))
    ensures NoNewline("\t\t\tconverted := " + FromExpr(x, "&item")) && NoNewline("\t\t\tresult[i] = " + x + "(v)")
    ensures NoNewline("\t\t\treturn " + FromExpr(x, subject)) && NoNewline("\t\tresult := " + FromExpr(x, "&" + subject))
    ensures NoNewline("\t\treturn " + x + "{}")
    ensures NoNewline("\t\t\tresult := " + ToExpr(subject)) && NoNewline("\t\treturn " + ToExpr(subject))
  {
    Single("func() "); Single(" {"); Single("[]"); Single("*");
    Single("\t\tif "); Single(" == nil {"); Single(" != nil {");
    Single("\t\tresult := make([]"); Single(", len("); Single("))");
    Single("\t\tfor i, "); Single(" := range "); Single("item"); Single("v");
    Single("\t\t\tconverted := "); Single("(&"); Single("{}).From("); Single(")"); Single("&item");
    Single("\t\t\tresult[i] = "); Single("(v)"); Single("\t\t\treturn "); Single("\t\tresult := "); Single("&");
    Single("\t\treturn "); Single("{}"); Single("\t\t\tresult := "); Single(".To()");
  }

  /** Every line of a closure on a single-line subject and spelling is a single line. */
  lemma ClosureSingleLines(c: Conversion, subject: string)
    requires NoNewline(subject) && NoNewline(Spelling(c))
    ensures forall k :: 0 <= k < |Closure(c, subject)| ==> NoNewline(Closure(c, subject)[k])
  {
    FixedLinesSingle();
    BuiltLinesSingle(Spelling(c), subject);
  }

  /** A single-line text given as a closure's lines performs it. */
  lemma PerformsJoined(lines: seq<string>, c: Conversion, subject: string)
    requires NoNewline(subject) && NoNewline(Spelling(c)) && lines == Closure(c, subject)
    ensures Performs(JoinLines(lines), subject, c)
  {
    ClosureSingleLines(c, subject);
    SplitJoin(lines);
  }

  /** The closure opening determines the type it returns. */
  lemma OpenInjective(a: string, b: string)
    requires Open(a) == Open(b)
    ensures a == b
  {
    assert a == Open(a)[7..|Open(a)| - 2];
    assert b == Open(b)[7..|Open(b)| - 2];
  }

  lemma SliceOfInjective(a: string, b: string)
    requires "[]" + a == "[]" + b
    ensures a == b
  {
    assert a == ("[]" + a)[2..];
    assert b == ("[]" + b)[2..];
  }

  lemma PointerToInjective(a: string, b: string)
    requires "*" + a == "*" + b
    ensures a == b
  {
    assert a == ("*" + a)[1..];
    assert b == ("*" + b)[1..];
  }

  /** Two strings differing at a position within both. */
  lemma DifferAt(a: string, b: string, k: nat)
    requires k < |a| && k < |b| && a[k] != b[k]
    ensures a != b
  {
  }

  /** The second lines of the three seven-line closures tell them apart. */
  lemma SevenLineClosuresDiffer(subject: string, elem: string, typ: string)
    ensures Alloc(elem, subject) != "\t\tresult := " + FromExpr(typ, "&" + subject)
    ensures Alloc(elem, subject) != NonNilTest(subject)
    ensures "\t\tresult := " + FromExpr(typ, "&" + subject) != NonNilTest(subject)
  {
    DifferAt(Alloc(elem, subject), "\t\tresult := " + FromExpr(typ, "&" + subject), 12);
    DifferAt(Alloc(elem, subject), NonNilTest(subject), 2);
    DifferAt("\t\tresult := " + FromExpr(typ, "&" + subject), NonNilTest(subject), 2);
  }

  /** A text performs at most one conversion on a given subject. */
  lemma PerformsOne(text: string, subject: string, c: Conversion, d: Conversion)
    requires Performs(text, subject, c) && Performs(text, subject, d)
    ensures c == d
  {
    var l := Closure(c, subject);
    assert l == Closure(d, subject);
    var x, y := Spelling(c), Spelling(d);
    SevenLineClosuresDiffer(subject, x, y);
    SevenLineClosuresDiffer(subject, y, x);
    assert c.Copy? <==> d.Copy?;
    if !c.Copy? {
      if c.FromEach? || c.CastEach? || c.ToEach? {
        assert d.FromEach? || d.CastEach? || d.ToEach?;
        OpenInjective("[]" + x, "[]" + y);
        SliceOfInjective(x, y);
      } else if c.FromPointer? || c.ToPointer? {
        assert d.FromPointer? || d.ToPointer?;
        OpenInjective("*" + x, "*" + y);
        PointerToInjective(x, y);
      } else {
        assert d.FromStruct? || d.ToStruct?;
        OpenInjective(x, y);
      }
    }
  }

  // ---- The templates ----

  /** The opening lines of the templates, as closure openings. */
  lemma Openings(x: string, pkg: string)
    ensures "func() []" + x + " {" == Open("[]" + x)
    ensures "func() *" + x + " {" == Open("*" + x)
    ensures "func() " + x + " {" == Open(x)
    ensures "func() []" + pkg + "." + x + " {" == Open("[]" + (pkg + "." + x))
    ensures "func() *" + pkg + "." + x + " {" == Open("*" + (pkg + "." + x))
    ensures "func() " + pkg + "." + x + " {" == Open(pkg + "." + x)
  {
    AppendAssoc("func() ", "[]", x);
    AppendAssoc("func() ", "*", x);
    AppendAssoc("func() ", "[]", pkg + "." + x);
    AppendAssoc("func() ", "*", pkg + "." + x);
    AppendAssoc("func() []" + pkg, ".", x);
    AppendAssoc("func() []", pkg, "." + x);
    AppendAssoc("func() *" + pkg, ".", x);
    AppendAssoc("func() *", pkg, "." + x);
    AppendAssoc("func() " + pkg, ".", x);
    AppendAssoc("func() ", pkg, "." + x);
    AppendAssoc(pkg, ".", x);
  }

  /** The statements of the `From` templates, on the source field. */
  lemma SourceStatements(name: string, x: string)
    ensures "\t\tif src." + name + " == nil {" == NilTest("src." + name)
    ensures "\t\tif src." + name + " != nil {" == NonNilTest("src." + name)
    ensures "\t\tresult := make([]" + x + ", len(src." + name + "))" == Alloc(x, "src." + name)
    ensures "\t\tfor i, item := range src." + name + " {" == Range("item", "src." + name)
    ensures "\t\tfor i, v := range src." + name + " {" == Range("v", "src." + name)
  {
    Tests("\t\tif src.", "src.", name);
    Allocation(", len(src.", "src.", x, name);
    Ranges("\t\tfor i, item := range src.", "\t\tfor i, v := range src.", "src.", name);
  }

  /** The nil tests on a field reached through `field`, whose spelling `head` loads. */
  lemma Tests(head: string, field: string, name: string)
    requires head == "\t\tif " + field
    ensures head + name + " == nil {" == NilTest(field + name)
    ensures head + name + " != nil {" == NonNilTest(field + name)
  {
    Regroup("\t\tif ", field, name, " == nil {");
    Regroup("\t\tif ", field, name, " != nil {");
  }

  lemma Allocation(len: string, field: string, x: string, name: string)
    requires len == ", len(" + field
    ensures "\t\tresult := make([]" + x + len + name + "))" == Alloc(x, field + name)
  {
    Regroup("\t\tresult := make([]" + x + ", len(", field, name, "))");
    AppendAssoc("\t\tresult := make([]" + x, ", len(", field);
  }

  lemma Ranges(item: string, v: string, field: string, name: string)
    requires item == "\t\tfor i, item := range " + field && v == "\t\tfor i, v := range " + field
    ensures item + name + " {" == Range("item", field + name)
    ensures v + name + " {" == Range("v", field + name)
  {
    Regroup("\t\tfor i, item := range ", field, name, " {");
    Regroup("\t\tfor i, v := range ", field, name, " {");
  }

  /** Moving a piece of a four-part concatenation into the following part. */
  lemma Regroup(a: string, b: string, c: string, d: string)
    ensures a + b + c + d == a + (b + c) + d
  {
    AppendAssoc(a, b, c);
  }

  /** The conversion calls of the `From` templates. */
  lemma SourceCalls(name: string, x: string)
    ensures "\t\t\tconverted := (&" + x + "{}).From(&item)" == "\t\t\tconverted := " + FromExpr(x, "&item")
    ensures "\t\t\treturn (&" + x + "{}).From(src." + name + ")" == "\t\t\treturn " + FromExpr(x, "src." + name)
    ensures "\t\tresult := (&" + x + "{}).From(&src." + name + ")" == "\t\tresult := " + FromExpr(x, "&" + ("src." + name))
  {
    FromCallTail("\t\t\tconverted := (&", "\t\t\tconverted := ", x, "{}).From(&item)", "&item");
    FromCallOn("\t\t\treturn (&", "\t\t\treturn ", x, "{}).From(src.", "src.", name);
    FromCallOn("\t\tresult := (&", "\t\tresult := ", x, "{}).From(&src.", "&src.", name);
    AppendAssoc("&", "src.", name);
  }

  /** A statement ending in a `From` call with a fixed argument. */
  lemma FromCallTail(open: string, stem: string, x: string, tail: string, arg: string)
    requires open == stem + "(&" && tail == "{}).From(" + arg + ")"
    ensures open + x + tail == stem + FromExpr(x, arg)
  {
    var f := "(&" + x + "{}).From(";
    AppendAssoc(stem, "(&", x);
    AppendAssoc(stem + "(&" + x, "{}).From(", arg);
    AppendAssoc(stem + "(&" + x, "{}).From(" + arg, ")");
    AppendAssoc(stem, "(&" + x, "{}).From(");
    AppendAssoc(stem, f, arg);
    AppendAssoc(stem, f + arg, ")");
  }

  /** A statement ending in a `From` call on a field. */
  lemma FromCallOn(open: string, stem: string, x: string, close: string, lead: string, name: string)
    requires open == stem + "(&" && close == "{}).From(" + lead
    ensures open + x + close + name + ")" == stem + FromExpr(x, lead + name)
  {
    FromCallTail(open, stem, x, "{}).From(" + (lead + name) + ")", lead + name);
    AppendAssoc(open + x, close, name);
    AppendAssoc(open + x, close + name, ")");
    AppendAssoc("{}).From(", lead, name);
  }

  /** The statements of the `To` templates, on the local field. */
  lemma TargetStatements(name: string, x: string)
    ensures "\t\tif t." + name + " == nil {" == NilTest("t." + name)
    ensures "\t\tif t." + name + " != nil {" == NonNilTest("t." + name)
    ensures "\t\tresult := make([]" + x + ", len(t." + name + "))" == Alloc(x, "t." + name)
    ensures "\t\tfor i, item := range t." + name + " {" == Range("item", "t." + name)
    ensures "\t\t\tresult := t." + name + ".To()" == "\t\t\tresult := " + ToExpr("t." + name)
    ensures "\t\treturn t." + name + ".To()" == "\t\treturn " + ToExpr("t." + name)
  {
    Tests("\t\tif t.", "t.", name);
    Allocation(", len(t.", "t.", x, name);
    Ranges("\t\tfor i, item := range t.", "\t\tfor i, v := range t.", "t.", name);
    ToCall("\t\t\tresult := t.", "\t\t\tresult := ", name);
    ToCall("\t\treturn t.", "\t\treturn ", name);
  }

  /** A statement ending in a `To` call on the local field. */
  lemma ToCall(head: string, stem: string, name: string)
    requires head == stem + "t."
    ensures head + name + ".To()" == stem + ToExpr("t." + name)
  {
    AppendAssoc(stem, "t." + name, ".To()");
    AppendAssoc(stem, "t.", name);
  }

  /** The reverse allocation, of a qualified element type. */
  lemma QualifiedAlloc(name: string, pkg: string, elem: string)
    ensures "\t\tresult := make([]" + pkg + "." + elem + ", len(t." + name + "))" == Alloc(pkg + "." + elem, "t." + name)
  {
    TargetStatements(name, pkg + "." + elem);
    AppendAssoc("\t\tresult := make([]" + pkg, ".", elem);
    AppendAssoc("\t\tresult := make([]", pkg, "." + elem);
    AppendAssoc(pkg, ".", elem);
  }

  lemma SliceConvertPerforms(name: string, elem: string)
    requires NoNewline(name) && NoNewline(elem)
    ensures Performs(JoinLines(SliceConvertLines(name, elem)), "src." + name, FromEach(elem))
  {
    Openings(elem, "");
    SourceStatements(name, elem);
    SourceCalls(name, elem);
    PerformsJoined(SliceConvertLines(name, elem), FromEach(elem), "src." + name);
  }

  lemma SliceCastPerforms(name: string, elem: string)
    requires NoNewline(name) && NoNewline(elem)
    ensures Performs(JoinLines(SliceCastLines(name, elem)), "src." + name, CastEach(elem))
  {
    Openings(elem, "");
    SourceStatements(name, elem);
    PerformsJoined(SliceCastLines(name, elem), CastEach(elem), "src." + name);
  }

  lemma NestedPointerPerforms(name: string, typ: string)
    requires NoNewline(name) && NoNewline(typ)
    ensures Performs(JoinLines(NestedPointerLines(name, typ)), "src." + name, FromPointer(typ))
  {
    Openings(typ, "");
    SourceStatements(name, typ);
    SourceCalls(name, typ);
    PerformsJoined(NestedPointerLines(name, typ), FromPointer(typ), "src." + name);
  }

  lemma NestedValuePerforms(name: string, typ: string)
    requires NoNewline(name) && NoNewline(typ)
    ensures Performs(JoinLines(NestedValueLines(name, typ)), "src." + name, FromStruct(typ))
  {
    Openings(typ, "");
    SourceCalls(name, typ);
    PerformsJoined(NestedValueLines(name, typ), FromStruct(typ), "src." + name);
  }

  lemma ReverseSlicePerforms(name: string, pkg: string, elem: string)
    requires NoNewline(name) && NoNewline(pkg) && NoNewline(elem)
    ensures Performs(JoinLines(ReverseSliceLines(name, pkg, elem)), "t." + name, ToEach(pkg + "." + elem))
  {
    Openings(elem, pkg);
    TargetStatements(name, pkg + "." + elem);
    QualifiedAlloc(name, pkg, elem);
    PerformsJoined(ReverseSliceLines(name, pkg, elem), ToEach(pkg + "." + elem), "t." + name);
  }

  lemma ReverseNestedPointerPerforms(name: string, pkg: string, typ: string)
    requires NoNewline(name) && NoNewline(pkg) && NoNewline(typ)
    ensures Performs(JoinLines(ReverseNestedPointerLines(name, pkg, typ)), "t." + name, ToPointer(pkg + "." + typ))
  {
    Openings(typ, pkg);
    TargetStatements(name, typ);
    PerformsJoined(ReverseNestedPointerLines(name, pkg, typ), ToPointer(pkg + "." + typ), "t." + name);
  }

  lemma ReverseNestedValuePerforms(name: string, pkg: string, typ: string)
    requires NoNewline(name) && NoNewline(pkg) && NoNewline(typ)
    ensures Performs(JoinLines(ReverseNestedValueLines(name, pkg, typ)), "t." + name, ToStruct(pkg + "." + typ))
  {
    Openings(typ, pkg);
    TargetStatements(name, typ);
    PerformsJoined(ReverseNestedValueLines(name, pkg, typ), ToStruct(pkg + "." + typ), "t." + name);
  }

  // ---- The conversion each field gets ----

  lemma TrimKeepsNoNewline(s: string, prefix: string)
    requires NoNewline(s)
    ensures NoNewline(TrimPrefix(s, prefix))
  {
    if HasPrefix(s, prefix) {
      assert s == prefix + TrimPrefix(s, prefix);
    }
  }

  lemma CleanKeepsNoNewline(s: string, config: MappingConfig)
    requires NoNewline(s)
    ensures NoNewline(CleanTypeName(s, config))
  {
  }

  /**
   * The conversion the `From` entry of a kept field performs.  A slice whose
   * element type needs conversion is converted element by element, guarded
   * against a nil slice; a slice whose element spelling cleaning leaves alone
   * is copied and any other slice is cast element by element, in each case to
   * the cleaned element of the local slice.  A nested struct is converted
   * through the `From` of its local type (the local field's type cleaned once
   * more, without its pointer), behind a nil check when it is held by pointer.
   * Every other field is copied.
   */
  function ForwardConversion(config: MappingConfig, sf: FieldInfo): (c: Conversion)
    ensures c.Copy? || c.FromEach? || c.CastEach? || c.FromPointer? || c.FromStruct?
    ensures (c.FromPointer? || c.FromStruct?) <==>
            !sf.isSlice && Mapper.NeedsRecursiveMapping(sf, PseudoTarget(config, sf))
    ensures c.FromPointer? ==> sf.isPointer
    ensures (c.FromEach? || c.CastEach?) ==> sf.isSlice
  {
    var local := CleanTypeName(sf.fieldType, config);
    var elem := TrimPrefix(sf.fieldType, "[]");
    if sf.isSlice then
      var localElem := CleanTypeName(TrimPrefix(local, "[]"), config);
      if NeedsConversion(elem) then FromEach(localElem)
      else if elem == TrimPrefix(local, "[]") then Copy
      else CastEach(localElem)
    else if sf.isNested then
      var typ := TrimPrefix(CleanTypeName(local, config), "*");
      if sf.isPointer then FromPointer(typ) else FromStruct(typ)
    else Copy
  }

  /** The `From` entry of every kept field performs its ForwardConversion. */
  lemma ForwardClassified(config: MappingConfig, sf: FieldInfo)
    requires !Omitted(config, sf.name) && NoNewline(sf.name) && NoNewline(sf.fieldType)
    ensures Performs(GenerateFieldMapping(sf, PseudoTarget(config, sf), config), "src." + sf.name,
                     ForwardConversion(config, sf))
  {
    var tf := PseudoTarget(config, sf);
    CleanKeepsNoNewline(sf.fieldType, config);
    SplitLinesSingle("src." + sf.name);
    if sf.isSlice {
      TrimKeepsNoNewline(tf.fieldType, "[]");
      var elem := CleanTypeName(TrimPrefix(tf.fieldType, "[]"), config);
      CleanKeepsNoNewline(TrimPrefix(tf.fieldType, "[]"), config);
      if NeedsConversion(TrimPrefix(sf.fieldType, "[]")) {
        SliceConvertPerforms(sf.name, elem);
      } else if TrimPrefix(sf.fieldType, "[]") != TrimPrefix(tf.fieldType, "[]") {
        SliceCastPerforms(sf.name, elem);
      }
    } else if sf.isNested {
      CleanKeepsNoNewline(tf.fieldType, config);
      var typ := TrimPrefix(CleanTypeName(tf.fieldType, config), "*");
      TrimKeepsNoNewline(CleanTypeName(tf.fieldType, config), "*");
      if sf.isPointer {
        NestedPointerPerforms(sf.name, typ);
      } else {
        NestedValuePerforms(sf.name, typ);
      }
    }
  }

  /**
   * The conversion the `To` entry of a kept field performs.  When cleaning the
   * already cleaned type changes nothing, the entry copies the local field
   * whatever its shape.  Otherwise a slice of nested structs, or of a
   * qualified element type, is converted element by element with a nil guard
   * into a slice of the source package's element type, and other slices are
   * copied; a nested struct is converted through its `To` into the source
   * package's type, behind a nil check when held by pointer; anything else is
   * copied.
   */
  function ReverseConversion(config: MappingConfig, sf: FieldInfo): (c: Conversion)
    ensures c.Copy? || c.ToEach? || c.ToPointer? || c.ToStruct?
    ensures CleanTypeName(CleanTypeName(sf.fieldType, config), config) == CleanTypeName(sf.fieldType, config)
            ==> c.Copy?
    ensures c.ToEach? ==> sf.isSlice
    ensures (c.ToPointer? || c.ToStruct?) ==> !sf.isSlice && sf.isNested
    ensures !c.Copy? ==> HasPrefix(Spelling(c), config.sourceType.packageName + ".")
  {
    var pkg := config.sourceType.packageName;
    var clean := CleanTypeName(sf.fieldType, config);
    if CleanTypeName(clean, config) == clean then Copy
    else if sf.isSlice then
      if sf.isNested || Contains(TrimPrefix(clean, "[]"), ".") then
        var elem := TrimPrefix(TrimPrefix(sf.fieldType, "[]"), pkg + ".");
        HasPrefixConcat(pkg + ".", elem);
        ToEach(pkg + "." + elem)
      else Copy
    else if sf.isNested then
      var typ := TrimPrefix(TrimPrefix(clean, pkg + "."), "*");
      HasPrefixConcat(pkg + ".", typ);
      if sf.isPointer then ToPointer(pkg + "." + typ) else ToStruct(pkg + "." + typ)
    else Copy
  }

  /** The `To` entry of every kept field performs its ReverseConversion. */
  lemma ReverseClassified(config: MappingConfig, sf: FieldInfo)
    requires !Omitted(config, sf.name) && NoNewline(sf.fieldType)
    requires NoNewline(TargetFieldName(config, sf.name)) && NoNewline(config.sourceType.packageName)
    ensures Performs(ToValue(config, sf), "t." + TargetFieldName(config, sf.name), ReverseConversion(config, sf))
  {
    var tf := PseudoTarget(config, sf);
    var pkg := config.sourceType.packageName;
    var clean := CleanTypeName(sf.fieldType, config);
    SplitLinesSingle("t." + tf.name);
    if CleanTypeName(clean, config) != clean {
      if sf.isSlice {
        if sf.isNested || Contains(TrimPrefix(clean, "[]"), ".") {
          TrimKeepsNoNewline(sf.fieldType, "[]");
          TrimKeepsNoNewline(TrimPrefix(sf.fieldType, "[]"), pkg + ".");
          ReverseSlicePerforms(tf.name, pkg, TrimPrefix(TrimPrefix(sf.fieldType, "[]"), pkg + "."));
        }
      } else if sf.isNested {
        CleanKeepsNoNewline(sf.fieldType, config);
        TrimKeepsNoNewline(clean, pkg + ".");
        TrimKeepsNoNewline(TrimPrefix(clean, pkg + "."), "*");
        var typ := TrimPrefix(TrimPrefix(clean, pkg + "."), "*");
        if sf.isPointer {
          ReverseNestedPointerPerforms(tf.name, pkg, typ);
        } else {
          ReverseNestedValuePerforms(tf.name, pkg, typ);
        }
      }
    }
  }

  /**
   * The reverse shortcut: when cleaning is idempotent on a kept field's type,
   * its `To` entry is the bare local field, whether the field is a slice, a
   * nested struct or neither.
   */
  lemma ReverseShortcut(config: MappingConfig, sf: FieldInfo)
    requires !Omitted(config, sf.name)
    requires CleanTypeName(CleanTypeName(sf.fieldType, config), config) == CleanTypeName(sf.fieldType, config)
    ensures ToValue(config, sf) == "t." + TargetFieldName(config, sf.name)
  {
  }

  /** A type that never mentions the source qualifier always takes the shortcut. */
  lemma UnqualifiedTakesShortcut(config: MappingConfig, sf: FieldInfo)
    requires !Omitted(config, sf.name) && !Contains(sf.fieldType, SourcePrefix(config))
    ensures ToValue(config, sf) == "t." + TargetFieldName(config, sf.name)
    ensures ReverseConversion(config, sf) == Copy
  {
    ReverseShortcut(config, sf);
  }

  /**
   * Cleaning is not idempotent on every spelling: deleting the qualifier can
   * join two halves into a new one.  On such a type the reverse shortcut does
   * not fire and a nested field gets its `To` conversion.
   */
  lemma QualifierReappears(config: MappingConfig, sf: FieldInfo)
    requires config.sourceType.packageName == "api"
    requires sf.fieldType == "apiapi..T" && !sf.isSlice && sf.isNested && !sf.isPointer
    ensures CleanTypeName(sf.fieldType, config) == "api.T"
    ensures CleanTypeName("api.T", config) == "T"
    ensures ReverseConversion(config, sf) == ToStruct("api.T")
  {
    assert SourcePrefix(config) == "api.";
    DeleteInner();
    DeleteLeading("T");
    var pkg := config.sourceType.packageName;
    assert TrimPrefix("api.T", pkg + ".") == "T";
    assert TrimPrefix("T", "*") == "T";
  }

  lemma DeleteLeading(t: string)
    requires !Contains(t, "api.")
    ensures ReplaceAll("api." + t, "api.", "") == t
  {
    ReplaceAllAtMatch("api.", t, "");
    ReplaceAllNoMatch(t, "api.", "");
  }

  lemma DeleteInner()
    ensures ReplaceAll("apiapi..T", "api.", "") == "api.T"
  {
    var s := "apiapi..T";
    NotPrefixAt(s, "api.", 3);
    NotPrefixAt(s[1..], "api.", 3);
    NotPrefixAt(s[2..], "api.", 3);
    assert s[1..][1..] == s[2..] && s[2..][1..] == s[3..];
    assert s[3..] == "api." + ".T";
    DeleteLeading(".T");
    assert ReplaceAll(s[2..], "api.", "") == [s[2]] + ".T";
    assert ReplaceAll(s[1..], "api.", "") == [s[1]] + ([s[2]] + ".T");
    assert ReplaceAll(s, "api.", "") == [s[0]] + ([s[1]] + ([s[2]] + ".T"));
  }
}
