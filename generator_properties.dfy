/**
 * What the text written by the generator contains.  The generating methods of
 * Generator.Generator are proved to append exactly StructDefText, FromMethodText
 * and ToMethodText; the lemmas here read that text back: the struct definition
 * line by line and through a parser, the `From` and `To` bodies entry by entry,
 * and each emitted conversion expression through a classifier that recognises
 * which conversion it performs from its lines alone.
 */
module GeneratorProperties {
  import opened Wrappers
  import opened Types
  import opened GoStrings
  import opened Generator
  import Mapper

  // ---- Which fields are kept ----

  /** Kept distributes over concatenation, so it preserves the order of the fields. */
  lemma {:induction false} KeptAppend(config: MappingConfig, a: seq<FieldInfo>, b: seq<FieldInfo>)
    ensures Kept(config, a + b) == Kept(config, a) + Kept(config, b)
    decreases |b|
  {
    if b == [] {
      AppendEmpty(a);
      AppendEmpty(Kept(config, a));
    } else {
      var n := |b| - 1;
      var extra := if Omitted(config, b[n].name) then [] else [b[n]];
      AppendInit(a, b);
      KeptAppend(config, a, b[..n]);
      AppendAssoc(Kept(config, a), Kept(config, b[..n]), extra);
    }
  }

  /** A field is kept exactly when it is a source field that is not omitted. */
  lemma {:induction false} KeptMembers(config: MappingConfig, fields: seq<FieldInfo>)
    ensures forall f :: f in Kept(config, fields) <==> f in fields && !Omitted(config, f.name)
    decreases |fields|
  {
    if fields != [] {
      var n := |fields| - 1;
      KeptMembers(config, fields[..n]);
      assert fields == fields[..n] + [fields[n]];
    }
  }

  // ---- The struct definition ----

  /** A name that fits on one line and holds no space. */
  predicate IsWord(s: string) {
    s != [] && forall c :: c in s ==> c != ' ' && c != '\n'
  }

  /** A source field whose declaration is one line with the name before the first space. */
  predicate FieldPrintable(config: MappingConfig, sf: FieldInfo) {
    NoNewline(sf.name) && NoNewline(sf.fieldType) && IsWord(TargetFieldName(config, sf.name))
  }

  /** The configurations whose names keep every emitted header line on one line. */
  predicate Printable(config: MappingConfig) {
    && NoNewline(config.targetType.typeName)
    && NoNewline(config.sourceType.typeName)
    && NoNewline(config.sourceType.packageName)
    && forall k :: 0 <= k < |config.sourceType.fields| ==> FieldPrintable(config, config.sourceType.fields[k])
  }

  /** The declaration lines of `fields`, in order. */
  function FieldLines(config: MappingConfig, fields: seq<FieldInfo>): (lines: seq<string>)
    ensures |lines| == |fields|
  {
    Map(sf => FieldDecl(config, sf), fields)
  }

  lemma FieldDeclOneLine(config: MappingConfig, sf: FieldInfo)
    requires FieldPrintable(config, sf)
    ensures NoNewline(FieldDecl(config, sf))
  {
  }

  /** The field lines of a struct body, followed by any text, split into one line per kept field. */
  lemma {:induction false} StructBodyLines(config: MappingConfig, fields: seq<FieldInfo>, tail: string)
    requires forall k :: 0 <= k < |fields| ==> FieldPrintable(config, fields[k])
    ensures SplitLines(StructBody(config, fields) + tail)
            == FieldLines(config, Kept(config, fields)) + SplitLines(tail)
    decreases |fields|
  {
    if fields == [] {
      assert StructBody(config, fields) + tail == tail;
    } else {
      var n := |fields| - 1;
      var init, last := fields[..n], fields[n];
      assert forall k :: 0 <= k < |init| ==> FieldPrintable(config, init[k]) by {
        forall k | 0 <= k < |init| ensures FieldPrintable(config, init[k]) {
          assert init[k] == fields[k];
        }
      }
      if Omitted(config, last.name) {
        AppendEmpty(StructBody(config, init));
        AppendEmpty(Kept(config, init));
        StructBodyLines(config, init, tail);
      } else {
        var decl := FieldDecl(config, last);
        var before := FieldLines(config, Kept(config, init));
        FieldDeclOneLine(config, last);
        calc {
          SplitLines(StructBody(config, fields) + tail);
          SplitLines((StructBody(config, init) + (decl + "\n")) + tail);
          { AppendAssoc(StructBody(config, init), decl + "\n", tail); }
          SplitLines(StructBody(config, init) + (decl + "\n" + tail));
          { StructBodyLines(config, init, decl + "\n" + tail); }
          before + SplitLines(decl + "\n" + tail);
          { SplitLinesStep(decl, tail); }
          before + ([decl] + SplitLines(tail));
          { AppendAssoc(before, [decl], SplitLines(tail)); }
          (before + [decl]) + SplitLines(tail);
          { MapAppend(sf => FieldDecl(config, sf), Kept(config, init), last); }
          FieldLines(config, Kept(config, init) + [last]) + SplitLines(tail);
        }
      }
    }
  }

  function StructHeaderLine(config: MappingConfig): string {
    "type " + config.targetType.typeName + " struct {"
  }

  /** A closing line followed by an empty line, as ends a struct or an import block. */
  lemma ClosingLines(l: string)
    requires NoNewline(l)
    ensures SplitLines(l + "\n\n") == [l, "", ""]
  {
    SplitLinesStep(l, "\n");
    assert l + "\n\n" == l + "\n" + "\n";
    SplitLinesStep("", "");
    assert "\n" == "" + "\n" + "";
  }

  /**
   * The struct definition, line by line: the header, one declaration per kept
   * source field in declaration order, the closing brace and a blank line.
   */
  lemma StructDefLines(config: MappingConfig)
    requires Printable(config)
    ensures SplitLines(StructDefText(config))
            == [StructHeaderLine(config)] + FieldLines(config, Kept(config, config.sourceType.fields)) + ["}", "", ""]
  {
    var h, body := StructHeaderLine(config), StructBody(config, config.sourceType.fields);
    var lines := FieldLines(config, Kept(config, config.sourceType.fields));
    assert StructHeader(config) == h + "\n";
    HeaderOneLine(config.targetType.typeName);
    ClosingLines("}");
    assert "}" + "\n\n" == "}\n\n";
    calc {
      SplitLines(StructDefText(config));
      SplitLines((h + "\n" + body) + "}\n\n");
      { AppendAssoc(h + "\n", body, "}\n\n"); }
      SplitLines(h + "\n" + (body + "}\n\n"));
      { SplitLinesStep(h, body + "}\n\n"); }
      [h] + SplitLines(body + "}\n\n");
      { StructBodyLines(config, config.sourceType.fields, "}\n\n"); }
      [h] + (lines + ["}", "", ""]);
      { AppendAssoc([h], lines, ["}", "", ""]); }
      [h] + lines + ["}", "", ""];
    }
  }

  /** A field declaration as written: its name and its type. */
  datatype Decl = Decl(name: string, typ: string)

  function DeclOf(config: MappingConfig, sf: FieldInfo): Decl {
    Decl(TargetFieldName(config, sf.name), CleanTypeName(sf.fieldType, config))
  }

  /** The declarations the struct definition should hold for `fields`, in order. */
  function Declared(config: MappingConfig, fields: seq<FieldInfo>): (ds: seq<Decl>)
    ensures |ds| == |fields|
  {
    Map(sf => DeclOf(config, sf), fields)
  }

  /** Reads a `\tName Type` line: the name runs up to the first space. */
  function ParseFieldDecl(line: string): Option<Decl>
  {
    if |line| == 0 || line[0] != '\t' then None
    else
      var rest := line[1..];
      var i := IndexOf(rest, ' ');
      if i <= 0 then None else Some(Decl(rest[..i], rest[i + 1..]))
  }

  function ParseFieldDecls(lines: seq<string>): Option<seq<Decl>>
  {
    if lines == [] then Some([])
    else
      match (ParseFieldDecls(lines[..|lines| - 1]), ParseFieldDecl(lines[|lines| - 1]))
      case (Some(ds), Some(d)) => Some(ds + [d])
      case _ => None
  }

  /** Reads a struct definition back into its type name and its field declarations. */
  function ParseStructDef(text: string): Option<(string, seq<Decl>)>
  {
    var lines := SplitLines(text);
    var n := |lines|;
    if n < 4 || lines[n - 3..] != ["}", "", ""] then None
    else
      var h := lines[0];
      if |h| < 14 || h[..5] != "type " || h[|h| - 9..] != " struct {" then None
      else
        match ParseFieldDecls(lines[1..n - 3])
        case None => None
        case Some(ds) => Some((h[5..|h| - 9], ds))
  }

  lemma ParseFieldDeclRoundTrip(config: MappingConfig, sf: FieldInfo)
    requires FieldPrintable(config, sf)
    ensures ParseFieldDecl(FieldDecl(config, sf)) == Some(DeclOf(config, sf))
  {
    var name, typ := TargetFieldName(config, sf.name), CleanTypeName(sf.fieldType, config);
    var line := FieldDecl(config, sf);
    var rest := name + " " + typ;
    assert line[1..] == rest;
    assert ' ' !in name;
    IndexAfter(name, ' ', typ);
    assert rest == name + [' '] + typ;
    assert rest[..|name|] == name;
    assert rest[|name| + 1..] == typ;
  }

  lemma {:induction false} ParseFieldDeclsRoundTrip(config: MappingConfig, fields: seq<FieldInfo>)
    requires forall k :: 0 <= k < |fields| ==> FieldPrintable(config, fields[k])
    ensures ParseFieldDecls(FieldLines(config, fields)) == Some(Declared(config, fields))
    decreases |fields|
  {
    if fields != [] {
      var n := |fields| - 1;
      var init := fields[..n];
      assert forall k :: 0 <= k < |init| ==> FieldPrintable(config, init[k]) by {
        forall k | 0 <= k < |init| ensures FieldPrintable(config, init[k]) {
          assert init[k] == fields[k];
        }
      }
      ParseFieldDeclsRoundTrip(config, init);
      ParseFieldDeclRoundTrip(config, fields[n]);
      var before, decl := FieldLines(config, init), FieldDecl(config, fields[n]);
      assert FieldLines(config, fields) == before + [decl];
      assert Declared(config, fields) == Declared(config, init) + [DeclOf(config, fields[n])];
      AppendInit(before, [decl]);
      AppendEmpty(before);
    }
  }

  /**
   * The struct definition parses back into the target type name and, in
   * declaration order, one declaration per kept source field: its FieldMap name
   * (else its own) and its cleaned type.
   */
  lemma StructDefRoundTrip(config: MappingConfig)
    requires Printable(config)
    ensures ParseStructDef(StructDefText(config))
            == Some((config.targetType.typeName, Declared(config, Kept(config, config.sourceType.fields))))
  {
    var kept := Kept(config, config.sourceType.fields);
    var h := StructHeaderLine(config);
    StructDefLines(config);
    var lines := SplitLines(StructDefText(config));
    var n := |lines|;
    assert lines[n - 3..] == ["}", "", ""];
    assert lines[1..n - 3] == FieldLines(config, kept);
    HeaderRoundTrip(config.targetType.typeName);
    KeptPrintable(config);
    ParseFieldDeclsRoundTrip(config, kept);
  }

  lemma HeaderOneLine(name: string)
    requires NoNewline(name)
    ensures NoNewline("type " + name + " struct {")
  {
  }

  lemma HeaderRoundTrip(name: string)
    ensures var h := "type " + name + " struct {";
      |h| >= 14 && h[..5] == "type " && h[|h| - 9..] == " struct {" && h[5..|h| - 9] == name
  {
    var h := "type " + name + " struct {";
    assert h[..5] == "type ";
    assert h[|h| - 9..] == " struct {";
    assert h[5..|h| - 9] == name;
  }

  lemma KeptPrintable(config: MappingConfig)
    requires Printable(config)
    ensures var kept := Kept(config, config.sourceType.fields);
      forall k :: 0 <= k < |kept| ==> FieldPrintable(config, kept[k])
  {
    var kept := Kept(config, config.sourceType.fields);
    KeptMembers(config, config.sourceType.fields);
    forall k | 0 <= k < |kept| ensures FieldPrintable(config, kept[k]) {
      assert kept[k] in config.sourceType.fields;
    }
  }

  // ---- The From method ----

  /** The `From` entries of `fields`, in order. */
  function FromEntries(config: MappingConfig, fields: seq<FieldInfo>): (es: seq<string>)
    ensures |es| == |fields|
  {
    Map(sf => FromEntry(config, sf), fields)
  }

  /** The body of `From` is one entry per kept source field, in declaration order. */
  lemma {:induction false} FromBodyEntries(config: MappingConfig, fields: seq<FieldInfo>)
    ensures FromBody(config, fields) == Concat(FromEntries(config, Kept(config, fields)))
    decreases |fields|
  {
    if fields != [] {
      var n := |fields| - 1;
      var init, last := fields[..n], fields[n];
      FromBodyEntries(config, init);
      if Omitted(config, last.name) {
        AppendEmpty(FromBody(config, init));
        AppendEmpty(Kept(config, init));
      } else {
        MapAppend(sf => FromEntry(config, sf), Kept(config, init), last);
        ConcatAppend(FromEntries(config, Kept(config, init)), FromEntry(config, last));
      }
    }
  }

  /**
   * `From` is its comment header and signature, the nil check returning nil for
   * a nil source, the opening of the result literal, the entries of the kept
   * fields in declaration order and the closing braces.
   */
  lemma FromMethodLayout(config: MappingConfig)
    ensures FromMethodText(config)
            == Unlines(FromSignatureLines(config)) + Unlines(NilGuardLines) + Unlines([FromOpenLine(config)])
               + Concat(FromEntries(config, Kept(config, config.sourceType.fields))) + "\t}\n}\n\n"
  {
    var sig, open := FromSignatureLines(config), [FromOpenLine(config)];
    FromBodyEntries(config, config.sourceType.fields);
    UnlinesAppend(sig + NilGuardLines, open);
    UnlinesAppend(sig, NilGuardLines);
  }

  // ---- The To method ----

  /** The `To` entries of `fields`, in order. */
  function ToEntries(config: MappingConfig, fields: seq<FieldInfo>): (es: seq<string>)
    ensures |es| == |fields|
  {
    Map(sf => ToEntry(config, sf), fields)
  }

  /** The body of `To` is one entry per source field, omitted or not, in declaration order. */
  lemma {:induction false} ToBodyEntries(config: MappingConfig, fields: seq<FieldInfo>)
    ensures ToBody(config, fields) == Concat(ToEntries(config, fields))
    decreases |fields|
  {
    if fields != [] {
      var n := |fields| - 1;
      ToBodyEntries(config, fields[..n]);
      ConcatAppend(ToEntries(config, fields[..n]), ToEntry(config, fields[n]));
    }
  }

  /**
   * `To` is its usage comment and signature, the opening of the external
   * literal, one entry per source field in declaration order and the closing braces.
   */
  lemma ToMethodLayout(config: MappingConfig)
    ensures ToMethodText(config)
            == Unlines(ToPreambleLines(config)) + Concat(ToEntries(config, config.sourceType.fields)) + "\t}\n}\n\n"
  {
    ToBodyEntries(config, config.sourceType.fields);
  }

  /**
   * Entry k of `To` is keyed by the k-th source field's own name; when that
   * field is omitted its value is the zero value of its source type.
   */
  lemma ToEntryKeyed(config: MappingConfig, fields: seq<FieldInfo>, k: nat)
    requires k < |fields|
    ensures HasPrefix(ToEntries(config, fields)[k], "\t\t" + fields[k].name + ": ")
    ensures Omitted(config, fields[k].name) ==>
              ToEntries(config, fields)[k] == "\t\t" + fields[k].name + ": " + ZeroValue(fields[k].fieldType) + ",\n"
  {
    MapAt(sf => ToEntry(config, sf), fields, k);
    var key := "\t\t" + fields[k].name + ": ";
    AppendAssoc(key, ToValue(config, fields[k]), ",\n");
    HasPrefixConcat(key, ToValue(config, fields[k]) + ",\n");
  }

  // ---- The import block ----

  /** The quoted import lines of an import block, in list order. */
  function ImportLines(imports: seq<string>): (lines: seq<string>)
    ensures |lines| == |imports|
  {
    Map(imp => "\t\"" + imp + "\"", imports)
  }

  lemma ImportLineSplit(imp: string)
    requires NoNewline(imp)
    ensures ImportLine(imp) == "\t\"" + imp + "\"" + "\n" && NoNewline("\t\"" + imp + "\"")
  {
    AppendAssoc("\t\"" + imp, "\"", "\n");
  }

  /** The import lines, followed by any text, split into one line per import path. */
  lemma {:induction false} ImportBodyLines(imports: seq<string>, tail: string)
    requires forall k :: 0 <= k < |imports| ==> NoNewline(imports[k])
    ensures SplitLines(ImportBody(imports) + tail) == ImportLines(imports) + SplitLines(tail)
    decreases |imports|
  {
    if imports == [] {
      assert ImportBody(imports) + tail == tail;
    } else {
      var n := |imports| - 1;
      var init, last := imports[..n], imports[n];
      var l := "\t\"" + last + "\"";
      var before := ImportLines(init);
      assert forall k :: 0 <= k < |init| ==> NoNewline(init[k]) by {
        forall k | 0 <= k < |init| ensures NoNewline(init[k]) {
          assert init[k] == imports[k];
        }
      }
      ImportLineSplit(last);
      calc {
        SplitLines(ImportBody(imports) + tail);
        SplitLines((ImportBody(init) + (l + "\n")) + tail);
        { AppendAssoc(ImportBody(init), l + "\n", tail); }
        SplitLines(ImportBody(init) + (l + "\n" + tail));
        { ImportBodyLines(init, l + "\n" + tail); }
        before + SplitLines(l + "\n" + tail);
        { SplitLinesStep(l, tail); }
        before + ([l] + SplitLines(tail));
        { AppendAssoc(before, [l], SplitLines(tail)); }
        (before + [l]) + SplitLines(tail);
        { MapAppend(imp => "\t\"" + imp + "\"", init, last); assert imports == init + [last]; }
        ImportLines(imports) + SplitLines(tail);
      }
    }
  }

  /**
   * A non-empty import block, line by line: the opening line, one quoted line
   * per import path in list order, the closing parenthesis and a blank line.
   * With no imports the block is empty.
   */
  lemma ImportBlockLines(imports: seq<string>)
    requires forall k :: 0 <= k < |imports| ==> NoNewline(imports[k])
    ensures imports == [] ==> ImportBlock(imports) == ""
    ensures imports != [] ==>
              SplitLines(ImportBlock(imports)) == ["import ("] + ImportLines(imports) + [")", "", ""]
  {
    if imports != [] {
      var body := ImportBody(imports);
      ClosingLines(")");
      assert ")" + "\n\n" == ")\n\n";
      calc {
        SplitLines(ImportBlock(imports));
        { assert "import (\n" == "import (" + "\n"; }
        SplitLines(("import (" + "\n" + body) + ")\n\n");
        { AppendAssoc("import (" + "\n", body, ")\n\n"); }
        SplitLines("import (" + "\n" + (body + ")\n\n"));
        { SplitLinesStep("import (", body + ")\n\n"); }
        ["import ("] + SplitLines(body + ")\n\n");
        { ImportBodyLines(imports, ")\n\n"); }
        ["import ("] + (ImportLines(imports) + [")", "", ""]);
        { AppendAssoc(["import ("], ImportLines(imports), [")", "", ""]); }
        ["import ("] + ImportLines(imports) + [")", "", ""];
      }
    }
  }

  /** The import list is empty exactly when there is nothing to import. */
  lemma NoImportsIffEmptySet(imports: seq<string>, config: MappingConfig)
    requires IsImportList(imports, config)
    ensures imports == [] <==> ImportSet(config) == {}
  {
    if imports != [] {
      assert imports[0] in (set x | x in imports);
      assert imports[0] in ImportSet(config);
    } else {
      assert (set x | x in imports) == {};
    }
  }

  /** "time.Duration" does not contain "time.Time". */
  lemma DurationIsNotTime()
    ensures !Contains("time.Duration", "time.Time")
  {
    var s, p := "time.Duration", "time.Time";
    NotPrefixAt(s, p, 5);
    NotPrefixAt(s[1..], p, 0);
    NotPrefixAt(s[2..], p, 0);
    NotPrefixAt(s[3..], p, 0);
    NotPrefixAt(s[4..], p, 0);
    ShortNotContained(s[5..], p);
    assert s[1..][1..] == s[2..] && s[2..][1..] == s[3..] && s[3..][1..] == s[4..] && s[4..][1..] == s[5..];
  }

  /**
   * Only a type spelling containing "time.Time" brings in the "time" import: a
   * configuration whose fields are all durations, with no source package path,
   * imports nothing although the emitted struct names time.Duration.
   */
  lemma DurationNotImported(config: MappingConfig)
    requires config.sourceType.packagePath == ""
    requires forall f :: f in config.sourceType.fields ==> f.fieldType == "time.Duration"
    requires forall f :: f in config.targetType.fields ==> f.fieldType == "time.Duration"
    ensures ImportSet(config) == {}
  {
    DurationIsNotTime();
  }
}
