/**
 * The argument order of the value-case nested conversion in `From`
 * (generator.go:387-394).  The template's second line is meant to build the
 * field's type from the source field, `(&T{}).From(&src.N)`, but the format
 * arguments arrive as type, name, type, type, so the line reads
 * `(&N{}).From(&src.T)`.  The two agree only when a field is named after its
 * type.  FromCall reads such a line back into the type it constructs and the
 * expression it converts.
 */
module Findings {
  import opened Wrappers
  import opened Types
  import opened GoStrings
  import opened Generator
  import Conversions

  /** The value-case template as the source fills it in. */
  function NestedValueLinesAsWritten(name: string, typ: string): seq<string>
  {
    ["func() " + typ + " {",
     "\t\tresult := (&" + name + "{}).From(&src." + typ + ")",
     "\t\tif result != nil {",
     "\t\t\treturn *result",
     "\t\t}",
     "\t\treturn " + typ + "{}",
     "\t}()"]
  }

  /** The text of a conversion call line before the type and between the type and the argument. */
  const CallHead := "\t\tresult := (&"
  const CallMid := "{}).From(&"

  /** Reads `\t\tresult := (&T{}).From(&A)` into the constructed type T and the argument A. */
  function FromCall(line: string): Option<(string, string)>
  {
    if !HasPrefix(line, CallHead) || |line| < |CallHead| + 1 || line[|line| - 1] != ')' then None
    else
      var mid := line[|CallHead|..|line| - 1];
      var i := IndexOf(mid, '{');
      if i < 0 || !HasPrefix(mid[i..], CallMid) then None
      else Some((mid[..i], mid[i + |CallMid|..]))
  }

  /** How a line `head + typ + call + arg + ")"` comes apart when `call` opens with the first brace. */
  lemma CallParts(head: string, typ: string, call: string, arg: string)
    requires |call| > 0 && call[0] == '{' && '{' !in typ
    ensures var line, mid := head + typ + call + arg + ")", typ + call + arg;
      && |line| == |head| + |mid| + 1 && line[..|head|] == head && line[|line| - 1] == ')'
      && line[|head|..|line| - 1] == mid
      && IndexOf(mid, '{') == |typ| && mid[|typ|..] == call + arg
      && mid[..|typ|] == typ && mid[|typ| + |call|..] == arg
  {
    var line, mid := head + typ + call + arg + ")", typ + call + arg;
    assert line == head + mid + ")";
    assert line[..|head|] == head;
    assert line[|head|..|line| - 1] == mid;
    assert mid == typ + [call[0]] + (call[1..] + arg);
    IndexAfter(typ, '{', call[1..] + arg);
    assert mid[|typ|..] == call + arg;
    assert mid[..|typ|] == typ;
  }

  /** A conversion call line reads back into its type and its argument. */
  lemma FromCallRoundTrip(typ: string, arg: string)
    requires '{' !in typ
    ensures FromCall(CallHead + typ + CallMid + arg + ")") == Some((typ, arg))
  {
    assert |CallMid| == 10 && CallMid[0] == '{';
    CallParts(CallHead, typ, CallMid, arg);
    HasPrefixConcat(CallHead, typ + CallMid + arg + ")");
    assert CallHead + typ + CallMid + arg + ")" == CallHead + (typ + CallMid + arg + ")");
    HasPrefixConcat(CallMid, arg);
  }

  lemma SourceCallSplit(typ: string, name: string)
    ensures "\t\tresult := (&" + typ + "{}).From(&src." + name + ")"
            == CallHead + typ + CallMid + ("src." + name) + ")"
  {
    AppendAssoc(CallHead + typ + CallMid, "src.", name);
    assert "{}).From(&src." == CallMid + "src.";
    AppendAssoc(CallHead + typ, CallMid, "src.");
  }

  /** As intended: the value case builds the field's type from the source field. */
  lemma NestedValueConvertsField(name: string, typ: string)
    requires '{' !in typ
    ensures FromCall(NestedValueLines(name, typ)[1]) == Some((typ, "src." + name))
  {
    SourceCallSplit(typ, name);
    FromCallRoundTrip(typ, "src." + name);
  }

  /** As written: the value case builds a type named after the field from a selector named after the type. */
  lemma NestedValueAsWrittenSwapped(name: string, typ: string)
    requires '{' !in name
    ensures FromCall(NestedValueLinesAsWritten(name, typ)[1]) == Some((name, "src." + typ))
  {
    SourceCallSplit(name, typ);
    FromCallRoundTrip(name, "src." + typ);
  }

  /** The written and the intended template coincide exactly for a field named after its type. */
  lemma AsWrittenAgreesIffSameName(name: string, typ: string)
    requires '{' !in name && '{' !in typ
    ensures NestedValueLinesAsWritten(name, typ) == NestedValueLines(name, typ) <==> name == typ
  {
    NestedValueConvertsField(name, typ);
    NestedValueAsWrittenSwapped(name, typ);
    if NestedValueLinesAsWritten(name, typ) == NestedValueLines(name, typ) {
      assert NestedValueLinesAsWritten(name, typ)[1] == NestedValueLines(name, typ)[1];
    }
  }

  /**
   * The field `Settings UserSettings` (examples/everything/api/models.go:18):
   * the line the source emits converts `src.UserSettings` into a `Settings`,
   * not `src.Settings` into a `UserSettings`.
   */
  lemma SettingsFieldMisread()
    ensures FromCall(NestedValueLinesAsWritten("Settings", "UserSettings")[1]) == Some(("Settings", "src." + "UserSettings"))
    ensures FromCall(NestedValueLines("Settings", "UserSettings")[1]) == Some(("UserSettings", "src." + "Settings"))
    ensures NestedValueLinesAsWritten("Settings", "UserSettings") != NestedValueLines("Settings", "UserSettings")
  {
    var name, typ := "Settings", "UserSettings";
    assert '{' !in name && '{' !in typ;
    NestedValueAsWrittenSwapped(name, typ);
    NestedValueConvertsField(name, typ);
    assert |name| == 8 && |typ| == 12;
    AsWrittenAgreesIffSameName(name, typ);
  }

  /** generateNestedMapping with the value case as the source fills it in. */
  function NestedMappingAsWritten(sf: FieldInfo, tf: FieldInfo, config: MappingConfig): string
  {
    var typ := TrimPrefix(CleanTypeName(tf.fieldType, config), "*");
    if sf.isPointer then JoinLines(NestedPointerLines(sf.name, typ))
    else JoinLines(NestedValueLinesAsWritten(sf.name, typ))
  }

  /**
   * The template as written does not convert `src.<name>` into a `typ`, for any
   * field not named after its type: its second line is not the conversion the
   * closure needs.
   */
  lemma AsWrittenMisconverts(name: string, typ: string)
    requires NoNewline(name) && NoNewline(typ) && '{' !in name && '{' !in typ && name != typ
    ensures !Conversions.Performs(JoinLines(NestedValueLinesAsWritten(name, typ)), "src." + name,
                                  Conversions.FromStruct(typ))
  {
    var w := NestedValueLinesAsWritten(name, typ);
    var intended := Conversions.Closure(Conversions.FromStruct(typ), "src." + name);
    Conversions.SourceCalls(typ, name);
    Conversions.SourceCalls(name, typ);
    Conversions.FixedLinesSingle();
    Conversions.BuiltLinesSingle(typ, "src." + typ);
    Conversions.BuiltLinesSingle(name, "src." + typ);
    SplitJoin(w);
    NestedValueAsWrittenSwapped(name, typ);
    NestedValueConvertsField(name, typ);
    assert w[1] != intended[1];
  }

  lemma TrimKeepsOut(s: string, p: string, c: char)
    requires c !in s
    ensures c !in TrimPrefix(s, p)
  {
    if HasPrefix(s, p) {
      assert s == p + TrimPrefix(s, p);
    }
  }

  /**
   * A kept nested field held by value whose name differs from its local type:
   * the `From` entry the source emits for it does not perform the conversion
   * the field needs, while the corrected entry does.
   */
  lemma AsWrittenEntryMisconverts(config: MappingConfig, sf: FieldInfo)
    requires !Omitted(config, sf.name) && !sf.isSlice && sf.isNested && !sf.isPointer
    requires NoNewline(sf.name) && NoNewline(sf.fieldType) && '{' !in sf.name && '{' !in sf.fieldType
    requires sf.name != Conversions.Spelling(Conversions.ForwardConversion(config, sf))
    ensures !Conversions.Performs(NestedMappingAsWritten(sf, PseudoTarget(config, sf), config), "src." + sf.name,
                                  Conversions.ForwardConversion(config, sf))
    ensures Conversions.Performs(GenerateFieldMapping(sf, PseudoTarget(config, sf), config), "src." + sf.name,
                                 Conversions.ForwardConversion(config, sf))
  {
    var tf := PseudoTarget(config, sf);
    var local := CleanTypeName(tf.fieldType, config);
    var typ := TrimPrefix(local, "*");
    Conversions.CleanKeepsNoNewline(sf.fieldType, config);
    Conversions.CleanKeepsNoNewline(tf.fieldType, config);
    Conversions.TrimKeepsNoNewline(local, "*");
    TrimKeepsOut(local, "*", '{');
    assert Conversions.ForwardConversion(config, sf) == Conversions.FromStruct(typ);
    AsWrittenMisconverts(sf.name, typ);
    Conversions.ForwardClassified(config, sf);
  }
}
