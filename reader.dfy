/**
 * The reader's classification of Go type expressions (internal/reader/reader.go):
 * rendering a type expression as text, the pointer / slice / nested flags, the
 * conversion of a struct's field list into FieldInfo records, and the search of a
 * parsed file for a named struct.  The Go syntax tree is modelled by `Expr`; how
 * it is obtained (package lookup, parsing, reflection) is not part of this model.
 */
module Reader {
  import opened Wrappers
  import opened Types
  import opened GoStrings

  datatype ChanDir = SendRecv | SendOnly | RecvOnly

  /** The go/ast type-expression nodes the reader distinguishes. */
  datatype Expr =
    | Ident(name: string)
    | StarExpr(x: Expr)
    | ArrayType(len: Option<string>, elt: Expr)      // `len` is None for a slice
    | MapType(key: Expr, value: Expr)
    | SelectorExpr(x: Expr, sel: string)
    | StructType(fieldList: seq<Field>)
    | InterfaceType(methodCount: nat)                // 0 for a nil or empty method list
    | FuncType
    | ChanType(dir: ChanDir, value: Expr)
    | OtherExpr(nodeType: string)                    // any other node, by its Go type, e.g. "*ast.IndexExpr"

  /** One entry of a struct's field list: `A, B T`; an embedded field has no names. */
  datatype Field = Field(names: seq<string>, typ: Expr)

  datatype TypeSpec = TypeSpec(name: string, typ: Expr)

  /** A parsed file: its package name and its type specs in the order ast.Inspect visits them. */
  datatype File = File(packageName: string, typeSpecs: seq<TypeSpec>)

  /** getTypeName (reader.go:200-228): the textual form of a type expression. */
  function GetTypeName(e: Expr): (r: string)
    ensures e.StarExpr? ==> HasPrefix(r, "*")
    ensures e.ArrayType? ==> HasPrefix(r, "[]")
    ensures e.MapType? ==> HasPrefix(r, "map[")
    ensures e.SelectorExpr? ==> '.' in r
  {
    match e
    case Ident(n) => n
    case StarExpr(x) => HasPrefixConcat("*", GetTypeName(x)); "*" + GetTypeName(x)
    case ArrayType(_, elt) => HasPrefixConcat("[]", GetTypeName(elt)); "[]" + GetTypeName(elt)
    case MapType(k, v) =>
      HasPrefixConcat("map[", GetTypeName(k) + "]" + GetTypeName(v));
      AppendAssoc("map[" + GetTypeName(k), "]", GetTypeName(v));
      AppendAssoc("map[", GetTypeName(k), "]" + GetTypeName(v));
      "map[" + GetTypeName(k) + "]" + GetTypeName(v)
    case SelectorExpr(x, sel) => GetTypeName(x) + "." + sel
    case StructType(_) => "struct{...}"
    case InterfaceType(m) => if m == 0 then "interface{}" else "interface{...}"
    case FuncType => "func(...)"
    case ChanType(_, v) => "chan " + GetTypeName(v)
    case OtherExpr(t) => "unknown<" + t + ">"
  }

  /** The pointer flag (reader.go:131-132): a pointer is spelled with a leading `*`. */
  predicate IsPointer(e: Expr)
    ensures IsPointer(e) ==> HasPrefix(GetTypeName(e), "*")
  {
    e.StarExpr?
  }

  /**
   * The slice flag (reader.go:133-135): every array type, whether or not it
   * has a length, is flagged and spelled as a slice.
   */
  predicate IsSlice(e: Expr)
    ensures IsSlice(e) ==> HasPrefix(GetTypeName(e), "[]")
  {
    e.ArrayType?
  }

  /** The identifiers isStructType treats as basic (reader.go:145-150). */
  const BasicTypes: set<string> :=
    {"string", "int", "int8", "int16", "int32", "int64",
     "uint", "uint8", "uint16", "uint32", "uint64",
     "float32", "float64", "bool", "byte", "rune",
     "complex64", "complex128", "error"}

  /** The qualified names isStructType treats as opaque library types (reader.go:155-158). */
  const StdlibTypes: set<string> := {"time.Time", "time.Duration"}

  /** isStructType (reader.go:139-175). */
  predicate IsStructType(e: Expr)
    ensures IsStructType(e) ==> Element(e).StructType? || Element(e).Ident? || Element(e).SelectorExpr?
  {
    match e
    case StructType(_) => true
    case Ident(n) => n !in BasicTypes
    case SelectorExpr(_, _) => GetTypeName(e) !in StdlibTypes
    case StarExpr(x) => IsStructType(x)
    case ArrayType(_, elt) => IsStructType(elt)
    case _ => false
  }

  /** The type left after removing every pointer and slice wrapper. */
  function Element(e: Expr): Expr
  {
    match e
    case StarExpr(x) => Element(x)
    case ArrayType(_, elt) => Element(elt)
    case _ => e
  }

  /** The type left after removing every pointer wrapper. */
  function Deref(e: Expr): Expr
  {
    if e.StarExpr? then Deref(e.x) else e
  }

  /** getStructType (reader.go:189-198): the struct literal under any number of pointers. */
  function GetStructType(e: Expr): (r: Option<Expr>)
    ensures r.Some? <==> Deref(e).StructType?
    ensures r.Some? ==> r.value == Deref(e) && IsStructType(e)
  {
    match e
    case StructType(_) => Some(e)
    case StarExpr(x) => GetStructType(x)
    case _ => None
  }

  /** The record extractFields builds for one declared name (reader.go:108-116). */
  function Classified(name: string, typ: Expr): FieldInfo
  {
    FieldInfo(name, GetTypeName(typ), false, IsStructType(typ), IsSlice(typ), IsPointer(typ))
  }

  /** The records for the names of one field-list entry, in order. */
  function DeclInfos(names: seq<string>, typ: Expr): (r: seq<FieldInfo>)
    ensures |r| == |names|
    ensures forall j :: 0 <= j < |names| ==> r[j] == Classified(names[j], typ)
  {
    seq(|names|, j requires 0 <= j < |names| => Classified(names[j], typ))
  }

  /** The number of names a field list declares. */
  function NameCount(fieldList: seq<Field>): nat
  {
    if fieldList == [] then 0
    else NameCount(fieldList[..|fieldList| - 1]) + |fieldList[|fieldList| - 1].names|
  }

  /** The field records of a whole field list, in declaration order. */
  function FieldInfos(fieldList: seq<Field>): (r: seq<FieldInfo>)
    ensures |r| == NameCount(fieldList)
  {
    if fieldList == [] then []
    else
      var n := |fieldList| - 1;
      FieldInfos(fieldList[..n]) + DeclInfos(fieldList[n].names, fieldList[n].typ)
  }

  /** extractFields (reader.go:103-123). */
  method ExtractFields(fieldList: seq<Field>) returns (fields: seq<FieldInfo>)
    ensures fields == FieldInfos(fieldList)
  {
    fields := [];
    for i := 0 to |fieldList|
      invariant fields == FieldInfos(fieldList[..i])
    {
      var field := fieldList[i];
      for j := 0 to |field.names|
        invariant fields == FieldInfos(fieldList[..i]) + DeclInfos(field.names[..j], field.typ)
      {
        var info := FieldInfo(field.names[j], GetTypeName(field.typ), false, false, false, false);
        info := info.(isPointer := IsPointer(field.typ));
        info := info.(isSlice := IsSlice(field.typ));
        info := info.(isNested := IsStructType(field.typ));
        assert DeclInfos(field.names[..j + 1], field.typ) == DeclInfos(field.names[..j], field.typ) + [info];
        fields := fields + [info];
      }
      assert field.names[..|field.names|] == field.names;
      TakeTake(fieldList, i);
    }
    assert fieldList[..|fieldList|] == fieldList;
  }

  /** A type spec findStructInFile accepts: the requested name and a struct literal. */
  predicate MatchesStruct(spec: TypeSpec, typeName: string) {
    spec.name == typeName && spec.typ.StructType?
  }

  /** The position of the last accepted type spec, if any. */
  function LastMatch(specs: seq<TypeSpec>, typeName: string): (r: Option<nat>)
    ensures r.Some? ==> r.value < |specs| && MatchesStruct(specs[r.value], typeName)
    ensures r.Some? ==> forall k :: r.value < k < |specs| ==> !MatchesStruct(specs[k], typeName)
    ensures r.None? ==> forall k :: 0 <= k < |specs| ==> !MatchesStruct(specs[k], typeName)
  {
    if specs == [] then None
    else
      var n := |specs| - 1;
      if MatchesStruct(specs[n], typeName) then Some(n) else LastMatch(specs[..n], typeName)
  }

  /**
   * The struct findStructInFile reports.  ast.Inspect goes on visiting the
   * remaining nodes after the callback returns false (that only skips the
   * node's children), so a later accepted spec overwrites an earlier one.
   */
  function StructInFile(file: File, typeName: string): (r: Option<StructInfo>)
    ensures r.Some? <==> exists k :: 0 <= k < |file.typeSpecs| && MatchesStruct(file.typeSpecs[k], typeName)
    ensures r.Some? ==> r.value.typeName == typeName && r.value.packageName == file.packageName
                        && r.value.packagePath == ""
  {
    match LastMatch(file.typeSpecs, typeName)
    case None => None
    case Some(i) =>
      Some(StructInfo(file.packageName, "", typeName, FieldInfos(file.typeSpecs[i].typ.fieldList)))
  }

  /** findStructInFile (reader.go:77-101), the callback applied to every visited type spec. */
  method FindStructInFile(file: File, typeName: string) returns (result: Option<StructInfo>)
    ensures result == StructInFile(file, typeName)
    ensures result.Some? <==>
              exists k :: 0 <= k < |file.typeSpecs| && MatchesStruct(file.typeSpecs[k], typeName)
  {
    result := None;
    for i := 0 to |file.typeSpecs|
      invariant result == StructInFile(File(file.packageName, file.typeSpecs[..i]), typeName)
    {
      TakeTake(file.typeSpecs, i);
      var typeSpec := file.typeSpecs[i];
      if typeSpec.name != typeName {
        continue;
      }
      if !typeSpec.typ.StructType? {
        continue;
      }
      var fields := ExtractFields(typeSpec.typ.fieldList);
      result := Some(StructInfo(file.packageName, "", typeName, fields));
    }
    assert file.typeSpecs[..|file.typeSpecs|] == file.typeSpecs;
    if result.None? {
      assert forall k :: 0 <= k < |file.typeSpecs| ==> !MatchesStruct(file.typeSpecs[k], typeName);
    }
  }

  // ---- Properties ----

  /** isStructType sees through every pointer and slice wrapper. */
  lemma {:induction false} IsStructTypeOfElement(e: Expr)
    ensures IsStructType(e) == IsStructType(Element(e))
    ensures !Element(e).StarExpr? && !Element(e).ArrayType?
  {
    match e
    case StarExpr(x) => IsStructTypeOfElement(x);
    case ArrayType(_, elt) => IsStructTypeOfElement(elt);
    case _ =>
  }

  /**
   * The nested flag in terms of the element type: a struct literal, an identifier
   * outside the basic list, or a qualified name other than time.Time and
   * time.Duration; never a map, interface, function or channel.
   */
  lemma NestedIffElementIsRecord(e: Expr)
    ensures IsStructType(e) <==>
              var el := Element(e);
              || el.StructType?
              || (el.Ident? && el.name !in BasicTypes)
              || (el.SelectorExpr? && GetTypeName(el) !in StdlibTypes)
  {
    IsStructTypeOfElement(e);
  }

  lemma {:induction false} FieldInfosAppend(a: seq<Field>, b: seq<Field>)
    ensures FieldInfos(a + b) == FieldInfos(a) + FieldInfos(b)
    ensures NameCount(a + b) == NameCount(a) + NameCount(b)
    decreases |b|
  {
    if b == [] {
      AppendEmpty(a);
    } else {
      var n := |b| - 1;
      var last := DeclInfos(b[n].names, b[n].typ);
      AppendInit(a, b);
      FieldInfosAppend(a, b[..n]);
      assert FieldInfos(a + b) == FieldInfos(a + b[..n]) + last;
      assert FieldInfos(b) == FieldInfos(b[..n]) + last;
    }
  }

  /**
   * extractFields yields one record per declared name, in declaration order:
   * the j-th name of the i-th entry is record number NameCount(entries before i) + j.
   */
  /** The records of a field list, split around its i-th entry. */
  lemma FieldInfosAround(fieldList: seq<Field>, i: nat)
    requires i < |fieldList|
    ensures FieldInfos(fieldList)
            == FieldInfos(fieldList[..i]) + DeclInfos(fieldList[i].names, fieldList[i].typ)
               + FieldInfos(fieldList[i + 1..])
  {
    var pre, mid, post := fieldList[..i], [fieldList[i]], fieldList[i + 1..];
    SplitAround(fieldList, i);
    FieldInfosAppend(pre + mid, post);
    FieldInfosAppend(pre, mid);
    assert mid[..0] == [];
  }

  lemma {:induction false} FieldInfosLayout(fieldList: seq<Field>, i: nat, j: nat)
    requires i < |fieldList| && j < |fieldList[i].names|
    ensures NameCount(fieldList[..i]) + j < |FieldInfos(fieldList)|
    ensures FieldInfos(fieldList)[NameCount(fieldList[..i]) + j]
            == Classified(fieldList[i].names[j], fieldList[i].typ)
  {
    FieldInfosAround(fieldList, i);
    var a, d, b := FieldInfos(fieldList[..i]), DeclInfos(fieldList[i].names, fieldList[i].typ),
                   FieldInfos(fieldList[i + 1..]);
    IndexInMiddle(a, d, b, j);
  }

  lemma IndexInMiddle<T>(a: seq<T>, d: seq<T>, b: seq<T>, j: nat)
    requires j < |d|
    ensures |a| + j < |a + d + b| && (a + d + b)[|a| + j] == d[j]
  {
  }

  /** Names declared together (`A, B T`) get the same type text and the same flags. */
  lemma SharedDeclaration(fieldList: seq<Field>, i: nat, j1: nat, j2: nat)
    requires i < |fieldList| && j1 < |fieldList[i].names| && j2 < |fieldList[i].names|
    ensures var fs, at := FieldInfos(fieldList), NameCount(fieldList[..i]);
      && at + j1 < |fs| && at + j2 < |fs|
      && fs[at + j1].name == fieldList[i].names[j1] && fs[at + j2].name == fieldList[i].names[j2]
      && fs[at + j1].fieldType == fs[at + j2].fieldType
      && fs[at + j1].isNested == fs[at + j2].isNested
      && fs[at + j1].isSlice == fs[at + j2].isSlice
      && fs[at + j1].isPointer == fs[at + j2].isPointer
  {
    FieldInfosLayout(fieldList, i, j1);
    FieldInfosLayout(fieldList, i, j2);
  }

  /** An embedded field (an entry without names) contributes no record. */
  lemma EmbeddedFieldIgnored(a: seq<Field>, typ: Expr, b: seq<Field>)
    ensures FieldInfos(a + [Field([], typ)] + b) == FieldInfos(a + b)
  {
    FieldInfosAppend(a + [Field([], typ)], b);
    FieldInfosAppend(a, [Field([], typ)]);
    FieldInfosAppend(a, b);
    assert [Field([], typ)][..0] == [];
  }

  /**
   * When the file holds exactly one accepted spec for the name, the reported
   * struct is built from it; same-named specs that are not struct literals are skipped.
   */
  lemma UniqueMatchFound(file: File, typeName: string, i: nat)
    requires i < |file.typeSpecs| && MatchesStruct(file.typeSpecs[i], typeName)
    requires forall k :: 0 <= k < |file.typeSpecs| && k != i ==> !MatchesStruct(file.typeSpecs[k], typeName)
    ensures StructInFile(file, typeName)
            == Some(StructInfo(file.packageName, "", typeName, FieldInfos(file.typeSpecs[i].typ.fieldList)))
  {
  }

  /** Nothing is reported when no spec with the name is a struct literal. */
  lemma NoMatchIsNil(file: File, typeName: string)
    requires forall k :: 0 <= k < |file.typeSpecs| && file.typeSpecs[k].name == typeName ==>
               !file.typeSpecs[k].typ.StructType?
    ensures StructInFile(file, typeName) == None
  {
  }
}
