/**
 * How the reader's classification of a field meets the generator's: the
 * reader renders a type expression as text and flags it, and the generator
 * decides from that text alone which zero value an omitted field gets and
 * whether an element type needs a conversion of its own.
 */
module Classification {
  import opened Wrappers
  import opened Types
  import opened GoStrings
  import opened Reader
  import opened Generator
  import opened Conversions

  /** An ASCII Go identifier: a letter or `_` followed by letters, digits and `_`. */
  predicate IsIdentifier(n: string) {
    n != [] && (n[0] == '_' || 'a' <= n[0] <= 'z' || 'A' <= n[0] <= 'Z') &&
    forall i :: 0 <= i < |n| ==> n[i] == '_' || 'a' <= n[i] <= 'z' || 'A' <= n[i] <= 'Z' || '0' <= n[i] <= '9'
  }

  /** A type expression a Go parser can produce: named types are identifiers, qualified by a package identifier. */
  predicate WellFormed(e: Expr) {
    match e
    case Ident(n) => IsIdentifier(n)
    case StarExpr(x) => WellFormed(x)
    case ArrayType(_, elt) => WellFormed(elt)
    case MapType(k, v) => WellFormed(k) && WellFormed(v)
    case SelectorExpr(x, sel) => x.Ident? && IsIdentifier(x.name) && IsIdentifier(sel)
    case ChanType(_, v) => WellFormed(v)
    case _ => true
  }

  // ---- Zero values ----

  /** The names of zeroValue's table all start with a lower-case letter. */
  lemma TableNamesAreWords(t: string)
    requires t in ZeroTable
    ensures t != [] && 'a' <= t[0] <= 'z' && t != "map" && !HasPrefix(t, "map[")
  {
  }

  /** A spelling that opens with neither `*` nor `[` and holds no `[` is no reference spelling. */
  lemma NotReference(t: string)
    requires t != [] && t[0] != '*' && t[0] != '[' && '[' !in t
    ensures !IsReferenceSpelling(t)
  {
    if |t| >= 4 {
      assert t[3] in t && t[..4][3] == t[3];
    }
  }

  /** zeroValue yields nil exactly for pointer, slice and map spellings. */
  lemma ZeroNilIffReference(t: string)
    ensures ZeroValue(t) == "nil" <==> IsReferenceSpelling(t)
  {
    if t in ZeroTable {
      TableNamesAreWords(t);
      NotReference(t);
    }
  }

  /** The text of a well-formed type other than a pointer, slice or map is no reference spelling. */
  lemma NamedSpelling(e: Expr)
    requires WellFormed(e) && !e.StarExpr? && !e.ArrayType? && !e.MapType?
    ensures !IsReferenceSpelling(GetTypeName(e))
  {
    if e.Ident? {
      IdentifierHasNoBracket(e.name);
      NotReference(e.name);
    } else if e.SelectorExpr? {
      SelectorSpelling(e.x.name, e.sel);
    } else {
      LiteralSpelling(e);
    }
  }

  lemma SelectorSpelling(pkg: string, sel: string)
    requires IsIdentifier(pkg) && IsIdentifier(sel)
    ensures !IsReferenceSpelling(GetTypeName(SelectorExpr(Ident(pkg), sel)))
  {
    IdentifierHasNoBracket(pkg);
    IdentifierHasNoBracket(sel);
    var s := pkg + "." + sel;
    assert s[0] == pkg[0];
    NotReference(s);
  }

  /** The fixed spellings of struct, interface, function, channel and unknown types. */
  lemma LiteralSpelling(e: Expr)
    requires e.StructType? || e.InterfaceType? || e.FuncType? || e.ChanType? || e.OtherExpr?
    ensures !IsReferenceSpelling(GetTypeName(e))
  {
    var s := GetTypeName(e);
    var head := if e.StructType? then "struct{...}"
      else if e.InterfaceType? then (if e.methodCount == 0 then "interface{}" else "interface{...}")
      else if e.FuncType? then "func(...)"
      else if e.ChanType? then "chan " else "unknown<";
    assert HasPrefix(s, head) by {
      if e.ChanType? { HasPrefixConcat("chan ", GetTypeName(e.value)); }
      else if e.OtherExpr? {
        HasPrefixConcat("unknown<", e.nodeType);
        HasPrefixConcat("unknown<" + e.nodeType, ">");
        assert (s)[..8] == ("unknown<" + e.nodeType)[..8];
      }
    }
    assert s[..|head|] == head && |head| >= 5;
    assert s[0] == head[0] && s[1] == head[1] && s[2] == head[2] && s[3] == head[3];
    assert s[..4][3] == s[3];
  }

  lemma IdentifierHasNoBracket(n: string)
    requires IsIdentifier(n)
    ensures n != [] && n[0] != '*' && n[0] != '[' && '[' !in n && '.' !in n && NoNewline(n)
  {
  }

  /** An omitted field's zero value in `To` is nil exactly when the reader saw a pointer, slice or map. */
  lemma OmittedZeroIsNil(e: Expr)
    requires WellFormed(e)
    ensures ZeroValue(GetTypeName(e)) == "nil" <==> e.StarExpr? || e.ArrayType? || e.MapType?
  {
    var s := GetTypeName(e);
    ZeroNilIffReference(s);
    match e
    case StarExpr(x) => HasPrefixConcat("*", GetTypeName(x));
    case ArrayType(_, elt) => HasPrefixConcat("[]", GetTypeName(elt));
    case MapType(k, v) =>
      HasPrefixConcat("map[", GetTypeName(k));
      PrefixExtends("map[" + GetTypeName(k), "map[", "]");
      PrefixExtends("map[" + GetTypeName(k) + "]", "map[", GetTypeName(v));
    case _ => NamedSpelling(e);
  }

  /**
   * The spelling shows the outermost wrapper: it starts with `*` exactly for a
   * pointer, with `[]` exactly for a slice or array and with `map[` exactly for
   * a map, which is what the generator's prefix tests rely on.
   */
  lemma SpellingShowsShape(e: Expr)
    requires WellFormed(e)
    ensures HasPrefix(GetTypeName(e), "*") <==> IsPointer(e)
    ensures HasPrefix(GetTypeName(e), "[]") <==> IsSlice(e)
    ensures HasPrefix(GetTypeName(e), "map[") <==> e.MapType?
  {
    var s := GetTypeName(e);
    match e
    case StarExpr(_) => LeadingChar(s, '*');
    case ArrayType(_, _) => LeadingChar(s, '[');
    case MapType(_, _) => LeadingChar(s, 'm');
    case _ => NamedSpelling(e);
  }

  /** Which of the three wrapper prefixes a text can carry is decided by its first character. */
  lemma LeadingChar(s: string, c: char)
    requires s != [] && s[0] == c
    ensures HasPrefix(s, "*") ==> c == '*'
    ensures HasPrefix(s, "[]") ==> c == '['
    ensures HasPrefix(s, "map[") ==> c == 'm'
  {
  }

  // ---- Which types need a conversion ----

  /** A name without wrappers or a qualifier is its own primitive key and is no library type. */
  lemma PlainKey(n: string)
    requires n != [] && n[0] != '*' && n[0] != '[' && n[0] != ']' && '.' !in n
    ensures PrimitiveKey(n) == n && !IsBuiltinType(n)
  {
    assert n[0] !in "*[]";
    assert TrimLeft(n, "*[]") == n;
    assert LastIndexOf(n, '.') == -1;
    assert '.' in "time.Time" && '.' in "time.Duration";
  }

  /** Leading pointer and slice markers are skipped before either table is consulted. */
  lemma MarkersIgnored(markers: string, t: string)
    requires forall k | 0 <= k < |markers| :: markers[k] in "*[]"
    requires t == [] || t[0] !in "*[]"
    ensures IsPrimitiveType(markers + t) == IsPrimitiveType(t)
    ensures IsBuiltinType(markers + t) == IsBuiltinType(t)
  {
    TrimMarkers(markers, t);
    SameTrim(markers + t, t);
  }

  /** Both tables look only at a type with its leading markers trimmed. */
  lemma SameTrim(a: string, b: string)
    requires TrimLeft(a, "*[]") == TrimLeft(b, "*[]")
    ensures IsPrimitiveType(a) == IsPrimitiveType(b) && IsBuiltinType(a) == IsBuiltinType(b)
  {
    assert PrimitiveKey(a) == PrimitiveKey(b);
  }

  lemma {:induction false} TrimMarkers(markers: string, t: string)
    requires forall k | 0 <= k < |markers| :: markers[k] in "*[]"
    requires t == [] || t[0] !in "*[]"
    ensures TrimLeft(markers + t, "*[]") == TrimLeft(t, "*[]")
    decreases |markers|
  {
    if markers == [] {
      assert markers + t == t;
    } else {
      assert (markers + t)[1..] == markers[1..] + t;
      TrimMarkers(markers[1..], t);
    }
  }

  /** A package qualifier is dropped: `pkg.n` is primitive exactly when `n` is a primitive name. */
  lemma QualifierIgnored(pkg: string, n: string)
    requires pkg != [] && pkg[0] !in "*[]" && '.' !in n
    ensures PrimitiveKey(pkg + "." + n) == n
    ensures IsPrimitiveType(pkg + "." + n) <==> n in Primitives
  {
    var s := pkg + "." + n;
    assert s[0] == pkg[0];
    assert TrimLeft(s, "*[]") == s;
    assert s[|pkg|] == '.' && s[|pkg| + 1..] == n;
    LastDot(s, |pkg|);
  }

  lemma IdentifierKey(n: string)
    requires IsIdentifier(n)
    ensures PrimitiveKey(n) == n && !IsBuiltinType(n)
  {
    IdentifierHasNoBracket(n);
    PlainKey(n);
  }

  /**
   * The reader's nested flag and the generator's conversion test agree on a
   * named type of the struct's own package, except on the two names only one
   * of their lists holds.
   */
  lemma NestedIffNeedsConversion(n: string)
    requires IsIdentifier(n) && n != "uintptr" && n != "error"
    ensures IsStructType(Ident(n)) <==> NeedsConversion(n)
  {
    IdentifierKey(n);
    SameBasicNames(n);
    assert NeedsConversion(n) <==> n !in Primitives;
  }

  /** The reader's basic list and the generator's primitive list differ only in uintptr and error. */
  lemma SameBasicNames(n: string)
    requires n != "uintptr" && n != "error"
    ensures n in BasicTypes <==> n in Primitives
  {
  }

  /** uintptr is nested for the reader but needs no conversion for the generator. */
  lemma UintptrDisagrees()
    ensures IsStructType(Ident("uintptr")) && !NeedsConversion("uintptr")
  {
    assert "uintptr"[0] == 'u' && '.' !in "uintptr";
    PlainKey("uintptr");
  }

  /** error is basic for the reader but needs a conversion for the generator. */
  lemma ErrorDisagrees()
    ensures !IsStructType(Ident("error")) && NeedsConversion("error")
  {
    assert "error"[0] == 'e' && '.' !in "error";
    PlainKey("error");
  }

  /**
   * A slice field of a named element type: the `From` entry converts element by
   * element exactly when the reader flagged the field as nested.
   */
  lemma SliceElementConversion(name: string, n: string)
    requires IsIdentifier(n) && n != "uintptr" && n != "error"
    ensures Classified(name, ArrayType(None, Ident(n))) == FieldInfo(name, "[]" + n, false, IsStructType(Ident(n)), true, false)
    ensures TrimPrefix("[]" + n, "[]") == n && NoNewline("[]" + n) && '.' !in "[]" + n
    ensures IsStructType(Ident(n)) <==> NeedsConversion(n)
  {
    var e := ArrayType(None, Ident(n));
    assert GetTypeName(e) == "[]" + n;
    assert IsStructType(e) == IsStructType(Ident(n));
    assert IsSlice(e) && !IsPointer(e);
    IdentifierHasNoBracket(n);
    SliceSpelling(n);
    HasPrefixConcat("[]", n);
    assert TrimPrefix("[]" + n, "[]") == n by {
      assert ("[]" + n)[2..] == n;
    }
    NestedIffNeedsConversion(n);
  }

  lemma SliceSpelling(n: string)
    requires NoNewline(n) && '.' !in n
    ensures NoNewline("[]" + n) && '.' !in "[]" + n
  {
  }

  // ---- Fields of the struct's own package ----

  /** A type spelled without a dot never holds the source qualifier. */
  lemma NoQualifier(t: string, config: MappingConfig)
    requires '.' !in t
    ensures !Contains(t, SourcePrefix(config))
  {
    var p := SourcePrefix(config);
    if Contains(t, p) {
      ContainsChar(t, p, |p| - 1);
    }
  }

  /**
   * A field the reader records for a struct of the same package, by value or by
   * pointer: `From` converts it through the struct's own `From`, with a nil
   * check for a pointer, while `To` takes the reverse shortcut and copies the
   * local value back as it is.
   */
  lemma SamePackageNested(config: MappingConfig, name: string, n: string, pointer: bool)
    requires IsIdentifier(n) && IsStructType(Ident(n))
    requires !Omitted(config, name) && NoNewline(name)
    ensures var sf := Classified(name, if pointer then StarExpr(Ident(n)) else Ident(n));
      sf.isNested && sf.isPointer == pointer &&
      Performs(GenerateFieldMapping(sf, PseudoTarget(config, sf), config), "src." + name,
               if pointer then FromPointer(n) else FromStruct(n)) &&
      ToValue(config, sf) == "t." + TargetFieldName(config, name)
  {
    var e := if pointer then StarExpr(Ident(n)) else Ident(n);
    var sf := Classified(name, e);
    IdentifierHasNoBracket(n);
    assert GetTypeName(e) == if pointer then "*" + n else n;
    assert NoNewline(sf.fieldType) && '.' !in sf.fieldType;
    ForwardClassified(config, sf);
    NoQualifier(sf.fieldType, config);
    UnqualifiedTakesShortcut(config, sf);
  }

  /**
   * A slice field of structs of the same package: `From` converts it element by
   * element, while `To` takes the reverse shortcut and copies the local slice.
   */
  lemma SamePackageSlice(config: MappingConfig, name: string, n: string)
    requires IsIdentifier(n) && n != "uintptr" && IsStructType(Ident(n))
    requires !Omitted(config, name) && NoNewline(name)
    ensures var sf := Classified(name, ArrayType(None, Ident(n)));
      sf.isNested && sf.isSlice &&
      Performs(GenerateFieldMapping(sf, PseudoTarget(config, sf), config), "src." + name, FromEach(n)) &&
      ToValue(config, sf) == "t." + TargetFieldName(config, name)
  {
    IdentifierHasNoBracket(n);
    SliceElementConversion(name, n);
    var sf := FieldInfo(name, "[]" + n, false, true, true, false);
    NoQualifier(sf.fieldType, config);
    NoQualifier(n, config);
    assert CleanTypeName(sf.fieldType, config) == sf.fieldType;
    assert CleanTypeName(n, config) == n;
    assert ForwardConversion(config, sf) == FromEach(n);
    ForwardClassified(config, sf);
    UnqualifiedTakesShortcut(config, sf);
  }
}
