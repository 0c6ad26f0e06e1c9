/**
 * The subset of Go's `strings` package that the generator and the reader use,
 * over strings as sequences of characters, together with the facts about them
 * and about sequences that the rest of the model relies on.  Line splitting and
 * joining are used to read emitted code back line by line.
 */
module GoStrings {

  /** strings.HasPrefix */
  predicate HasPrefix(s: string, prefix: string) {
    |prefix| <= |s| && s[..|prefix|] == prefix
  }

  /** strings.HasSuffix */
  predicate HasSuffix(s: string, suffix: string) {
    |suffix| <= |s| && s[|s| - |suffix|..] == suffix
  }

  /** strings.Contains: `sub` occurs in `s` at some position. */
  predicate Contains(s: string, sub: string)
    decreases |s|
  {
    HasPrefix(s, sub) || (|s| > 0 && Contains(s[1..], sub))
  }

  /** strings.TrimPrefix */
  function TrimPrefix(s: string, prefix: string): (r: string)
    ensures HasPrefix(s, prefix) ==> s == prefix + r
    ensures !HasPrefix(s, prefix) ==> r == s
  {
    if HasPrefix(s, prefix) then s[|prefix|..] else s
  }

  /** strings.TrimLeft: drops the longest prefix made of characters of `cutset`. */
  function TrimLeft(s: string, cutset: string): (r: string)
    ensures |r| <= |s| && r == s[|s| - |r|..]
    ensures r == [] || r[0] !in cutset
    ensures forall k :: 0 <= k < |s| - |r| ==> s[k] in cutset
    decreases |s|
  {
    if |s| > 0 && s[0] in cutset then TrimLeft(s[1..], cutset) else s
  }

  /** strings.IndexByte: the first position of `c`, or -1. */
  function IndexOf(s: string, c: char): (r: int)
    ensures -1 <= r < |s|
    ensures 0 <= r ==> s[r] == c && c !in s[..r]
    ensures r == -1 ==> c !in s
    decreases |s|
  {
    if |s| == 0 then -1
    else if s[0] == c then 0
    else
      var i := IndexOf(s[1..], c);
      assert s == [s[0]] + s[1..];
      if i == -1 then -1 else i + 1
  }

  /** The first `c` in `a + [c] + b`, when `a` has none, is the one after `a`. */
  lemma IndexAfter(a: string, c: char, b: string)
    requires c !in a
    ensures IndexOf(a + [c] + b, c) == |a|
  {
    var s := a + [c] + b;
    var r := IndexOf(s, c);
    assert s[|a|] == c;
    assert s[..|a|] == a;
    assert forall k :: 0 <= k < |a| ==> s[k] == a[k];
  }

  /** strings.LastIndex with a one-character separator: the last position of `c`, or -1. */
  function LastIndexOf(s: string, c: char): (r: int)
    ensures -1 <= r < |s|
    ensures 0 <= r ==> s[r] == c && c !in s[r + 1..]
    ensures r == -1 ==> c !in s
    decreases |s|
  {
    if |s| == 0 then -1
    else if s[|s| - 1] == c then |s| - 1
    else
      assert s == s[..|s| - 1] + [s[|s| - 1]];
      LastIndexOf(s[..|s| - 1], c)
  }

  /**
   * strings.ReplaceAll for a non-empty pattern: occurrences are found left to
   * right and do not overlap; scanning resumes after each replaced occurrence.
   */
  function ReplaceAll(s: string, pat: string, rep: string): string
    requires pat != []
    decreases |s|
  {
    if |s| == 0 then ""
    else if HasPrefix(s, pat) then rep + ReplaceAll(s[|pat|..], pat, rep)
    else [s[0]] + ReplaceAll(s[1..], pat, rep)
  }

  /** Concatenation of a sequence of strings, the text of consecutive buffer writes. */
  function Concat(ss: seq<string>): string
  {
    if ss == [] then "" else Concat(ss[..|ss| - 1]) + ss[|ss| - 1]
  }

  /** strings.Join(lines, "\n"): the text of a multi-line template. */
  function JoinLines(lines: seq<string>): string
  {
    if |lines| == 0 then ""
    else if |lines| == 1 then lines[0]
    else lines[0] + "\n" + JoinLines(lines[1..])
  }

  /** strings.Split(s, "\n"): the lines of a text. */
  function SplitLines(s: string): (lines: seq<string>)
    ensures |lines| >= 1
    decreases |s|
  {
    var i := IndexOf(s, '\n');
    if i < 0 then [s] else [s[..i]] + SplitLines(s[i + 1..])
  }

  predicate NoNewline(s: string) {
    '\n' !in s
  }

  // ---- Lemmas ----

  lemma HasPrefixConcat(a: string, b: string)
    ensures HasPrefix(a + b, a)
  {
    assert (a + b)[..|a|] == a;
  }

  /** A prefix of a string is a prefix of every extension of it. */
  lemma PrefixExtends(s: string, p: string, t: string)
    requires HasPrefix(s, p)
    ensures HasPrefix(s + t, p)
  {
    assert (s + t)[..|p|] == s[..|p|];
  }

  lemma PrefixTrans(s: string, p: string, q: string)
    requires HasPrefix(s, p) && HasPrefix(p, q)
    ensures HasPrefix(s, q)
  {
    assert s[..|q|] == s[..|p|][..|q|];
  }

  /** A joined template starts with its first line. */
  lemma JoinLinesHead(lines: seq<string>)
    requires |lines| > 0
    ensures HasPrefix(JoinLines(lines), lines[0])
  {
    if |lines| > 1 {
      AppendAssoc(lines[0], "\n", JoinLines(lines[1..]));
      HasPrefixConcat(lines[0], "\n" + JoinLines(lines[1..]));
    }
  }

  /** A string is not prefixed by a pattern it disagrees with at some position. */
  lemma NotPrefixAt(s: string, p: string, k: nat)
    requires k < |s| && k < |p| && s[k] != p[k]
    ensures !HasPrefix(s, p)
  {
    if |p| <= |s| {
      assert s[..|p|][k] == s[k];
    }
  }

  /** A string shorter than a pattern does not contain it. */
  lemma {:induction false} ShortNotContained(s: string, sub: string)
    requires |s| < |sub|
    ensures !Contains(s, sub)
    decreases |s|
  {
    if |s| > 0 {
      ShortNotContained(s[1..], sub);
    }
  }

  lemma HasSuffixConcat(a: string, b: string)
    ensures HasSuffix(a + b, b)
  {
    assert (a + b)[|a + b| - |b|..] == b;
  }

  /** A string never contains a pattern that has a character the string lacks. */
  lemma {:induction false} ContainsChar(s: string, sub: string, j: nat)
    requires Contains(s, sub) && j < |sub|
    ensures sub[j] in s
  {
    if HasPrefix(s, sub) {
      assert s[j] == sub[j];
    } else {
      ContainsChar(s[1..], sub, j);
      assert sub[j] in s[1..];
    }
  }

  /** A string without any occurrence of `pat` is left unchanged by ReplaceAll. */
  lemma {:induction false} ReplaceAllNoMatch(s: string, pat: string, rep: string)
    requires pat != []
    requires !Contains(s, pat)
    ensures ReplaceAll(s, pat, rep) == s
  {
    if |s| > 0 {
      ReplaceAllNoMatch(s[1..], pat, rep);
      assert s == [s[0]] + s[1..];
    }
  }

  /** Deleting occurrences only removes characters. */
  lemma {:induction false} RemoveAllShrinks(s: string, pat: string)
    requires pat != []
    ensures |ReplaceAll(s, pat, "")| <= |s|
    ensures forall c :: c in ReplaceAll(s, pat, "") ==> c in s
  {
    if |s| > 0 {
      if HasPrefix(s, pat) {
        RemoveAllShrinks(s[|pat|..], pat);
        assert ReplaceAll(s, pat, "") == ReplaceAll(s[|pat|..], pat, "");
        forall c | c in ReplaceAll(s, pat, "") ensures c in s {
          assert c in s[|pat|..];
        }
      } else {
        RemoveAllShrinks(s[1..], pat);
        forall c | c in ReplaceAll(s, pat, "") ensures c in s {
          assert c == s[0] || c in ReplaceAll(s[1..], pat, "");
          if c != s[0] {
            assert c in s[1..];
          }
        }
      }
    }
  }

  /** Characters that cannot start the pattern are copied through unchanged. */
  lemma {:induction false} ReplaceAllSkip(w: string, t: string, pat: string, rep: string)
    requires pat != []
    requires forall k :: 0 <= k < |w| ==> w[k] != pat[0]
    ensures ReplaceAll(w + t, pat, rep) == w + ReplaceAll(t, pat, rep)
  {
    if |w| > 0 {
      var s := w + t;
      assert s[0] == w[0] && s[0] != pat[0];
      assert !HasPrefix(s, pat);
      assert s[1..] == w[1..] + t;
      ReplaceAllSkip(w[1..], t, pat, rep);
      assert w == [w[0]] + w[1..];
    } else {
      assert w + t == t;
    }
  }

  /** A leading occurrence of the pattern is replaced. */
  lemma ReplaceAllAtMatch(pat: string, t: string, rep: string)
    requires pat != []
    ensures ReplaceAll(pat + t, pat, rep) == rep + ReplaceAll(t, pat, rep)
  {
    HasPrefixConcat(pat, t);
    assert (pat + t)[|pat|..] == t;
  }

  lemma {:induction false} ContainsConcat(a: string, b: string, c: string)
    ensures Contains(a + b + c, b)
  {
    if |a| == 0 {
      assert a + b + c == b + c;
      HasPrefixConcat(b, c);
    } else {
      assert (a + b + c)[1..] == a[1..] + b + c;
      ContainsConcat(a[1..], b, c);
    }
  }

  lemma SplitLinesStep(l: string, rest: string)
    requires NoNewline(l)
    ensures SplitLines(l + "\n" + rest) == [l] + SplitLines(rest)
  {
    var s := l + "\n" + rest;
    assert s[|l|] == '\n';
    assert s[..|l|] == l;
    var i := IndexOf(s, '\n');
    assert i <= |l| by {
      assert s[|l|] == '\n';
    }
    assert s[..i] == l[..i];
    assert i == |l|;
    assert s[|l| + 1..] == rest;
  }

  lemma SplitLinesSingle(l: string)
    requires NoNewline(l)
    ensures SplitLines(l) == [l]
  {
  }

  /** Splitting a joined template gives back its lines. */
  lemma {:induction false} SplitJoin(lines: seq<string>)
    requires |lines| > 0
    requires forall k :: 0 <= k < |lines| ==> NoNewline(lines[k])
    ensures SplitLines(JoinLines(lines)) == lines
  {
    if |lines| == 1 {
      SplitLinesSingle(lines[0]);
    } else {
      SplitJoin(lines[1..]);
      SplitLinesStep(lines[0], JoinLines(lines[1..]));
      assert lines == [lines[0]] + lines[1..];
    }
  }

  /** The first k lines of a joined template, when they are single lines, are its first k lines. */
  lemma {:induction false} SplitJoinPrefix(lines: seq<string>, k: nat)
    requires k < |lines|
    requires forall i :: 0 <= i < k ==> NoNewline(lines[i])
    ensures SplitLines(JoinLines(lines)) == lines[..k] + SplitLines(JoinLines(lines[k..]))
    decreases k
  {
    if k == 0 {
      assert lines[..0] == [] && lines[0..] == lines;
    } else {
      var rest := lines[1..];
      assert forall i :: 0 <= i < k - 1 ==> NoNewline(rest[i]) by {
        forall i | 0 <= i < k - 1 ensures NoNewline(rest[i]) {
          assert rest[i] == lines[i + 1];
        }
      }
      SplitLinesStep(lines[0], JoinLines(rest));
      SplitJoinPrefix(rest, k - 1);
      assert rest[k - 1..] == lines[k..];
      TakeCons(lines, k);
      AppendAssoc([lines[0]], rest[..k - 1], SplitLines(JoinLines(lines[k..])));
    }
  }

  /** A non-empty prefix is its first element followed by a prefix of the rest. */
  lemma TakeCons<T>(s: seq<T>, k: nat)
    requires 0 < k <= |s|
    ensures s[..k] == [s[0]] + s[1..][..k - 1]
  {
  }

  /** A prefix one longer is the prefix with the next element appended. */
  lemma TakeStep<T>(s: seq<T>, i: nat)
    requires i < |s|
    ensures s[..i + 1] == s[..i] + [s[i]]
  {
  }

  /** A sequence is its elements before, at and after position i. */
  lemma SplitAround<T>(s: seq<T>, i: nat)
    requires i < |s|
    ensures s == (s[..i] + [s[i]]) + s[i + 1..]
  {
  }

  /** Taking a prefix of a prefix. */
  lemma TakeTake<T>(s: seq<T>, i: nat)
    requires i < |s|
    ensures s[..i + 1][..i] == s[..i]
  {
  }

  /** The last element and the rest of a concatenation with a non-empty right part. */
  lemma AppendInit<T>(a: seq<T>, b: seq<T>)
    requires b != []
    ensures (a + b)[..|a + b| - 1] == a + b[..|b| - 1]
    ensures (a + b)[|a + b| - 1] == b[|b| - 1]
  {
  }

  lemma AppendEmpty<T>(a: seq<T>)
    ensures a + [] == a
  {
  }

  lemma TakeAll<T>(s: seq<T>)
    ensures s[..|s|] == s
  {
  }

  lemma AppendAssoc<T>(a: seq<T>, b: seq<T>, c: seq<T>)
    ensures (a + b) + c == a + (b + c)
  {
  }

  /** Appending one more string extends the concatenation by it. */
  lemma ConcatAppend(ss: seq<string>, s: string)
    ensures Concat(ss + [s]) == Concat(ss) + s
  {
    assert (ss + [s])[..|ss|] == ss;
  }

  /** Each line followed by a newline: the text of consecutive line writes. */
  function Unlines(lines: seq<string>): string
  {
    if lines == [] then "" else lines[0] + "\n" + Unlines(lines[1..])
  }

  /** Newline-terminated lines followed by a tail split into those lines first. */
  lemma {:induction false} SplitUnlines(lines: seq<string>, tail: string)
    requires forall k :: 0 <= k < |lines| ==> NoNewline(lines[k])
    ensures SplitLines(Unlines(lines) + tail) == lines + SplitLines(tail)
  {
    if lines != [] {
      var first, others := lines[0], lines[1..];
      var rest := Unlines(others);
      assert forall k :: 0 <= k < |others| ==> NoNewline(others[k]) by {
        forall k | 0 <= k < |others| ensures NoNewline(others[k]) {
          assert others[k] == lines[k + 1];
        }
      }
      assert NoNewline(first) by { assert first == lines[0]; }
      calc {
        SplitLines(Unlines(lines) + tail);
        SplitLines((first + "\n" + rest) + tail);
        { AppendAssoc(first + "\n", rest, tail); }
        SplitLines(first + "\n" + (rest + tail));
        { SplitLinesStep(first, rest + tail); }
        [first] + SplitLines(rest + tail);
        { SplitUnlines(others, tail); }
        [first] + (others + SplitLines(tail));
        { AppendAssoc([first], others, SplitLines(tail)); }
        ([first] + others) + SplitLines(tail);
        { assert lines == [first] + others; }
        lines + SplitLines(tail);
      }
    } else {
      assert Unlines(lines) + tail == tail;
    }
  }

  /** Lines written one after another: the text of the concatenated line lists. */
  lemma {:induction false} UnlinesAppend(a: seq<string>, b: seq<string>)
    ensures Unlines(a + b) == Unlines(a) + Unlines(b)
    decreases |a|
  {
    if a == [] {
      assert a + b == b;
    } else {
      assert (a + b)[1..] == a[1..] + b;
      UnlinesAppend(a[1..], b);
      AppendAssoc(a[0] + "\n", Unlines(a[1..]), Unlines(b));
    }
  }

  /** `f` applied to every element, in order. */
  function Map<A, B>(f: A -> B, xs: seq<A>): (ys: seq<B>)
    ensures |ys| == |xs|
  {
    if xs == [] then [] else Map(f, xs[..|xs| - 1]) + [f(xs[|xs| - 1])]
  }

  lemma {:induction false} MapAt<A, B>(f: A -> B, xs: seq<A>, k: nat)
    requires k < |xs|
    ensures Map(f, xs)[k] == f(xs[k])
    decreases |xs|
  {
    var n := |xs| - 1;
    if k < n {
      MapAt(f, xs[..n], k);
    }
  }

  lemma MapAppend<A, B>(f: A -> B, xs: seq<A>, x: A)
    ensures Map(f, xs + [x]) == Map(f, xs) + [f(x)]
  {
    AppendInit(xs, [x]);
    AppendEmpty(xs);
  }
}
