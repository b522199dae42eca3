/**
 * The helpers of Go's `strings` and `path/filepath` packages that the crawler
 * uses, over Dafny strings (sequences of Unicode characters).
 */
module Text {

  /** Go's `unicode.IsSpace`: the characters with the Unicode White_Space property. */
  predicate IsSpace(c: char) {
    || c == ' ' || c == '\t' || c == '\n' || c == '\r' || c == '\U{000B}' || c == '\U{000C}'
    || c == '\U{0085}' || c == '\U{00A0}' || c == '\U{1680}'
    || ('\U{2000}' <= c <= '\U{200A}')
    || c == '\U{2028}' || c == '\U{2029}' || c == '\U{202F}' || c == '\U{205F}' || c == '\U{3000}'
  }

  predicate AllSpace(s: string) {
    forall k :: 0 <= k < |s| ==> IsSpace(s[k])
  }

  predicate NoSpace(s: string) {
    forall k :: 0 <= k < |s| ==> !IsSpace(s[k])
  }

  /** `strings.HasPrefix` */
  predicate HasPrefix(s: string, prefix: string) {
    |prefix| <= |s| && s[..|prefix|] == prefix
  }

  /** The 25 code points of the Unicode White_Space property, one by one. */
  const WhiteSpace: set<char> := {
    '\t', '\n', '\U{000B}', '\U{000C}', '\r', ' ', '\U{0085}', '\U{00A0}', '\U{1680}',
    '\U{2000}', '\U{2001}', '\U{2002}', '\U{2003}', '\U{2004}', '\U{2005}',
    '\U{2006}', '\U{2007}', '\U{2008}', '\U{2009}', '\U{200A}',
    '\U{2028}', '\U{2029}', '\U{202F}', '\U{205F}', '\U{3000}'
  }

  /** `IsSpace` holds for exactly the White_Space code points. */
  lemma IsSpaceIffWhiteSpace(c: char)
    ensures IsSpace(c) <==> c in WhiteSpace
  {
  }

  /** `HasPrefix(s, prefix)` holds exactly when `s` is `prefix` followed by something. */
  lemma HasPrefixIffConcat(s: string, prefix: string)
    ensures HasPrefix(s, prefix) <==> |prefix| <= |s| && s == prefix + s[|prefix|..]
    ensures forall rest :: HasPrefix(prefix + rest, prefix)
  {
    forall rest ensures HasPrefix(prefix + rest, prefix) {
      assert (prefix + rest)[..|prefix|] == prefix;
    }
    if |prefix| <= |s| && s == prefix + s[|prefix|..] {
      assert s[..|prefix|] == prefix;
    }
  }

  /** `sub` occurs in `s` starting at index `i`. */
  predicate OccursAt(s: string, sub: string, i: int) {
    0 <= i && i + |sub| <= |s| && s[i..i + |sub|] == sub
  }

  /** `strings.Contains`, searching from the left. */
  predicate Contains(s: string, sub: string)
    decreases |s|
  {
    HasPrefix(s, sub) || (|s| > 0 && Contains(s[1..], sub))
  }

  /** `Contains` holds exactly when `sub` occurs somewhere in `s` (so always for an empty `sub`). */
  lemma {:induction false} ContainsIffOccurs(s: string, sub: string)
    ensures Contains(s, sub) <==> exists i :: OccursAt(s, sub, i)
    decreases |s|
  {
    if HasPrefix(s, sub) {
      assert OccursAt(s, sub, 0);
    } else if |s| > 0 {
      ContainsIffOccurs(s[1..], sub);
      if i :| OccursAt(s, sub, i) {
        assert i != 0;
        assert OccursAt(s[1..], sub, i - 1);
      }
      if i :| OccursAt(s[1..], sub, i) {
        assert s[1..][i..i + |sub|] == s[i + 1..i + 1 + |sub|];
        assert OccursAt(s, sub, i + 1);
      }
    }
  }

  /** `strings.TrimLeftFunc(s, unicode.IsSpace)` */
  function TrimLeftSpace(s: string): (r: string)
    ensures |r| <= |s| && r == s[|s| - |r|..]
    ensures AllSpace(s[..|s| - |r|])
    ensures r == [] || !IsSpace(r[0])
    decreases |s|
  {
    if |s| > 0 && IsSpace(s[0]) then
      var r := TrimLeftSpace(s[1..]);
      TrimLeftStep(s, r);
      r
    else
      s
  }

  /** `strings.TrimRightFunc(s, unicode.IsSpace)` */
  function TrimRightSpace(s: string): (r: string)
    ensures |r| <= |s| && r == s[..|r|]
    ensures AllSpace(s[|r|..])
    ensures r == [] || !IsSpace(r[|r| - 1])
    decreases |s|
  {
    if |s| > 0 && IsSpace(s[|s| - 1]) then
      var r := TrimRightSpace(s[..|s| - 1]);
      TrimRightStep(s, r);
      r
    else
      s
  }

  /** A leading space joins the white space that `TrimLeftSpace` removes from the rest. */
  lemma TrimLeftStep(s: string, r: string)
    requires |s| > 0 && IsSpace(s[0])
    requires |r| <= |s| - 1 && r == s[1..][|s| - 1 - |r|..] && AllSpace(s[1..][..|s| - 1 - |r|])
    ensures r == s[|s| - |r|..] && AllSpace(s[..|s| - |r|])
  {
    assert s[..|s| - |r|] == [s[0]] + s[1..][..|s| - 1 - |r|];
  }

  /** A trailing space joins the white space that `TrimRightSpace` removes from the rest. */
  lemma TrimRightStep(s: string, r: string)
    requires |s| > 0 && IsSpace(s[|s| - 1])
    requires |r| <= |s| - 1 && r == s[..|s| - 1][..|r|] && AllSpace(s[..|s| - 1][|r|..])
    ensures r == s[..|r|] && AllSpace(s[|r|..])
  {
    assert s[|r|..] == s[..|s| - 1][|r|..] + [s[|s| - 1]];
  }

  /**
   * `strings.TrimSpace`: the part of `s` left when every leading and every
   * trailing white-space character is removed.
   */
  function TrimSpace(s: string): (r: string)
    ensures exists i :: OccursAt(s, r, i) && AllSpace(s[..i]) && AllSpace(s[i + |r|..])
    ensures r == [] || (!IsSpace(r[0]) && !IsSpace(r[|r| - 1]))
  {
    var t := TrimLeftSpace(s);
    var r := TrimRightSpace(t);
    TrimmedInside(s, t, r);
    r
  }

  /** A prefix `r` of a suffix `t` of `s` sits in `s` where `t` starts, and what follows `r` in `t` ends `s`. */
  lemma TrimmedInside(s: string, t: string, r: string)
    requires |t| <= |s| && t == s[|s| - |t|..]
    requires |r| <= |t| && r == t[..|r|]
    ensures OccursAt(s, r, |s| - |t|) && s[|s| - |t| + |r|..] == t[|r|..]
  {
  }

  /** `strings.TrimPrefix` */
  function TrimPrefix(s: string, prefix: string): (r: string)
    ensures HasPrefix(s, prefix) ==> prefix + r == s
    ensures !HasPrefix(s, prefix) ==> r == s
  {
    if HasPrefix(s, prefix) then s[|prefix|..] else s
  }

  /** The characters of `s` that are not white space, in order. */
  function NonSpace(s: string): string
    decreases |s|
  {
    if s == [] then [] else (if IsSpace(s[0]) then [] else [s[0]]) + NonSpace(s[1..])
  }

  /** The longest prefix of `s` that holds no white space. */
  function Word(s: string): (w: string)
    ensures HasPrefix(s, w) && NoSpace(w)
    ensures |w| == |s| || IsSpace(s[|w|])
    decreases |s|
  {
    if s == [] || IsSpace(s[0]) then [] else [s[0]] + Word(s[1..])
  }

  function Concat(ss: seq<string>): string {
    if ss == [] then [] else ss[0] + Concat(ss[1..])
  }

  /** `strings.Fields`: the maximal runs of non-space characters of `s`, left to right. */
  function Fields(s: string): (r: seq<string>)
    ensures AreFields(r)
    decreases |s|
  {
    var t := TrimLeftSpace(s);
    if t == [] then []
    else
      var w := Word(t);
      assert w != [];
      var rest := Fields(t[|w|..]);
      AreFieldsCons(w, rest);
      [w] + rest
  }

  /** Every field is non-empty and free of white space. */
  predicate AreFields(fs: seq<string>) {
    forall k :: 0 <= k < |fs| ==> fs[k] != [] && NoSpace(fs[k])
  }

  lemma AreFieldsCons(w: string, fs: seq<string>)
    requires w != [] && NoSpace(w) && AreFields(fs)
    ensures AreFields([w] + fs)
  {
    forall k | 0 <= k < |[w] + fs| ensures ([w] + fs)[k] != [] && NoSpace(([w] + fs)[k]) {
      if k > 0 {
        assert ([w] + fs)[k] == fs[k - 1];
      }
    }
  }

  /** The fields joined by single spaces, the way a rule line writes them. */
  function JoinSpace(fs: seq<string>): string {
    if |fs| <= 1 then Concat(fs) else fs[0] + " " + JoinSpace(fs[1..])
  }

  lemma {:induction false} NonSpaceAppend(a: string, b: string)
    ensures NonSpace(a + b) == NonSpace(a) + NonSpace(b)
    decreases |a|
  {
    if a != [] {
      assert (a + b)[0] == a[0];
      assert (a + b)[1..] == a[1..] + b;
      NonSpaceAppend(a[1..], b);
      assert NonSpace(a + b) == (if IsSpace(a[0]) then [] else [a[0]]) + NonSpace(a[1..] + b);
    } else {
      assert a + b == b;
    }
  }

  lemma {:induction false} NonSpaceOfAllSpace(s: string)
    requires AllSpace(s)
    ensures NonSpace(s) == []
    decreases |s|
  {
    if s != [] {
      NonSpaceOfAllSpace(s[1..]);
    }
  }

  lemma {:induction false} NonSpaceOfNoSpace(s: string)
    requires NoSpace(s)
    ensures NonSpace(s) == s
    decreases |s|
  {
    if s != [] {
      NonSpaceOfNoSpace(s[1..]);
      assert s == [s[0]] + s[1..];
    }
  }

  lemma NonSpaceSkipsLeading(s: string)
    ensures NonSpace(s) == NonSpace(TrimLeftSpace(s))
  {
    var t := TrimLeftSpace(s);
    var p := s[..|s| - |t|];
    assert s == p + t;
    NonSpaceAfterSpace(p, t);
  }

  lemma NonSpaceAfterSpace(p: string, t: string)
    requires AllSpace(p)
    ensures NonSpace(p + t) == NonSpace(t)
  {
    NonSpaceOfAllSpace(p);
    NonSpaceAppend(p, t);
    assert [] + NonSpace(t) == NonSpace(t);
  }

  lemma ConcatCons(w: string, ws: seq<string>)
    ensures Concat([w] + ws) == w + Concat(ws)
  {
    assert ([w] + ws)[1..] == ws;
  }

  /** A space-free word followed by white space (or nothing) is the first field. */
  lemma FieldsOfWord(w: string, rest: string)
    requires w != [] && NoSpace(w)
    requires rest == [] || IsSpace(rest[0])
    ensures Fields(w + rest) == [w] + Fields(rest)
  {
    var s := w + rest;
    assert s[0] == w[0];
    assert TrimLeftSpace(s) == s;
    WordOfJoin(w, rest);
    assert s[|w|..] == rest;
  }

  /** Leading white space does not change the fields. */
  lemma FieldsSkipSpace(c: char, x: string)
    requires IsSpace(c)
    ensures Fields([c] + x) == Fields(x)
  {
    assert ([c] + x)[1..] == x;
    assert TrimLeftSpace([c] + x) == TrimLeftSpace(x);
  }

  /** Splitting into fields loses exactly the white space: nothing else is dropped or reordered. */
  lemma {:induction false} FieldsKeepNonSpace(s: string)
    ensures Concat(Fields(s)) == NonSpace(s)
    decreases |s|
  {
    var t := TrimLeftSpace(s);
    NonSpaceSkipsLeading(s);
    if t != [] {
      var w := Word(t);
      var rest := t[|w|..];
      FieldsUnfold(s);
      WordSplits(t);
      FieldsKeepNonSpace(rest);
      FieldsKeepNonSpaceCons(s, t, w, rest);
    }
  }

  /** `Fields` of a string with a non-space character: its first word, then the fields of what follows. */
  lemma FieldsUnfold(s: string)
    requires TrimLeftSpace(s) != []
    ensures var t := TrimLeftSpace(s);
      Fields(s) == [Word(t)] + Fields(t[|Word(t)|..])
  {
  }

  /** A string is its first word followed by the rest. */
  lemma WordSplits(t: string)
    ensures t == Word(t) + t[|Word(t)|..]
  {
    var w := Word(t);
    assert t[..|w|] == w;
  }

  lemma FieldsKeepNonSpaceCons(s: string, t: string, w: string, rest: string)
    requires Fields(s) == [w] + Fields(rest) && NoSpace(w)
    requires t == w + rest && NonSpace(s) == NonSpace(t)
    requires Concat(Fields(rest)) == NonSpace(rest)
    ensures Concat(Fields(s)) == NonSpace(s)
  {
    ConcatCons(w, Fields(rest));
    NonSpaceOfNoSpace(w);
    NonSpaceAppend(w, rest);
  }

  lemma WordOfJoin(w: string, rest: string)
    requires w != [] && NoSpace(w)
    requires rest == [] || IsSpace(rest[0])
    ensures Word(w + rest) == w
    decreases |w|
  {
    var s := w + rest;
    assert s[0] == w[0] && !IsSpace(w[0]);
    assert Word(s) == [w[0]] + Word(s[1..]);
    if |w| > 1 {
      assert s[1..] == w[1..] + rest;
      WordOfJoin(w[1..], rest);
      assert w == [w[0]] + w[1..];
    } else {
      assert s[1..] == rest;
      assert Word(rest) == [];
    }
  }

  lemma JoinSpaceCons(fs: seq<string>)
    requires |fs| > 1
    ensures JoinSpace(fs) == fs[0] + ([' '] + JoinSpace(fs[1..]))
  {
  }

  /** The inductive step of `FieldsOfJoin`: one more field in front. */
  lemma FieldsOfJoinCons(fs: seq<string>)
    requires |fs| > 1 && fs[0] != [] && NoSpace(fs[0])
    requires Fields(JoinSpace(fs[1..])) == fs[1..]
    ensures Fields(JoinSpace(fs)) == fs
  {
    JoinSpaceCons(fs);
    FieldsOfSpaced(fs[0], JoinSpace(fs[1..]));
    assert fs == [fs[0]] + fs[1..];
  }

  /** A field followed by a space: the field, then the fields of what follows. */
  lemma FieldsOfSpaced(w: string, rest: string)
    requires w != [] && NoSpace(w)
    ensures Fields(w + ([' '] + rest)) == [w] + Fields(rest)
  {
    FieldsOfWord(w, [' '] + rest);
    FieldsSkipSpace(' ', rest);
  }

  lemma FieldsOfNone()
    ensures Fields([]) == []
  {
    assert TrimLeftSpace([]) == [];
  }

  /** `FieldsOfJoin` for no field or one. */
  lemma FieldsOfJoinShort(fs: seq<string>)
    requires AreFields(fs) && |fs| <= 1
    ensures Fields(JoinSpace(fs)) == fs
  {
    FieldsOfNone();
    if |fs| == 1 {
      var w := fs[0];
      assert JoinSpace(fs) == w + [] by {
        assert Concat(fs) == w + Concat(fs[1..]);
      }
      FieldsOfWord(w, []);
    }
  }

  /** Joining non-empty space-free fields with spaces and splitting again gives the fields back. */
  lemma {:induction false} FieldsOfJoin(fs: seq<string>)
    requires AreFields(fs)
    ensures Fields(JoinSpace(fs)) == fs
    decreases |fs|
  {
    if |fs| <= 1 {
      FieldsOfJoinShort(fs);
    } else {
      assert AreFields(fs[1..]) by {
        forall k | 0 <= k < |fs[1..]| ensures fs[1..][k] != [] && NoSpace(fs[1..][k]) {
          assert fs[1..][k] == fs[k + 1];
        }
      }
      FieldsOfJoin(fs[1..]);
      FieldsOfJoinCons(fs);
    }
  }

  /** `strings.Replace(s, from, to, -1)` for a one-character `from` and `to`. */
  function ReplaceChar(s: string, from: char, to: char): (r: string)
    ensures |r| == |s|
    ensures forall k :: 0 <= k < |s| ==> r[k] == if s[k] == from then to else s[k]
    decreases |s|
  {
    if s == [] then [] else [if s[0] == from then to else s[0]] + ReplaceChar(s[1..], from, to)
  }

  /** `strings.Split(s, string(sep))[0]`: the part of `s` before its first `sep`, or all of `s`. */
  function BeforeFirst(s: string, sep: char): (r: string)
    ensures HasPrefix(s, r) && sep !in r
    ensures |r| < |s| ==> s[|r|] == sep
    decreases |s|
  {
    if s == [] || s[0] == sep then [] else [s[0]] + BeforeFirst(s[1..], sep)
  }

  /** Whatever follows the first `sep` plays no part in `BeforeFirst`. */
  lemma {:induction false} BeforeFirstOfSplit(a: string, sep: char, b: string)
    requires sep !in a
    ensures BeforeFirst(a + [sep] + b, sep) == a
    decreases |a|
  {
    if a != [] {
      assert (a + [sep] + b)[1..] == a[1..] + [sep] + b;
      BeforeFirstOfSplit(a[1..], sep, b);
    }
  }

  /** Without any `sep`, `BeforeFirst` keeps the whole string. */
  lemma {:induction false} BeforeFirstNoSep(s: string, sep: char)
    requires sep !in s
    ensures BeforeFirst(s, sep) == s
    decreases |s|
  {
    if s != [] {
      BeforeFirstNoSep(s[1..], sep);
    }
  }

  /** After replacing every `from`, none is left. */
  lemma ReplaceCharRemoves(s: string, from: char, to: char)
    requires from != to
    ensures from !in ReplaceChar(s, from, to)
  {
  }

  /** The final element of a slash-separated path: what follows its last '/'. */
  function LastElement(path: string): (r: string)
    ensures |r| <= |path| && r == path[|path| - |r|..]
    ensures '/' !in r
    ensures |r| < |path| ==> path[|path| - |r| - 1] == '/'
    decreases |path|
  {
    if path == [] || path[|path| - 1] == '/' then []
    else LastElement(path[..|path| - 1]) + [path[|path| - 1]]
  }

  /**
   * `filepath.Ext` with '/' as separator: the suffix of `path` from the last
   * '.' of its final element, or empty when that element has no '.'.
   */
  function Ext(path: string): (r: string)
    ensures |r| <= |path| && r == path[|path| - |r|..]
    ensures r == [] || r[0] == '.'
    ensures forall k :: 0 < k < |r| ==> r[k] != '.' && r[k] != '/'
    decreases |path|
  {
    if path == [] then []
    else
      var c := path[|path| - 1];
      if c == '/' then []
      else if c == '.' then path[|path| - 1..]
      else
        var e := Ext(path[..|path| - 1]);
        if e == [] then [] else e + [c]
  }

  /** A path has an extension exactly when the final element holds a '.'. */
  lemma {:induction false} ExtEmptyIffNoDot(path: string)
    ensures Ext(path) == [] <==> '.' !in LastElement(path)
    decreases |path|
  {
    if path != [] && path[|path| - 1] != '/' {
      var init := path[..|path| - 1];
      assert LastElement(path) == LastElement(init) + [path[|path| - 1]];
      ExtEmptyIffNoDot(init);
    }
  }

  /** `Ext` of a path ending in a '.'-led suffix free of further '.' and '/' is that suffix. */
  lemma {:induction false} ExtOfSuffix(s: string, e: string)
    requires e != [] && e[0] == '.'
    requires forall k :: 0 < k < |e| ==> e[k] != '.' && e[k] != '/'
    ensures Ext(s + e) == e
    decreases |e|
  {
    var p := s + e;
    if |e| > 1 {
      var init := e[..|e| - 1];
      assert p[..|p| - 1] == s + init;
      ExtOfSuffix(s, init);
      ExtExtends(p, init);
      assert init + [e[|e| - 1]] == e;
    } else {
      assert p[|p| - 1..] == e;
    }
  }

  /** A last character other than '.' and '/' extends a non-empty extension of the rest. */
  lemma ExtExtends(path: string, e: string)
    requires path != [] && path[|path| - 1] != '.' && path[|path| - 1] != '/'
    requires e != [] && Ext(path[..|path| - 1]) == e
    ensures Ext(path) == e + [path[|path| - 1]]
  {
  }

  /** A path without '/' is its own final element. */
  lemma LastElementNoSlash(path: string)
    requires '/' !in path
    ensures LastElement(path) == path
  {
    var r := LastElement(path);
    if |r| < |path| {
      assert false;
    }
  }
}
