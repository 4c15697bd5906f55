/**
 The functions of Go's strings package that the modelled files call, as scans from left to right, with
 the laws about them that the other modules use.
 */
module GoStrings {
  import opened Sequences

  /** `from <= s` is Dafny's prefix test, strings.HasPrefix(s, from). */
  function ReplaceAll(s: string, from: string, to: string): string
    requires from != ""
  {
    if s == "" then ""
    else if from <= s then to + ReplaceAll(s[|from|..], from, to)
    else [s[0]] + ReplaceAll(s[1..], from, to)
  }

  function Split(s: string, sep: string): (parts: seq<string>)
    requires sep != ""
    ensures |parts| > 0
  {
    if s == "" then [""]
    else if sep <= s then [""] + Split(s[|sep|..], sep)
    else
      var rest := Split(s[1..], sep);
      [[s[0]] + rest[0]] + rest[1..]
  }

  function Join(parts: seq<string>, sep: string): string {
    if parts == [] then ""
    else if |parts| == 1 then parts[0]
    else parts[0] + sep + Join(parts[1..], sep)
  }

  predicate Contains(s: string, sub: string) {
    sub <= s || (s != "" && Contains(s[1..], sub))
  }

  function Flatten(parts: seq<string>): string {
    if parts == [] then "" else parts[0] + Flatten(parts[1..])
  }

  /** Text put before the first part comes out before the joined text. */
  lemma JoinPrefix(p: string, parts: seq<string>, sep: string)
    requires parts != []
    ensures Join([p + parts[0]] + parts[1..], sep) == p + Join(parts, sep)
  {
    assert ([p + parts[0]] + parts[1..])[1..] == parts[1..];
    assert p + parts[0] + sep + Join(parts[1..], sep) == p + (parts[0] + sep + Join(parts[1..], sep));
  }

  lemma JoinCons(part: string, parts: seq<string>, sep: string)
    requires parts != []
    ensures Join([part] + parts, sep) == part + sep + Join(parts, sep)
  {
    assert ([part] + parts)[1..] == parts;
  }

  /** A character that the separator does not start with goes to the first piece. */
  lemma SplitSkip(p: string, t: string, sep: string)
    requires |p| == 1 && sep != "" && p[0] != sep[0]
    ensures Split(p + t, sep) == [p + Split(t, sep)[0]] + Split(t, sep)[1..]
  {
    assert (p + t)[1..] == t && [p[0]] == p;
  }

  lemma SplitHit(t: string, sep: string)
    requires sep != ""
    ensures Split(sep + t, sep) == [""] + Split(t, sep)
  {
    assert (sep + t)[|sep|..] == t;
  }

  lemma ReplaceSkip(p: string, t: string, from: string, to: string)
    requires |p| == 1 && from != "" && p[0] != from[0]
    ensures ReplaceAll(p + t, from, to) == p + ReplaceAll(t, from, to)
  {
    assert (p + t)[1..] == t && [p[0]] == p;
  }

  lemma ReplaceHit(t: string, from: string, to: string)
    requires from != ""
    ensures ReplaceAll(from + t, from, to) == to + ReplaceAll(t, from, to)
  {
    assert (from + t)[|from|..] == t;
  }

  lemma JoinSplitHit(s: string, sep: string)
    requires sep != "" && sep <= s && Join(Split(s[|sep|..], sep), sep) == s[|sep|..]
    ensures Join(Split(s, sep), sep) == s
  {
    JoinCons("", Split(s[|sep|..], sep), sep);
    assert "" + sep == sep && sep + s[|sep|..] == s;
  }

  lemma JoinSplitSkip(s: string, sep: string)
    requires sep != "" && s != "" && !(sep <= s) && Join(Split(s[1..], sep), sep) == s[1..]
    ensures Join(Split(s, sep), sep) == s
  {
    JoinPrefix([s[0]], Split(s[1..], sep), sep);
    assert [s[0]] + s[1..] == s;
  }

  /** Joining with the separator undoes splitting. */
  lemma {:induction false} JoinSplit(s: string, sep: string)
    requires sep != ""
    ensures Join(Split(s, sep), sep) == s
  {
    if s == "" {
      assert Split(s, sep) == [""];
    } else if sep <= s {
      JoinSplit(s[|sep|..], sep);
      JoinSplitHit(s, sep);
    } else {
      JoinSplit(s[1..], sep);
      JoinSplitSkip(s, sep);
    }
  }

  /** No first character of a text can continue an occurrence of m. */
  predicate StartsFresh(s: string, m: string) {
    s == "" || forall k :: 0 < k < |m| ==> m[k] != s[0]
  }

  /** An occurrence of m at the start of a + b does not reach into b. */
  lemma NoStraddle(a: string, b: string, m: string)
    requires a != "" && m <= a + b && StartsFresh(b, m)
    ensures m <= a
  {
    assert forall k :: 0 < k < |m| ==> (a + b)[k] == m[k];
    assert b != "" ==> (a + b)[|a|] == b[0];
    assert a[..|m|] == (a + b)[..|m|];
  }

  /** Replacing works on the two parts separately. */
  lemma {:induction false} ReplaceParts(a: string, b: string, m: string, to: string)
    requires m != "" && StartsFresh(b, m)
    ensures ReplaceAll(a + b, m, to) == ReplaceAll(a, m, to) + ReplaceAll(b, m, to)
    decreases |a|
  {
    if a == "" {
      assert a + b == b;
    } else if m <= a {
      ReplaceParts(a[|m|..], b, m, to);
      HitInFirstPart(a, b, m, to);
      ConcatAssoc(to, ReplaceAll(a[|m|..], m, to), ReplaceAll(b, m, to));
    } else {
      ReplaceParts(a[1..], b, m, to);
      SkipInFirstPart(a, b, m, to);
      ConcatAssoc([a[0]], ReplaceAll(a[1..], m, to), ReplaceAll(b, m, to));
    }
  }

  lemma HitInFirstPart(a: string, b: string, m: string, to: string)
    requires m != "" && m <= a
    ensures ReplaceAll(a + b, m, to) == to + ReplaceAll(a[|m|..] + b, m, to)
  {
    assert (a + b)[|m|..] == a[|m|..] + b;
    assert m <= a + b;
  }

  lemma SkipInFirstPart(a: string, b: string, m: string, to: string)
    requires m != "" && StartsFresh(b, m) && a != "" && !(m <= a)
    ensures ReplaceAll(a + b, m, to) == [a[0]] + ReplaceAll(a[1..] + b, m, to)
  {
    if m <= a + b {
      NoStraddle(a, b, m);
      assert false;
    }
    assert (a + b)[1..] == a[1..] + b;
  }

  lemma {:induction false} ContainsBefore(a: string, b: string, x: string)
    requires Contains(a, x)
    ensures Contains(a + b, x)
  {
    if x <= a {
      assert x <= a + b;
    } else {
      ContainsBefore(a[1..], b, x);
      assert (a + b)[1..] == a[1..] + b;
    }
  }

  lemma {:induction false} ContainsAfter(a: string, b: string, x: string)
    requires Contains(b, x)
    ensures Contains(a + b, x)
  {
    if a == "" {
      assert a + b == b;
    } else {
      ContainsAfter(a[1..], b, x);
      assert (a + b)[1..] == a[1..] + b;
    }
  }

  /** m occurs in one of two parts or not at all, if the second cannot continue an occurrence. */
  lemma {:induction false} ContainsInParts(a: string, b: string, m: string)
    requires StartsFresh(b, m)
    ensures Contains(a + b, m) <==> Contains(a, m) || Contains(b, m)
    decreases |a|
  {
    if a == "" {
      assert a + b == b;
    } else {
      ContainsInParts(a[1..], b, m);
      assert (a + b)[1..] == a[1..] + b;
      if m <= a + b {
        NoStraddle(a, b, m);
      }
      if m <= a {
        assert m <= a + b;
      }
    }
  }

  /** The last piece of p and the first piece of q become one piece. */
  function Glue(p: seq<string>, q: seq<string>): seq<string>
    requires p != [] && q != []
  {
    p[..|p| - 1] + [p[|p| - 1] + q[0]] + q[1..]
  }

  lemma GlueEmpty(q: seq<string>)
    requires q != []
    ensures Glue([""], q) == q
  {
    assert "" + q[0] == q[0];
  }

  lemma GlueCons(r: seq<string>, q: seq<string>)
    requires r != [] && q != []
    ensures Glue([""] + r, q) == [""] + Glue(r, q)
  {
  }

  lemma GluePush(c: char, r: seq<string>, q: seq<string>)
    requires r != [] && q != []
    ensures Glue([[c] + r[0]] + r[1..], q) == [[c] + Glue(r, q)[0]] + Glue(r, q)[1..]
  {
    if |r| == 1 {
      assert [c] + r[0] + q[0] == [c] + (r[0] + q[0]);
    }
  }

  /** Splitting two parts glues the last piece of the one to the first piece of the other. */
  lemma {:induction false} SplitParts(a: string, b: string, sep: string)
    requires sep != "" && StartsFresh(b, sep)
    ensures Split(a + b, sep) == Glue(Split(a, sep), Split(b, sep))
    decreases |a|
  {
    var q := Split(b, sep);
    if a == "" {
      assert a + b == b;
      GlueEmpty(q);
    } else if sep <= a {
      SplitParts(a[|sep|..], b, sep);
      assert (a + b)[|sep|..] == a[|sep|..] + b;
      assert sep <= a + b;
      GlueCons(Split(a[|sep|..], sep), q);
    } else {
      if sep <= a + b {
        NoStraddle(a, b, sep);
        assert false;
      }
      SplitParts(a[1..], b, sep);
      assert (a + b)[1..] == a[1..] + b;
      GluePush(a[0], Split(a[1..], sep), q);
    }
  }

  lemma {:induction false} SplitWithout(s: string, sep: string)
    requires sep != "" && !Contains(s, sep)
    ensures Split(s, sep) == [s]
  {
    if s != "" {
      SplitWithout(s[1..], sep);
      assert [s[0]] + s[1..] == s;
    }
  }

  /** The pieces between the separators of all parts. */
  function Pieces(parts: seq<string>, sep: string): seq<string>
    requires sep != ""
  {
    if parts == [] then [] else Split(parts[0], sep) + Pieces(parts[1..], sep)
  }

  lemma GlueFresh(p: seq<string>, q: seq<string>)
    requires p != []
    ensures Glue(p, [""] + q) == p + q
  {
    assert p[|p| - 1] + "" == p[|p| - 1];
    assert ([""] + q)[1..] == q;
  }

  /** Splitting joined parts gives the pieces of the parts. */
  lemma {:induction false} SplitJoin(parts: seq<string>, sep: string)
    requires parts != [] && |sep| == 1
    ensures Split(Join(parts, sep), sep) == Pieces(parts, sep)
  {
    var first := parts[0];
    if |parts| == 1 {
      assert Pieces(parts[1..], sep) == [];
    } else {
      var rest := Join(parts[1..], sep);
      SplitJoin(parts[1..], sep);
      ConcatAssoc(first, sep, rest);
      SplitHit(rest, sep);
      SplitParts(first, sep + rest, sep);
      GlueFresh(Split(first, sep), Split(rest, sep));
    }
  }

  /** Two lists are joined alike exactly if their pieces are the same. */
  lemma JoinAlikeIff(a: seq<string>, b: seq<string>, sep: string)
    requires a != [] && b != [] && |sep| == 1
    ensures Join(a, sep) == Join(b, sep) <==> Pieces(a, sep) == Pieces(b, sep)
  {
    SplitJoin(a, sep);
    SplitJoin(b, sep);
    JoinSplit(Join(a, sep), sep);
    JoinSplit(Join(b, sep), sep);
  }

  lemma {:induction false} PiecesWithout(parts: seq<string>, sep: string)
    requires sep != "" && forall i :: 0 <= i < |parts| ==> !Contains(parts[i], sep)
    ensures Pieces(parts, sep) == parts
  {
    if parts != [] {
      SplitWithout(parts[0], sep);
      PiecesWithout(parts[1..], sep);
      assert [parts[0]] + parts[1..] == parts;
    }
  }

  /** Unicode white space, as strings.TrimSpace removes it. */
  predicate IsSpace(c: char) {
    c in {'\t', '\n', '\U{000B}', '\U{000C}', '\r', ' ', '\U{0085}', '\U{00A0}', '\U{1680}', '\U{2028}', '\U{2029}',
          '\U{202F}', '\U{205F}', '\U{3000}'}
    || '\U{2000}' <= c <= '\U{200A}'
  }

  function TrimLeft(s: string): string {
    if s != "" && IsSpace(s[0]) then TrimLeft(s[1..]) else s
  }

  function TrimRight(s: string): string {
    if s != "" && IsSpace(s[|s| - 1]) then TrimRight(s[..|s| - 1]) else s
  }

  function TrimSpace(s: string): string {
    TrimRight(TrimLeft(s))
  }

  lemma {:induction false} TrimLeftBeforeSpace(s: string)
    ensures TrimLeft(s + " ") == if TrimLeft(s) == "" then "" else TrimLeft(s) + " "
  {
    if s == "" {
      assert s + " " == " ";
      assert " "[1..] == "";
    } else {
      assert (s + " ")[1..] == s[1..] + " ";
      if IsSpace(s[0]) {
        TrimLeftBeforeSpace(s[1..]);
      }
    }
  }

  /** A space on either side is trimmed. */
  lemma TrimOuterSpace(s: string)
    ensures TrimSpace(s + " ") == TrimSpace(s) && TrimSpace(" " + s) == TrimSpace(s)
  {
    TrimLeftBeforeSpace(s);
    var t := TrimLeft(s);
    assert (t + " ")[..|t|] == t;
    assert (" " + s)[1..] == s;
  }

  lemma TrimNothing(s: string)
    requires s != "" ==> !IsSpace(s[0]) && !IsSpace(s[|s| - 1])
    ensures TrimSpace(s) == s
  {
  }

  /** A text without the first character of x does not contain x. */
  lemma {:induction false} ContainsNeedsFirst(s: string, x: string)
    requires x != "" && forall k :: 0 <= k < |s| ==> s[k] != x[0]
    ensures !Contains(s, x)
  {
    if s != "" {
      ContainsNeedsFirst(s[1..], x);
      assert s[0] != x[0];
    }
  }
}
