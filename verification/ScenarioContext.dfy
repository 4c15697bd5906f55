/**
 Substitution of scenario variables.  ResolveWithScenarioContext replaces one variable after the other in
 the unspecified order of Go's map iteration; the meaning behind it is one simultaneous substitution.
 */
module ScenarioContext {
  import opened Sequences
  import opened GoStrings
  import opened Optional

  type Context = map<string, string>

  function Placeholder(name: string): string {
    "{" + name + "}"
  }

  predicate IsBrace(c: char) {
    c == '{' || c == '}'
  }

  predicate BraceFree(s: string) {
    forall k :: 0 <= k < |s| ==> !IsBrace(s[k])
  }

  /** Names and values of the context contain no brace. */
  ghost predicate Plain(ctx: Context) {
    forall n :: n in ctx ==> BraceFree(n) && BraceFree(ctx[n])
  }

  /** The names of the context contain no brace; the values may. */
  ghost predicate PlainNames(ctx: Context) {
    forall n :: n in ctx ==> BraceFree(n)
  }

  /** The longest brace-free prefix. */
  function UpToBrace(s: string): (p: string)
    ensures p <= s && BraceFree(p)
    ensures |p| < |s| ==> IsBrace(s[|p|])
  {
    if s == "" || IsBrace(s[0]) then "" else [s[0]] + UpToBrace(s[1..])
  }

  /** The text starts with the placeholder of a variable of the context. */
  predicate Known(ctx: Context, s: string) {
    s != "" && s[0] == '{' &&
    var n := UpToBrace(s[1..]);
    |n| + 1 < |s| && s[|n| + 1] == '}' && n in ctx
  }

  /** What follows the placeholder at the start of the text. */
  function AfterName(s: string): string
    requires s != "" && |UpToBrace(s[1..])| + 1 < |s|
  {
    s[|UpToBrace(s[1..])| + 2..]
  }

  /** All variables at once: one pass from left to right that replaces every placeholder it meets. */
  function Subst(ctx: Context, s: string): string
    decreases |s|
  {
    if s == "" then ""
    else if Known(ctx, s) then ctx[UpToBrace(s[1..])] + Subst(ctx, AfterName(s))
    else [s[0]] + Subst(ctx, s[1..])
  }

  /** A placeholder of the context occurs in the text. */
  ghost predicate HasKnown(ctx: Context, s: string) {
    exists i :: 0 <= i < |s| && Known(ctx, s[i..])
  }

  /** The text with its placeholders resolved, when no other brace occurs in it. */
  function Flat(ctx: Context, t: string): Option<string>
    decreases |t|
  {
    if t == "" then Some("")
    else if Known(ctx, t) then
      match Flat(ctx, AfterName(t))
      case Some(r) => Some(ctx[UpToBrace(t[1..])] + r)
      case None => None
    else if IsBrace(t[0]) then None
    else
      match Flat(ctx, t[1..])
      case Some(r) => Some([t[0]] + r)
      case None => None
  }

  /** The braces at i and j enclose at least one placeholder, and with it resolved they enclose the name
      of a variable: a first replacement makes a new placeholder. */
  predicate CapturesAt(ctx: Context, s: string, i: nat, j: nat)
    requires i < j < |s|
  {
    && s[i] == '{' && s[j] == '}'
    && !BraceFree(s[i + 1..j])
    && Flat(ctx, s[i + 1..j]).Some?
    && Flat(ctx, s[i + 1..j]).value in ctx
  }

  ghost predicate Captures(ctx: Context, s: string) {
    exists i, j :: 0 <= i < j < |s| && CapturesAt(ctx, s, i, j)
  }

  // ---------- Placeholders at the start of a text ----------

  lemma {:induction false} UpToBraceOf(p: string, t: string)
    requires BraceFree(p) && t != "" && IsBrace(t[0])
    ensures UpToBrace(p + t) == p
  {
    if p == "" {
      assert p + t == t;
    } else {
      UpToBraceOf(p[1..], t);
      assert (p + t)[1..] == p[1..] + t;
    }
  }

  /** A brace-free name's placeholder starts the text exactly when the scan finds that name. */
  lemma PlaceholderPrefix(n: string, s: string)
    requires BraceFree(n)
    ensures Placeholder(n) <= s
       <==> s != "" && s[0] == '{' && UpToBrace(s[1..]) == n && |n| + 1 < |s| && s[|n| + 1] == '}'
  {
    if Placeholder(n) <= s {
      var t := s[|n| + 1..];
      assert s[1..] == n + t;
      UpToBraceOf(n, t);
    }
  }

  lemma KnownPlaceholder(ctx: Context, n: string, t: string)
    requires BraceFree(n)
    ensures Known(ctx, Placeholder(n) + t) <==> n in ctx
    ensures UpToBrace((Placeholder(n) + t)[1..]) == n && AfterName(Placeholder(n) + t) == t
  {
    PlaceholderPrefix(n, Placeholder(n) + t);
  }

  /** Replacing one variable is the simultaneous substitution of that one variable. */
  lemma {:induction false} ReplaceAllIsSubst(n: string, v: string, s: string)
    requires BraceFree(n)
    ensures ReplaceAll(s, Placeholder(n), v) == Subst(map[n := v], s)
    decreases |s|
  {
    if s != "" {
      PlaceholderPrefix(n, s);
      assert Known(map[n := v], s) <==> Placeholder(n) <= s;
      if Placeholder(n) <= s {
        assert s[|Placeholder(n)|..] == AfterName(s);
        ReplaceAllIsSubst(n, v, AfterName(s));
      } else {
        ReplaceAllIsSubst(n, v, s[1..]);
      }
    }
  }

  lemma {:induction false} SubstAfterBraceFree(ctx: Context, p: string, t: string)
    requires BraceFree(p)
    ensures Subst(ctx, p + t) == p + Subst(ctx, t)
    decreases |p|
  {
    if p == "" {
      assert p + t == t;
    } else {
      assert !Known(ctx, p + t);
      assert (p + t)[1..] == p[1..] + t;
      SubstAfterBraceFree(ctx, p[1..], t);
    }
  }

  /** Cutting the text behind the placeholder does not change the placeholder. */
  lemma KnownInPrefix(ctx: Context, t: string, u: string)
    requires t <= u && Known(ctx, u) && |UpToBrace(u[1..])| + 1 < |t|
    ensures Known(ctx, t) && UpToBrace(t[1..]) == UpToBrace(u[1..]) && AfterName(t) <= AfterName(u)
  {
    var n := UpToBrace(u[1..]);
    assert t[1..] == n + t[|n| + 1..];
    UpToBraceOf(n, t[|n| + 1..]);
  }

  /** A brace-free name at the start of v + rest, up to its '}', extends the brace-free v. */
  lemma NameBehindValue(v: string, rest: string, m: string)
    requires BraceFree(v) && BraceFree(m) && m + "}" <= v + rest
    ensures v <= m && m[|v|..] + "}" <= rest
  {
    var w := v + rest;
    assert w[|m|] == (m + "}")[|m|] == '}';
    assert w[..|m|] == (m + "}")[..|m|] == m;
    assert w[|v|..] == rest;
    assert w[..|m| + 1][|v|..] == m[|v|..] + "}";
  }

  /** The text up to the '}' at j resolves to m. */
  predicate ClosesAt(ctx: Context, u: string, j: nat, m: string) {
    j < |u| && u[j] == '}' && Flat(ctx, u[..j]) == Some(m)
  }

  /** What resolves behind the placeholder at the start resolves with it. */
  lemma FlatWithPlaceholder(ctx: Context, u: string, j: nat, m: string)
    requires Known(ctx, u) && ClosesAt(ctx, AfterName(u), j, m)
    ensures ClosesAt(ctx, u, |UpToBrace(u[1..])| + 2 + j, ctx[UpToBrace(u[1..])] + m)
  {
    var k := |UpToBrace(u[1..])| + 2 + j;
    KnownInPrefix(ctx, u[..k], u);
    assert AfterName(u[..k]) == AfterName(u)[..j];
  }

  lemma FlatWithChar(ctx: Context, u: string, j: nat, m: string)
    requires u != "" && !IsBrace(u[0]) && ClosesAt(ctx, u[1..], j, m)
    ensures ClosesAt(ctx, u, j + 1, [u[0]] + m)
  {
    assert u[..j + 1][1..] == u[1..][..j];
  }

  /** A closed name behind a character of the text. */
  lemma NameBehindChar(c: char, rest: string, m: string)
    requires BraceFree(m) && m + "}" <= [c] + rest && c != '}'
    ensures m != "" && m[0] == c && m[1..] + "}" <= rest
  {
    var p := m + "}";
    assert p[0] == ([c] + rest)[0] == c;
    assert p[1..] == m[1..] + "}" && ([c] + rest)[1..] == rest;
    assert ([c] + rest)[..|p|][1..] == rest[..|p| - 1];
  }

  /** A closed name in the substituted text goes on behind the placeholder at the start. */
  lemma NameOverPlaceholder(ctx: Context, u: string, m: string)
    requires Plain(ctx) && BraceFree(m) && Known(ctx, u) && m + "}" <= Subst(ctx, u)
    ensures var v := ctx[UpToBrace(u[1..])];
      v <= m && v + m[|v|..] == m && BraceFree(m[|v|..]) && m[|v|..] + "}" <= Subst(ctx, AfterName(u))
  {
    NameBehindValue(ctx[UpToBrace(u[1..])], Subst(ctx, AfterName(u)), m);
  }

  /** Or behind the character at the start, unless that closes it. */
  lemma NameOverChar(ctx: Context, u: string, m: string)
    requires BraceFree(m) && !Known(ctx, u) && m + "}" <= Subst(ctx, u)
    ensures u != ""
    ensures if u[0] == '}' then m == ""
            else !IsBrace(u[0]) && m != "" && [u[0]] + m[1..] == m && m[1..] + "}" <= Subst(ctx, u[1..])
  {
    assert u != "";
    if u[0] == '}' {
      ClosedAtOnce(u[0], Subst(ctx, u[1..]), m);
    } else {
      NameBehindChar(u[0], Subst(ctx, u[1..]), m);
      assert [m[0]] + m[1..] == m;
    }
  }

  /** If the substituted text starts with a brace-free name and '}', then so does the text itself, with
      placeholders in the name resolved. */
  lemma {:induction false} NameInSubst(ctx: Context, u: string, m: string) returns (j: nat)
    requires Plain(ctx) && BraceFree(m) && m + "}" <= Subst(ctx, u)
    ensures ClosesAt(ctx, u, j, m)
    decreases |u|, 1
  {
    if Known(ctx, u) {
      var v := ctx[UpToBrace(u[1..])];
      NameOverPlaceholder(ctx, u, m);
      j := NameInSubst(ctx, AfterName(u), m[|v|..]);
      FlatWithPlaceholder(ctx, u, j, m[|v|..]);
      j := |UpToBrace(u[1..])| + 2 + j;
    } else {
      NameOverChar(ctx, u, m);
      j := NameBehindStart(ctx, u, m);
    }
  }

  lemma NameBehindStart(ctx: Context, u: string, m: string) returns (j: nat)
    requires Plain(ctx) && BraceFree(m) && u != "" && !Known(ctx, u)
    requires if u[0] == '}' then m == ""
             else !IsBrace(u[0]) && m != "" && [u[0]] + m[1..] == m && m[1..] + "}" <= Subst(ctx, u[1..])
    ensures ClosesAt(ctx, u, j, m)
    decreases |u|, 0
  {
    if u[0] == '}' {
      j := 0;
      assert u[..0] == "";
    } else {
      j := NameInSubst(ctx, u[1..], m[1..]);
      FlatWithChar(ctx, u, j, m[1..]);
      j := j + 1;
    }
  }

  lemma ClosedAtOnce(c: char, rest: string, m: string)
    requires BraceFree(m) && m + "}" <= [c] + rest && c == '}'
    ensures m == ""
  {
    assert (m + "}")[0] == ([c] + rest)[0] == c;
    FirstOfClosedName(m);
  }

  lemma FirstOfClosedName(m: string)
    ensures (m + "}")[0] == if m == "" then '}' else m[0]
  {
  }

  /** Adding a variable keeps what was resolved already. */
  lemma {:induction false} FlatIsMonotone(small: Context, big: Context, t: string)
    requires small.Keys <= big.Keys && forall n :: n in small ==> small[n] == big[n]
    ensures Flat(small, t).Some? ==> Flat(big, t) == Flat(small, t)
    decreases |t|
  {
    if t == "" {
    } else if Known(small, t) {
      FlatIsMonotone(small, big, AfterName(t));
    } else if !IsBrace(t[0]) {
      FlatIsMonotone(small, big, t[1..]);
    }
  }

  lemma {:induction false} FlatOfBraceFree(ctx: Context, t: string)
    requires BraceFree(t)
    ensures Flat(ctx, t) == Some(t)
    decreases |t|
  {
    if t != "" {
      FlatOfBraceFree(ctx, t[1..]);
      assert [t[0]] + t[1..] == t;
    }
  }

  /** A capture behind a prefix is a capture of the whole. */
  lemma CapturesInSuffix(ctx: Context, s: string, k: nat)
    requires k <= |s| && Captures(ctx, s[k..])
    ensures Captures(ctx, s)
  {
    var i, j :| 0 <= i < j < |s[k..]| && CapturesAt(ctx, s[k..], i, j);
    assert s[k..][i + 1..j] == s[k + i + 1..k + j];
    assert CapturesAt(ctx, s, k + i, k + j);
  }

  lemma NameIsKnown(ctx: Context, s: string, j: nat)
    requires j + 1 < |s| && s[0] == '{' && s[j + 1] == '}' && BraceFree(s[1..j + 1]) && s[1..j + 1] in ctx
    ensures Known(ctx, s)
  {
    assert s[1..] == s[1..j + 1] + s[j + 1..];
    UpToBraceOf(s[1..j + 1], s[j + 1..]);
  }

  /** If substituting some of the variables puts the name of a variable between the brace at the start of
      the text and the next one, that is a capture. */
  lemma NewPlaceholderIsCapture(small: Context, big: Context, s: string, m: string)
    requires Plain(big) && small.Keys <= big.Keys && forall n :: n in small ==> small[n] == big[n]
    requires s != "" && s[0] == '{' && !Known(big, s)
    requires m in big && m + "}" <= Subst(small, s[1..])
    ensures Captures(big, s)
  {
    var j := NameInSubst(small, s[1..], m);
    var t := s[1..][..j];
    assert t == s[1..j + 1];
    FlatIsMonotone(small, big, t);
    if BraceFree(t) {
      FlatOfBraceFree(small, t);
      NameIsKnown(big, s, j);
      assert false;
    }
    assert CapturesAt(big, s, 0, j + 1);
  }

  /** A placeholder of a variable outside the context is left alone. */
  lemma SubstUnknown(ctx: Context, n: string, s: string)
    requires n !in ctx && s != "" && s[0] == '{' && UpToBrace(s[1..]) == n && |n| + 1 < |s| && s[|n| + 1] == '}'
    ensures Subst(ctx, s) == Placeholder(n) + Subst(ctx, AfterName(s))
  {
    var rest, end := AfterName(s), Subst(ctx, AfterName(s));
    SubstBehindOpening(ctx, s);
    OpenedName(s);
    SubstAfterBraceFree(ctx, n, "}" + rest);
    SubstBehindBrace(ctx, rest);
    PlaceholderBefore(n, end);
  }

  lemma OpenedName(s: string)
    requires s != "" && |UpToBrace(s[1..])| + 1 < |s| && s[|UpToBrace(s[1..])| + 1] == '}'
    ensures s[1..] == UpToBrace(s[1..]) + ("}" + AfterName(s))
  {
    var n := UpToBrace(s[1..]);
    assert s[1..] == n + s[|n| + 1..] && s[|n| + 1..] == "}" + s[|n| + 2..];
  }

  lemma SubstBehindOpening(ctx: Context, s: string)
    requires s != "" && s[0] == '{' && !Known(ctx, s)
    ensures Subst(ctx, s) == "{" + Subst(ctx, s[1..])
  {
  }

  lemma PlaceholderBefore(n: string, end: string)
    ensures "{" + (n + ("}" + end)) == Placeholder(n) + end
  {
    ConcatAssoc(n, "}", end);
    ConcatAssoc("{", n + "}", end);
    ConcatAssoc("{", n, "}");
  }

  lemma SubstBehindBrace(ctx: Context, rest: string)
    ensures Subst(ctx, "}" + rest) == "}" + Subst(ctx, rest)
  {
    assert ("}" + rest)[1..] == rest;
  }

  ghost predicate Extends(small: Context, big: Context) {
    small.Keys <= big.Keys && forall n :: n in small ==> small[n] == big[n]
  }

  /** A text at the start of a + x lies in a, or covers a and goes on into x. */
  lemma PrefixOfParts(p: string, a: string, x: string)
    ensures p <= a + x <==> if |p| <= |a| then p <= a else a <= p && p[|a|..] <= x
  {
    if |p| <= |a| {
      assert (a + x)[..|p|] == a[..|p|];
    } else if |p| <= |a + x| {
      assert (a + x)[..|p|] == a + x[..|p| - |a|];
      assert p == p[..|a|] + p[|a|..];
    }
  }

  /** A closed name at the start of the substituted text contains no '{', so no placeholder that is left to
      replace: it stays when further variables are substituted. */
  lemma {:induction false} NameSurvives(small: Context, big: Context, t: string, u: string)
    requires Extends(small, big) && BraceFree(u) && u + "}" <= Subst(small, t)
    ensures u + "}" <= Subst(big, t)
    decreases |t|, 0
  {
    if Known(small, t) {
      NameSurvivesBehind(small, big, small[UpToBrace(t[1..])], AfterName(t), u);
    } else {
      NameStartsPlainly(small, t, u);
      NameSurvivesBehind(small, big, [t[0]], t[1..], u);
    }
  }

  lemma NameStartsPlainly(ctx: Context, t: string, u: string)
    requires BraceFree(u) && !Known(ctx, t) && u + "}" <= Subst(ctx, t)
    ensures t != "" && t[0] != '{'
  {
    NameOverChar(ctx, t, u);
  }

  lemma NameSurvivesBehind(small: Context, big: Context, v: string, t: string, u: string)
    requires Extends(small, big) && BraceFree(u) && u + "}" <= v + Subst(small, t)
    ensures u + "}" <= v + Subst(big, t)
    decreases |t|, 1
  {
    var p := u + "}";
    PrefixOfParts(p, v, Subst(small, t));
    PrefixOfParts(p, v, Subst(big, t));
    if |p| > |v| {
      assert p[|v|..] == u[|v|..] + "}";
      NameSurvives(small, big, t, u[|v|..]);
    }
  }

  /** So does a placeholder that starts in a text which is not substituted any more. */
  lemma PlaceholderSurvives(small: Context, big: Context, a: string, t: string, p: nat, n: string)
    requires Extends(small, big) && BraceFree(n) && p < |a| && Placeholder(n) <= (a + Subst(small, t))[p..]
    ensures Placeholder(n) <= (a + Subst(big, t))[p..]
  {
    var b, m := a[p..], Placeholder(n);
    DropInto(a, Subst(small, t), p);
    DropInto(a, Subst(big, t), p);
    PrefixOfParts(m, b, Subst(small, t));
    PrefixOfParts(m, b, Subst(big, t));
    if |m| > |b| {
      PlaceholderTail(n, |b|);
      NameSurvives(small, big, t, n[|b| - 1..]);
    }
  }

  lemma DropInto(a: string, x: string, p: nat)
    requires p <= |a|
    ensures (a + x)[p..] == a[p..] + x
  {
  }

  lemma PlaceholderTail(n: string, k: nat)
    requires 0 < k < |Placeholder(n)|
    ensures Placeholder(n)[k..] == n[k - 1..] + "}"
  {
  }

  lemma KnownIsPlaceholder(ctx: Context, w: string)
    requires Known(ctx, w)
    ensures UpToBrace(w[1..]) in ctx && Placeholder(UpToBrace(w[1..])) <= w
  {
    PlaceholderPrefix(UpToBrace(w[1..]), w);
  }

  /** A placeholder of the larger context in the substituted text. */
  lemma SurvivorIsKnown(big: Context, w: string, p: nat, n: string)
    requires p < |w| && n in big && BraceFree(n) && Placeholder(n) <= w[p..]
    ensures HasKnown(big, w)
  {
    PlaceholderPrefix(n, w[p..]);
  }

  /** Replacing one variable skips a text in which its placeholder does not start. */
  lemma {:induction false} SubstSkips(n: string, v: string, a: string, x: string)
    requires BraceFree(n) && forall p :: 0 <= p < |a| ==> !(Placeholder(n) <= (a + x)[p..])
    ensures Subst(map[n := v], a + x) == a + Subst(map[n := v], x)
    decreases |a|
  {
    if a == "" {
      assert a + x == x;
    } else {
      assert (a + x)[0..] == a + x;
      SubstSkipsFirst(n, v, a, x);
      forall p | 0 <= p < |a| - 1
        ensures !(Placeholder(n) <= (a[1..] + x)[p..])
      {
        assert (a[1..] + x)[p..] == (a + x)[p + 1..];
      }
      SubstSkips(n, v, a[1..], x);
      ConcatAssoc([a[0]], a[1..], Subst(map[n := v], x));
    }
  }

  lemma SubstSkipsFirst(n: string, v: string, a: string, x: string)
    requires BraceFree(n) && a != "" && !(Placeholder(n) <= a + x)
    ensures Subst(map[n := v], a + x) == [a[0]] + Subst(map[n := v], a[1..] + x)
  {
    PlaceholderPrefix(n, a + x);
    assert !Known(map[n := v], a + x);
    assert (a + x)[1..] == a[1..] + x;
  }

  /** The image of one item, with the last variable still to replace behind it. */
  lemma OneMoreBehind(small: Context, n: string, v: string, a: string, t: string)
    requires n !in small && PlainNames(small[n := v]) && !HasKnown(small[n := v], a + Subst(small[n := v], t))
    requires Subst(map[n := v], Subst(small, t)) == Subst(small[n := v], t)
    ensures Subst(map[n := v], a + Subst(small, t)) == a + Subst(small[n := v], t)
  {
    var big := small[n := v];
    forall p | 0 <= p < |a|
      ensures !(Placeholder(n) <= (a + Subst(small, t))[p..])
    {
      if Placeholder(n) <= (a + Subst(small, t))[p..] {
        PlaceholderSurvives(small, big, a, t, p, n);
        SurvivorIsKnown(big, a + Subst(big, t), p, n);
        assert false;
      }
    }
    SubstSkips(n, v, a, Subst(small, t));
  }

  lemma OneMoreItself(small: Context, n: string, v: string, s: string)
    requires n !in small && BraceFree(n) && Known(small[n := v], s) && UpToBrace(s[1..]) == n
    requires Subst(map[n := v], Subst(small, AfterName(s))) == Subst(small[n := v], AfterName(s))
    ensures Subst(map[n := v], Subst(small, s)) == Subst(small[n := v], s)
  {
    SubstUnknown(small, n, s);
    KnownPlaceholder(map[n := v], n, Subst(small, AfterName(s)));
  }

  /** Substituting all variables but one, and then the last one, is substituting them all, if that leaves no
      placeholder. */
  lemma {:induction false} SubstOneMore(small: Context, n: string, v: string, s: string)
    requires n !in small && PlainNames(small[n := v]) && !HasKnown(small[n := v], Subst(small[n := v], s))
    ensures Subst(map[n := v], Subst(small, s)) == Subst(small[n := v], s)
    decreases |s|
  {
    var big := small[n := v];
    if s != "" {
      var known := Known(big, s);
      var k := if known then |UpToBrace(s[1..])| + 2 else 1;
      var a := if known then big[UpToBrace(s[1..])] else [s[0]];
      assert Subst(big, s) == a + Subst(big, s[k..]);
      NothingBehind(big, a, Subst(big, s[k..]));
      SubstOneMore(small, n, v, s[k..]);
      if known && UpToBrace(s[1..]) == n {
        OneMoreItself(small, n, v, s);
      } else {
        assert Subst(small, s) == a + Subst(small, s[k..]);
        OneMoreBehind(small, n, v, a, s[k..]);
      }
    }
  }

  lemma NothingBehind(ctx: Context, a: string, x: string)
    requires !HasKnown(ctx, a + x)
    ensures !HasKnown(ctx, x)
  {
    if HasKnown(ctx, x) {
      KnownBehind(ctx, a, x);
      assert false;
    }
  }

  lemma HasKnownInSuffix(ctx: Context, s: string, k: nat)
    requires k <= |s| && HasKnown(ctx, s[k..])
    ensures HasKnown(ctx, s)
  {
    var i :| 0 <= i < |s[k..]| && Known(ctx, s[k..][i..]);
    assert s[k..][i..] == s[k + i..];
  }

  lemma DropBehind(p: string, t: string, i: nat)
    requires |p| <= i <= |p + t|
    ensures (p + t)[i..] == t[i - |p|..]
  {
  }

  /** A placeholder in a + x starts in a or lies in x. */
  lemma KnownInParts(ctx: Context, a: string, x: string, i: nat)
    requires i < |a + x| && Known(ctx, (a + x)[i..]) && i >= |a|
    ensures HasKnown(ctx, x)
  {
    DropBehind(a, x, i);
  }

  /** In the placeholder of another variable no placeholder starts. */
  lemma NoneStartsInUnknown(ctx: Context, m: string, x: string, i: nat)
    requires m !in ctx && BraceFree(m) && i < |Placeholder(m) + x| && Known(ctx, (Placeholder(m) + x)[i..])
    ensures i >= |Placeholder(m)|
  {
    var w := Placeholder(m) + x;
    assert w[i] == '{';
    KnownPlaceholder(ctx, m, x);
    assert w[0..] == w;
    assert forall k :: 0 < k < |Placeholder(m)| ==> w[k] == Placeholder(m)[k] != '{';
  }

  lemma KnownBehindUnknown(ctx: Context, m: string, x: string)
    requires m !in ctx && BraceFree(m) && HasKnown(ctx, Placeholder(m) + x)
    ensures HasKnown(ctx, x)
  {
    var i :| 0 <= i < |Placeholder(m) + x| && Known(ctx, (Placeholder(m) + x)[i..]);
    NoneStartsInUnknown(ctx, m, x, i);
    KnownInParts(ctx, Placeholder(m), x, i);
  }

  /** What some of the variables leave behind, all of them leave behind. */
  lemma {:induction false} MoreVariablesLeaveMore(small: Context, big: Context, s: string)
    requires Extends(small, big) && PlainNames(big) && HasKnown(small, Subst(small, s))
    ensures HasKnown(big, Subst(big, s))
    decreases |s|
  {
    assert s != "";
    if Known(big, s) && !Known(small, s) {
      var m := UpToBrace(s[1..]);
      SubstUnknown(small, m, s);
      KnownBehindUnknown(small, m, Subst(small, AfterName(s)));
      MoreVariablesLeaveMore(small, big, AfterName(s));
      KnownBehind(big, big[m], Subst(big, AfterName(s)));
    } else {
      var k := if Known(small, s) then |UpToBrace(s[1..])| + 2 else 1;
      var a := if Known(small, s) then small[UpToBrace(s[1..])] else [s[0]];
      assert Subst(small, s) == a + Subst(small, s[k..]) && Subst(big, s) == a + Subst(big, s[k..]);
      ItemLeavesMore(small, big, a, s[k..]);
      if HasKnown(small, Subst(small, s[k..])) {
        MoreVariablesLeaveMore(small, big, s[k..]);
        KnownBehind(big, a, Subst(big, s[k..]));
      }
    }
  }

  lemma KnownBehind(ctx: Context, a: string, x: string)
    requires HasKnown(ctx, x)
    ensures HasKnown(ctx, a + x)
  {
    assert (a + x)[|a|..] == x;
    HasKnownInSuffix(ctx, a + x, |a|);
  }

  lemma ItemLeavesMore(small: Context, big: Context, a: string, t: string)
    requires Extends(small, big) && PlainNames(big) && HasKnown(small, a + Subst(small, t))
    ensures HasKnown(small, Subst(small, t)) || HasKnown(big, a + Subst(big, t))
  {
    var w := a + Subst(small, t);
    var i :| 0 <= i < |w| && Known(small, w[i..]);
    if i < |a| {
      KnownIsPlaceholder(small, w[i..]);
      var n := UpToBrace(w[i..][1..]);
      PlaceholderSurvives(small, big, a, t, i, n);
      SurvivorIsKnown(big, a + Subst(big, t), i, n);
    } else {
      KnownInParts(small, a, Subst(small, t), i);
    }
  }

  // ---------- One variable after the other ----------

  /** Replaces the variables in the given order. */
  function ReplaceInOrder(ctx: Context, names: seq<string>, s: string): string
    requires forall n :: n in names ==> n in ctx
  {
    if names == [] then s
    else
      var n := names[|names| - 1];
      ReplaceAll(ReplaceInOrder(ctx, names[..|names| - 1], s), Placeholder(n), ctx[n])
  }

  ghost predicate Distinct(names: seq<string>) {
    forall i, j :: 0 <= i < j < |names| ==> names[i] != names[j]
  }

  /** An order in which the map iteration may produce the variables. */
  ghost predicate IsOrder(ctx: Context, names: seq<string>) {
    Distinct(names) && forall n :: n in names <==> n in ctx
  }

  function Restrict(ctx: Context, names: seq<string>): Context {
    map n | n in names && n in ctx :: ctx[n]
  }

  lemma RestrictSnoc(ctx: Context, first: seq<string>, n: string)
    requires n in ctx
    ensures Restrict(ctx, first + [n]) == Restrict(ctx, first)[n := ctx[n]]
  {
    assert forall x :: x in first + [n] <==> x in first || x == n;
  }

  /** For values of any kind: replacing some variables in some order substitutes them all at once, if
      substituting the whole context at once leaves no placeholder. */
  lemma {:induction false} ReplaceInOrderIsSubst(ctx: Context, names: seq<string>, s: string)
    requires PlainNames(ctx) && !HasKnown(ctx, Subst(ctx, s)) && Distinct(names) && forall n :: n in names ==> n in ctx
    ensures ReplaceInOrder(ctx, names, s) == Subst(Restrict(ctx, names), s)
    decreases |names|
  {
    if names == [] {
      assert Restrict(ctx, names) == map[];
      SubstNothing(s);
    } else {
      var first, n := names[..|names| - 1], names[|names| - 1];
      var small := Restrict(ctx, first);
      assert n !in first && names == first + [n];
      RestrictSnoc(ctx, first, n);
      ReplaceInOrderIsSubst(ctx, first, s);
      ReplaceAllIsSubst(n, ctx[n], Subst(small, s));
      if HasKnown(small[n := ctx[n]], Subst(small[n := ctx[n]], s)) {
        MoreVariablesLeaveMore(small[n := ctx[n]], ctx, s);
        assert false;
      }
      SubstOneMore(small, n, ctx[n], s);
    }
  }

  lemma {:induction false} SubstNothing(s: string)
    ensures Subst(map[], s) == s
    decreases |s|
  {
    if s != "" {
      SubstNothing(s[1..]);
    }
  }

  // ---------- What is left after one pass ----------

  /** A placeholder in p + t with brace-free p lies in t. */
  lemma HasKnownBehind(ctx: Context, p: string, t: string)
    requires BraceFree(p) && HasKnown(ctx, p + t)
    ensures HasKnown(ctx, t)
  {
    var i :| 0 <= i < |p + t| && Known(ctx, (p + t)[i..]);
    assert (p + t)[i] == '{' && forall x :: 0 <= x < |p| ==> !IsBrace((p + t)[x]);
    DropBehind(p, t, i);
  }

  lemma NameThenBrace(t: string)
    requires |UpToBrace(t)| < |t| && t[|UpToBrace(t)|] == '}'
    ensures UpToBrace(t) + "}" <= t
  {
    assert t[..|UpToBrace(t)| + 1] == UpToBrace(t) + "}";
  }

  /** A placeholder at the very start of the substituted text comes from a capture. */
  lemma KnownAtStart(ctx: Context, s: string)
    requires Plain(ctx) && s != "" && !Known(ctx, s) && Known(ctx, Subst(ctx, s))
    ensures Captures(ctx, s)
  {
    var w := Subst(ctx, s);
    assert w == [s[0]] + Subst(ctx, s[1..]);
    assert w[1..] == Subst(ctx, s[1..]);
    NameThenBrace(w[1..]);
    NewPlaceholderIsCapture(ctx, ctx, s, UpToBrace(w[1..]));
  }

  /** A pass over a text without capture leaves no placeholder of the context. */
  lemma {:induction false} SubstLeavesNothing(ctx: Context, s: string)
    requires Plain(ctx) && HasKnown(ctx, Subst(ctx, s))
    ensures Captures(ctx, s)
    decreases |s|
  {
    if s == "" {
      assert false;
    } else if Known(ctx, s) {
      var n := UpToBrace(s[1..]);
      HasKnownBehind(ctx, ctx[n], Subst(ctx, AfterName(s)));
      SubstLeavesNothing(ctx, AfterName(s));
      CapturesInSuffix(ctx, s, |n| + 2);
    } else if Known(ctx, Subst(ctx, s)) {
      KnownAtStart(ctx, s);
    } else {
      HasKnownBehindFirst(ctx, s[0], Subst(ctx, s[1..]));
      SubstLeavesNothing(ctx, s[1..]);
      CapturesInSuffix(ctx, s, 1);
    }
  }

  lemma HasKnownBehindFirst(ctx: Context, c: char, t: string)
    requires HasKnown(ctx, [c] + t) && !Known(ctx, [c] + t)
    ensures HasKnown(ctx, t)
  {
    var w := [c] + t;
    var i :| 0 <= i < |w| && Known(ctx, w[i..]);
    assert w[0..] == w;
    assert w[i..] == t[i - 1..];
  }

  lemma SubstKnown(ctx: Context, s: string)
    requires Known(ctx, s)
    ensures Subst(ctx, s) == ctx[UpToBrace(s[1..])] + Subst(ctx, AfterName(s))
  {
  }

  lemma SubstKnownInFront(ctx: Context, t: string, u: string)
    requires Known(ctx, t)
    ensures Subst(ctx, t + u) == ctx[UpToBrace(t[1..])] + Subst(ctx, AfterName(t) + u)
  {
    KnownInSuperText(ctx, t, u);
    assert AfterName(t + u) == AfterName(t) + u;
    SubstKnown(ctx, t + u);
  }

  lemma {:induction false} FlatIsBraceFree(ctx: Context, t: string)
    requires Plain(ctx) && Flat(ctx, t).Some?
    ensures BraceFree(Flat(ctx, t).value)
    decreases |t|
  {
    if t == "" {
    } else if Known(ctx, t) {
      FlatIsBraceFree(ctx, AfterName(t));
    } else {
      FlatIsBraceFree(ctx, t[1..]);
    }
  }

  /** Where the enclosed text resolves, the pass resolves it too. */
  lemma {:induction false} SubstOfFlat(ctx: Context, t: string, u: string)
    requires Flat(ctx, t).Some? && u != "" && u[0] == '}'
    ensures Subst(ctx, t + u) == Flat(ctx, t).value + Subst(ctx, u)
    decreases |t|
  {
    if t == "" {
      assert t + u == u;
    } else if Known(ctx, t) {
      SubstKnownInFront(ctx, t, u);
      SubstOfFlat(ctx, AfterName(t), u);
      ConcatAssoc(ctx[UpToBrace(t[1..])], Flat(ctx, AfterName(t)).value, Subst(ctx, u));
    } else {
      SubstAfterBraceFree(ctx, [t[0]], t[1..] + u);
      ConcatAssoc([t[0]], t[1..], u);
      assert [t[0]] + t[1..] == t;
      SubstOfFlat(ctx, t[1..], u);
      ConcatAssoc([t[0]], Flat(ctx, t[1..]).value, Subst(ctx, u));
    }
  }

  /** The first brace of a text that resolves opens a placeholder. */
  lemma {:induction false} FirstInnerBrace(ctx: Context, t: string)
    requires Flat(ctx, t).Some? && !BraceFree(t)
    ensures |UpToBrace(t)| < |t| && t[|UpToBrace(t)|] == '{'
    decreases |t|
  {
    if !IsBrace(t[0]) {
      FirstInnerBrace(ctx, t[1..]);
    }
  }

  lemma KnownInSuperText(ctx: Context, t: string, u: string)
    requires Known(ctx, t)
    ensures Known(ctx, t + u) && UpToBrace((t + u)[1..]) == UpToBrace(t[1..])
  {
    var n := UpToBrace(t[1..]);
    assert (t + u)[1..] == n + (t + u)[|n| + 1..];
    UpToBraceOf(n, (t + u)[|n| + 1..]);
  }

  /** The brace that opens a capture opens no placeholder. */
  lemma CaptureIsNotKnown(ctx: Context, s: string, j: nat)
    requires 0 < j < |s| && CapturesAt(ctx, s, 0, j)
    ensures !Known(ctx, s)
  {
    var t := s[1..j];
    FirstInnerBrace(ctx, t);
    var p := UpToBrace(t);
    assert s[1..] == p + s[|p| + 1..] && s[|p| + 1] == t[|p|];
    UpToBraceOf(p, s[|p| + 1..]);
  }

  lemma CapturedText(s: string, j: nat)
    requires 0 < j < |s| && s[j] == '}'
    ensures s[1..] == s[1..j] + ("}" + s[j + 1..])
  {
    assert s[j..] == "}" + s[j + 1..];
  }

  /** A capture leaves a placeholder of the context behind. */
  lemma CaptureAtStart(ctx: Context, s: string, j: nat)
    requires Plain(ctx) && 0 < j < |s| && CapturesAt(ctx, s, 0, j)
    ensures HasKnown(ctx, Subst(ctx, s))
  {
    var t, u := s[1..j], s[j + 1..];
    var m := Flat(ctx, t).value;
    CaptureIsNotKnown(ctx, s, j);
    SubstBehindOpening(ctx, s);
    CapturedText(s, j);
    SubstOfFlat(ctx, t, "}" + u);
    SubstBehindBrace(ctx, u);
    PlaceholderBefore(m, Subst(ctx, u));
    FlatIsBraceFree(ctx, t);
    PlaceholderLeft(ctx, m, Subst(ctx, u));
  }

  lemma PlaceholderLeft(ctx: Context, m: string, rest: string)
    requires BraceFree(m) && m in ctx
    ensures HasKnown(ctx, Placeholder(m) + rest)
  {
    KnownPlaceholder(ctx, m, rest);
    assert (Placeholder(m) + rest)[0..] == Placeholder(m) + rest;
  }

  /** No brace opens inside the placeholder at the start. */
  lemma OpensBehindPlaceholder(ctx: Context, s: string, i: nat)
    requires Known(ctx, s) && 0 < i < |s| && s[i] == '{'
    ensures i >= |UpToBrace(s[1..])| + 2
  {
    var n := UpToBrace(s[1..]);
    forall x | 1 <= x <= |n|
      ensures s[x] != '{'
    {
      assert s[x] == s[1..][x - 1] == n[x - 1];
    }
  }

  lemma CapturesAtBehind(ctx: Context, s: string, i: nat, j: nat, k: nat)
    requires k <= i < j < |s| && CapturesAt(ctx, s, i, j)
    ensures CapturesAt(ctx, s[k..], i - k, j - k)
  {
    assert s[k..][i - k + 1..j - k] == s[i + 1..j];
  }

  /** A capture that is not at the start lies behind the first character or placeholder. */
  lemma CaptureBehindStart(ctx: Context, s: string, i: nat, j: nat) returns (k: nat, before: string)
    requires 0 < i < j < |s| && CapturesAt(ctx, s, i, j)
    ensures 0 < k <= |s| && Captures(ctx, s[k..]) && Subst(ctx, s) == before + Subst(ctx, s[k..])
  {
    if Known(ctx, s) {
      k, before := |UpToBrace(s[1..])| + 2, ctx[UpToBrace(s[1..])];
      OpensBehindPlaceholder(ctx, s, i);
    } else {
      k, before := 1, [s[0]];
    }
    CapturesAtBehind(ctx, s, i, j, k);
  }

  lemma {:induction false} CapturesLeavePlaceholder(ctx: Context, s: string)
    requires Plain(ctx) && Captures(ctx, s)
    ensures HasKnown(ctx, Subst(ctx, s))
    decreases |s|
  {
    var i, j :| 0 <= i < j < |s| && CapturesAt(ctx, s, i, j);
    if i == 0 {
      CaptureAtStart(ctx, s, j);
    } else {
      var k, before := CaptureBehindStart(ctx, s, i, j);
      CapturesLeavePlaceholder(ctx, s[k..]);
      assert Subst(ctx, s)[|before|..] == Subst(ctx, s[k..]);
      HasKnownInSuffix(ctx, Subst(ctx, s), |before|);
    }
  }

  // ---------- The main results ----------

  lemma {:induction false} OrderExists(ctx: Context) returns (names: seq<string>)
    ensures IsOrder(ctx, names)
    decreases |ctx|
  {
    if ctx == map[] {
      names := [];
    } else {
      var n :| n in ctx;
      var rest := ctx - {n};
      assert ctx.Keys == rest.Keys + {n};
      var order := OrderExists(rest);
      names := order + [n];
    }
  }

  lemma OneOrder(ctx: Context, names: seq<string>, s: string)
    requires PlainNames(ctx) && !HasKnown(ctx, Subst(ctx, s)) && IsOrder(ctx, names)
    ensures ReplaceInOrder(ctx, names, s) == Subst(ctx, s)
  {
    ReplaceInOrderIsSubst(ctx, names, s);
    assert Restrict(ctx, names) == ctx;
  }

  /** For brace-free names and values of any kind: every iteration order gives the simultaneous substitution and
      leaves no placeholder of the context, if and only if one simultaneous pass leaves none. */
  lemma OrderFreeIffNothingLeft(ctx: Context, s: string)
    requires PlainNames(ctx)
    ensures (forall names :: IsOrder(ctx, names) ==>
               ReplaceInOrder(ctx, names, s) == Subst(ctx, s) && !HasKnown(ctx, ReplaceInOrder(ctx, names, s)))
       <==> !HasKnown(ctx, Subst(ctx, s))
  {
    var order := OrderExists(ctx);
    if !HasKnown(ctx, Subst(ctx, s)) {
      forall names | IsOrder(ctx, names)
        ensures ReplaceInOrder(ctx, names, s) == Subst(ctx, s)
      {
        OneOrder(ctx, names, s);
      }
    }
  }

  /** With brace-free values a simultaneous pass leaves a placeholder exactly if the text captures one. */
  lemma NothingLeftIffNoCapture(ctx: Context, s: string)
    requires Plain(ctx)
    ensures HasKnown(ctx, Subst(ctx, s)) <==> Captures(ctx, s)
  {
    if Captures(ctx, s) {
      CapturesLeavePlaceholder(ctx, s);
    } else if HasKnown(ctx, Subst(ctx, s)) {
      SubstLeavesNothing(ctx, s);
      assert false;
    }
  }

  /** For brace-free names and values: every iteration order gives the simultaneous substitution and leaves
      no placeholder of the context, if and only if the text captures no new placeholder. */
  lemma OrderFreeIffNoCapture(ctx: Context, s: string)
    requires Plain(ctx)
    ensures (forall names :: IsOrder(ctx, names) ==>
               ReplaceInOrder(ctx, names, s) == Subst(ctx, s) && !HasKnown(ctx, ReplaceInOrder(ctx, names, s)))
       <==> !Captures(ctx, s)
  {
    OrderFreeIffNothingLeft(ctx, s);
    NothingLeftIffNoCapture(ctx, s);
  }

  /** A capture has an opening brace with another opening brace next to it, and only name characters between. */
  lemma InnerOpeningBrace(ctx: Context, s: string, i: nat, j: nat) returns (q: nat)
    requires i < j < |s| && CapturesAt(ctx, s, i, j)
    ensures i < q < j && s[q] == '{' && forall x :: i < x < q ==> !IsBrace(s[x])
  {
    var t := s[i + 1..j];
    FirstInnerBrace(ctx, t);
    var p := UpToBrace(t);
    q := i + 1 + |p|;
    forall x | i < x < q
      ensures !IsBrace(s[x])
    {
      assert s[x] == t[x - i - 1] == p[x - i - 1];
    }
  }

  /** A brace between any two opening braces rules out captures whatever the context is. */
  lemma UnnestedTextHasNoCapture(ctx: Context, s: string)
    requires forall i, j :: 0 <= i < j < |s| && s[i] == '{' && s[j] == '{' ==> exists k :: i < k < j && s[k] == '}'
    ensures !Captures(ctx, s)
  {
    if Captures(ctx, s) {
      var i, j :| 0 <= i < j < |s| && CapturesAt(ctx, s, i, j);
      var q := InnerOpeningBrace(ctx, s, i, j);
      assert false;
    }
  }

  /** The part of a step's data that the substitution reads. */
  class Data {
    var ScenarioContext: Context

    constructor ()
      ensures ScenarioContext == map[]
    {
      ScenarioContext := map[];
    }

    /** The loop takes the variables in an arbitrary order, as ranging over a Go map does. */
    method ResolveWithScenarioContext(str: string) returns (result: string)
      ensures exists names :: IsOrder(ScenarioContext, names) && result == ReplaceInOrder(ScenarioContext, names, str)
      ensures PlainNames(ScenarioContext) && !HasKnown(ScenarioContext, Subst(ScenarioContext, str)) ==>
                result == Subst(ScenarioContext, str) && !HasKnown(ScenarioContext, result)
      ensures Plain(ScenarioContext) && !Captures(ScenarioContext, str) ==>
                result == Subst(ScenarioContext, str) && !HasKnown(ScenarioContext, result)
    {
      result := str;
      var todo := ScenarioContext.Keys;
      ghost var names := [];
      while todo != {}
        invariant todo <= ScenarioContext.Keys && Distinct(names)
        invariant forall n :: n in names <==> n in ScenarioContext && n !in todo
        invariant result == ReplaceInOrder(ScenarioContext, names, str)
        decreases |todo|
      {
        var name :| name in todo;
        result := ReplaceAll(result, Placeholder(name), ScenarioContext[name]);
        assert (names + [name])[..|names|] == names;
        names := names + [name];
        todo := todo - {name};
      }
      assert IsOrder(ScenarioContext, names);
      if Plain(ScenarioContext) {
        NothingLeftIffNoCapture(ScenarioContext, str);
      }
      if PlainNames(ScenarioContext) && !HasKnown(ScenarioContext, Subst(ScenarioContext, str)) {
        OneOrder(ScenarioContext, names, str);
      }
    }
  }

  lemma TwoVariables(ctx: Context, n: string, m: string, s: string)
    requires n in ctx && m in ctx
    ensures ReplaceInOrder(ctx, [n, m], s) == ReplaceAll(ReplaceAll(s, Placeholder(n), ctx[n]), Placeholder(m), ctx[m])
  {
    assert [n, m][..1] == [n] && [n][..0] == [];
    assert ReplaceInOrder(ctx, [n], s) == ReplaceAll(s, Placeholder(n), ctx[n]);
  }

  lemma OnePlaceholder(n: string, v: string)
    ensures ReplaceAll(Placeholder(n), Placeholder(n), v) == v
  {
    ReplaceHit("", Placeholder(n), v);
    assert Placeholder(n) + "" == Placeholder(n) && v + "" == v;
  }

  lemma OtherPlaceholder(n: string, m: string, v: string)
    requires n != m && BraceFree(n) && BraceFree(m)
    ensures ReplaceAll(Placeholder(n), Placeholder(m), v) == Placeholder(n)
  {
    var s := Placeholder(n);
    ReplaceAllIsSubst(m, v, s);
    PlaceholderPrefix(n, s);
    SubstUnknown(map[m := v], n, s);
    assert AfterName(s) == "" && s + "" == s;
  }

  /** A value with braces makes the order matter as well: if n's value is m's placeholder, replacing n first
      gives m's value, replacing m first leaves m's placeholder. */
  lemma BracedValueMakesTheOrderMatter(ctx: Context, n: string, m: string)
    requires n != m && BraceFree(n) && BraceFree(m) && ctx.Keys == {n, m} && ctx[n] == Placeholder(m)
    ensures IsOrder(ctx, [n, m]) && IsOrder(ctx, [m, n])
    ensures ReplaceInOrder(ctx, [n, m], Placeholder(n)) == ctx[m]
    ensures ReplaceInOrder(ctx, [m, n], Placeholder(n)) == Placeholder(m)
  {
    TwoOrders(ctx, n, m);
    TwoVariables(ctx, n, m, Placeholder(n));
    TwoVariables(ctx, m, n, Placeholder(n));
    OnePlaceholder(n, ctx[n]);
    OnePlaceholder(m, ctx[m]);
    OtherPlaceholder(n, m, ctx[m]);
  }

  lemma {:induction false} ReplaceTooShort(s: string, from: string, to: string)
    requires |s| < |from|
    ensures ReplaceAll(s, from, to) == s
  {
    if s != "" {
      ReplaceTooShort(s[1..], from, to);
    }
  }

  /** Names with braces as well: "{n}{k}" is the placeholder of m = "n}{k", and starts with the one of n. */
  lemma BracedNameMakesTheOrderMatter(ctx: Context, n: string, k: string)
    requires BraceFree(n) && BraceFree(k) && n != k && ctx.Keys == {n, n + "}{" + k}
    requires BraceFree(ctx[n + "}{" + k]) && |ctx[n]| <= |n|
    ensures var m := n + "}{" + k;
      && IsOrder(ctx, [n, m]) && IsOrder(ctx, [m, n])
      && ReplaceInOrder(ctx, [m, n], Placeholder(m)) == ctx[m]
      && ReplaceInOrder(ctx, [n, m], Placeholder(m)) == ctx[n] + Placeholder(k)
  {
    var m := n + "}{" + k;
    assert |m| > |n|;
    TwoOrders(ctx, n, m);
    TwoVariables(ctx, n, m, Placeholder(m));
    TwoVariables(ctx, m, n, Placeholder(m));
    OnePlaceholder(m, ctx[m]);
    ReplaceNothing(ctx[m], Placeholder(n), ctx[n], 0);
    BracedPlaceholder(n, k, ctx[n]);
    ReplaceTooShort(ctx[n] + Placeholder(k), Placeholder(m), ctx[m]);
  }

  lemma BracedPlaceholder(n: string, k: string, v: string)
    requires BraceFree(n) && BraceFree(k) && n != k
    ensures ReplaceAll(Placeholder(n + "}{" + k), Placeholder(n), v) == v + Placeholder(k)
  {
    assert Placeholder(n + "}{" + k) == Placeholder(n) + Placeholder(k);
    ReplaceHit(Placeholder(k), Placeholder(n), v);
    OtherPlaceholder(k, n, v);
  }

  /** Character k of the replaced text does not occur in s. */
  lemma {:induction false} ReplaceNothing(s: string, from: string, to: string, k: nat)
    requires k < |from| && forall i :: 0 <= i < |s| ==> s[i] != from[k]
    ensures ReplaceAll(s, from, to) == s
  {
    if s != "" {
      assert k < |s| ==> s[k] != from[k];
      ReplaceNothing(s[1..], from, to, k);
      assert [s[0]] + s[1..] == s;
    }
  }

  lemma ReplaceInner()
    ensures ReplaceAll("{a{b}}", "{b}", "x") == "{ax}"
  {
    ReplaceNothing("{a", "{b}", "x", 1);
    ReplaceNothing("}", "{b}", "x", 1);
    ReplaceHit("}", "{b}", "x");
    ReplaceParts("{a", "{b}" + "}", "{b}", "x");
    assert "{a" + ("{b}" + "}") == "{a{b}}" && "{a" + ("x" + "}") == "{ax}";
  }

  lemma ReplaceOuter()
    ensures ReplaceAll("{a{b}}", "{ax}", "y") == "{a{b}}"
    ensures ReplaceAll("{ax}", "{ax}", "y") == "y"
  {
    ReplaceNothing("{a{b}}", "{ax}", "y", 2);
    assert "{ax}"[4..] == "" && "y" + "" == "y";
  }

  lemma TwoOrders(ctx: Context, n: string, m: string)
    requires n != m && ctx.Keys == {n, m}
    ensures IsOrder(ctx, [n, m]) && IsOrder(ctx, [m, n])
  {
    assert forall x :: x in ctx <==> x in ctx.Keys;
  }

  /** "{a{b}}" with b = "x" and ax = "y": replacing b first gives "y", replacing ax first leaves "{ax}". */
  lemma CaptureMakesTheOrderMatter(ctx: Context)
    requires ctx.Keys == {"b", "ax"} && ctx["b"] == "x" && ctx["ax"] == "y"
    ensures Plain(ctx) && IsOrder(ctx, ["b", "ax"]) && IsOrder(ctx, ["ax", "b"])
    ensures ReplaceInOrder(ctx, ["b", "ax"], "{a{b}}") == "y"
    ensures ReplaceInOrder(ctx, ["ax", "b"], "{a{b}}") == "{ax}"
  {
    ExampleIsPlain(ctx);
    ReplaceInner();
    ReplaceOuter();
    TwoVariables(ctx, "b", "ax", "{a{b}}");
    TwoVariables(ctx, "ax", "b", "{a{b}}");
    ExamplePlaceholders();
  }

  lemma ExampleIsPlain(ctx: Context)
    requires ctx.Keys == {"b", "ax"} && ctx["b"] == "x" && ctx["ax"] == "y"
    ensures Plain(ctx) && IsOrder(ctx, ["b", "ax"]) && IsOrder(ctx, ["ax", "b"])
  {
    assert "b"[0] != "ax"[0];
    TwoOrders(ctx, "b", "ax");
    assert forall n :: n in ctx ==> n in ctx.Keys;
  }

  lemma ExamplePlaceholders()
    ensures Placeholder("b") == "{b}" && Placeholder("ax") == "{ax}"
  {
    assert "{" + "b" + "}" == "{b}";
    assert "{" + "ax" + "}" == "{ax}";
  }
}
