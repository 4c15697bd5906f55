/**
 When the orders of the map iteration agree with one another.  For names and values without braces they all
 give the same result exactly if no pair of braces captures a new placeholder other than one that it already
 encloses.
 */
module OrderAgreement {
  import opened Sequences
  import opened GoStrings
  import opened Optional
  import opened ScenarioContext

  /** A capture of a variable whose placeholder is not itself between the braces: whether it is replaced
      depends on the order. */
  ghost predicate ProperAt(ctx: Context, s: string, i: nat, j: nat)
    requires i < j < |s|
  {
    && CapturesAt(ctx, s, i, j)
    && var content := s[i + 1..j];
       var m := Flat(ctx, content).value;
       !HasKnown(map[m := ctx[m]], content)
  }

  ghost predicate ProperlyCaptures(ctx: Context, s: string) {
    exists i, j :: 0 <= i < j < |s| && ProperAt(ctx, s, i, j)
  }

  // ---------- Scanning a name ----------

  /** The text up to the first brace that opens no placeholder of the context, with the placeholders before it
      resolved. */
  function ScanName(ctx: Context, u: string): string
    decreases |u|
  {
    if u == "" then ""
    else if Known(ctx, u) then ctx[UpToBrace(u[1..])] + ScanName(ctx, AfterName(u))
    else if IsBrace(u[0]) then ""
    else [u[0]] + ScanName(ctx, u[1..])
  }

  /** The text from that brace on. */
  function ScanRest(ctx: Context, u: string): (rest: string)
    ensures |rest| <= |u|
    decreases |u|
  {
    if u == "" then ""
    else if Known(ctx, u) then ScanRest(ctx, AfterName(u))
    else if IsBrace(u[0]) then u
    else ScanRest(ctx, u[1..])
  }

  lemma {:induction false} SubstByScan(ctx: Context, u: string)
    requires Plain(ctx)
    ensures Subst(ctx, u) == ScanName(ctx, u) + Subst(ctx, ScanRest(ctx, u)) && BraceFree(ScanName(ctx, u))
    ensures ScanRest(ctx, u) != "" ==> IsBrace(ScanRest(ctx, u)[0]) && !Known(ctx, ScanRest(ctx, u))
    decreases |u|
  {
    if u == "" {
    } else if Known(ctx, u) {
      SubstByScan(ctx, AfterName(u));
      ConcatAssoc(ctx[UpToBrace(u[1..])], ScanName(ctx, AfterName(u)), Subst(ctx, ScanRest(ctx, u)));
    } else if IsBrace(u[0]) {
      assert "" + Subst(ctx, u) == Subst(ctx, u);
    } else {
      SubstByScan(ctx, u[1..]);
      ConcatAssoc([u[0]], ScanName(ctx, u[1..]), Subst(ctx, ScanRest(ctx, u)));
    }
  }

  lemma {:induction false} ScanAfterName(ctx: Context, q: string, z: string)
    requires BraceFree(q)
    ensures ScanName(ctx, q + z) == q + ScanName(ctx, z) && ScanRest(ctx, q + z) == ScanRest(ctx, z)
    decreases |q|
  {
    if q == "" {
      assert q + z == z;
    } else {
      assert (q + z)[1..] == q[1..] + z;
      ScanAfterName(ctx, q[1..], z);
      ConcatAssoc([q[0]], q[1..], ScanName(ctx, z));
      assert [q[0]] + q[1..] == q;
    }
  }

  /** Substituting the context makes the brace at the start of the text open the placeholder of m. */
  predicate Opens(ctx: Context, t: string, m: string) {
    && t != "" && t[0] == '{'
    && ScanRest(ctx, t[1..]) != "" && ScanRest(ctx, t[1..])[0] == '}' && ScanName(ctx, t[1..]) == m
  }

  /** What follows that placeholder. */
  function Behind(ctx: Context, t: string): string
    requires t != "" && ScanRest(ctx, t[1..]) != ""
  {
    ScanRest(ctx, t[1..])[1..]
  }

  lemma OpensIsPrefix(ctx: Context, t: string, m: string)
    requires Plain(ctx) && BraceFree(m) && t != "" && !Known(ctx, t)
    ensures Placeholder(m) <= Subst(ctx, t) <==> Opens(ctx, t, m)
  {
    var name, rest := ScanName(ctx, t[1..]), ScanRest(ctx, t[1..]);
    SubstByScan(ctx, t[1..]);
    var w := Subst(ctx, t);
    assert w[1..] == name + Subst(ctx, rest);
    PlaceholderPrefix(m, w);
    if rest == "" {
      BraceFreeScan(name);
    } else {
      UpToBraceOf(name, Subst(ctx, rest));
      assert w[|name| + 1] == Subst(ctx, rest)[0] == rest[0];
    }
  }

  lemma {:induction false} BraceFreeScan(s: string)
    requires BraceFree(s)
    ensures UpToBrace(s) == s && s + "" == s
  {
    if s != "" {
      BraceFreeScan(s[1..]);
      assert [s[0]] + s[1..] == s;
    }
  }

  lemma OpensSplits(ctx: Context, t: string, m: string)
    requires Plain(ctx) && !Known(ctx, t) && Opens(ctx, t, m)
    ensures Subst(ctx, t) == Placeholder(m) + Subst(ctx, Behind(ctx, t)) && BraceFree(m)
  {
    var rest := ScanRest(ctx, t[1..]);
    SubstByScan(ctx, t[1..]);
    SubstBehindOpening(ctx, t);
    assert rest == "}" + rest[1..];
    SubstBehindBrace(ctx, rest[1..]);
    PlaceholderBefore(m, Subst(ctx, rest[1..]));
  }

  // ---------- Two variables in both orders ----------

  /** Two different variables with their values. */
  datatype Pair = Pair(n: string, v: string, m: string, w: string)

  predicate Ok(p: Pair) {
    p.n != p.m && BraceFree(p.n) && BraceFree(p.v) && BraceFree(p.m) && BraceFree(p.w)
  }

  function N(p: Pair): Context {
    map[p.n := p.v]
  }

  function M(p: Pair): Context {
    map[p.m := p.w]
  }

  function Swap(p: Pair): Pair {
    Pair(p.m, p.w, p.n, p.v)
  }

  function NFirst(p: Pair, t: string): string {
    Subst(M(p), Subst(N(p), t))
  }

  function MFirst(p: Pair, t: string): string {
    Subst(N(p), Subst(M(p), t))
  }

  /** Replacing n makes a new placeholder of m at the start of the text. */
  predicate Makes(p: Pair, t: string) {
    !Known(N(p), t) && !Known(M(p), t) && Opens(N(p), t, p.m)
  }

  lemma BothKnown(p: Pair, t: string)
    requires Ok(p) && Known(N(p), t)
    ensures NFirst(p, t) == p.v + NFirst(p, AfterName(t)) && MFirst(p, t) == p.v + MFirst(p, AfterName(t))
  {
    SubstAfterBraceFree(M(p), p.v, Subst(N(p), AfterName(t)));
    SubstUnknown(M(p), p.n, t);
    KnownPlaceholder(N(p), p.n, Subst(M(p), AfterName(t)));
  }

  lemma ClosedNameIsKnown(ctx: Context, p: Pair, t: string)
    requires Opens(ctx, t, p.m) && |UpToBrace(t[1..])| + 1 < |t| && t[|UpToBrace(t[1..])| + 1] == '}'
    ensures Known(M(p), t)
  {
    var q := UpToBrace(t[1..]);
    var z := t[1..][|q|..];
    assert t[1..] == q + z;
    ScanAfterName(ctx, q, z);
    assert z[0] == '}' && q + "" == q;
  }

  /** A new placeholder of m has more in it than its name. */
  lemma MakesOnlyOne(p: Pair, t: string)
    requires Ok(p) && Makes(p, t)
    ensures !Opens(M(p), t, p.n)
  {
    var q := UpToBrace(t[1..]);
    var z := t[1..][|q|..];
    assert t[1..] == q + z;
    ScanAfterName(N(p), q, z);
    ScanAfterName(M(p), q, z);
    assert z != "" && z[0] == t[|q| + 1];
    if z[0] == '}' {
      ClosedNameIsKnown(N(p), p, t);
      assert false;
    }
    assert Known(N(p), z);
    assert !Known(M(p), z);
  }

  /** The other order passes over what replacing n resolves. */
  lemma {:induction false} ScanInOtherOrder(p: Pair, u: string)
    requires Ok(p)
    ensures MFirst(p, u) == ScanName(N(p), u) + MFirst(p, ScanRest(N(p), u))
    decreases |u|
  {
    if u == "" {
    } else if Known(N(p), u) {
      BothKnown(p, u);
      ScanInOtherOrder(p, AfterName(u));
      ConcatAssoc(p.v, ScanName(N(p), AfterName(u)), MFirst(p, ScanRest(N(p), u)));
    } else if IsBrace(u[0]) {
      assert "" + MFirst(p, u) == MFirst(p, u);
    } else {
      ScanInOtherOrder(p, u[1..]);
      ConcatAssoc([u[0]], ScanName(N(p), u[1..]), MFirst(p, ScanRest(N(p), u)));
      assert Subst(M(p), u) == [u[0]] + Subst(M(p), u[1..]);
      assert ([u[0]] + Subst(M(p), u[1..]))[1..] == Subst(M(p), u[1..]);
    }
  }

  lemma MadeInNFirst(p: Pair, t: string)
    requires Ok(p) && Makes(p, t)
    ensures NFirst(p, t) == p.w + NFirst(p, Behind(N(p), t))
  {
    OpensSplits(N(p), t, p.m);
    KnownPlaceholder(M(p), p.m, Subst(N(p), Behind(N(p), t)));
  }

  /** A text without item at its start: its first character stays in both orders. */
  lemma OpeningStays(ctx: Context, other: Context, t: string, m: string)
    requires Plain(ctx) && BraceFree(m) && other.Keys == {m} && t != "" && !Known(ctx, t) && !Opens(ctx, t, m)
    ensures Subst(other, Subst(ctx, t)) == [t[0]] + Subst(other, Subst(ctx, t[1..]))
  {
    var w := Subst(ctx, t);
    assert w == [t[0]] + Subst(ctx, t[1..]);
    assert w[1..] == Subst(ctx, t[1..]);
    OpensIsPrefix(ctx, t, m);
    PlaceholderPrefix(m, w);
    assert forall x :: x in other ==> x == m;
  }

  lemma MadeInMFirst(p: Pair, t: string)
    requires Ok(p) && Makes(p, t)
    ensures MFirst(p, t) == Placeholder(p.m) + MFirst(p, Behind(N(p), t))
  {
    var rest := ScanRest(N(p), t[1..]);
    MakesOnlyOne(p, t);
    OpeningStays(M(p), N(p), t, p.n);
    ScanInOtherOrder(p, t[1..]);
    assert rest == "}" + rest[1..];
    SubstBehindBrace(M(p), rest[1..]);
    SubstBehindBrace(N(p), Subst(M(p), rest[1..]));
    PlaceholderBefore(p.m, MFirst(p, rest[1..]));
  }

  /** Nothing is replaced at the start of the text, in either order. */
  predicate Plainly(p: Pair, t: string) {
    t != "" && !Known(N(p), t) && !Known(M(p), t) && !Makes(p, t) && !Makes(Swap(p), t)
  }

  lemma FirstStays(p: Pair, t: string)
    requires Ok(p) && Plainly(p, t)
    ensures NFirst(p, t) == [t[0]] + NFirst(p, t[1..]) && MFirst(p, t) == [t[0]] + MFirst(p, t[1..])
  {
    OpeningStays(N(p), M(p), t, p.m);
    OpeningStays(M(p), N(p), t, p.n);
  }

  // ---------- The weight of the placeholders that are left ----------

  function Depth(c: char): int {
    if c == '{' then 1 else if c == '}' then -1 else 0
  }

  /** The depths of the occurrences of m's placeholder, added up, for a text that starts at depth d. */
  function Weight(m: string, s: string, d: int): int {
    if s == "" then 0
    else (if Placeholder(m) <= s then d else 0) + Weight(m, s[1..], d + Depth(s[0]))
  }

  lemma WeightCons(m: string, c: char, s: string, d: int)
    ensures Weight(m, [c] + s, d) == (if Placeholder(m) <= [c] + s then d else 0) + Weight(m, s, d + Depth(c))
  {
    assert ([c] + s)[1..] == s;
  }

  lemma {:induction false} WeightSkips(m: string, a: string, s: string, d: int)
    requires BraceFree(a)
    ensures Weight(m, a + s, d) == Weight(m, s, d)
    decreases |a|
  {
    if a == "" {
      assert a + s == s;
    } else {
      WeightSkips(m, a[1..], s, d);
      assert a + s == [a[0]] + (a[1..] + s);
      WeightCons(m, a[0], a[1..] + s, d);
    }
  }

  lemma WeightPlaceholder(m: string, x: string, s: string, d: int)
    requires BraceFree(m) && BraceFree(x)
    ensures Weight(m, Placeholder(x) + s, d) == (if x == m then d else 0) + Weight(m, s, d)
  {
    assert Placeholder(x) + s == ['{'] + (x + (['}'] + s));
    WeightCons(m, '{', x + (['}'] + s), d);
    WeightSkips(m, x, ['}'] + s, d + 1);
    WeightCons(m, '}', s, d + 1);
    NoHitWithoutBrace(m, '}', s);
    OnlyOwnPlaceholder(m, x, s);
  }

  lemma OnlyOwnPlaceholder(m: string, x: string, s: string)
    requires BraceFree(m) && BraceFree(x)
    ensures Placeholder(m) <= Placeholder(x) + s <==> x == m
  {
    KnownPlaceholder(map[x := ""], x, s);
    PlaceholderPrefix(m, Placeholder(x) + s);
  }

  /** Before the next brace that stays in the text, replacing n makes a placeholder of m. */
  predicate MakesInside(p: Pair, t: string)
    decreases |t|
  {
    t != "" &&
    if Known(N(p), t) || Known(M(p), t) then MakesInside(p, AfterName(t))
    else Makes(p, t) || (!IsBrace(t[0]) && MakesInside(p, t[1..]))
  }

  /** Where the first order has a closed name, the other has it too, unless one was made inside it. */
  lemma {:induction false} NameAgrees(p: Pair, t: string, u: string)
    requires Ok(p) && BraceFree(u) && u + "}" <= NFirst(p, t) && !MakesInside(p, t)
    ensures u + "}" <= MFirst(p, t)
    decreases |t|, 0
  {
    if t == "" {
      assert false;
    } else if Known(N(p), t) {
      BothKnown(p, t);
      NameAgreesBehind(p, p.v, AfterName(t), u);
    } else if Known(M(p), t) {
      BothKnown(Swap(p), t);
      NameAgreesBehind(p, p.w, AfterName(t), u);
    } else if Makes(Swap(p), t) {
      MadeInMFirst(Swap(p), t);
      NoBraceInName(u, NFirst(p, t));
      assert false;
    } else {
      FirstStays(p, t);
      if t[0] == '}' {
        ClosedAtOnce(t[0], NFirst(p, t[1..]), u);
        assert u + "}" == [t[0]] && [t[0]] <= [t[0]] + MFirst(p, t[1..]);
      } else {
        NoBraceInName(u, NFirst(p, t));
        NameBehindChar(t[0], NFirst(p, t[1..]), u);
        NameAgrees(p, t[1..], u[1..]);
        assert u + "}" == [t[0]] + (u[1..] + "}");
      }
    }
  }

  lemma NoBraceInName(u: string, s: string)
    requires BraceFree(u) && u + "}" <= s
    ensures s[0] != '{'
  {
    assert s[0] == (u + "}")[0];
    assert u != "" ==> (u + "}")[0] == u[0];
  }

  lemma NameAgreesBehind(p: Pair, a: string, t: string, u: string)
    requires Ok(p) && BraceFree(a) && BraceFree(u) && u + "}" <= a + NFirst(p, t) && !MakesInside(p, t)
    ensures u + "}" <= a + MFirst(p, t)
    decreases |t|, 1
  {
    NameBehindValue(a, NFirst(p, t), u);
    NameAgrees(p, t, u[|a|..]);
    assert u + "}" == a + (u[|a|..] + "}");
  }

  // ---------- The order that replaces n first leaves less of m ----------

  /** A placeholder of m is lost only around one that is made. */
  lemma OuterHit(p: Pair, t: string)
    requires Ok(p) && Plainly(p, t) && t[0] == '{' && !MakesInside(p, t[1..])
    ensures Placeholder(p.m) <= NFirst(p, t) ==> Placeholder(p.m) <= MFirst(p, t)
  {
    FirstStays(p, t);
    if Placeholder(p.m) <= NFirst(p, t) {
      NameOfPlaceholder(p.m, NFirst(p, t[1..]));
      NameAgrees(p, t[1..], p.m);
      NameOfPlaceholder(p.m, MFirst(p, t[1..]));
    }
  }

  lemma NameOfPlaceholder(m: string, s: string)
    ensures Placeholder(m) <= ['{'] + s <==> m + "}" <= s
  {
    var w := ['{'] + s;
    assert Placeholder(m) == ['{'] + (m + "}");
    PrefixOfParts(Placeholder(m), ['{'], s);
    assert Placeholder(m)[1..] == m + "}";
  }

  lemma NoHitWithoutBrace(m: string, c: char, s: string)
    requires c != '{'
    ensures !(Placeholder(m) <= [c] + s)
  {
    assert Placeholder(m)[0] == '{' && ([c] + s)[0] == c;
  }

  /** A character in front changes the weights by the hits at the two texts' starts. */
  lemma CharInFront(m: string, c: char, x: string, y: string, d: int)
    requires d > 0
    ensures Weight(m, [c] + y, d) - Weight(m, [c] + x, d)
      >= Weight(m, y, d + Depth(c)) - Weight(m, x, d + Depth(c)) - if c == '{' then d else 0
    ensures (Placeholder(m) <= [c] + x ==> Placeholder(m) <= [c] + y) ==>
      Weight(m, [c] + y, d) - Weight(m, [c] + x, d) >= Weight(m, y, d + Depth(c)) - Weight(m, x, d + Depth(c))
  {
    WeightCons(m, c, x, d);
    WeightCons(m, c, y, d);
    if c != '{' {
      NoHitWithoutBrace(m, c, x);
    }
  }

  lemma HeavierAfterChar(p: Pair, t: string, d: int)
    requires Ok(p) && Plainly(p, t) && d > |t|
    requires Weight(p.m, MFirst(p, t[1..]), d + Depth(t[0]))
      >= Weight(p.m, NFirst(p, t[1..]), d + Depth(t[0])) + if MakesInside(p, t[1..]) then d + Depth(t[0]) else 0
    ensures Weight(p.m, MFirst(p, t), d) >= Weight(p.m, NFirst(p, t), d) + if MakesInside(p, t) then d else 0
  {
    var x, y := NFirst(p, t[1..]), MFirst(p, t[1..]);
    if t[0] == '{' {
      MadeOrNoLoss(p, t);
    }
    HeavierStep(p.m, t[0], x, y, d, if MakesInside(p, t[1..]) then d + Depth(t[0]) else 0);
    FirstStays(p, t);
  }

  lemma MadeOrNoLoss(p: Pair, t: string)
    requires Ok(p) && Plainly(p, t) && t[0] == '{'
    ensures
      || MakesInside(p, t[1..])
      || (Placeholder(p.m) <= ['{'] + NFirst(p, t[1..]) ==> Placeholder(p.m) <= ['{'] + MFirst(p, t[1..]))
  {
    if !MakesInside(p, t[1..]) {
      OuterHit(p, t);
      FirstStays(p, t);
    }
  }

  lemma HeavierStep(m: string, c: char, x: string, y: string, d: int, more: int)
    requires d > 0 && Weight(m, y, d + Depth(c)) >= Weight(m, x, d + Depth(c)) + more
    requires c == '{' ==> more >= d || (Placeholder(m) <= ['{'] + x ==> Placeholder(m) <= ['{'] + y)
    ensures Weight(m, [c] + y, d) >= Weight(m, [c] + x, d) + if c == '{' && more >= d then more - d else more
  {
    CharInFront(m, c, x, y, d);
  }

  lemma HeavierAfterMade(p: Pair, t: string, d: int)
    requires Ok(p) && Makes(p, t)
    ensures Weight(p.m, NFirst(p, t), d) == Weight(p.m, NFirst(p, Behind(N(p), t)), d)
    ensures Weight(p.m, MFirst(p, t), d) == d + Weight(p.m, MFirst(p, Behind(N(p), t)), d)
  {
    MadeInNFirst(p, t);
    MadeInMFirst(p, t);
    WeightSkips(p.m, p.w, NFirst(p, Behind(N(p), t)), d);
    WeightPlaceholder(p.m, p.m, MFirst(p, Behind(N(p), t)), d);
  }

  lemma EvenAfterOtherMade(p: Pair, t: string, d: int)
    requires Ok(p) && Makes(Swap(p), t)
    ensures Weight(p.m, NFirst(p, t), d) == Weight(p.m, NFirst(p, Behind(M(p), t)), d)
    ensures Weight(p.m, MFirst(p, t), d) == Weight(p.m, MFirst(p, Behind(M(p), t)), d)
    ensures !MakesInside(p, t)
  {
    MadeInNFirst(Swap(p), t);
    MadeInMFirst(Swap(p), t);
    MakesOnlyOne(Swap(p), t);
    WeightSkips(p.m, p.v, MFirst(p, Behind(M(p), t)), d);
    WeightPlaceholder(p.m, p.n, NFirst(p, Behind(M(p), t)), d);
  }

  lemma EvenAfterKnown(p: Pair, t: string, d: int)
    requires Ok(p) && (Known(N(p), t) || Known(M(p), t))
    ensures Weight(p.m, NFirst(p, t), d) == Weight(p.m, NFirst(p, AfterName(t)), d)
    ensures Weight(p.m, MFirst(p, t), d) == Weight(p.m, MFirst(p, AfterName(t)), d)
  {
    if Known(N(p), t) {
      BothKnown(p, t);
      WeightSkips(p.m, p.v, NFirst(p, AfterName(t)), d);
      WeightSkips(p.m, p.v, MFirst(p, AfterName(t)), d);
    } else {
      BothKnown(Swap(p), t);
      WeightSkips(p.m, p.w, NFirst(p, AfterName(t)), d);
      WeightSkips(p.m, p.w, MFirst(p, AfterName(t)), d);
    }
  }

  /** The weight of m's placeholders is no less if m is replaced first. */
  lemma {:induction false} Heavier(p: Pair, t: string, d: int)
    requires Ok(p) && d > |t|
    ensures Weight(p.m, MFirst(p, t), d) >= Weight(p.m, NFirst(p, t), d) + if MakesInside(p, t) then d else 0
    decreases |t|
  {
    if t == "" {
    } else if Known(N(p), t) || Known(M(p), t) {
      EvenAfterKnown(p, t, d);
      Heavier(p, AfterName(t), d);
    } else if Makes(p, t) {
      HeavierAfterMade(p, t, d);
      Heavier(p, Behind(N(p), t), d);
    } else if Makes(Swap(p), t) {
      EvenAfterOtherMade(p, t, d);
      Heavier(p, Behind(M(p), t), d);
    } else {
      Heavier(p, t[1..], d + Depth(t[0]));
      HeavierAfterChar(p, t, d);
    }
  }

  /** An opening brace that a scan passes over opens a placeholder of the context. */
  lemma {:induction false} ScanInside(ctx: Context, u: string, k: nat)
    requires k < |u| - |ScanRest(ctx, u)| && u[k] == '{'
    ensures Known(ctx, u[k..])
    decreases |u|
  {
    if Known(ctx, u) {
      if k == 0 {
        assert u[0..] == u;
      } else {
        OpensBehindPlaceholder(ctx, u, k);
        var j := |UpToBrace(u[1..])| + 2;
        assert AfterName(u)[k - j..] == u[k..];
        ScanInside(ctx, AfterName(u), k - j);
      }
    } else {
      assert k > 0 && u[1..][k - 1..] == u[k..];
      ScanInside(ctx, u[1..], k - 1);
    }
  }

  /** A brace that opens no placeholder of the context does not stand inside a placeholder that is made. */
  lemma BraceBehindMade(ctx: Context, t: string, m: string, k: nat)
    requires 0 < k < |t| && t[k] == '{' && !Known(ctx, t[k..]) && Opens(ctx, t, m)
    ensures var j := |t| - |Behind(ctx, t)|; j <= k && Behind(ctx, t)[k - j..] == t[k..]
  {
    var u, rest := t[1..], ScanRest(ctx, t[1..]);
    assert u[k - 1..] == t[k..];
    ScanIsSuffix(ctx, u);
    if k - 1 < |u| - |rest| {
      ScanInside(ctx, u, k - 1);
      assert false;
    }
    assert u[|u| - |rest|] == rest[0] == '}';
    assert Behind(ctx, t) == t[|t| - |Behind(ctx, t)|..];
  }

  lemma {:induction false} ScanIsSuffix(ctx: Context, u: string)
    ensures ScanRest(ctx, u) == u[|u| - |ScanRest(ctx, u)|..]
    decreases |u|
  {
    if u == "" {
    } else if Known(ctx, u) {
      ScanIsSuffix(ctx, AfterName(u));
    } else if !IsBrace(u[0]) {
      ScanIsSuffix(ctx, u[1..]);
    }
  }

  /** An item of the text that neither order makes new: the next item starts behind it. */
  function Next(p: Pair, t: string): (rest: string)
    requires t != "" && !Makes(p, t)
    ensures |rest| < |t|
  {
    if Known(N(p), t) || Known(M(p), t) then AfterName(t)
    else if Makes(Swap(p), t) then Behind(M(p), t)
    else t[1..]
  }

  function NextDepth(p: Pair, t: string, d: int): int
    requires t != ""
  {
    if Known(N(p), t) || Known(M(p), t) || Makes(Swap(p), t) then d else d + Depth(t[0])
  }

  lemma BehindKnown(ctx: Context, t: string, k: nat)
    requires Known(ctx, t) && 0 < k < |t| && t[k] == '{'
    ensures var j := |t| - |AfterName(t)|; j <= k && AfterName(t)[k - j..] == t[k..]
  {
    OpensBehindPlaceholder(ctx, t, k);
  }

  lemma BraceInNext(p: Pair, t: string, k: nat)
    requires 0 < k < |t| && !Makes(p, t) && t[k] == '{' && !Known(M(p), t[k..])
    ensures var j := |t| - |Next(p, t)|; j <= k && Next(p, t)[k - j..] == t[k..]
  {
    if Known(N(p), t) {
      BehindKnown(N(p), t, k);
    } else if Known(M(p), t) {
      BehindKnown(M(p), t, k);
    } else if Makes(Swap(p), t) {
      BraceBehindMade(M(p), t, p.n, k);
    }
  }

  lemma StrictBeforeNext(p: Pair, t: string, d: int)
    requires Ok(p) && t != "" && !Makes(p, t) && d > |t|
    requires Weight(p.m, MFirst(p, Next(p, t)), NextDepth(p, t, d))
      > Weight(p.m, NFirst(p, Next(p, t)), NextDepth(p, t, d))
    ensures Weight(p.m, MFirst(p, t), d) > Weight(p.m, NFirst(p, t), d)
  {
    if Known(N(p), t) || Known(M(p), t) {
      EvenAfterKnown(p, t, d);
    } else if Makes(Swap(p), t) {
      EvenAfterOtherMade(p, t, d);
    } else {
      StrictlyAfterChar(p, t, d);
    }
  }

  /** It is more if replacing n makes one. */
  lemma {:induction false} StrictlyHeavier(p: Pair, t: string, d: int, k: nat)
    requires Ok(p) && d > |t| && k < |t| && Makes(p, t[k..])
    ensures Weight(p.m, MFirst(p, t), d) > Weight(p.m, NFirst(p, t), d)
    decreases |t|
  {
    assert t[0..] == t;
    if Makes(p, t) {
      Heavier(p, t, d);
    } else {
      BraceInNext(p, t, k);
      StrictlyHeavier(p, Next(p, t), NextDepth(p, t, d), k - (|t| - |Next(p, t)|));
      StrictBeforeNext(p, t, d);
    }
  }

  lemma StrictlyAfterChar(p: Pair, t: string, d: int)
    requires Ok(p) && Plainly(p, t) && d > |t|
    requires Weight(p.m, MFirst(p, t[1..]), d + Depth(t[0])) > Weight(p.m, NFirst(p, t[1..]), d + Depth(t[0]))
    ensures Weight(p.m, MFirst(p, t), d) > Weight(p.m, NFirst(p, t), d)
  {
    var x, y := NFirst(p, t[1..]), MFirst(p, t[1..]);
    if t[0] == '{' {
      NoLossOrGain(p, t, d);
    }
    StrictStep(p.m, t[0], x, y, d);
    FirstStays(p, t);
  }

  /** In front of the two texts the brace takes nothing away, or no more than they already differ by. */
  lemma NoLossOrGain(p: Pair, t: string, d: int)
    requires Ok(p) && Plainly(p, t) && d > |t| && t[0] == '{'
    ensures
      || (Placeholder(p.m) <= ['{'] + NFirst(p, t[1..]) ==> Placeholder(p.m) <= ['{'] + MFirst(p, t[1..]))
      || Weight(p.m, MFirst(p, t[1..]), d + 1) >= Weight(p.m, NFirst(p, t[1..]), d + 1) + d + 1
  {
    MadeOrNoLoss(p, t);
    if MakesInside(p, t[1..]) {
      Heavier(p, t[1..], d + 1);
    }
  }

  lemma StrictStep(m: string, c: char, x: string, y: string, d: int)
    requires d > 0 && Weight(m, y, d + Depth(c)) > Weight(m, x, d + Depth(c))
    requires c == '{' ==>
      || (Placeholder(m) <= ['{'] + x ==> Placeholder(m) <= ['{'] + y)
      || Weight(m, y, d + 1) >= Weight(m, x, d + 1) + d + 1
    ensures Weight(m, [c] + y, d) > Weight(m, [c] + x, d)
  {
    CharInFront(m, c, x, y, d);
  }

  /** Where replacing n makes a placeholder of m, the two orders differ. */
  lemma MadeTellsOrdersApart(p: Pair, t: string, k: nat)
    requires Ok(p) && k < |t| && Makes(p, t[k..])
    ensures NFirst(p, t) != MFirst(p, t)
  {
    StrictlyHeavier(p, t, |t| + 1, k);
  }

  // ---------- The braces of a capture, while other variables are replaced ----------

  lemma {:induction false} FlatBehindValue(ctx: Context, v: string, t: string)
    requires BraceFree(v)
    ensures Flat(ctx, v + t) == match Flat(ctx, t) case Some(r) => Some(v + r) case None => None
    decreases |v|
  {
    if v == "" {
      assert v + t == t;
      match Flat(ctx, t) {
        case Some(r) => assert v + r == r;
        case None =>
      }
    } else {
      assert (v + t)[1..] == v[1..] + t;
      FlatBehindValue(ctx, v[1..], t);
      match Flat(ctx, t) {
        case Some(r) => ConcatAssoc([v[0]], v[1..], r); assert [v[0]] + v[1..] == v;
        case None =>
      }
    }
  }

  /** Replacing a variable in a text between braces does not change what the text resolves to. */
  lemma {:induction false} FlatReplaced(all: Context, ctx: Context, x: string, q: string)
    requires Plain(all) && Extends(ctx, all) && x in ctx && Flat(all, q).Some?
    ensures Flat(ctx - {x}, Subst(map[x := all[x]], q)) == Flat(ctx, q)
    decreases |q|
  {
    var one := map[x := all[x]];
    if q == "" {
    } else if Known(all, q) {
      var y := UpToBrace(q[1..]);
      FlatReplaced(all, ctx, x, AfterName(q));
      if y == x {
        FlatBehindValue(ctx - {x}, all[x], Subst(one, AfterName(q)));
      } else {
        SubstUnknown(one, y, q);
        KnownPlaceholder(ctx - {x}, y, Subst(one, AfterName(q)));
      }
    } else {
      FlatReplaced(all, ctx, x, q[1..]);
      assert ([q[0]] + Subst(one, q[1..]))[1..] == Subst(one, q[1..]);
    }
  }

  /** Replacing a variable leaves the text between the braces apart from the text behind it. */
  lemma {:induction false} SubstInBraces(ctx: Context, x: string, v: string, q: string, u: string)
    requires Flat(ctx, q).Some? && u != "" && u[0] == '}'
    ensures Subst(map[x := v], q + u) == Subst(map[x := v], q) + Subst(map[x := v], u)
    decreases |q|
  {
    var one := map[x := v];
    if q == "" {
      assert q + u == u;
    } else if Known(ctx, q) {
      var y := UpToBrace(q[1..]);
      KnownInSuperText(ctx, q, u);
      assert AfterName(q + u) == AfterName(q) + u;
      SubstInBraces(ctx, x, v, AfterName(q), u);
      if y == x {
        ConcatAssoc(v, Subst(one, AfterName(q)), Subst(one, u));
      } else {
        SubstUnknown(one, y, q);
        SubstUnknown(one, y, q + u);
        ConcatAssoc(Placeholder(y), Subst(one, AfterName(q)), Subst(one, u));
      }
    } else {
      assert (q + u)[1..] == q[1..] + u;
      SubstInBraces(ctx, x, v, q[1..], u);
      ConcatAssoc([q[0]], Subst(one, q[1..]), Subst(one, u));
    }
  }

  /** A text with braces around q. */
  function Site(a: string, q: string, b: string): string {
    a + ("{" + (q + ("}" + b)))
  }

  /** The brace in front of q opens no placeholder. */
  lemma OuterIsUnknown(any: Context, ctx: Context, q: string, b: string)
    requires Flat(ctx, q).Some? && !BraceFree(q)
    ensures !Known(any, "{" + (q + b))
  {
    FirstInnerBrace(ctx, q);
    var p, t := UpToBrace(q), "{" + (q + b);
    assert t[1..] == p + (q[|p|..] + b);
    UpToBraceOf(p, q[|p|..] + b);
  }

  lemma SubstAtSite(ctx: Context, x: string, v: string, a: string, q: string, b: string)
    requires BraceFree(x) && Flat(ctx, q).Some? && !BraceFree(q)
    ensures Subst(map[x := v], Site(a, q, b))
      == Site(Subst(map[x := v], a), Subst(map[x := v], q), Subst(map[x := v], b))
  {
    var one := map[x := v];
    var z := "{" + (q + ("}" + b));
    assert StartsFresh(z, Placeholder(x));
    ReplaceParts(a, z, Placeholder(x), v);
    ReplaceAllIsSubst(x, v, a + z);
    ReplaceAllIsSubst(x, v, a);
    ReplaceAllIsSubst(x, v, z);
    OuterIsUnknown(one, ctx, q, "}" + b);
    SubstBehindOpening(one, z);
    assert z[1..] == q + ("}" + b);
    SubstInBraces(ctx, x, v, q, "}" + b);
    SubstBehindBrace(one, b);
  }

  /** The variables other than m that are not yet replaced. */
  function Left(ctx: Context, m: string, names: seq<string>): (left: Context)
    ensures Extends(left, ctx)
  {
    map x | x in ctx && x != m && x !in names :: ctx[x]
  }

  /** The braces around q capture m, with a placeholder of n between them. */
  ghost predicate Waits(left: Context, n: string, m: string, q: string) {
    Flat(left, q) == Some(m) && Flat(left - {n}, q) == None
  }

  lemma WaitsIsNotBraceFree(left: Context, n: string, m: string, q: string)
    requires Waits(left, n, m, q)
    ensures !BraceFree(q)
  {
    if BraceFree(q) {
      FlatOfBraceFree(left - {n}, q);
      assert false;
    }
  }

  lemma WaitsOn(ctx: Context, left: Context, n: string, m: string, x: string, q: string)
    requires Plain(ctx) && Extends(left, ctx) && x in left && x != n && Waits(left, n, m, q)
    ensures Waits(left - {x}, n, m, Subst(map[x := ctx[x]], q))
  {
    FlatIsMonotone(left, ctx, q);
    FlatReplaced(ctx, left, x, q);
    FlatReplaced(ctx, left - {n}, x, q);
    assert left - {n} - {x} == left - {x} - {n};
  }

  lemma LeftSnoc(ctx: Context, m: string, names: seq<string>)
    requires names != [] && Distinct(names)
    ensures var first, x := names[..|names| - 1], names[|names| - 1];
      && Distinct(first) && x !in first && (forall y :: y in first ==> y in names)
      && Left(ctx, m, names) == Left(ctx, m, first) - {x}
  {
    var first, x := names[..|names| - 1], names[|names| - 1];
    assert names == first + [x];
  }

  /** Replacing other variables leaves the capture in the text. */
  lemma {:induction false} SiteStays(
    ctx: Context, names: seq<string>, n: string, m: string, a: string, q: string, b: string)
    returns (a': string, q': string, b': string)
    requires Plain(ctx) && Distinct(names) && forall x :: x in names ==> x in ctx && x != n && x != m
    requires Waits(Left(ctx, m, []), n, m, q)
    ensures ReplaceInOrder(ctx, names, Site(a, q, b)) == Site(a', q', b')
    ensures Waits(Left(ctx, m, names), n, m, q')
    decreases |names|
  {
    if names == [] {
      a', q', b' := a, q, b;
    } else {
      var first, x := names[..|names| - 1], names[|names| - 1];
      LeftSnoc(ctx, m, names);
      a', q', b' := SiteStays(ctx, first, n, m, a, q, b);
      a', q', b' := SiteStep(ctx, Left(ctx, m, first), n, m, x, a', q', b');
    }
  }

  lemma SiteStep(ctx: Context, left: Context, n: string, m: string, x: string, a: string, q: string, b: string)
    returns (a': string, q': string, b': string)
    requires Plain(ctx) && Extends(left, ctx) && x in left && x != n && Waits(left, n, m, q)
    ensures ReplaceAll(Site(a, q, b), Placeholder(x), ctx[x]) == Site(a', q', b')
    ensures Waits(left - {x}, n, m, q')
  {
    var one := map[x := ctx[x]];
    ReplaceAllIsSubst(x, ctx[x], Site(a, q, b));
    WaitsIsNotBraceFree(left, n, m, q);
    SubstAtSite(left, x, ctx[x], a, q, b);
    WaitsOn(ctx, left, n, m, x, q);
    a', q', b' := Subst(one, a), Subst(one, q), Subst(one, b);
  }

  lemma {:induction false} ScanOfFlat(ctx: Context, q: string, u: string)
    requires Flat(ctx, q).Some? && u != "" && u[0] == '}'
    ensures ScanName(ctx, q + u) == Flat(ctx, q).value && ScanRest(ctx, q + u) == u
    decreases |q|
  {
    if q == "" {
      assert q + u == u;
    } else if Known(ctx, q) {
      KnownInSuperText(ctx, q, u);
      assert AfterName(q + u) == AfterName(q) + u;
      ScanOfFlat(ctx, AfterName(q), u);
    } else {
      assert (q + u)[1..] == q[1..] + u;
      ScanOfFlat(ctx, q[1..], u);
    }
  }

  /** With only n left to replace, the braces make a placeholder of m. */
  lemma SiteMakes(p: Pair, a: string, q: string, b: string)
    requires Ok(p) && Waits(N(p), p.n, p.m, q)
    ensures NFirst(p, Site(a, q, b)) != MFirst(p, Site(a, q, b))
  {
    var t, s := "{" + (q + ("}" + b)), Site(a, q, b);
    WaitsIsNotBraceFree(N(p), p.n, p.m, q);
    OuterIsUnknown(N(p), N(p), q, "}" + b);
    OuterIsUnknown(M(p), N(p), q, "}" + b);
    assert t[1..] == q + ("}" + b);
    ScanOfFlat(N(p), q, "}" + b);
    assert Makes(p, t);
    assert s[|a|..] == t;
    MadeTellsOrdersApart(p, s, |a|);
  }

  /** A variable with a placeholder between the braces. */
  lemma {:induction false} InnerName(ctx: Context, q: string) returns (n: string)
    requires Flat(ctx, q).Some? && !BraceFree(q)
    ensures n in ctx && Flat(ctx - {n}, q) == None
    decreases |q|
  {
    if Known(ctx, q) {
      n := UpToBrace(q[1..]);
    } else {
      n := InnerName(ctx, q[1..]);
      assert !Known(ctx - {n}, q);
    }
  }

  lemma {:induction false} FlatWithout(ctx: Context, m: string, q: string)
    requires m in ctx && Flat(ctx, q).Some? && !HasKnown(map[m := ctx[m]], q)
    ensures Flat(ctx - {m}, q) == Flat(ctx, q)
    decreases |q|
  {
    var one := map[m := ctx[m]];
    if q != "" {
      assert q[0..] == q;
      if Known(ctx, q) {
        var k := |UpToBrace(q[1..])| + 2;
        if HasKnown(one, q[k..]) {
          HasKnownInSuffix(one, q, k);
          assert false;
        }
        assert !Known(one, q);
        FlatWithout(ctx, m, AfterName(q));
      } else {
        if HasKnown(one, q[1..]) {
          HasKnownInSuffix(one, q, 1);
          assert false;
        }
        FlatWithout(ctx, m, q[1..]);
      }
    }
  }

  // ---------- Without such braces all orders give the simultaneous substitution ----------

  lemma NoneInFlat(small: Context, n: string, v: string, q: string)
    requires n !in small && Flat(small, q).Some?
    ensures !HasKnown(map[n := v], q)
    decreases |q|
  {
    if i :| 0 <= i < |q| && Known(map[n := v], q[i..]) {
      FlatCoversBrace(small, q, i);
      assert false;
    }
  }

  /** Every opening brace in a text that resolves opens a placeholder. */
  lemma {:induction false} FlatCoversBrace(ctx: Context, q: string, i: nat)
    requires Flat(ctx, q).Some? && i < |q| && q[i] == '{'
    ensures Known(ctx, q[i..])
    decreases |q|
  {
    assert q[0..] == q;
    if Known(ctx, q) {
      if i > 0 {
        BehindKnown(ctx, q, i);
        FlatCoversBrace(ctx, AfterName(q), i - (|q| - |AfterName(q)|));
      }
    } else {
      assert q[1..][i - 1..] == q[i..];
      FlatCoversBrace(ctx, q[1..], i - 1);
    }
  }

  /** If substituting some other variables makes a placeholder of n, its braces capture n properly. */
  lemma NewNameIsProper(small: Context, ctx: Context, s: string, n: string)
    requires Plain(ctx) && Extends(small, ctx) && n in ctx && n !in small
    requires s != "" && s[0] == '{' && !Known(ctx, s) && n + "}" <= Subst(small, s[1..])
    ensures ProperlyCaptures(ctx, s)
  {
    var j := NameInSubst(small, s[1..], n);
    var t := s[1..][..j];
    assert t == s[1..j + 1];
    FlatIsMonotone(small, ctx, t);
    if BraceFree(t) {
      FlatOfBraceFree(small, t);
      NameIsKnown(ctx, s, j);
      assert false;
    }
    NoneInFlat(small, n, ctx[n], t);
    assert ProperAt(ctx, s, 0, j + 1);
  }

  lemma ProperInSuffix(ctx: Context, s: string, k: nat)
    requires k <= |s| && ProperlyCaptures(ctx, s[k..])
    ensures ProperlyCaptures(ctx, s)
  {
    var i, j :| 0 <= i < j < |s[k..]| && ProperAt(ctx, s[k..], i, j);
    assert s[k..][i + 1..j] == s[k + i + 1..k + j];
    assert ProperAt(ctx, s, k + i, k + j);
  }

  lemma NoneProperBehind(ctx: Context, s: string, k: nat)
    requires k <= |s| && !ProperlyCaptures(ctx, s)
    ensures !ProperlyCaptures(ctx, s[k..])
  {
    if ProperlyCaptures(ctx, s[k..]) {
      ProperInSuffix(ctx, s, k);
      assert false;
    }
  }

  lemma NothingNew(small: Context, ctx: Context, n: string, s: string)
    requires Plain(ctx) && Extends(small, ctx) && n in ctx && n !in small
    requires s != "" && !Known(ctx, s) && !ProperlyCaptures(ctx, s)
    ensures !Known(map[n := ctx[n]], [s[0]] + Subst(small, s[1..]))
  {
    var w := [s[0]] + Subst(small, s[1..]);
    if Known(map[n := ctx[n]], w) {
      KnownIsPlaceholder(map[n := ctx[n]], w);
      NameOfPlaceholder(n, Subst(small, s[1..]));
      NewNameIsProper(small, ctx, s, n);
      assert false;
    }
  }

  /** One more variable substitutes it along with the others. */
  lemma {:induction false} OneMoreProperly(small: Context, ctx: Context, n: string, s: string)
    requires Plain(ctx) && Extends(small, ctx) && n in ctx && n !in small && !ProperlyCaptures(ctx, s)
    ensures Subst(map[n := ctx[n]], Subst(small, s)) == Subst(small[n := ctx[n]], s)
    decreases |s|
  {
    var one, big := map[n := ctx[n]], small[n := ctx[n]];
    if s == "" {
    } else if Known(ctx, s) {
      var y, rest := UpToBrace(s[1..]), AfterName(s);
      NoneProperBehind(ctx, s, |y| + 2);
      OneMoreProperly(small, ctx, n, rest);
      if y == n {
        OneMoreItself(small, n, ctx[n], s);
      } else if y in small {
        SubstAfterBraceFree(one, small[y], Subst(small, rest));
      } else {
        SubstUnknown(small, y, s);
        SubstUnknown(big, y, s);
        KnownPlaceholder(one, y, Subst(small, rest));
        SubstUnknown(one, y, Placeholder(y) + Subst(small, rest));
      }
    } else {
      NoneProperBehind(ctx, s, 1);
      OneMoreProperly(small, ctx, n, s[1..]);
      NothingNew(small, ctx, n, s);
      assert ([s[0]] + Subst(small, s[1..]))[1..] == Subst(small, s[1..]);
    }
  }

  lemma {:induction false} InOrderProperly(ctx: Context, names: seq<string>, s: string)
    requires Plain(ctx) && !ProperlyCaptures(ctx, s) && Distinct(names) && forall n :: n in names ==> n in ctx
    ensures ReplaceInOrder(ctx, names, s) == Subst(Restrict(ctx, names), s)
    decreases |names|
  {
    if names == [] {
      assert Restrict(ctx, names) == map[];
      SubstNothing(s);
    } else {
      var first, n := names[..|names| - 1], names[|names| - 1];
      assert n !in first && names == first + [n] && forall y :: y in first ==> y in names;
      RestrictSnoc(ctx, first, n);
      InOrderProperly(ctx, first, s);
      ReplaceAllIsSubst(n, ctx[n], Subst(Restrict(ctx, first), s));
      OneMoreProperly(Restrict(ctx, first), ctx, n, s);
    }
  }

  // ---------- The main results ----------

  /** Without a proper capture every order gives the simultaneous substitution. */
  lemma OrdersGiveSubst(ctx: Context, s: string, names: seq<string>)
    requires Plain(ctx) && !ProperlyCaptures(ctx, s) && IsOrder(ctx, names)
    ensures ReplaceInOrder(ctx, names, s) == Subst(ctx, s)
  {
    InOrderProperly(ctx, names, s);
    assert Restrict(ctx, names) == ctx;
  }

  lemma LastTwo(ctx: Context, names: seq<string>, n: string, m: string, s: string)
    requires Plain(ctx) && n in ctx && m in ctx && forall x :: x in names ==> x in ctx
    ensures ReplaceInOrder(ctx, names + [n, m], s)
      == Subst(map[m := ctx[m]], Subst(map[n := ctx[n]], ReplaceInOrder(ctx, names, s)))
  {
    var one, two := names + [n], names + [n, m];
    assert two[..|two| - 1] == one && two[|two| - 1] == m;
    assert one[..|one| - 1] == names && one[|one| - 1] == n;
    var first := ReplaceInOrder(ctx, names, s);
    ReplaceAllIsSubst(n, ctx[n], first);
    ReplaceAllIsSubst(m, ctx[m], Subst(map[n := ctx[n]], first));
    assert ReplaceInOrder(ctx, one, s) == ReplaceAll(first, Placeholder(n), ctx[n]);
  }

  lemma ProperSite(ctx: Context, s: string, i: nat, j: nat)
    requires i < j < |s| && CapturesAt(ctx, s, i, j)
    ensures s == Site(s[..i], s[i + 1..j], s[j + 1..])
  {
    assert s[j..] == "}" + s[j + 1..];
    assert s[i + 1..] == s[i + 1..j] + s[j..];
    assert s[i..] == "{" + s[i + 1..];
  }

  /** A proper capture waits for one of the variables between its braces. */
  lemma ProperWaits(ctx: Context, s: string) returns (n: string, m: string, a: string, q: string, b: string)
    requires ProperlyCaptures(ctx, s)
    ensures s == Site(a, q, b)
    ensures n in ctx && m in ctx && n != m && Waits(Left(ctx, m, []), n, m, q)
  {
    var i, j :| 0 <= i < j < |s| && ProperAt(ctx, s, i, j);
    a, q, b := s[..i], s[i + 1..j], s[j + 1..];
    ProperSite(ctx, s, i, j);
    m := Flat(ctx, q).value;
    FlatWithout(ctx, m, q);
    assert Left(ctx, m, []) == ctx - {m};
    n := InnerName(ctx - {m}, q);
  }

  lemma OrderWithLastTwo(ctx: Context, rest: seq<string>, n: string, m: string)
    requires n in ctx && m in ctx && n != m && IsOrder(ctx - {n, m}, rest)
    ensures IsOrder(ctx, rest + [n, m])
  {
    assert forall x :: x in rest + [n, m] <==> x in rest || x == n || x == m;
    assert n !in rest && m !in rest;
  }

  lemma LastOneLeft(ctx: Context, rest: seq<string>, n: string, m: string)
    requires n in ctx && m in ctx && n != m && IsOrder(ctx - {n, m}, rest)
    ensures Left(ctx, m, rest) == map[n := ctx[n]]
  {
  }

  /** The two variables of the capture last, in either order. */
  lemma LastTwoDiffer(ctx: Context, rest: seq<string>, n: string, m: string, a: string, q: string, b: string)
    requires Plain(ctx) && n in ctx && m in ctx && n != m && IsOrder(ctx - {n, m}, rest)
    requires Waits(Left(ctx, m, []), n, m, q)
    ensures ReplaceInOrder(ctx, rest + [n, m], Site(a, q, b)) != ReplaceInOrder(ctx, rest + [m, n], Site(a, q, b))
  {
    var p := Pair(n, ctx[n], m, ctx[m]);
    assert forall x :: x in rest ==> x in ctx - {n, m};
    var a', q', b' := SiteStays(ctx, rest, n, m, a, q, b);
    LastOneLeft(ctx, rest, n, m);
    assert Left(ctx, m, rest) == N(p);
    SiteMakes(p, a', q', b');
    LastTwo(ctx, rest, n, m, Site(a, q, b));
    LastTwo(ctx, rest, m, n, Site(a, q, b));
  }

  /** A proper capture has two orders with different results. */
  lemma ProperCaptureTellsOrdersApart(ctx: Context, s: string) returns (one: seq<string>, other: seq<string>)
    requires Plain(ctx) && ProperlyCaptures(ctx, s)
    ensures IsOrder(ctx, one) && IsOrder(ctx, other)
    ensures ReplaceInOrder(ctx, one, s) != ReplaceInOrder(ctx, other, s)
  {
    var n, m, a, q, b := ProperWaits(ctx, s);
    var rest := OrderExists(ctx - {n, m});
    LastTwoDiffer(ctx, rest, n, m, a, q, b);
    OrderWithLastTwo(ctx, rest, n, m);
    assert ctx - {m, n} == ctx - {n, m};
    OrderWithLastTwo(ctx, rest, m, n);
    one, other := rest + [n, m], rest + [m, n];
  }

  /** All orders of the map iteration agree exactly if the text has no proper capture. */
  lemma OrdersAgreeIff(ctx: Context, s: string)
    requires Plain(ctx)
    ensures (forall one, other :: IsOrder(ctx, one) && IsOrder(ctx, other) ==>
               ReplaceInOrder(ctx, one, s) == ReplaceInOrder(ctx, other, s))
       <==> !ProperlyCaptures(ctx, s)
  {
    if ProperlyCaptures(ctx, s) {
      var one, other := ProperCaptureTellsOrdersApart(ctx, s);
    } else {
      forall one, other | IsOrder(ctx, one) && IsOrder(ctx, other)
        ensures ReplaceInOrder(ctx, one, s) == ReplaceInOrder(ctx, other, s)
      {
        OrdersGiveSubst(ctx, s, one);
        OrdersGiveSubst(ctx, s, other);
      }
    }
  }

  /** The orders agree with one another exactly if they agree with the simultaneous substitution. */
  lemma AgreementIsSubst(ctx: Context, s: string)
    requires Plain(ctx)
    ensures (forall one, other :: IsOrder(ctx, one) && IsOrder(ctx, other) ==>
               ReplaceInOrder(ctx, one, s) == ReplaceInOrder(ctx, other, s))
       <==> (forall names :: IsOrder(ctx, names) ==> ReplaceInOrder(ctx, names, s) == Subst(ctx, s))
  {
    OrdersAgreeIff(ctx, s);
    if ProperlyCaptures(ctx, s) {
      var one, other := ProperCaptureTellsOrdersApart(ctx, s);
    } else {
      forall names | IsOrder(ctx, names)
        ensures ReplaceInOrder(ctx, names, s) == Subst(ctx, s)
      {
        OrdersGiveSubst(ctx, s, names);
      }
    }
  }
}
