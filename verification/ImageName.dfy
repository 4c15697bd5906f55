/**
 The name of a cached project image: the base name, the sorted profiles, the native flag and the sorted,
 sanitised options, joined by dashes.  Sorting makes it independent of the order in which profiles and
 options are given.
 */
module ImageName {
  import opened Sequences
  import opened GoStrings

  // ---------- The order of strings ----------

  predicate Leq(a: string, b: string) {
    a == "" || (b != "" && (a[0] < b[0] || (a[0] == b[0] && Leq(a[1..], b[1..]))))
  }

  lemma {:induction false} LeqTotal(a: string, b: string)
    ensures Leq(a, b) || Leq(b, a)
    ensures Leq(a, b) && Leq(b, a) ==> a == b
  {
    if a != "" && b != "" {
      LeqTotal(a[1..], b[1..]);
      assert a == [a[0]] + a[1..] && b == [b[0]] + b[1..];
    }
  }

  lemma {:induction false} LeqTransitive(a: string, b: string, c: string)
    requires Leq(a, b) && Leq(b, c)
    ensures Leq(a, c)
  {
    if a != "" && a[0] == b[0] == c[0] {
      LeqTransitive(a[1..], b[1..], c[1..]);
    }
  }

  predicate Ordered(s: seq<string>) {
    forall i, j :: 0 <= i < j < |s| ==> Leq(s[i], s[j])
  }

  // ---------- Sorting ----------

  function Insert(s: seq<string>, x: string): (r: seq<string>)
    ensures |r| == |s| + 1
  {
    if s == [] || Leq(s[|s| - 1], x) then s + [x] else Insert(s[..|s| - 1], x) + [s[|s| - 1]]
  }

  function Sorted(s: seq<string>): (r: seq<string>)
    ensures |r| == |s|
  {
    if s == [] then [] else Insert(Sorted(s[..|s| - 1]), s[|s| - 1])
  }

  lemma {:induction false} InsertKeeps(s: seq<string>, x: string)
    requires Ordered(s)
    ensures multiset(Insert(s, x)) == multiset(s) + multiset{x}
    ensures Ordered(Insert(s, x))
  {
    if s != [] {
      var n := |s| - 1;
      var last, front := s[n], s[..n];
      assert s == front + [last];
      if Leq(last, x) {
        forall i | 0 <= i < n
          ensures Leq(s[i], x)
        {
          LeqTransitive(s[i], last, x);
        }
      } else {
        LeqTotal(last, x);
        InsertKeeps(front, x);
        var r := Insert(front, x);
        forall i | 0 <= i < |r|
          ensures Leq(r[i], last)
        {
          assert r[i] in multiset(r);
          assert r[i] in multiset(front) + multiset{x};
          assert r[i] == x || r[i] in front;
        }
      }
    }
  }

  lemma {:induction false} SortedKeeps(s: seq<string>)
    ensures Ordered(Sorted(s)) && multiset(Sorted(s)) == multiset(s)
  {
    if s != [] {
      SortedKeeps(s[..|s| - 1]);
      InsertKeeps(Sorted(s[..|s| - 1]), s[|s| - 1]);
      assert s == s[..|s| - 1] + [s[|s| - 1]];
    }
  }

  lemma LeastComesFirst(s: seq<string>, t: seq<string>)
    requires s != [] && t != [] && Ordered(s) && Ordered(t) && s[0] in multiset(t)
    ensures Leq(t[0], s[0])
  {
    assert s[0] in t;
    var i :| 0 <= i < |t| && t[i] == s[0];
    LeqTotal(t[0], t[0]);
  }

  lemma HeadsEqual(s: seq<string>, t: seq<string>)
    requires s != [] && Ordered(s) && Ordered(t) && multiset(s) == multiset(t)
    ensures t != [] && s[0] == t[0]
  {
    assert s[0] in multiset(s);
    assert t != [];
    assert t[0] in multiset(t);
    LeastComesFirst(s, t);
    LeastComesFirst(t, s);
    LeqTotal(s[0], t[0]);
  }

  lemma WithoutHead(s: seq<string>)
    requires s != []
    ensures multiset(s[1..]) == multiset(s) - multiset{s[0]}
  {
    assert s == [s[0]] + s[1..];
  }

  /** There is one ordered arrangement of a multiset of strings. */
  lemma {:induction false} OrderedUnique(s: seq<string>, t: seq<string>)
    requires Ordered(s) && Ordered(t) && multiset(s) == multiset(t)
    ensures s == t
    decreases |s|
  {
    assert |multiset(s)| == |s| && |multiset(t)| == |t|;
    if s != [] {
      HeadsEqual(s, t);
      WithoutHead(s);
      WithoutHead(t);
      OrderedUnique(s[1..], t[1..]);
      assert s == [s[0]] + s[1..] && t == [t[0]] + t[1..];
    }
  }

  /** Two lists are sorted alike exactly if they are permutations of each other. */
  lemma SortedAlikeIff(s: seq<string>, t: seq<string>)
    ensures Sorted(s) == Sorted(t) <==> multiset(s) == multiset(t)
  {
    SortedKeeps(s);
    SortedKeeps(t);
    if multiset(s) == multiset(t) {
      OrderedUnique(Sorted(s), Sorted(t));
    }
  }

  lemma InsertStep(s: seq<string>, x: string, j: nat)
    requires 0 < j <= |s| && !Leq(s[j - 1], x)
    ensures Insert(s[..j], x) + s[j..] == Insert(s[..j - 1], x) + s[j - 1..]
  {
    assert s[..j][..j - 1] == s[..j - 1];
    assert [s[j - 1]] + s[j..] == s[j - 1..];
    assert Insert(s[..j - 1], x) + [s[j - 1]] + s[j..] == Insert(s[..j - 1], x) + ([s[j - 1]] + s[j..]);
  }

  /** The array while x comes down among s: it stands at place j. */
  function Placed(s: seq<string>, x: string, j: nat, rest: seq<string>): seq<string>
    requires j <= |s|
  {
    s[..j] + [x] + s[j..] + rest
  }

  lemma PlacedDown(s: seq<string>, x: string, j: nat, rest: seq<string>)
    requires 0 < j <= |s|
    ensures Placed(s, x, j, rest)[j] == x && Placed(s, x, j, rest)[j - 1] == s[j - 1]
    ensures Placed(s, x, j, rest)[j - 1 := x][j := s[j - 1]] == Placed(s, x, j - 1, rest)
  {
    assert s[j - 1..] == [s[j - 1]] + s[j..] && s[..j] == s[..j - 1] + [s[j - 1]];
  }

  lemma PlacedDone(s: seq<string>, x: string, j: nat, rest: seq<string>)
    requires j <= |s| && (j == 0 || Leq(s[j - 1], x)) && Insert(s, x) == Insert(s[..j], x) + s[j..]
    ensures Placed(s, x, j, rest)[..|s| + 1] == Insert(s, x) && Placed(s, x, j, rest)[|s| + 1..] == rest
  {
    assert Insert(s[..j], x) == s[..j] + [x];
  }

  /** Moves a[i] down to its place among the sorted a[..i]. */
  method InsertInPlace(a: array<string>, i: nat)
    requires i < a.Length
    modifies a
    ensures a[..i + 1] == Insert(old(a[..i]), old(a[i]))
    ensures a[i + 1..] == old(a[i + 1..])
  {
    ghost var s, x, rest := a[..i], a[i], a[i + 1..];
    var j := i;
    assert s[..i] == s && s[i..] == [];
    while j > 0 && !Leq(a[j - 1], a[j])
      invariant 0 <= j <= i && a[..] == Placed(s, x, j, rest)
      invariant Insert(s, x) == Insert(s[..j], x) + s[j..]
    {
      InsertStep(s, x, j);
      PlacedDown(s, x, j, rest);
      a[j - 1], a[j] := a[j], a[j - 1];
      j := j - 1;
    }
    PlacedDone(s, x, j, rest);
  }

  lemma SortedNext(s: seq<string>, i: nat)
    requires i < |s|
    ensures Sorted(s[..i + 1]) == Insert(Sorted(s[..i]), s[i])
  {
    assert s[..i + 1][..i] == s[..i];
  }

  /** Stands for sort.Strings: the array ends up sorted and rearranged, whatever the algorithm. */
  method SortStrings(a: array<string>)
    modifies a
    ensures a[..] == Sorted(old(a[..]))
  {
    ghost var was := a[..];
    for i := 0 to a.Length
      invariant a[..i] == Sorted(was[..i]) && a[i..] == was[i..]
    {
      assert a[i] == was[i..][0] == was[i];
      assert a[i + 1..] == a[i..][1..] && was[i + 1..] == was[i..][1..];
      SortedNext(was, i);
      InsertInPlace(a, i);
    }
    assert was[..a.Length] == was && a[..a.Length] == a[..];
  }

  // ---------- The name ----------

  const NATIVE := "native"

  /** strings.ToLower works character by character; `lower` stands for Unicode's table. */
  function ToLower(s: string, lower: char -> char): string {
    seq(|s|, i requires 0 <= i < |s| => lower(s[i]))
  }

  function Sanitize(option: string, lower: char -> char): string {
    ToLower(ReplaceAll(option, "=", "-"), lower)
  }

  function SanitizeAll(options: seq<string>, lower: char -> char): seq<string> {
    seq(|options|, i requires 0 <= i < |options| => Sanitize(options[i], lower))
  }

  /** What the name is made of. */
  datatype Config = Config(base: string, profiles: seq<string>, native: bool, options: seq<string>)

  function Flag(native: bool): seq<string> {
    if native then [NATIVE] else []
  }

  function Parts(c: Config, lower: char -> char): seq<string> {
    [c.base] + Sorted(c.profiles) + Flag(c.native) + Sorted(SanitizeAll(c.options, lower))
  }

  function Name(c: Config, lower: char -> char): string {
    Join(Parts(c, lower), "-")
  }

  /** Sanitises the options one by one and sorts the result. */
  method SanitizeOptions(options: seq<string>, lower: char -> char) returns (sorted: seq<string>)
    ensures sorted == Sorted(SanitizeAll(options, lower))
  {
    var sanitized := new string[|options|];
    for i := 0 to |options|
      invariant sanitized[..i] == SanitizeAll(options, lower)[..i]
    {
      sanitized[i] := Sanitize(options[i], lower);
    }
    assert sanitized[..] == SanitizeAll(options, lower);
    SortStrings(sanitized);
    return sanitized[..];
  }

  class MavenCommandConfig {
    var profiles: array<string>
    var native: bool
    var options: seq<string>

    constructor (profiles: array<string>, native: bool, options: seq<string>)
      ensures this.profiles == profiles && this.native == native && this.options == options
    {
      this.profiles, this.native, this.options := profiles, native, options;
    }

    /** The name; the profiles are sorted in place, nothing else changes. */
    method GetProjectImageName(base: string, lower: char -> char) returns (name: string)
      modifies profiles
      ensures name == Name(Config(base, old(profiles[..]), native, options), lower)
      ensures profiles[..] == Sorted(old(profiles[..]))
    {
      assert profiles.Length == 0 ==> profiles[..] == Sorted(profiles[..]);
      var parts := [base];
      ghost var sorted, flag := Sorted(profiles[..]), Flag(native);
      if profiles.Length > 0 {
        SortStrings(profiles);
        parts := parts + profiles[..];
      } else {
        NothingToAdd(parts, sorted);
      }
      if native {
        parts := parts + [NATIVE];
      } else {
        NothingToAdd(parts, flag);
      }
      assert parts == [base] + sorted + flag;
      if |options| > 0 {
        var sanitized := SanitizeOptions(options, lower);
        parts := parts + sanitized;
      } else {
        NothingToAdd(parts, Sorted(SanitizeAll(options, lower)));
      }
      name := Join(parts, "-");
    }
  }

  lemma NothingToAdd(parts: seq<string>, more: seq<string>)
    requires |more| == 0
    ensures parts + more == parts
  {
  }

  // ---------- What the name depends on ----------

  function Without(s: seq<string>, k: nat): seq<string>
    requires k < |s|
  {
    s[..k] + s[k + 1..]
  }

  /** Taking out one option takes out its sanitised form. */
  lemma SanitizeWithout(options: seq<string>, k: nat, lower: char -> char)
    requires k < |options|
    ensures multiset(options) == multiset(Without(options, k)) + multiset{options[k]}
    ensures multiset(SanitizeAll(options, lower))
         == multiset(SanitizeAll(Without(options, k), lower)) + multiset{Sanitize(options[k], lower)}
  {
    var all := SanitizeAll(options, lower);
    TakeOut(options, k);
    TakeOut(all, k);
    SanitizeRest(options, k, lower);
  }

  lemma TakeOut(s: seq<string>, k: nat)
    requires k < |s|
    ensures multiset(s) == multiset(Without(s, k)) + multiset{s[k]}
  {
    assert s == s[..k] + [s[k]] + s[k + 1..];
  }

  lemma SanitizeRest(options: seq<string>, k: nat, lower: char -> char)
    requires k < |options|
    ensures SanitizeAll(Without(options, k), lower) == Without(SanitizeAll(options, lower), k)
  {
    var some, rest := SanitizeAll(Without(options, k), lower), Without(SanitizeAll(options, lower), k);
    assert |some| == |rest| && forall i :: 0 <= i < |some| ==> some[i] == rest[i];
  }

  lemma SameWithout(m: multiset<string>, n: multiset<string>, x: string)
    requires m + multiset{x} == n + multiset{x}
    ensures m == n
  {
    assert m == m + multiset{x} - multiset{x};
    assert n == n + multiset{x} - multiset{x};
  }

  lemma SameWithoutSame(a: seq<string>, b: seq<string>, i: nat, j: nat, lower: char -> char)
    requires i < |a| && j < |b| && a[i] == b[j]
    ensures multiset(a) == multiset(b) ==> multiset(Without(a, i)) == multiset(Without(b, j))
    ensures multiset(SanitizeAll(Without(a, i), lower)) == multiset(SanitizeAll(Without(b, j), lower)) ==>
      multiset(SanitizeAll(a, lower)) == multiset(SanitizeAll(b, lower))
  {
    SanitizeWithout(a, i, lower);
    SanitizeWithout(b, j, lower);
    if multiset(a) == multiset(b) {
      SameWithout(multiset(Without(a, i)), multiset(Without(b, j)), a[i]);
    }
  }

  lemma {:induction false} SanitizeAllPermutes(a: seq<string>, b: seq<string>, lower: char -> char)
    requires multiset(a) == multiset(b)
    ensures multiset(SanitizeAll(a, lower)) == multiset(SanitizeAll(b, lower))
    decreases |a|
  {
    if a == [] {
      assert |multiset(b)| == 0;
      assert b == [];
    } else {
      var k := IndexOf(b, a[0], a);
      SameWithoutSame(a, b, 0, k, lower);
      SanitizeAllPermutes(Without(a, 0), Without(b, k), lower);
    }
  }

  lemma IndexOf(b: seq<string>, x: string, a: seq<string>) returns (k: nat)
    requires x in a && multiset(a) == multiset(b)
    ensures k < |b| && b[k] == x
  {
    assert x in multiset(b);
    k :| k < |b| && b[k] == x;
  }

  /** Any permutation of the profiles and any permutation of the options give the same name. */
  lemma NameIsCanonical(c: Config, d: Config, lower: char -> char)
    requires c.base == d.base && c.native == d.native
    requires multiset(c.profiles) == multiset(d.profiles) && multiset(c.options) == multiset(d.options)
    ensures Name(c, lower) == Name(d, lower)
  {
    SortedAlikeIff(c.profiles, d.profiles);
    SanitizeAllPermutes(c.options, d.options, lower);
    SortedAlikeIff(SanitizeAll(c.options, lower), SanitizeAll(d.options, lower));
  }

  // ---------- What the name tells apart ----------

  /** For all configurations: the names are equal exactly if the texts between the dashes are, in order. */
  lemma NameAlikeIff(c: Config, d: Config, lower: char -> char)
    ensures Name(c, lower) == Name(d, lower) <==> Pieces(Parts(c, lower), "-") == Pieces(Parts(d, lower), "-")
  {
    JoinAlikeIff(Parts(c, lower), Parts(d, lower), "-");
  }

  predicate NoDash(c: Config, lower: char -> char) {
    forall x :: x in Parts(c, lower) ==> !Contains(x, "-")
  }

  /** Without dashes in the parts, the name tells exactly what the parts tell. */
  lemma NameAlikeIffParts(c: Config, d: Config, lower: char -> char)
    requires NoDash(c, lower) && NoDash(d, lower)
    ensures Name(c, lower) == Name(d, lower) <==> Parts(c, lower) == Parts(d, lower)
  {
    NameAlikeIff(c, d, lower);
    PiecesWithout(Parts(c, lower), "-");
    PiecesWithout(Parts(d, lower), "-");
  }

  /** The parts fall into the same sections. */
  predicate SameShape(c: Config, d: Config) {
    |c.profiles| == |d.profiles| && c.native == d.native
  }

  /** No profile or sanitised option reads like the native flag, and no profile of the one like an option of
      the other. */
  predicate Clear(c: Config, d: Config, lower: char -> char) {
    && NATIVE !in c.profiles && NATIVE !in SanitizeAll(c.options, lower)
    && NATIVE !in d.profiles && NATIVE !in SanitizeAll(d.options, lower)
    && (forall x :: x in c.profiles ==> x !in SanitizeAll(d.options, lower))
    && (forall x :: x in d.profiles ==> x !in SanitizeAll(c.options, lower))
  }

  /** Equal up to the order of profiles and options, and up to sanitising. */
  predicate Equivalent(c: Config, d: Config, lower: char -> char) {
    && c.base == d.base && c.native == d.native
    && multiset(c.profiles) == multiset(d.profiles)
    && multiset(SanitizeAll(c.options, lower)) == multiset(SanitizeAll(d.options, lower))
  }

  lemma SortedMember(s: seq<string>, i: nat)
    requires i < |s|
    ensures Sorted(s)[i] in s
  {
    SortedKeeps(s);
    assert Sorted(s)[i] in multiset(Sorted(s));
  }

  /** What stands behind the profiles, in a list that goes on. */
  lemma BehindProfiles(c: Config, lower: char -> char)
    requires |Parts(c, lower)| > 1 + |c.profiles|
    ensures var x := Parts(c, lower)[1 + |c.profiles|];
      if c.native then x == NATIVE else x in SanitizeAll(c.options, lower)
  {
    if !c.native {
      SortedMember(SanitizeAll(c.options, lower), 0);
    }
  }

  lemma ProfileAt(c: Config, lower: char -> char, i: nat)
    requires i < |c.profiles|
    ensures |Parts(c, lower)| > 1 + i && Parts(c, lower)[1 + i] in c.profiles
  {
    SortedMember(c.profiles, i);
  }

  lemma NoMoreProfiles(c: Config, d: Config, lower: char -> char)
    requires Clear(c, d, lower) && Parts(c, lower) == Parts(d, lower)
    ensures |c.profiles| >= |d.profiles|
  {
    if |c.profiles| < |d.profiles| {
      ProfileAt(d, lower, |c.profiles|);
      BehindProfiles(c, lower);
      assert false;
    }
  }

  lemma SameFlag(c: Config, d: Config, lower: char -> char)
    requires Clear(c, d, lower) && Parts(c, lower) == Parts(d, lower) && |c.profiles| == |d.profiles|
    ensures c.native == d.native
  {
    if c.native != d.native {
      BehindProfiles(c, lower);
      BehindProfiles(d, lower);
      assert false;
    }
  }

  lemma SameSections(c: Config, d: Config, lower: char -> char)
    requires SameShape(c, d) && Parts(c, lower) == Parts(d, lower)
    ensures c.base == d.base && Sorted(c.profiles) == Sorted(d.profiles)
    ensures Sorted(SanitizeAll(c.options, lower)) == Sorted(SanitizeAll(d.options, lower))
  {
    SectionsEqual([c.base], [d.base], Sorted(c.profiles), Sorted(d.profiles), Flag(c.native),
                  Sorted(SanitizeAll(c.options, lower)), Sorted(SanitizeAll(d.options, lower)));
    assert [c.base][0] == [d.base][0];
  }

  lemma SectionsEqual(h: seq<string>, h': seq<string>, p: seq<string>, p': seq<string>, f: seq<string>,
                      o: seq<string>, o': seq<string>)
    requires |h| == |h'| && |p| == |p'| && h + p + f + o == h' + p' + f + o'
    ensures h == h' && p == p' && o == o'
  {
    FrontEqual(h + p + f, h' + p' + f, o, o');
    FrontEqual(h + p, h' + p', f, f);
    FrontEqual(h, h', p, p');
  }

  lemma FrontEqual(a: seq<string>, a': seq<string>, b: seq<string>, b': seq<string>)
    requires |a| == |a'| && a + b == a' + b'
    ensures a == a' && b == b'
  {
    assert a == (a + b)[..|a|] && b == (a + b)[|a|..];
    assert a' == (a' + b')[..|a|] && b' == (a' + b')[|a|..];
  }

  /** The parts before joining tell configurations apart up to permutation and sanitising, if they have the
      same shape or are clear of each other. */
  lemma PartsAlikeIff(c: Config, d: Config, lower: char -> char)
    requires SameShape(c, d) || Clear(c, d, lower)
    ensures Parts(c, lower) == Parts(d, lower) <==> Equivalent(c, d, lower)
  {
    SortedAlikeIff(c.profiles, d.profiles);
    SortedAlikeIff(SanitizeAll(c.options, lower), SanitizeAll(d.options, lower));
    if Parts(c, lower) == Parts(d, lower) {
      if Clear(c, d, lower) {
        NoMoreProfiles(c, d, lower);
        NoMoreProfiles(d, c, lower);
        SameFlag(c, d, lower);
      }
      SameSections(c, d, lower);
    }
  }

  /** The cache key: without dashes in the parts, and if no profile or option can be taken for the native flag
      or for one another, the names are equal exactly if base, flag, profiles and sanitised options are. */
  lemma NameTellsConfigurationsApart(c: Config, d: Config, lower: char -> char)
    requires NoDash(c, lower) && NoDash(d, lower) && Clear(c, d, lower)
    ensures Name(c, lower) == Name(d, lower) <==> Equivalent(c, d, lower)
  {
    NameAlikeIffParts(c, d, lower);
    PartsAlikeIff(c, d, lower);
  }

  // ---------- Options that start with a dash ----------

  /** An option as Maven has them, "-Dkey-value" once sanitised: one dash in front of a text without empty piece
      between its dashes. */
  predicate DashOption(option: string) {
    option != "" && option[0] == '-' && "" !in Split(option[1..], "-")
  }

  /** Plain profiles other than the native one, and such options. */
  predicate Usual(c: Config, lower: char -> char) {
    && (forall x :: x in c.profiles ==> x != "" && x != NATIVE && !Contains(x, "-"))
    && (forall x :: x in SanitizeAll(c.options, lower) ==> DashOption(x))
  }

  lemma {:induction false} PiecesConcat(a: seq<string>, b: seq<string>, dash: string)
    requires dash != ""
    ensures Pieces(a + b, dash) == Pieces(a, dash) + Pieces(b, dash)
  {
    if a == [] {
      assert a + b == b;
    } else {
      assert (a + b)[1..] == a[1..] + b;
      PiecesConcat(a[1..], b, dash);
      ConcatAssoc(Split(a[0], dash), Pieces(a[1..], dash), Pieces(b, dash));
    }
  }

  lemma NotShorter(p: seq<string>, p': seq<string>, r: seq<string>, r': seq<string>)
    requires "" !in p' && (r != [] ==> r[0] == "") && p + r == p' + r'
    ensures |p| >= |p'|
  {
    assert forall k :: 0 <= k < |p'| ==> (p + r)[k] == p'[k];
    assert r != [] ==> (p + r)[|p|] == "";
  }

  /** Pieces up to the first empty one are told from what follows. */
  lemma CutAtEmpty(p: seq<string>, p': seq<string>, r: seq<string>, r': seq<string>)
    requires "" !in p && "" !in p' && (r != [] ==> r[0] == "") && (r' != [] ==> r'[0] == "")
    requires p + r == p' + r'
    ensures p == p' && r == r'
  {
    NotShorter(p, p', r, r');
    NotShorter(p', p, r', r);
    FrontEqual(p, p', r, r');
  }

  lemma DashOptionPieces(option: string)
    requires DashOption(option)
    ensures Split(option, "-") == [""] + Split(option[1..], "-")
  {
    assert "-" + option[1..] == option;
    SplitHit(option[1..], "-");
  }

  lemma DashOptionsPieces(options: seq<string>)
    requires forall x :: x in options ==> DashOption(x)
    ensures options == [] ==> Pieces(options, "-") == []
    ensures options != [] ==>
      && options[0] != ""
      && Pieces(options, "-") == [""] + (Split(options[0][1..], "-") + Pieces(options[1..], "-"))
  {
    if options != [] {
      assert options[0] in options;
      DashOptionPieces(options[0]);
      ConcatAssoc([""], Split(options[0][1..], "-"), Pieces(options[1..], "-"));
    }
  }

  /** The empty piece in front of each option tells where it starts. */
  lemma {:induction false} PiecesTellOptions(a: seq<string>, b: seq<string>)
    requires forall x :: x in a ==> DashOption(x)
    requires forall x :: x in b ==> DashOption(x)
    requires Pieces(a, "-") == Pieces(b, "-")
    ensures a == b
    decreases |a|
  {
    DashOptionsPieces(a);
    DashOptionsPieces(b);
    if a != [] {
      assert a[0] in a && b[0] in b;
      assert forall x :: x in a[1..] ==> x in a;
      assert forall x :: x in b[1..] ==> x in b;
      var p, p' := Split(a[0][1..], "-"), Split(b[0][1..], "-");
      var r, r' := Pieces(a[1..], "-"), Pieces(b[1..], "-");
      assert p + r == ([""] + (p + r))[1..] == p' + r';
      DashOptionsPieces(a[1..]);
      DashOptionsPieces(b[1..]);
      CutAtEmpty(p, p', r, r');
      JoinSplit(a[0][1..], "-");
      JoinSplit(b[0][1..], "-");
      PiecesTellOptions(a[1..], b[1..]);
      SameHeads(a, b);
    }
  }

  lemma SameHeads(a: seq<string>, b: seq<string>)
    requires a != [] && b != [] && a[0] != "" && b[0] != "" && a[0][0] == b[0][0] && a[0][1..] == b[0][1..]
    requires a[1..] == b[1..]
    ensures a == b
  {
    assert a[0] == [a[0][0]] + a[0][1..] && b[0] == [b[0][0]] + b[0][1..];
    assert a == [a[0]] + a[1..] && b == [b[0]] + b[1..];
  }

  lemma {:induction false} SortedMembers(s: seq<string>)
    ensures forall x :: x in Sorted(s) <==> x in s
  {
    SortedKeeps(s);
    assert forall x :: x in Sorted(s) <==> x in multiset(Sorted(s));
    assert forall x :: x in s <==> x in multiset(s);
  }

  /** The profiles with the native flag behind them. */
  function Front(c: Config): seq<string> {
    Sorted(c.profiles) + Flag(c.native)
  }

  lemma FrontMembers(c: Config, lower: char -> char)
    requires Usual(c, lower)
    ensures forall x :: x in Front(c) ==> x != "" && !Contains(x, "-")
    ensures NATIVE in Front(c) <==> c.native
  {
    SortedMembers(c.profiles);
    ContainsNeedsFirst(NATIVE, "-");
  }

  lemma UsualPieces(c: Config, lower: char -> char)
    requires Usual(c, lower)
    ensures Pieces(Parts(c, lower), "-")
         == Split(c.base, "-") + (Front(c) + Pieces(Sorted(SanitizeAll(c.options, lower)), "-"))
    ensures "" !in Front(c)
  {
    var options := Sorted(SanitizeAll(c.options, lower));
    FrontMembers(c, lower);
    PiecesConcat(Front(c), options, "-");
    assert forall i :: 0 <= i < |Front(c)| ==> Front(c)[i] in Front(c);
    PiecesWithout(Front(c), "-");
    PartsByTail(c, lower);
    ConcatAssoc(Sorted(c.profiles), Flag(c.native), options);
    PiecesCons(c.base, Front(c) + options, "-");
  }

  lemma FrontTells(c: Config, d: Config, lower: char -> char)
    requires Usual(c, lower) && Usual(d, lower) && Front(c) == Front(d)
    ensures c.native == d.native && Sorted(c.profiles) == Sorted(d.profiles)
  {
    FrontMembers(c, lower);
    FrontMembers(d, lower);
    assert |Sorted(c.profiles)| == |Sorted(d.profiles)|;
    FrontEqual(Sorted(c.profiles), Sorted(d.profiles), Flag(c.native), Flag(d.native));
  }

  lemma EqualNamesTell(c: Config, d: Config, lower: char -> char)
    requires Usual(c, lower) && Usual(d, lower) && c.base == d.base && Name(c, lower) == Name(d, lower)
    ensures Equivalent(c, d, lower)
  {
    var a, b := Sorted(SanitizeAll(c.options, lower)), Sorted(SanitizeAll(d.options, lower));
    NameAlikeIff(c, d, lower);
    UsualPieces(c, lower);
    UsualPieces(d, lower);
    FrontEqual(Split(c.base, "-"), Split(d.base, "-"), Front(c) + Pieces(a, "-"), Front(d) + Pieces(b, "-"));
    SortedMembers(SanitizeAll(c.options, lower));
    SortedMembers(SanitizeAll(d.options, lower));
    DashOptionsPieces(a);
    DashOptionsPieces(b);
    CutAtEmpty(Front(c), Front(d), Pieces(a, "-"), Pieces(b, "-"));
    FrontTells(c, d, lower);
    PiecesTellOptions(a, b);
    SortedAlikeIff(c.profiles, d.profiles);
    SortedAlikeIff(SanitizeAll(c.options, lower), SanitizeAll(d.options, lower));
  }

  /** For one project, plain profiles and options that start with a dash, the cache key is right: the names are
      equal exactly if flag, profiles and sanitised options are. */
  lemma NameTellsUsualConfigurationsApart(c: Config, d: Config, lower: char -> char)
    requires Usual(c, lower) && Usual(d, lower) && c.base == d.base
    ensures Name(c, lower) == Name(d, lower) <==> Equivalent(c, d, lower)
  {
    if Name(c, lower) == Name(d, lower) {
      EqualNamesTell(c, d, lower);
    } else if Equivalent(c, d, lower) {
      EquivalentNames(c, d, lower);
      assert false;
    }
  }

  lemma EquivalentNames(c: Config, d: Config, lower: char -> char)
    requires Equivalent(c, d, lower)
    ensures Name(c, lower) == Name(d, lower)
  {
    SortedAlikeIff(c.profiles, d.profiles);
    SortedAlikeIff(SanitizeAll(c.options, lower), SanitizeAll(d.options, lower));
  }

  /** Sanitising works character by character, with a dash for an equals sign. */
  lemma {:induction false} SanitizeIsCharwise(option: string, lower: char -> char)
    ensures |Sanitize(option, lower)| == |option|
    ensures forall i :: 0 <= i < |option| ==>
              Sanitize(option, lower)[i] == lower(if option[i] == '=' then '-' else option[i])
  {
    ReplaceCharwise(option);
  }

  lemma {:induction false} ReplaceCharwise(s: string)
    ensures |ReplaceAll(s, "=", "-")| == |s|
    ensures forall i :: 0 <= i < |s| ==> ReplaceAll(s, "=", "-")[i] == if s[i] == '=' then '-' else s[i]
  {
    if s != "" {
      ReplaceCharwise(s[1..]);
      assert "=" <= s <==> s[0] == '=';
    }
  }

  // ---------- Each condition is needed ----------

  lemma SortedOne(x: string)
    ensures Sorted([x]) == [x]
  {
    assert [x][..0] == [];
  }

  /** The name does not tell the native flag from a profile of that name. */
  lemma NativeProfileCollides(base: string, options: seq<string>, lower: char -> char)
    ensures Name(Config(base, [], true, options), lower) == Name(Config(base, [NATIVE], false, options), lower)
  {
    SortedOne(NATIVE);
    assert [base] + Sorted([]) + [NATIVE] == [base] + Sorted([NATIVE]) + [];
  }

  /** Nor a profile with a dash from two profiles. */
  lemma DashedProfileCollides(
    base: string, x: string, y: string, native: bool, options: seq<string>, lower: char -> char)
    requires Leq(x, y)
    ensures Name(Config(base, [x + "-" + y], native, options), lower)
         == Name(Config(base, [x, y], native, options), lower)
  {
    var one, two := Config(base, [x + "-" + y], native, options), Config(base, [x, y], native, options);
    var tail := Flag(native) + Sorted(SanitizeAll(options, lower));
    SortedOne(x + "-" + y);
    SortedTwo(x, y);
    PartsByTail(one, lower);
    PartsByTail(two, lower);
    ConcatAssoc([x], [y], tail);
    assert [x] + [y] == [x, y];
    PiecesOfDashed(x, y, tail);
    PiecesBehind(base, [x + "-" + y] + tail, [x, y] + tail);
    NameAlikeIff(one, two, lower);
  }

  lemma SortedTwo(x: string, y: string)
    requires Leq(x, y)
    ensures Sorted([x, y]) == [x, y]
  {
    SortedOne(x);
    assert [x, y][..1] == [x];
  }

  lemma PartsByTail(c: Config, lower: char -> char)
    ensures Parts(c, lower)
         == [c.base] + (Sorted(c.profiles) + (Flag(c.native) + Sorted(SanitizeAll(c.options, lower))))
  {
  }

  lemma PiecesBehind(base: string, a: seq<string>, b: seq<string>)
    requires Pieces(a, "-") == Pieces(b, "-")
    ensures Pieces([base] + a, "-") == Pieces([base] + b, "-")
  {
    assert ([base] + a)[1..] == a && ([base] + b)[1..] == b;
  }

  lemma SplitDashed(x: string, y: string, dash: string)
    requires |dash| == 1
    ensures Split(x + dash + y, dash) == Split(x, dash) + Split(y, dash)
  {
    ConcatAssoc(x, dash, y);
    SplitHit(y, dash);
    SplitParts(x, dash + y, dash);
    GlueFresh(Split(x, dash), Split(y, dash));
  }

  lemma PiecesCons(x: string, tail: seq<string>, dash: string)
    requires dash != ""
    ensures Pieces([x] + tail, dash) == Split(x, dash) + Pieces(tail, dash)
  {
    assert ([x] + tail)[1..] == tail;
  }

  lemma PiecesOfDashed(x: string, y: string, tail: seq<string>)
    ensures Pieces([x + "-" + y] + tail, "-") == Pieces([x] + ([y] + tail), "-")
  {
    SplitDashed(x, y, "-");
    PiecesCons(x + "-" + y, tail, "-");
    PiecesCons(x, [y] + tail, "-");
    PiecesCons(y, tail, "-");
    ConcatAssoc(Split(x, "-"), Split(y, "-"), Pieces(tail, "-"));
  }

  /** Nor a profile from an option. */
  lemma ProfileOptionCollides(base: string, x: string, lower: char -> char)
    requires Sanitize(x, lower) == x
    ensures Name(Config(base, [x], false, []), lower) == Name(Config(base, [], false, [x]), lower)
  {
    SortedOne(x);
    assert SanitizeAll([x], lower) == [x];
    assert [base] + Sorted([x]) + [] + [] == [base] + [] + [] + Sorted([x]);
  }

  // ---------- The name in plain terms ----------

  /** The order is by the first difference, and a prefix comes first. */
  lemma {:induction false} LeqByFirstDifference(a: string, b: string)
    ensures Leq(a, b) <==> a <= b || exists k :: 0 <= k < |a| && k < |b| && a[..k] == b[..k] && a[k] < b[k]
    decreases |a|
  {
    if a != "" && b != "" {
      if a[0] == b[0] {
        LeqByFirstDifference(a[1..], b[1..]);
        SameFirst(a, b);
      } else if a[0] < b[0] {
        assert a[..0] == b[..0];
      }
    }
  }

  lemma SameFirst(a: string, b: string)
    requires a != "" && b != "" && a[0] == b[0]
    ensures a <= b <==> a[1..] <= b[1..]
    ensures (exists k :: 0 <= k < |a| && k < |b| && a[..k] == b[..k] && a[k] < b[k])
       <==> exists k :: 0 <= k < |a[1..]| && k < |b[1..]| && a[1..][..k] == b[1..][..k] && a[1..][k] < b[1..][k]
  {
    assert a == [a[0]] + a[1..] && b == [b[0]] + b[1..];
    if k :| 0 <= k < |a| && k < |b| && a[..k] == b[..k] && a[k] < b[k] {
      assert a[1..][..k - 1] == a[..k][1..] && b[1..][..k - 1] == b[..k][1..];
      assert a[1..][k - 1] < b[1..][k - 1];
    }
    if k :| 0 <= k < |a[1..]| && k < |b[1..]| && a[1..][..k] == b[1..][..k] && a[1..][k] < b[1..][k] {
      assert a[..k + 1] == [a[0]] + a[1..][..k] && b[..k + 1] == [b[0]] + b[1..][..k];
      assert a[k + 1] < b[k + 1];
    }
  }

  /** The name is the base, the profiles in order, "native" if asked for, and the sanitised options in order, with
      dashes between. */
  lemma NameIsJoined(c: Config, lower: char -> char) returns (profiles: seq<string>, options: seq<string>)
    ensures multiset(profiles) == multiset(c.profiles) && Ordered(profiles)
    ensures multiset(options) == multiset(SanitizeAll(c.options, lower)) && Ordered(options)
    ensures Name(c, lower)
         == Join([c.base] + profiles + (if c.native then ["native"] else []) + options, "-")
  {
    profiles, options := Sorted(c.profiles), Sorted(SanitizeAll(c.options, lower));
    SortedKeeps(c.profiles);
    SortedKeeps(SanitizeAll(c.options, lower));
  }
}
