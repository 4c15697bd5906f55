/**
 The tag filter language: clauses joined by "&&", alternatives joined by ",", negation by "~", with "@"
 ignored everywhere.  Its meaning is a formula in conjunctive normal form.
 */
module TagFilter {
  import opened Sequences
  import opened GoStrings
  import opened Optional

  datatype Literal = Literal(negated: bool, name: string)
  type Clause = seq<Literal>
  type Cnf = seq<Clause>

  function StripAt(s: string): string {
    ReplaceAll(s, "@", "")
  }

  predicate HasTag(tags: seq<string>, tag: string) {
    exists k :: 0 <= k < |tags| && StripAt(tags[k]) == tag
  }

  // ---------- The formula ----------

  predicate Holds(l: Literal, tags: seq<string>) {
    HasTag(tags, l.name) != l.negated
  }

  predicate HoldsClause(c: Clause, tags: seq<string>) {
    exists k :: 0 <= k < |c| && Holds(c[k], tags)
  }

  predicate HoldsCnf(f: Cnf, tags: seq<string>) {
    forall k :: 0 <= k < |f| ==> HoldsClause(f[k], tags)
  }

  // ---------- The text ----------

  /** An empty atom makes the code index into an empty string: no formula. */
  function ParseAtom(text: string): Option<Literal> {
    var tag := StripAt(TrimSpace(text));
    if tag == "" then None
    else if tag[0] == '~' then Some(Literal(true, tag[1..]))
    else Some(Literal(false, tag))
  }

  function ParseAtoms(texts: seq<string>): Option<Clause> {
    if texts == [] then Some([])
    else
      var first, rest := ParseAtom(texts[0]), ParseAtoms(texts[1..]);
      if first.Some? && rest.Some? then Some([first.value] + rest.value) else None
  }

  function ParseClause(text: string): Option<Clause> {
    ParseAtoms(Split(text, ","))
  }

  function ParseClauses(texts: seq<string>): Option<Cnf> {
    if texts == [] then Some([])
    else
      var first, rest := ParseClause(texts[0]), ParseClauses(texts[1..]);
      if first.Some? && rest.Some? then Some([first.value] + rest.value) else None
  }

  function Parse(filter: string): Option<Cnf> {
    ParseClauses(Split(filter, "&&"))
  }

  /** What matchesTags answers; None is its panic. */
  function Matches(filter: string, tags: seq<string>): Option<bool> {
    match Parse(filter)
    case Some(f) => Some(HoldsCnf(f, tags))
    case None => None
  }

  lemma {:induction false} ParseAtomsAt(texts: seq<string>)
    ensures ParseAtoms(texts).Some? <==> forall k :: 0 <= k < |texts| ==> ParseAtom(texts[k]).Some?
    ensures ParseAtoms(texts).Some? ==>
      && |ParseAtoms(texts).value| == |texts|
      && forall k :: 0 <= k < |texts| ==> ParseAtom(texts[k]) == Some(ParseAtoms(texts).value[k])
  {
    if texts != [] {
      ParseAtomsAt(texts[1..]);
      assert forall k :: 0 < k < |texts| ==> texts[k] == texts[1..][k - 1];
    }
  }

  lemma {:induction false} ParseClausesSome(texts: seq<string>)
    ensures ParseClauses(texts).Some? <==> forall k :: 0 <= k < |texts| ==> ParseClause(texts[k]).Some?
  {
    if texts != [] {
      ParseClausesSome(texts[1..]);
      assert forall k :: 0 < k < |texts| ==> texts[k] == texts[1..][k - 1];
    }
  }

  lemma {:induction false} ParseClausesValue(texts: seq<string>, k: nat)
    requires ParseClauses(texts).Some? && k < |texts|
    ensures |ParseClauses(texts).value| == |texts| && ParseClause(texts[k]) == Some(ParseClauses(texts).value[k])
    decreases |texts|
  {
    var rest := texts[1..];
    if rest != [] {
      ParseClausesValue(rest, if k > 0 then k - 1 else 0);
    }
    assert ParseClauses(texts).value == [ParseClause(texts[0]).value] + ParseClauses(rest).value;
  }

  lemma ParseClausesAt(texts: seq<string>)
    ensures ParseClauses(texts).Some? <==> forall k :: 0 <= k < |texts| ==> ParseClause(texts[k]).Some?
    ensures ParseClauses(texts).Some? ==>
      && |ParseClauses(texts).value| == |texts|
      && forall k :: 0 <= k < |texts| ==> ParseClause(texts[k]) == Some(ParseClauses(texts).value[k])
  {
    ParseClausesSome(texts);
    if ParseClauses(texts).Some? && texts != [] {
      ParseClausesValue(texts, 0);
      forall k | 0 <= k < |texts|
        ensures ParseClause(texts[k]) == Some(ParseClauses(texts).value[k])
      {
        ParseClausesValue(texts, k);
      }
    }
  }

  method HasTagLoop(tags: seq<string>, tag: string) returns (found: bool)
    ensures found == HasTag(tags, tag)
  {
    for i := 0 to |tags|
      invariant forall k :: 0 <= k < i ==> StripAt(tags[k]) != tag
    {
      if StripAt(tags[i]) == tag {
        return true;
      }
    }
    return false;
  }

  function ClauseAnswer(andTags: string, tags: seq<string>): Option<bool> {
    match ParseClause(andTags)
    case Some(c) => Some(HoldsClause(c, tags))
    case None => None
  }

  function AtomAnswer(text: string, tags: seq<string>): Option<bool> {
    match ParseAtom(text)
    case Some(l) => Some(Holds(l, tags))
    case None => None
  }

  function AtomAnswers(texts: seq<string>, tags: seq<string>): seq<Option<bool>> {
    seq(|texts|, k requires 0 <= k < |texts| => AtomAnswer(texts[k], tags))
  }

  /** No atom panics, and then one must hold. */
  function Disjoin(answers: seq<Option<bool>>): Option<bool> {
    if exists k :: 0 <= k < |answers| && answers[k].None? then None
    else Some(exists k :: 0 <= k < |answers| && answers[k] == Some(true))
  }

  lemma AtomsDecide(texts: seq<string>, tags: seq<string>)
    ensures Disjoin(AtomAnswers(texts, tags))
         == var c := ParseAtoms(texts); if c.Some? then Some(HoldsClause(c.value, tags)) else None
  {
    var answers := AtomAnswers(texts, tags);
    ParseAtomsAt(texts);
    if ParseAtoms(texts).None? {
      var k :| 0 <= k < |texts| && ParseAtom(texts[k]).None?;
      assert answers[k].None?;
    } else {
      var c := ParseAtoms(texts).value;
      assert forall k :: 0 <= k < |texts| ==> answers[k] == Some(Holds(c[k], tags));
    }
  }

  /** One atom of a clause.  None is the panic on an empty atom. */
  method MatchesAtom(text: string, tags: seq<string>) returns (r: Option<bool>)
    ensures r == AtomAnswer(text, tags)
  {
    var tag := StripAt(TrimSpace(text));
    if tag == "" {
      return None;
    }
    if tag[0] == '~' {
      var has := HasTagLoop(tags, tag[1..]);
      return Some(!has);
    } else {
      var has := HasTagLoop(tags, tag);
      return Some(has);
    }
  }

  method MatchesAtoms(texts: seq<string>, tags: seq<string>) returns (r: Option<bool>)
    ensures r == Disjoin(AtomAnswers(texts, tags))
  {
    var okComma := false;
    ghost var answers := AtomAnswers(texts, tags);
    for i := 0 to |texts|
      invariant forall k :: 0 <= k < i ==> answers[k].Some?
      invariant okComma <==> exists k :: 0 <= k < i && answers[k] == Some(true)
    {
      var has := MatchesAtom(texts[i], tags);
      assert has == answers[i];
      if has.None? {
        return None;
      }
      okComma := has.value || okComma;
    }
    return Some(okComma);
  }

  /** One clause: okComma collects the alternatives. */
  method MatchesClause(andTags: string, tags: seq<string>) returns (r: Option<bool>)
    ensures r == ClauseAnswer(andTags, tags)
  {
    AtomsDecide(Split(andTags, ","), tags);
    r := MatchesAtoms(Split(andTags, ","), tags);
  }

  function ClauseAnswers(clauses: seq<string>, tags: seq<string>): seq<Option<bool>> {
    seq(|clauses|, k requires 0 <= k < |clauses| => ClauseAnswer(clauses[k], tags))
  }

  /** No clause panics, and then all must hold. */
  function Conjoin(answers: seq<Option<bool>>): Option<bool> {
    if exists k :: 0 <= k < |answers| && answers[k].None? then None
    else Some(forall k :: 0 <= k < |answers| ==> answers[k] == Some(true))
  }

  lemma AnswersDecide(filter: string, tags: seq<string>)
    ensures Matches(filter, tags) == Conjoin(ClauseAnswers(Split(filter, "&&"), tags))
  {
    ClausesDecide(Split(filter, "&&"), tags);
  }

  lemma ClausesDecide(clauses: seq<string>, tags: seq<string>)
    ensures Conjoin(ClauseAnswers(clauses, tags))
         == var f := ParseClauses(clauses); if f.Some? then Some(HoldsCnf(f.value, tags)) else None
  {
    var answers := ClauseAnswers(clauses, tags);
    ParseClausesAt(clauses);
    if ParseClauses(clauses).None? {
      var k :| 0 <= k < |clauses| && ParseClause(clauses[k]).None?;
      assert answers[k].None?;
    } else {
      var f := ParseClauses(clauses).value;
      assert forall k :: 0 <= k < |clauses| ==> answers[k] == Some(HoldsClause(f[k], tags));
    }
  }

  method MatchesClauses(clauses: seq<string>, tags: seq<string>) returns (r: Option<bool>)
    ensures r == Conjoin(ClauseAnswers(clauses, tags))
  {
    var ok := true;
    ghost var answers := ClauseAnswers(clauses, tags);
    for i := 0 to |clauses|
      invariant forall k :: 0 <= k < i ==> answers[k].Some?
      invariant ok <==> forall k :: 0 <= k < i ==> answers[k] == Some(true)
    {
      var okComma := MatchesClause(clauses[i], tags);
      assert okComma == answers[i];
      if okComma.None? {
        return None;
      }
      ok := ok && okComma.value;
    }
    return Some(ok);
  }

  /** matchesTags decides the formula that the text denotes, and panics exactly on texts without one. */
  method MatchesTags(filter: string, tags: seq<string>) returns (r: Option<bool>)
    ensures r == Matches(filter, tags)
  {
    AnswersDecide(filter, tags);
    r := MatchesClauses(Split(filter, "&&"), tags);
  }

  // ---------- Composition ----------

  function And(a: Option<Cnf>, b: Option<Cnf>): Option<Cnf> {
    if a.Some? && b.Some? then Some(a.value + b.value) else None
  }

  function One(text: string): Option<Cnf> {
    if ParseClause(text).Some? then Some([ParseClause(text).value]) else None
  }

  lemma ParseClausesCons(text: string, texts: seq<string>)
    ensures ParseClauses([text] + texts) == And(One(text), ParseClauses(texts))
  {
    assert ([text] + texts)[1..] == texts;
  }

  lemma AndAssoc(a: Option<Cnf>, b: Option<Cnf>, c: Option<Cnf>)
    ensures And(a, And(b, c)) == And(And(a, b), c)
  {
    if a.Some? && b.Some? && c.Some? {
      ConcatAssoc(a.value, b.value, c.value);
    }
  }

  lemma AndNothing(a: Option<Cnf>)
    ensures And(Some([]), a) == a && And(a, Some([])) == a
  {
    if a.Some? {
      assert [] + a.value == a.value && a.value + [] == a.value;
    }
  }

  lemma {:induction false} ParseClausesConcat(a: seq<string>, b: seq<string>)
    ensures ParseClauses(a + b) == And(ParseClauses(a), ParseClauses(b))
  {
    if a == [] {
      assert a + b == b;
      AndNothing(ParseClauses(b));
    } else {
      ParseClausesConcat(a[1..], b);
      assert a + b == [a[0]] + (a[1..] + b) && a == [a[0]] + a[1..];
      ParseClausesCons(a[0], a[1..] + b);
      ParseClausesCons(a[0], a[1..]);
      AndAssoc(One(a[0]), ParseClauses(a[1..]), ParseClauses(b));
    }
  }

  lemma {:induction false} ParseAtomsConcat(a: seq<string>, b: seq<string>)
    ensures ParseAtoms(a + b) ==
      if ParseAtoms(a).Some? && ParseAtoms(b).Some? then Some(ParseAtoms(a).value + ParseAtoms(b).value) else None
  {
    if a == [] {
      assert a + b == b;
      assert ParseAtoms(b).Some? ==> [] + ParseAtoms(b).value == ParseAtoms(b).value;
    } else {
      ParseAtomsConcat(a[1..], b);
      assert (a + b)[1..] == a[1..] + b;
      if ParseAtom(a[0]).Some? && ParseAtoms(a[1..]).Some? && ParseAtoms(b).Some? {
        var x, y, z := [ParseAtom(a[0]).value], ParseAtoms(a[1..]).value, ParseAtoms(b).value;
        assert x + (y + z) == (x + y) + z;
      }
    }
  }

  lemma ParseAtomsOne(t: string)
    ensures ParseAtoms([t]) == if ParseAtom(t).Some? then Some([ParseAtom(t).value]) else None
  {
    assert [t][1..] == [];
    assert ParseAtom(t).Some? ==> [ParseAtom(t).value] + [] == [ParseAtom(t).value];
  }

  lemma ParseClausesOne(t: string)
    ensures ParseClauses([t]) == One(t)
  {
    ParseClausesCons(t, []);
    AndNothing(One(t));
    assert [t] + [] == [t];
  }

  lemma FrontAndLast(p: seq<string>)
    requires p != []
    ensures p[..|p| - 1] + [p[|p| - 1]] == p
  {
  }

  /** Replacing the last text by one with the same atom changes nothing. */
  lemma ReplaceLastAtom(p: seq<string>, t: string)
    requires p != [] && ParseAtom(t) == ParseAtom(p[|p| - 1])
    ensures ParseAtoms(p[..|p| - 1] + [t]) == ParseAtoms(p)
  {
    AtomsEndAlike(p[..|p| - 1], t, p[|p| - 1]);
    FrontAndLast(p);
  }

  lemma AtomsEndAlike(p: seq<string>, t: string, u: string)
    requires ParseAtom(t) == ParseAtom(u)
    ensures ParseAtoms(p + [t]) == ParseAtoms(p + [u])
  {
    ParseAtomsConcat(p, [t]);
    ParseAtomsConcat(p, [u]);
    ParseAtomsOne(t);
    ParseAtomsOne(u);
  }

  lemma SplitBeforeSpace(text: string)
    ensures var p := Split(text, ",");
      Split(text + " ", ",") == p[..|p| - 1] + [p[|p| - 1] + " "]
  {
    SplitWithoutComma();
    SplitParts(text, " ", ",");
  }

  lemma SplitWithoutComma()
    ensures Split(" ", ",") == [" "] && StartsFresh(" ", ",")
  {
    assert " " + "" == " ";
    SplitSkip(" ", "", ",");
  }

  lemma SplitBehindSpace(text: string)
    ensures var p := Split(text, ",");
      Split(" " + text, ",") == [" " + p[0]] + p[1..]
  {
    SplitSkip(" ", text, ",");
  }

  lemma SpaceBehindAtom(p: seq<string>)
    requires p != []
    ensures ParseAtoms(p[..|p| - 1] + [p[|p| - 1] + " "]) == ParseAtoms(p)
  {
    TrimOuterSpace(p[|p| - 1]);
    ReplaceLastAtom(p, p[|p| - 1] + " ");
  }

  lemma SpaceBeforeAtom(p: seq<string>)
    requires p != []
    ensures ParseAtoms([" " + p[0]] + p[1..]) == ParseAtoms(p)
  {
    TrimOuterSpace(p[0]);
    assert ([" " + p[0]] + p[1..])[1..] == p[1..];
  }

  /** Spaces around a clause do not matter. */
  lemma ClauseSpaces(text: string)
    ensures ParseClause(text + " ") == ParseClause(text) && ParseClause(" " + text) == ParseClause(text)
  {
    SplitBeforeSpace(text);
    SpaceBehindAtom(Split(text, ","));
    SplitBehindSpace(text);
    SpaceBeforeAtom(Split(text, ","));
  }

  lemma SplitAnd(f: string, g: string)
    ensures var p, q := Split(f, "&&"), Split(g, "&&");
      Split(f + " && " + g, "&&") == (p[..|p| - 1] + [p[|p| - 1] + " "]) + ([" " + q[0]] + q[1..])
  {
    var p, q := Split(f, "&&"), Split(g, "&&");
    SplitAround(f, g, " ", "&&");
    Spaced(f, g);
  }

  lemma Spaced(f: string, g: string)
    ensures f + " && " + g == f + (" " + ("&&" + (" " + g)))
  {
    assert " && " == " " + ("&&" + " ");
  }

  /** Splitting at the separator between two texts, with one other character on either side of it. */
  lemma SplitAround(f: string, g: string, space: string, sep: string)
    requires |space| == 1 && sep != "" && forall k :: 0 <= k < |sep| ==> sep[k] != space[0]
    ensures var p, q := Split(f, sep), Split(g, sep);
      Split(f + (space + (sep + (space + g))), sep) == (p[..|p| - 1] + [p[|p| - 1] + space]) + ([space + q[0]] + q[1..])
  {
    var p, tail := Split(f, sep), Split(space + g, sep);
    SplitSkip(space, g, sep);
    SplitHit(space + g, sep);
    SplitSkip(space, sep + (space + g), sep);
    assert space + "" == space;
    assert Split(space + (sep + (space + g)), sep) == [space] + tail;
    SplitParts(f, space + (sep + (space + g)), sep);
    assert ([space] + tail)[1..] == tail;
  }

  /** Replacing the last text by one with the same clause changes nothing. */
  lemma ReplaceLastClause(p: seq<string>, t: string)
    requires p != [] && ParseClause(t) == ParseClause(p[|p| - 1])
    ensures ParseClauses(p[..|p| - 1] + [t]) == ParseClauses(p)
  {
    ClausesEndAlike(p[..|p| - 1], t, p[|p| - 1]);
    FrontAndLast(p);
  }

  lemma ClausesEndAlike(p: seq<string>, t: string, u: string)
    requires ParseClause(t) == ParseClause(u)
    ensures ParseClauses(p + [t]) == ParseClauses(p + [u])
  {
    ParseClausesConcat(p, [t]);
    ParseClausesConcat(p, [u]);
    ParseClausesOne(t);
    ParseClausesOne(u);
  }

  lemma ReplaceFirstClause(q: seq<string>, t: string)
    requires q != [] && ParseClause(t) == ParseClause(q[0])
    ensures ParseClauses([t] + q[1..]) == ParseClauses(q)
  {
    assert ([t] + q[1..])[1..] == q[1..];
  }

  /** The text joined by " && " denotes the conjunction, for all texts: it has a formula exactly when both
      have one. */
  lemma ParseIsHomomorphic(f: string, g: string)
    ensures Parse(f + " && " + g) == And(Parse(f), Parse(g))
  {
    var p, q := Split(f, "&&"), Split(g, "&&");
    var a, b := p[..|p| - 1] + [p[|p| - 1] + " "], [" " + q[0]] + q[1..];
    SplitAnd(f, g);
    ClauseSpaces(p[|p| - 1]);
    ClauseSpaces(q[0]);
    ReplaceLastClause(p, p[|p| - 1] + " ");
    ReplaceFirstClause(q, " " + q[0]);
    ParseClausesConcat(a, b);
  }

  lemma HoldsConcat(f: Cnf, g: Cnf, tags: seq<string>)
    ensures HoldsCnf(f + g, tags) <==> HoldsCnf(f, tags) && HoldsCnf(g, tags)
  {
    assert forall k :: 0 <= k < |f| ==> (f + g)[k] == f[k];
    assert forall k :: 0 <= k < |g| ==> (f + g)[|f| + k] == g[k];
  }

  /** Evaluating the joined text is evaluating both. */
  lemma MatchesAnd(f: string, g: string, tags: seq<string>)
    ensures Matches(f + " && " + g, tags) ==
      if Matches(f, tags).Some? && Matches(g, tags).Some? then Some(Matches(f, tags).value && Matches(g, tags).value)
      else None
  {
    ParseIsHomomorphic(f, g);
    if Parse(f).Some? && Parse(g).Some? {
      HoldsConcat(Parse(f).value, Parse(g).value, tags);
    }
  }

  // ---------- Printing a formula ----------

  function PrintLiteral(l: Literal): string {
    if l.negated then "~@" + l.name else "@" + l.name
  }

  function PrintLiterals(c: Clause): seq<string> {
    if c == [] then [] else [PrintLiteral(c[0])] + PrintLiterals(c[1..])
  }

  function PrintClause(c: Clause): string {
    Join(PrintLiterals(c), ",")
  }

  function PrintClauses(f: Cnf): seq<string> {
    if f == [] then [] else [PrintClause(f[0])] + PrintClauses(f[1..])
  }

  function Print(f: Cnf): string {
    Join(PrintClauses(f), " && ")
  }

  /** Names that survive printing and parsing. */
  predicate SafeLiteral(l: Literal) {
    && '@' !in l.name && ',' !in l.name && !Contains(l.name, "&&")
    && (l.name != "" ==> !IsSpace(l.name[|l.name| - 1]))
    && (!l.negated ==> l.name != "" && l.name[0] != '~')
  }

  predicate SafeClause(c: Clause) {
    c != [] && forall k :: 0 <= k < |c| ==> SafeLiteral(c[k])
  }

  predicate SafeCnf(f: Cnf) {
    f != [] && forall k :: 0 <= k < |f| ==> SafeClause(f[k])
  }

  lemma {:induction false} StripNothing(s: string)
    requires '@' !in s
    ensures StripAt(s) == s
  {
    if s != "" {
      StripNothing(s[1..]);
      assert s[0] != '@' && !("@" <= s);
      assert [s[0]] + s[1..] == s;
    }
  }

  lemma {:induction false} ContainsOneChar(s: string, c: char)
    ensures Contains(s, [c]) <==> c in s
  {
    if s != "" {
      ContainsOneChar(s[1..], c);
      assert s == [s[0]] + s[1..];
    }
  }

  lemma LiteralRoundTrip(l: Literal)
    requires SafeLiteral(l)
    ensures ParseAtom(PrintLiteral(l)) == Some(l)
  {
    TrimPrinted(l);
    StripLiteral(l);
    BehindTilde(l.name);
    AtomOf(PrintLiteral(l), if l.negated then "~" + l.name else l.name);
  }

  lemma AtomOf(text: string, tag: string)
    requires TrimSpace(text) == text && StripAt(text) == tag != ""
    ensures ParseAtom(text) == Some(if tag[0] == '~' then Literal(true, tag[1..]) else Literal(false, tag))
  {
  }

  lemma StripLiteral(l: Literal)
    requires SafeLiteral(l)
    ensures StripAt(PrintLiteral(l)) == if l.negated then "~" + l.name else l.name
  {
    StripNothing(l.name);
    StripPrinted("@", "~", l.name);
    TildeAt(l.name);
  }

  lemma TildeAt(name: string)
    ensures "~@" + name == "~" + ("@" + name)
  {
    assert "~@" == "~" + "@";
  }

  lemma TrimPrinted(l: Literal)
    requires SafeLiteral(l)
    ensures TrimSpace(PrintLiteral(l)) == PrintLiteral(l)
  {
    var s := PrintLiteral(l);
    assert s[|s| - 1] == if l.name == "" then '@' else l.name[|l.name| - 1];
    TrimNothing(s);
  }

  lemma BehindTilde(name: string)
    ensures ("~" + name)[0] == '~' && ("~" + name)[1..] == name
  {
  }

  lemma StripPrinted(at: string, no: string, name: string)
    requires |at| == 1 && |no| == 1 && at[0] != no[0] && ReplaceAll(name, at, "") == name
    ensures ReplaceAll(at + name, at, "") == name && ReplaceAll(no + (at + name), at, "") == no + name
  {
    ReplaceHit(name, at, "");
    assert "" + name == name;
    ReplaceSkip(no, at + name, at, "");
  }

  lemma LiteralText(l: Literal)
    requires SafeLiteral(l)
    ensures !Contains(PrintLiteral(l), ",") && !Contains(PrintLiteral(l), "&&")
    ensures PrintLiteral(l) != "" && PrintLiteral(l)[0] in {'@', '~'}
  {
    var s := PrintLiteral(l);
    ContainsOneChar(s, ',');
    assert [','] == ",";
    if l.negated {
      assert s == "~" + ("@" + l.name);
      assert s[1..] == "@" + l.name;
    }
    assert ("@" + l.name)[1..] == l.name;
  }

  lemma PrintClauseCons(c: Clause)
    requires |c| > 1
    ensures PrintLiterals(c) == [PrintLiteral(c[0])] + PrintLiterals(c[1..]) && PrintLiterals(c[1..]) != []
    ensures PrintClause(c) == PrintLiteral(c[0]) + ("," + PrintClause(c[1..]))
  {
    JoinCons(PrintLiteral(c[0]), PrintLiterals(c[1..]), ",");
    ConcatAssoc(PrintLiteral(c[0]), ",", PrintClause(c[1..]));
  }

  lemma PrintClauseOne(c: Clause)
    requires |c| == 1
    ensures PrintLiterals(c) == [PrintLiteral(c[0])] && PrintClause(c) == PrintLiteral(c[0])
  {
    assert c[1..] == [];
    assert PrintLiterals(c[1..]) == [];
  }

  /** Splitting at commas undoes printing a clause. */
  lemma {:induction false} ClauseTexts(c: Clause)
    requires SafeClause(c)
    ensures Split(PrintClause(c), ",") == PrintLiterals(c) && !Contains(PrintClause(c), "&&")
    ensures PrintClause(c) != "" && PrintClause(c)[0] in {'@', '~'}
  {
    var s := PrintLiteral(c[0]);
    LiteralText(c[0]);
    if |c| == 1 {
      PrintClauseOne(c);
      SplitWithout(s, ",");
    } else {
      PrintClauseCons(c);
      ClauseTexts(c[1..]);
      JoinedTexts(s, PrintClause(c[1..]), PrintLiterals(c[1..]));
      assert PrintClause(c)[0] == s[0];
    }
  }

  /** A comma-free text, a comma and more texts. */
  lemma JoinedTexts(s: string, rest: string, texts: seq<string>)
    requires s != "" && !Contains(s, ",") && !Contains(s, "&&") && !Contains(rest, "&&")
    requires Split(rest, ",") == texts
    ensures Split(s + ("," + rest), ",") == [s] + texts && !Contains(s + ("," + rest), "&&")
  {
    var tail := "," + rest;
    assert "," <= tail && tail[1..] == rest;
    assert Split(tail, ",") == [""] + texts;
    SplitWithout(s, ",");
    SplitParts(s, tail, ",");
    assert s + "" == s;
    ContainsInParts(s, tail, "&&");
  }

  lemma ParseAtomsCons(text: string, texts: seq<string>)
    requires ParseAtom(text).Some? && ParseAtoms(texts).Some?
    ensures ParseAtoms([text] + texts) == Some([ParseAtom(text).value] + ParseAtoms(texts).value)
  {
    assert ([text] + texts)[1..] == texts;
  }

  lemma {:induction false} ClauseRoundTripAtoms(c: Clause)
    requires forall k :: 0 <= k < |c| ==> SafeLiteral(c[k])
    ensures ParseAtoms(PrintLiterals(c)) == Some(c)
  {
    if c != [] {
      LiteralRoundTrip(c[0]);
      ClauseRoundTripAtoms(c[1..]);
      ParseAtomsCons(PrintLiteral(c[0]), PrintLiterals(c[1..]));
      assert [c[0]] + c[1..] == c;
    }
  }

  lemma PrintCons(f: Cnf)
    requires |f| > 1
    ensures Print(f) == PrintClause(f[0]) + " && " + Print(f[1..])
  {
    assert PrintClauses(f) == [PrintClause(f[0])] + PrintClauses(f[1..]);
    assert PrintClauses(f[1..]) != [];
    JoinCons(PrintClause(f[0]), PrintClauses(f[1..]), " && ");
  }

  lemma PrintOne(f: Cnf)
    requires |f| == 1
    ensures Print(f) == PrintClause(f[0])
  {
    assert f[1..] == [] && PrintClauses(f[1..]) == [];
    assert PrintClauses(f) == [PrintClause(f[0])];
  }

  lemma ParseOneClause(c: Clause)
    requires SafeClause(c)
    ensures Parse(PrintClause(c)) == Some([c])
  {
    ClauseTexts(c);
    ClauseRoundTripAtoms(c);
    SplitWithout(PrintClause(c), "&&");
    ParseClausesOne(PrintClause(c));
  }

  /** Reading a printed formula gives the formula back. */
  lemma {:induction false} ParsePrint(f: Cnf)
    requires SafeCnf(f)
    ensures Parse(Print(f)) == Some(f)
  {
    ParseOneClause(f[0]);
    if |f| == 1 {
      PrintOne(f);
      assert f == [f[0]];
    } else {
      ParsePrint(f[1..]);
      PrintCons(f);
      ParseIsHomomorphic(PrintClause(f[0]), Print(f[1..]));
      assert f == [f[0]] + f[1..];
    }
  }

  /** Evaluating the printed text of a formula gives the formula's truth value. */
  lemma MatchesPrinted(f: Cnf, tags: seq<string>)
    requires SafeCnf(f)
    ensures Matches(Print(f), tags) == Some(HoldsCnf(f, tags))
  {
    ParsePrint(f);
  }

  // ---------- Tags by their names ----------

  /** The tags of a scenario as the parser gives them, each with its "@". */
  function Tagged(names: seq<string>): seq<string> {
    seq(|names|, i requires 0 <= i < |names| => "@" + names[i])
  }

  predicate NoAt(names: seq<string>) {
    forall n :: n in names ==> '@' !in n
  }

  lemma StripTag(name: string)
    requires '@' !in name
    ensures StripAt("@" + name) == name
  {
    StripNothing(name);
    ReplaceHit(name, "@", "");
    assert "" + name == name;
  }

  lemma HasTagged(names: seq<string>, n: string)
    requires NoAt(names)
    ensures HasTag(Tagged(names), n) <==> n in names
  {
    forall k | 0 <= k < |names|
      ensures StripAt(Tagged(names)[k]) == names[k]
    {
      assert names[k] in names;
      StripTag(names[k]);
    }
    if n in names {
      var k :| 0 <= k < |names| && names[k] == n;
      assert StripAt(Tagged(names)[k]) == n;
    }
  }

  /** The text of one wanted or unwanted tag decides whether the scenario has the tag of that name. */
  lemma TagText(n: string, names: seq<string>)
    requires n != "" && SafeLiteral(Literal(false, n)) && NoAt(names)
    ensures Matches("@" + n, Tagged(names)) == Some(n in names)
    ensures Matches("~@" + n, Tagged(names)) == Some(n !in names)
  {
    var yes, no := Literal(false, n), Literal(true, n);
    PrintOneLiteral(yes);
    PrintOneLiteral(no);
    MatchesPrinted([[yes]], Tagged(names));
    MatchesPrinted([[no]], Tagged(names));
    HasTagged(names, n);
    assert HoldsClause([yes], Tagged(names)) <==> Holds([yes][0], Tagged(names));
    assert HoldsClause([no], Tagged(names)) <==> Holds([no][0], Tagged(names));
    assert HoldsCnf([[yes]], Tagged(names)) <==> HoldsClause([[yes]][0], Tagged(names));
    assert HoldsCnf([[no]], Tagged(names)) <==> HoldsClause([[no]][0], Tagged(names));
  }

  lemma PrintOneLiteral(l: Literal)
    ensures Print([[l]]) == PrintLiteral(l)
  {
    PrintOne([[l]]);
    PrintClauseOne([l]);
  }

  /** A wanted tag on a scenario with one tag. */
  lemma TagMatchesItsName(n: string, m: string)
    requires n != "" && SafeLiteral(Literal(false, n)) && '@' !in m
    ensures Matches("@" + n, ["@" + m]) == Some(n == m)
  {
    TagText(n, [m]);
    assert Tagged([m]) == ["@" + m];
  }

  /** Some name of the clause is there, or one that is negated is not. */
  predicate ClauseByName(c: Clause, names: seq<string>) {
    exists j :: 0 <= j < |c| && (c[j].name in names) != c[j].negated
  }

  lemma HoldsByName(c: Clause, names: seq<string>)
    requires NoAt(names)
    ensures HoldsClause(c, Tagged(names)) <==> ClauseByName(c, names)
  {
    forall j | 0 <= j < |c|
      ensures Holds(c[j], Tagged(names)) <==> (c[j].name in names) != c[j].negated
    {
      HasTagged(names, c[j].name);
    }
  }

  /** A whole filter decides on the names: every clause has to hold of them. */
  lemma MatchesByName(f: Cnf, names: seq<string>)
    requires SafeCnf(f) && NoAt(names)
    ensures Matches(Print(f), Tagged(names)) == Some(forall i :: 0 <= i < |f| ==> ClauseByName(f[i], names))
  {
    MatchesPrinted(f, Tagged(names));
    forall i | 0 <= i < |f|
      ensures HoldsClause(f[i], Tagged(names)) <==> ClauseByName(f[i], names)
    {
      HoldsByName(f[i], names);
    }
  }

  /** A comma is "or", "&&" is "and". */
  lemma TwoTagsText(n: string, m: string, names: seq<string>)
    requires n != "" && SafeLiteral(Literal(false, n)) && m != "" && SafeLiteral(Literal(false, m)) && NoAt(names)
    ensures Matches("@" + n + ("," + ("@" + m)), Tagged(names)) == Some(n in names || m in names)
    ensures Matches("@" + n + " && " + ("@" + m), Tagged(names)) == Some(n in names && m in names)
  {
    TagText(n, names);
    TagText(m, names);
    MatchesAnd("@" + n, "@" + m, Tagged(names));
    PrintTwoLiterals(Literal(false, n), Literal(false, m));
    EitherMatches(Literal(false, n), Literal(false, m), names);
  }

  lemma PrintTwoLiterals(k: Literal, l: Literal)
    ensures Print([[k, l]]) == PrintLiteral(k) + ("," + PrintLiteral(l))
  {
    var either: Clause := [k, l];
    PrintClauseCons(either);
    assert either[1..] == [l];
    PrintClauseOne([l]);
    PrintOne([either]);
  }

  lemma EitherMatches(k: Literal, l: Literal, names: seq<string>)
    requires SafeLiteral(k) && SafeLiteral(l) && NoAt(names)
    ensures Matches(Print([[k, l]]), Tagged(names))
         == Some((k.name in names) != k.negated || (l.name in names) != l.negated)
  {
    var either: Clause := [k, l];
    MatchesPrinted([either], Tagged(names));
    HoldsByName(either, names);
    assert ClauseByName(either, names) <==>
      (either[0].name in names) != either[0].negated || (either[1].name in names) != either[1].negated;
    assert HoldsCnf([either], Tagged(names)) <==> HoldsClause([either][0], Tagged(names));
  }
}
