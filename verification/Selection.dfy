/**
 Selection of scenarios by tag filters: features, their filtering, the check for scenarios with a tag, and
 the filter that the executor builds from its configuration.
 */
module Selection {
  import opened Sequences
  import opened GoStrings
  import opened Optional
  import opened TagFilter

  datatype Pickle = Pickle(name: string, tags: seq<string>)

  /** The filter text panics for every scenario or for none. */
  predicate Malformed(filter: string) {
    Parse(filter).None?
  }

  predicate Chosen(filter: string, p: Pickle) {
    Matches(filter, p.tags) == Some(true)
  }

  function Choose(filter: string, ps: seq<Pickle>): seq<Pickle> {
    if ps == [] then []
    else (if Chosen(filter, ps[0]) then [ps[0]] else []) + Choose(filter, ps[1..])
  }

  /** What applyTagFilter keeps: the empty filter keeps everything. */
  function Selected(filter: string, ps: seq<Pickle>): seq<Pickle> {
    if filter == "" then ps else Choose(filter, ps)
  }

  lemma {:induction false} ChooseConcat(filter: string, a: seq<Pickle>, b: seq<Pickle>)
    ensures Choose(filter, a + b) == Choose(filter, a) + Choose(filter, b)
  {
    if a == [] {
      assert a + b == b;
    } else {
      ChooseConcat(filter, a[1..], b);
      assert (a + b)[1..] == a[1..] + b;
      var first := if Chosen(filter, a[0]) then [a[0]] else [];
      ConcatAssoc(first, Choose(filter, a[1..]), Choose(filter, b));
    }
  }

  lemma {:induction false} ChooseMembers(filter: string, ps: seq<Pickle>, p: Pickle)
    ensures p in Choose(filter, ps) <==> p in ps && Chosen(filter, p)
  {
    if ps != [] {
      ChooseMembers(filter, ps[1..], p);
      assert p in ps <==> p == ps[0] || p in ps[1..];
    }
  }

  // ---------- Filters compose ----------

  /** appendTag: what the executor does to the filter text. */
  function Appended(filter: string, tag: string): string {
    if filter != "" then filter + " && " + tag else tag
  }

  lemma {:induction false} ChooseTwice(f: string, g: string, ps: seq<Pickle>)
    requires !Malformed(f) && !Malformed(g)
    ensures Choose(g, Choose(f, ps)) == Choose(f + " && " + g, ps)
  {
    if ps != [] {
      ChooseTwice(f, g, ps[1..]);
      MatchesAnd(f, g, ps[0].tags);
      ChooseConcat(g, if Chosen(f, ps[0]) then [ps[0]] else [], Choose(f, ps[1..]));
      assert [ps[0]][1..] == [];
    }
  }

  /** Selecting by f and then by g is selecting by the appended filter, with the order kept; and the
      appended filter is malformed exactly when one of its parts is. */
  lemma SelectionComposes(f: string, g: string, ps: seq<Pickle>)
    requires g != ""
    ensures Malformed(Appended(f, g)) <==> (f != "" && Malformed(f)) || Malformed(g)
    ensures !Malformed(Appended(f, g)) ==> Selected(g, Selected(f, ps)) == Selected(Appended(f, g), ps)
  {
    if f != "" {
      ParseIsHomomorphic(f, g);
      if !Malformed(f) && !Malformed(g) {
        ChooseTwice(f, g, ps);
      }
    }
  }

  // ---------- Features ----------

  /** Filtering these scenarios panics. */
  predicate Panics(tags: string, pickles: seq<Pickle>) {
    tags != "" && pickles != [] && Malformed(tags)
  }

  class Feature {
    const name: string
    var Pickles: seq<Pickle>

    constructor (name: string, pickles: seq<Pickle>)
      ensures this.name == name && Pickles == pickles
    {
      this.name, Pickles := name, pickles;
    }

    /** Overwrites the scenarios by the selected ones; a malformed filter panics at the first scenario. */
    method ApplyTagFilter(tags: string) returns (panicked: bool)
      modifies this
      ensures panicked <==> Panics(tags, old(Pickles))
      ensures Pickles == if panicked then old(Pickles) else Selected(tags, old(Pickles))
    {
      if tags == "" {
        return false;
      }
      var pickles := [];
      for i := 0 to |Pickles|
        invariant Pickles == old(Pickles)
        invariant pickles == Choose(tags, Pickles[..i])
        invariant i > 0 ==> !Malformed(tags)
      {
        var r := MatchesTags(tags, Pickles[i].tags);
        if r.None? {
          return true;
        }
        assert Pickles[..i + 1] == Pickles[..i] + [Pickles[i]];
        ChooseConcat(tags, Pickles[..i], [Pickles[i]]);
        assert [Pickles[i]][1..] == [];
        if r.value {
          pickles := pickles + [Pickles[i]];
        }
      }
      assert Pickles[..|Pickles|] == Pickles;
      Pickles := pickles;
      return false;
    }
  }

  /** The features whose names are not still to do. */
  ghost function Taken(collected: map<string, Feature>, todo: set<string>): set<Feature> {
    set n | n in collected && n !in todo :: collected[n]
  }

  /** filterFeatures: the features of the map in some order, each filtered. */
  method FilterFeatures(tags: string, collected: map<string, Feature>) returns (features: seq<Feature>, panicked: bool)
    requires forall n, n' :: n in collected && n' in collected && collected[n] == collected[n'] ==> n == n'
    modifies collected.Values
    ensures panicked <==> exists n :: n in collected && Panics(tags, old(collected[n].Pickles))
    ensures !panicked ==>
      && (forall ft :: ft in features <==> ft in collected.Values)
      && (forall i, j :: 0 <= i < j < |features| ==> features[i] != features[j])
      && (forall n :: n in collected ==> collected[n].Pickles == Selected(tags, old(collected[n].Pickles)))
  {
    features, panicked := [], false;
    var todo := collected.Keys;
    while todo != {}
      invariant todo <= collected.Keys
      invariant forall ft :: ft in features <==> ft in Taken(collected, todo)
      invariant forall i, j :: 0 <= i < j < |features| ==> features[i] != features[j]
      invariant forall n :: n in todo ==> collected[n].Pickles == old(collected[n].Pickles)
      invariant forall n :: n in collected && n !in todo ==>
        collected[n].Pickles == Selected(tags, old(collected[n].Pickles)) && !Panics(tags, old(collected[n].Pickles))
      decreases |todo|
    {
      var n :| n in todo;
      var ft := collected[n];
      assert ft in collected.Values;
      panicked := ft.ApplyTagFilter(tags);
      if panicked {
        return;
      }
      assert ft !in features;
      features := features + [ft];
      todo := todo - {n};
    }
  }

  /** The features that the de-duplication keeps: the first with each name. */
  predicate FirstOfName(parsed: seq<Feature>, i: nat)
    requires i < |parsed|
  {
    forall j :: 0 <= j < i ==> parsed[j].name != parsed[i].name
  }

  /** ParseFeatures behind the parser: de-duplication by name and filtering. */
  method ParseFeatures(filter: string, parsed: seq<Feature>) returns (features: seq<Feature>, panicked: bool)
    requires forall i, j :: 0 <= i < j < |parsed| ==> parsed[i] != parsed[j]
    modifies parsed
    ensures panicked <==> exists i :: 0 <= i < |parsed| && FirstOfName(parsed, i)
                                   && Panics(filter, old(parsed[i].Pickles))
    ensures !panicked ==>
      && (forall ft :: ft in features <==> exists i :: 0 <= i < |parsed| && FirstOfName(parsed, i) && parsed[i] == ft)
      && (forall i, j :: 0 <= i < j < |features| ==> features[i] != features[j])
      && (forall i :: 0 <= i < |parsed| && FirstOfName(parsed, i) ==>
            parsed[i].Pickles == Selected(filter, old(parsed[i].Pickles)))
      // In plain terms: what is kept is what no earlier one shares its name with.
      && (forall i :: 0 <= i < |parsed| ==>
            (parsed[i] in features <==> forall j :: 0 <= j < i ==> parsed[j].name != parsed[i].name))
  {
    var collected: map<string, Feature> := map[];
    for i := 0 to |parsed|
      invariant forall n :: n in collected ==>
        exists j :: 0 <= j < i && FirstOfName(parsed, j) && parsed[j] == collected[n] && parsed[j].name == n
      invariant forall j :: 0 <= j < i ==> parsed[j].name in collected
      invariant forall j :: 0 <= j < i && FirstOfName(parsed, j) ==> collected[parsed[j].name] == parsed[j]
    {
      var ft := parsed[i];
      if ft.name !in collected {
        assert FirstOfName(parsed, i);
        collected := collected[ft.name := ft];
      }
    }
    features, panicked := FilterFeatures(filter, collected);
  }

  // ---------- Is there a scenario with a tag? ----------

  function MatchesScenariosWithTags(filterTags: string, scenarios: seq<Pickle>): (r: Option<bool>)
    ensures r.None? <==> scenarios != [] && Malformed(filterTags)
    ensures r == Some(true) <==> exists p :: p in scenarios && Chosen(filterTags, p)
  {
    if scenarios == [] then Some(false)
    else
      match Matches(filterTags, scenarios[0].tags)
      case None => None
      case Some(true) => assert scenarios[0] in scenarios; Some(true)
      case Some(false) => MatchesScenariosWithTags(filterTags, scenarios[1..])
  }

  function MatchingFeatureWithTags(filterTags: string, features: seq<Feature>): (r: Option<bool>)
    reads features
    ensures r.None? <==> Malformed(filterTags) && exists i :: 0 <= i < |features| && features[i].Pickles != []
    ensures r == Some(true) <==>
      exists i, p :: 0 <= i < |features| && p in features[i].Pickles && Chosen(filterTags, p)
  {
    if features == [] then Some(false)
    else
      var first := MatchesScenariosWithTags(filterTags, features[0].Pickles);
      if first == Some(true) then
        assert exists p :: p in features[0].Pickles && Chosen(filterTags, p);
        first
      else if first.None? then
        assert forall p :: !Chosen(filterTags, p);
        first
      else
        var r := MatchingFeatureWithTags(filterTags, features[1..]);
        assert forall i :: 0 < i < |features| ==> features[i] == features[1..][i - 1];
        assert forall i :: 0 <= i < |features| - 1 ==> features[i + 1] == features[1..][i];
        r
  }

  const CLI_TAG := "@cli"

  lemma CliFilter(tags: seq<string>)
    ensures Matches(CLI_TAG, tags) == Some(HasTag(tags, "cli"))
  {
    OneLiteral(Literal(false, "cli"), tags);
  }

  /** A filter text that is one literal. */
  lemma OneLiteral(l: Literal, tags: seq<string>)
    requires SafeLiteral(l)
    ensures Matches(PrintLiteral(l), tags) == Some(Holds(l, tags)) && !Malformed(PrintLiteral(l))
  {
    var c: Clause := [l];
    var f: Cnf := [c];
    assert c[1..] == [] && f[1..] == [];
    assert PrintLiterals(c[1..]) == [] && PrintClauses(f[1..]) == [];
    assert PrintLiterals(c) == [PrintLiteral(l)];
    assert PrintClause(c) == PrintLiteral(l);
    assert PrintClauses(f) == [PrintLiteral(l)];
    assert Print(f) == PrintLiteral(l);
    MatchesPrinted(f, tags);
    assert f[0] == c && c[0] == l;
    assert HoldsClause(c, tags) <==> Holds(l, tags);
  }

  /** ExecuteBDDTests asks the filtered features for a "@cli" scenario: the answer is whether some scenario
      of the first feature with its name is selected by the run filter and tagged "@cli". */
  method NeedsCli(filter: string, parsed: seq<Feature>) returns (needed: bool, panicked: bool)
    requires forall i, j :: 0 <= i < j < |parsed| ==> parsed[i] != parsed[j]
    modifies parsed
    ensures panicked <==> exists i :: 0 <= i < |parsed| && FirstOfName(parsed, i)
                                   && Panics(filter, old(parsed[i].Pickles))
    ensures !panicked ==>
      (needed <==> exists i, p :: 0 <= i < |parsed| && FirstOfName(parsed, i) && p in old(parsed[i].Pickles)
                               && (filter != "" ==> Chosen(filter, p)) && HasTag(p.tags, "cli"))
  {
    var features;
    features, panicked := ParseFeatures(filter, parsed);
    needed := false;
    if !panicked {
      CliFilter([]);
      needed := MatchingFeatureWithTags(CLI_TAG, features).value;
      forall i, p | 0 <= i < |parsed| && FirstOfName(parsed, i)
        ensures p in parsed[i].Pickles && Chosen(CLI_TAG, p) <==>
          p in old(parsed[i].Pickles) && (filter != "" ==> Chosen(filter, p)) && HasTag(p.tags, "cli")
      {
        ChooseMembers(filter, old(parsed[i].Pickles), p);
        CliFilter(p.tags);
      }
      if k, p :| 0 <= k < |features| && p in features[k].Pickles && Chosen(CLI_TAG, p) {
        assert features[k] in features;
        var i :| 0 <= i < |parsed| && FirstOfName(parsed, i) && parsed[i] == features[k];
        assert p in old(parsed[i].Pickles) && (filter != "" ==> Chosen(filter, p)) && HasTag(p.tags, "cli");
      }
      assert forall i :: 0 <= i < |parsed| && FirstOfName(parsed, i) ==> parsed[i] in features;
    }
  }

  // ---------- The executor's filter ----------

  const DISABLED_TAG := "@" + "disabled"
  const SMOKE_TAG := "@" + "smoke"
  const PERFORMANCE_TAG := "@" + "performance"

  class Options {
    var Tags: string

    constructor (tags: string)
      ensures Tags == tags
    {
      Tags := tags;
    }

    method AppendTag(tag: string)
      modifies this
      ensures Tags == Appended(old(Tags), tag)
    {
      if |Tags| > 0 {
        Tags := Tags + " && ";
      }
      Tags := Tags + tag;
    }

    method ConfigureTags(isSmokeTests: bool, isPerformanceTests: bool)
      modifies this
      ensures Tags == Effective(old(Tags), isSmokeTests, isPerformanceTests)
    {
      if isSmokeTests {
        AppendTag(SMOKE_TAG);
      } else if !Contains(Tags, PERFORMANCE_TAG) {
        if isPerformanceTests {
          AppendTag(PERFORMANCE_TAG);
        } else {
          AppendTag("~" + PERFORMANCE_TAG);
        }
      }
      if !Contains(Tags, DISABLED_TAG) {
        AppendTag("~" + DISABLED_TAG);
      }
    }
  }

  function WithMode(user: string, isSmokeTests: bool, isPerformanceTests: bool): string {
    if isSmokeTests then Appended(user, SMOKE_TAG)
    else if Contains(user, PERFORMANCE_TAG) then user
    else Appended(user, if isPerformanceTests then PERFORMANCE_TAG else "~" + PERFORMANCE_TAG)
  }

  function Effective(user: string, isSmokeTests: bool, isPerformanceTests: bool): string {
    var tags := WithMode(user, isSmokeTests, isPerformanceTests);
    if Contains(tags, DISABLED_TAG) then tags else Appended(tags, "~" + DISABLED_TAG)
  }

  /** The literal that the run mode adds to the user's filter. */
  function ModeLiteral(user: string, isSmokeTests: bool, isPerformanceTests: bool): Option<Literal> {
    if isSmokeTests then Some(SMOKE)
    else if Contains(user, PERFORMANCE_TAG) then None
    else Some(Performance(isPerformanceTests))
  }

  predicate UserHolds(user: string, tags: seq<string>) {
    user != "" ==> Matches(user, tags) == Some(true)
  }

  lemma AppendedLiteral(f: string, l: Literal, tags: seq<string>)
    requires SafeLiteral(l) && (f != "" ==> !Malformed(f))
    ensures !Malformed(Appended(f, PrintLiteral(l)))
    ensures Matches(Appended(f, PrintLiteral(l)), tags) == Some(UserHolds(f, tags) && Holds(l, tags))
  {
    OneLiteral(l, tags);
    if f != "" {
      MatchesAnd(f, PrintLiteral(l), tags);
    }
  }

  const SMOKE := Literal(false, "smoke")
  const DISABLED := Literal(true, "disabled")

  function Performance(isPerformanceTests: bool): Literal {
    Literal(!isPerformanceTests, "performance")
  }

  /** A name without any special character. */
  lemma PlainNameIsSafe(negated: bool, name: string)
    requires name != "" && forall k :: 0 <= k < |name| ==> name[k] !in {'@', ',', '&', '~'} && !IsSpace(name[k])
    ensures SafeLiteral(Literal(negated, name))
    ensures PrintLiteral(Literal(negated, name)) == (if negated then "~" + ("@" + name) else "@" + name)
  {
    ContainsNeedsFirst(name, "&&");
    assert "~@" + name == "~" + ("@" + name);
  }

  lemma SmokeIsSafe()
    ensures SafeLiteral(SMOKE) && PrintLiteral(SMOKE) == SMOKE_TAG
  {
    PlainNameIsSafe(false, "smoke");
  }

  lemma PerformanceIsSafe(on: bool)
    ensures SafeLiteral(Performance(on))
    ensures PrintLiteral(Performance(on)) == if on then PERFORMANCE_TAG else "~" + PERFORMANCE_TAG
  {
    PlainNameIsSafe(!on, "performance");
  }

  lemma DisabledIsSafe()
    ensures SafeLiteral(DISABLED) && PrintLiteral(DISABLED) == "~" + DISABLED_TAG
  {
    PlainNameIsSafe(true, "disabled");
  }

  /** What the run mode adds to the user's filter does not mention "@disabled". */
  lemma ModeMentionsNoDisabled(user: string, l: Literal)
    requires l == SMOKE || l == Performance(true) || l == Performance(false)
    ensures Contains(Appended(user, PrintLiteral(l)), DISABLED_TAG) <==> Contains(user, DISABLED_TAG)
  {
    var tag := PrintLiteral(l);
    NoDisabledIn(l);
    if user != "" {
      var tail := " && " + tag;
      assert forall k :: 0 <= k < 4 ==> " && "[k] != '@';
      ContainsNeedsFirst(" && ", DISABLED_TAG);
      TagStartsFresh(tag);
      ContainsInParts(" && ", tag, DISABLED_TAG);
      assert tail[0] == ' ';
      TagStartsFresh(tail);
      ContainsInParts(user, tail, DISABLED_TAG);
      assert user + " && " + tag == user + tail;
    } else {
      ContainsNeedsFirst(user, DISABLED_TAG);
    }
  }

  lemma TagStartsFresh(s: string)
    requires s != "" && s[0] in {'@', '~', ' '}
    ensures StartsFresh(s, DISABLED_TAG)
  {
  }

  lemma NoDisabledIn(l: Literal)
    requires l == SMOKE || l == Performance(true) || l == Performance(false)
    ensures !Contains(PrintLiteral(l), DISABLED_TAG)
    ensures PrintLiteral(l) != "" && PrintLiteral(l)[0] in {'@', '~'}
  {
    ContainsNeedsFirst(l.name, DISABLED_TAG);
    assert DISABLED_TAG[1] == 'd' && l.name[0] != 'd';
    var s := "@" + l.name;
    assert s[1..] == l.name && s[1] == l.name[0];
    assert !Contains(s, DISABLED_TAG);
    if l.negated {
      assert "~@" + l.name == "~" + s;
      assert ("~" + s)[1..] == s && ("~" + s)[0] == '~';
    }
  }

  /** The run mode appends its literal, or nothing. */
  lemma WithModeIsAppended(user: string, isSmokeTests: bool, isPerformanceTests: bool)
    ensures var mode := ModeLiteral(user, isSmokeTests, isPerformanceTests);
      var tags1 := WithMode(user, isSmokeTests, isPerformanceTests);
      if mode.None? then tags1 == user
      else tags1 == Appended(user, PrintLiteral(mode.value)) && SafeLiteral(mode.value)
  {
    if isSmokeTests {
      SmokeIsSafe();
    } else {
      PerformanceIsSafe(isPerformanceTests);
    }
  }

  /** The run mode's part of the effective filter. */
  lemma WithModeHolds(user: string, isSmokeTests: bool, isPerformanceTests: bool, tags: seq<string>)
    requires user != "" ==> !Malformed(user)
    ensures var mode := ModeLiteral(user, isSmokeTests, isPerformanceTests);
      var tags1 := WithMode(user, isSmokeTests, isPerformanceTests);
      && (tags1 != "" ==> !Malformed(tags1))
      && (UserHolds(tags1, tags) <==> UserHolds(user, tags) && (mode.Some? ==> Holds(mode.value, tags)))
      && (Contains(tags1, DISABLED_TAG) <==> Contains(user, DISABLED_TAG))
  {
    var mode := ModeLiteral(user, isSmokeTests, isPerformanceTests);
    WithModeIsAppended(user, isSmokeTests, isPerformanceTests);
    if mode.Some? {
      AppendedLiteral(user, mode.value, tags);
      ModeMentionsNoDisabled(user, mode.value);
    }
  }

  /** The filter that the tests run with selects exactly the scenarios that the user's filter selects and
      that meet the literals added for the run mode and, unless the user's text mentions "@disabled", for
      disabled scenarios. */
  lemma EffectiveFilter(user: string, isSmokeTests: bool, isPerformanceTests: bool, tags: seq<string>)
    requires user != "" ==> !Malformed(user)
    ensures var mode := ModeLiteral(user, isSmokeTests, isPerformanceTests);
      var effective := Effective(user, isSmokeTests, isPerformanceTests);
      UserHolds(effective, tags) <==>
        && UserHolds(user, tags)
        && (mode.Some? ==> Holds(mode.value, tags))
        && (!Contains(user, DISABLED_TAG) ==> !HasTag(tags, "disabled"))
  {
    WithModeHolds(user, isSmokeTests, isPerformanceTests, tags);
    if !Contains(user, DISABLED_TAG) {
      DisabledIsSafe();
      AppendedLiteral(WithMode(user, isSmokeTests, isPerformanceTests), DISABLED, tags);
    }
  }

  /** Unless the user's text mentions "@disabled", no selected scenario is tagged so. */
  lemma DisabledNeverRuns(user: string, isSmokeTests: bool, isPerformanceTests: bool, ps: seq<Pickle>, p: Pickle)
    requires (user != "" ==> !Malformed(user)) && !Contains(user, DISABLED_TAG)
    requires p in Selected(Effective(user, isSmokeTests, isPerformanceTests), ps)
    ensures !HasTag(p.tags, "disabled")
  {
    var effective := Effective(user, isSmokeTests, isPerformanceTests);
    ChooseMembers(effective, ps, p);
    EffectiveFilter(user, isSmokeTests, isPerformanceTests, p.tags);
  }

  /** The test for "@disabled" is textual: a user filter that only mentions a longer tag, wanted or not, lets
      disabled scenarios run. */
  lemma LongerTagEnablesDisabled(negated: bool, suffix: string, isSmokeTests: bool, isPerformanceTests: bool,
                                 ps: seq<Pickle>, p: Pickle)
    requires suffix != "" && forall k :: 0 <= k < |suffix| ==> suffix[k] !in {'@', ',', '&', '~'} && !IsSpace(suffix[k])
    requires p in ps && HasTag(p.tags, "disabled")
    requires Holds(Literal(negated, "disabled" + suffix), p.tags)
    requires var mode := ModeLiteral(LongerTagFilter(negated, suffix), isSmokeTests, isPerformanceTests);
      mode.Some? ==> Holds(mode.value, p.tags)
    ensures p in Selected(Effective(LongerTagFilter(negated, suffix), isSmokeTests, isPerformanceTests), ps)
  {
    var user := LongerTagFilter(negated, suffix);
    LongerTag(negated, suffix);
    OneLiteral(Literal(negated, "disabled" + suffix), p.tags);
    SelectedIff(user, isSmokeTests, isPerformanceTests, ps, p);
  }

  function LongerTagFilter(negated: bool, suffix: string): string {
    (if negated then "~@disabled" else "@disabled") + suffix
  }

  /** EffectiveFilter for a list of scenarios. */
  lemma SelectedIff(user: string, isSmokeTests: bool, isPerformanceTests: bool, ps: seq<Pickle>, p: Pickle)
    requires user != "" ==> !Malformed(user)
    ensures var mode := ModeLiteral(user, isSmokeTests, isPerformanceTests);
      p in Selected(Effective(user, isSmokeTests, isPerformanceTests), ps) <==>
        && p in ps && UserHolds(user, p.tags)
        && (mode.Some? ==> Holds(mode.value, p.tags))
        && (!Contains(user, DISABLED_TAG) ==> !HasTag(p.tags, "disabled"))
  {
    var effective := Effective(user, isSmokeTests, isPerformanceTests);
    ChooseMembers(effective, ps, p);
    EffectiveFilter(user, isSmokeTests, isPerformanceTests, p.tags);
  }

  /** The text that the executor starts from, without a tag option, is "@disabled": such a run selects exactly
      the disabled scenarios that meet the run mode. */
  lemma DefaultRunsOnlyDisabled(isSmokeTests: bool, isPerformanceTests: bool, ps: seq<Pickle>, p: Pickle)
    ensures var mode := ModeLiteral(DISABLED_TAG, isSmokeTests, isPerformanceTests);
      p in Selected(Effective(DISABLED_TAG, isSmokeTests, isPerformanceTests), ps) <==>
        p in ps && HasTag(p.tags, "disabled") && (mode.Some? ==> Holds(mode.value, p.tags))
  {
    PlainDisabled();
    PlainNameIsSafe(false, "disabled");
    assert PrintLiteral(Literal(false, "disabled")) == DISABLED_TAG;
    OneLiteral(Literal(false, "disabled"), p.tags);
    SelectedIff(DISABLED_TAG, isSmokeTests, isPerformanceTests, ps, p);
  }

  lemma LongerTag(negated: bool, suffix: string)
    requires suffix != "" && forall k :: 0 <= k < |suffix| ==> suffix[k] !in {'@', ',', '&', '~'} && !IsSpace(suffix[k])
    ensures var other, user := Literal(negated, "disabled" + suffix), LongerTagFilter(negated, suffix);
      SafeLiteral(other) && PrintLiteral(other) == user && Contains(user, DISABLED_TAG)
  {
    PlainDisabled();
    PlainNameIsSafe(negated, "disabled" + suffix);
    MentionsDisabled(suffix);
  }

  lemma MentionsDisabled(suffix: string)
    ensures "@" + ("disabled" + suffix) == "@disabled" + suffix && "~" + ("@disabled" + suffix) == "~@disabled" + suffix
    ensures Contains("@disabled" + suffix, DISABLED_TAG) && Contains("~@disabled" + suffix, DISABLED_TAG)
  {
    assert "@disabled" == DISABLED_TAG;
    assert DISABLED_TAG <= DISABLED_TAG + suffix;
    ContainsAfter("~", DISABLED_TAG + suffix, DISABLED_TAG);
    assert "~@disabled" == "~" + "@disabled";
    ConcatAssoc("~", "@disabled", suffix);
  }

  lemma PlainDisabled()
    ensures forall k :: 0 <= k < |"disabled"| ==> "disabled"[k] !in {'@', ',', '&', '~'} && !IsSpace("disabled"[k])
  {
  }

  lemma ModeByName(user: string, isSmokeTests: bool, isPerformanceTests: bool, names: seq<string>)
    requires NoAt(names)
    ensures var mode := ModeLiteral(user, isSmokeTests, isPerformanceTests);
      (mode.Some? ==> Holds(mode.value, Tagged(names))) <==>
        && (isSmokeTests ==> "smoke" in names)
        && (!isSmokeTests && !Contains(user, "@performance") ==> (isPerformanceTests <==> "performance" in names))
  {
    HasTagged(names, "smoke");
    HasTagged(names, "performance");
    TagLiterals();
  }

  lemma TagLiterals()
    ensures PERFORMANCE_TAG == "@performance" && DISABLED_TAG == "@disabled" && SMOKE_TAG == "@smoke"
  {
  }

  /** The effective filter by the names of a scenario's tags. */
  lemma EffectiveByName(user: string, isSmokeTests: bool, isPerformanceTests: bool, names: seq<string>)
    requires (user != "" ==> !Malformed(user)) && NoAt(names)
    ensures var effective := Effective(user, isSmokeTests, isPerformanceTests);
      (effective == "" || Matches(effective, Tagged(names)) == Some(true)) <==>
        && (user == "" || Matches(user, Tagged(names)) == Some(true))
        && (isSmokeTests ==> "smoke" in names)
        && (!isSmokeTests && !Contains(user, "@performance") ==> (isPerformanceTests <==> "performance" in names))
        && (!Contains(user, "@disabled") ==> "disabled" !in names)
  {
    ModeByName(user, isSmokeTests, isPerformanceTests, names);
    HasTagged(names, "disabled");
    TagLiterals();
    EffectiveFilter(user, isSmokeTests, isPerformanceTests, Tagged(names));
  }
}
