/**
 Reading the generated settings back.  The theorems speak of the generated text and its tags only: what stands
 between them are the ids and URLs that went in, each in its place.
 */
module SettingsReadBack {
  import opened Sequences
  import opened GoStrings
  import opened MavenSettings

  /** The text behind the first occurrence of a tag, or nothing. */
  function Behind(s: string, tag: string): string
    requires tag != ""
  {
    Join(Split(s, tag)[1..], tag)
  }

  /** The text between the first opening tag and the closing tag that follows. */
  function Between(s: string, open: string, close: string): string
    requires open != "" && close != ""
  {
    Split(Behind(s, open), close)[0]
  }

  /** Ids and URLs without '<'. */
  predicate Readable(url: string, rs: seq<Repository>) {
    NoOpening(url) && forall r :: r in rs ==> NoOpening(r.id) && NoOpening(r.url)
  }

  // ---------- Splitting past tokens ----------

  /** Text in front of the first part. */
  function Push(p: string, parts: seq<string>): seq<string>
    requires parts != []
  {
    [p + parts[0]] + parts[1..]
  }

  lemma PushPush(p: string, q: string, parts: seq<string>)
    requires parts != []
    ensures Push(p, Push(q, parts)) == Push(p + q, parts)
  {
    ConcatAssoc(p, q, parts[0]);
  }

  predicate Tag(sep: string) {
    |sep| > 1 && sep[0] == '<' && NoOpening(sep[1..])
  }

  lemma {:induction false} SplitPastText(p: string, t: string, sep: string)
    requires NoOpening(p) && Tag(sep)
    ensures Split(p + t, sep) == Push(p, Split(t, sep))
    decreases |p|
  {
    if p == "" {
      assert p + t == t;
      assert "" + Split(t, sep)[0] == Split(t, sep)[0];
    } else {
      SplitPastText(p[1..], t, sep);
      assert p + t == [p[0]] + (p[1..] + t);
      SplitSkip([p[0]], p[1..] + t, sep);
      PushPush([p[0]], p[1..], Split(t, sep));
      assert [p[0]] + p[1..] == p;
    }
  }

  /** The tag differs from the separator at some place. */
  ghost predicate Apart(tag: string, sep: string) {
    Tag(tag) && exists k :: 0 < k < |tag| && k < |sep| && tag[k] != sep[k]
  }

  lemma SplitPastTag(tag: string, t: string, sep: string)
    requires Apart(tag, sep) && Tag(sep)
    ensures Split(tag + t, sep) == Push(tag, Split(t, sep))
  {
    var k :| 0 < k < |tag| && k < |sep| && tag[k] != sep[k];
    assert (tag + t)[k] == tag[k];
    assert (tag + t)[1..] == tag[1..] + t;
    SplitPastText(tag[1..], t, sep);
    PushPush([tag[0]], tag[1..], Split(t, sep));
    assert [tag[0]] + tag[1..] == tag;
  }

  /** No separator starts in the token. */
  ghost predicate Passes(t: Token, sep: string) {
    match t
    case Text(ws, tag) => NoOpening(ws) && (NoOpening(tag) || Apart(tag, sep))
    case Mark(m) => Apart(m, sep)
  }

  ghost predicate AllPass(doc: seq<Token>, sep: string) {
    forall t :: t in doc ==> Passes(t, sep)
  }

  lemma SplitPastToken(t: Token, rest: string, sep: string)
    requires Passes(t, sep) && Tag(sep)
    ensures Split(ShowToken(t) + rest, sep) == Push(ShowToken(t), Split(rest, sep))
  {
    match t {
      case Mark(m) => SplitPastTag(m, rest, sep);
      case Text(ws, tag) =>
        ConcatAssoc(ws, tag, rest);
        SplitPastText(ws, tag + rest, sep);
        if NoOpening(tag) {
          SplitPastText(tag, rest, sep);
        } else {
          SplitPastTag(tag, rest, sep);
        }
        PushPush(ws, tag, Split(rest, sep));
    }
  }

  lemma {:induction false} SplitPastTokens(doc: seq<Token>, rest: string, sep: string)
    requires AllPass(doc, sep) && Tag(sep)
    ensures Split(Show(doc) + rest, sep) == Push(Show(doc), Split(rest, sep))
    decreases |doc|
  {
    if doc == [] {
      assert "" + rest == rest;
      assert "" + Split(rest, sep)[0] == Split(rest, sep)[0];
    } else {
      SplitPastTokens(doc[1..], rest, sep);
      SplitPastToken(doc[0], Show(doc[1..]) + rest, sep);
      ConcatAssoc(ShowToken(doc[0]), Show(doc[1..]), rest);
      PushPush(ShowToken(doc[0]), Show(doc[1..]), Split(rest, sep));
    }
  }

  lemma PassConcat(a: seq<Token>, b: seq<Token>, sep: string)
    ensures AllPass(a + b, sep) <==> AllPass(a, sep) && AllPass(b, sep)
  {
    assert forall t :: t in a + b <==> t in a || t in b;
  }

  lemma FourPass(a: seq<Token>, b: seq<Token>, c: seq<Token>, d: seq<Token>, sep: string)
    requires AllPass(a, sep) && AllPass(b, sep) && AllPass(c, sep) && AllPass(d, sep)
    ensures AllPass(a + b + c + d, sep)
  {
    PassConcat(a, b, sep);
    PassConcat(a + b, c, sep);
    PassConcat(a + b + c, d, sep);
  }

  lemma BehindTokens(doc: seq<Token>, ws: string, open: string, rest: string)
    requires Tag(open) && NoOpening(ws) && AllPass(doc, open)
    ensures Behind(Show(doc) + (ws + (open + rest)), open) == rest
  {
    SplitPastTokens(doc, ws + (open + rest), open);
    SplitPastText(ws, open + rest, open);
    SplitHit(rest, open);
    PushPush(Show(doc), ws, [""] + Split(rest, open));
    assert Split(Show(doc) + (ws + (open + rest)), open)[1..] == Split(rest, open);
    JoinSplit(rest, open);
  }

  lemma UpToClose(v: string, close: string, rest: string)
    requires Tag(close) && !Contains(v, close)
    ensures Split(v + (close + rest), close)[0] == v
  {
    SplitHit(rest, close);
    SplitWithout(v, close);
    SplitParts(v, close + rest, close);
    assert v + "" == v;
  }

  /** The text of a section behind tokens in which its tag does not occur. */
  lemma SectionBetween(doc: seq<Token>, ws: string, open: string, v: string, close: string, rest: string)
    requires Tag(open) && Tag(close) && !Contains(v, close) && NoOpening(ws) && AllPass(doc, open)
    ensures Between(Show(doc) + (ws + (open + (v + (close + rest)))), open, close) == v
  {
    BehindTokens(doc, ws, open, v + (close + rest));
    UpToClose(v, close, rest);
  }

  /** The value of a field. */
  lemma FieldBetween(doc: seq<Token>, ws: string, open: string, v: string, close: string, rest: string)
    requires Tag(open) && Tag(close) && NoOpening(v) && NoOpening(ws) && AllPass(doc, open)
    ensures Between(Show(doc) + (ws + (open + (v + (close + rest)))), open, close) == v
  {
    ContainsNeedsFirst(v, close);
    SectionBetween(doc, ws, open, v, close, rest);
  }

  // ---------- What passes ----------

  /** The tags of the mirror, of the profile, of the lists and of their entries. */
  predicate EntryTag(sep: string) {
    || sep == "<mirror>" || sep == "<mirrorOf>" || sep == "<repositories>" || sep == "<repository>"
    || sep == "<pluginRepositories>" || sep == "<pluginRepository>" || sep == "<profile>" || sep == "<activeProfile>"
  }

  lemma ProfileTagShape()
    ensures Tag("<profile>") && |"<profile>"| > 3 && "<profile>"[1] == 'p'
    ensures Tag("<activeProfile>") && |"<activeProfile>"| > 3 && "<activeProfile>"[1] == 'a'
  {
  }

  lemma MirrorTagShape()
    ensures Tag("<mirror>") && Tag("<mirrorOf>") && |"<mirror>"| > 3 && |"<mirrorOf>"| > 3
    ensures "<mirror>"[1] == 'm' && "<mirrorOf>"[1] == 'm'
  {
  }

  lemma RepositoryTagShape(sep: string)
    requires sep == "<repositories>" || sep == "<repository>"
    ensures Tag(sep) && |sep| > 3 && sep[1] == 'r' && sep[3] == 'p'
  {
  }

  lemma PluginTagShape(sep: string)
    requires sep == "<pluginRepositories>" || sep == "<pluginRepository>"
    ensures Tag(sep) && |sep| > 3 && sep[1] == 'p' && sep[2] == 'l'
  {
  }

  lemma EntryTagShape(sep: string)
    requires EntryTag(sep)
    ensures Tag(sep) && |sep| > 3
    ensures sep[1] in {'m', 'p', 'a'} || (sep[1] == 'r' && sep[3] == 'p')
    ensures sep == "<repositories>" || sep == "<repository>" ==> sep[1] == 'r'
    ensures sep == "<pluginRepositories>" || sep == "<pluginRepository>" ==> sep[1] == 'p' && sep[2] == 'l'
    ensures sep == "<mirror>" || sep == "<mirrorOf>" ==> sep[1] == 'm'
    ensures sep == "<profile>" ==> sep[1] == 'p'
    ensures sep == "<activeProfile>" ==> sep[1] == 'a'
  {
    if sep == "<repositories>" || sep == "<repository>" {
      RepositoryTagShape(sep);
    } else if sep == "<pluginRepositories>" || sep == "<pluginRepository>" {
      PluginTagShape(sep);
    } else if sep == "<mirror>" || sep == "<mirrorOf>" {
      MirrorTagShape();
    } else {
      ProfileTagShape();
    }
  }

  lemma ApartAt(tag: string, sep: string, k: nat)
    requires Tag(tag) && 0 < k < |tag| && k < |sep| && tag[k] != sep[k]
    ensures Apart(tag, sep)
  {
  }

  lemma ConstantPasses(t: Token, sep: string)
    requires Constant(t) && EntryTag(sep)
    ensures Passes(t, sep)
  {
    EntryTagShape(sep);
    if t.tag != "" {
      ApartAt(t.tag, sep, if t.tag[1] != sep[1] then 1 else 3);
    }
  }

  lemma ConstantsPass(doc: seq<Token>, sep: string)
    requires AllConstant(doc) && EntryTag(sep)
    ensures AllPass(doc, sep)
  {
    forall t | t in doc
      ensures Passes(t, sep)
    {
      ConstantPasses(t, sep);
    }
  }

  lemma MarkPasses(m: string, sep: string)
    requires IsMark(m) && EntryTag(sep)
    ensures Passes(Mark(m), sep)
  {
    EntryTagShape(sep);
    MarkShape(m);
    assert m[1] in {'!', '/'};
    ApartAt(m, sep, 1);
  }

  /** A value behind a tag that differs from the separator at its second character. */
  lemma ValuePasses(ws: string, tag: string, v: string, sep: string)
    requires NoOpening(ws) && NoOpening(v) && Tag(tag) && |sep| > 1 && tag[1] != sep[1]
    ensures Passes(Text(ws, tag + v), sep)
  {
    assert (tag + v)[1] == tag[1];
    ApartAt(tag + v, sep, 1);
  }

  lemma FieldPasses(open: string, v: string, close: string, sep: string)
    requires Tag(open) && Tag(close) && NoOpening(v) && Tag(sep) && open[1] != sep[1] && close[1] != sep[1]
    ensures AllPass(Field(open, v, close), sep)
  {
    ValuePasses("\n      ", open, v, sep);
    ApartAt(close, sep, 1);
  }

  // ---------- The fields of an entry ----------

  lemma ShowSingle(t: Token)
    ensures Show([t]) == ShowToken(t)
  {
    assert [t][1..] == [];
    assert Show([]) == "";
    assert ShowToken(t) + "" == ShowToken(t);
  }

  lemma ShowPair(a: Token, b: Token)
    ensures Show([a, b]) == ShowToken(a) + ShowToken(b)
  {
    assert [a] + [b] == [a, b];
    ShowConcat([a], [b]);
    ShowSingle(a);
    ShowSingle(b);
  }

  lemma ShowFieldWithin(
    front: seq<Token>, ws: string, open: string, v: string, close: string, back: seq<Token>, x: string)
    ensures Show(front + [Text(ws, open + v), Text("", close)] + back) + x
         == Show(front) + (ws + (open + (v + (close + (Show(back) + x)))))
  {
    var field := [Text(ws, open + v), Text("", close)];
    ShowAround(front, field, back);
    ShowPair(Text(ws, open + v), Text("", close));
    assert "" + close == close;
    FieldAssoc(Show(front), ws, open, v, close, Show(back), x);
  }

  lemma FieldAssoc(a: string, ws: string, open: string, v: string, close: string, b: string, x: string)
    ensures a + (ws + (open + v) + close) + b + x == a + (ws + (open + (v + (close + (b + x)))))
  {
    var l := a + (ws + (open + v) + close) + b + x;
    assert l == a + ((ws + (open + v) + close) + (b + x));
    assert (ws + (open + v) + close) + (b + x) == ws + ((open + v) + (close + (b + x)));
    assert (open + v) + (close + (b + x)) == open + (v + (close + (b + x)));
  }

  /** A field of the document, when its opening tag does not occur before it. */
  lemma ReadField(
    s: string, doc: seq<Token>, x: string,
    front: seq<Token>, ws: string, open: string, v: string, close: string, back: seq<Token>)
    requires s == Show(doc) + x && doc == front + [Text(ws, open + v), Text("", close)] + back
    requires Tag(open) && Tag(close) && NoOpening(v) && NoOpening(ws) && AllPass(front, open)
    ensures Between(s, open, close) == v
  {
    ShowFieldWithin(front, ws, open, v, close, back, x);
    FieldBetween(front, ws, open, v, close, Show(back) + x);
  }

  lemma FieldTags()
    ensures Tag("<id>") && Tag("</id>") && Tag("<name>") && Tag("</name>") && Tag("<url>") && Tag("</url>")
    ensures "<id>"[1] == 'i' && "<name>"[1] == 'n' && "<url>"[1] == 'u'
    ensures "</id>"[1] == '/' && "</name>"[1] == '/' && "</url>"[1] == '/'
  {
  }

  /** What an entry of either list reads as. */
  ghost predicate Reads(entry: string, r: Repository) {
    ReadsValues(entry, r) && ReadsDefaults(entry)
  }

  ghost predicate ReadsValues(entry: string, r: Repository) {
    && Between(entry, "<id>", "</id>") == r.id
    && Between(entry, "<name>", "</name>") == r.id
    && Between(entry, "<url>", "</url>") == r.url
  }

  ghost predicate ReadsDefaults(entry: string) {
    && Between(entry, "<layout>", "</layout>") == "default"
    && AlwaysEnabled(Behind(entry, "<releases>"))
    && AlwaysEnabled(Behind(entry, "<snapshots>"))
  }

  ghost predicate AlwaysEnabled(policy: string) {
    && Between(policy, "<enabled>", "</enabled>") == "true"
    && Between(policy, "<updatePolicy>", "</updatePolicy>") == "always"
  }

  lemma ContentParts(r: Repository)
    ensures var id, name, url := Field("<id>", r.id, "</id>"), Field("<name>", r.id, "</name>"),
                                 Field("<url>", r.url, "</url>");
      && Content(r) == [] + id + (name + url + CONTENT_FOOT)
      && Content(r) == id + name + (url + CONTENT_FOOT)
      && Content(r) == (id + name) + url + CONTENT_FOOT
  {
  }

  lemma ReadId(r: Repository, entry: string, x: string)
    requires NoOpening(r.id) && entry == Show(Content(r)) + x
    ensures Between(entry, "<id>", "</id>") == r.id
  {
    FieldTags();
    GapIsPlain();
    ContentParts(r);
    ReadField(entry, Content(r), x, [], "\n      ", "<id>", r.id, "</id>",
              Field("<name>", r.id, "</name>") + Field("<url>", r.url, "</url>") + CONTENT_FOOT);
  }

  lemma ReadName(r: Repository, entry: string, x: string)
    requires NoOpening(r.id) && entry == Show(Content(r)) + x
    ensures Between(entry, "<name>", "</name>") == r.id
  {
    FieldTags();
    GapIsPlain();
    ContentParts(r);
    FieldPasses("<id>", r.id, "</id>", "<name>");
    ReadField(entry, Content(r), x, Field("<id>", r.id, "</id>"), "\n      ", "<name>", r.id, "</name>",
              Field("<url>", r.url, "</url>") + CONTENT_FOOT);
  }

  lemma ReadUrl(r: Repository, entry: string, x: string)
    requires NoOpening(r.id) && NoOpening(r.url) && entry == Show(Content(r)) + x
    ensures Between(entry, "<url>", "</url>") == r.url
  {
    var id, name := Field("<id>", r.id, "</id>"), Field("<name>", r.id, "</name>");
    FieldTags();
    GapIsPlain();
    ContentParts(r);
    FieldPasses("<id>", r.id, "</id>", "<url>");
    FieldPasses("<name>", r.id, "</name>", "<url>");
    PassConcat(id, name, "<url>");
    ReadField(entry, Content(r), x, id + name, "\n      ", "<url>", r.url, "</url>", CONTENT_FOOT);
  }

  lemma FootTags()
    ensures Tag("<layout>") && Tag("</layout>") && Tag("<releases>") && Tag("</releases>") && Tag("<snapshots>")
    ensures "<layout>"[1] == 'l' && "</layout>"[1] == '/' && "<releases>"[1] == 'r' && "</releases>"[1] == '/'
    ensures "<snapshots>"[1] == 's'
  {
  }

  lemma PolicyTags()
    ensures Tag("<enabled>") && Tag("</enabled>") && Tag("<updatePolicy>") && Tag("</updatePolicy>")
    ensures "<enabled>"[1] == 'e' && "</enabled>"[1] == '/' && "<updatePolicy>"[1] == 'u' && "</updatePolicy>"[1] == '/'
    ensures NoOpening("true") && NoOpening("always") && NoOpening("default")
  {
  }

  const ENABLED := [Text("\n        ", "<enabled>" + "true"), Text("", "</enabled>")]
  const UPDATE := [Text("\n        ", "<updatePolicy>" + "always"), Text("", "</updatePolicy>")]
  const LAYOUT := [Text("\n      ", "<layout>" + "default"), Text("", "</layout>")]

  lemma FootParts()
    ensures POLICY == ENABLED + UPDATE
    ensures CONTENT_FOOT == LAYOUT + [Text("\n      ", "<releases>")] + POLICY + [Text("\n      ", "</releases>")]
                          + [Text("\n      ", "<snapshots>")] + POLICY + [Text("\n      ", "</snapshots>")]
  {
    assert "<enabled>" + "true" == "<enabled>true" && "<updatePolicy>" + "always" == "<updatePolicy>always";
    assert "<layout>" + "default" == "<layout>default";
  }

  lemma PolicyIndentIsPlain()
    ensures NoOpening("\n        ")
  {
  }

  lemma EnabledPasses(sep: string)
    requires Tag(sep) && sep[1] != 'e' && sep[1] != '/'
    ensures AllPass(ENABLED, sep)
  {
    PolicyTags();
    PolicyIndentIsPlain();
    ValuePasses("\n        ", "<enabled>", "true", sep);
    TagPasses("", "</enabled>", sep);
  }

  lemma PolicyPasses(sep: string)
    requires Tag(sep) && sep[1] != 'e' && sep[1] != 'u' && sep[1] != '/'
    ensures AllPass(POLICY, sep)
  {
    PolicyTags();
    PolicyIndentIsPlain();
    EnabledPasses(sep);
    ValuePasses("\n        ", "<updatePolicy>", "always", sep);
    TagPasses("", "</updatePolicy>", sep);
    FootParts();
    PassConcat(ENABLED, UPDATE, sep);
  }

  lemma PolicyParts(back: seq<Token>)
    ensures POLICY + back == [] + ENABLED + (UPDATE + back) && POLICY + back == ENABLED + UPDATE + back
  {
    FootParts();
    ConcatAssoc(ENABLED, UPDATE, back);
    assert [] + ENABLED == ENABLED;
  }

  lemma ReadPolicy(back: seq<Token>, policy: string, x: string)
    requires policy == Show(POLICY + back) + x
    ensures AlwaysEnabled(policy)
  {
    PolicyParts(back);
    PolicyTags();
    PolicyIndentIsPlain();
    EnabledPasses("<updatePolicy>");
    ReadField(policy, POLICY + back, x, [], "\n        ", "<enabled>", "true", "</enabled>", UPDATE + back);
    ReadField(policy, POLICY + back, x, ENABLED, "\n        ", "<updatePolicy>", "always", "</updatePolicy>", back);
  }

  lemma ValuesPass(r: Repository, sep: string)
    requires NoOpening(r.id) && NoOpening(r.url) && Tag(sep) && sep[1] !in {'i', 'n', 'u', '/'}
    ensures AllPass(ContentValues(r), sep)
  {
    var id, name := Field("<id>", r.id, "</id>"), Field("<name>", r.id, "</name>");
    var url := Field("<url>", r.url, "</url>");
    FieldTags();
    FieldPasses("<id>", r.id, "</id>", sep);
    FieldPasses("<name>", r.id, "</name>", sep);
    FieldPasses("<url>", r.url, "</url>", sep);
    PassConcat(id, name, sep);
    PassConcat(id + name, url, sep);
  }

  lemma LayoutPasses(sep: string)
    requires Tag(sep) && sep[1] != 'l' && sep[1] != '/'
    ensures AllPass(LAYOUT, sep)
  {
    FootTags();
    PolicyTags();
    GapIsPlain();
    ValuePasses("\n      ", "<layout>", "default", sep);
    TagPasses("", "</layout>", sep);
  }

  lemma GapIsPlain()
    ensures NoOpening("\n      ")
  {
  }

  /** The foot of an entry, behind the layout. */
  const FOOT_POLICIES :=
    [Text("\n      ", "<releases>")] + POLICY + [Text("\n      ", "</releases>")]
    + [Text("\n      ", "<snapshots>")] + POLICY + [Text("\n      ", "</snapshots>")]

  lemma LayoutAt(r: Repository)
    ensures Content(r) == ContentValues(r) + LAYOUT + FOOT_POLICIES
  {
    FootParts();
    assert LAYOUT + FOOT_POLICIES == CONTENT_FOOT;
    ConcatAssoc(ContentValues(r), LAYOUT, FOOT_POLICIES);
  }

  lemma ReadLayout(r: Repository, entry: string, x: string)
    requires NoOpening(r.id) && NoOpening(r.url) && entry == Show(Content(r)) + x
    ensures Between(entry, "<layout>", "</layout>") == "default"
  {
    FootTags();
    PolicyTags();
    GapIsPlain();
    LayoutAt(r);
    ValuesPass(r, "<layout>");
    ReadField(entry, Content(r), x, ContentValues(r), "\n      ", "<layout>", "default", "</layout>", FOOT_POLICIES);
  }

  /** Behind an opening tag without value stands a policy. */
  lemma PolicyBehind(s: string, doc: seq<Token>, x: string, front: seq<Token>, open: string, back: seq<Token>)
    requires s == Show(doc) + x && doc == front + ([Text("\n      ", open)] + (POLICY + back))
    requires Tag(open) && AllPass(front, open)
    ensures AlwaysEnabled(Behind(s, open))
  {
    var tag := [Text("\n      ", open)];
    GapIsPlain();
    ShowConcat(front, tag + (POLICY + back));
    ShowConcat(tag, POLICY + back);
    ShowSingle(tag[0]);
    EntryAssoc(Show(front), "\n      ", open, Show(POLICY + back), x);
    BehindTokens(front, "\n      ", open, Show(POLICY + back) + x);
    ReadPolicy(back, Behind(s, open), x);
  }

  lemma ReadReleases(r: Repository, entry: string, x: string)
    requires NoOpening(r.id) && NoOpening(r.url) && entry == Show(Content(r)) + x
    ensures AlwaysEnabled(Behind(entry, "<releases>"))
  {
    var back := [Text("\n      ", "</releases>")] + [Text("\n      ", "<snapshots>")] + POLICY
              + [Text("\n      ", "</snapshots>")];
    FootTags();
    FootParts();
    ValuesPass(r, "<releases>");
    LayoutPasses("<releases>");
    PassConcat(ContentValues(r), LAYOUT, "<releases>");
    ReleasesAt(ContentValues(r), LAYOUT, [Text("\n      ", "<releases>")], POLICY, [Text("\n      ", "</releases>")],
               [Text("\n      ", "<snapshots>")], [Text("\n      ", "</snapshots>")]);
    PolicyBehind(entry, Content(r), x, ContentValues(r) + LAYOUT, "<releases>", back);
  }

  lemma ReleasesAt(v: seq<Token>, l: seq<Token>, o: seq<Token>, p: seq<Token>, c: seq<Token>, s: seq<Token>,
                   e: seq<Token>)
    ensures v + (l + o + p + c + s + p + e) == (v + l) + (o + (p + (c + s + p + e)))
  {
  }

  lemma SnapshotsAt(v: seq<Token>, l: seq<Token>, o: seq<Token>, p: seq<Token>, c: seq<Token>, s: seq<Token>,
                    e: seq<Token>)
    ensures v + (l + o + p + c + s + p + e) == (v + (l + o + p + c)) + (s + (p + e))
  {
  }

  lemma ReadSnapshots(r: Repository, entry: string, x: string)
    requires NoOpening(r.id) && NoOpening(r.url) && entry == Show(Content(r)) + x
    ensures AlwaysEnabled(Behind(entry, "<snapshots>"))
  {
    var open, close := [Text("\n      ", "<releases>")], [Text("\n      ", "</releases>")];
    FootTags();
    FootParts();
    BeforeSnapshotsPasses(r);
    SnapshotsAt(ContentValues(r), LAYOUT, open, POLICY, close, [Text("\n      ", "<snapshots>")],
                [Text("\n      ", "</snapshots>")]);
    PolicyBehind(entry, Content(r), x, ContentValues(r) + (LAYOUT + open + POLICY + close), "<snapshots>",
                 [Text("\n      ", "</snapshots>")]);
  }

  lemma BeforeSnapshotsPasses(r: Repository)
    requires NoOpening(r.id) && NoOpening(r.url)
    ensures AllPass(ContentValues(r) + (LAYOUT + [Text("\n      ", "<releases>")] + POLICY
                    + [Text("\n      ", "</releases>")]), "<snapshots>")
  {
    var open, close := [Text("\n      ", "<releases>")], [Text("\n      ", "</releases>")];
    FootTags();
    GapIsPlain();
    ValuesPass(r, "<snapshots>");
    LayoutPasses("<snapshots>");
    PolicyPasses("<snapshots>");
    TagPasses("\n      ", "<releases>", "<snapshots>");
    TagPasses("\n      ", "</releases>", "<snapshots>");
    FourPass(LAYOUT, open, POLICY, close, "<snapshots>");
    PassConcat(ContentValues(r), LAYOUT + open + POLICY + close, "<snapshots>");
  }

  lemma ReadValues(r: Repository, entry: string, x: string)
    requires NoOpening(r.id) && NoOpening(r.url) && entry == Show(Content(r)) + x
    ensures ReadsValues(entry, r)
  {
    ReadId(r, entry, x);
    ReadName(r, entry, x);
    ReadUrl(r, entry, x);
  }

  lemma ReadDefaults(r: Repository, entry: string, x: string)
    requires NoOpening(r.id) && NoOpening(r.url) && entry == Show(Content(r)) + x
    ensures ReadsDefaults(entry)
  {
    ReadLayout(r, entry, x);
    ReadReleases(r, entry, x);
    ReadSnapshots(r, entry, x);
  }

  lemma PrefixAndRest(p: string, s: string)
    requires p <= s
    ensures s == p + s[|p|..]
  {
  }

  lemma ReadContent(r: Repository, shown: string, entry: string)
    requires NoOpening(r.id) && NoOpening(r.url) && shown == Show(Content(r)) && shown <= entry
    ensures Reads(entry, r)
  {
    PrefixAndRest(shown, entry);
    ReadValues(r, entry, entry[|shown|..]);
    ReadDefaults(r, entry, entry[|shown|..]);
  }

  lemma ContentPasses(r: Repository, sep: string)
    requires NoOpening(r.id) && NoOpening(r.url) && EntryTag(sep)
    ensures AllPass(Content(r), sep)
  {
    EntryTagShape(sep);
    ValuesPass(r, sep);
    ContentFootIsConstant();
    ConstantsPass(CONTENT_FOOT, sep);
    PassConcat(ContentValues(r), CONTENT_FOOT, sep);
  }

  // ---------- The entries of a list ----------

  /** The pieces behind the first start with the entries' bodies. */
  ghost predicate Start(bodies: seq<seq<Token>>, pieces: seq<string>) {
    |pieces| > |bodies| && forall i :: 0 <= i < |bodies| ==> Show(bodies[i]) <= pieces[i + 1]
  }

  /** Splitting at the tag that starts each entry gives the entries, behind what comes before the list. */
  lemma {:induction false} EntriesSplit(
    front: seq<Token>, es: seq<seq<Token>>, bodies: seq<seq<Token>>, rest: string, sep: string)
    returns (before: seq<string>, last: string)
    requires |es| == |bodies| && Tag(sep) && AllPass(front, sep)
    requires forall i :: 0 <= i < |es| ==> es[i] == [Text("\n", sep)] + bodies[i] && AllPass(bodies[i], sep)
    ensures |before| == |es| && Start(bodies, before + [last])
    ensures Split(Show(front + Concat(es)) + rest, sep) == before + Push(last, Split(rest, sep))
    decreases |es|
  {
    if es == [] {
      before, last := [], Show(front);
      assert front + Concat(es) == front;
      SplitPastTokens(front, rest, sep);
    } else {
      var n := |es| - 1;
      var body := bodies[n];
      var tail := "\n" + (sep + (Show(body) + rest));
      before, last := EntriesSplit(front, es[..n], bodies[..n], tail, sep);
      ShowLastEntry(front, Concat(es[..n]), es[n], body, rest, sep);
      assert Concat(es) == Concat(es[..n]) + es[n];
      SplitLastEntry(body, rest, sep);
      PushNext(before, last, Show(body), Split(rest, sep));
      StartNext(bodies, before, last);
      before, last := before + [last + "\n"], Show(body);
    }
  }

  lemma PushNext(before: seq<string>, last: string, next: string, parts: seq<string>)
    requires parts != []
    ensures before + Push(last, Push("\n", [""] + Push(next, parts))) == before + [last + "\n"] + Push(next, parts)
  {
    assert ("\n" + "") == "\n";
    assert ([""] + Push(next, parts))[1..] == Push(next, parts);
    assert Push("\n", [""] + Push(next, parts)) == ["\n"] + Push(next, parts);
  }

  lemma StartNext(bodies: seq<seq<Token>>, before: seq<string>, last: string)
    requires bodies != [] && |before| == |bodies| - 1 && Start(bodies[..|bodies| - 1], before + [last])
    ensures Start(bodies, before + [last + "\n"] + [Show(bodies[|bodies| - 1])])
  {
    var n := |before|;
    var was, now := before + [last], before + [last + "\n"] + [Show(bodies[n])];
    forall i | 0 <= i < |bodies|
      ensures Show(bodies[i]) <= now[i + 1]
    {
      if i < n {
        assert bodies[..n][i] == bodies[i];
        assert Show(bodies[i]) <= was[i + 1] <= now[i + 1];
      }
    }
  }

  lemma ShowLastEntry(
    front: seq<Token>, first: seq<Token>, e: seq<Token>, body: seq<Token>, rest: string, sep: string)
    requires e == [Text("\n", sep)] + body
    ensures Show(front + (first + e)) + rest == Show(front + first) + ("\n" + (sep + (Show(body) + rest)))
  {
    ConcatAssoc(front, first, e);
    ShowConcat(front + first, e);
    ShowConcat([Text("\n", sep)], body);
    ShowSingle(Text("\n", sep));
    EntryAssoc(Show(front + first), "\n", sep, Show(body), rest);
  }

  lemma EntryAssoc(a: string, ws: string, sep: string, b: string, rest: string)
    ensures a + (ws + sep + b) + rest == a + (ws + (sep + (b + rest)))
  {
    ConcatAssoc(a, ws + sep + b, rest);
    ConcatAssoc(ws + sep, b, rest);
    ConcatAssoc(ws, sep, b + rest);
  }

  lemma SplitLastEntry(body: seq<Token>, rest: string, sep: string)
    requires Tag(sep) && AllPass(body, sep)
    ensures Split("\n" + (sep + (Show(body) + rest)), sep) == Push("\n", [""] + Push(Show(body), Split(rest, sep)))
  {
    SplitPastTokens(body, rest, sep);
    SplitHit(Show(body) + rest, sep);
    SplitPastText("\n", sep + (Show(body) + rest), sep);
  }

  // ---------- The sections of the document ----------

  lemma {:induction false} ConcatPasses(es: seq<seq<Token>>, sep: string)
    requires forall i :: 0 <= i < |es| ==> AllPass(es[i], sep)
    ensures AllPass(Concat(es), sep)
    decreases |es|
  {
    if es != [] {
      var n := |es| - 1;
      ConcatPasses(es[..n], sep);
      PassConcat(Concat(es[..n]), es[n], sep);
    }
  }

  function Body(r: Repository, close: string): seq<Token> {
    Content(r) + [Text("", close)]
  }

  lemma BodiesPass(r: Repository, sep: string)
    requires NoOpening(r.id) && NoOpening(r.url) && EntryTag(sep)
    ensures AllPass(Body(r, "</repository>\n"), sep) && AllPass(Body(r, "</pluginRepository>\n"), sep)
  {
    ContentPasses(r, sep);
    RepositoryTagsArePieces();
    PluginTagsArePieces();
    ConstantPasses(Text("", "</repository>\n"), sep);
    ConstantPasses(Text("", "</pluginRepository>\n"), sep);
    PassConcat(Content(r), [Text("", "</repository>\n")], sep);
    PassConcat(Content(r), [Text("", "</pluginRepository>\n")], sep);
  }

  lemma EntryIsBody(r: Repository)
    ensures RepositoryEntry(r) == [Text("\n", "<repository>")] + Body(r, "</repository>\n")
    ensures PluginEntry(r) == [Text("\n", "<pluginRepository>")] + Body(r, "</pluginRepository>\n")
  {
    ConcatAssoc([Text("\n", "<repository>")], Content(r), [Text("", "</repository>\n")]);
    ConcatAssoc([Text("\n", "<pluginRepository>")], Content(r), [Text("", "</pluginRepository>\n")]);
  }

  lemma RepositoryEntryPasses(r: Repository, sep: string)
    requires NoOpening(r.id) && NoOpening(r.url) && EntryTag(sep) && sep[1] != 'r'
    ensures AllPass(RepositoryEntry(r), sep)
  {
    EntryTagShape(sep);
    RepositoryTagShape("<repository>");
    TagPasses("\n", "<repository>", sep);
    BodiesPass(r, sep);
    EntryIsBody(r);
    PassConcat([Text("\n", "<repository>")], Body(r, "</repository>\n"), sep);
  }

  lemma PluginEntryPasses(r: Repository, sep: string)
    requires NoOpening(r.id) && NoOpening(r.url) && EntryTag(sep) && sep[1] != 'p'
    ensures AllPass(PluginEntry(r), sep)
  {
    EntryTagShape(sep);
    PluginTagShape("<pluginRepository>");
    TagPasses("\n", "<pluginRepository>", sep);
    BodiesPass(r, sep);
    EntryIsBody(r);
    PassConcat([Text("\n", "<pluginRepository>")], Body(r, "</pluginRepository>\n"), sep);
  }

  lemma RepositoryListPasses(rs: seq<Repository>, sep: string)
    requires Readable("", rs) && EntryTag(sep) && sep[1] != 'r'
    ensures AllPass(RepositoryList(rs), sep)
  {
    var es := seq(|rs|, i requires 0 <= i < |rs| => RepositoryEntry(rs[i]));
    forall i | 0 <= i < |es|
      ensures AllPass(es[i], sep)
    {
      assert rs[i] in rs;
      RepositoryEntryPasses(rs[i], sep);
    }
    ConcatPasses(es, sep);
  }

  lemma PluginListPasses(rs: seq<Repository>, sep: string)
    requires Readable("", rs) && EntryTag(sep) && sep[1] != 'p'
    ensures AllPass(PluginList(rs), sep)
  {
    var es := seq(|rs|, i requires 0 <= i < |rs| => PluginEntry(rs[i]));
    forall i | 0 <= i < |es|
      ensures AllPass(es[i], sep)
    {
      assert rs[i] in rs;
      PluginEntryPasses(rs[i], sep);
    }
    ConcatPasses(es, sep);
  }

  lemma IgnoreListPasses(rs: seq<Repository>, sep: string)
    requires Readable("", rs)
    ensures AllPass(IgnoreList(rs), sep)
  {
    var es := seq(|rs|, i requires 0 <= i < |rs| => IgnoreEntry(rs[i]));
    forall i | 0 <= i < |es|
      ensures AllPass(es[i], sep)
    {
      assert rs[i] in rs;
    }
    ConcatPasses(es, sep);
  }

  lemma MirrorTagsShape()
    ensures Tag("<mirrors>") && Tag("<mirror>") && Tag("<mirrorOf>external:*")
    ensures "<mirrors>"[1] == "<mirror>"[1] == "<mirrorOf>external:*"[1] == 'm'
  {
  }

  lemma TagPasses(ws: string, tag: string, sep: string)
    requires NoOpening(ws) && Tag(tag) && |sep| > 1 && tag[1] != sep[1]
    ensures Passes(Text(ws, tag), sep)
  {
    ApartAt(tag, sep, 1);
  }

  lemma FivePass(a: Token, b: Token, c: Token, d: Token, e: Token, sep: string)
    requires Passes(a, sep) && Passes(b, sep) && Passes(c, sep) && Passes(d, sep) && Passes(e, sep)
    ensures AllPass([a, b, c, d, e], sep)
  {
  }

  lemma MirrorHeadPasses(sep: string)
    requires EntryTag(sep) && sep[1] != 'm'
    ensures AllPass(MIRROR_HEAD, sep)
  {
    MirrorTagsShape();
    EntryTagShape(sep);
    TagPasses("\n  ", "<mirrors>", sep);
    TagPasses("\n    ", "<mirror>", sep);
    TagPasses("\n      ", "<mirrorOf>external:*", sep);
    MirrorIdIsConstant();
    ConstantPasses(Text("\n      ", "<id>mirror-central"), sep);
    ConstantPasses(Text("", "</id>"), sep);
    FivePass(Text("\n  ", "<mirrors>"), Text("\n    ", "<mirror>"), Text("\n      ", "<id>mirror-central"),
             Text("", "</id>"), Text("\n      ", "<mirrorOf>external:*"), sep);
  }

  lemma MirrorUrlPasses(url: string, sep: string)
    requires NoOpening(url) && EntryTag(sep)
    ensures AllPass(MirrorUrl(url), sep)
  {
    FieldTags();
    EntryTagShape(sep);
    ValuePasses("\n      ", "<url>", url, sep);
    MirrorFootIsConstant();
    ConstantsPass(MIRROR_FOOT, sep);
    PassConcat([Text("\n      ", "<url>" + url)], MIRROR_FOOT, sep);
  }

  lemma FrontPasses(url: string, rs: seq<Repository>, sep: string)
    requires Readable(url, rs) && EntryTag(sep) && (url != "" ==> sep[1] != 'm')
    ensures AllPass(Front(url, rs), sep)
  {
    MainIsConstant();
    ConstantsPass(HEAD, sep);
    ConstantsPass(GAP, sep);
    MarkPasses(MIRROR_MARK, sep);
    MarkPasses(MIRROR_OF_END, sep);
    if url != "" {
      MirrorHeadPasses(sep);
      IgnoreListPasses(rs, sep);
      MirrorUrlPasses(url, sep);
      PassConcat(MIRROR_HEAD, IgnoreList(rs), sep);
      PassConcat(MIRROR_HEAD + IgnoreList(rs), [Mark(MIRROR_OF_END)], sep);
      PassConcat(MIRROR_HEAD + IgnoreList(rs) + [Mark(MIRROR_OF_END)], MirrorUrl(url), sep);
    }
    PassConcat(HEAD, MirrorSection(url, rs), sep);
    PassConcat(HEAD + MirrorSection(url, rs), GAP, sep);
  }

  lemma ProfileTags()
    ensures Tag("<profiles>") && Tag("<profile>")
    ensures |"<profiles>"| > 2 && "<profiles>"[1] == 'p' && "<profiles>"[2] == 'r'
    ensures |"<profile>"| > 2 && "<profile>"[1] == 'p' && "<profile>"[2] == 'r'
  {
  }

  lemma ProfileTagsPass(sep: string)
    requires EntryTag(sep) && sep != "<profile>"
    ensures Passes(Text("\n  ", "<profiles>"), sep) && Passes(Text("\n    ", "<profile>"), sep)
  {
    ProfileTags();
    EntryTagShape(sep);
    var k := if sep[1] != 'p' then 1 else 2;
    ApartAt("<profiles>", sep, k);
    ApartAt("<profile>", sep, k);
  }

  lemma ProfileIdPasses(sep: string)
    requires EntryTag(sep)
    ensures Passes(Text("\n      ", "<id>default"), sep) && Passes(Text("", "</id>"), sep)
  {
    ProfileIdIsConstant();
    ConstantPasses(Text("\n      ", "<id>default"), sep);
    ConstantPasses(Text("", "</id>"), sep);
  }

  lemma ProfilesStartPasses(sep: string)
    requires EntryTag(sep) && sep != "<profile>"
    ensures AllPass(PROFILES_START, sep)
  {
    ProfileTagsPass(sep);
    ProfileIdPasses(sep);
    FivePass(Text("\n  ", "<profiles>"), Text("\n    ", "<profile>"), Text("\n      ", "<id>default"),
             Text("", "</id>"), Text("", "</id>"), sep);
    assert forall t :: t in PROFILES_START ==> t in PROFILES_START + [Text("", "</id>")];
  }

  lemma StartPasses(url: string, rs: seq<Repository>, sep: string)
    requires Readable(url, rs) && EntryTag(sep) && sep != "<profile>" && (url != "" ==> sep[1] != 'm')
    ensures AllPass(Front(url, rs) + PROFILES_START, sep)
  {
    FrontPasses(url, rs, sep);
    ProfilesStartPasses(sep);
    PassConcat(Front(url, rs), PROFILES_START, sep);
  }

  lemma RepositoriesTagPasses(sep: string)
    requires EntryTag(sep) && sep[1] != 'r' && sep != "<profile>"
    ensures AllPass(PROFILES_HEAD, sep)
  {
    EntryTagShape(sep);
    ListTagsShape();
    TagPasses("\n      ", "<repositories>\n      ", sep);
    ProfilesStartPasses(sep);
    PassConcat(PROFILES_START, [Text("\n      ", "<repositories>\n      ")], sep);
  }

  /** The document up to the end of the repositories. */
  lemma RepositoriesPass(url: string, rs: seq<Repository>, sep: string)
    requires Readable(url, rs) && EntryTag(sep) && sep[1] != 'r' && sep != "<profile>" && (url != "" ==> sep[1] != 'm')
    ensures AllPass(Front(url, rs) + Repositories(rs) + [Mark(REPOS_END)], sep)
  {
    FrontPasses(url, rs, sep);
    RepositoriesTagPasses(sep);
    RepositoryListPasses(rs, sep);
    MarkPasses(REPOS_END, sep);
    PassConcat(PROFILES_HEAD, RepositoryList(rs), sep);
    FourPass(Front(url, rs), Repositories(rs), [Mark(REPOS_END)], [], sep);
    assert Front(url, rs) + Repositories(rs) + [Mark(REPOS_END)] + []
        == Front(url, rs) + Repositories(rs) + [Mark(REPOS_END)];
  }

  lemma ListTagsShape()
    ensures Tag("<repositories>\n      ") && "<repositories>\n      "[1] == 'r'
    ensures Tag("<pluginRepositories>\n      ") && "<pluginRepositories>\n      "[1] == 'p'
  {
  }

  // ---------- The lists read back ----------

  lemma {:induction false} ShowFree(doc: seq<Token>, m: string)
    requires IsMark(m) && AllStart(doc) && AllFree(doc, m) && NoMark(doc, m)
    ensures !Contains(Show(doc), m)
    decreases |doc|
  {
    if doc == [] {
      MarkShape(m);
    } else {
      ShowFree(doc[1..], m);
      ShowStart(doc[1..], m);
      assert Starts(doc[0]) && Free(doc[0], m);
      if doc[0].Mark? {
        OtherMarkIsQuiet(m, doc[0].m);
      }
      ContainsInParts(ShowToken(doc[0]), Show(doc[1..]), m);
    }
  }

  lemma ReadableIsFree(rs: seq<Repository>, m: string)
    requires Readable("", rs) && IsMark(m)
    ensures ReposFree(rs, m)
  {
    forall r | r in rs
      ensures RepoFree(r, m)
    {
      WithoutOpening(r.id, m);
      WithoutOpening(r.url, m);
    }
  }

  lemma ReadableIsSafe(url: string, rs: seq<Repository>)
    requires Readable(url, rs)
    ensures Safe(url, rs)
  {
    assert IsMark(PROFILES_MARK) && IsMark(REPOS_END) && IsMark(PLUGINS_END) && IsMark(MIRROR_OF_END);
    WithoutOpening(url, PROFILES_MARK);
    WithoutOpening(url, REPOS_END);
    WithoutOpening(url, PLUGINS_END);
    WithoutOpening(url, MIRROR_OF_END);
    forall k | 0 <= k < |rs|
      ensures RepoSafe(rs, k)
    {
      assert rs[k] in rs;
      ReadableIsFree(rs, PLUGINS_END);
      ReadableIsFree(rs, REPOS_END);
      ReadableIsFree(rs, MIRROR_OF_END);
    }
  }

  /** A list in the document, with what stands before and behind it. */
  lemma ShowSection(
    front: seq<Token>, ws: string, open: string, gap: string, list: seq<Token>, m: string, back: seq<Token>)
    ensures Show(front + ([Text(ws, open + gap)] + list) + [Mark(m)] + back)
         == Show(front) + (ws + (open + ((gap + Show(list)) + (m + Show(back)))))
  {
    var head := [Text(ws, open + gap)];
    ShowConcat(front + (head + list) + [Mark(m)], back);
    ShowConcat(front + (head + list), [Mark(m)]);
    ShowConcat(front, head + list);
    ShowConcat(head, list);
    ShowSingle(head[0]);
    ShowOne(m);
    SectionAssoc(Show(front), ws, open, gap, Show(list), m, Show(back));
  }

  lemma SectionAssoc(a: string, ws: string, open: string, gap: string, l: string, m: string, b: string)
    ensures a + (ws + (open + gap) + l) + m + b == a + (ws + (open + ((gap + l) + (m + b))))
  {
    ConcatAssoc(open, gap, l);
    ConcatAssoc(ws, open + gap, l);
    ConcatAssoc(open, gap + l, m + b);
    ConcatAssoc(ws, open + (gap + l), m + b);
    ConcatAssoc(a, ws + (open + (gap + l)), m + b);
    ConcatAssoc(a + (ws + (open + (gap + l))), m, b);
  }

  lemma GapFree(list: seq<Token>, m: string)
    requires IsMark(m) && AllStart(list) && AllFree(list, m) && NoMark(list, m)
    ensures !Contains("\n      " + Show(list), m)
  {
    ShowFree(list, m);
    MarkShape(m);
    ContainsBehind("\n      ", Show(list), m);
  }

  lemma SplitEntries(es: seq<seq<Token>>, bodies: seq<seq<Token>>, sep: string) returns (pieces: seq<string>)
    requires |es| == |bodies| && Tag(sep)
    requires forall i :: 0 <= i < |es| ==> es[i] == [Text("\n", sep)] + bodies[i] && AllPass(bodies[i], sep)
    ensures pieces == Split("\n      " + Show(Concat(es)), sep) && |pieces| == |es| + 1 && Start(bodies, pieces)
  {
    var gap := [Text("\n      ", "")];
    var before, last := EntriesSplit(gap, es, bodies, "", sep);
    ShowConcat(gap, Concat(es));
    ShowSingle(gap[0]);
    assert "\n      " + "" == "\n      ";
    assert Show(gap + Concat(es)) + "" == "\n      " + Show(Concat(es));
    pieces := before + Push(last, Split("", sep));
    assert last + "" == last;
  }

  lemma BodyStarts(r: Repository, close: string, piece: string)
    requires Show(Body(r, close)) <= piece
    ensures Show(Content(r)) <= piece
  {
    ShowConcat(Content(r), [Text("", close)]);
  }

  lemma ListsAreClosedOnce(rs: seq<Repository>)
    requires Readable("", rs)
    ensures !Contains("\n      " + Show(RepositoryList(rs)), REPOS_END)
    ensures !Contains("\n      " + Show(PluginList(rs)), PLUGINS_END)
  {
    ListsFree(rs, REPOS_END);
    ReadableIsFree(rs, REPOS_END);
    GapFree(RepositoryList(rs), REPOS_END);
    ListsFree(rs, PLUGINS_END);
    ReadableIsFree(rs, PLUGINS_END);
    GapFree(PluginList(rs), PLUGINS_END);
  }

  lemma GeneratedStage(url: string, rs: seq<Repository>)
    requires Readable(url, rs) && rs != []
    ensures Generated(url, rs) == Show(Stage(url, rs, rs, rs))
  {
    ReadableIsSafe(url, rs);
    GeneratedIsDocumentIffSafe(url, rs);
  }

  lemma HeadIsStartAndTag()
    ensures PROFILES_HEAD == PROFILES_START + [Text("\n      ", "<repositories>" + "\n      ")]
  {
    assert "<repositories>" + "\n      " == "<repositories>\n      ";
  }

  lemma RepositoryText(url: string, rs: seq<Repository>)
    requires Readable(url, rs) && rs != []
    ensures Generated(url, rs)
         == Show(Front(url, rs) + PROFILES_START)
            + ("\n      " + ("<repositories>" + (("\n      " + Show(RepositoryList(rs)))
            + (REPOS_END + Show(Plugins(rs) + [Mark(PLUGINS_END)] + BACK)))))
  {
    GeneratedStage(url, rs);
    HeadIsStartAndTag();
    RepositoriesAt(Front(url, rs), PROFILES_START, [Text("\n      ", "<repositories>" + "\n      ")],
                   RepositoryList(rs));
    ShowSection(Front(url, rs) + PROFILES_START, "\n      ", "<repositories>", "\n      ", RepositoryList(rs),
                REPOS_END, Plugins(rs) + [Mark(PLUGINS_END)] + BACK);
  }

  lemma RepositoriesAt(f: seq<Token>, start: seq<Token>, head: seq<Token>, list: seq<Token>)
    ensures f + (start + head + list) == f + start + (head + list)
  {
    ConcatAssoc(start, head, list);
    ConcatAssoc(f, start, head + list);
  }

  lemma MarkIsTag(m: string)
    requires IsMark(m)
    ensures Tag(m)
  {
    MarkShape(m);
  }

  lemma ListBetween(g: string, front: seq<Token>, open: string, v: string, close: string, rest: string)
    requires EntryTag(open) && IsMark(close) && AllPass(front, open) && !Contains(v, close)
    requires g == Show(front) + ("\n      " + (open + (v + (close + rest))))
    ensures Between(g, open, close) == v
  {
    EntryTagShape(open);
    MarkIsTag(close);
    GapIsPlain();
    SectionBetween(front, "\n      ", open, v, close, rest);
  }

  lemma RepositorySection(url: string, rs: seq<Repository>)
    requires Readable(url, rs) && rs != []
    ensures Between(Generated(url, rs), "<repositories>", REPOS_END) == "\n      " + Show(RepositoryList(rs))
  {
    EntryTagShape("<repositories>");
    StartPasses(url, rs, "<repositories>");
    ListsAreClosedOnce(rs);
    RepositoryText(url, rs);
    ListBetween(Generated(url, rs), Front(url, rs) + PROFILES_START, "<repositories>",
                "\n      " + Show(RepositoryList(rs)), REPOS_END, Show(Plugins(rs) + [Mark(PLUGINS_END)] + BACK));
  }

  lemma PluginsAt(front: seq<Token>, middle: seq<Token>, list: seq<Token>, end: seq<Token>, back: seq<Token>)
    ensures front + (middle + list + end + back) == front + (middle + list) + end + back
  {
    ConcatAssoc(front, middle + list + end, back);
    ConcatAssoc(front, middle + list, end);
  }

  lemma MiddleIsOneTag()
    ensures PROFILES_MIDDLE == [Text("\n      ", "<pluginRepositories>" + "\n      ")]
  {
    assert "<pluginRepositories>" + "\n      " == "<pluginRepositories>\n      ";
  }

  lemma PluginText(url: string, rs: seq<Repository>)
    requires Readable(url, rs) && rs != []
    ensures Generated(url, rs)
         == Show(Front(url, rs) + Repositories(rs) + [Mark(REPOS_END)])
            + ("\n      " + ("<pluginRepositories>" + (("\n      " + Show(PluginList(rs)))
            + (PLUGINS_END + Show(BACK)))))
  {
    var front := Front(url, rs) + Repositories(rs) + [Mark(REPOS_END)];
    GeneratedStage(url, rs);
    PluginsAt(front, PROFILES_MIDDLE, PluginList(rs), [Mark(PLUGINS_END)], BACK);
    MiddleIsOneTag();
    ShowSection(front, "\n      ", "<pluginRepositories>", "\n      ", PluginList(rs), PLUGINS_END, BACK);
  }

  lemma PluginSection(url: string, rs: seq<Repository>)
    requires Readable(url, rs) && rs != []
    ensures Between(Generated(url, rs), "<pluginRepositories>", PLUGINS_END) == "\n      " + Show(PluginList(rs))
  {
    EntryTagShape("<pluginRepositories>");
    RepositoriesPass(url, rs, "<pluginRepositories>");
    ListsAreClosedOnce(rs);
    PluginText(url, rs);
    ListBetween(Generated(url, rs), Front(url, rs) + Repositories(rs) + [Mark(REPOS_END)], "<pluginRepositories>",
                "\n      " + Show(PluginList(rs)), PLUGINS_END, Show(BACK));
  }

  /** Without repositories there is no list to read. */
  lemma NoListTag(url: string, sep: string)
    requires NoOpening(url) && EntryTag(sep) && (url != "" ==> sep[1] != 'm')
    ensures Split(Generated(url, []), sep) == [Generated(url, [])]
  {
    var doc := Document(url, []);
    EntryTagShape(sep);
    ReadableIsSafe(url, []);
    GeneratedIsDocumentIffSafe(url, []);
    FrontPasses(url, [], sep);
    MarkPasses(PROFILES_MARK, sep);
    MainIsConstant();
    ConstantsPass(FOOT, sep);
    PassConcat(Front(url, []), [Mark(PROFILES_MARK)], sep);
    PassConcat(Front(url, []) + [Mark(PROFILES_MARK)], FOOT, sep);
    SplitPastTokens(doc, "", sep);
    assert Show(doc) + "" == Show(doc);
  }

  lemma RepositoryBodies(rs: seq<Repository>) returns (es: seq<seq<Token>>, bodies: seq<seq<Token>>)
    requires Readable("", rs)
    ensures |es| == |bodies| == |rs| && Concat(es) == RepositoryList(rs)
    ensures forall i :: 0 <= i < |rs| ==>
              && bodies[i] == Body(rs[i], "</repository>\n")
              && es[i] == [Text("\n", "<repository>")] + bodies[i] && AllPass(bodies[i], "<repository>")
  {
    es := seq(|rs|, i requires 0 <= i < |rs| => RepositoryEntry(rs[i]));
    bodies := seq(|rs|, i requires 0 <= i < |rs| => Body(rs[i], "</repository>\n"));
    forall i | 0 <= i < |rs|
      ensures es[i] == [Text("\n", "<repository>")] + bodies[i] && AllPass(bodies[i], "<repository>")
    {
      assert rs[i] in rs;
      EntryIsBody(rs[i]);
      BodiesPass(rs[i], "<repository>");
    }
  }

  lemma PluginBodies(rs: seq<Repository>) returns (es: seq<seq<Token>>, bodies: seq<seq<Token>>)
    requires Readable("", rs)
    ensures |es| == |bodies| == |rs| && Concat(es) == PluginList(rs)
    ensures forall i :: 0 <= i < |rs| ==>
              && bodies[i] == Body(rs[i], "</pluginRepository>\n")
              && es[i] == [Text("\n", "<pluginRepository>")] + bodies[i] && AllPass(bodies[i], "<pluginRepository>")
  {
    es := seq(|rs|, i requires 0 <= i < |rs| => PluginEntry(rs[i]));
    bodies := seq(|rs|, i requires 0 <= i < |rs| => Body(rs[i], "</pluginRepository>\n"));
    forall i | 0 <= i < |rs|
      ensures es[i] == [Text("\n", "<pluginRepository>")] + bodies[i] && AllPass(bodies[i], "<pluginRepository>")
    {
      assert rs[i] in rs;
      EntryIsBody(rs[i]);
      BodiesPass(rs[i], "<pluginRepository>");
    }
  }

  /** The list of repositories in the generated text has one entry for each repository, in order, and in each
      entry id, name and URL are the repository's id, its id again, and its URL. */
  lemma RepositoriesReadBack(url: string, rs: seq<Repository>)
    requires Readable(url, rs)
    ensures var entries := Split(Between(Generated(url, rs), "<repositories>", "</repositories>"), "<repository>");
      |entries| == |rs| + 1 && forall k :: 0 <= k < |rs| ==> Reads(entries[k + 1], rs[k])
  {
    if rs == [] {
      RepositoryTagShape("<repositories>");
      NoListTag(url, "<repositories>");
    } else {
      RepositorySection(url, rs);
      RepositoryTagShape("<repository>");
      var es, bodies := RepositoryBodies(rs);
      var pieces := SplitEntries(es, bodies, "<repository>");
      EntriesRead(rs, bodies, pieces, "</repository>\n");
    }
  }

  /** So has the list of plugin repositories. */
  lemma PluginRepositoriesReadBack(url: string, rs: seq<Repository>)
    requires Readable(url, rs)
    ensures var entries := Split(Between(Generated(url, rs), "<pluginRepositories>", "</pluginRepositories>"),
                                 "<pluginRepository>");
      |entries| == |rs| + 1 && forall k :: 0 <= k < |rs| ==> Reads(entries[k + 1], rs[k])
  {
    if rs == [] {
      PluginTagShape("<pluginRepositories>");
      NoListTag(url, "<pluginRepositories>");
    } else {
      PluginSection(url, rs);
      PluginTagShape("<pluginRepository>");
      var es, bodies := PluginBodies(rs);
      var pieces := SplitEntries(es, bodies, "<pluginRepository>");
      EntriesRead(rs, bodies, pieces, "</pluginRepository>\n");
    }
  }

  lemma EntriesRead(rs: seq<Repository>, bodies: seq<seq<Token>>, pieces: seq<string>, close: string)
    requires Readable("", rs) && |bodies| == |rs| && Start(bodies, pieces)
    requires forall k :: 0 <= k < |rs| ==> bodies[k] == Body(rs[k], close)
    ensures forall k :: 0 <= k < |rs| ==> Reads(pieces[k + 1], rs[k])
  {
    forall k | 0 <= k < |rs|
      ensures Reads(pieces[k + 1], rs[k])
    {
      assert rs[k] in rs;
      assert Show(bodies[k]) <= pieces[k + 1];
      BodyStarts(rs[k], close, pieces[k + 1]);
      ReadContent(rs[k], Show(Content(rs[k])), pieces[k + 1]);
    }
  }

  // ---------- The mirror reads back ----------

  /** The exclusions of the mirror. */
  function Exclusions(rs: seq<Repository>): seq<string> {
    if rs == [] then []
    else
      var r := rs[|rs| - 1];
      Exclusions(rs[..|rs| - 1]) + if r.ignoreInMirror then ["!" + r.id] else []
  }

  lemma {:induction false} JoinSnoc(parts: seq<string>, x: string, sep: string)
    requires parts != []
    ensures Join(parts + [x], sep) == Join(parts, sep) + (sep + x)
    decreases |parts|
  {
    if |parts| == 1 {
      assert (parts + [x])[1..] == [x];
      ConcatAssoc(parts[0], sep, x);
    } else {
      JoinSnoc(parts[1..], x, sep);
      assert (parts + [x])[1..] == parts[1..] + [x];
      ConcatAssoc(parts[0] + sep, Join(parts[1..], sep), sep + x);
    }
  }

  lemma {:induction false} IgnoredText(rs: seq<Repository>)
    ensures "external:*" + Show(IgnoreList(rs)) == Join(["external:*"] + Exclusions(rs), ",")
    decreases |rs|
  {
    if rs == [] {
      assert IgnoreList(rs) == [];
      assert ["external:*"] + [] == ["external:*"];
    } else {
      var first, r := rs[..|rs| - 1], rs[|rs| - 1];
      assert rs == first + [r];
      IgnoredText(first);
      ListsSnoc(first, r);
      ShowConcat(IgnoreList(first), IgnoreEntry(r));
      if r.ignoreInMirror {
        ShowSingle(Text(",!", r.id));
        IgnoredNext("external:*", Show(IgnoreList(first)), r.id);
        ConcatAssoc(["external:*"], Exclusions(first), ["!" + r.id]);
        JoinSnoc(["external:*"] + Exclusions(first), "!" + r.id, ",");
      } else {
        assert Exclusions(rs) == Exclusions(first) + [] == Exclusions(first);
        assert Show(IgnoreList(first)) + Show([]) == Show(IgnoreList(first));
      }
    }
  }

  lemma IgnoredNext(a: string, l: string, id: string)
    ensures a + (l + (",!" + id)) == (a + l) + ("," + ("!" + id))
  {
    assert ",!" == "," + "!";
    ConcatAssoc(",", "!", id);
    ConcatAssoc(a, l, ",!" + id);
  }

  /** The mirror's tokens in front of its exclusions. */
  const MIRRORS := [Text("\n  ", "<mirrors>")]
  const MIRROR := [Text("\n    ", "<mirror>")]
  const MIRROR_ID := [Text("\n      ", "<id>mirror-central"), Text("", "</id>")]
  const MIRROR_OF := [Text("\n      ", "<mirrorOf>" + "external:*")]

  lemma MirrorParts()
    ensures MIRROR_HEAD == MIRRORS + MIRROR + MIRROR_ID + MIRROR_OF
  {
    assert "<mirrorOf>" + "external:*" == "<mirrorOf>external:*";
  }

  lemma MirrorText(url: string, rs: seq<Repository>) returns (x: string)
    requires Readable(url, rs) && url != ""
    ensures Generated(url, rs)
         == Show(HEAD + (MIRROR_HEAD + IgnoreList(rs) + [Mark(MIRROR_OF_END)] + MirrorUrl(url))) + x
  {
    var more := if rs == [] then [Mark(PROFILES_MARK)] + FOOT
                else Repositories(rs) + [Mark(REPOS_END)] + (Plugins(rs) + [Mark(PLUGINS_END)] + BACK);
    ReadableIsSafe(url, rs);
    GeneratedIsDocumentIffSafe(url, rs);
    DocumentFront(url, rs, more);
    ShowConcat(Front(url, rs), more);
    ShowConcat(HEAD + MirrorSection(url, rs), GAP);
    x := Show(GAP) + Show(more);
    ConcatAssoc(Show(HEAD + MirrorSection(url, rs)), Show(GAP), Show(more));
  }

  lemma DocumentFront(url: string, rs: seq<Repository>, more: seq<Token>)
    requires more == if rs == [] then [Mark(PROFILES_MARK)] + FOOT
                     else Repositories(rs) + [Mark(REPOS_END)] + (Plugins(rs) + [Mark(PLUGINS_END)] + BACK)
    ensures Document(url, rs) == Front(url, rs) + more
  {
    if rs == [] {
      ConcatAssoc(Front(url, []), [Mark(PROFILES_MARK)], FOOT);
    } else {
      var back := Plugins(rs) + [Mark(PLUGINS_END)] + BACK;
      ConcatAssoc(Front(url, rs), Repositories(rs) + [Mark(REPOS_END)], back);
      ConcatAssoc(Front(url, rs), Repositories(rs), [Mark(REPOS_END)]);
    }
  }

  lemma MirrorTagsApart()
    ensures Tag("<mirrors>") && Tag("<mirror>") && Apart("<mirrors>", "<mirror>")
    ensures Apart("<mirrors>", "<mirrorOf>") && Apart("<mirror>", "<mirrorOf>")
  {
    assert "<mirrors>"[7] == 's' && "<mirror>"[7] == '>' && "<mirrorOf>"[7] == 'O';
    ApartAt("<mirrors>", "<mirror>", 7);
    ApartAt("<mirrors>", "<mirrorOf>", 7);
    ApartAt("<mirror>", "<mirrorOf>", 7);
  }

  lemma BeforeMirrorPasses(sep: string)
    requires sep == "<mirror>" || sep == "<mirrorOf>"
    ensures AllPass(HEAD + MIRRORS, sep)
  {
    MirrorTagsApart();
    MainIsConstant();
    ConstantsPass(HEAD, sep);
    PassConcat(HEAD, MIRRORS, sep);
  }

  lemma MirrorTagsPass()
    ensures AllPass(MIRRORS, "<mirrorOf>") && AllPass(MIRROR, "<mirrorOf>")
  {
    MirrorTagsApart();
  }

  lemma MirrorIdPasses(sep: string)
    requires EntryTag(sep)
    ensures AllPass(MIRROR_ID, sep)
  {
    MirrorIdIsConstant();
    ConstantPasses(MIRROR_ID[0], sep);
    ConstantPasses(MIRROR_ID[1], sep);
  }

  lemma BeforeMirrorOfPasses()
    ensures AllPass(HEAD + MIRRORS + MIRROR + MIRROR_ID, "<mirrorOf>")
  {
    MainIsConstant();
    ConstantsPass(HEAD, "<mirrorOf>");
    MirrorTagsPass();
    MirrorIdPasses("<mirrorOf>");
    FourPass(HEAD, MIRRORS, MIRROR, MIRROR_ID, "<mirrorOf>");
  }

  lemma TailAssoc(a: string, ws: string, open: string, v: string, m: string, b: string, x: string)
    ensures a + (ws + (open + (v + (m + b)))) + x == a + (ws + (open + (v + (m + (b + x)))))
  {
    ConcatAssoc(m, b, x);
    ConcatAssoc(v, m + b, x);
    ConcatAssoc(open, v + (m + b), x);
    ConcatAssoc(ws, open + (v + (m + b)), x);
    ConcatAssoc(a, ws + (open + (v + (m + b))), x);
  }

  lemma MirrorOfAssoc(h: seq<Token>, a: seq<Token>, b: seq<Token>, c: seq<Token>, d: seq<Token>, l: seq<Token>,
                      m: seq<Token>, u: seq<Token>)
    ensures h + (a + b + c + d + l + m + u) == (h + a + b + c) + (d + l) + m + u
  {
  }

  lemma MirrorAssoc(h: seq<Token>, a: seq<Token>, b: seq<Token>, c: seq<Token>, d: seq<Token>, l: seq<Token>,
                    m: seq<Token>, u: seq<Token>)
    ensures h + (a + b + c + d + l + m + u) == (h + a) + (b + (c + d + l + m + u))
  {
  }

  lemma ExternalIsPlain()
    ensures NoOpening("external:*")
  {
  }

  lemma ExclusionsAreClosedOnce(rs: seq<Repository>)
    requires Readable("", rs)
    ensures !Contains("external:*" + Show(IgnoreList(rs)), MIRROR_OF_END)
  {
    IgnoreListFree(rs, MIRROR_OF_END);
    ReadableIsFree(rs, MIRROR_OF_END);
    ShowFree(IgnoreList(rs), MIRROR_OF_END);
    MarkShape(MIRROR_OF_END);
    ExternalIsPlain();
    ContainsBehind("external:*", Show(IgnoreList(rs)), MIRROR_OF_END);
  }

  /** The mirror excludes exactly the ignored repositories. */
  lemma MirrorOfReadsBack(url: string, rs: seq<Repository>)
    requires Readable(url, rs) && url != ""
    ensures Between(Generated(url, rs), "<mirrorOf>", "</mirrorOf>") == Join(["external:*"] + Exclusions(rs), ",")
  {
    var front := HEAD + MIRRORS + MIRROR + MIRROR_ID;
    var x := MirrorText(url, rs);
    MirrorParts();
    MirrorOfAssoc(HEAD, MIRRORS, MIRROR, MIRROR_ID, MIRROR_OF, IgnoreList(rs), [Mark(MIRROR_OF_END)], MirrorUrl(url));
    ShowSection(front, "\n      ", "<mirrorOf>", "external:*", IgnoreList(rs), MIRROR_OF_END, MirrorUrl(url));
    TailAssoc(Show(front), "\n      ", "<mirrorOf>", "external:*" + Show(IgnoreList(rs)), MIRROR_OF_END,
              Show(MirrorUrl(url)), x);
    BeforeMirrorOfPasses();
    ExclusionsAreClosedOnce(rs);
    ListBetween(Generated(url, rs), front, "<mirrorOf>", "external:*" + Show(IgnoreList(rs)), MIRROR_OF_END,
                Show(MirrorUrl(url)) + x);
    IgnoredText(rs);
  }

  lemma ShowMirror(front: seq<Token>, rest: seq<Token>, x: string)
    ensures Show(front + (MIRROR + rest)) + x == Show(front) + ("\n    " + ("<mirror>" + (Show(rest) + x)))
  {
    ShowConcat(front, MIRROR + rest);
    ShowConcat(MIRROR, rest);
    ShowSingle(MIRROR[0]);
    EntryAssoc(Show(front), "\n    ", "<mirror>", Show(rest), x);
  }

  lemma MirrorIndentIsPlain()
    ensures NoOpening("\n    ") && Tag("<mirror>")
  {
  }

  lemma BehindMirror(url: string, rs: seq<Repository>) returns (x: string)
    requires Readable(url, rs) && url != ""
    ensures Behind(Generated(url, rs), "<mirror>")
         == Show(MIRROR_ID + MIRROR_OF + IgnoreList(rs) + [Mark(MIRROR_OF_END)] + MirrorUrl(url)) + x
  {
    var rest := MIRROR_ID + MIRROR_OF + IgnoreList(rs) + [Mark(MIRROR_OF_END)] + MirrorUrl(url);
    x := MirrorText(url, rs);
    MirrorParts();
    MirrorAssoc(HEAD, MIRRORS, MIRROR, MIRROR_ID, MIRROR_OF, IgnoreList(rs), [Mark(MIRROR_OF_END)], MirrorUrl(url));
    ShowMirror(HEAD + MIRRORS, rest, x);
    BeforeMirrorPasses("<mirror>");
    MirrorIndentIsPlain();
    BehindTokens(HEAD + MIRRORS, "\n    ", "<mirror>", Show(rest) + x);
  }

  lemma BeforeUrlPasses(rs: seq<Repository>)
    requires Readable("", rs)
    ensures AllPass(MIRROR_ID + MIRROR_OF + IgnoreList(rs) + [Mark(MIRROR_OF_END)], "<url>")
  {
    FieldTags();
    UrlApart();
    IgnoreListPasses(rs, "<url>");
    PassConcat(MIRROR_ID, MIRROR_OF, "<url>");
    PassConcat(MIRROR_ID + MIRROR_OF, IgnoreList(rs), "<url>");
    PassConcat(MIRROR_ID + MIRROR_OF + IgnoreList(rs), [Mark(MIRROR_OF_END)], "<url>");
  }

  lemma MirrorIdApart()
    ensures AllPass(MIRROR_ID, "<url>")
  {
    assert "<url>"[1] == 'u' && "<id>mirror-central"[1] == 'i' && "</id>"[1] == '/';
    TagPasses("\n      ", "<id>mirror-central", "<url>");
    TagPasses("", "</id>", "<url>");
  }

  lemma UrlApart()
    ensures AllPass(MIRROR_ID, "<url>") && AllPass(MIRROR_OF, "<url>") && AllPass([Mark(MIRROR_OF_END)], "<url>")
  {
    MirrorIdApart();
    assert "<url>"[1] == 'u' && MIRROR_OF_END[1] == '/';
    MirrorOfTag();
    TagPasses("\n      ", "<mirrorOf>" + "external:*", "<url>");
    MarkIsTag(MIRROR_OF_END);
    ApartAt(MIRROR_OF_END, "<url>", 1);
  }

  lemma MirrorOfTag()
    ensures Tag("<mirrorOf>" + "external:*") && ("<mirrorOf>" + "external:*")[1] == 'm'
  {
  }

  /** The URL in the mirror is the one that was set. */
  lemma MirrorUrlReadsBack(url: string, rs: seq<Repository>)
    requires Readable(url, rs) && url != ""
    ensures Between(Behind(Generated(url, rs), "<mirror>"), "<url>", "</url>") == url
  {
    var front := MIRROR_ID + MIRROR_OF + IgnoreList(rs) + [Mark(MIRROR_OF_END)];
    var ends := [Text("\n    ", "</mirror>"), Text("\n  ", "</mirrors>")];
    var x := BehindMirror(url, rs);
    FieldTags();
    GapIsPlain();
    BeforeUrlPasses(rs);
    assert MirrorUrl(url) == [Text("\n      ", "<url>" + url), Text("", "</url>")] + ends;
    ConcatAssoc(front, [Text("\n      ", "<url>" + url), Text("", "</url>")], ends);
    ReadField(Behind(Generated(url, rs), "<mirror>"), front + MirrorUrl(url), x,
              front, "\n      ", "<url>", url, "</url>", ends);
  }

  lemma ActiveTags()
    ensures Tag("<activeProfiles>") && Tag("<activeProfile>" + "default")
    ensures "<activeProfiles>"[1] == 'a' && ("<activeProfile>" + "default")[1] == 'a'
  {
  }

  const ACTIVE := [Text("\n    ", "<activeProfile>" + "default"), Text("", "</activeProfile>")]

  lemma ActiveParts()
    ensures ACTIVE_PROFILES == [Text("\n  ", "<activeProfiles>")] + ACTIVE + [Text("\n  ", "</activeProfiles>")]
  {
    assert "<activeProfile>" + "default" == "<activeProfile>default";
  }

  lemma ActivePasses(sep: string)
    requires EntryTag(sep) && sep[1] != 'a'
    ensures AllPass(ACTIVE_PROFILES, sep)
  {
    ActiveOpeningsPass(sep);
    ActiveEndsAreConstant();
    ConstantPasses(Text("", "</activeProfile>"), sep);
    ConstantPasses(Text("\n  ", "</activeProfiles>"), sep);
    ActiveParts();
    ThreePass([Text("\n  ", "<activeProfiles>")], ACTIVE, [Text("\n  ", "</activeProfiles>")], sep);
  }

  lemma ActiveOpeningsPass(sep: string)
    requires EntryTag(sep) && sep[1] != 'a'
    ensures Passes(Text("\n  ", "<activeProfiles>"), sep) && Passes(ACTIVE[0], sep)
  {
    ActiveTags();
    EntryTagShape(sep);
    TagPasses("\n  ", "<activeProfiles>", sep);
    TagPasses("\n    ", "<activeProfile>" + "default", sep);
  }

  lemma ThreePass(a: seq<Token>, b: seq<Token>, c: seq<Token>, sep: string)
    requires AllPass(a, sep) && AllPass(b, sep) && AllPass(c, sep)
    ensures AllPass(a + b + c, sep)
  {
    PassConcat(a, b, sep);
    PassConcat(a + b, c, sep);
  }

  /** The document from the end of the repositories to the end of the profile. */
  lemma PluginsPass(rs: seq<Repository>, sep: string)
    requires Readable("", rs) && EntryTag(sep) && sep[1] != 'p'
    ensures AllPass(Plugins(rs) + [Mark(PLUGINS_END)] + PROFILES_END, sep)
  {
    EntryTagShape(sep);
    ListTagsShape();
    TagPasses("\n      ", "<pluginRepositories>\n      ", sep);
    PluginListPasses(rs, sep);
    MarkPasses(PLUGINS_END, sep);
    ProfilesFootIsPieces();
    ConstantsPass(PROFILES_END, sep);
    PassConcat(PROFILES_MIDDLE, PluginList(rs), sep);
    PassConcat(Plugins(rs), [Mark(PLUGINS_END)], sep);
    PassConcat(Plugins(rs) + [Mark(PLUGINS_END)], PROFILES_END, sep);
  }

  lemma BackAt(front: seq<Token>, plugins: seq<Token>, end: seq<Token>, active: seq<Token>, foot: seq<Token>)
    ensures front + (plugins + (end + active + foot)) == front + (plugins + end) + (active + foot)
  {
  }

  /** The document in three parts, the active profile in the third. */
  lemma StageByActive(url: string, rs: seq<Repository>)
    ensures Stage(url, rs, rs, rs)
         == Front(url, rs) + Repositories(rs) + [Mark(REPOS_END)] + (Plugins(rs) + [Mark(PLUGINS_END)] + PROFILES_END)
            + (ACTIVE_PROFILES + FOOT)
  {
    BackAt(Front(url, rs) + Repositories(rs) + [Mark(REPOS_END)], Plugins(rs) + [Mark(PLUGINS_END)], PROFILES_END,
           ACTIVE_PROFILES, FOOT);
  }

  /** Without a mirror URL there is no mirror. */
  lemma NoMirror(rs: seq<Repository>)
    requires Readable("", rs)
    ensures Split(Generated("", rs), "<mirror>") == [Generated("", rs)]
  {
    EntryTagShape("<mirror>");
    if rs == [] {
      NoListTag("", "<mirror>");
    } else {
      var front := Front("", rs) + Repositories(rs) + [Mark(REPOS_END)];
      var plugins := Plugins(rs) + [Mark(PLUGINS_END)] + PROFILES_END;
      GeneratedStage("", rs);
      StageByActive("", rs);
      RepositoriesPass("", rs, "<mirror>");
      PluginsPass(rs, "<mirror>");
      ActivePasses("<mirror>");
      MainIsConstant();
      ConstantsPass(FOOT, "<mirror>");
      FourPass(front, plugins, ACTIVE_PROFILES, FOOT, "<mirror>");
      ConcatAssoc(front + plugins, ACTIVE_PROFILES, FOOT);
      SplitPastTokens(front + plugins + ACTIVE_PROFILES + FOOT, "", "<mirror>");
      assert Show(front + plugins + ACTIVE_PROFILES + FOOT) + "" == Show(front + plugins + ACTIVE_PROFILES + FOOT);
    }
  }

  // ---------- The profile reads back ----------

  lemma ActiveApart()
    ensures Passes(Text("\n  ", "<activeProfiles>"), "<activeProfile>")
  {
    ActiveTags();
    assert "<activeProfiles>"[14] == 's' && "<activeProfile>"[14] == '>';
    ApartAt("<activeProfiles>", "<activeProfile>", 14);
  }

  lemma ActiveShape()
    ensures Tag("<activeProfile>") && Tag("</activeProfile>") && NoOpening("default") && NoOpening("\n    ")
  {
  }

  lemma ActiveAt(front: seq<Token>, open: seq<Token>, active: seq<Token>, close: seq<Token>, foot: seq<Token>)
    ensures front + (open + active + close + foot) == (front + open) + active + (close + foot)
  {
  }

  /** The document in front of the active profile. */
  function BeforeActive(url: string, rs: seq<Repository>): seq<Token> {
    Front(url, rs) + Repositories(rs) + [Mark(REPOS_END)] + (Plugins(rs) + [Mark(PLUGINS_END)] + PROFILES_END)
    + [Text("\n  ", "<activeProfiles>")]
  }

  lemma BeforeActivePasses(url: string, rs: seq<Repository>)
    requires Readable(url, rs)
    ensures AllPass(BeforeActive(url, rs), "<activeProfile>")
  {
    ProfileTagShape();
    RepositoriesPass(url, rs, "<activeProfile>");
    PluginsPass(rs, "<activeProfile>");
    ActiveApart();
    ThreePass(Front(url, rs) + Repositories(rs) + [Mark(REPOS_END)],
              Plugins(rs) + [Mark(PLUGINS_END)] + PROFILES_END, [Text("\n  ", "<activeProfiles>")], "<activeProfile>");
  }

  lemma StageAroundActive(url: string, rs: seq<Repository>)
    ensures Stage(url, rs, rs, rs)
         == BeforeActive(url, rs) + ACTIVE + ([Text("\n  ", "</activeProfiles>")] + FOOT)
  {
    StageByActive(url, rs);
    ActiveParts();
    ActiveAt(Front(url, rs) + Repositories(rs) + [Mark(REPOS_END)] + (Plugins(rs) + [Mark(PLUGINS_END)] + PROFILES_END),
             [Text("\n  ", "<activeProfiles>")], ACTIVE, [Text("\n  ", "</activeProfiles>")], FOOT);
  }

  lemma NothingBehind(s: string)
    ensures s + "" == s
  {
  }

  lemma ActiveProfileIs(url: string, rs: seq<Repository>)
    requires Readable(url, rs) && rs != []
    ensures Between(Generated(url, rs), "<activeProfile>", "</activeProfile>") == "default"
  {
    GeneratedStage(url, rs);
    BeforeActivePasses(url, rs);
    StageAroundActive(url, rs);
    ActiveShape();
    NothingBehind(Show(Stage(url, rs, rs, rs)));
    ReadField(Generated(url, rs), Stage(url, rs, rs, rs), "", BeforeActive(url, rs), "\n    ", "<activeProfile>",
              "default", "</activeProfile>", [Text("\n  ", "</activeProfiles>")] + FOOT);
  }

  lemma ProfileApart()
    ensures Passes(Text("\n  ", "<profiles>"), "<profile>") && Tag("<profile>")
  {
    ProfileTags();
    assert "<profiles>"[8] == 's' && "<profile>"[8] == '>';
    ApartAt("<profiles>", "<profile>", 8);
  }

  const PROFILE_ID := [Text("\n      ", "<id>" + "default"), Text("", "</id>")]

  lemma StartParts()
    ensures PROFILES_START == [Text("\n  ", "<profiles>")] + [Text("\n    ", "<profile>")] + PROFILE_ID
  {
    assert "<id>" + "default" == "<id>default";
  }

  lemma ProfileAt(f: seq<Token>, a: seq<Token>, b: seq<Token>, id: seq<Token>, head: seq<Token>, list: seq<Token>,
                  back: seq<Token>)
    ensures f + (a + b + id + head + list) + back == (f + a) + (b + (id + (head + list + back)))
  {
  }

  /** The profile with the lists. */
  lemma BehindProfile(url: string, rs: seq<Repository>) returns (rest: seq<Token>)
    requires Readable(url, rs) && rs != []
    ensures Behind(Generated(url, rs), "<profile>") == Show(PROFILE_ID + rest)
  {
    var a, b := [Text("\n  ", "<profiles>")], [Text("\n    ", "<profile>")];
    var head := [Text("\n      ", "<repositories>\n      ")];
    var back := [Mark(REPOS_END)] + (Plugins(rs) + [Mark(PLUGINS_END)] + BACK);
    rest := head + RepositoryList(rs) + back;
    GeneratedStage(url, rs);
    StartParts();
    ConcatAssoc(Front(url, rs) + Repositories(rs), [Mark(REPOS_END)], Plugins(rs) + [Mark(PLUGINS_END)] + BACK);
    ProfileAt(Front(url, rs), a, b, PROFILE_ID, head, RepositoryList(rs), back);
    ProfileApart();
    EntryTagShape("<profile>");
    FrontPasses(url, rs, "<profile>");
    PassConcat(Front(url, rs), a, "<profile>");
    ShowProfile(Front(url, rs) + a, PROFILE_ID + rest);
    MirrorIndentIsPlain();
    BehindTokens(Front(url, rs) + a, "\n    ", "<profile>", Show(PROFILE_ID + rest));
  }

  lemma ShowProfile(front: seq<Token>, rest: seq<Token>)
    ensures Show(front + ([Text("\n    ", "<profile>")] + rest))
         == Show(front) + ("\n    " + ("<profile>" + Show(rest)))
  {
    var open := [Text("\n    ", "<profile>")];
    ShowConcat(front, open + rest);
    ShowConcat(open, rest);
    ShowSingle(open[0]);
    ConcatAssoc("\n    ", "<profile>", Show(rest));
  }

  /** The profile that holds the lists is the active one. */
  lemma ActiveProfileReadsBack(url: string, rs: seq<Repository>)
    requires Readable(url, rs) && rs != []
    ensures Between(Generated(url, rs), "<activeProfile>", "</activeProfile>") == "default"
    ensures Between(Behind(Generated(url, rs), "<profile>"), "<id>", "</id>") == "default"
  {
    ActiveProfileIs(url, rs);
    var rest := BehindProfile(url, rs);
    var profile := Behind(Generated(url, rs), "<profile>");
    FieldTags();
    PolicyTags();
    GapIsPlain();
    assert [] + PROFILE_ID + rest == PROFILE_ID + rest;
    assert Show(PROFILE_ID + rest) + "" == Show(PROFILE_ID + rest);
    ReadField(profile, PROFILE_ID + rest, "", [], "\n      ", "<id>", "default", "</id>", rest);
  }
}
