/**
 Generation of Maven's settings.xml.  The code keeps one growing string and inserts into it with
 strings.ReplaceAll at textual markers; the meaning behind it is a structured document whose lists are
 printed in insertion order.
 */
module MavenSettings {
  import opened Sequences
  import opened GoStrings

  const MIRROR_MARK := "<!-- ### mirror settings ### -->"
  const PROFILES_MARK := "<!-- ### profiles ### -->"
  const REPOS_END := "</repositories>"
  const PLUGINS_END := "</pluginRepositories>"
  const MIRROR_OF_END := "</mirrorOf>"

  predicate IsMark(m: string) {
    m == MIRROR_MARK || m == PROFILES_MARK || m == REPOS_END || m == PLUGINS_END || m == MIRROR_OF_END
  }

  datatype Repository = Repository(id: string, url: string, ignoreInMirror: bool)

  // ---------- Documents as tokens ----------

  /** A piece of the document: text with at most one tag, which ends the white space `ws`, or a marker. */
  datatype Token = Text(ws: string, tag: string) | Mark(m: string)

  function ShowToken(t: Token): string {
    match t
    case Text(ws, tag) => ws + tag
    case Mark(m) => m
  }

  function Show(doc: seq<Token>): string {
    if doc == [] then "" else ShowToken(doc[0]) + Show(doc[1..])
  }

  /** Puts tokens in the place of every marker m. */
  function Insert(doc: seq<Token>, m: string, inserted: seq<Token>): seq<Token> {
    if doc == [] then []
    else (if doc[0] == Mark(m) then inserted else [doc[0]]) + Insert(doc[1..], m, inserted)
  }

  const HEAD_START :=
    [Text("\n", "<settings xmlns=\"http://" + "maven.apache.org/SETTINGS/1.0.0\""),
     Text("\nxmlns:xsi=\"http://www.w3" + ".org/2001/XMLSchema-instance\"", "")]
  const HEAD_END :=
    [Text("\nxsi:schemaLocation=\"http://" + "maven.apache.org/SETTINGS/1.0.0", ""),
     Text("\nhttps://maven.apache.org/xsd" + "/settings-1.0.0.xsd\">\n\n", "")]
  const HEAD := HEAD_START + HEAD_END
  const GAP := [Text("\n\n", "")]
  const FOOT := [Text("\n", "</settings>")]

  /** settingsMainContent */
  const MAIN := HEAD + [Mark(MIRROR_MARK)] + GAP + [Mark(PROFILES_MARK)] + FOOT

  const MIRROR_HEAD :=
    [Text("\n  ", "<mirrors>"), Text("\n    ", "<mirror>"), Text("\n      ", "<id>mirror-central"), Text("", "</id>"),
     Text("\n      ", "<mirrorOf>external:*")]

  const MIRROR_FOOT := [Text("", "</url>"), Text("\n    ", "</mirror>"), Text("\n  ", "</mirrors>")]

  function MirrorUrl(url: string): seq<Token> {
    [Text("\n      ", "<url>" + url)] + MIRROR_FOOT
  }

  /** mavenMirrorXMLContentTpl with its URL */
  function Mirror(url: string): seq<Token> {
    MIRROR_HEAD + [Mark(MIRROR_OF_END)] + MirrorUrl(url)
  }

  const PROFILES_START :=
    [Text("\n  ", "<profiles>"), Text("\n    ", "<profile>"), Text("\n      ", "<id>default"), Text("", "</id>")]
  const PROFILES_HEAD := PROFILES_START + [Text("\n      ", "<repositories>\n      ")]
  const PROFILES_MIDDLE := [Text("\n      ", "<pluginRepositories>\n      ")]
  const PROFILES_END := [Text("\n    ", "</profile>"), Text("\n  ", "</profiles>")]
  const ACTIVE_PROFILES :=
    [Text("\n  ", "<activeProfiles>"), Text("\n    ", "<activeProfile>default"), Text("", "</activeProfile>"),
     Text("\n  ", "</activeProfiles>")]
  const PROFILES_FOOT := PROFILES_END + ACTIVE_PROFILES

  /** profilesXMLContent */
  const PROFILES := PROFILES_HEAD + [Mark(REPOS_END)] + PROFILES_MIDDLE + [Mark(PLUGINS_END)] + PROFILES_FOOT

  const POLICY :=
    [Text("\n        ", "<enabled>true"), Text("", "</enabled>"), Text("\n        ", "<updatePolicy>always"),
     Text("", "</updatePolicy>")]

  const CONTENT_FOOT :=
    [Text("\n      ", "<layout>default"), Text("", "</layout>"), Text("\n      ", "<releases>")] + POLICY
    + [Text("\n      ", "</releases>"), Text("\n      ", "<snapshots>")] + POLICY + [Text("\n      ", "</snapshots>")]

  /** repositoryXMLContentTpl with the repository's id, its id again as the name, and its URL */
  function Content(r: Repository): seq<Token> {
    ContentValues(r) + CONTENT_FOOT
  }

  function Field(open: string, v: string, close: string): seq<Token> {
    [Text("\n      ", open + v), Text("", close)]
  }

  function ContentValues(r: Repository): seq<Token> {
    Field("<id>", r.id, "</id>") + Field("<name>", r.id, "</name>") + Field("<url>", r.url, "</url>")
  }

  function RepositoryEntry(r: Repository): seq<Token> {
    [Text("\n", "<repository>")] + Content(r) + [Text("", "</repository>\n")]
  }

  function PluginEntry(r: Repository): seq<Token> {
    [Text("\n", "<pluginRepository>")] + Content(r) + [Text("", "</pluginRepository>\n")]
  }

  function IgnoreEntry(r: Repository): seq<Token> {
    if r.ignoreInMirror then [Text(",!", r.id)] else []
  }

  // ---------- The structured document ----------

  function Concat(entries: seq<seq<Token>>): seq<Token> {
    if entries == [] then [] else Concat(entries[..|entries| - 1]) + entries[|entries| - 1]
  }

  function RepositoryList(rs: seq<Repository>): seq<Token> {
    Concat(seq(|rs|, i requires 0 <= i < |rs| => RepositoryEntry(rs[i])))
  }

  function PluginList(rs: seq<Repository>): seq<Token> {
    Concat(seq(|rs|, i requires 0 <= i < |rs| => PluginEntry(rs[i])))
  }

  function IgnoreList(rs: seq<Repository>): seq<Token> {
    Concat(seq(|rs|, i requires 0 <= i < |rs| => IgnoreEntry(rs[i])))
  }

  function MirrorSection(url: string, rs: seq<Repository>): seq<Token> {
    if url == "" then [Mark(MIRROR_MARK)]
    else MIRROR_HEAD + IgnoreList(rs) + [Mark(MIRROR_OF_END)] + MirrorUrl(url)
  }

  /** The document up to the profile section. */
  function Front(url: string, r3: seq<Repository>): seq<Token> {
    HEAD + MirrorSection(url, r3) + GAP
  }

  function Repositories(r1: seq<Repository>): seq<Token> {
    PROFILES_HEAD + RepositoryList(r1)
  }

  function Plugins(r2: seq<Repository>): seq<Token> {
    PROFILES_MIDDLE + PluginList(r2)
  }

  const BACK := PROFILES_FOOT + FOOT

  /** The document with the profile section, when the three lists have got as far as given. */
  function Stage(url: string, r1: seq<Repository>, r2: seq<Repository>, r3: seq<Repository>): seq<Token> {
    Front(url, r3) + Repositories(r1) + [Mark(REPOS_END)] + (Plugins(r2) + [Mark(PLUGINS_END)] + BACK)
  }

  /** The document for a mirror URL and a list of repositories: both lists hold every repository once, in
      insertion order, and mirrorOf holds "external:*" and one ",!id" for every ignored repository. */
  function Document(url: string, rs: seq<Repository>): seq<Token> {
    if rs == [] then Front(url, []) + [Mark(PROFILES_MARK)] + FOOT
    else Stage(url, rs, rs, rs)
  }

  // ---------- The generated text ----------

  /** The text before the loop over the repositories. */
  function Base(url: string, hasRepositories: bool): string {
    var content := Show(MAIN);
    var withMirror := if url != "" then ReplaceAll(content, MIRROR_MARK, Show(Mirror(url))) else content;
    if hasRepositories then ReplaceAll(withMirror, PROFILES_MARK, Show(PROFILES)) else withMirror
  }

  /** One iteration of the loop. */
  function AddOne(content: string, r: Repository): string {
    var withRepo := ReplaceAll(content, REPOS_END, Show(RepositoryEntry(r) + [Mark(REPOS_END)]));
    var withPlugin := ReplaceAll(withRepo, PLUGINS_END, Show(PluginEntry(r) + [Mark(PLUGINS_END)]));
    if r.ignoreInMirror then ReplaceAll(withPlugin, MIRROR_OF_END, ",!" + r.id + MIRROR_OF_END) else withPlugin
  }

  function AddAll(content: string, rs: seq<Repository>): string {
    if rs == [] then content else AddOne(AddAll(content, rs[..|rs| - 1]), rs[|rs| - 1])
  }

  /** The string that the passes produce. */
  function Generated(url: string, rs: seq<Repository>): string {
    AddAll(Base(url, rs != []), rs)
  }

  // ---------- One textual pass ----------

  /** Every piece starts with a character that no marker has behind its first: no occurrence of a marker
      in the shown document crosses pieces. */
  predicate Starts(t: Token) {
    match t
    case Text(ws, tag) => ws + tag != "" && (ws + tag)[0] in {'<', ',', '\n'}
    case Mark(x) => IsMark(x)
  }

  predicate AllStart(doc: seq<Token>) {
    forall t :: t in doc ==> Starts(t)
  }

  /** The piece is a marker or text in which the marker m does not occur. */
  predicate Free(t: Token, m: string) {
    t.Text? ==> !Contains(t.ws + t.tag, m)
  }

  predicate AllFree(doc: seq<Token>, m: string) {
    forall t :: t in doc ==> Free(t, m)
  }

  lemma MarkShape(m: string)
    requires IsMark(m)
    ensures |m| > 1 && m[0] == '<' && forall k :: 0 < k < |m| ==> m[k] !in {'<', ',', '\n'}
  {
  }

  /** Two markers never have the same start. */
  lemma MarksDiffer(m: string, x: string)
    requires IsMark(m) && IsMark(x) && m <= x
    ensures m == x
  {
    assert REPOS_END[2] == 'r' && PLUGINS_END[2] == 'p' && MIRROR_OF_END[2] == 'm';
    assert MIRROR_MARK[9] == 'm' && PROFILES_MARK[9] == 'p';
    assert REPOS_END[1] == PLUGINS_END[1] == MIRROR_OF_END[1] == '/' && MIRROR_MARK[1] == PROFILES_MARK[1] == '!';
  }

  lemma {:induction false} ReplaceNothing(s: string, m: string, to: string)
    requires m != "" && !Contains(s, m)
    ensures ReplaceAll(s, m, to) == s
  {
    if s != "" {
      ReplaceNothing(s[1..], m, to);
    }
  }

  /** Replacing by something longer makes the text longer, if there is something to replace. */
  lemma {:induction false} ReplaceGrows(s: string, m: string, to: string)
    requires 0 < |m| < |to|
    ensures |ReplaceAll(s, m, to)| >= |s| + (if Contains(s, m) then |to| - |m| else 0)
    decreases |s|
  {
    if s == "" {
    } else if m <= s {
      ReplaceGrows(s[|m|..], m, to);
    } else {
      ReplaceGrows(s[1..], m, to);
    }
  }

  lemma {:induction false} ShowConcat(a: seq<Token>, b: seq<Token>)
    ensures Show(a + b) == Show(a) + Show(b)
    decreases |a|
  {
    if a == [] {
      assert a + b == b;
    } else {
      ShowConcat(a[1..], b);
      assert (a + b)[1..] == a[1..] + b;
    }
  }

  lemma ShowStart(doc: seq<Token>, m: string)
    requires AllStart(doc) && IsMark(m)
    ensures StartsFresh(Show(doc), m)
  {
    MarkShape(m);
    if doc != [] {
      assert Starts(doc[0]);
      if doc[0].Mark? {
        MarkShape(doc[0].m);
      }
    }
  }

  /** One textual pass on one piece. */
  lemma PassOnPiece(t: Token, m: string, d: seq<Token>)
    requires IsMark(m) && Starts(t) && |m| < |Show(d)|
    ensures var r := ReplaceAll(ShowToken(t), m, Show(d));
      && (Free(t, m) ==> r == (if t == Mark(m) then Show(d) else ShowToken(t)))
      && (!Free(t, m) ==> |r| > |ShowToken(t)|)
  {
    if t == Mark(m) {
      assert m[|m|..] == "" && m <= m;
    } else {
      ReplaceGrows(ShowToken(t), m, Show(d));
      if t.Mark? {
        OtherMarkIsQuiet(m, t.m);
      }
      if Free(t, m) {
        ReplaceNothing(ShowToken(t), m, Show(d));
      }
    }
  }

  lemma ShowInsert(doc: seq<Token>, m: string, d: seq<Token>)
    requires doc != []
    ensures Show(Insert(doc, m, d))
         == (if doc[0] == Mark(m) then Show(d) else ShowToken(doc[0])) + Show(Insert(doc[1..], m, d))
  {
    if doc[0] == Mark(m) {
      ShowConcat(d, Insert(doc[1..], m, d));
    } else {
      ShowConcat([doc[0]], Insert(doc[1..], m, d));
      assert Show([doc[0]]) == ShowToken(doc[0]);
    }
  }

  /** One textual pass against the insertion at the markers: they agree if m does not occur in the text
      pieces, and otherwise the textual pass produces more. */
  lemma {:induction false} PassOnShown(doc: seq<Token>, m: string, d: seq<Token>)
    requires IsMark(m) && AllStart(doc) && |m| < |Show(d)|
    ensures AllFree(doc, m) ==> ReplaceAll(Show(doc), m, Show(d)) == Show(Insert(doc, m, d))
    ensures |ReplaceAll(Show(doc), m, Show(d))| >= |Show(Insert(doc, m, d))| + (if AllFree(doc, m) then 0 else 1)
    decreases |doc|
  {
    if doc != [] {
      var t, rest := doc[0], doc[1..];
      assert Starts(t);
      PassOnShown(rest, m, d);
      ShowStart(rest, m);
      MarkShape(m);
      ReplaceParts(ShowToken(t), Show(rest), m, Show(d));
      PassOnPiece(t, m, d);
      ShowInsert(doc, m, d);
      assert AllFree(doc, m) <==> Free(t, m) && AllFree(rest, m);
    }
  }

  lemma OtherMarkIsQuiet(m: string, x: string)
    requires IsMark(m) && IsMark(x) && m != x
    ensures !Contains(x, m)
  {
    if m <= x {
      MarksDiffer(m, x);
      assert false;
    }
    MarkShape(x);
    MarkShape(m);
    WithoutOpening(x[1..], m);
  }

  predicate NoOpening(s: string) {
    forall k :: 0 <= k < |s| ==> s[k] != '<'
  }

  lemma {:induction false} WithoutOpening(s: string, m: string)
    requires NoOpening(s) && IsMark(m)
    ensures !Contains(s, m)
  {
    MarkShape(m);
    if s != "" {
      WithoutOpening(s[1..], m);
    }
  }

  // ---------- Text without markers ----------

  /** Behind a prefix whose every '<' is followed by something no marker has there, the marker has to
      occur in the rest. */
  lemma {:induction false} ContainsBehind(p: string, u: string, m: string)
    requires |m| > 1 && m[0] == '<' && !Contains(u, m)
    requires forall k :: 0 <= k < |p| && p[k] == '<' ==> k + 1 < |p| && p[k + 1] != m[1]
    ensures !Contains(p + u, m)
    decreases |p|
  {
    if p == "" {
      assert p + u == u;
    } else {
      assert (p + u)[0] == p[0] && (|p| > 1 ==> (p + u)[1] == p[1]);
      ContainsBehind(p[1..], u, m);
      assert (p + u)[1..] == p[1..] + u;
    }
  }

  /** Text whose only '<' starts its tag contains a marker only at that tag. */
  lemma ContainsOneTag(ws: string, tag: string, m: string)
    requires IsMark(m) && NoOpening(ws) && tag != "" && OneOpening(tag) && !(m <= tag)
    ensures !Contains(ws + tag, m)
  {
    MarkShape(m);
    WithoutOpening(tag[1..], m);
    ContainsBehind(ws, tag, m);
  }

  predicate OneOpening(tag: string) {
    forall k :: 0 < k < |tag| ==> tag[k] != '<'
  }

  /** A tag that differs from every marker in its second character or, for a closing tag, at one of the
      places that tell it from a closing marker. */
  predicate NoMarkAt(tag: string) {
    |tag| > 2 && tag[0] == '<' && OneOpening(tag) && tag[1] != '!' &&
    (tag[1] == '/' ==>
       && (tag[2] == 'r' ==> |tag| > 4 && (tag[4] != 'p' || (|tag| > 11 && tag[11] != 'i')))
       && (tag[2] == 'p' ==> |tag| > 3 && (tag[3] != 'l' || (|tag| > 17 && tag[17] != 'i')))
       && (tag[2] == 'm' ==> |tag| > 8 && tag[8] != 'O'))
  }

  lemma NoMarkAtMeansNoPrefix(tag: string, m: string)
    requires NoMarkAt(tag) && IsMark(m)
    ensures !(m <= tag)
  {
    assert MIRROR_MARK[1] == PROFILES_MARK[1] == '!';
    assert REPOS_END[2] == 'r' && REPOS_END[4] == 'p' && REPOS_END[11] == 'i';
    assert PLUGINS_END[2] == 'p' && PLUGINS_END[3] == 'l' && PLUGINS_END[17] == 'i';
    assert MIRROR_OF_END[2] == 'm' && MIRROR_OF_END[8] == 'O';
    assert REPOS_END[1] == PLUGINS_END[1] == MIRROR_OF_END[1] == '/';
  }

  /** The pieces of the templates. */
  predicate Piece(t: Token) {
    match t
    case Mark(_) => false
    case Text(ws, tag) =>
      && NoOpening(ws) && (ws == "" ==> tag != "") && (ws != "" ==> ws[0] == '\n')
      && (tag == "" || NoMarkAt(tag))
  }

  /** A tag that starts neither like "<mirror>" or "<repository>", nor like "<profile>", "<pluginRepository>" or
      "<activeProfile>". */
  predicate NoEntryAt(tag: string) {
    |tag| > 3 && tag[1] !in {'m', 'p', 'a'} && (tag[1] == 'r' ==> tag[3] != 'p')
  }

  /** The pieces that open no mirror, profile, list or entry. */
  predicate Constant(t: Token) {
    Piece(t) && (t.tag == "" || NoEntryAt(t.tag))
  }

  lemma PieceIsFree(t: Token, m: string)
    requires IsMark(m) && Piece(t)
    ensures Starts(t) && Free(t, m)
  {
    MarkShape(m);
    if t.tag == "" {
      assert t.ws + t.tag == t.ws;
      WithoutOpening(t.ws, m);
    } else {
      NoMarkAtMeansNoPrefix(t.tag, m);
      ContainsOneTag(t.ws, t.tag, m);
    }
  }

  predicate AllConstant(doc: seq<Token>) {
    forall t :: t in doc ==> Constant(t)
  }

  predicate AllPieces(doc: seq<Token>) {
    forall t :: t in doc ==> Piece(t)
  }

  lemma PiecesAreFree(doc: seq<Token>, m: string)
    requires IsMark(m) && AllPieces(doc)
    ensures AllStart(doc) && AllFree(doc, m) && Mark(m) !in doc
  {
    forall t | t in doc
      ensures Starts(t) && Free(t, m)
    {
      PieceIsFree(t, m);
    }
  }

  lemma ConstantsAreFree(doc: seq<Token>, m: string)
    requires IsMark(m) && AllConstant(doc)
    ensures AllStart(doc) && AllFree(doc, m) && Mark(m) !in doc
  {
    PiecesAreFree(doc, m);
  }

  lemma PieceText(ws: string, tag: string)
    requires NoOpening(ws) && (ws == "" ==> tag != "") && (ws != "" ==> ws[0] == '\n')
    requires tag == "" || NoMarkAt(tag)
    ensures Piece(Text(ws, tag))
  {
  }

  lemma ConstantText(ws: string, tag: string)
    requires NoOpening(ws) && (ws == "" ==> tag != "") && (ws != "" ==> ws[0] == '\n')
    requires tag == "" || (NoMarkAt(tag) && NoEntryAt(tag))
    ensures Constant(Text(ws, tag))
  {
  }

  lemma MainIsConstant()
    ensures AllConstant(HEAD) && AllConstant(GAP) && AllConstant(FOOT)
  {
    HeadIsConstant();
    ConstantText("\n\n", "");
    ConstantText("\n", "</settings>");
  }

  lemma HeadIsConstant()
    ensures AllConstant(HEAD)
  {
    HeadStartIsConstant();
    HeadEndIsConstant();
  }

  /** A long constant piece, given in two halves. */
  lemma ConstantLongText(a: string, b: string)
    requires a != "" && a[0] == '\n' && NoOpening(a) && NoOpening(b)
    ensures Constant(Text(a + b, ""))
  {
  }

  lemma ConstantLongTag(ws: string, a: string, b: string)
    requires NoOpening(ws) && ws != "" && ws[0] == '\n' && NoMarkAt(a) && NoEntryAt(a) && NoOpening(b)
    requires a[1] == 's'
    ensures Constant(Text(ws, a + b))
  {
  }

  lemma HeadNamespaceIsConstant()
    ensures Constant(Text("\n", "<settings xmlns=\"http://" + "maven.apache.org/SETTINGS/1.0.0\""))
  {
    ConstantLongTag("\n", "<settings xmlns=\"http://", "maven.apache.org/SETTINGS/1.0.0\"");
  }

  lemma HeadSchemaIsConstant()
    ensures Constant(Text("\nxmlns:xsi=\"http://www.w3" + ".org/2001/XMLSchema-instance\"", ""))
  {
    ConstantLongText("\nxmlns:xsi=\"http://www.w3", ".org/2001/XMLSchema-instance\"");
  }

  /** Up to five constant pieces. */
  lemma ConstantPieces(a: Token, b: Token, c: Token, d: Token, e: Token)
    requires Constant(a) && Constant(b) && Constant(c) && Constant(d) && Constant(e)
    ensures AllConstant([a, b]) && AllConstant([a, b, c]) && AllConstant([a, b, c, d]) && AllConstant([a, b, c, d, e])
  {
  }

  lemma HeadStartIsConstant()
    ensures AllConstant(HEAD_START)
  {
    HeadNamespaceIsConstant();
    HeadSchemaIsConstant();
    ConstantPieces(HEAD_START[0], HEAD_START[1], HEAD_START[1], HEAD_START[1], HEAD_START[1]);
  }

  lemma HeadEndIsConstant()
    ensures AllConstant(HEAD_END)
  {
    ConstantLongText("\nxsi:schemaLocation=\"http://", "maven.apache.org/SETTINGS/1.0.0");
    ConstantLongText("\nhttps://maven.apache.org/xsd", "/settings-1.0.0.xsd\">\n\n");
  }

  lemma MirrorTagsArePieces()
    ensures Piece(Text("\n  ", "<mirrors>")) && Piece(Text("\n    ", "<mirror>"))
  {
    PieceText("\n  ", "<mirrors>");
    PieceText("\n    ", "<mirror>");
  }

  lemma MirrorIdIsConstant()
    ensures Constant(Text("\n      ", "<id>mirror-central")) && Constant(Text("", "</id>"))
  {
    ConstantText("\n      ", "<id>mirror-central");
    ConstantText("", "</id>");
  }

  lemma MirrorOfIsPiece()
    ensures Piece(Text("\n      ", "<mirrorOf>external:*"))
  {
    PieceText("\n      ", "<mirrorOf>external:*");
  }

  lemma MirrorIsPieces()
    ensures AllPieces(MIRROR_HEAD) && AllConstant(MIRROR_FOOT)
  {
    MirrorTagsArePieces();
    MirrorIdIsConstant();
    MirrorOfIsPiece();
    FivePieces(Text("\n  ", "<mirrors>"), Text("\n    ", "<mirror>"), Text("\n      ", "<id>mirror-central"),
               Text("", "</id>"), Text("\n      ", "<mirrorOf>external:*"));
    MirrorFootIsConstant();
  }

  lemma FivePieces(a: Token, b: Token, c: Token, d: Token, e: Token)
    requires Piece(a) && Piece(b) && Piece(c) && Piece(d) && Piece(e)
    ensures AllPieces([a, b, c, d]) && AllPieces([a, b, c, d, e])
  {
  }

  lemma MirrorEndsAreConstant()
    ensures Constant(Text("", "</url>"))
    ensures Constant(Text("\n    ", "</mirror>")) && Constant(Text("\n  ", "</mirrors>"))
  {
    ConstantText("", "</url>");
    ConstantText("\n    ", "</mirror>");
    ConstantText("\n  ", "</mirrors>");
  }

  lemma MirrorFootIsConstant()
    ensures AllConstant(MIRROR_FOOT)
  {
    MirrorEndsAreConstant();
    ConstantPieces(Text("", "</url>"), Text("\n    ", "</mirror>"), Text("\n  ", "</mirrors>"), Text("", "</url>"),
                   Text("", "</url>"));
  }

  lemma ProfileTagsArePieces()
    ensures Piece(Text("\n  ", "<profiles>")) && Piece(Text("\n    ", "<profile>"))
  {
    PieceText("\n  ", "<profiles>");
    PieceText("\n    ", "<profile>");
  }

  lemma ProfileIdIsConstant()
    ensures Constant(Text("\n      ", "<id>default")) && Constant(Text("", "</id>"))
  {
    ConstantText("\n      ", "<id>default");
    ConstantText("", "</id>");
  }

  lemma RepositoriesTagIsPiece()
    ensures Piece(Text("\n      ", "<repositories>\n      "))
  {
    PieceText("\n      ", "<repositories>\n      ");
  }

  lemma ProfilesStartIsPieces()
    ensures AllPieces(PROFILES_START)
  {
    ProfileTagsArePieces();
    ProfileIdIsConstant();
    FivePieces(Text("\n  ", "<profiles>"), Text("\n    ", "<profile>"), Text("\n      ", "<id>default"),
               Text("", "</id>"), Text("", "</id>"));
  }

  lemma ProfilesHeadIsPieces()
    ensures AllPieces(PROFILES_HEAD) && AllPieces(PROFILES_MIDDLE)
  {
    ProfilesStartIsPieces();
    RepositoriesTagIsPiece();
    ProfilesMiddleIsPiece();
  }

  lemma ProfilesMiddleIsPiece()
    ensures Piece(Text("\n      ", "<pluginRepositories>\n      "))
  {
    PieceText("\n      ", "<pluginRepositories>\n      ");
  }

  lemma ProfileEndsAreConstant()
    ensures Constant(Text("\n    ", "</profile>")) && Constant(Text("\n  ", "</profiles>"))
  {
    ConstantText("\n    ", "</profile>");
    ConstantText("\n  ", "</profiles>");
  }

  lemma ActiveTagsArePieces()
    ensures Piece(Text("\n  ", "<activeProfiles>")) && Piece(Text("\n    ", "<activeProfile>default"))
  {
    PieceText("\n  ", "<activeProfiles>");
    PieceText("\n    ", "<activeProfile>default");
  }

  lemma ActiveEndsAreConstant()
    ensures Constant(Text("", "</activeProfile>")) && Constant(Text("\n  ", "</activeProfiles>"))
  {
    ConstantText("", "</activeProfile>");
    ConstantText("\n  ", "</activeProfiles>");
  }

  lemma ProfilesFootIsPieces()
    ensures AllConstant(PROFILES_END) && AllPieces(PROFILES_FOOT)
  {
    ProfileEndsAreConstant();
    ConstantPieces(PROFILES_END[0], PROFILES_END[1], PROFILES_END[1], PROFILES_END[1], PROFILES_END[1]);
    ActiveProfilesArePieces();
  }

  lemma ActiveProfilesArePieces()
    ensures AllPieces(ACTIVE_PROFILES)
  {
    ActiveTagsArePieces();
    ActiveEndsAreConstant();
    FivePieces(Text("\n  ", "<activeProfiles>"), Text("\n    ", "<activeProfile>default"),
               Text("", "</activeProfile>"), Text("\n  ", "</activeProfiles>"), Text("", "</activeProfile>"));
  }

  lemma EnabledIsConstant()
    ensures Constant(Text("\n        ", "<enabled>true")) && Constant(Text("", "</enabled>"))
  {
    ConstantText("\n        ", "<enabled>true");
    ConstantText("", "</enabled>");
  }

  lemma UpdatePolicyIsConstant()
    ensures Constant(Text("\n        ", "<updatePolicy>always")) && Constant(Text("", "</updatePolicy>"))
  {
    ConstantText("\n        ", "<updatePolicy>always");
    ConstantText("", "</updatePolicy>");
  }

  lemma PolicyIsConstant()
    ensures AllConstant(POLICY)
  {
    EnabledIsConstant();
    UpdatePolicyIsConstant();
    ConstantPieces(Text("\n        ", "<enabled>true"), Text("", "</enabled>"),
                   Text("\n        ", "<updatePolicy>always"), Text("", "</updatePolicy>"), Text("", "</enabled>"));
  }

  lemma LayoutIsConstant()
    ensures Constant(Text("\n      ", "<layout>default")) && Constant(Text("", "</layout>"))
  {
    ConstantText("\n      ", "<layout>default");
    ConstantText("", "</layout>");
  }

  lemma ReleasesAreConstant()
    ensures Constant(Text("\n      ", "<releases>")) && Constant(Text("\n      ", "</releases>"))
  {
    ConstantText("\n      ", "<releases>");
    ConstantText("\n      ", "</releases>");
  }

  lemma SnapshotsAreConstant()
    ensures Constant(Text("\n      ", "<snapshots>")) && Constant(Text("\n      ", "</snapshots>"))
  {
    ConstantText("\n      ", "<snapshots>");
    ConstantText("\n      ", "</snapshots>");
  }

  lemma ContentFootIsConstant()
    ensures AllConstant(CONTENT_FOOT)
  {
    PolicyIsConstant();
    LayoutIsConstant();
    ReleasesAreConstant();
    SnapshotsAreConstant();
    var l, l', r, r' := Text("\n      ", "<layout>default"), Text("", "</layout>"), Text("\n      ", "<releases>"),
                        Text("\n      ", "</releases>");
    var s, s' := Text("\n      ", "<snapshots>"), Text("\n      ", "</snapshots>");
    ConstantPieces(l, l', r, r, r);
    ConstantPieces(r', s, s, s, s);
    ConstantSections([l, l', r], POLICY, [r', s], POLICY, s');
  }

  lemma ConstantSections(a: seq<Token>, b: seq<Token>, c: seq<Token>, d: seq<Token>, e: Token)
    requires AllConstant(a) && AllConstant(b) && AllConstant(c) && AllConstant(d) && Constant(e)
    ensures AllConstant(a + b + c + d + [e])
  {
  }

  lemma RepositoryTagsArePieces()
    ensures Piece(Text("\n", "<repository>")) && Constant(Text("", "</repository>\n"))
  {
    PieceText("\n", "<repository>");
    ConstantText("", "</repository>\n");
  }

  lemma PluginTagIsPiece()
    ensures Piece(Text("\n", "<pluginRepository>"))
  {
    PieceText("\n", "<pluginRepository>");
  }

  lemma PluginTagsArePieces()
    ensures Piece(Text("\n", "<pluginRepository>")) && Constant(Text("", "</pluginRepository>\n"))
  {
    PluginTagIsPiece();
    ConstantText("", "</pluginRepository>\n");
  }

  lemma ClosersAreConstant()
    ensures Constant(Text("", "</id>")) && Constant(Text("", "</name>")) && Constant(Text("", "</url>"))
  {
    ConstantText("", "</id>");
    ConstantText("", "</name>");
    ConstantText("", "</url>");
  }

  // ---------- Markers survive ----------

  lemma {:induction false} ContainsInserted(s: string, m: string, to: string, x: string)
    requires m != "" && Contains(s, m) && Contains(to, x)
    ensures Contains(ReplaceAll(s, m, to), x)
    decreases |s|
  {
    if m <= s {
      ContainsBefore(to, ReplaceAll(s[|m|..], m, to), x);
    } else {
      ContainsInserted(s[1..], m, to, x);
      ContainsAfter([s[0]], ReplaceAll(s[1..], m, to), x);
    }
  }

  /** A start without '<' is not touched. */
  lemma {:induction false} PlainStartKept(p: string, s: string, m: string, to: string)
    requires NoOpening(p) && p <= s && m != "" && m[0] == '<'
    ensures p <= ReplaceAll(s, m, to)
    decreases |p|
  {
    if p != "" {
      assert s[0] == p[0];
      assert s[..|p|] == p;
      assert s[1..][..|p| - 1] == p[1..];
      PlainStartKept(p[1..], s[1..], m, to);
      assert [s[0]] + p[1..] == p;
    }
  }

  /** Skipping text without '<' skips no marker. */
  lemma {:induction false} ContainsSkips(s: string, k: nat, x: string)
    requires k <= |s| && Contains(s, x) && x != "" && x[0] == '<' && NoOpening(s[..k])
    ensures Contains(s[k..], x)
    decreases k
  {
    if k > 0 {
      assert s[..k][0] == s[0];
      assert s[1..][..k - 1] == s[..k][1..];
      assert s[1..][k - 1..] == s[k..];
      ContainsSkips(s[1..], k - 1, x);
    } else {
      assert s[k..] == s;
    }
  }

  lemma MarkTail(m: string)
    requires IsMark(m)
    ensures m != "" && m[0] == '<' && NoOpening(m[1..])
  {
    MarkShape(m);
  }

  /** A '<' that starts a string and nothing else in it. */
  predicate OneTag(m: string) {
    m != "" && m[0] == '<' && NoOpening(m[1..])
  }

  /** An occurrence of x at the start of a text is kept when no m starts there. */
  lemma StartKept(s: string, m: string, to: string, x: string)
    requires OneTag(m) && OneTag(x) && !(m <= s) && x <= s
    ensures x <= ReplaceAll(s, m, to)
  {
    assert s[..|x|] == x;
    assert s[1..][..|x| - 1] == x[1..];
    PlainStartKept(x[1..], s[1..], m, to);
    assert x == [s[0]] + x[1..];
  }

  /** An occurrence of x does not reach into an m at the start of the text. */
  lemma ContainsBehindStart(s: string, m: string, x: string)
    requires OneTag(m) && OneTag(x) && m <= s && !(x <= s) && Contains(s, x)
    ensures Contains(s[|m|..], x)
  {
    assert s[..|m|] == m;
    assert s[1..][..|m| - 1] == m[1..];
    assert s[1..][|m| - 1..] == s[|m|..];
    ContainsSkips(s[1..], |m| - 1, x);
  }

  lemma PrefixesNest(m: string, x: string, s: string)
    requires m <= s && x <= s
    ensures m <= x || x <= m
  {
    if |m| <= |x| {
      assert x[..|m|] == s[..|m|] == m;
    } else {
      assert m[..|x|] == s[..|x|] == x;
    }
  }

  lemma {:induction false} TagKept(s: string, m: string, to: string, x: string)
    requires OneTag(m) && OneTag(x) && !(m <= x) && !(x <= m) && Contains(s, x)
    ensures Contains(ReplaceAll(s, m, to), x)
    decreases |s|
  {
    if m <= s {
      if x <= s {
        PrefixesNest(m, x, s);
        assert false;
      }
      ContainsBehindStart(s, m, x);
      TagKept(s[|m|..], m, to, x);
      ContainsAfter(to, ReplaceAll(s[|m|..], m, to), x);
    } else if x <= s {
      StartKept(s, m, to, x);
    } else {
      TagKept(s[1..], m, to, x);
      ContainsAfter([s[0]], ReplaceAll(s[1..], m, to), x);
    }
  }

  lemma ContainsKept(s: string, m: string, to: string, x: string)
    requires IsMark(m) && IsMark(x) && m != x && Contains(s, x)
    ensures Contains(ReplaceAll(s, m, to), x)
  {
    MarkTail(m);
    MarkTail(x);
    if m <= x {
      MarksDiffer(m, x);
      assert false;
    }
    if x <= m {
      MarksDiffer(x, m);
      assert false;
    }
    TagKept(s, m, to, x);
  }

  lemma {:induction false} ShowContains(doc: seq<Token>, m: string)
    requires Mark(m) in doc
    ensures Contains(Show(doc), m)
    decreases |doc|
  {
    if doc[0] == Mark(m) {
      assert m <= m + Show(doc[1..]);
    } else {
      ShowContains(doc[1..], m);
      ContainsAfter(ShowToken(doc[0]), Show(doc[1..]), m);
    }
  }

  // ---------- One pass on the real text ----------

  predicate NoMark(doc: seq<Token>, m: string) {
    Mark(m) !in doc
  }

  lemma {:induction false} InsertNothing(doc: seq<Token>, m: string, d: seq<Token>)
    requires NoMark(doc, m)
    ensures Insert(doc, m, d) == doc
    decreases |doc|
  {
    if doc != [] {
      InsertNothing(doc[1..], m, d);
    }
  }

  lemma {:induction false} InsertAt(a: seq<Token>, b: seq<Token>, m: string, d: seq<Token>)
    requires NoMark(a, m) && NoMark(b, m)
    ensures Insert(a + [Mark(m)] + b, m, d) == a + d + b
    decreases |a|
  {
    if a == [] {
      InsertNothing(b, m, d);
      assert (a + [Mark(m)] + b)[1..] == b;
    } else {
      InsertAt(a[1..], b, m, d);
      assert (a + [Mark(m)] + b)[1..] == a[1..] + [Mark(m)] + b;
    }
  }

  /** How the real text stands to the shown document: equal as long as every pass was exact, longer as
      soon as one was not. */
  predicate Tracks(s: string, doc: seq<Token>, exact: bool) {
    if exact then s == Show(doc) else |s| > |Show(doc)|
  }

  lemma ShowAround(a: seq<Token>, b: seq<Token>, c: seq<Token>)
    ensures Show(a + b + c) == Show(a) + Show(b) + Show(c)
  {
    ShowConcat(a + b, c);
    ShowConcat(a, b);
  }

  /** A pass that inserts at a marker keeps a text longer than the document. */
  lemma LongerStaysLonger(s: string, a: seq<Token>, b: seq<Token>, m: string, d: seq<Token>)
    requires 0 < |m| < |Show(d)| && Contains(s, m) && |s| > |Show(a + [Mark(m)] + b)|
    ensures |ReplaceAll(s, m, Show(d))| > |Show(a + d + b)|
  {
    ReplaceGrows(s, m, Show(d));
    ShowAround(a, [Mark(m)], b);
    ShowAround(a, d, b);
    ShowOne(m);
  }

  lemma ShowOne(m: string)
    ensures Show([Mark(m)]) == m
  {
    assert [Mark(m)][1..] == [];
    assert m + "" == m;
  }

  lemma FreeAround(a: seq<Token>, b: seq<Token>, m: string, x: string)
    ensures AllFree(a + [Mark(x)] + b, m) <==> AllFree(a, m) && AllFree(b, m)
    ensures AllStart(a) && AllStart(b) && IsMark(x) ==> AllStart(a + [Mark(x)] + b)
  {
    assert forall t :: t in a + [Mark(x)] + b <==> t in a || t == Mark(x) || t in b;
  }

  lemma PassAt(s: string, a: seq<Token>, b: seq<Token>, exact: bool, m: string, d: seq<Token>)
    requires IsMark(m) && NoMark(a, m) && NoMark(b, m) && AllStart(a) && AllStart(b)
    requires Tracks(s, a + [Mark(m)] + b, exact) && Contains(s, m) && |m| < |Show(d)|
    ensures Tracks(ReplaceAll(s, m, Show(d)), a + d + b, exact && AllFree(a, m) && AllFree(b, m))
  {
    MarkShape(m);
    if exact {
      InsertAt(a, b, m, d);
      FreeAround(a, b, m, m);
      PassOnShown(a + [Mark(m)] + b, m, d);
    } else {
      LongerStaysLonger(s, a, b, m, d);
    }
  }

  lemma PassNowhere(s: string, doc: seq<Token>, exact: bool, m: string, d: seq<Token>)
    requires IsMark(m) && NoMark(doc, m) && AllStart(doc) && Tracks(s, doc, exact) && |m| < |Show(d)|
    ensures Tracks(ReplaceAll(s, m, Show(d)), doc, exact && AllFree(doc, m))
  {
    InsertNothing(doc, m, d);
    MarkShape(m);
    if exact {
      PassOnShown(doc, m, d);
    } else {
      ReplaceGrows(s, m, Show(d));
    }
  }

  // ---------- The pieces of a stage ----------

  predicate RepoFree(r: Repository, m: string) {
    !Contains(r.id, m) && !Contains(r.url, m)
  }

  /** Behind an opening tag the marker occurs exactly where it occurs in the value. */
  lemma ValueFree(ws: string, tag: string, v: string, m: string)
    requires IsMark(m) && NoOpening(ws) && ws != "" && ws[0] == '\n'
    requires tag == "<id>" || tag == "<name>" || tag == "<url>"
    ensures Starts(Text(ws, tag + v)) && (Free(Text(ws, tag + v), m) <==> !Contains(v, m))
  {
    MarkShape(m);
    assert ws + (tag + v) == ws + tag + v;
    assert tag[1] in {'i', 'n', 'u'} && m[1] in {'/', '!'};
    if Contains(v, m) {
      ContainsAfter(ws + tag, v, m);
    } else {
      ContainsBehind(ws + tag, v, m);
    }
  }

  lemma ClosersFree(close: string, m: string)
    requires IsMark(m) && close in {"</id>", "</name>", "</url>"}
    ensures Starts(Text("", close)) && Free(Text("", close), m)
  {
    ClosersAreConstant();
    PieceIsFree(Text("", close), m);
  }

  lemma FieldFree(open: string, v: string, close: string, m: string)
    requires IsMark(m)
    requires (open == "<id>" || open == "<name>" || open == "<url>") && close in {"</id>", "</name>", "</url>"}
    ensures AllStart(Field(open, v, close)) && NoMark(Field(open, v, close), m)
    ensures AllFree(Field(open, v, close), m) <==> !Contains(v, m)
  {
    ValueFree("\n      ", open, v, m);
    ClosersFree(close, m);
    assert Field(open, v, close)[0] in Field(open, v, close);
  }

  lemma ContentValuesFree(r: Repository, m: string)
    requires IsMark(m)
    ensures AllStart(ContentValues(r)) && NoMark(ContentValues(r), m)
    ensures AllFree(ContentValues(r), m) <==> RepoFree(r, m)
  {
    var f1, f2, f3 := Field("<id>", r.id, "</id>"), Field("<name>", r.id, "</name>"), Field("<url>", r.url, "</url>");
    FieldFree("<id>", r.id, "</id>", m);
    FieldFree("<name>", r.id, "</name>", m);
    FieldFree("<url>", r.url, "</url>", m);
    ConcatFree(f1, f2, m);
    ConcatFree(f1 + f2, f3, m);
  }

  lemma ConcatFree(a: seq<Token>, b: seq<Token>, m: string)
    ensures AllStart(a + b) <==> AllStart(a) && AllStart(b)
    ensures NoMark(a + b, m) <==> NoMark(a, m) && NoMark(b, m)
    ensures AllFree(a + b, m) <==> AllFree(a, m) && AllFree(b, m)
  {
    assert forall t :: t in a + b <==> t in a || t in b;
  }

  lemma ContentFree(r: Repository, m: string)
    requires IsMark(m)
    ensures AllStart(Content(r)) && NoMark(Content(r), m) && (AllFree(Content(r), m) <==> RepoFree(r, m))
  {
    ContentValuesFree(r, m);
    ContentFootIsConstant();
    ConstantsAreFree(CONTENT_FOOT, m);
    ConcatFree(ContentValues(r), CONTENT_FOOT, m);
  }

  lemma RepositoryEntryFree(r: Repository, m: string)
    requires IsMark(m)
    ensures AllStart(RepositoryEntry(r)) && NoMark(RepositoryEntry(r), m)
    ensures AllFree(RepositoryEntry(r), m) <==> RepoFree(r, m)
  {
    ContentFree(r, m);
    RepositoryTagsArePieces();
    PieceIsFree(Text("\n", "<repository>"), m);
    PieceIsFree(Text("", "</repository>\n"), m);
  }

  lemma EntriesFree(r: Repository, m: string)
    requires IsMark(m)
    ensures AllStart(RepositoryEntry(r)) && NoMark(RepositoryEntry(r), m)
    ensures AllFree(RepositoryEntry(r), m) <==> RepoFree(r, m)
    ensures AllStart(PluginEntry(r)) && NoMark(PluginEntry(r), m)
    ensures AllFree(PluginEntry(r), m) <==> RepoFree(r, m)
  {
    RepositoryEntryFree(r, m);
    ContentFree(r, m);
    PluginTagsArePieces();
    PieceIsFree(Text("\n", "<pluginRepository>"), m);
    PieceIsFree(Text("", "</pluginRepository>\n"), m);
  }

  lemma IgnoreFree(r: Repository, m: string)
    requires IsMark(m)
    ensures AllStart(IgnoreEntry(r)) && NoMark(IgnoreEntry(r), m) && (RepoFree(r, m) ==> AllFree(IgnoreEntry(r), m))
  {
    MarkShape(m);
    if RepoFree(r, m) {
      ContainsBehind(",!", r.id, m);
    }
  }

  predicate ReposFree(rs: seq<Repository>, m: string) {
    forall r :: r in rs ==> RepoFree(r, m)
  }

  /** What is known of one entry of a list. */
  predicate EntryFree(e: seq<Token>, r: Repository, m: string) {
    AllStart(e) && NoMark(e, m) && (AllFree(e, m) <==> RepoFree(r, m))
  }

  lemma {:induction false} ConcatEntriesFree(es: seq<seq<Token>>, rs: seq<Repository>, m: string)
    requires |es| == |rs| && forall i :: 0 <= i < |rs| ==> EntryFree(es[i], rs[i], m)
    ensures AllStart(Concat(es)) && NoMark(Concat(es), m) && (AllFree(Concat(es), m) <==> ReposFree(rs, m))
    decreases |rs|
  {
    if rs != [] {
      var n := |rs| - 1;
      ConcatEntriesFree(es[..n], rs[..n], m);
      ConcatFree(Concat(es[..n]), es[n], m);
      assert rs == rs[..n] + [rs[n]];
    }
  }

  lemma ListsFree(rs: seq<Repository>, m: string)
    requires IsMark(m)
    ensures AllStart(RepositoryList(rs)) && NoMark(RepositoryList(rs), m)
    ensures AllFree(RepositoryList(rs), m) <==> ReposFree(rs, m)
    ensures AllStart(PluginList(rs)) && NoMark(PluginList(rs), m)
    ensures AllFree(PluginList(rs), m) <==> ReposFree(rs, m)
  {
    forall r: Repository
      ensures EntryFree(RepositoryEntry(r), r, m) && EntryFree(PluginEntry(r), r, m)
    {
      EntriesFree(r, m);
    }
    ConcatEntriesFree(seq(|rs|, i requires 0 <= i < |rs| => RepositoryEntry(rs[i])), rs, m);
    ConcatEntriesFree(seq(|rs|, i requires 0 <= i < |rs| => PluginEntry(rs[i])), rs, m);
  }

  lemma {:induction false} ConcatIgnoresFree(es: seq<seq<Token>>, rs: seq<Repository>, m: string)
    requires |es| == |rs|
    requires forall i :: 0 <= i < |rs| ==>
               AllStart(es[i]) && NoMark(es[i], m) && (RepoFree(rs[i], m) ==> AllFree(es[i], m))
    ensures AllStart(Concat(es)) && NoMark(Concat(es), m) && (ReposFree(rs, m) ==> AllFree(Concat(es), m))
    decreases |rs|
  {
    if rs != [] {
      var n := |rs| - 1;
      ConcatIgnoresFree(es[..n], rs[..n], m);
      ConcatFree(Concat(es[..n]), es[n], m);
      assert rs == rs[..n] + [rs[n]];
    }
  }

  lemma IgnoreListFree(rs: seq<Repository>, m: string)
    requires IsMark(m)
    ensures AllStart(IgnoreList(rs)) && NoMark(IgnoreList(rs), m)
    ensures ReposFree(rs, m) ==> AllFree(IgnoreList(rs), m)
  {
    forall r: Repository
      ensures AllStart(IgnoreEntry(r)) && NoMark(IgnoreEntry(r), m) && (RepoFree(r, m) ==> AllFree(IgnoreEntry(r), m))
    {
      IgnoreFree(r, m);
    }
    ConcatIgnoresFree(seq(|rs|, i requires 0 <= i < |rs| => IgnoreEntry(rs[i])), rs, m);
  }

  /** One more repository is one more entry at the end of each list. */
  lemma ListsSnoc(rs: seq<Repository>, r: Repository)
    ensures RepositoryList(rs + [r]) == RepositoryList(rs) + RepositoryEntry(r)
    ensures PluginList(rs + [r]) == PluginList(rs) + PluginEntry(r)
    ensures IgnoreList(rs + [r]) == IgnoreList(rs) + IgnoreEntry(r)
  {
    var all := rs + [r];
    var es := seq(|all|, i requires 0 <= i < |all| => RepositoryEntry(all[i]));
    assert es[..|rs|] == seq(|rs|, i requires 0 <= i < |rs| => RepositoryEntry(rs[i]));
    var ps := seq(|all|, i requires 0 <= i < |all| => PluginEntry(all[i]));
    assert ps[..|rs|] == seq(|rs|, i requires 0 <= i < |rs| => PluginEntry(rs[i]));
    var gs := seq(|all|, i requires 0 <= i < |all| => IgnoreEntry(all[i]));
    assert gs[..|rs|] == seq(|rs|, i requires 0 <= i < |rs| => IgnoreEntry(rs[i]));
  }

  /** The mirror section in front of and behind the list of ignored repositories. */
  lemma MirrorEndsFree(url: string, m: string)
    requires IsMark(m)
    ensures AllStart(MIRROR_HEAD) && NoMark(MIRROR_HEAD, m) && AllFree(MIRROR_HEAD, m)
    ensures AllStart(MirrorUrl(url)) && NoMark(MirrorUrl(url), m) && (AllFree(MirrorUrl(url), m) <==> !Contains(url, m))
  {
    MirrorIsPieces();
    PiecesAreFree(MIRROR_HEAD, m);
    ConstantsAreFree(MIRROR_FOOT, m);
    ValueFree("\n      ", "<url>", url, m);
    ConcatFree([Text("\n      ", "<url>" + url)], MIRROR_FOOT, m);
  }

  lemma MirrorFree(url: string, r3: seq<Repository>, m: string)
    requires IsMark(m) && m != MIRROR_MARK && m != MIRROR_OF_END
    ensures AllStart(MirrorSection(url, r3)) && NoMark(MirrorSection(url, r3), m)
    ensures url != "" && Contains(url, m) ==> !AllFree(MirrorSection(url, r3), m)
    ensures (url != "" ==> !Contains(url, m) && ReposFree(r3, m)) ==> AllFree(MirrorSection(url, r3), m)
  {
    if url != "" {
      MirrorEndsFree(url, m);
      IgnoreListFree(r3, m);
      ConcatFree(MIRROR_HEAD, IgnoreList(r3), m);
      ConcatFree(MIRROR_HEAD + IgnoreList(r3), [Mark(MIRROR_OF_END)], m);
      ConcatFree(MIRROR_HEAD + IgnoreList(r3) + [Mark(MIRROR_OF_END)], MirrorUrl(url), m);
    }
  }

  lemma MarksApart()
    ensures MIRROR_MARK != PROFILES_MARK && MIRROR_MARK != REPOS_END && MIRROR_MARK != PLUGINS_END
    ensures MIRROR_MARK != MIRROR_OF_END && PROFILES_MARK != REPOS_END && PROFILES_MARK != PLUGINS_END
    ensures PROFILES_MARK != MIRROR_OF_END && REPOS_END != PLUGINS_END && REPOS_END != MIRROR_OF_END
    ensures PLUGINS_END != MIRROR_OF_END
  {
    assert REPOS_END[2] == 'r' && PLUGINS_END[2] == 'p' && MIRROR_OF_END[2] == 'm';
    assert MIRROR_MARK[9] == 'm' && PROFILES_MARK[9] == 'p' && MIRROR_MARK[1] == PROFILES_MARK[1] == '!';
    assert REPOS_END[1] == PLUGINS_END[1] == MIRROR_OF_END[1] == '/';
  }

  // ---------- The passes of the loop ----------

  /** No text of the stage contains the marker. */
  predicate TextsFree(url: string, r1: seq<Repository>, r2: seq<Repository>, m: string) {
    (url != "" ==> !Contains(url, m)) && ReposFree(r1, m) && ReposFree(r2, m)
  }

  lemma FrontFree(url: string, r3: seq<Repository>, m: string)
    requires IsMark(m) && m != MIRROR_MARK && m != MIRROR_OF_END
    ensures AllStart(Front(url, r3)) && NoMark(Front(url, r3), m)
    ensures url != "" && Contains(url, m) ==> !AllFree(Front(url, r3), m)
    ensures (url != "" ==> !Contains(url, m) && ReposFree(r3, m)) ==> AllFree(Front(url, r3), m)
  {
    MainIsConstant();
    ConstantsAreFree(HEAD, m);
    ConstantsAreFree(GAP, m);
    MirrorFree(url, r3, m);
    ConcatFree(HEAD, MirrorSection(url, r3), m);
    ConcatFree(HEAD + MirrorSection(url, r3), GAP, m);
  }

  lemma SectionsFree(r1: seq<Repository>, r2: seq<Repository>, m: string)
    requires IsMark(m)
    ensures AllStart(Repositories(r1)) && NoMark(Repositories(r1), m)
    ensures AllFree(Repositories(r1), m) <==> ReposFree(r1, m)
    ensures AllStart(Plugins(r2)) && NoMark(Plugins(r2), m)
    ensures AllFree(Plugins(r2), m) <==> ReposFree(r2, m)
    ensures AllStart(BACK) && NoMark(BACK, m) && AllFree(BACK, m)
  {
    ProfilesHeadIsPieces();
    ProfilesFootIsPieces();
    MainIsConstant();
    PiecesAreFree(PROFILES_HEAD, m);
    PiecesAreFree(PROFILES_MIDDLE, m);
    PiecesAreFree(PROFILES_FOOT, m);
    ConstantsAreFree(FOOT, m);
    ListsFree(r1, m);
    ListsFree(r2, m);
    ConcatFree(PROFILES_HEAD, RepositoryList(r1), m);
    ConcatFree(PROFILES_MIDDLE, PluginList(r2), m);
    ConcatFree(PROFILES_FOOT, FOOT, m);
  }

  lemma ShowLonger(e: seq<Token>, m: string)
    requires e != [] && Starts(e[0])
    ensures |m| < |Show(e + [Mark(m)])|
  {
    ShowConcat(e, [Mark(m)]);
    assert Show([Mark(m)]) == m;
    if e[0].Mark? {
      MarkShape(e[0].m);
    }
  }

  lemma MarkFree(x: string, m: string)
    requires IsMark(x)
    ensures AllStart([Mark(x)]) && AllFree([Mark(x)], m) && (x != m ==> NoMark([Mark(x)], m))
  {
  }

  lemma SectionsSnoc(rs: seq<Repository>, r: Repository)
    ensures Repositories(rs + [r]) == Repositories(rs) + RepositoryEntry(r)
    ensures Plugins(rs + [r]) == Plugins(rs) + PluginEntry(r)
  {
    ListsSnoc(rs, r);
    ConcatAssoc(PROFILES_HEAD, RepositoryList(rs), RepositoryEntry(r));
    ConcatAssoc(PROFILES_MIDDLE, PluginList(rs), PluginEntry(r));
  }

  /** Everything in front of the repositories' closing marker. */
  lemma BeforeReposFree(url: string, r1: seq<Repository>, r3: seq<Repository>, m: string)
    requires (m == REPOS_END || m == PLUGINS_END) && forall x :: x in r3 ==> x in r1
    ensures var a := Front(url, r3) + Repositories(r1);
      && AllStart(a) && NoMark(a, m)
      && (AllFree(a, m) <==> (url != "" ==> !Contains(url, m)) && ReposFree(r1, m))
  {
    MarksApart();
    FrontFree(url, r3, m);
    SectionsFree(r1, [], m);
    ConcatFree(Front(url, r3), Repositories(r1), m);
  }

  /** Everything behind the repositories' closing marker. */
  lemma BehindReposFree(r2: seq<Repository>, m: string)
    requires IsMark(m) && m != PLUGINS_END
    ensures var b := Plugins(r2) + [Mark(PLUGINS_END)] + BACK;
      AllStart(b) && NoMark(b, m) && (AllFree(b, m) <==> ReposFree(r2, m))
  {
    SectionsFree([], r2, m);
    MarkFree(PLUGINS_END, m);
    ConcatFree(Plugins(r2), [Mark(PLUGINS_END)], m);
    ConcatFree(Plugins(r2) + [Mark(PLUGINS_END)], BACK, m);
  }

  /** A pass that adds an entry in front of its marker. */
  lemma PassEntry(s: string, a: seq<Token>, b: seq<Token>, exact: bool, m: string, e: seq<Token>)
    requires IsMark(m) && NoMark(a, m) && NoMark(b, m) && AllStart(a) && AllStart(b) && AllStart(e) && e != []
    requires Tracks(s, a + [Mark(m)] + b, exact) && Contains(s, m)
    ensures Tracks(ReplaceAll(s, m, Show(e + [Mark(m)])), a + e + [Mark(m)] + b,
                   exact && AllFree(a, m) && AllFree(b, m))
  {
    assert e[0] in e;
    ShowLonger(e, m);
    PassAt(s, a, b, exact, m, e + [Mark(m)]);
    ConcatAssoc(a, e, [Mark(m)]);
  }

  lemma PassRepositories(s: string, url: string, r1: seq<Repository>, r2: seq<Repository>, r3: seq<Repository>,
                         exact: bool, r: Repository)
    requires Tracks(s, Stage(url, r1, r2, r3), exact) && Contains(s, REPOS_END) && forall x :: x in r3 ==> x in r1
    ensures var s' := ReplaceAll(s, REPOS_END, Show(RepositoryEntry(r) + [Mark(REPOS_END)]));
      Tracks(s', Stage(url, r1 + [r], r2, r3), exact && TextsFree(url, r1, r2, REPOS_END))
  {
    MarksApart();
    BeforeReposFree(url, r1, r3, REPOS_END);
    BehindReposFree(r2, REPOS_END);
    EntriesFree(r, REPOS_END);
    var f, p, e := Front(url, r3), Repositories(r1), RepositoryEntry(r);
    PassEntry(s, f + p, Plugins(r2) + [Mark(PLUGINS_END)] + BACK, exact, REPOS_END, e);
    SectionsSnoc(r1, r);
    ConcatAssoc(f, p, e);
  }

  /** Everything in front of the plugin repositories' closing marker. */
  lemma BeforePluginsFree(url: string, r1: seq<Repository>, r2: seq<Repository>, r3: seq<Repository>)
    requires forall x :: x in r3 ==> x in r1
    ensures var a := Front(url, r3) + Repositories(r1) + [Mark(REPOS_END)] + Plugins(r2);
      && AllStart(a) && NoMark(a, PLUGINS_END) && (AllFree(a, PLUGINS_END) <==> TextsFree(url, r1, r2, PLUGINS_END))
  {
    var m := PLUGINS_END;
    var f := Front(url, r3) + Repositories(r1);
    MarksApart();
    BeforeReposFree(url, r1, r3, m);
    SectionsFree([], r2, m);
    MarkFree(REPOS_END, m);
    ConcatFree(f, [Mark(REPOS_END)], m);
    ConcatFree(f + [Mark(REPOS_END)], Plugins(r2), m);
  }

  lemma StageByPlugins(url: string, r1: seq<Repository>, r2: seq<Repository>, r3: seq<Repository>)
    ensures Stage(url, r1, r2, r3)
         == Front(url, r3) + Repositories(r1) + [Mark(REPOS_END)] + Plugins(r2) + [Mark(PLUGINS_END)] + BACK
  {
    ConcatAssoc(Front(url, r3) + Repositories(r1) + [Mark(REPOS_END)], Plugins(r2) + [Mark(PLUGINS_END)], BACK);
    ConcatAssoc(Front(url, r3) + Repositories(r1) + [Mark(REPOS_END)], Plugins(r2), [Mark(PLUGINS_END)]);
  }

  lemma PassPlugins(s: string, url: string, r1: seq<Repository>, r2: seq<Repository>, r3: seq<Repository>,
                    exact: bool, r: Repository)
    requires Tracks(s, Stage(url, r1, r2, r3), exact) && Contains(s, PLUGINS_END) && forall x :: x in r3 ==> x in r1
    ensures var s' := ReplaceAll(s, PLUGINS_END, Show(PluginEntry(r) + [Mark(PLUGINS_END)]));
      Tracks(s', Stage(url, r1, r2 + [r], r3), exact && TextsFree(url, r1, r2, PLUGINS_END))
  {
    var f, e := Front(url, r3) + Repositories(r1) + [Mark(REPOS_END)], PluginEntry(r);
    BeforePluginsFree(url, r1, r2, r3);
    SectionsFree([], [], PLUGINS_END);
    EntriesFree(r, PLUGINS_END);
    StageByPlugins(url, r1, r2, r3);
    StageByPlugins(url, r1, r2 + [r], r3);
    PassEntry(s, f + Plugins(r2), BACK, exact, PLUGINS_END, e);
    SectionsSnoc(r2, r);
    ConcatAssoc(f, Plugins(r2), e);
  }

  /** The part of a stage behind the mirror section. */
  function Rest(r1: seq<Repository>, r2: seq<Repository>): seq<Token> {
    GAP + (Repositories(r1) + [Mark(REPOS_END)] + (Plugins(r2) + [Mark(PLUGINS_END)] + BACK))
  }

  lemma RestFree(r1: seq<Repository>, r2: seq<Repository>, m: string)
    requires IsMark(m) && m != REPOS_END && m != PLUGINS_END
    ensures AllStart(Rest(r1, r2)) && NoMark(Rest(r1, r2), m)
    ensures AllFree(Rest(r1, r2), m) <==> ReposFree(r1, m) && ReposFree(r2, m)
  {
    var b := Plugins(r2) + [Mark(PLUGINS_END)] + BACK;
    BehindReposFree(r2, m);
    SectionsFree(r1, [], m);
    MarkFree(REPOS_END, m);
    ConcatFree(Repositories(r1), [Mark(REPOS_END)], m);
    ConcatFree(Repositories(r1) + [Mark(REPOS_END)], b, m);
    MainIsConstant();
    ConstantsAreFree(GAP, m);
    ConcatFree(GAP, Repositories(r1) + [Mark(REPOS_END)] + b, m);
  }

  lemma StageByMirror(url: string, r1: seq<Repository>, r2: seq<Repository>, r3: seq<Repository>)
    ensures Stage(url, r1, r2, r3) == HEAD + MirrorSection(url, r3) + Rest(r1, r2)
  {
    var h, b := HEAD + MirrorSection(url, r3), Plugins(r2) + [Mark(PLUGINS_END)] + BACK;
    ConcatAssoc(h, GAP, Repositories(r1) + [Mark(REPOS_END)] + b);
    ConcatAssoc(Front(url, r3), Repositories(r1) + [Mark(REPOS_END)], b);
    ConcatAssoc(Front(url, r3), Repositories(r1), [Mark(REPOS_END)]);
  }

  lemma ShowIgnored(r: Repository)
    ensures Show([Text(",!", r.id)] + [Mark(MIRROR_OF_END)]) == ",!" + r.id + MIRROR_OF_END
  {
    ShowConcat([Text(",!", r.id)], [Mark(MIRROR_OF_END)]);
    assert Show([Mark(MIRROR_OF_END)]) == MIRROR_OF_END && Show([Text(",!", r.id)]) == ",!" + r.id;
  }

  /** Without a mirror the pass finds its marker only in ids and URLs. */
  lemma PassIgnoredNoMirror(s: string, r1: seq<Repository>, r2: seq<Repository>, r3: seq<Repository>,
                            exact: bool, r: Repository)
    requires Tracks(s, Stage("", r1, r2, r3), exact)
    ensures Tracks(ReplaceAll(s, MIRROR_OF_END, ",!" + r.id + MIRROR_OF_END), Stage("", r1, r2, r3 + [r]),
                   exact && TextsFree("", r1, r2, MIRROR_OF_END))
  {
    var m, h, rest := MIRROR_OF_END, HEAD + [Mark(MIRROR_MARK)], Rest(r1, r2);
    var e := [Text(",!", r.id)];
    MarksApart();
    MainIsConstant();
    ConstantsAreFree(HEAD, m);
    MarkFree(MIRROR_MARK, m);
    RestFree(r1, r2, m);
    StageByMirror("", r1, r2, r3);
    StageByMirror("", r1, r2, r3 + [r]);
    ConcatFree(HEAD, [Mark(MIRROR_MARK)], m);
    ConcatFree(h, rest, m);
    ShowIgnored(r);
    ShowLonger(e, m);
    PassNowhere(s, h + rest, exact, m, e + [Mark(m)]);
  }

  lemma MirrorSectionAt(url: string, r3: seq<Repository>, h: seq<Token>, rest: seq<Token>)
    requires url != ""
    ensures h + MirrorSection(url, r3) + rest
         == h + MIRROR_HEAD + IgnoreList(r3) + [Mark(MIRROR_OF_END)] + (MirrorUrl(url) + rest)
  {
    var l, mk, u := IgnoreList(r3), [Mark(MIRROR_OF_END)], MirrorUrl(url);
    ConcatAssoc(h, MIRROR_HEAD + l + mk, u);
    ConcatAssoc(h, MIRROR_HEAD + l, mk);
    ConcatAssoc(h, MIRROR_HEAD, l);
    ConcatAssoc(h + MIRROR_HEAD + l + mk, u, rest);
  }

  lemma PassIgnoredMirror(s: string, url: string, r1: seq<Repository>, r2: seq<Repository>, r3: seq<Repository>,
                          exact: bool, r: Repository)
    requires url != "" && Tracks(s, Stage(url, r1, r2, r3), exact) && Contains(s, MIRROR_OF_END) && r.ignoreInMirror
    requires forall x :: x in r3 ==> x in r1
    ensures Tracks(ReplaceAll(s, MIRROR_OF_END, ",!" + r.id + MIRROR_OF_END), Stage(url, r1, r2, r3 + [r]),
                   exact && TextsFree(url, r1, r2, MIRROR_OF_END))
  {
    var m, before, behind := MIRROR_OF_END, HEAD + MIRROR_HEAD + IgnoreList(r3), MirrorUrl(url) + Rest(r1, r2);
    MarksApart();
    AroundMirrorEndFree(url, r1, r2, r3, m);
    StageAtMirror(url, r1, r2, r3);
    StageAtMirror(url, r1, r2, r3 + [r]);
    IgnoreListSnoc(r3, r);
    ShowIgnored(r);
    PassEntry(s, before, behind, exact, m, [Text(",!", r.id)]);
  }

  lemma AroundMirrorEndFree(url: string, r1: seq<Repository>, r2: seq<Repository>, r3: seq<Repository>, m: string)
    requires url != "" && IsMark(m) && m != REPOS_END && m != PLUGINS_END && forall x :: x in r3 ==> x in r1
    ensures var a, b := HEAD + MIRROR_HEAD + IgnoreList(r3), MirrorUrl(url) + Rest(r1, r2);
      && AllStart(a) && AllStart(b) && NoMark(a, m) && NoMark(b, m)
      && (AllFree(a, m) && AllFree(b, m) <==> TextsFree(url, r1, r2, m))
  {
    BeforeMirrorEndFree(r3, m);
    BehindMirrorEndFree(url, r1, r2, m);
    assert ReposFree(r1, m) ==> ReposFree(r3, m);
  }

  /** The stage around the end of the mirrorOf list. */
  lemma StageAtMirror(url: string, r1: seq<Repository>, r2: seq<Repository>, r3: seq<Repository>)
    requires url != ""
    ensures Stage(url, r1, r2, r3)
         == HEAD + MIRROR_HEAD + IgnoreList(r3) + [Mark(MIRROR_OF_END)] + (MirrorUrl(url) + Rest(r1, r2))
  {
    StageByMirror(url, r1, r2, r3);
    MirrorSectionAt(url, r3, HEAD, Rest(r1, r2));
  }

  lemma IgnoreListSnoc(r3: seq<Repository>, r: Repository)
    requires r.ignoreInMirror
    ensures HEAD + MIRROR_HEAD + IgnoreList(r3 + [r]) == HEAD + MIRROR_HEAD + IgnoreList(r3) + [Text(",!", r.id)]
  {
    ListsSnoc(r3, r);
    ConcatAssoc(HEAD + MIRROR_HEAD, IgnoreList(r3), [Text(",!", r.id)]);
  }

  lemma BeforeMirrorEndFree(r3: seq<Repository>, m: string)
    requires IsMark(m)
    ensures AllStart(HEAD + MIRROR_HEAD + IgnoreList(r3)) && NoMark(HEAD + MIRROR_HEAD + IgnoreList(r3), m)
    ensures ReposFree(r3, m) ==> AllFree(HEAD + MIRROR_HEAD + IgnoreList(r3), m)
  {
    MainIsConstant();
    ConstantsAreFree(HEAD, m);
    MirrorEndsFree("", m);
    IgnoreListFree(r3, m);
    ConcatFree(HEAD, MIRROR_HEAD, m);
    ConcatFree(HEAD + MIRROR_HEAD, IgnoreList(r3), m);
  }

  lemma BehindMirrorEndFree(url: string, r1: seq<Repository>, r2: seq<Repository>, m: string)
    requires IsMark(m) && m != REPOS_END && m != PLUGINS_END
    ensures AllStart(MirrorUrl(url) + Rest(r1, r2)) && NoMark(MirrorUrl(url) + Rest(r1, r2), m)
    ensures AllFree(MirrorUrl(url) + Rest(r1, r2), m) <==> !Contains(url, m) && ReposFree(r1, m) && ReposFree(r2, m)
  {
    MirrorEndsFree(url, m);
    RestFree(r1, r2, m);
    ConcatFree(MirrorUrl(url), Rest(r1, r2), m);
  }

  // ---------- The loop ----------

  /** The closing markers that later passes look for. */
  predicate HasClosers(s: string, url: string) {
    Contains(s, REPOS_END) && Contains(s, PLUGINS_END) && (url != "" ==> Contains(s, MIRROR_OF_END))
  }

  lemma PassKeepsClosers(s: string, url: string, m: string, to: string)
    requires IsMark(m) && HasClosers(s, url) && Contains(to, m)
    ensures HasClosers(ReplaceAll(s, m, to), url)
  {
    MarksApart();
    MarkShape(m);
    forall x | (x == REPOS_END || x == PLUGINS_END || x == MIRROR_OF_END) && Contains(s, x)
      ensures Contains(ReplaceAll(s, m, to), x)
    {
      if x == m {
        ContainsInserted(s, m, to, x);
      } else {
        ContainsKept(s, m, to, x);
      }
    }
  }

  /** The passes of one iteration find their markers only where they belong. */
  predicate StepSafe(url: string, rs: seq<Repository>, r: Repository) {
    && TextsFree(url, rs, rs, REPOS_END)
    && TextsFree(url, rs + [r], rs, PLUGINS_END)
    && (r.ignoreInMirror ==> TextsFree(url, rs + [r], rs + [r], MIRROR_OF_END))
  }

  lemma EntryEndsInMark(e: seq<Token>, m: string)
    ensures Contains(Show(e + [Mark(m)]), m)
  {
    ShowContains(e + [Mark(m)], m);
  }

  lemma TokensAndNothing(a: seq<Token>)
    ensures a + [] == a
  {
  }

  lemma NotIgnored(url: string, rs: seq<Repository>, r: Repository)
    requires !r.ignoreInMirror
    ensures Stage(url, rs + [r], rs + [r], rs) == Stage(url, rs + [r], rs + [r], rs + [r])
  {
    ListsSnoc(rs, r);
    TokensAndNothing(IgnoreList(rs));
    assert IgnoreList(rs + [r]) == IgnoreList(rs);
  }

  lemma StepTracks(s: string, url: string, rs: seq<Repository>, exact: bool, r: Repository)
    requires Tracks(s, Stage(url, rs, rs, rs), exact) && HasClosers(s, url)
    ensures Tracks(AddOne(s, r), Stage(url, rs + [r], rs + [r], rs + [r]), exact && StepSafe(url, rs, r))
    ensures HasClosers(AddOne(s, r), url)
  {
    var e1, e2 := RepositoryEntry(r) + [Mark(REPOS_END)], PluginEntry(r) + [Mark(PLUGINS_END)];
    var s1 := ReplaceAll(s, REPOS_END, Show(e1));
    var s2 := ReplaceAll(s1, PLUGINS_END, Show(e2));
    PassRepositories(s, url, rs, rs, rs, exact, r);
    EntryEndsInMark(RepositoryEntry(r), REPOS_END);
    PassKeepsClosers(s, url, REPOS_END, Show(e1));
    var x1 := exact && TextsFree(url, rs, rs, REPOS_END);
    PassPlugins(s1, url, rs + [r], rs, rs, x1, r);
    EntryEndsInMark(PluginEntry(r), PLUGINS_END);
    PassKeepsClosers(s1, url, PLUGINS_END, Show(e2));
    var x2 := x1 && TextsFree(url, rs + [r], rs, PLUGINS_END);
    if r.ignoreInMirror {
      if url == "" {
        PassIgnoredNoMirror(s2, rs + [r], rs + [r], rs, x2, r);
      } else {
        PassIgnoredMirror(s2, url, rs + [r], rs + [r], rs, x2, r);
      }
      ShowIgnored(r);
      EntryEndsInMark([Text(",!", r.id)], MIRROR_OF_END);
      PassKeepsClosers(s2, url, MIRROR_OF_END, ",!" + r.id + MIRROR_OF_END);
    } else {
      NotIgnored(url, rs, r);
    }
  }

  predicate AnyIgnored(rs: seq<Repository>) {
    exists r :: r in rs && r.ignoreInMirror
  }

  predicate UrlSafe(url: string, rs: seq<Repository>) {
    url != "" ==>
      && !Contains(url, PROFILES_MARK) && !Contains(url, REPOS_END) && !Contains(url, PLUGINS_END)
      && (AnyIgnored(rs) ==> !Contains(url, MIRROR_OF_END))
  }

  predicate RepoSafe(rs: seq<Repository>, k: nat)
    requires k < |rs|
  {
    && RepoFree(rs[k], PLUGINS_END)
    && (k + 1 < |rs| ==> RepoFree(rs[k], REPOS_END))
    && (AnyIgnored(rs[k..]) ==> RepoFree(rs[k], MIRROR_OF_END))
  }

  /** The inputs whose texts contain no marker that a later pass looks for. */
  predicate Safe(url: string, rs: seq<Repository>) {
    rs != [] ==> UrlSafe(url, rs) && forall k :: 0 <= k < |rs| ==> RepoSafe(rs, k)
  }

  lemma AnyIgnoredSnoc(rs: seq<Repository>, r: Repository, k: nat)
    requires k <= |rs|
    ensures AnyIgnored((rs + [r])[k..]) <==> AnyIgnored(rs[k..]) || r.ignoreInMirror
  {
    assert (rs + [r])[k..] == rs[k..] + [r];
    assert forall x :: x in rs[k..] + [r] <==> x in rs[k..] || x == r;
  }

  lemma RepoSafeSnoc(rs: seq<Repository>, r: Repository, k: nat)
    requires k <= |rs|
    ensures k < |rs| ==> (RepoSafe(rs + [r], k) <==>
              && RepoSafe(rs, k) && RepoFree(rs[k], REPOS_END) && (r.ignoreInMirror ==> RepoFree(rs[k], MIRROR_OF_END)))
    ensures k == |rs| ==> (RepoSafe(rs + [r], k) <==>
              && RepoFree(r, PLUGINS_END) && (r.ignoreInMirror ==> RepoFree(r, MIRROR_OF_END)))
  {
    AnyIgnoredSnoc(rs, r, k);
    assert (rs + [r])[k] == if k < |rs| then rs[k] else r;
  }

  lemma UrlSafeSnoc(url: string, rs: seq<Repository>, r: Repository)
    ensures UrlSafe(url, rs + [r]) <==>
      (url != "" ==>
        && !Contains(url, PROFILES_MARK) && !Contains(url, REPOS_END) && !Contains(url, PLUGINS_END)
        && (AnyIgnored(rs) || r.ignoreInMirror ==> !Contains(url, MIRROR_OF_END)))
  {
    AnyIgnoredSnoc(rs, r, 0);
    assert (rs + [r])[0..] == rs + [r] && rs[0..] == rs;
  }

  predicate BaseSafe(url: string) {
    url != "" ==> !Contains(url, PROFILES_MARK)
  }

  lemma SafeSnoc(url: string, rs: seq<Repository>, r: Repository)
    ensures Safe(url, rs + [r]) <==> (if rs == [] then BaseSafe(url) else Safe(url, rs)) && StepSafe(url, rs, r)
  {
    var all := rs + [r];
    UrlSafeSnoc(url, rs, r);
    forall k | 0 <= k <= |rs|
      ensures k < |rs| ==> (RepoSafe(all, k) <==>
                && RepoSafe(rs, k) && RepoFree(rs[k], REPOS_END)
                && (r.ignoreInMirror ==> RepoFree(rs[k], MIRROR_OF_END)))
      ensures k == |rs| ==> (RepoSafe(all, k) <==>
                && RepoFree(r, PLUGINS_END) && (r.ignoreInMirror ==> RepoFree(r, MIRROR_OF_END)))
    {
      RepoSafeSnoc(rs, r, k);
    }
    if Safe(url, all) {
      assert forall x :: x in rs ==> exists k :: 0 <= k < |rs| && rs[k] == x;
      assert RepoSafe(all, |rs|);
      assert forall k :: 0 <= k < |rs| ==> RepoSafe(all, k);
    } else if (if rs == [] then BaseSafe(url) else Safe(url, rs)) && StepSafe(url, rs, r) {
      assert forall k :: 0 <= k < |rs| ==> rs[k] in rs && RepoFree(rs[k], REPOS_END);
      assert false;
    }
  }

  // ---------- The text before the loop ----------

  lemma MirrorIsLong(url: string)
    ensures |MIRROR_MARK| < |Show(Mirror(url))|
  {
    var m := Mirror(url);
    assert m[0] == Text("\n  ", "<mirrors>") && m[1] == Text("\n    ", "<mirror>");
    assert m[2] == Text("\n      ", "<id>mirror-central");
    ShowPrefix(m, 3);
    assert m[..3] == [m[0], m[1], m[2]];
    ShowThree(m[0], m[1], m[2]);
  }

  lemma ShowPrefix(doc: seq<Token>, n: nat)
    requires n <= |doc|
    ensures |Show(doc[..n])| <= |Show(doc)|
  {
    ShowConcat(doc[..n], doc[n..]);
    assert doc[..n] + doc[n..] == doc;
  }

  lemma ShowThree(a: Token, b: Token, c: Token)
    ensures Show([a, b, c]) == ShowToken(a) + ShowToken(b) + ShowToken(c)
  {
    assert [a, b, c] == [a] + [b] + [c];
    ShowConcat([a] + [b], [c]);
    ShowConcat([a], [b]);
    assert Show([a]) == ShowToken(a) && Show([b]) == ShowToken(b) && Show([c]) == ShowToken(c);
  }

  lemma ProfilesAreLong()
    ensures |PROFILES_MARK| < |Show(PROFILES)|
  {
    assert PROFILES[0] == Text("\n  ", "<profiles>") && PROFILES[1] == Text("\n    ", "<profile>");
    assert PROFILES[2] == Text("\n      ", "<id>default");
    ShowPrefix(PROFILES, 3);
    assert PROFILES[..3] == [PROFILES[0], PROFILES[1], PROFILES[2]];
    ShowThree(PROFILES[0], PROFILES[1], PROFILES[2]);
  }

  /** The pass for the mirror finds the one marker of the constant text. */
  lemma WithMirror(url: string)
    requires url != ""
    ensures ReplaceAll(Show(MAIN), MIRROR_MARK, Show(Mirror(url)))
         == Show(Front(url, []) + [Mark(PROFILES_MARK)] + FOOT)
  {
    var m, b := MIRROR_MARK, GAP + [Mark(PROFILES_MARK)] + FOOT;
    MarksApart();
    MainIsConstant();
    ConstantsAreFree(HEAD, m);
    ConstantsAreFree(GAP, m);
    ConstantsAreFree(FOOT, m);
    MarkFree(PROFILES_MARK, m);
    ConcatFree(GAP, [Mark(PROFILES_MARK)], m);
    ConcatFree(GAP + [Mark(PROFILES_MARK)], FOOT, m);
    MirrorIsLong(url);
    MainByMirror();
    ShowContains(MAIN, m);
    PassAt(Show(MAIN), HEAD, b, true, m, Mirror(url));
    FrontByMirror(url);
  }

  lemma MainByMirror()
    ensures MAIN == HEAD + [Mark(MIRROR_MARK)] + (GAP + [Mark(PROFILES_MARK)] + FOOT)
  {
    ConcatAssoc(HEAD + [Mark(MIRROR_MARK)], GAP + [Mark(PROFILES_MARK)], FOOT);
    ConcatAssoc(HEAD + [Mark(MIRROR_MARK)], GAP, [Mark(PROFILES_MARK)]);
  }

  lemma FrontByMirror(url: string)
    requires url != ""
    ensures HEAD + Mirror(url) + (GAP + [Mark(PROFILES_MARK)] + FOOT) == Front(url, []) + [Mark(PROFILES_MARK)] + FOOT
  {
    assert IgnoreList([]) == [];
    assert MIRROR_HEAD + IgnoreList([]) == MIRROR_HEAD;
    assert Mirror(url) == MirrorSection(url, []);
    ConcatAssoc(HEAD + Mirror(url), GAP + [Mark(PROFILES_MARK)], FOOT);
    ConcatAssoc(HEAD + Mirror(url), GAP, [Mark(PROFILES_MARK)]);
  }

  lemma EmptyStage(url: string)
    ensures Front(url, []) + PROFILES + FOOT == Stage(url, [], [], [])
  {
    var f, r, p := Front(url, []), PROFILES_HEAD + [Mark(REPOS_END)], PROFILES_MIDDLE + [Mark(PLUGINS_END)];
    assert RepositoryList([]) == [] && PluginList([]) == [];
    assert Repositories([]) == PROFILES_HEAD && Plugins([]) == PROFILES_MIDDLE;
    ConcatAssoc(r, PROFILES_MIDDLE, [Mark(PLUGINS_END)]);
    assert PROFILES == r + p + PROFILES_FOOT;
    ConcatAssoc(f, r + p, PROFILES_FOOT);
    ConcatAssoc(f, r, p);
    ConcatAssoc(f, PROFILES_HEAD, [Mark(REPOS_END)]);
    ConcatAssoc(f + r + p, PROFILES_FOOT, FOOT);
    ConcatAssoc(f + r, p, BACK);
  }

  lemma NoRepositories(url: string)
    ensures Base(url, false) == Show(Document(url, []))
  {
    if url == "" {
      assert MirrorSection("", []) == [Mark(MIRROR_MARK)];
    } else {
      WithMirror(url);
    }
  }

  lemma ProfilesHaveClosers()
    ensures Contains(Show(PROFILES), REPOS_END) && Contains(Show(PROFILES), PLUGINS_END)
  {
    ShowContains(PROFILES, REPOS_END);
    ShowContains(PROFILES, PLUGINS_END);
  }

  lemma FrontHasCloser(url: string, doc: seq<Token>)
    requires url != ""
    ensures Contains(Show(Front(url, []) + doc), MIRROR_OF_END)
  {
    assert Mark(MIRROR_OF_END) in MirrorSection(url, []);
    assert Mark(MIRROR_OF_END) in Front(url, []);
    ShowContains(Front(url, []) + doc, MIRROR_OF_END);
  }

  lemma BaseTracks(url: string)
    ensures Tracks(Base(url, true), Stage(url, [], [], []), BaseSafe(url)) && HasClosers(Base(url, true), url)
  {
    var m, s := PROFILES_MARK, Base(url, false);
    NoRepositories(url);
    MarksApart();
    MarkShape(m);
    FrontFree(url, [], m);
    MainIsConstant();
    ConstantsAreFree(FOOT, m);
    ProfilesAreLong();
    ShowContains(Document(url, []), m);
    PassAt(s, Front(url, []), FOOT, true, m, PROFILES);
    EmptyStage(url);
    ProfilesHaveClosers();
    ContainsInserted(s, m, Show(PROFILES), REPOS_END);
    ContainsInserted(s, m, Show(PROFILES), PLUGINS_END);
    if url != "" {
      ConcatAssoc(Front(url, []), [Mark(m)], FOOT);
      FrontHasCloser(url, [Mark(m)] + FOOT);
      ContainsKept(s, m, Show(PROFILES), MIRROR_OF_END);
    }
  }

  // ---------- The main result ----------

  lemma {:induction false} AddAllTracks(url: string, rs: seq<Repository>)
    ensures Tracks(AddAll(Base(url, true), rs), Stage(url, rs, rs, rs),
                   if rs == [] then BaseSafe(url) else Safe(url, rs))
    ensures HasClosers(AddAll(Base(url, true), rs), url)
    decreases |rs|
  {
    if rs == [] {
      BaseTracks(url);
    } else {
      var first, r := rs[..|rs| - 1], rs[|rs| - 1];
      assert rs == first + [r];
      AddAllTracks(url, first);
      StepTracks(AddAll(Base(url, true), first), url, first,
                 if first == [] then BaseSafe(url) else Safe(url, first), r);
      SafeSnoc(url, first, r);
    }
  }

  /** The generated text is the structured document exactly when no id or URL contains a marker that a
      later pass looks for. */
  lemma GeneratedIsDocumentIffSafe(url: string, rs: seq<Repository>)
    ensures Generated(url, rs) == Show(Document(url, rs)) <==> Safe(url, rs)
  {
    if rs == [] {
      NoRepositories(url);
    } else {
      AddAllTracks(url, rs);
    }
  }

  /** One input that is not safe: a repository, not the last, whose URL is the closing marker of the list. */
  lemma MarkerAsUrlBreaksDocument(id: string, last: Repository)
    ensures var rs := [Repository(id, REPOS_END, false), last];
      Generated("", rs) != Show(Document("", rs))
  {
    var rs := [Repository(id, REPOS_END, false), last];
    GeneratedIsDocumentIffSafe("", rs);
    assert rs[0].url == REPOS_END && Contains(rs[0].url, REPOS_END);
    assert !RepoSafe(rs, 0);
  }

  lemma ShowEntries(r: Repository)
    ensures Show(RepositoryEntry(r) + [Mark(REPOS_END)])
         == "\n" + "<repository>" + Show(Content(r)) + "</repository>\n" + REPOS_END
    ensures Show(PluginEntry(r) + [Mark(PLUGINS_END)])
         == "\n" + "<pluginRepository>" + Show(Content(r)) + "</pluginRepository>\n" + PLUGINS_END
  {
    ShowEntry("\n", "<repository>", Content(r), "</repository>\n", REPOS_END);
    ShowEntry("\n", "<pluginRepository>", Content(r), "</pluginRepository>\n", PLUGINS_END);
  }

  lemma ShowEntry(ws: string, open: string, c: seq<Token>, close: string, m: string)
    ensures Show([Text(ws, open)] + c + [Text("", close)] + [Mark(m)]) == ws + open + Show(c) + close + m
  {
    var o, e := Text(ws, open), Text("", close);
    ShowConcat([o] + c + [e], [Mark(m)]);
    ShowConcat([o] + c, [e]);
    ShowConcat([o], c);
    assert "" + close == close;
    assert Show([o]) == ShowToken(o) && Show([e]) == ShowToken(e) && Show([Mark(m)]) == m;
  }

  /** The body of the loop: the repository goes into both lists and, if it is ignored, into mirrorOf. */
  method AddToContent(settingsContent: string, repo: Repository) returns (content: string)
    ensures content == AddOne(settingsContent, repo)
  {
    ShowEntries(repo);
    var repositoryContent := Show(Content(repo));
    content := ReplaceAll(settingsContent, REPOS_END,
      "\n" + "<repository>" + repositoryContent + "</repository>\n" + REPOS_END);
    content := ReplaceAll(content, PLUGINS_END,
      "\n" + "<pluginRepository>" + repositoryContent + "</pluginRepository>\n" + PLUGINS_END);
    if repo.ignoreInMirror {
      content := ReplaceAll(content, MIRROR_OF_END, ",!" + repo.id + MIRROR_OF_END);
    }
  }

  /** The content before the loop. */
  method StartContent(mirrorURL: string, hasRepositories: bool) returns (settingsContent: string)
    ensures settingsContent == Base(mirrorURL, hasRepositories)
  {
    settingsContent := Show(MAIN);
    if mirrorURL != "" {
      settingsContent := ReplaceAll(settingsContent, MIRROR_MARK, Show(Mirror(mirrorURL)));
    }
    if hasRepositories {
      settingsContent := ReplaceAll(settingsContent, PROFILES_MARK, Show(PROFILES));
    }
  }

  lemma AddAllNext(content: string, rs: seq<Repository>, i: nat)
    requires i < |rs|
    ensures AddAll(content, rs[..i + 1]) == AddOne(AddAll(content, rs[..i]), rs[i])
  {
    assert rs[..i + 1][..i] == rs[..i];
  }

  method AddAllToContent(start: string, repositories: seq<Repository>) returns (settingsContent: string)
    ensures settingsContent == AddAll(start, repositories)
  {
    settingsContent := start;
    for i := 0 to |repositories|
      invariant settingsContent == AddAll(start, repositories[..i])
    {
      AddAllNext(start, repositories, i);
      settingsContent := AddToContent(settingsContent, repositories[i]);
    }
    assert repositories[..|repositories|] == repositories;
  }

  class Settings {
    var mirrorURL: string
    var repositories: seq<Repository>

    constructor ()
      ensures mirrorURL == "" && repositories == []
    {
      mirrorURL, repositories := "", [];
    }

    method SetMirrorURL(url: string)
      modifies this
      ensures mirrorURL == url && repositories == old(repositories)
    {
      mirrorURL := url;
    }

    method AddRepository(repoID: string, repoURL: string, ignoreInMirror: bool)
      modifies this
      ensures repositories == old(repositories) + [Repository(repoID, repoURL, ignoreInMirror)]
      ensures mirrorURL == old(mirrorURL)
    {
      repositories := repositories + [Repository(repoID, repoURL, ignoreInMirror)];
    }

    method Generate() returns (settingsContent: string)
      ensures settingsContent == Generated(mirrorURL, repositories)
      ensures settingsContent == Show(Document(mirrorURL, repositories)) <==> Safe(mirrorURL, repositories)
    {
      settingsContent := StartContent(mirrorURL, repositories != []);
      settingsContent := AddAllToContent(settingsContent, repositories);
      GeneratedIsDocumentIffSafe(mirrorURL, repositories);
    }
  }
}
