/**
 The namespace history: a text file to which created namespaces are appended, and from which a deleted one is
 removed by splitting, filtering and writing the file again.
 */
module NamespaceHistory {
  import opened Sequences
  import opened GoStrings
  import opened Optional

  const NEWLINE := "\n"

  /** The entries that reading the file gives; none if there is no file. */
  function Entries(file: Option<string>): seq<string> {
    match file
    case None => []
    case Some(content) => Split(content, NEWLINE)
  }

  function Without(names: seq<string>, name: string): seq<string> {
    if names == [] then []
    else (if names[0] == name then [] else [names[0]]) + Without(names[1..], name)
  }

  function Add(file: Option<string>, name: string): Option<string> {
    Some((if file.Some? then file.value else "") + (name + NEWLINE))
  }

  function Remove(file: Option<string>, name: string): Option<string> {
    Some(Join(Without(Entries(file), name), NEWLINE))
  }

  // ---------- The file, updated ----------

  /** The file system is not part of this model: every read and write succeeds. */
  class History {
    var file: Option<string>

    constructor ()
      ensures file == None
    {
      file := None;
    }

    method AddNamespace(name: string)
      modifies this
      ensures file == Add(old(file), name)
      ensures file == Some((if old(file).Some? then old(file).value else "") + (name + "\n"))
    {
      file := Some((if file.Some? then file.value else "") + (name + NEWLINE));
    }

    method RemoveNamespace(name: string)
      modifies this
      ensures file == Remove(old(file), name)
    {
      var names, newNames := Entries(file), [];
      for i := 0 to |names|
        invariant newNames == Without(names[..i], name)
      {
        WithoutSnoc(names[..i], names[i], name);
        assert names[..i + 1] == names[..i] + [names[i]];
        if name != names[i] {
          newNames := newNames + [names[i]];
        }
      }
      assert names[..|names|] == names;
      file := Some(Join(newNames, NEWLINE));
    }

    /** Tries to delete every namespace that was recorded at the start, in order.  A successful deletion
        rewrites the history on the way, and in the end the failed ones are forgotten as well. */
    method PruneNamespaces(ok: string -> bool) returns (tried: seq<string>)
      modifies this
      ensures tried == Without(Entries(old(file)), "")
      ensures forall x :: x in tried <==> x in Entries(old(file)) && x != ""
      ensures file == None
    {
      var names := Entries(file);
      tried := [];
      for i := 0 to |names|
        invariant tried == Without(names[..i], "")
      {
        WithoutSnoc(names[..i], names[i], "");
        assert names[..i + 1] == names[..i] + [names[i]];
        if |names[i]| > 0 {
          if ok(names[i]) {
            RemoveNamespace(names[i]);
          }
          tried := tried + [names[i]];
        }
      }
      assert names[..|names|] == names;
      WithoutMembers(names, "");
      file := None;
    }
  }

  // ---------- The list that the file stands for ----------

  predicate IsLine(s: string) {
    forall i :: 0 <= i < |s| ==> s[i] != '\n'
  }

  /** A name that can be recorded: not empty, on one line. */
  predicate IsName(s: string) {
    s != "" && IsLine(s)
  }

  predicate AllNames(names: seq<string>) {
    forall i :: 0 <= i < |names| ==> IsName(names[i])
  }

  /** Every name, each ended by a newline. */
  function Lines(names: seq<string>): string {
    if names == [] then "" else names[0] + NEWLINE + Lines(names[1..])
  }

  predicate Records(file: Option<string>, names: seq<string>) {
    match file
    case None => names == []
    case Some(content) => content == Lines(names)
  }

  lemma {:induction false} LinesSnoc(names: seq<string>, name: string)
    ensures Lines(names + [name]) == Lines(names) + (name + NEWLINE)
  {
    if names == [] {
      assert [name][1..] == [];
      assert names + [name] == [name];
      assert "" + (name + NEWLINE) == name + NEWLINE + "";
    } else {
      LinesSnoc(names[1..], name);
      assert (names + [name])[1..] == names[1..] + [name];
      ConcatAssoc(names[0] + NEWLINE, Lines(names[1..]), name + NEWLINE);
    }
  }

  lemma LineHasNoNewline(s: string)
    requires IsLine(s)
    ensures Split(s, NEWLINE) == [s]
  {
    ContainsNeedsFirst(s, NEWLINE);
    SplitWithout(s, NEWLINE);
  }

  lemma SplitAfterNewline(t: string)
    ensures Split(NEWLINE + t, NEWLINE) == [""] + Split(t, NEWLINE)
  {
    assert (NEWLINE + t)[1..] == t;
  }

  /** Reading the lines back gives the names and the empty entry after the last newline. */
  lemma {:induction false} SplitLines(names: seq<string>)
    requires forall i :: 0 <= i < |names| ==> IsLine(names[i])
    ensures Split(Lines(names), NEWLINE) == names + [""]
  {
    if names != [] {
      var rest := Lines(names[1..]);
      SplitLines(names[1..]);
      SplitAfterNewline(rest);
      LineHasNoNewline(names[0]);
      ConcatAssoc(names[0], NEWLINE, rest);
      SplitParts(names[0], NEWLINE + rest, NEWLINE);
      assert names[0] + "" == names[0];
      assert [names[0]] + (names[1..] + [""]) == names + [""];
    }
  }

  /** Joining names and a last empty entry ends every name with a newline. */
  lemma {:induction false} JoinLines(names: seq<string>)
    ensures Join(names + [""], NEWLINE) == Lines(names)
  {
    if names != [] {
      JoinLines(names[1..]);
      assert names + [""] == [names[0]] + (names[1..] + [""]);
      JoinCons(names[0], names[1..] + [""], NEWLINE);
    }
  }

  lemma {:induction false} WithoutSnoc(names: seq<string>, last: string, name: string)
    ensures Without(names + [last], name) == Without(names, name) + if last == name then [] else [last]
  {
    if names == [] {
      assert [last][1..] == [];
      assert names + [last] == [last];
    } else {
      WithoutSnoc(names[1..], last, name);
      assert (names + [last])[1..] == names[1..] + [last];
    }
  }

  lemma {:induction false} WithoutKeepsNames(names: seq<string>, name: string)
    requires AllNames(names)
    ensures AllNames(Without(names, name)) && name !in Without(names, name)
    ensures name == "" ==> Without(names, name) == names
  {
    if names != [] {
      WithoutKeepsNames(names[1..], name);
    }
  }

  // ---------- Each operation against the list ----------

  /** An append never glues two names: the recorded lines end with a newline. */
  lemma AddRecords(file: Option<string>, names: seq<string>, name: string)
    requires Records(file, names)
    ensures Records(Add(file, name), names + [name])
  {
    LinesSnoc(names, name);
  }

  lemma {:induction false} SplitGivesLines(s: string)
    ensures forall i :: 0 <= i < |Split(s, NEWLINE)| ==> IsLine(Split(s, NEWLINE)[i])
  {
    if s == "" {
    } else if NEWLINE <= s {
      SplitGivesLines(s[1..]);
    } else {
      SplitGivesLines(s[1..]);
    }
  }

  lemma {:induction false} WithoutIsWithin(names: seq<string>, name: string)
    requires forall i :: 0 <= i < |names| ==> IsLine(names[i])
    ensures forall i :: 0 <= i < |Without(names, name)| ==>
              IsLine(Without(names, name)[i]) && Without(names, name)[i] != name
  {
    if names != [] {
      WithoutIsWithin(names[1..], name);
    }
  }

  /** Reading back gives the list exactly if each recorded name is a non-empty single line. */
  lemma ReadBackIff(file: Option<string>, names: seq<string>)
    requires Records(file, names)
    ensures Without(Entries(file), "") == names <==> AllNames(names)
  {
    if file.Some? {
      if AllNames(names) {
        SplitLines(names);
        WithoutSnoc(names, "", "");
        WithoutKeepsNames(names, "");
        assert names + [] == names;
      }
      SplitGivesLines(file.value);
      WithoutIsWithin(Entries(file), "");
    }
  }

  /** Removing gives the list without all entries equal to the name, exactly if the name is not empty or
      nothing is recorded. */
  lemma RemoveRecordsIff(file: Option<string>, names: seq<string>, name: string)
    requires Records(file, names) && AllNames(names)
    ensures Records(Remove(file, name), Without(names, name)) <==> name != "" || names == []
  {
    if file.Some? {
      SplitLines(names);
      WithoutSnoc(names, "", name);
      WithoutKeepsNames(names, name);
      if name != "" {
        JoinLines(Without(names, name));
      } else {
        assert names + [] == names;
        JoinEndsWithName(names);
      }
    }
  }

  /** Without the last empty entry the newline after the last name is lost. */
  lemma {:induction false} JoinEndsWithName(names: seq<string>)
    ensures names != [] ==> Join(names, NEWLINE) + NEWLINE == Lines(names)
    ensures names == [] ==> Join(names, NEWLINE) == Lines(names)
  {
    if |names| > 1 {
      JoinEndsWithName(names[1..]);
      ConcatAssoc(names[0] + NEWLINE, Join(names[1..], NEWLINE), NEWLINE);
    } else if |names| == 1 {
      assert names[1..] == [];
      assert names[0] + NEWLINE + "" == names[0] + NEWLINE;
    }
  }

  // ---------- Runs ----------

  datatype Op = Created(name: string) | Deleted(name: string) | Pruned

  function Exec(file: Option<string>, ops: seq<Op>): Option<string>
    decreases |ops|
  {
    if ops == [] then file
    else
      var next := match ops[0]
                  case Created(name) => Add(file, name)
                  case Deleted(name) => Remove(file, name)
                  case Pruned => None;
      Exec(next, ops[1..])
  }

  /** The same run on a list: append, drop all equal entries, clear. */
  function ExecList(names: seq<string>, ops: seq<Op>): seq<string>
    decreases |ops|
  {
    if ops == [] then names
    else
      var next := match ops[0]
                  case Created(name) => names + [name]
                  case Deleted(name) => Without(names, name)
                  case Pruned => [];
      ExecList(next, ops[1..])
  }

  predicate Named(ops: seq<Op>) {
    forall i :: 0 <= i < |ops| ==> ops[i].Pruned? || IsName(ops[i].name)
  }

  /** The file refines the list: over every run on names it is empty or ends with a newline, and its non-empty
      entries are the list. */
  lemma {:induction false} FileRefinesList(file: Option<string>, names: seq<string>, ops: seq<Op>)
    requires Records(file, names) && AllNames(names) && Named(ops)
    ensures Records(Exec(file, ops), ExecList(names, ops))
    ensures Without(Entries(Exec(file, ops)), "") == ExecList(names, ops)
    decreases |ops|
  {
    if ops == [] {
      ReadBackIff(file, names);
    } else {
      match ops[0] {
        case Created(name) =>
          AddRecords(file, names, name);
          FileRefinesList(Add(file, name), names + [name], ops[1..]);
        case Deleted(name) =>
          RemoveRecordsIff(file, names, name);
          WithoutKeepsNames(names, name);
          FileRefinesList(Remove(file, name), Without(names, name), ops[1..]);
        case Pruned =>
          FileRefinesList(None, [], ops[1..]);
      }
    }
  }

  /** The empty name does the harm: after its removal the next append is glued to the last name. */
  lemma EmptyNameGluesNames(names: seq<string>, first: string, second: string)
    requires AllNames(names) && IsName(first) && IsName(second)
    ensures var file := Some(Lines(names + [first]));
      Without(Entries(Add(Remove(file, ""), second)), "") == names + [first + second]
  {
    var all, glued := names + [first], names + [first + second];
    RemoveEmptyName(all);
    GluedLine(names, first, second);
    ReadBackIff(Some(Lines(glued)), glued);
  }

  lemma RemoveEmptyName(names: seq<string>)
    requires AllNames(names)
    ensures Remove(Some(Lines(names)), "") == Some(Join(names, NEWLINE))
  {
    SplitLines(names);
    WithoutSnoc(names, "", "");
    WithoutKeepsNames(names, "");
    assert names + [] == names;
  }

  lemma GluedLine(names: seq<string>, first: string, second: string)
    ensures Join(names + [first], NEWLINE) + (second + NEWLINE) == Lines(names + [first + second])
  {
    var content := Join(names + [first], NEWLINE);
    JoinEndsWithName(names + [first]);
    LinesSnoc(names, first);
    LinesSnoc(names, first + second);
    ConcatAssoc(Lines(names), first, NEWLINE);
    SameBeforeNewline(content, Lines(names) + first);
    ConcatAssoc(Lines(names), first, second + NEWLINE);
    ConcatAssoc(first, second, NEWLINE);
  }

  lemma SameBeforeNewline(a: string, b: string)
    requires a + NEWLINE == b + NEWLINE
    ensures a == b
  {
    assert (a + NEWLINE)[..|a|] == a;
    assert (b + NEWLINE)[..|b|] == b;
    assert |a + NEWLINE| == |b + NEWLINE|;
  }

  // ---------- Removal by names ----------

  /** What is left keeps its number of occurrences. */
  lemma {:induction false} WithoutCounts(names: seq<string>, name: string, x: string)
    ensures multiset(Without(names, name))[x] == if x == name then 0 else multiset(names)[x]
  {
    if names != [] {
      WithoutCounts(names[1..], name, x);
      assert names == [names[0]] + names[1..];
      if names[0] != name {
        var rest := Without(names[1..], name);
        assert multiset([names[0]] + rest) == multiset{names[0]} + multiset(rest);
      } else {
        assert [] + Without(names[1..], name) == Without(names[1..], name);
      }
    }
  }

  lemma {:induction false} WithoutMembers(names: seq<string>, name: string)
    ensures forall x :: x in Without(names, name) <==> x in names && x != name
  {
    forall x
      ensures x in Without(names, name) <==> x in names && x != name
    {
      WithoutCounts(names, name, x);
      assert x in Without(names, name) <==> x in multiset(Without(names, name));
      assert x in names <==> x in multiset(names);
    }
  }

  /** After a run the history mentions a name exactly as often as it was recorded since its last removal. */
  function Occurrences(ops: seq<Op>, x: string): nat {
    if ops == [] then 0
    else
      match ops[|ops| - 1]
      case Created(name) => Occurrences(ops[..|ops| - 1], x) + if name == x then 1 else 0
      case Deleted(name) => if name == x then 0 else Occurrences(ops[..|ops| - 1], x)
      case Pruned => 0
  }

  lemma {:induction false} ExecListSnoc(names: seq<string>, ops: seq<Op>, op: Op)
    ensures ExecList(names, ops + [op]) == ExecList(ExecList(names, ops), [op])
    decreases |ops|
  {
    if ops == [] {
      assert ops + [op] == [op];
    } else {
      assert (ops + [op])[1..] == ops[1..] + [op];
      var next := match ops[0]
                  case Created(name) => names + [name]
                  case Deleted(name) => Without(names, name)
                  case Pruned => [];
      ExecListSnoc(next, ops[1..], op);
    }
  }

  lemma {:induction false} ExecListCounts(ops: seq<Op>, x: string)
    ensures multiset(ExecList([], ops))[x] == Occurrences(ops, x)
    decreases |ops|
  {
    if ops != [] {
      var n := |ops| - 1;
      var op, before := ops[n], ExecList([], ops[..n]);
      assert ops == ops[..n] + [op];
      ExecListCounts(ops[..n], x);
      ExecListSnoc([], ops[..n], op);
      assert [op][1..] == [];
      if op.Deleted? {
        WithoutCounts(before, op.name, x);
      }
    }
  }

  /** Over every run on names, from no file: the file's non-empty entries hold each name as often as it was recorded
      since it was last removed or the history was last pruned. */
  lemma HistoryCounts(ops: seq<Op>, x: string)
    requires Named(ops) && x != ""
    ensures multiset(Entries(Exec(None, ops)))[x] == Occurrences(ops, x)
  {
    FileRefinesList(None, [], ops);
    ExecListCounts(ops, x);
    WithoutCounts(Entries(Exec(None, ops)), "", x);
  }
}
