/**
 The pod log collector of one namespace as a step system: the scanning loop of StartPodLogCollector,
 one follower goroutine per container, and the stop pass of StopPodLogCollector.

 Every access to the shared pod map, to a loggingFinished flag or to a log file is one step, and steps
 of the three kinds of thread interleave freely.  A run is the sequence of actions that happened.
 */
module LogCollector {

  /** A container is identified by its pod and its name inside the pod. */
  datatype Cid = Cid(pod: string, name: string)

  /** One entry of the answer of GetPods. */
  datatype PodInfo = PodInfo(name: string, running: bool, containers: seq<string>)

  datatype CollectorPc =
    | Select                                                            // blocked in the select statement
    | Scanning(todo: seq<PodInfo>)                                      // ranging over the listed pods
    | Registering(pod: string, names: seq<string>, todo: seq<PodInfo>)  // ranging over the pod's containers
    | Spawning(pod: string, names: seq<string>, todo: seq<PodInfo>)     // names[0] registered, goroutine not started
    | Ended                                                             // returned after the stop signal

  datatype FollowerPc =
    | Following    // the log is being followed
    | Fetched      // the log has arrived, the flag was not read yet
    | Decided      // the flag was read as unset
    | Marked       // the flag is set, the file not written yet
    | Written      // the file is written
    | Ignored      // the flag was read as set
    | Lost         // following the log failed

  datatype Follower = Follower(c: Cid, pc: FollowerPc)

  datatype StopPc =
    | NotCalled
    | Sending                                     // blocked on the unbuffered stop channel
    | Pass(todo: set<Cid>)                        // ranging over the registered containers
    | Entered(c: Cid, todo: set<Cid>)             // the range loop saw the flag unset
    | Fetching(c: Cid, todo: set<Cid>)            // storeContainerLog saw the flag unset too
    | Marking(c: Cid, todo: set<Cid>)             // the log was fetched
    | Storing(c: Cid, todo: set<Cid>)             // the flag is set, the file not written yet
    | Returned

  /** What the stop pass did with a container. */
  datatype Outcome = Skipped | Failed | Stored

  datatype Writer = ByFollower | ByStop

  /** `outcomes` and `writes` record history; the code does not read them. */
  datatype State = State(
    pods: set<string>,
    finished: map<Cid, bool>,
    collector: CollectorPc,
    followers: seq<Follower>,
    stop: StopPc,
    outcomes: map<Cid, Outcome>,
    writes: multiset<(Cid, Writer)>)

  datatype Action =
    | Tick(listed: seq<PodInfo>)      // the ticker fires and GetPods answers
    | NextPod                         // look at the next listed pod
    | InitContainer                   // register the next container of the pod
    | Spawn                           // start its follower goroutine
    | FollowerStep(i: nat, ok: bool)  // follower i moves; ok is the outcome of following the log
    | CallStop
    | Rendezvous                      // the stop signal is received
    | Visit(c: Cid)                   // the stop pass comes to container c
    | StopStep(ok: bool)              // the stop pass moves on its container; ok is the outcome of the fetch
    | StopReturn

  const INIT := State({}, map[], Select, [], NotCalled, map[], multiset{})

  predicate Distinct(names: seq<string>) {
    forall i, j :: 0 <= i < j < |names| ==> names[i] != names[j]
  }

  predicate FollowerLive(pc: FollowerPc) {
    pc in {Following, Fetched, Decided, Marked}
  }

  predicate AtContainer(stop: StopPc) {
    stop.Entered? || stop.Fetching? || stop.Marking? || stop.Storing?
  }

  predicate Enabled(s: State, a: Action) {
    match a
    case Tick(listed) =>
      // The cluster guarantees that container names are unique inside a pod.
      s.collector.Select? && forall p :: p in listed ==> Distinct(p.containers)
    case NextPod => s.collector.Scanning?
    case InitContainer => s.collector.Registering?
    case Spawn => s.collector.Spawning? && s.collector.names != []
    case FollowerStep(i, _) => i < |s.followers| && FollowerLive(s.followers[i].pc) && s.followers[i].c in s.finished
    case CallStop => s.stop.NotCalled?
    case Rendezvous => s.stop.Sending? && s.collector.Select?
    case Visit(c) => s.stop.Pass? && c in s.stop.todo && c in s.finished
    case StopStep(_) => AtContainer(s.stop) && s.stop.c in s.finished
    case StopReturn => s.stop == Pass({})
  }

  function Apply(s: State, a: Action): State
    requires Enabled(s, a)
  {
    match a
    case Tick(listed) => s.(collector := Scanning(listed))
    case NextPod => ApplyNextPod(s)
    case InitContainer =>
      var Registering(pod, names, todo) := s.collector;
      if names == [] then s.(collector := Scanning(todo))
      else s.(finished := s.finished[Cid(pod, names[0]) := false], collector := Spawning(pod, names, todo))
    case Spawn =>
      var Spawning(pod, names, todo) := s.collector;
      s.(followers := s.followers + [Follower(Cid(pod, names[0]), Following)],
         collector := Registering(pod, names[1..], todo))
    case FollowerStep(i, ok) => ApplyFollower(s, i, ok)
    case CallStop => s.(stop := Sending)
    case Rendezvous => s.(stop := Pass(s.finished.Keys), collector := Ended)
    case Visit(c) =>
      var todo := s.stop.todo - {c};
      if s.finished[c] then s.(stop := Pass(todo), outcomes := s.outcomes[c := Skipped])
      else s.(stop := Entered(c, todo))
    case StopStep(ok) => ApplyStop(s, ok)
    case StopReturn => s.(stop := Returned)
  }

  function ApplyNextPod(s: State): State
    requires s.collector.Scanning?
  {
    var todo := s.collector.todo;
    if todo == [] then s.(collector := Select)
    else
      var p := todo[0];
      if p.name !in s.pods && p.running then
        s.(pods := s.pods + {p.name}, collector := Registering(p.name, p.containers, todo[1..]))
      else s.(collector := Scanning(todo[1..]))
  }

  function ApplyFollower(s: State, i: nat, ok: bool): State
    requires Enabled(s, FollowerStep(i, ok))
  {
    var c := s.followers[i].c;
    match s.followers[i].pc
    case Following => s.(followers := SetPc(s.followers, i, if ok then Fetched else Lost))
    case Fetched => s.(followers := SetPc(s.followers, i, if s.finished[c] then Ignored else Decided))
    case Decided => s.(followers := SetPc(s.followers, i, Marked), finished := s.finished[c := true])
    case Marked => s.(followers := SetPc(s.followers, i, Written), writes := s.writes + multiset{(c, ByFollower)})
  }

  function SetPc(fs: seq<Follower>, i: nat, pc: FollowerPc): seq<Follower>
    requires i < |fs|
  {
    fs[i := Follower(fs[i].c, pc)]
  }

  function ApplyStop(s: State, ok: bool): State
    requires Enabled(s, StopStep(ok))
  {
    match s.stop
    case Entered(c, todo) =>
      if s.finished[c] then s.(stop := Pass(todo), outcomes := s.outcomes[c := Skipped])
      else s.(stop := Fetching(c, todo))
    case Fetching(c, todo) =>
      if ok then s.(stop := Marking(c, todo))
      else s.(stop := Pass(todo), outcomes := s.outcomes[c := Failed])
    case Marking(c, todo) => s.(stop := Storing(c, todo), finished := s.finished[c := true])
    case Storing(c, todo) =>
      s.(stop := Pass(todo), outcomes := s.outcomes[c := Stored], writes := s.writes + multiset{(c, ByStop)})
  }

  /** Every action of the run can happen where it happens. */
  predicate Legal(s: State, run: seq<Action>)
    decreases |run|
  {
    run == [] || (Enabled(s, run[0]) && Legal(Apply(s, run[0]), run[1..]))
  }

  function Exec(s: State, run: seq<Action>): State
    requires Legal(s, run)
    decreases |run|
  {
    if run == [] then s else Exec(Apply(s, run[0]), run[1..])
  }

  // ---------- The invariant ----------

  /** The collector's position agrees with the registered pods and containers. */
  ghost predicate CollectorInv(s: State) {
    && (forall c :: c in s.finished ==> c.pod in s.pods)
    && (match s.collector
        case Scanning(todo) => forall p :: p in todo ==> Distinct(p.containers)
        case Registering(pod, names, todo) =>
          && pod in s.pods && Distinct(names)
          && (forall n :: n in names ==> Cid(pod, n) !in s.finished)
          && (forall p :: p in todo ==> Distinct(p.containers))
        case Spawning(pod, names, todo) =>
          && names != [] && Distinct(names) && pod in s.pods && Cid(pod, names[0]) in s.finished
          && (forall f :: f in s.followers ==> f.c != Cid(pod, names[0]))
          && (forall n :: n in names[1..] ==> Cid(pod, n) !in s.finished)
          && (forall p :: p in todo ==> Distinct(p.containers))
        case _ => true)
  }

  /** The container that is registered but not followed yet. */
  ghost predicate Pending(pc: CollectorPc, c: Cid) {
    pc.Spawning? && pc.names != [] && c == Cid(pc.pod, pc.names[0])
  }

  /** Some follower of the container is at one of the given places. */
  ghost predicate FollowerAt(fs: seq<Follower>, c: Cid, pcs: set<FollowerPc>) {
    exists i :: 0 <= i < |fs| && fs[i].c == c && fs[i].pc in pcs
  }

  ghost predicate Followed(fs: seq<Follower>, c: Cid) {
    exists i :: 0 <= i < |fs| && fs[i].c == c
  }

  ghost predicate Unique(fs: seq<Follower>) {
    forall i, j :: 0 <= i < j < |fs| ==> fs[i].c != fs[j].c
  }

  /** Each registered container has exactly one follower, up to the one being started. */
  ghost predicate FollowerInv(s: State) {
    && Unique(s.followers)
    && (forall i :: 0 <= i < |s.followers| ==> s.followers[i].c in s.finished)
    && (forall c :: c in s.finished ==> Pending(s.collector, c) || Followed(s.followers, c))
  }

  /** The containers that the stop pass has still to decide on. */
  function Undecided(stop: StopPc): set<Cid>
  {
    if AtContainer(stop) then stop.todo + {stop.c}
    else if stop.Pass? then stop.todo
    else {}
  }

  ghost predicate StopInv(s: State) {
    if s.stop.NotCalled? || s.stop.Sending? then s.outcomes == map[]
    else
      && s.collector.Ended?
      && (AtContainer(s.stop) ==> s.stop.c !in s.stop.todo)
      && Undecided(s.stop) !! s.outcomes.Keys
      && Undecided(s.stop) + s.outcomes.Keys == s.finished.Keys
  }

  predicate HasOutcome(outcomes: map<Cid, Outcome>, c: Cid, o: Outcome) {
    c in outcomes && outcomes[c] == o
  }

  predicate StopHasMarked(stop: StopPc, outcomes: map<Cid, Outcome>, c: Cid) {
    (stop.Storing? && stop.c == c) || HasOutcome(outcomes, c, Stored)
  }

  /** A flag is set exactly when some writer of the container is at or past its write step. */
  ghost predicate FlagInv(s: State) {
    && (forall c :: c in s.finished ==>
          (s.finished[c] <==> FollowerAt(s.followers, c, {Marked, Written}) || StopHasMarked(s.stop, s.outcomes, c)))
    && (forall c :: c in s.finished && HasOutcome(s.outcomes, c, Skipped) ==> s.finished[c])
  }

  /** The follower and the stop pass each account for at most one write of a file. */
  ghost predicate WriteInv(s: State) {
    && (forall c :: s.writes[(c, ByFollower)] == if FollowerAt(s.followers, c, {Written}) then 1 else 0)
    && (forall c :: s.writes[(c, ByStop)] == if HasOutcome(s.outcomes, c, Stored) then 1 else 0)
  }

  ghost predicate Inv(s: State) {
    CollectorInv(s) && FollowerInv(s) && StopInv(s) && FlagInv(s) && WriteInv(s)
  }

  lemma InitInv()
    ensures Inv(INIT)
  {
  }

  /** A step that touches no flag, follower, outcome or file, and no store of the stop pass. */
  lemma FlagsFrame(s: State, t: State)
    requires FlagInv(s) && WriteInv(s)
    requires t.finished == s.finished && t.followers == s.followers && t.outcomes == s.outcomes && t.writes == s.writes
    requires t.stop.Storing? || s.stop.Storing? ==> t.stop == s.stop
    ensures FlagInv(t) && WriteInv(t)
  {
  }

  lemma TickKeepsCollector(s: State, a: Action)
    requires CollectorInv(s) && Enabled(s, a) && (a.Tick? || a.NextPod?)
    ensures CollectorInv(Apply(s, a))
  {
  }

  lemma TickKeepsFollowers(s: State, a: Action)
    requires FollowerInv(s) && Enabled(s, a) && (a.Tick? || a.NextPod?)
    ensures FollowerInv(Apply(s, a))
  {
  }

  lemma TickKeepsInv(s: State, a: Action)
    requires Inv(s) && Enabled(s, a) && (a.Tick? || a.NextPod?)
    ensures Inv(Apply(s, a))
  {
    TickKeepsCollector(s, a);
    TickKeepsFollowers(s, a);
    FlagsFrame(s, Apply(s, a));
  }

  /** A new container has no follower and no outcome, so its flag is rightly unset. */
  lemma InitContainerKeepsFlags(s: State)
    requires CollectorInv(s) && FollowerInv(s) && StopInv(s) && FlagInv(s) && WriteInv(s) && Enabled(s, InitContainer)
    ensures FlagInv(Apply(s, InitContainer)) && WriteInv(Apply(s, InitContainer))
  {
  }

  lemma InitContainerKeepsRest(s: State)
    requires CollectorInv(s) && FollowerInv(s) && StopInv(s) && Enabled(s, InitContainer)
    ensures var t := Apply(s, InitContainer); CollectorInv(t) && FollowerInv(t) && StopInv(t)
  {
  }

  lemma InitContainerKeepsInv(s: State)
    requires Inv(s) && Enabled(s, InitContainer)
    ensures Inv(Apply(s, InitContainer))
  {
    InitContainerKeepsFlags(s);
    InitContainerKeepsRest(s);
  }

  /** Starting a follower adds it to the containers' followers and changes no other. */
  lemma SpawnFollowers(fs: seq<Follower>, d: Cid, c: Cid, pcs: set<FollowerPc>)
    requires Following !in pcs
    ensures FollowerAt(fs + [Follower(d, Following)], c, pcs) <==> FollowerAt(fs, c, pcs)
    ensures Followed(fs + [Follower(d, Following)], c) <==> Followed(fs, c) || c == d
  {
    var gs := fs + [Follower(d, Following)];
    if Followed(fs, c) {
      var i :| 0 <= i < |fs| && fs[i].c == c;
      assert gs[i].c == c;
    }
    if FollowerAt(fs, c, pcs) {
      var i :| 0 <= i < |fs| && fs[i].c == c && fs[i].pc in pcs;
      assert gs[i].c == c && gs[i].pc in pcs;
    }
    assert gs[|fs|].c == d;
  }

  lemma SpawnKeepsFlags(s: State)
    requires FlagInv(s) && WriteInv(s) && Enabled(s, Spawn)
    ensures FlagInv(Apply(s, Spawn)) && WriteInv(Apply(s, Spawn))
  {
    var t := Apply(s, Spawn);
    var d := Cid(s.collector.pod, s.collector.names[0]);
    forall c: Cid, pcs: set<FollowerPc> | Following !in pcs
      ensures FollowerAt(t.followers, c, pcs) <==> FollowerAt(s.followers, c, pcs)
    {
      SpawnFollowers(s.followers, d, c, pcs);
    }
  }

  lemma SpawnKeepsFollowers(s: State)
    requires CollectorInv(s) && FollowerInv(s) && Enabled(s, Spawn)
    ensures FollowerInv(Apply(s, Spawn))
  {
    var t := Apply(s, Spawn);
    var d := Cid(s.collector.pod, s.collector.names[0]);
    forall c: Cid
      ensures Followed(t.followers, c) <==> Followed(s.followers, c) || c == d
    {
      SpawnFollowers(s.followers, d, c, {});
    }
    assert forall k :: 0 <= k < |s.followers| ==> s.followers[k] in s.followers;
  }

  lemma SpawnKeepsInv(s: State)
    requires Inv(s) && Enabled(s, Spawn)
    ensures Inv(Apply(s, Spawn))
  {
    SpawnKeepsFlags(s);
    SpawnKeepsFollowers(s);
    SpawnKeepsCollector(s);
  }

  lemma SpawnKeepsCollector(s: State)
    requires CollectorInv(s) && Enabled(s, Spawn)
    ensures CollectorInv(Apply(s, Spawn))
  {
  }

  /** Moving one follower changes where its container stands and nothing else. */
  lemma MoveFollowers(fs: seq<Follower>, i: nat, pc: FollowerPc, c: Cid, pcs: set<FollowerPc>)
    requires Unique(fs) && i < |fs|
    ensures Unique(SetPc(fs, i, pc))
    ensures Followed(SetPc(fs, i, pc), c) <==> Followed(fs, c)
    ensures c != fs[i].c ==> (FollowerAt(SetPc(fs, i, pc), c, pcs) <==> FollowerAt(fs, c, pcs))
    ensures c == fs[i].c ==> (FollowerAt(SetPc(fs, i, pc), c, pcs) <==> pc in pcs)
    ensures c == fs[i].c ==> (FollowerAt(fs, c, pcs) <==> fs[i].pc in pcs)
  {
    var gs := SetPc(fs, i, pc);
    assert forall k :: 0 <= k < |fs| ==> gs[k].c == fs[k].c && (k != i ==> gs[k].pc == fs[k].pc);
    assert gs[i].pc == pc;
    if Followed(fs, c) {
      var k :| 0 <= k < |fs| && fs[k].c == c;
      assert gs[k].c == c;
    }
    if FollowerAt(fs, c, pcs) {
      var k :| 0 <= k < |fs| && fs[k].c == c && fs[k].pc in pcs;
      assert gs[k].c == c;
    }
  }

  /** The follower lookups of every other container are untouched by a step of follower i. */
  lemma FollowerStepFrame(s: State, i: nat, ok: bool, c: Cid)
    requires Unique(s.followers) && Enabled(s, FollowerStep(i, ok))
    ensures var fs, gs := s.followers, ApplyFollower(s, i, ok).followers;
      && Unique(gs)
      && (Followed(gs, c) <==> Followed(fs, c))
      && (c != fs[i].c ==> (FollowerAt(gs, c, {Marked, Written}) <==> FollowerAt(fs, c, {Marked, Written})))
      && (c != fs[i].c ==> (FollowerAt(gs, c, {Written}) <==> FollowerAt(fs, c, {Written})))
      && (c == fs[i].c ==> (FollowerAt(gs, c, {Marked, Written}) <==> gs[i].pc in {Marked, Written}))
      && (c == fs[i].c ==> (FollowerAt(fs, c, {Marked, Written}) <==> fs[i].pc in {Marked, Written}))
      && (c == fs[i].c ==> (FollowerAt(gs, c, {Written}) <==> gs[i].pc == Written))
      && (c == fs[i].c ==> (FollowerAt(fs, c, {Written}) <==> fs[i].pc == Written))
  {
    var t := ApplyFollower(s, i, ok);
    MoveFollowers(s.followers, i, t.followers[i].pc, c, {Marked, Written});
    MoveFollowers(s.followers, i, t.followers[i].pc, c, {Written});
  }

  lemma FollowerStepKeepsFlag(s: State, i: nat, ok: bool, c: Cid)
    requires Unique(s.followers) && FlagInv(s) && Enabled(s, FollowerStep(i, ok)) && c in s.finished
    ensures var t := ApplyFollower(s, i, ok);
      && c in t.finished
      && (t.finished[c] <==> FollowerAt(t.followers, c, {Marked, Written}) || StopHasMarked(s.stop, s.outcomes, c))
      && (s.finished[c] ==> t.finished[c])
  {
    FollowerStepFrame(s, i, ok, c);
    assert s.finished[c] <==> FollowerAt(s.followers, c, {Marked, Written}) || StopHasMarked(s.stop, s.outcomes, c);
  }

  lemma FollowerStepKeepsFlags(s: State, i: nat, ok: bool)
    requires Unique(s.followers) && FlagInv(s) && Enabled(s, FollowerStep(i, ok))
    ensures FlagInv(ApplyFollower(s, i, ok))
  {
    var t := ApplyFollower(s, i, ok);
    assert t.finished.Keys == s.finished.Keys && t.stop == s.stop && t.outcomes == s.outcomes;
    forall c | c in t.finished
      ensures t.finished[c] <==> FollowerAt(t.followers, c, {Marked, Written}) || StopHasMarked(t.stop, t.outcomes, c)
      ensures s.finished[c] ==> t.finished[c]
    {
      FollowerStepKeepsFlag(s, i, ok, c);
    }
  }

  lemma FollowerStepKeepsWrite(s: State, i: nat, ok: bool, c: Cid)
    requires Unique(s.followers) && Enabled(s, FollowerStep(i, ok))
    requires s.writes[(c, ByFollower)] == if FollowerAt(s.followers, c, {Written}) then 1 else 0
    ensures var t := ApplyFollower(s, i, ok);
      && t.writes[(c, ByFollower)] == (if FollowerAt(t.followers, c, {Written}) then 1 else 0)
      && t.writes[(c, ByStop)] == s.writes[(c, ByStop)]
  {
    FollowerStepFrame(s, i, ok, c);
  }

  lemma FollowerStepKeepsWrites(s: State, i: nat, ok: bool)
    requires Unique(s.followers) && WriteInv(s) && Enabled(s, FollowerStep(i, ok))
    ensures WriteInv(ApplyFollower(s, i, ok))
  {
    var t := ApplyFollower(s, i, ok);
    assert t.outcomes == s.outcomes;
    forall c: Cid
      ensures t.writes[(c, ByFollower)] == if FollowerAt(t.followers, c, {Written}) then 1 else 0
      ensures t.writes[(c, ByStop)] == s.writes[(c, ByStop)]
    {
      FollowerStepKeepsWrite(s, i, ok, c);
    }
  }

  lemma FollowerStepKeepsFollowers(s: State, i: nat, ok: bool)
    requires FollowerInv(s) && Enabled(s, FollowerStep(i, ok))
    ensures FollowerInv(ApplyFollower(s, i, ok))
  {
    var t := ApplyFollower(s, i, ok);
    assert t.finished.Keys == s.finished.Keys;
    forall c | c in t.finished
      ensures Pending(t.collector, c) || Followed(t.followers, c)
    {
      FollowerStepFrame(s, i, ok, c);
    }
    FollowerStepFrame(s, i, ok, s.followers[i].c);
  }

  lemma FollowerStepKeepsCollector(s: State, i: nat, ok: bool)
    requires CollectorInv(s) && Enabled(s, FollowerStep(i, ok))
    ensures CollectorInv(ApplyFollower(s, i, ok))
  {
    var t := ApplyFollower(s, i, ok);
    assert t.finished.Keys == s.finished.Keys && t.collector == s.collector && t.pods == s.pods;
    assert s.followers[i] in s.followers;
    assert forall f :: f in t.followers ==> f in s.followers || f.c == s.followers[i].c;
  }

  lemma FollowerStepKeepsInv(s: State, i: nat, ok: bool)
    requires Inv(s) && Enabled(s, FollowerStep(i, ok))
    ensures Inv(ApplyFollower(s, i, ok))
  {
    FollowerStepKeepsFlags(s, i, ok);
    FollowerStepKeepsWrites(s, i, ok);
    FollowerStepKeepsFollowers(s, i, ok);
    FollowerStepKeepsCollector(s, i, ok);
    FollowerStepKeepsStop(s, i, ok);
  }

  lemma FollowerStepKeepsStop(s: State, i: nat, ok: bool)
    requires StopInv(s) && Enabled(s, FollowerStep(i, ok))
    ensures StopInv(ApplyFollower(s, i, ok))
  {
    assert ApplyFollower(s, i, ok).finished.Keys == s.finished.Keys;
  }

  lemma SignalKeepsStop(s: State, a: Action)
    requires StopInv(s) && Enabled(s, a) && (a.CallStop? || a.Rendezvous? || a.StopReturn?)
    ensures StopInv(Apply(s, a))
  {
  }

  lemma SignalKeepsInv(s: State, a: Action)
    requires Inv(s) && Enabled(s, a) && (a.CallStop? || a.Rendezvous? || a.StopReturn?)
    ensures Inv(Apply(s, a))
  {
    SignalKeepsStop(s, a);
    FlagsFrame(s, Apply(s, a));
  }

  lemma VisitKeepsStop(s: State, c: Cid)
    requires StopInv(s) && Enabled(s, Visit(c))
    ensures StopInv(Apply(s, Visit(c))) && c !in s.outcomes
  {
    var t := Apply(s, Visit(c));
    assert Undecided(t.stop) + t.outcomes.Keys == s.finished.Keys;
  }

  lemma VisitKeepsInv(s: State, c: Cid)
    requires Inv(s) && Enabled(s, Visit(c))
    ensures Inv(Apply(s, Visit(c)))
  {
    VisitKeepsStop(s, c);
    OutcomesFrame(s, Apply(s, Visit(c)), c);
  }

  /** Deciding on one container leaves what is recorded for every other one. */
  lemma OutcomesFrame(s: State, t: State, c: Cid)
    requires FlagInv(s) && WriteInv(s) && c !in s.outcomes && c in s.finished
    requires t.followers == s.followers && t.finished == s.finished && t.writes == s.writes
    requires !s.stop.Storing? && !t.stop.Storing?
    requires t.outcomes == s.outcomes || t.outcomes == s.outcomes[c := Failed]
          || (t.outcomes == s.outcomes[c := Skipped] && s.finished[c])
    ensures FlagInv(t) && WriteInv(t)
  {
    assert forall d :: HasOutcome(t.outcomes, d, Stored) <==> HasOutcome(s.outcomes, d, Stored);
    assert forall d :: StopHasMarked(t.stop, t.outcomes, d) <==> StopHasMarked(s.stop, s.outcomes, d);
  }

  lemma MarkKeepsFlags(s: State, ok: bool)
    requires FlagInv(s) && WriteInv(s) && Enabled(s, StopStep(ok)) && s.stop.Marking?
    ensures FlagInv(ApplyStop(s, ok)) && WriteInv(ApplyStop(s, ok))
  {
    var t := ApplyStop(s, ok);
    assert t.finished.Keys == s.finished.Keys;
    assert forall d :: d != s.stop.c ==>
      (StopHasMarked(t.stop, t.outcomes, d) <==> StopHasMarked(s.stop, s.outcomes, d));
  }

  lemma StoreKeepsFlags(s: State, ok: bool)
    requires FlagInv(s) && WriteInv(s) && Enabled(s, StopStep(ok)) && s.stop.Storing? && s.stop.c !in s.outcomes
    ensures FlagInv(ApplyStop(s, ok)) && WriteInv(ApplyStop(s, ok))
  {
    var t := ApplyStop(s, ok);
    assert forall d :: StopHasMarked(t.stop, t.outcomes, d) <==> StopHasMarked(s.stop, s.outcomes, d);
    assert forall d :: HasOutcome(t.outcomes, d, Stored) <==> HasOutcome(s.outcomes, d, Stored) || d == s.stop.c;
  }

  lemma StopMoveKeepsStop(s: State, ok: bool)
    requires StopInv(s) && Enabled(s, StopStep(ok))
    ensures StopInv(ApplyStop(s, ok)) && s.stop.c !in s.outcomes
  {
    var t := ApplyStop(s, ok);
    assert t.finished.Keys == s.finished.Keys;
    assert Undecided(t.stop) + t.outcomes.Keys == s.finished.Keys;
  }

  /** A step of the stop pass touches neither the collector nor the followers. */
  lemma StopMoveFrame(s: State, ok: bool)
    requires Enabled(s, StopStep(ok))
    ensures var t := ApplyStop(s, ok);
      t.finished.Keys == s.finished.Keys && t.pods == s.pods && t.collector == s.collector && t.followers == s.followers
  {
  }

  lemma StopMoveKeepsRest(s: State, t: State)
    requires CollectorInv(s) && FollowerInv(s)
    requires t.finished.Keys == s.finished.Keys && t.pods == s.pods && t.collector == s.collector
    requires t.followers == s.followers
    ensures CollectorInv(t) && FollowerInv(t)
  {
  }

  lemma StopMoveKeepsInv(s: State, ok: bool)
    requires Inv(s) && Enabled(s, StopStep(ok))
    ensures Inv(ApplyStop(s, ok))
  {
    StopMoveKeepsStop(s, ok);
    StopMoveFrame(s, ok);
    StopMoveKeepsRest(s, ApplyStop(s, ok));
    if s.stop.Marking? {
      MarkKeepsFlags(s, ok);
    } else if s.stop.Storing? {
      StoreKeepsFlags(s, ok);
    } else {
      OutcomesFrame(s, ApplyStop(s, ok), s.stop.c);
    }
  }

  /** What every step of the protocol keeps. */
  lemma StepKeepsInv(s: State, a: Action)
    requires Inv(s) && Enabled(s, a)
    ensures Inv(Apply(s, a))
  {
    match a
    case Tick(_) => TickKeepsInv(s, a);
    case NextPod => TickKeepsInv(s, a);
    case InitContainer => InitContainerKeepsInv(s);
    case Spawn => SpawnKeepsInv(s);
    case FollowerStep(i, ok) => FollowerStepKeepsInv(s, i, ok);
    case StopStep(ok) => StopMoveKeepsInv(s, ok);
    case Visit(c) => VisitKeepsInv(s, c);
    case _ => SignalKeepsInv(s, a);
  }

  lemma {:induction false} RunKeepsInv(s: State, run: seq<Action>)
    requires Inv(s) && Legal(s, run)
    ensures Inv(Exec(s, run))
    decreases |run|
  {
    if run != [] {
      StepKeepsInv(s, run[0]);
      RunKeepsInv(Apply(s, run[0]), run[1..]);
    }
  }

  // ---------- Safety over whole runs ----------

  /** When StopPodLogCollector has returned, every container ever registered has its flag set, or its
      fetch in the stop pass failed. */
  lemma StopCoversEveryContainer(run: seq<Action>)
    requires Legal(INIT, run) && Exec(INIT, run).stop.Returned?
    ensures var s := Exec(INIT, run);
      && s.collector.Ended?
      && s.outcomes.Keys == s.finished.Keys
      && forall c :: c in s.finished ==> s.finished[c] || s.outcomes[c] == Failed
  {
    InitInv();
    RunKeepsInv(INIT, run);
  }

  /** Every registered container has exactly one follower, except the one whose goroutine is about to start. */
  lemma ExactlyOneFollower(run: seq<Action>, c: Cid)
    requires Legal(INIT, run) && c in Exec(INIT, run).finished
    ensures var s := Exec(INIT, run);
      if Pending(s.collector, c) then !Followed(s.followers, c)
      else exists i :: 0 <= i < |s.followers| && s.followers[i].c == c
                    && forall j :: 0 <= j < |s.followers| && s.followers[j].c == c ==> j == i
  {
    InitInv();
    RunKeepsInv(INIT, run);
    var s := Exec(INIT, run);
    if !Pending(s.collector, c) {
      var i :| 0 <= i < |s.followers| && s.followers[i].c == c;
      assert forall j :: 0 <= j < |s.followers| && s.followers[j].c == c ==> j == i;
    } else {
      forall i | 0 <= i < |s.followers|
        ensures s.followers[i].c != c
      {
        assert s.followers[i] in s.followers;
      }
    }
  }

  // ---------- What a scan registers ----------

  /** The pod at i of the list is running, was not monitored before the scan, and is the first such of its name. */
  predicate Discovered(pods: set<string>, listed: seq<PodInfo>, i: nat)
    requires i < |listed|
  {
    && listed[i].running && listed[i].name !in pods
    && forall j :: 0 <= j < i && listed[j].running ==> listed[j].name != listed[i].name
  }

  function ContainersOf(pod: string, names: seq<string>): set<Cid> {
    set n | n in names :: Cid(pod, n)
  }

  /** The containers that the scan has still to register in the listed pods. */
  function Ahead(pods: set<string>, todo: seq<PodInfo>): set<Cid>
    decreases |todo|
  {
    if todo == [] then {}
    else if todo[0].name !in pods && todo[0].running then
      ContainersOf(todo[0].name, todo[0].containers) + Ahead(pods + {todo[0].name}, todo[1..])
    else Ahead(pods, todo[1..])
  }

  /** The pods that it has still to record as monitored. */
  function PodsAhead(pods: set<string>, todo: seq<PodInfo>): set<string>
    decreases |todo|
  {
    if todo == [] then {}
    else if todo[0].name !in pods && todo[0].running then
      {todo[0].name} + PodsAhead(pods + {todo[0].name}, todo[1..])
    else PodsAhead(pods, todo[1..])
  }

  lemma DiscoveredLater(pods: set<string>, todo: seq<PodInfo>, i: nat)
    requires 0 < i < |todo|
    ensures var pods' := if todo[0].name !in pods && todo[0].running then pods + {todo[0].name} else pods;
      Discovered(pods, todo, i) <==> Discovered(pods', todo[1..], i - 1)
  {
    var rest := todo[1..];
    assert rest[i - 1] == todo[i];
    assert forall j :: 0 < j < i ==> rest[j - 1] == todo[j];
    assert forall j :: 0 <= j < i - 1 ==> rest[j] == todo[j + 1];
  }

  /** Container c belongs to the discovered pod at i. */
  predicate Brings(pods: set<string>, listed: seq<PodInfo>, i: nat, c: Cid) {
    i < |listed| && Discovered(pods, listed, i) && c.pod == listed[i].name && c.name in listed[i].containers
  }

  lemma {:induction false} AheadIff(pods: set<string>, todo: seq<PodInfo>, c: Cid)
    ensures c in Ahead(pods, todo) <==> exists i :: 0 <= i < |todo| && Brings(pods, todo, i, c)
    decreases |todo|
  {
    if todo != [] {
      var found := todo[0].name !in pods && todo[0].running;
      var pods' := if found then pods + {todo[0].name} else pods;
      AheadIff(pods', todo[1..], c);
      forall i | 0 < i < |todo|
        ensures Brings(pods, todo, i, c) <==> Brings(pods', todo[1..], i - 1, c)
      {
        DiscoveredLater(pods, todo, i);
        assert todo[1..][i - 1] == todo[i];
      }
      assert Brings(pods, todo, 0, c) <==> found && c in ContainersOf(todo[0].name, todo[0].containers);
      if i :| 0 <= i < |todo[1..]| && Brings(pods', todo[1..], i, c) {
        assert Brings(pods, todo, i + 1, c);
      }
    }
  }

  lemma {:induction false} PodsAheadIff(pods: set<string>, todo: seq<PodInfo>, name: string)
    ensures name in PodsAhead(pods, todo)
       <==> exists i :: 0 <= i < |todo| && Discovered(pods, todo, i) && todo[i].name == name
    decreases |todo|
  {
    if todo != [] {
      var found := todo[0].name !in pods && todo[0].running;
      var pods' := if found then pods + {todo[0].name} else pods;
      PodsAheadIff(pods', todo[1..], name);
      forall i | 0 < i < |todo|
        ensures Discovered(pods, todo, i) <==> Discovered(pods', todo[1..], i - 1)
        ensures todo[1..][i - 1] == todo[i]
      {
        DiscoveredLater(pods, todo, i);
      }
      assert Discovered(pods, todo, 0) <==> found;
      if i :| 0 <= i < |todo[1..]| && Discovered(pods', todo[1..], i) && todo[1..][i].name == name {
        assert Discovered(pods, todo, i + 1) && todo[i + 1].name == name;
      }
    }
  }

  function PlannedPods(s: State): set<string> {
    match s.collector
    case Scanning(todo) => PodsAhead(s.pods, todo)
    case Registering(_, _, todo) => PodsAhead(s.pods, todo)
    case Spawning(_, _, todo) => PodsAhead(s.pods, todo)
    case _ => {}
  }

  /** What the scan has still to register, wherever it stands. */
  function Planned(s: State): set<Cid> {
    match s.collector
    case Scanning(todo) => Ahead(s.pods, todo)
    case Registering(pod, names, todo) => ContainersOf(pod, names) + Ahead(s.pods, todo)
    case Spawning(pod, names, todo) => ContainersOf(pod, if names == [] then [] else names[1..]) + Ahead(s.pods, todo)
    case _ => {}
  }

  ghost predicate SamePlan(s: State, t: State) {
    && t.finished.Keys + Planned(t) == s.finished.Keys + Planned(s)
    && t.pods + PlannedPods(t) == s.pods + PlannedPods(s)
  }

  lemma NextPodKeepsPlan(s: State)
    requires Enabled(s, NextPod)
    ensures SamePlan(s, Apply(s, NextPod))
  {
  }

  lemma InitContainerKeepsPlan(s: State)
    requires Enabled(s, InitContainer)
    ensures SamePlan(s, Apply(s, InitContainer))
  {
    var t := Apply(s, InitContainer);
    if s.collector.names != [] {
      RegisterFirst(s.collector.pod, s.collector.names);
      assert t.finished.Keys == s.finished.Keys + {Cid(s.collector.pod, s.collector.names[0])};
    }
  }

  /** No step but the start of a scan changes what is registered or planned. */
  lemma StepKeepsPlan(s: State, a: Action)
    requires Enabled(s, a) && !a.Tick?
    ensures SamePlan(s, Apply(s, a))
  {
    if a.NextPod? {
      NextPodKeepsPlan(s);
    } else if a.InitContainer? {
      InitContainerKeepsPlan(s);
    } else if a.Spawn? {
      assert Apply(s, a).finished == s.finished;
    } else {
      OtherStepKeepsPlan(s, a);
    }
  }

  lemma OtherStepKeepsPlan(s: State, a: Action)
    requires Enabled(s, a) && !a.Tick? && !a.NextPod? && !a.InitContainer? && !a.Spawn?
    ensures SamePlan(s, Apply(s, a))
  {
    SamePlaceKeepsPlan(s, a);
    SameKeys(s, a);
  }

  lemma SameKeys(s: State, a: Action)
    requires Enabled(s, a) && !a.InitContainer? && !a.NextPod?
    ensures Apply(s, a).finished.Keys == s.finished.Keys && Apply(s, a).pods == s.pods
  {
  }

  lemma SamePlaceKeepsPlan(s: State, a: Action)
    requires Enabled(s, a) && !a.Tick? && !a.NextPod? && !a.InitContainer? && !a.Spawn?
    ensures Planned(Apply(s, a)) == Planned(s) && PlannedPods(Apply(s, a)) == PlannedPods(s)
  {
    var t := Apply(s, a);
    assert t.pods == s.pods;
    assert a.Rendezvous? || t.collector == s.collector;
  }

  lemma RegisterFirst(pod: string, names: seq<string>)
    requires names != []
    ensures ContainersOf(pod, names) == {Cid(pod, names[0])} + ContainersOf(pod, names[1..])
  {
  }

  lemma {:induction false} RunKeepsPlan(s: State, run: seq<Action>)
    requires Legal(s, run) && forall a :: a in run ==> !a.Tick?
    ensures SamePlan(s, Exec(s, run))
    decreases |run|
  {
    if run != [] {
      assert run[0] in run;
      assert forall a :: a in run[1..] ==> a in run;
      StepKeepsPlan(s, run[0]);
      RunKeepsPlan(Apply(s, run[0]), run[1..]);
    }
  }

  /** One whole scan, in any interleaving with the other threads: it registers exactly the containers of the
      listed pods that are running, were not monitored, and are the first such of their name, records exactly
      those pods as monitored, and each registered container has got a follower. */
  lemma ScanRegisters(before: seq<Action>, listed: seq<PodInfo>, run: seq<Action>)
    requires Legal(INIT, before)
    requires var s := Exec(INIT, before); Enabled(s, Tick(listed)) && Legal(Apply(s, Tick(listed)), run)
    requires (forall a :: a in run ==> !a.Tick?)
    requires Exec(Apply(Exec(INIT, before), Tick(listed)), run).collector.Select?
    ensures var s := Exec(INIT, before);
      var t := Exec(Apply(s, Tick(listed)), run);
      && (forall c ::
           && (c in t.finished <==> c in s.finished || exists i :: 0 <= i < |listed| && Brings(s.pods, listed, i, c))
           && (c in s.finished ==> !exists i :: 0 <= i < |listed| && Brings(s.pods, listed, i, c))
           && (c in t.finished ==> Followed(t.followers, c)))
      && (forall name :: name in t.pods <==>
           name in s.pods || exists i :: 0 <= i < |listed| && Discovered(s.pods, listed, i) && listed[i].name == name)
  {
    var s := Exec(INIT, before);
    var u := Apply(s, Tick(listed));
    var t := Exec(u, run);
    InitInv();
    RunKeepsInv(INIT, before);
    StepKeepsInv(s, Tick(listed));
    RunKeepsInv(u, run);
    RunKeepsPlan(u, run);
    assert t.finished.Keys == s.finished.Keys + Ahead(s.pods, listed) && t.pods == s.pods + PodsAhead(s.pods, listed);
    forall c: Cid
      ensures c in Ahead(s.pods, listed) <==> exists i :: 0 <= i < |listed| && Brings(s.pods, listed, i, c)
    {
      AheadIff(s.pods, listed, c);
    }
    forall name: string
      ensures name in PodsAhead(s.pods, listed)
         <==> exists i :: 0 <= i < |listed| && Discovered(s.pods, listed, i) && listed[i].name == name
    {
      PodsAheadIff(s.pods, listed, name);
    }
  }

  ghost predicate Grows(s: State, t: State) {
    && s.finished.Keys <= t.finished.Keys && s.pods <= t.pods
    && (forall c :: c in s.finished && s.finished[c] ==> t.finished[c])
    && (s.collector.Ended? ==> t.collector.Ended? && t.finished.Keys == s.finished.Keys && t.pods == s.pods)
  }

  lemma WriterStepGrows(s: State, a: Action)
    requires Enabled(s, a) && (a.FollowerStep? || a.StopStep?)
    ensures Grows(s, Apply(s, a))
  {
    assert Apply(s, a).finished.Keys == s.finished.Keys;
  }

  lemma StepGrows(s: State, a: Action)
    requires CollectorInv(s) && Enabled(s, a)
    ensures Grows(s, Apply(s, a))
  {
    if a.FollowerStep? || a.StopStep? {
      WriterStepGrows(s, a);
    } else if a.InitContainer? && s.collector.names != [] {
      assert Cid(s.collector.pod, s.collector.names[0]) !in s.finished;
    }
  }

  /** No flag is ever cleared and no container is forgotten.  Once the stop signal is received no pod and
      no container is registered any more, so the stop pass ranges over a frozen map. */
  lemma {:induction false} FlagsOnlyRiseAndStopFreezes(s: State, run: seq<Action>)
    requires Inv(s) && Legal(s, run)
    ensures Grows(s, Exec(s, run))
    decreases |run|
  {
    if run != [] {
      StepKeepsInv(s, run[0]);
      StepGrows(s, run[0]);
      FlagsOnlyRiseAndStopFreezes(Apply(s, run[0]), run[1..]);
    }
  }

  // ---------- How often a file is written ----------

  function Writes(s: State, c: Cid): nat {
    s.writes[(c, ByFollower)] + s.writes[(c, ByStop)]
  }

  /** Both writers of the container are between their check of the flag and their setting of it. */
  ghost predicate Overlap(s: State, c: Cid) {
    (s.stop.Fetching? || s.stop.Marking?) && s.stop.c == c && FollowerAt(s.followers, c, {Decided})
  }

  /** Some state of the run has such an overlap. */
  ghost predicate OverlapIn(s: State, run: seq<Action>, c: Cid)
    requires Legal(s, run)
    decreases |run|
  {
    Overlap(s, c) || (run != [] && OverlapIn(Apply(s, run[0]), run[1..], c))
  }

  /** The stop pass has passed its second check of the container's flag and has not failed since. */
  predicate StopPast(stop: StopPc, outcomes: map<Cid, Outcome>, c: Cid) {
    ((stop.Fetching? || stop.Marking? || stop.Storing?) && stop.c == c) || HasOutcome(outcomes, c, Stored)
  }

  ghost predicate FollowerPast(fs: seq<Follower>, c: Cid) {
    FollowerAt(fs, c, {Decided, Marked, Written})
  }

  /** Where the follower of one container stands after a step of some follower. */
  lemma FollowerPlaces(s: State, i: nat, ok: bool, c: Cid)
    requires Unique(s.followers) && Enabled(s, FollowerStep(i, ok))
    ensures var fs, gs := s.followers, ApplyFollower(s, i, ok).followers;
      && (FollowerPast(fs, c) ==> FollowerPast(gs, c))
      && (FollowerPast(gs, c) && !FollowerPast(fs, c) ==>
            c == fs[i].c && c in s.finished && !s.finished[c] && FollowerAt(gs, c, {Decided}))
  {
    var t := ApplyFollower(s, i, ok);
    MoveFollowers(s.followers, i, t.followers[i].pc, c, {Decided, Marked, Written});
    MoveFollowers(s.followers, i, t.followers[i].pc, c, {Decided});
  }

  lemma SpawnPlaces(s: State, c: Cid)
    requires Enabled(s, Spawn)
    ensures FollowerPast(Apply(s, Spawn).followers, c) <==> FollowerPast(s.followers, c)
  {
    SpawnFollowers(s.followers, Cid(s.collector.pod, s.collector.names[0]), c, {Decided, Marked, Written});
  }

  lemma StepKeepsFollowerPast(s: State, a: Action, c: Cid)
    requires Unique(s.followers) && Enabled(s, a)
    ensures FollowerPast(s.followers, c) ==> FollowerPast(Apply(s, a).followers, c)
  {
    if a.FollowerStep? {
      FollowerPlaces(s, a.i, a.ok, c);
    } else if a.Spawn? {
      SpawnPlaces(s, c);
    }
  }

  lemma StepKeepsStopPast(s: State, a: Action, c: Cid)
    requires StopInv(s) && Enabled(s, a)
    ensures var t := Apply(s, a);
      StopPast(s.stop, s.outcomes, c) || HasOutcome(s.outcomes, c, Failed) ==>
        StopPast(t.stop, t.outcomes, c) || HasOutcome(t.outcomes, c, Failed)
  {
  }

  /** A writer that has passed its check never goes back, unless the stop pass's fetch fails. */
  lemma StepKeepsPast(s: State, a: Action, c: Cid)
    requires Inv(s) && Enabled(s, a)
    ensures var t := Apply(s, a);
      && (FollowerPast(s.followers, c) ==> FollowerPast(t.followers, c))
      && (StopPast(s.stop, s.outcomes, c) || HasOutcome(s.outcomes, c, Failed) ==>
            StopPast(t.stop, t.outcomes, c) || HasOutcome(t.outcomes, c, Failed))
  {
    StepKeepsFollowerPast(s, a, c);
    StepKeepsStopPast(s, a, c);
  }

  /** The follower passes its check while the stop pass is past its own. */
  lemma FollowerPassesSecond(s: State, a: Action, c: Cid)
    requires Unique(s.followers) && FlagInv(s) && Enabled(s, a) && a.FollowerStep?
    requires !FollowerPast(s.followers, c) && FollowerPast(Apply(s, a).followers, c)
    requires StopPast(s.stop, s.outcomes, c)
    ensures Overlap(Apply(s, a), c)
  {
    FollowerPlaces(s, a.i, a.ok, c);
    assert !StopHasMarked(s.stop, s.outcomes, c);
  }

  /** The stop pass passes its second check while the follower is past its own. */
  lemma StopPassesSecond(s: State, a: Action, c: Cid)
    requires FlagInv(s) && Enabled(s, a) && a.StopStep? && s.stop.Entered? && s.stop.c == c && !s.finished[c]
    requires FollowerPast(s.followers, c)
    ensures Overlap(Apply(s, a), c)
  {
    var i :| 0 <= i < |s.followers| && s.followers[i].c == c && s.followers[i].pc in {Decided, Marked, Written};
    assert s.followers[i].pc in {Marked, Written} ==> FollowerAt(s.followers, c, {Marked, Written});
    assert s.followers[i].pc == Decided;
  }

  lemma StopPassesByStep(s: State, a: Action, c: Cid)
    requires StopInv(s) && Enabled(s, a)
    requires !StopPast(s.stop, s.outcomes, c) && StopPast(Apply(s, a).stop, Apply(s, a).outcomes, c)
    ensures a.StopStep? && s.stop.Entered? && s.stop.c == c && !s.finished[c]
  {
  }

  lemma FollowerPassesByStep(s: State, a: Action, c: Cid)
    requires Enabled(s, a) && !FollowerPast(s.followers, c) && FollowerPast(Apply(s, a).followers, c)
    ensures a.FollowerStep? && Apply(s, a).stop == s.stop && Apply(s, a).outcomes == s.outcomes
  {
    if a.Spawn? {
      SpawnPlaces(s, c);
    }
  }

  /** The second writer to pass its check can do so only while the first is before its mark. */
  lemma SecondPassIsAnOverlap(s: State, a: Action, c: Cid)
    requires Inv(s) && Enabled(s, a)
    requires !(FollowerPast(s.followers, c) && StopPast(s.stop, s.outcomes, c))
    requires FollowerPast(Apply(s, a).followers, c) && StopPast(Apply(s, a).stop, Apply(s, a).outcomes, c)
    ensures Overlap(Apply(s, a), c)
  {
    if !FollowerPast(s.followers, c) {
      FollowerPassesByStep(s, a, c);
      FollowerPassesSecond(s, a, c);
    } else {
      StopPassesByStep(s, a, c);
      StopPassesSecond(s, a, c);
    }
  }

  lemma {:induction false} WithoutOverlapOnePasses(s: State, run: seq<Action>, c: Cid)
    requires Inv(s) && Legal(s, run) && !OverlapIn(s, run, c)
    requires !(FollowerPast(s.followers, c) && StopPast(s.stop, s.outcomes, c))
    ensures var t := Exec(s, run); !(FollowerPast(t.followers, c) && StopPast(t.stop, t.outcomes, c))
    decreases |run|
  {
    if run != [] {
      var t := Apply(s, run[0]);
      StepKeepsInv(s, run[0]);
      if FollowerPast(t.followers, c) && StopPast(t.stop, t.outcomes, c) {
        SecondPassIsAnOverlap(s, run[0], c);
        assert false;
      }
      WithoutOverlapOnePasses(t, run[1..], c);
    }
  }

  lemma {:induction false} RunKeepsPast(s: State, run: seq<Action>, c: Cid)
    requires Inv(s) && Legal(s, run)
    requires FollowerPast(s.followers, c)
    requires StopPast(s.stop, s.outcomes, c) || HasOutcome(s.outcomes, c, Failed)
    ensures var t := Exec(s, run);
      FollowerPast(t.followers, c) && (StopPast(t.stop, t.outcomes, c) || HasOutcome(t.outcomes, c, Failed))
    decreases |run|
  {
    if run != [] {
      StepKeepsInv(s, run[0]);
      StepKeepsPast(s, run[0], c);
      RunKeepsPast(Apply(s, run[0]), run[1..], c);
    }
  }

  lemma {:induction false} AfterOverlapBothPass(s: State, run: seq<Action>, c: Cid)
    requires Inv(s) && Legal(s, run) && OverlapIn(s, run, c)
    ensures var t := Exec(s, run);
      FollowerPast(t.followers, c) && (StopPast(t.stop, t.outcomes, c) || HasOutcome(t.outcomes, c, Failed))
    decreases |run|
  {
    if Overlap(s, c) {
      RunKeepsPast(s, run, c);
    } else {
      StepKeepsInv(s, run[0]);
      AfterOverlapBothPass(Apply(s, run[0]), run[1..], c);
    }
  }

  /** Both the stop pass and every follower are done. */
  predicate Complete(s: State) {
    s.stop.Returned? && forall f :: f in s.followers ==> !FollowerLive(f.pc)
  }

  /** A container's log is never written more than twice, and never twice unless the two check-to-mark
      sections overlapped.  In a completed run it is written twice exactly when they overlapped and the fetch
      of the stop pass succeeded. */
  lemma LogWrittenTwiceIffSectionsOverlap(run: seq<Action>, c: Cid)
    requires Legal(INIT, run)
    ensures var t := Exec(INIT, run);
      && Writes(t, c) <= 2
      && (!OverlapIn(INIT, run, c) ==> Writes(t, c) <= 1)
      && (Complete(t) ==> (Writes(t, c) == 2 <==> OverlapIn(INIT, run, c) && HasOutcome(t.outcomes, c, Stored)))
  {
    var t := Exec(INIT, run);
    InitInv();
    RunKeepsInv(INIT, run);
    BothHaveWritten(t, c);
    if !OverlapIn(INIT, run, c) {
      WithoutOverlapOnePasses(INIT, run, c);
    } else if Complete(t) {
      AfterOverlapBothPass(INIT, run, c);
      PastIsWrittenInTheEnd(t, c);
    }
  }

  lemma BothHaveWritten(t: State, c: Cid)
    requires WriteInv(t)
    ensures Writes(t, c) <= 2
    ensures Writes(t, c) == 2 <==> FollowerAt(t.followers, c, {Written}) && HasOutcome(t.outcomes, c, Stored)
    ensures FollowerAt(t.followers, c, {Written}) ==> FollowerPast(t.followers, c)
  {
    if FollowerAt(t.followers, c, {Written}) {
      var i :| 0 <= i < |t.followers| && t.followers[i].c == c && t.followers[i].pc == Written;
    }
  }

  lemma PastIsWrittenInTheEnd(t: State, c: Cid)
    requires Complete(t) && FollowerPast(t.followers, c)
    ensures FollowerAt(t.followers, c, {Written})
  {
    var i :| 0 <= i < |t.followers| && t.followers[i].c == c && t.followers[i].pc in {Decided, Marked, Written};
    assert t.followers[i] in t.followers;
  }

  // ---------- Log files ----------

  /** The name of the container's log file, without folder and suffix. */
  function FileOf(c: Cid): string {
    c.pod + "-" + c.name
  }

  /** The step writes the file. */
  predicate WritesFile(s: State, a: Action, file: string)
    requires Enabled(s, a)
  {
    || (a.FollowerStep? && s.followers[a.i].pc == Marked && FileOf(s.followers[a.i].c) == file)
    || (a.StopStep? && s.stop.Storing? && FileOf(s.stop.c) == file)
  }

  /** How often the run writes the file. */
  function FileWrites(s: State, run: seq<Action>, file: string): nat
    requires Legal(s, run)
    decreases |run|
  {
    if run == [] then 0
    else (if WritesFile(s, run[0], file) then 1 else 0) + FileWrites(Apply(s, run[0]), run[1..], file)
  }

  /** No other registered container has the container's log file. */
  ghost predicate OwnFile(s: State, c: Cid) {
    forall d :: d in s.finished && FileOf(d) == FileOf(c) ==> d == c
  }

  lemma StepWritesOwnFile(s: State, a: Action, c: Cid)
    requires Enabled(s, a) && OwnFile(s, c)
    ensures Writes(Apply(s, a), c) == Writes(s, c) + if WritesFile(s, a, FileOf(c)) then 1 else 0
  {
  }

  /** As long as a container's file is its own, it is written as often as the container's log. */
  lemma {:induction false} OwnFileWrites(s: State, run: seq<Action>, c: Cid)
    requires Inv(s) && Legal(s, run) && OwnFile(Exec(s, run), c)
    ensures Writes(Exec(s, run), c) == Writes(s, c) + FileWrites(s, run, FileOf(c))
    decreases |run|
  {
    if run != [] {
      FlagsOnlyRiseAndStopFreezes(s, run);
      StepWritesOwnFile(s, run[0], c);
      StepKeepsInv(s, run[0]);
      OwnFileWrites(Apply(s, run[0]), run[1..], c);
    }
  }

  /** If no other registered container has the same file: the file is never written more than twice, and never
      twice unless the two check-to-mark sections overlapped; in a completed run it is written twice exactly
      when they overlapped and the fetch of the stop pass succeeded. */
  lemma FileWrittenTwiceIffSectionsOverlap(run: seq<Action>, c: Cid)
    requires Legal(INIT, run) && OwnFile(Exec(INIT, run), c)
    ensures var t, n := Exec(INIT, run), FileWrites(INIT, run, FileOf(c));
      && n <= 2
      && (!OverlapIn(INIT, run, c) ==> n <= 1)
      && (Complete(t) ==> (n == 2 <==> OverlapIn(INIT, run, c) && HasOutcome(t.outcomes, c, Stored)))
  {
    InitInv();
    OwnFileWrites(INIT, run, c);
    LogWrittenTwiceIffSectionsOverlap(run, c);
  }

  // ---------- Which containers share a file ----------

  /** The name of d ends in the text between the pods' names and the name of c. */
  ghost predicate Nested(c: Cid, d: Cid) {
    exists mid: string :: d.pod == c.pod + "-" + mid && c.name == mid + "-" + d.name
  }

  lemma NestedShare(c: Cid, d: Cid)
    requires Nested(c, d)
    ensures FileOf(c) == FileOf(d)
  {
    var mid: string :| d.pod == c.pod + "-" + mid && c.name == mid + "-" + d.name;
    calc {
      FileOf(c);
      c.pod + "-" + (mid + "-" + d.name);
      c.pod + "-" + mid + "-" + d.name;
      FileOf(d);
    }
  }

  /** Of two different containers with one file, the one with the shorter pod name has a dash in its own. */
  lemma SharedIsNested(c: Cid, d: Cid)
    requires FileOf(c) == FileOf(d) && |c.pod| < |d.pod|
    ensures Nested(c, d)
  {
    var k := |c.pod|;
    var mid := d.pod[k + 1..];
    FileParts(c);
    FileParts(d);
    assert FileOf(d)[..|d.pod|][..k] == FileOf(d)[..k] && FileOf(d)[k] == d.pod[k];
    assert d.pod == c.pod + "-" + mid;
    assert c.name == FileOf(d)[k + 1..] == mid + "-" + d.name;
  }

  lemma FileParts(c: Cid)
    ensures FileOf(c)[..|c.pod|] == c.pod && FileOf(c)[|c.pod|] == '-' && FileOf(c)[|c.pod| + 1..] == c.name
  {
  }

  /** Exactly when two containers have the same log file. */
  lemma FilesSharedIff(c: Cid, d: Cid)
    ensures FileOf(c) == FileOf(d) <==> c == d || Nested(c, d) || Nested(d, c)
  {
    if Nested(c, d) {
      NestedShare(c, d);
    }
    if Nested(d, c) {
      NestedShare(d, c);
    }
    if FileOf(c) == FileOf(d) {
      if |c.pod| < |d.pod| {
        SharedIsNested(c, d);
      } else if |d.pod| < |c.pod| {
        SharedIsNested(d, c);
      } else {
        FileParts(c);
        FileParts(d);
      }
    }
  }

  /** A dash in a container's name is enough: some other container has the same file. */
  lemma ContainersCanShareAFile(pod: string, mid: string, name: string)
    ensures var c, d := Cid(pod, mid + "-" + name), Cid(pod + "-" + mid, name);
      c != d && FileOf(c) == FileOf(d)
  {
    var c, d := Cid(pod, mid + "-" + name), Cid(pod + "-" + mid, name);
    assert Nested(c, d);
    NestedShare(c, d);
    assert |d.pod| > |c.pod|;
  }

  predicate DashFree(name: string) {
    forall k :: 0 <= k < |name| ==> name[k] != '-'
  }

  lemma NestedHasDash(c: Cid, d: Cid)
    requires Nested(c, d)
    ensures !DashFree(c.name)
  {
    var mid: string :| d.pod == c.pod + "-" + mid && c.name == mid + "-" + d.name;
    assert c.name[|mid|] == '-';
  }

  /** A naming rule to check beforehand: if container names have no dash, the file tells the container. */
  lemma DashFreeNamesTellFiles(c: Cid, d: Cid)
    requires DashFree(c.name) && DashFree(d.name)
    ensures FileOf(c) == FileOf(d) <==> c == d
  {
    FilesSharedIff(c, d);
    if Nested(c, d) {
      NestedHasDash(c, d);
    }
    if Nested(d, c) {
      NestedHasDash(d, c);
    }
  }

  lemma DashFreeNamesOwnFiles(s: State, c: Cid)
    requires DashFree(c.name) && forall d :: d in s.finished ==> DashFree(d.name)
    ensures OwnFile(s, c)
  {
    forall d | d in s.finished && FileOf(d) == FileOf(c)
      ensures d == c
    {
      DashFreeNamesTellFiles(d, c);
    }
  }

  /** With names without dashes the bounds on the writes of a file need no other guard. */
  lemma DashFreeFileWrittenTwiceIff(run: seq<Action>, c: Cid)
    requires Legal(INIT, run) && DashFree(c.name)
    requires forall d :: d in Exec(INIT, run).finished ==> DashFree(d.name)
    ensures var t, n := Exec(INIT, run), FileWrites(INIT, run, FileOf(c));
      && n <= 2
      && (!OverlapIn(INIT, run, c) ==> n <= 1)
      && (Complete(t) ==> (n == 2 <==> OverlapIn(INIT, run, c) && HasOutcome(t.outcomes, c, Stored)))
  {
    DashFreeNamesOwnFiles(Exec(INIT, run), c);
    FileWrittenTwiceIffSectionsOverlap(run, c);
  }

  /** The name of the logger's own file in the folder of the namespace. */
  const LOGGER_FILE := "test-run"

  /** One container's log overwrites the logger's file, and only that container's. */
  lemma LoggersFileIff(c: Cid)
    ensures FileOf(c) == LOGGER_FILE <==> c == Cid("test", "run")
  {
    FileParts(c);
    if FileOf(c) == LOGGER_FILE {
      assert LOGGER_FILE[|c.pod|] == '-';
      assert LOGGER_FILE[0] == 't' && LOGGER_FILE[1] == 'e' && LOGGER_FILE[2] == 's' && LOGGER_FILE[3] == 't';
      assert LOGGER_FILE[5] == 'r' && LOGGER_FILE[6] == 'u' && LOGGER_FILE[7] == 'n' && |LOGGER_FILE| == 8;
      assert |c.pod| == 4;
      assert LOGGER_FILE[..4] == "test" && LOGGER_FILE[5..] == "run";
    }
  }

  // ---------- The stop pass ends ----------

  /** An upper bound on the steps that the stop pass has still to take. */
  function StopRank(stop: StopPc): nat {
    match stop
    case Pass(todo) => 5 * |todo| + 1
    case Entered(_, todo) => 5 * |todo| + 5
    case Fetching(_, todo) => 5 * |todo| + 4
    case Marking(_, todo) => 5 * |todo| + 3
    case Storing(_, todo) => 5 * |todo| + 2
    case _ => 0
  }

  predicate IsStopAction(a: Action) {
    a.Visit? || a.StopStep? || a.StopReturn?
  }

  function StopActions(run: seq<Action>): nat {
    if run == [] then 0 else (if IsStopAction(run[0]) then 1 else 0) + StopActions(run[1..])
  }

  lemma VisitRanks(s: State, c: Cid)
    requires Enabled(s, Visit(c))
    ensures StopRank(Apply(s, Visit(c)).stop) < StopRank(s.stop)
  {
    assert |s.stop.todo - {c}| == |s.stop.todo| - 1;
  }

  lemma StopMoveRanks(s: State, ok: bool)
    requires Enabled(s, StopStep(ok))
    ensures StopRank(ApplyStop(s, ok).stop) < StopRank(s.stop)
  {
  }

  lemma StopStepRanks(s: State, a: Action)
    requires Enabled(s, a) && (s.stop.Pass? || AtContainer(s.stop))
    ensures var t := Apply(s, a);
      && StopRank(t.stop) + (if IsStopAction(a) then 1 else 0) <= StopRank(s.stop)
      && (t.stop.Pass? || AtContainer(t.stop) || t.stop.Returned?)
  {
    if a.Visit? {
      VisitRanks(s, a.c);
    } else if a.StopStep? {
      StopMoveRanks(s, a.ok);
    } else if a.StopReturn? {
      assert StopRank(s.stop) == 1 && StopRank(Apply(s, a).stop) == 0;
    } else {
      assert Apply(s, a).stop == s.stop;
    }
  }

  lemma StopCanMove(s: State)
    requires Inv(s) && (s.stop.Pass? || AtContainer(s.stop))
    ensures exists a :: IsStopAction(a) && Enabled(s, a)
  {
    if s.stop.Pass? && s.stop.todo != {} {
      var c :| c in s.stop.todo;
      assert Enabled(s, Visit(c));
    } else if s.stop.Pass? {
      assert Enabled(s, StopReturn);
    } else {
      assert Enabled(s, StopStep(true));
    }
  }

  /** After the stop signal the stop pass always has a step to take until it returns, and it takes at most
      StopRank of them however the followers move: StopPodLogCollector waits for no follower. */
  lemma {:induction false} StopPassEnds(s: State, run: seq<Action>)
    requires Inv(s) && Legal(s, run) && (s.stop.Pass? || AtContainer(s.stop))
    ensures StopActions(run) + StopRank(Exec(s, run).stop) <= StopRank(s.stop)
    ensures Exec(s, run).stop.Returned? || exists a :: IsStopAction(a) && Enabled(Exec(s, run), a)
    decreases |run|
  {
    if run == [] {
      StopCanMove(s);
    } else {
      var t := Apply(s, run[0]);
      StepKeepsInv(s, run[0]);
      StopStepRanks(s, run[0]);
      if t.stop.Returned? {
        ReturnedStays(t, run[1..]);
      } else {
        StopPassEnds(t, run[1..]);
      }
    }
  }

  lemma {:induction false} ReturnedStays(s: State, run: seq<Action>)
    requires s.stop.Returned? && Legal(s, run)
    ensures Exec(s, run).stop.Returned? && StopActions(run) == 0
    decreases |run|
  {
    if run != [] {
      ReturnedStays(Apply(s, run[0]), run[1..]);
    }
  }

  // ---------- Which logs are stored when the collector is stopped ----------

  /** When StopPodLogCollector returns, a log is on disc exactly if the stop pass has stored it or its follower
      has; a container is skipped because its follower has set the flag, which it does before it writes. */
  lemma StoredLogsAtReturn(run: seq<Action>, c: Cid)
    requires Legal(INIT, run) && Exec(INIT, run).stop.Returned? && c in Exec(INIT, run).finished
    ensures var t := Exec(INIT, run);
      && c in t.outcomes
      && (Writes(t, c) > 0 <==> t.outcomes[c] == Stored || FollowerAt(t.followers, c, {Written}))
      && (t.outcomes[c] == Skipped ==> FollowerAt(t.followers, c, {Marked, Written}))
  {
    InitInv();
    RunKeepsInv(INIT, run);
  }

  /** So a log is missing at the return exactly if its follower is between flag and file, or the fetch of the
      stop pass failed and the follower has not written. */
  lemma MissingLogsAtReturn(run: seq<Action>, c: Cid)
    requires Legal(INIT, run) && Exec(INIT, run).stop.Returned? && c in Exec(INIT, run).finished
    ensures var t := Exec(INIT, run);
      && c in t.outcomes
      && (Writes(t, c) == 0 <==>
            || (t.outcomes[c] == Skipped && FollowerAt(t.followers, c, {Marked}))
            || (t.outcomes[c] == Failed && !FollowerAt(t.followers, c, {Written})))
  {
    InitInv();
    RunKeepsInv(INIT, run);
    StoredLogsAtReturn(run, c);
    MarkedOrWritten(Exec(INIT, run).followers, c);
  }

  lemma MarkedOrWritten(fs: seq<Follower>, c: Cid)
    requires Unique(fs)
    ensures FollowerAt(fs, c, {Marked, Written}) <==> FollowerAt(fs, c, {Marked}) || FollowerAt(fs, c, {Written})
    ensures !(FollowerAt(fs, c, {Marked}) && FollowerAt(fs, c, {Written}))
  {
    if FollowerAt(fs, c, {Marked, Written}) {
      var i :| 0 <= i < |fs| && fs[i].c == c && fs[i].pc in {Marked, Written};
      assert fs[i].pc == Written ==> FollowerAt(fs, c, {Written});
      assert fs[i].pc == Marked ==> FollowerAt(fs, c, {Marked});
    }
  }

  /** Once the followers are done as well, exactly the logs that nobody could fetch are missing. */
  lemma StoredLogsInTheEnd(run: seq<Action>, c: Cid)
    requires Legal(INIT, run) && Complete(Exec(INIT, run)) && c in Exec(INIT, run).finished
    ensures var t := Exec(INIT, run);
      && c in t.outcomes
      && (Writes(t, c) > 0 <==> t.outcomes[c] != Failed || FollowerAt(t.followers, c, {Written}))
  {
    var t := Exec(INIT, run);
    MissingLogsAtReturn(run, c);
    assert forall i :: 0 <= i < |t.followers| ==> t.followers[i] in t.followers;
    assert !FollowerAt(t.followers, c, {Marked});
  }

  /** The step fetches the log of c with success. */
  predicate Fetches(s: State, a: Action, c: Cid)
    requires Enabled(s, a)
  {
    || (a.FollowerStep? && a.ok && s.followers[a.i].c == c && s.followers[a.i].pc == Following)
    || (a.StopStep? && a.ok && s.stop.Fetching? && s.stop.c == c)
  }

  /** Some step of the run does. */
  predicate FetchedIn(s: State, run: seq<Action>, c: Cid)
    requires Legal(s, run)
    decreases |run|
  {
    run != [] && (Fetches(s, run[0], c) || FetchedIn(Apply(s, run[0]), run[1..], c))
  }

  const HAVE_LOG := {Fetched, Decided, Marked, Written, Ignored}

  /** A writer has the log of c, has written it, or has dropped it. */
  ghost predicate Got(s: State, c: Cid) {
    || FollowerAt(s.followers, c, HAVE_LOG)
    || ((s.stop.Marking? || s.stop.Storing?) && s.stop.c == c)
    || HasOutcome(s.outcomes, c, Stored)
  }

  /** A follower drops a log only when the flag is set. */
  ghost predicate DroppedIsFlagged(s: State, c: Cid) {
    FollowerAt(s.followers, c, {Ignored}) ==> c in s.finished && s.finished[c]
  }

  lemma FollowerStepGets(s: State, i: nat, ok: bool, c: Cid)
    requires Unique(s.followers) && DroppedIsFlagged(s, c) && Enabled(s, FollowerStep(i, ok))
    ensures var t := ApplyFollower(s, i, ok);
      DroppedIsFlagged(t, c) && (Got(t, c) <==> Got(s, c) || Fetches(s, FollowerStep(i, ok), c))
  {
    var t := ApplyFollower(s, i, ok);
    MoveFollowers(s.followers, i, t.followers[i].pc, c, HAVE_LOG);
    MoveFollowers(s.followers, i, t.followers[i].pc, c, {Ignored});
  }

  lemma SpawnGets(s: State, c: Cid)
    requires DroppedIsFlagged(s, c) && Enabled(s, Spawn)
    ensures DroppedIsFlagged(Apply(s, Spawn), c) && (Got(Apply(s, Spawn), c) <==> Got(s, c))
  {
    var d := Cid(s.collector.pod, s.collector.names[0]);
    SpawnFollowers(s.followers, d, c, HAVE_LOG);
    SpawnFollowers(s.followers, d, c, {Ignored});
  }

  lemma OtherStepDropsNothing(s: State, a: Action, c: Cid)
    requires CollectorInv(s) && DroppedIsFlagged(s, c) && Enabled(s, a) && !a.FollowerStep? && !a.Spawn?
    ensures Apply(s, a).followers == s.followers && DroppedIsFlagged(Apply(s, a), c)
  {
    StepGrows(s, a);
    assert Apply(s, a).followers == s.followers;
  }

  lemma StopStepGets(s: State, ok: bool, c: Cid)
    requires StopInv(s) && Enabled(s, StopStep(ok))
    ensures Got(ApplyStop(s, ok), c) <==> Got(s, c) || Fetches(s, StopStep(ok), c)
  {
    assert s.stop.c !in s.outcomes;
    assert ApplyStop(s, ok).followers == s.followers;
  }

  lemma OtherStepGets(s: State, a: Action, c: Cid)
    requires StopInv(s) && Enabled(s, a) && !a.FollowerStep? && !a.Spawn?
    requires Apply(s, a).followers == s.followers
    ensures Got(Apply(s, a), c) <==> Got(s, c) || Fetches(s, a, c)
  {
    if a.StopStep? {
      StopStepGets(s, a.ok, c);
    } else if a.Visit? {
      VisitKeepsStop(s, a.c);
    }
  }

  lemma {:induction false} GotIffFetched(s: State, run: seq<Action>, c: Cid)
    requires Inv(s) && DroppedIsFlagged(s, c) && Legal(s, run)
    ensures var t := Exec(s, run); DroppedIsFlagged(t, c) && (Got(t, c) <==> Got(s, c) || FetchedIn(s, run, c))
    decreases |run|
  {
    if run != [] {
      var a := run[0];
      StepKeepsInv(s, a);
      if a.FollowerStep? {
        FollowerStepGets(s, a.i, a.ok, c);
      } else if a.Spawn? {
        SpawnGets(s, c);
      } else {
        OtherStepDropsNothing(s, a, c);
        OtherStepGets(s, a, c);
      }
      GotIffFetched(Apply(s, a), run[1..], c);
    }
  }

  /** In the end a container's log is on disc exactly if one of its fetches succeeded: no log that was fetched
      is lost, and none is made up. */
  lemma StoredIffFetched(run: seq<Action>, c: Cid)
    requires Legal(INIT, run) && Complete(Exec(INIT, run))
    ensures Writes(Exec(INIT, run), c) > 0 <==> FetchedIn(INIT, run, c)
  {
    var t := Exec(INIT, run);
    InitInv();
    RunKeepsInv(INIT, run);
    GotIffFetched(INIT, run, c);
    GotIsWrittenInTheEnd(t, c);
  }

  lemma GotIsWrittenInTheEnd(t: State, c: Cid)
    requires FlagInv(t) && WriteInv(t) && FollowerInv(t) && Complete(t) && DroppedIsFlagged(t, c)
    ensures Got(t, c) <==> Writes(t, c) > 0
  {
    if FollowerAt(t.followers, c, HAVE_LOG) {
      var i :| 0 <= i < |t.followers| && t.followers[i].c == c && t.followers[i].pc in HAVE_LOG;
      assert t.followers[i] in t.followers;
      assert t.followers[i].pc == Written ==> FollowerAt(t.followers, c, {Written});
      assert t.followers[i].pc == Ignored ==> FollowerAt(t.followers, c, {Ignored});
    }
    if FollowerAt(t.followers, c, {Marked, Written}) {
      var i :| 0 <= i < |t.followers| && t.followers[i].c == c && t.followers[i].pc in {Marked, Written};
      assert t.followers[i] in t.followers;
      assert FollowerAt(t.followers, c, {Written});
    }
    if FollowerAt(t.followers, c, {Written}) {
      var i :| 0 <= i < |t.followers| && t.followers[i].c == c && t.followers[i].pc == Written;
    }
  }

  /** The follower has set the flag and not written; the stop pass skips the container and returns. */
  lemma FollowerMarks(s: State, c: Cid, file: string) returns (run: seq<Action>)
    requires s.followers == [Follower(c, Following)] && s.finished == map[c := false]
    ensures Legal(s, run) && FileWrites(s, run, file) == 0
    ensures Exec(s, run) == s.(followers := [Follower(c, Marked)], finished := map[c := true])
  {
    var follow := FollowerStep(0, true);
    var s1 := s.(followers := [Follower(c, Fetched)]);
    var s2 := s.(followers := [Follower(c, Decided)]);
    assert Apply(s, follow) == s1 && Apply(s1, follow) == s2;
    assert s.finished[c := true] == map[c := true];
    RunOne(s2, follow, [], file);
    RunOne(s1, follow, [follow] + [], file);
    RunOne(s, follow, [follow] + ([follow] + []), file);
    run := [follow] + ([follow] + ([follow] + []));
  }

  lemma SkipAndReturn(s: State, c: Cid, file: string) returns (run: seq<Action>)
    requires s.stop == Pass({c}) && c in s.finished && s.finished[c]
    ensures Legal(s, run) && FileWrites(s, run, file) == 0
    ensures Exec(s, run) == s.(stop := Returned, outcomes := s.outcomes[c := Skipped])
  {
    var s1 := s.(stop := Pass({}), outcomes := s.outcomes[c := Skipped]);
    assert {c} - {c} == {};
    assert Apply(s, Visit(c)) == s1;
    RunOne(s1, StopReturn, [], file);
    RunOne(s, Visit(c), [StopReturn] + [], file);
    run := [Visit(c)] + ([StopReturn] + []);
  }

  /** For every container a run in which StopPodLogCollector returns before the container's log is on disc. */
  lemma StopReturnsBeforeTheLog(c: Cid) returns (run: seq<Action>)
    ensures Legal(INIT, run)
    ensures var t := Exec(INIT, run);
      && t.stop.Returned? && t.finished == map[c := true] && t.outcomes == map[c := Skipped]
      && t.followers == [Follower(c, Marked)] && Writes(t, c) == 0
    ensures FileWrites(INIT, run, FileOf(c)) == 0
  {
    var file := FileOf(c);
    var start := StopWithOneFollower(c, file);
    var s := Exec(INIT, start);
    var mark := FollowerMarks(s, c, file);
    RunConcat(INIT, start, mark, file);
    var end := SkipAndReturn(Exec(s, mark), c, file);
    RunConcat(INIT, start + mark, end, file);
    run := start + mark + end;
  }

  // ---------- The overlap does happen ----------

  lemma RunOne(s: State, a: Action, rest: seq<Action>, file: string)
    requires Enabled(s, a) && Legal(Apply(s, a), rest)
    ensures Legal(s, [a] + rest) && Exec(s, [a] + rest) == Exec(Apply(s, a), rest)
    ensures FileWrites(s, [a] + rest, file)
         == (if WritesFile(s, a, file) then 1 else 0) + FileWrites(Apply(s, a), rest, file)
  {
    assert ([a] + rest)[1..] == rest;
  }

  lemma {:induction false} RunConcat(s: State, r1: seq<Action>, r2: seq<Action>, file: string)
    requires Legal(s, r1) && Legal(Exec(s, r1), r2)
    ensures Legal(s, r1 + r2) && Exec(s, r1 + r2) == Exec(Exec(s, r1), r2)
    ensures FileWrites(s, r1 + r2, file) == FileWrites(s, r1, file) + FileWrites(Exec(s, r1), r2, file)
    decreases |r1|
  {
    if r1 == [] {
      assert r1 + r2 == r2;
    } else {
      RunConcat(Apply(s, r1[0]), r1[1..], r2, file);
      RunOne(s, r1[0], r1[1..] + r2, file);
      assert r1 + r2 == [r1[0]] + (r1[1..] + r2);
    }
  }

  /** A running pod with one container. */
  function PodOf(c: Cid): PodInfo {
    PodInfo(c.pod, true, [c.name])
  }

  function WithFollower(s: State, c: Cid): State {
    s.(pods := s.pods + {c.pod}, finished := s.finished[c := false],
       followers := s.followers + [Follower(c, Following)])
  }

  /** The scan finds a new pod with one container. */
  lemma Discover(s: State, c: Cid, todo: seq<PodInfo>, file: string) returns (run: seq<Action>)
    requires s.collector == Scanning([PodOf(c)] + todo) && c.pod !in s.pods
    ensures Legal(s, run) && Exec(s, run) == WithFollower(s, c).(collector := Scanning(todo))
    ensures FileWrites(s, run, file) == 0
  {
    var s1 := Apply(s, NextPod);
    assert s1 == s.(pods := s.pods + {c.pod}, collector := Registering(c.pod, [c.name], todo)) by {
      assert ([PodOf(c)] + todo)[1..] == todo;
    }
    var s2 := Apply(s1, InitContainer);
    var s3 := Apply(s2, Spawn);
    assert [c.name][1..] == [];
    RunOne(s3, InitContainer, [], file);
    RunOne(s2, Spawn, [InitContainer] + [], file);
    RunOne(s1, InitContainer, [Spawn] + ([InitContainer] + []), file);
    RunOne(s, NextPod, [InitContainer] + ([Spawn] + ([InitContainer] + [])), file);
    run := [NextPod] + ([InitContainer] + ([Spawn] + ([InitContainer] + [])));
  }

  /** The scan is done and the collector is stopped. */
  lemma StopNow(s: State, file: string) returns (run: seq<Action>)
    requires s.collector == Scanning([]) && s.stop.NotCalled?
    ensures Legal(s, run) && Exec(s, run) == s.(collector := Ended, stop := Pass(s.finished.Keys))
    ensures FileWrites(s, run, file) == 0
  {
    var s1 := Apply(s, NextPod);
    var s2 := Apply(s1, CallStop);
    RunOne(s2, Rendezvous, [], file);
    RunOne(s1, CallStop, [Rendezvous] + [], file);
    RunOne(s, NextPod, [CallStop] + ([Rendezvous] + []), file);
    run := [NextPod] + ([CallStop] + ([Rendezvous] + []));
  }

  /** The follower reads the flag while the stop pass is fetching. */
  lemma BothDecide(s: State, i: nat, file: string) returns (run: seq<Action>)
    requires i < |s.followers| && s.followers[i].pc.Following? && s.stop.Pass?
    requires var c := s.followers[i].c; c in s.stop.todo && c in s.finished && !s.finished[c]
    ensures var c := s.followers[i].c;
      && Legal(s, run)
      && Exec(s, run) == s.(followers := SetPc(s.followers, i, Decided), stop := Marking(c, s.stop.todo - {c}))
    ensures FileWrites(s, run, file) == 0
  {
    var c, follow, stop := s.followers[i].c, FollowerStep(i, true), StopStep(true);
    var todo := s.stop.todo - {c};
    var s1 := s.(stop := Entered(c, todo));
    var s2 := s.(stop := Fetching(c, todo));
    var s3 := s2.(followers := SetPc(s.followers, i, Fetched));
    var s4 := s2.(followers := SetPc(s.followers, i, Decided));
    assert SetPc(s3.followers, i, Decided) == s4.followers;
    RunOne(s4, stop, [], file);
    RunOne(s3, follow, [stop] + [], file);
    RunOne(s2, follow, [follow] + ([stop] + []), file);
    RunOne(s1, stop, [follow] + ([follow] + ([stop] + [])), file);
    RunOne(s, Visit(c), [stop] + ([follow] + ([follow] + ([stop] + []))), file);
    run := [Visit(c)] + ([stop] + ([follow] + ([follow] + ([stop] + []))));
  }

  /** Then both set the flag and write. */
  lemma BothWrite(s: State, i: nat, file: string) returns (run: seq<Action>)
    requires i < |s.followers| && s.followers[i].pc.Decided? && s.stop.Marking? && s.stop.c == s.followers[i].c
    requires s.stop.c in s.finished
    ensures var c := s.followers[i].c;
      && Legal(s, run)
      && Exec(s, run) == s.(followers := SetPc(s.followers, i, Written), finished := s.finished[c := true],
                            stop := Pass(s.stop.todo), outcomes := s.outcomes[c := Stored],
                            writes := s.writes + multiset{(c, ByFollower)} + multiset{(c, ByStop)})
    ensures FileWrites(s, run, file) == if FileOf(s.stop.c) == file then 2 else 0
  {
    var c, todo, follow, stop := s.stop.c, s.stop.todo, FollowerStep(i, true), StopStep(true);
    var s1 := s.(followers := SetPc(s.followers, i, Marked), finished := s.finished[c := true]);
    var s2 := s1.(followers := SetPc(s.followers, i, Written), writes := s.writes + multiset{(c, ByFollower)});
    var s3 := s2.(stop := Storing(c, todo));
    assert SetPc(s1.followers, i, Written) == s2.followers && s2.finished[c := true] == s2.finished;
    RunOne(s3, stop, [], file);
    RunOne(s2, stop, [stop] + [], file);
    RunOne(s1, follow, [stop] + ([stop] + []), file);
    RunOne(s, follow, [follow] + ([stop] + ([stop] + [])), file);
    run := [follow] + ([follow] + ([stop] + ([stop] + [])));
  }

  function Raced(s: State, i: nat): State
    requires i < |s.followers| && s.stop.Pass?
  {
    var c := s.followers[i].c;
    s.(followers := SetPc(s.followers, i, Written), finished := s.finished[c := true],
       stop := Pass(s.stop.todo - {c}), outcomes := s.outcomes[c := Stored],
       writes := s.writes + multiset{(c, ByFollower)} + multiset{(c, ByStop)})
  }

  /** From the check to the write, follower and stop pass of one container race. */
  lemma Race(s: State, i: nat, file: string) returns (run: seq<Action>)
    requires i < |s.followers| && s.followers[i].pc.Following? && s.stop.Pass?
    requires var c := s.followers[i].c; c in s.stop.todo && c in s.finished && !s.finished[c]
    ensures Legal(s, run) && Exec(s, run) == Raced(s, i)
    ensures FileWrites(s, run, file) == if FileOf(s.followers[i].c) == file then 2 else 0
  {
    var first := BothDecide(s, i, file);
    var mid := Exec(s, first);
    var second := BothWrite(mid, i, file);
    assert SetPc(mid.followers, i, Written) == SetPc(s.followers, i, Written);
    RunConcat(s, first, second, file);
    run := first + second;
  }

  /** One pod with one container is found, and then the collector is stopped. */
  lemma StopWithOneFollower(c: Cid, file: string) returns (run: seq<Action>)
    ensures Legal(INIT, run) && FileWrites(INIT, run, file) == 0
    ensures Exec(INIT, run)
      == State({c.pod}, map[c := false], Ended, [Follower(c, Following)], Pass({c}), map[], multiset{})
  {
    var s := Apply(INIT, Tick([PodOf(c)] + []));
    var found := Discover(s, c, [], file);
    var stopped := StopNow(Exec(s, found), file);
    RunConcat(s, found, stopped, file);
    RunOne(INIT, Tick([PodOf(c)] + []), found + stopped, file);
    run := [Tick([PodOf(c)] + [])] + (found + stopped);
    assert Exec(INIT, run).stop == Pass({c}) by {
      assert map[c := false].Keys == {c};
    }
  }

  lemma Finish(s: State, file: string)
    requires s.stop == Pass({})
    ensures Legal(s, [StopReturn]) && Exec(s, [StopReturn]) == s.(stop := Returned)
    ensures FileWrites(s, [StopReturn], file) == 0
  {
    RunOne(s, StopReturn, [], file);
    assert [StopReturn] + [] == [StopReturn];
  }

  /** The follower reads the flag while the stop pass is fetching, and the log file is written twice. */
  lemma AFileCanBeWrittenTwice(c: Cid) returns (run: seq<Action>)
    ensures Legal(INIT, run) && Complete(Exec(INIT, run)) && Exec(INIT, run).finished.Keys == {c}
    ensures Writes(Exec(INIT, run), c) == 2 && FileWrites(INIT, run, FileOf(c)) == 2
  {
    var file := FileOf(c);
    var start := StopWithOneFollower(c, file);
    var s := Exec(INIT, start);
    var race := Race(s, 0, file);
    RunConcat(INIT, start, race, file);
    Finish(Raced(s, 0), file);
    RunConcat(INIT, start + race, [StopReturn], file);
    run := start + race + [StopReturn];
  }

  /** Two pods with one container each are found, and then the collector is stopped. */
  lemma StopWithTwoFollowers(c: Cid, d: Cid, file: string) returns (run: seq<Action>)
    requires c.pod != d.pod
    ensures Legal(INIT, run) && FileWrites(INIT, run, file) == 0
    ensures Exec(INIT, run) == State({c.pod, d.pod}, map[c := false, d := false], Ended,
                                     [Follower(c, Following), Follower(d, Following)], Pass({c, d}), map[], multiset{})
  {
    var pods := [PodOf(c)] + ([PodOf(d)] + []);
    var s := Apply(INIT, Tick(pods));
    var first := Discover(s, c, [PodOf(d)] + [], file);
    var second := Discover(Exec(s, first), d, [], file);
    RunConcat(s, first, second, file);
    var stopped := StopNow(Exec(s, first + second), file);
    RunConcat(s, first + second, stopped, file);
    RunOne(INIT, Tick(pods), first + second + stopped, file);
    run := [Tick(pods)] + (first + second + stopped);
    assert Exec(INIT, run).stop == Pass({c, d}) by {
      assert map[c := false, d := false].Keys == {c, d};
    }
  }

  /** The guard is needed: whenever two containers share a file, there is a run in which it is written four
      times. */
  lemma SharedFileWrittenFourTimes(c: Cid, d: Cid) returns (run: seq<Action>)
    requires c != d && FileOf(c) == FileOf(d)
    ensures Legal(INIT, run) && Complete(Exec(INIT, run)) && Exec(INIT, run).finished.Keys == {c, d}
    ensures FileWrites(INIT, run, FileOf(c)) == 4
  {
    var file := FileOf(c);
    if c.pod == d.pod {
      SamePodSameName(c, d);
      assert false;
    }
    var start := StopWithTwoFollowers(c, d, file);
    var s := Exec(INIT, start);
    var one := Race(s, 0, file);
    RunConcat(INIT, start, one, file);
    var two := Race(Raced(s, 0), 1, file);
    RunConcat(INIT, start + one, two, file);
    Finish(Raced(Raced(s, 0), 1), file);
    RunConcat(INIT, start + one + two, [StopReturn], file);
    run := start + one + two + [StopReturn];
  }

  lemma SamePodSameName(c: Cid, d: Cid)
    requires FileOf(c) == FileOf(d) && c.pod == d.pod
    ensures c == d
  {
    assert c.name == FileOf(c)[|c.pod| + 1..] && d.name == FileOf(d)[|d.pod| + 1..];
  }
}
