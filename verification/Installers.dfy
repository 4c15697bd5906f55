/**
 The registry of namespaced services: teardown of a namespace in phases, which also calls the cluster-wide
 installers, and conservation of the registered installers over interleaved runs.
 */
module Installers {

  /** Installers are compared by identity only. */
  type Installer = nat

  datatype Phase = Cleanup | Wait | Uninstall

  /** One call on an installer during teardown. */
  datatype Call = Call(phase: Phase, wide: bool, si: Installer)

  function Calls(phase: Phase, wide: bool, sis: seq<Installer>): seq<Call> {
    seq(|sis|, i requires 0 <= i < |sis| => Call(phase, wide, sis[i]))
  }

  /** One call on each installer, in the order of the list. */
  lemma CallsInOrder(phase: Phase, wide: bool, sis: seq<Installer>)
    ensures |Calls(phase, wide, sis)| == |sis|
    ensures forall i :: 0 <= i < |sis| ==> Calls(phase, wide, sis)[i] == Call(phase, wide, sis[i])
    ensures forall si :: Call(phase, wide, si) in Calls(phase, wide, sis) <==> si in sis
  {
    forall i | 0 <= i < |sis|
      ensures Call(phase, wide, sis[i]) in Calls(phase, wide, sis)
    {
      assert Calls(phase, wide, sis)[i] == Call(phase, wide, sis[i]);
    }
  }

  /** An order in which ranging over the cluster-wide registry may produce its installers. */
  ghost predicate IsOrder(sis: seq<Installer>, registry: set<Installer>) {
    (forall i, j :: 0 <= i < j < |sis| ==> sis[i] != sis[j]) && (forall si :: si in sis <==> si in registry)
  }

  /** The installers of the list whose call failed, when the first call has number `from`. */
  function FailedOf(sis: seq<Installer>, ok: nat -> bool, from: nat): seq<Installer> {
    if sis == [] then []
    else FailedOf(sis[..|sis| - 1], ok, from) + if ok(from + |sis| - 1) then [] else [sis[|sis| - 1]]
  }

  /** Every call from number `from` up to `to` succeeded. */
  predicate AllOk(ok: nat -> bool, from: nat, to: nat) {
    from >= to || (ok(to - 1) && AllOk(ok, from, to - 1))
  }

  /** Every cleanup stands before every wait, and every wait before every uninstallation. */
  predicate PhasesInOrder(calls: seq<Call>) {
    forall i, j :: 0 <= i < |calls| && 0 <= j < |calls| ==>
      && (calls[i].phase == Cleanup && calls[j].phase == Wait ==> i < j)
      && (calls[i].phase == Wait && calls[j].phase == Uninstall ==> i < j)
      && (calls[i].phase == Cleanup && calls[j].phase == Uninstall ==> i < j)
  }

  lemma ThreePhases(was: seq<Call>, cleanups: seq<Call>, waits: seq<Call>, uninstallations: seq<Call>)
    requires forall c :: c in cleanups ==> c.phase == Cleanup
    requires forall c :: c in waits ==> c.phase == Wait
    requires forall c :: c in uninstallations ==> c.phase == Uninstall
    ensures PhasesInOrder((was + cleanups + waits + uninstallations)[|was|..])
  {
    assert (was + cleanups + waits + uninstallations)[|was|..] == cleanups + waits + uninstallations;
  }

  lemma {:induction false} AllOkIff(ok: nat -> bool, start: nat, end: nat)
    ensures AllOk(ok, start, end) <==> forall n: nat | start <= n < end :: ok(n)
    decreases end
  {
    if start < end {
      AllOkIff(ok, start, end - 1);
    }
  }

  /** A call on si failed; call number from + i is the one on sis[i]. */
  predicate AnyFailed(sis: seq<Installer>, ok: nat -> bool, from: nat, si: Installer) {
    exists i :: 0 <= i < |sis| && sis[i] == si && !ok(from + i)
  }

  lemma AnyFailedSnoc(sis: seq<Installer>, ok: nat -> bool, from: nat, si: Installer)
    requires sis != []
    ensures var n := |sis| - 1;
      AnyFailed(sis, ok, from, si) <==> AnyFailed(sis[..n], ok, from, si) || (sis[n] == si && !ok(from + n))
  {
    var n := |sis| - 1;
    if i :| 0 <= i < |sis[..n]| && sis[..n][i] == si && !ok(from + i) {
      assert sis[i] == si;
    }
    if i :| 0 <= i < |sis| && sis[i] == si && !ok(from + i) {
      assert i < n ==> sis[..n][i] == si;
    }
  }

  /** An installer stays registered exactly if a call on it failed. */
  lemma {:induction false} FailedIff(sis: seq<Installer>, ok: nat -> bool, from: nat, si: Installer)
    ensures si in FailedOf(sis, ok, from) <==> AnyFailed(sis, ok, from, si)
    decreases |sis|
  {
    if sis != [] {
      FailedIff(sis[..|sis| - 1], ok, from, si);
      AnyFailedSnoc(sis, ok, from, si);
    }
  }

  class Registries {
    var namespaced: map<string, seq<Installer>>
    var clusterWide: set<Installer>
    /** The calls made so far; the code does not keep them. */
    var made: seq<Call>

    constructor ()
      ensures namespaced == map[] && clusterWide == {} && made == []
    {
      namespaced, clusterWide, made := map[], {}, [];
    }

    function InNamespace(namespace: string): seq<Installer>
      reads this
    {
      if namespace in namespaced then namespaced[namespace] else []
    }

    /** Every installer of the registry gets its call, whether or not an earlier one failed; `ok` gives the
        outcome of the n-th call ever made. */
    method ExecuteOnClusterWideServices(phase: Phase, ok: nat -> bool)
      returns (success: bool, ghost order: seq<Installer>)
      modifies `made
      ensures IsOrder(order, clusterWide) && made == old(made) + Calls(phase, true, order)
      ensures success <==> AllOk(ok, |old(made)|, |made|)
    {
      success := true;
      order := [];
      var todo := clusterWide;
      while todo != {}
        invariant todo <= clusterWide && (forall si :: si in order <==> si in clusterWide && si !in todo)
        invariant forall i, j :: 0 <= i < j < |order| ==> order[i] != order[j]
        invariant made == old(made) + Calls(phase, true, order)
        invariant success <==> AllOk(ok, |old(made)|, |made|)
        decreases |todo|
      {
        var si :| si in todo;
        if !ok(|made|) {
          success := false;
        }
        made := made + [Call(phase, true, si)];
        order := order + [si];
        todo := todo - {si};
      }
    }

    method ExecuteOnNamespacedServices(namespace: string, phase: Phase, ok: nat -> bool)
      returns (success: bool, failed: seq<Installer>)
      modifies `made
      ensures made == old(made) + Calls(phase, false, InNamespace(namespace))
      ensures success <==> AllOk(ok, |old(made)|, |made|)
      ensures failed == FailedOf(InNamespace(namespace), ok, |old(made)|)
    {
      success, failed := true, [];
      var sis := InNamespace(namespace);
      for i := 0 to |sis|
        invariant made == old(made) + Calls(phase, false, sis[..i])
        invariant success <==> AllOk(ok, |old(made)|, |made|)
        invariant failed == FailedOf(sis[..i], ok, |old(made)|)
      {
        FailedNext(sis, ok, |old(made)|, i);
        CallsNext(phase, false, sis, i);
        assert old(made) + (Calls(phase, false, sis[..i]) + [Call(phase, false, sis[i])])
            == (old(made) + Calls(phase, false, sis[..i])) + [Call(phase, false, sis[i])];
        if !ok(|made|) {
          success := false;
          failed := failed + [sis[i]];
        }
        made := made + [Call(phase, false, sis[i])];
      }
      assert sis[..|sis|] == sis;
    }

    /** Teardown of a namespace: all cleanups, then all waits, then all uninstallations, none skipped; what
        is registered afterwards are exactly the installers whose uninstallation failed, in order.  `others`
        are the cluster-wide services that installations for other namespaces add between the two passes. */
    method UninstallServicesFromNamespace(namespace: string, ok: nat -> bool, others: set<Installer>)
      returns (success: bool)
      modifies `made, `namespaced, `clusterWide
      ensures clusterWide == old(clusterWide) + others
      ensures exists first, second :: InPhases(old(made), old(clusterWide), old(InNamespace(namespace)), first, second)
      ensures var sis := old(InNamespace(namespace));
        namespaced == old(namespaced)[namespace := FailedOf(sis, ok, |made| - |sis|)]
      ensures success <==> AllOk(ok, |old(made)|, |made|)
    {
      ghost var was, before, sis := made, clusterWide, InNamespace(namespace);
      ghost var first, second;
      success, first := CleanupCrs(namespace, ok);
      ghost var cleaned := made;
      clusterWide := clusterWide + others;
      var waited;
      waited, second := WaitForCrs(namespace, ok);
      ghost var drained := made;
      var removed, servicesNotDeleted := ExecuteOnNamespacedServices(namespace, Uninstall, ok);
      AllOkThree(ok, |was|, |cleaned|, |drained|, |made|);
      success := success && waited && removed;
      namespaced := namespaced[namespace := servicesNotDeleted];
      assert |drained| == |made| - |sis|;
      assert InPhases(was, before, sis, first, second);
    }

    /** The calls of a teardown, behind those in `before`: two passes over the cluster-wide services, as they
        are registered at the time, and three over the namespace's. */
    ghost predicate InPhases(before: seq<Call>, registered: set<Installer>, sis: seq<Installer>,
                             first: seq<Installer>, second: seq<Installer>)
      reads this
    {
      && IsOrder(first, registered) && IsOrder(second, clusterWide)
      && made == before + (Calls(Cleanup, true, first) + Calls(Cleanup, false, sis))
                        + (Calls(Wait, true, second) + Calls(Wait, false, sis)) + Calls(Uninstall, false, sis)
    }

    method CleanupCrs(namespace: string, ok: nat -> bool) returns (success: bool, ghost order: seq<Installer>)
      modifies `made
      ensures IsOrder(order, clusterWide)
      ensures made == old(made) + (Calls(Cleanup, true, order) + Calls(Cleanup, false, InNamespace(namespace)))
      ensures success <==> AllOk(ok, |old(made)|, |made|)
    {
      ghost var was := made;
      success, order := ExecuteOnClusterWideServices(Cleanup, ok);
      ghost var mid := made;
      var done, failed := ExecuteOnNamespacedServices(namespace, Cleanup, ok);
      AllOkSplit(ok, |was|, |mid|, |made|);
      success := success && done;
    }

    method WaitForCrs(namespace: string, ok: nat -> bool) returns (success: bool, ghost order: seq<Installer>)
      modifies `made
      ensures IsOrder(order, clusterWide)
      ensures made == old(made) + (Calls(Wait, true, order) + Calls(Wait, false, InNamespace(namespace)))
      ensures success <==> AllOk(ok, |old(made)|, |made|)
    {
      ghost var was := made;
      success, order := ExecuteOnClusterWideServices(Wait, ok);
      ghost var mid := made;
      var done, failed := ExecuteOnNamespacedServices(namespace, Wait, ok);
      AllOkSplit(ok, |was|, |mid|, |made|);
      success := success && done;
    }
  }

  /** What UninstallServicesFromNamespace promises of its calls puts the phases in order. */
  lemma TeardownInOrder(r: Registries, before: seq<Call>, registered: set<Installer>, sis: seq<Installer>,
                        first: seq<Installer>, second: seq<Installer>)
    requires r.InPhases(before, registered, sis, first, second)
    ensures |r.made| >= |before| && r.made[..|before|] == before && PhasesInOrder(r.made[|before|..])
  {
    ThreePhases(before, Calls(Cleanup, true, first) + Calls(Cleanup, false, sis),
                Calls(Wait, true, second) + Calls(Wait, false, sis), Calls(Uninstall, false, sis));
  }

  lemma FailedNext(sis: seq<Installer>, ok: nat -> bool, from: nat, i: nat)
    requires i < |sis|
    ensures FailedOf(sis[..i + 1], ok, from) == FailedOf(sis[..i], ok, from) + if ok(from + i) then [] else [sis[i]]
  {
    assert sis[..i + 1][..i] == sis[..i];
  }

  lemma CallsNext(phase: Phase, wide: bool, sis: seq<Installer>, i: nat)
    requires i < |sis|
    ensures Calls(phase, wide, sis[..i + 1]) == Calls(phase, wide, sis[..i]) + [Call(phase, wide, sis[i])]
  {
  }

  lemma {:induction false} AllOkSplit(ok: nat -> bool, a: nat, b: nat, c: nat)
    requires a <= b <= c
    ensures AllOk(ok, a, c) <==> AllOk(ok, a, b) && AllOk(ok, b, c)
    decreases c
  {
    if b < c {
      AllOkSplit(ok, a, b, c - 1);
    }
  }

  lemma AllOkThree(ok: nat -> bool, a: nat, b: nat, c: nat, d: nat)
    requires a <= b <= c <= d
    ensures AllOk(ok, a, d) <==> AllOk(ok, a, b) && AllOk(ok, b, c) && AllOk(ok, c, d)
  {
    AllOkSplit(ok, a, b, c);
    AllOkSplit(ok, a, c, d);
  }

  lemma PartsSnoc(sis: seq<Installer>, failed: seq<Installer>, removed: seq<Installer>, x: Installer, ok: bool)
    requires multiset(sis) == multiset(failed) + multiset(removed)
    ensures multiset(sis + [x])
         == multiset(failed + if ok then [] else [x]) + multiset(removed + if ok then [x] else [])
  {
    assert failed + [] == failed && removed + [] == removed;
  }

  /** The failed installers are the list without the successes: nothing is lost and nothing doubled. */
  lemma {:induction false} FailedAndRemoved(sis: seq<Installer>, ok: nat -> bool, from: nat)
    ensures multiset(sis) == multiset(FailedOf(sis, ok, from)) + multiset(RemovedOf(sis, ok, from))
    decreases |sis|
  {
    if sis != [] {
      var front, last := sis[..|sis| - 1], sis[|sis| - 1];
      FailedAndRemoved(front, ok, from);
      PartsSnoc(front, FailedOf(front, ok, from), RemovedOf(front, ok, from), last, ok(from + |sis| - 1));
      assert sis == front + [last];
    }
  }

  lemma {:induction false} NoneFailed(sis: seq<Installer>, ok: nat -> bool, from: nat)
    ensures AllOk(ok, from, from + |sis|) <==> FailedOf(sis, ok, from) == []
    decreases |sis|
  {
    if sis != [] {
      NoneFailed(sis[..|sis| - 1], ok, from);
    }
  }

  /** The installers of the list whose call succeeded. */
  function RemovedOf(sis: seq<Installer>, ok: nat -> bool, from: nat): seq<Installer> {
    if sis == [] then []
    else RemovedOf(sis[..|sis| - 1], ok, from) + if ok(from + |sis| - 1) then [sis[|sis| - 1]] else []
  }

  // ---------- Conservation over interleaved runs ----------

  /** Where a thread stands between two accesses to the namespaced registry; `list` is what it has loaded. */
  datatype Pc =
    | Idle
    | Appending(ns: string, list: seq<Installer>, si: Installer)   // Install, before it stores the longer list
    | Removing(ns: string, list: seq<Installer>, todo: seq<Installer>, failed: seq<Installer>)   // the uninstall loop

  type Thread = nat

  /** `installs` and `removals` record history: the Install calls and the successful uninstallations. */
  datatype State = State(
    registry: map<string, seq<Installer>>,
    threads: map<Thread, Pc>,
    installs: multiset<(string, Installer)>,
    removals: multiset<(string, Installer)>)

  const INIT := State(map[], map[], multiset{}, multiset{})

  datatype Action =
    | LoadOrStore(t: Thread, ns: string, si: Installer)
    | Append(t: Thread)
    | StartRemoval(t: Thread, ns: string)
    | RemoveNext(t: Thread, ok: bool)
    | StoreFailed(t: Thread)

  function At(threads: map<Thread, Pc>, t: Thread): Pc {
    if t in threads then threads[t] else Idle
  }

  function Registered(s: State, ns: string): seq<Installer> {
    if ns in s.registry then s.registry[ns] else []
  }

  predicate Enabled(s: State, a: Action) {
    match a
    case LoadOrStore(t, _, _) => At(s.threads, t).Idle?
    case Append(t) => At(s.threads, t).Appending?
    case StartRemoval(t, _) => At(s.threads, t).Idle?
    case RemoveNext(t, _) => At(s.threads, t).Removing? && At(s.threads, t).todo != []
    case StoreFailed(t) => At(s.threads, t).Removing? && At(s.threads, t).todo == []
  }

  function Apply(s: State, a: Action): State
    requires Enabled(s, a)
  {
    match a
    case LoadOrStore(t, ns, si) =>
      var s' := s.(installs := s.installs + multiset{(ns, si)});
      if ns in s.registry then s'.(threads := s.threads[t := Appending(ns, s.registry[ns], si)])
      else s'.(registry := s.registry[ns := [si]])
    case Append(t) =>
      var Appending(ns, list, si) := s.threads[t];
      s.(registry := s.registry[ns := list + [si]], threads := s.threads[t := Idle])
    case StartRemoval(t, ns) =>
      s.(threads := s.threads[t := Removing(ns, Registered(s, ns), Registered(s, ns), [])])
    case RemoveNext(t, ok) =>
      var Removing(ns, list, todo, failed) := s.threads[t];
      if ok then
        s.(threads := s.threads[t := Removing(ns, list, todo[1..], failed)],
           removals := s.removals + multiset{(ns, todo[0])})
      else s.(threads := s.threads[t := Removing(ns, list, todo[1..], failed + [todo[0]])])
    case StoreFailed(t) =>
      var Removing(ns, _, _, failed) := s.threads[t];
      s.(registry := s.registry[ns := failed], threads := s.threads[t := Idle])
  }

  predicate Legal(s: State, run: seq<Action>)
    decreases |run|
  {
    run == [] || (Enabled(s, run[0]) && Legal(Apply(s, run[0]), run[1..]))
  }

  function Exec(s: State, run: seq<Action>): State
    requires Legal(s, run)
    decreases |run|
  {
    if run == [] then s else Exec(Apply(s, run[0]), run[1..])
  }

  predicate InUse(pc: Pc, ns: string) {
    !pc.Idle? && pc.ns == ns
  }

  ghost predicate Busy(threads: map<Thread, Pc>, ns: string) {
    exists t :: t in threads && InUse(threads[t], ns)
  }

  // ---------- Lost updates ----------

  /** The step stores a list for the namespace. */
  predicate IsStore(s: State, a: Action, ns: string) {
    (a.Append? || a.StoreFailed?) && InUse(At(s.threads, a.t), ns)
  }

  /** It stores over another list than the one that its thread has loaded. */
  predicate IsStale(s: State, a: Action, ns: string) {
    IsStore(s, a, ns) && At(s.threads, a.t).list != Registered(s, ns)
  }

  predicate NeverStale(s: State, run: seq<Action>, ns: string)
    requires Legal(s, run)
    decreases |run|
  {
    run == [] || (!IsStale(s, run[0], ns) && NeverStale(Apply(s, run[0]), run[1..], ns))
  }

  function Count(sis: seq<Installer>, si: Installer): int {
    multiset(sis)[si]
  }

  /** How many registrations of the installer the step brings back, or loses if negative. */
  function Regained(s: State, a: Action, ns: string, si: Installer): int {
    if IsStore(s, a, ns) then Count(At(s.threads, a.t).list, si) - Count(Registered(s, ns), si) else 0
  }

  function Drift(s: State, run: seq<Action>, ns: string, si: Installer): int
    requires Legal(s, run)
    decreases |run|
  {
    if run == [] then 0 else Regained(s, run[0], ns, si) + Drift(Apply(s, run[0]), run[1..], ns, si)
  }

  lemma {:induction false} NoDrift(s: State, run: seq<Action>, ns: string, si: Installer)
    requires Legal(s, run) && NeverStale(s, run, ns)
    ensures Drift(s, run, ns, si) == 0
    decreases |run|
  {
    if run != [] {
      NoDrift(Apply(s, run[0]), run[1..], ns, si);
    }
  }

  // ---------- Sums over the threads ----------

  function Sum(threads: map<Thread, Pc>, n: nat, f: Pc -> int): int {
    if n == 0 then 0 else Sum(threads, n - 1, f) + f(At(threads, n - 1))
  }

  lemma {:induction false} SumUpdate(threads: map<Thread, Pc>, n: nat, f: Pc -> int, t: Thread, pc: Pc)
    ensures Sum(threads[t := pc], n, f) == Sum(threads, n, f) + if t < n then f(pc) - f(At(threads, t)) else 0
  {
    if n > 0 {
      SumUpdate(threads, n - 1, f, t, pc);
    }
  }

  lemma {:induction false} SumOfZeros(threads: map<Thread, Pc>, n: nat, f: Pc -> int)
    requires forall t: nat | t < n :: f(At(threads, t)) == 0
    ensures Sum(threads, n, f) == 0
  {
    if n > 0 {
      SumOfZeros(threads, n - 1, f);
    }
  }

  predicate ThreadsBelow(run: seq<Action>, n: nat) {
    forall i :: 0 <= i < |run| ==> run[i].t < n
  }

  lemma {:induction false} ThreadBound(run: seq<Action>) returns (n: nat)
    ensures ThreadsBelow(run, n)
  {
    if run == [] {
      n := 0;
    } else {
      var m := ThreadBound(run[1..]);
      n := if run[0].t < m then m else run[0].t + 1;
      assert forall i :: 0 < i < |run| ==> run[i] == run[1..][i - 1];
    }
  }

  // ---------- The balance of every run ----------

  /** What a thread has counted but not stored yet: an installation, or minus the removals of its loop. */
  function Unstored(pc: Pc, ns: string, si: Installer): int {
    if !InUse(pc, ns) then 0
    else if pc.Appending? then if pc.si == si then 1 else 0
    else Count(pc.todo, si) + Count(pc.failed, si) - Count(pc.list, si)
  }

  function UnstoredIn(ns: string, si: Installer): Pc -> int {
    pc => Unstored(pc, ns, si)
  }

  predicate Accounted(s: State, n: nat, ns: string, si: Installer, drift: int) {
    s.installs[(ns, si)] + drift
    == Count(Registered(s, ns), si) + s.removals[(ns, si)] + Sum(s.threads, n, UnstoredIn(ns, si))
  }

  lemma InstallAccounts(s: State, a: Action, n: nat, ns: string, si: Installer, drift: int)
    requires a.LoadOrStore? && Enabled(s, a) && a.t < n && Accounted(s, n, ns, si, drift)
    ensures Accounted(Apply(s, a), n, ns, si, drift)
  {
    assert Apply(s, a).installs[(ns, si)] == s.installs[(ns, si)] + if a.ns == ns && a.si == si then 1 else 0;
    if a.ns in s.registry {
      SumUpdate(s.threads, n, UnstoredIn(ns, si), a.t, Appending(a.ns, s.registry[a.ns], a.si));
    }
  }

  lemma CountSnoc(sis: seq<Installer>, x: Installer, si: Installer)
    ensures Count(sis + [x], si) == Count(sis, si) + if x == si then 1 else 0
  {
  }

  lemma CountCons(sis: seq<Installer>, si: Installer)
    requires sis != []
    ensures Count(sis, si) == Count(sis[1..], si) + if sis[0] == si then 1 else 0
  {
    assert sis == [sis[0]] + sis[1..];
  }

  lemma StoreAccounts(s: State, a: Action, n: nat, ns: string, si: Installer, drift: int)
    requires (a.Append? || a.StoreFailed?) && Enabled(s, a) && a.t < n && Accounted(s, n, ns, si, drift)
    ensures Accounted(Apply(s, a), n, ns, si, drift + Regained(s, a, ns, si))
  {
    SumUpdate(s.threads, n, UnstoredIn(ns, si), a.t, Idle);
    if a.Append? {
      CountSnoc(s.threads[a.t].list, s.threads[a.t].si, si);
    }
  }

  lemma StartAccounts(s: State, a: Action, n: nat, ns: string, si: Installer, drift: int)
    requires a.StartRemoval? && Enabled(s, a) && a.t < n && Accounted(s, n, ns, si, drift)
    ensures Accounted(Apply(s, a), n, ns, si, drift)
  {
    SumUpdate(s.threads, n, UnstoredIn(ns, si), a.t, Apply(s, a).threads[a.t]);
  }

  /** A removal that succeeds is counted as one, a removal that fails moves its installer. */
  lemma RemovalMoves(pc: Pc, ok: bool, ns: string, si: Installer)
    requires pc.Removing? && pc.todo != []
    ensures var failed := if ok then pc.failed else pc.failed + [pc.todo[0]];
      Unstored(Removing(pc.ns, pc.list, pc.todo[1..], failed), ns, si)
      == Unstored(pc, ns, si) - if ok && pc.ns == ns && pc.todo[0] == si then 1 else 0
  {
    CountCons(pc.todo, si);
    CountSnoc(pc.failed, pc.todo[0], si);
  }

  lemma RemovalAccounts(s: State, a: Action, n: nat, ns: string, si: Installer, drift: int)
    requires a.RemoveNext? && Enabled(s, a) && a.t < n && Accounted(s, n, ns, si, drift)
    ensures Accounted(Apply(s, a), n, ns, si, drift)
  {
    var pc := s.threads[a.t];
    RemovalMoves(pc, a.ok, ns, si);
    SumUpdate(s.threads, n, UnstoredIn(ns, si), a.t, Apply(s, a).threads[a.t]);
    assert Apply(s, a).removals[(ns, si)]
        == s.removals[(ns, si)] + if a.ok && pc.ns == ns && pc.todo[0] == si then 1 else 0;
  }

  lemma {:induction false} RunAccounts(s: State, run: seq<Action>, n: nat, ns: string, si: Installer, drift: int)
    requires Legal(s, run) && ThreadsBelow(run, n) && Accounted(s, n, ns, si, drift)
    ensures Accounted(Exec(s, run), n, ns, si, drift + Drift(s, run, ns, si))
    decreases |run|
  {
    if run != [] {
      var a := run[0];
      if a.LoadOrStore? {
        InstallAccounts(s, a, n, ns, si, drift);
      } else if a.Append? || a.StoreFailed? {
        StoreAccounts(s, a, n, ns, si, drift);
      } else if a.StartRemoval? {
        StartAccounts(s, a, n, ns, si, drift);
      } else {
        RemovalAccounts(s, a, n, ns, si, drift);
      }
      RunAccounts(Apply(s, a), run[1..], n, ns, si, drift + Regained(s, a, ns, si));
    }
  }

  /** Over every run, with any overlap of installations and teardowns: once the namespace is quiet, its
      registered installers and successful uninstallations are its Install calls plus what the stores brought
      back or lost. */
  lemma LostUpdatesAccountForTheBalance(run: seq<Action>, ns: string, si: Installer)
    requires Legal(INIT, run) && !Busy(Exec(INIT, run).threads, ns)
    ensures var s := Exec(INIT, run);
      multiset(Registered(s, ns))[si] + s.removals[(ns, si)] == s.installs[(ns, si)] + Drift(INIT, run, ns, si)
  {
    var n := ThreadBound(run);
    var s := Exec(INIT, run);
    SumOfZeros(INIT.threads, n, UnstoredIn(ns, si));
    RunAccounts(INIT, run, n, ns, si, 0);
    SumOfZeros(s.threads, n, UnstoredIn(ns, si));
  }

  /** So the calls are conserved if and only if, for every installer, gains and losses of the stores cancel out. */
  lemma ConservedIffDriftCancels(run: seq<Action>, ns: string)
    requires Legal(INIT, run) && !Busy(Exec(INIT, run).threads, ns)
    ensures var s := Exec(INIT, run);
      (forall si: Installer :: s.installs[(ns, si)] == s.removals[(ns, si)] + multiset(Registered(s, ns))[si])
      <==> forall si: Installer :: Drift(INIT, run, ns, si) == 0
  {
    var s := Exec(INIT, run);
    if forall si: Installer :: Drift(INIT, run, ns, si) == 0 {
      forall si: Installer
        ensures s.installs[(ns, si)] == s.removals[(ns, si)] + multiset(Registered(s, ns))[si]
      {
        LostUpdatesAccountForTheBalance(run, ns, si);
      }
    } else {
      var si: Installer :| Drift(INIT, run, ns, si) != 0;
      LostUpdatesAccountForTheBalance(run, ns, si);
    }
  }

  /** Whenever no store was stale, every Install call in a quiet namespace is an uninstallation or registered. */
  lemma NeverStaleConserves(run: seq<Action>, ns: string)
    requires Legal(INIT, run) && NeverStale(INIT, run, ns)
    ensures var s := Exec(INIT, run);
      !Busy(s.threads, ns) ==>
        forall si: Installer :: s.installs[(ns, si)] == s.removals[(ns, si)] + multiset(Registered(s, ns))[si]
  {
    var s := Exec(INIT, run);
    if !Busy(s.threads, ns) {
      forall si: Installer
        ensures s.installs[(ns, si)] == s.removals[(ns, si)] + multiset(Registered(s, ns))[si]
      {
        LostUpdatesAccountForTheBalance(run, ns, si);
        NoDrift(INIT, run, ns, si);
      }
    }
  }

  // ---------- One thread per namespace ----------

  /** An installation or a teardown starts only while no other is going on in the namespace. */
  ghost predicate Alone(s: State, a: Action) {
    a.LoadOrStore? || a.StartRemoval? ==> !Busy(s.threads, a.ns)
  }

  ghost predicate AllAlone(s: State, run: seq<Action>)
    requires Legal(s, run)
    decreases |run|
  {
    run == [] || (Alone(s, run[0]) && AllAlone(Apply(s, run[0]), run[1..]))
  }

  /** At most one thread is busy in each namespace, and what it has loaded is what is registered. */
  ghost predicate Inv(s: State) {
    && (forall t, u :: t in s.threads && u in s.threads && !s.threads[t].Idle? && !s.threads[u].Idle? ==>
          s.threads[t].ns == s.threads[u].ns ==> t == u)
    && (forall t :: t in s.threads && !s.threads[t].Idle? ==> s.threads[t].list == Registered(s, s.threads[t].ns))
  }

  lemma StartKeepsInv(s: State, a: Action)
    requires Inv(s) && Enabled(s, a) && Alone(s, a) && (a.LoadOrStore? || a.StartRemoval?)
    ensures Inv(Apply(s, a))
  {
  }

  lemma StoreKeepsInv(s: State, a: Action)
    requires Inv(s) && Enabled(s, a) && (a.Append? || a.StoreFailed?)
    ensures Inv(Apply(s, a))
  {
  }

  lemma StepKeepsInv(s: State, a: Action)
    requires Inv(s) && Enabled(s, a) && Alone(s, a)
    ensures Inv(Apply(s, a))
  {
    if a.LoadOrStore? || a.StartRemoval? {
      StartKeepsInv(s, a);
    } else if a.Append? || a.StoreFailed? {
      StoreKeepsInv(s, a);
    }
  }

  lemma {:induction false} RunKeepsInv(s: State, run: seq<Action>, ns: string)
    requires Inv(s) && Legal(s, run) && AllAlone(s, run)
    ensures Inv(Exec(s, run)) && NeverStale(s, run, ns)
    decreases |run|
  {
    if run != [] {
      StepKeepsInv(s, run[0]);
      RunKeepsInv(Apply(s, run[0]), run[1..], ns);
    }
  }

  /** Over every interleaving with at most one thread busy per namespace: whenever no thread is busy in a
      namespace, its Install calls are exactly the successful uninstallations and the registered installers. */
  lemma InstallsAreConserved(run: seq<Action>, ns: string)
    requires Legal(INIT, run) && AllAlone(INIT, run)
    ensures var s := Exec(INIT, run);
      !Busy(s.threads, ns) ==>
        forall si: Installer :: s.installs[(ns, si)] == s.removals[(ns, si)] + multiset(Registered(s, ns))[si]
  {
    RunKeepsInv(INIT, run, ns);
    NeverStaleConserves(run, ns);
  }

  // ---------- Overlapping installations ----------

  /** The installers of the namespace's Install calls. */
  function InstallsIn(run: seq<Action>, ns: string): multiset<Installer> {
    if run == [] then multiset{}
    else (if run[0].LoadOrStore? && run[0].ns == ns then multiset{run[0].si} else multiset{}) + InstallsIn(run[1..], ns)
  }

  predicate NoRemovalIn(run: seq<Action>, ns: string) {
    forall i :: 0 <= i < |run| ==> run[i].StartRemoval? ==> run[i].ns != ns
  }

  function Using(ns: string): Pc -> int {
    pc => if InUse(pc, ns) then 1 else 0
  }

  /** No teardown is going on in the namespace. */
  ghost predicate OnlyInstalling(s: State, ns: string) {
    forall t :: t in s.threads && InUse(s.threads[t], ns) ==> s.threads[t].Appending? && ns in s.registry
  }

  /** So far no store was stale: every loaded list is the start of the registered one, and nothing is lost. */
  ghost predicate Complete(s: State, n: nat, ns: string, count: nat) {
    && OnlyInstalling(s, ns)
    && (forall t :: t in s.threads && InUse(s.threads[t], ns) ==> s.threads[t].list <= Registered(s, ns))
    && |Registered(s, ns)| + Sum(s.threads, n, Using(ns)) == count
  }

  /** A store was stale: whatever the threads store from now on, something stays lost. */
  ghost predicate Short(s: State, n: nat, ns: string, count: nat) {
    && OnlyInstalling(s, ns)
    && ns in s.registry && |Registered(s, ns)| + Sum(s.threads, n, Using(ns)) < count
    && (forall t :: t in s.threads && InUse(s.threads[t], ns) ==>
          |s.threads[t].list| + Sum(s.threads, n, Using(ns)) < count)
  }

  function Counted(a: Action, ns: string): nat {
    if a.LoadOrStore? && a.ns == ns then 1 else 0
  }

  /** How the step moves the number of threads in the namespace. */
  lemma StepMovesSum(s: State, a: Action, n: nat, ns: string)
    requires Enabled(s, a) && a.t < n
    ensures var pc, pc' := At(s.threads, a.t), At(Apply(s, a).threads, a.t);
      Sum(Apply(s, a).threads, n, Using(ns)) == Sum(s.threads, n, Using(ns)) + Using(ns)(pc') - Using(ns)(pc)
    ensures forall u :: u != a.t ==> At(Apply(s, a).threads, u) == At(s.threads, u)
  {
    var s' := Apply(s, a);
    if s'.threads != s.threads {
      SumUpdate(s.threads, n, Using(ns), a.t, s'.threads[a.t]);
    }
  }

  lemma InstallStaysComplete(s: State, a: Action, n: nat, ns: string, count: nat)
    requires Enabled(s, a) && a.t < n && a.LoadOrStore? && Complete(s, n, ns, count)
    ensures Complete(Apply(s, a), n, ns, count + Counted(a, ns))
  {
    StepMovesSum(s, a, n, ns);
  }

  lemma StoreStaysComplete(s: State, a: Action, n: nat, ns: string, count: nat)
    requires Enabled(s, a) && a.t < n && (a.Append? || a.StoreFailed?) && !IsStale(s, a, ns)
    requires Complete(s, n, ns, count)
    ensures Complete(Apply(s, a), n, ns, count)
  {
    StepMovesSum(s, a, n, ns);
  }

  lemma RemovalStaysComplete(s: State, a: Action, n: nat, ns: string, count: nat)
    requires Enabled(s, a) && a.t < n && (a.StartRemoval? || a.RemoveNext?) && (a.StartRemoval? ==> a.ns != ns)
    requires Complete(s, n, ns, count)
    ensures Complete(Apply(s, a), n, ns, count)
  {
    StepMovesSum(s, a, n, ns);
  }

  lemma StepStaysComplete(s: State, a: Action, n: nat, ns: string, count: nat)
    requires Enabled(s, a) && a.t < n && (a.StartRemoval? ==> a.ns != ns) && Complete(s, n, ns, count)
    ensures !IsStale(s, a, ns) ==> Complete(Apply(s, a), n, ns, count + Counted(a, ns))
  {
    if a.LoadOrStore? {
      InstallStaysComplete(s, a, n, ns, count);
    } else if a.StartRemoval? || a.RemoveNext? {
      RemovalStaysComplete(s, a, n, ns, count);
    } else if !IsStale(s, a, ns) {
      StoreStaysComplete(s, a, n, ns, count);
    }
  }

  lemma StaleStepCutsShort(s: State, a: Action, n: nat, ns: string, count: nat)
    requires Enabled(s, a) && a.t < n && IsStale(s, a, ns) && Complete(s, n, ns, count)
    ensures Short(Apply(s, a), n, ns, count + Counted(a, ns))
  {
    StepMovesSum(s, a, n, ns);
    var list := At(s.threads, a.t).list;
    assert |list| < |Registered(s, ns)|;
  }

  lemma StepStaysShort(s: State, a: Action, n: nat, ns: string, count: nat)
    requires Enabled(s, a) && a.t < n && (a.StartRemoval? ==> a.ns != ns) && Short(s, n, ns, count)
    ensures Short(Apply(s, a), n, ns, count + Counted(a, ns))
  {
    StepMovesSum(s, a, n, ns);
  }

  lemma {:induction false} RunStaysShort(s: State, run: seq<Action>, n: nat, ns: string, count: nat)
    requires Legal(s, run) && ThreadsBelow(run, n) && NoRemovalIn(run, ns) && Short(s, n, ns, count)
    ensures Short(Exec(s, run), n, ns, count + |InstallsIn(run, ns)|)
    decreases |run|
  {
    if run != [] {
      StepStaysShort(s, run[0], n, ns, count);
      RunStaysShort(Apply(s, run[0]), run[1..], n, ns, count + Counted(run[0], ns));
    }
  }

  lemma {:induction false} RunIsCompleteOrShort(s: State, run: seq<Action>, n: nat, ns: string, count: nat)
    requires Legal(s, run) && ThreadsBelow(run, n) && NoRemovalIn(run, ns) && Complete(s, n, ns, count)
    ensures var t, total := Exec(s, run), count + |InstallsIn(run, ns)|;
      if NeverStale(s, run, ns) then Complete(t, n, ns, total) else Short(t, n, ns, total)
    decreases |run|
  {
    if run != [] {
      var a, next := run[0], Apply(s, run[0]);
      if IsStale(s, a, ns) {
        StaleStepCutsShort(s, a, n, ns, count);
        RunStaysShort(next, run[1..], n, ns, count + Counted(a, ns));
      } else {
        StepStaysComplete(s, a, n, ns, count);
        RunIsCompleteOrShort(next, run[1..], n, ns, count + Counted(a, ns));
      }
    }
  }

  lemma StepIsCounted(s: State, a: Action, ns: string, si: Installer)
    requires Enabled(s, a) && (a.StartRemoval? ==> a.ns != ns) && OnlyInstalling(s, ns)
    ensures OnlyInstalling(Apply(s, a), ns) && Apply(s, a).removals[(ns, si)] == s.removals[(ns, si)]
    ensures Apply(s, a).installs[(ns, si)]
         == s.installs[(ns, si)] + if a.LoadOrStore? && a.ns == ns && a.si == si then 1 else 0
  {
    StepIsInstall(s, a, ns, si);
  }

  lemma StepIsInstall(s: State, a: Action, ns: string, si: Installer)
    requires Enabled(s, a)
    ensures Apply(s, a).installs[(ns, si)]
         == s.installs[(ns, si)] + if a.LoadOrStore? && a.ns == ns && a.si == si then 1 else 0
  {
  }

  lemma InstallsInCons(a: Action, run: seq<Action>, ns: string, si: Installer)
    ensures InstallsIn([a] + run, ns)[si]
         == InstallsIn(run, ns)[si] + if a.LoadOrStore? && a.ns == ns && a.si == si then 1 else 0
  {
    assert ([a] + run)[1..] == run;
  }

  lemma {:induction false} InstallsAreCounted(s: State, run: seq<Action>, ns: string, si: Installer)
    requires Legal(s, run) && NoRemovalIn(run, ns) && OnlyInstalling(s, ns)
    ensures Exec(s, run).installs[(ns, si)] == s.installs[(ns, si)] + InstallsIn(run, ns)[si]
    ensures Exec(s, run).removals[(ns, si)] == s.removals[(ns, si)]
    decreases |run|
  {
    if run != [] {
      StepIsCounted(s, run[0], ns, si);
      InstallsInCons(run[0], run[1..], ns, si);
      assert run == [run[0]] + run[1..];
      InstallsAreCounted(Apply(s, run[0]), run[1..], ns, si);
    }
  }

  /** Exactly when overlapping installations lose nothing: in a namespace without teardown, once it is quiet,
      the registered installers are those of the Install calls if and only if every store found in the registry
      the list that its thread had loaded.  If one did not, fewer are registered than were installed, for good. */
  lemma NothingLostIffNeverStale(run: seq<Action>, ns: string)
    requires Legal(INIT, run) && NoRemovalIn(run, ns) && !Busy(Exec(INIT, run).threads, ns)
    ensures var list := Registered(Exec(INIT, run), ns);
      && (multiset(list) == InstallsIn(run, ns) <==> NeverStale(INIT, run, ns))
      && (!NeverStale(INIT, run, ns) ==> |list| < |InstallsIn(run, ns)|)
  {
    var s := Exec(INIT, run);
    var n := ThreadBound(run);
    SumOfZeros(INIT.threads, n, Using(ns));
    RunIsCompleteOrShort(INIT, run, n, ns, 0);
    SumOfZeros(s.threads, n, Using(ns));
    assert |multiset(Registered(s, ns))| == |Registered(s, ns)|;
    if NeverStale(INIT, run, ns) {
      NeverStaleConserves(run, ns);
      forall si: Installer
        ensures multiset(Registered(s, ns))[si] == InstallsIn(run, ns)[si]
      {
        InstallsAreCounted(INIT, run, ns, si);
      }
    }
  }

  /** Two installations that overlap in one namespace lose an installer: loading and storing the list are
      two steps. */
  lemma OverlappingInstallsLoseAnInstaller(ns: string, a: Installer, b: Installer, c: Installer)
    requires a != b && b != c && a != c
    ensures var run := [LoadOrStore(0, ns, a), LoadOrStore(0, ns, b), LoadOrStore(1, ns, c), Append(0), Append(1)];
      && Legal(INIT, run)
      && Registered(Exec(INIT, run), ns) == [a, c]
      && Exec(INIT, run).installs == multiset{(ns, a), (ns, b), (ns, c)}
      && Exec(INIT, run).removals == multiset{}
  {
    var s1 := Apply(INIT, LoadOrStore(0, ns, a));
    var s2 := Apply(s1, LoadOrStore(0, ns, b));
    var stores := [Append(0), Append(1)];
    OverlapLoads(ns, a, b, c);
    OverlapStores(Apply(s2, LoadOrStore(1, ns, c)), ns, a, b, c);
    var last, later := [LoadOrStore(1, ns, c)] + stores, [LoadOrStore(0, ns, b)] + ([LoadOrStore(1, ns, c)] + stores);
    RunOne(s2, LoadOrStore(1, ns, c), stores);
    RunOne(s1, LoadOrStore(0, ns, b), last);
    RunOne(INIT, LoadOrStore(0, ns, a), later);
    assert [LoadOrStore(0, ns, a)] + later
        == [LoadOrStore(0, ns, a), LoadOrStore(0, ns, b), LoadOrStore(1, ns, c), Append(0), Append(1)];
  }

  lemma OverlapLoads(ns: string, a: Installer, b: Installer, c: Installer)
    ensures Apply(Apply(Apply(INIT, LoadOrStore(0, ns, a)), LoadOrStore(0, ns, b)), LoadOrStore(1, ns, c))
         == State(map[ns := [a]], map[0 := Appending(ns, [a], b), 1 := Appending(ns, [a], c)],
                  multiset{(ns, a), (ns, b), (ns, c)}, multiset{})
  {
  }

  lemma OverlapStores(s: State, ns: string, a: Installer, b: Installer, c: Installer)
    requires s.threads == map[0 := Appending(ns, [a], b), 1 := Appending(ns, [a], c)]
    ensures Legal(s, [Append(0), Append(1)]) && Registered(Exec(s, [Append(0), Append(1)]), ns) == [a, c]
    ensures Exec(s, [Append(0), Append(1)]).installs == s.installs
    ensures Exec(s, [Append(0), Append(1)]).removals == s.removals
  {
    RunOne(Apply(s, Append(0)), Append(1), []);
    RunOne(s, Append(0), [Append(1)]);
    assert [a] + [c] == [a, c];
  }

  lemma RunOne(s: State, a: Action, rest: seq<Action>)
    requires Enabled(s, a) && Legal(Apply(s, a), rest)
    ensures Legal(s, [a] + rest) && Exec(s, [a] + rest) == Exec(Apply(s, a), rest)
  {
    assert ([a] + rest)[1..] == rest;
  }

  // ---------- The teardown as steps ----------

  /** The outcomes of thread t's uninstallations in the run. */
  function OutcomesOf(run: seq<Action>, t: Thread): seq<bool> {
    if run == [] then []
    else (if run[0].RemoveNext? && run[0].t == t then [run[0].ok] else []) + OutcomesOf(run[1..], t)
  }

  lemma {:induction false} FailedCons(x: Installer, sis: seq<Installer>, ok: nat -> bool, from: nat)
    ensures FailedOf([x] + sis, ok, from) == (if ok(from) then [] else [x]) + FailedOf(sis, ok, from + 1)
  {
    var all := [x] + sis;
    if sis == [] {
      assert all[..0] == [];
    } else {
      FailedCons(x, sis[..|sis| - 1], ok, from);
      assert all[..|all| - 1] == [x] + sis[..|sis| - 1];
    }
  }

  /** What the rest of thread t's uninstall loop makes of its place. */
  function AfterLoop(pc: Pc, ok: nat -> bool, from: nat): Pc
    requires pc.Removing?
  {
    Removing(pc.ns, pc.list, [], pc.failed + FailedOf(pc.todo, ok, from))
  }

  lemma FailedAssoc(a: seq<Installer>, b: seq<Installer>, c: seq<Installer>)
    ensures (a + b) + c == a + (b + c) && (b == [] ==> a + b == a)
  {
  }

  lemma LoopStep(s: State, a: Action, ok: nat -> bool, from: nat)
    requires Enabled(s, a) && a.RemoveNext? && a.ok == ok(from)
    ensures At(Apply(s, a).threads, a.t).Removing?
    ensures AfterLoop(At(Apply(s, a).threads, a.t), ok, from + 1) == AfterLoop(At(s.threads, a.t), ok, from)
  {
    var pc := At(s.threads, a.t);
    FailedCons(pc.todo[0], pc.todo[1..], ok, from);
    assert pc.todo == [pc.todo[0]] + pc.todo[1..];
    FailedAssoc(pc.failed, if a.ok then [] else [pc.todo[0]], FailedOf(pc.todo[1..], ok, from + 1));
  }

  lemma OtherStep(s: State, a: Action, t: Thread)
    requires Enabled(s, a) && a.t != t
    ensures At(Apply(s, a).threads, t) == At(s.threads, t)
  {
  }

  /** A thread in its uninstall loop removes the next installer, or stores. */
  lemma LoopMoves(s: State, a: Action)
    requires Enabled(s, a) && At(s.threads, a.t).Removing?
    ensures a.RemoveNext? || a == StoreFailed(a.t)
  {
  }

  lemma OutcomesCons(run: seq<Action>, t: Thread, n: nat, ok: nat -> bool, from: nat)
    requires run != [] && run[0].t == t && run[0].RemoveNext? && OutcomesOf(run, t) == seq(n, (i: nat) => ok(from + i))
    ensures n > 0 && run[0].ok == ok(from) && OutcomesOf(run[1..], t) == seq(n - 1, (i: nat) => ok(from + 1 + i))
  {
    assert |OutcomesOf(run, t)| == n;
    assert OutcomesOf(run, t)[0] == run[0].ok;
    assert OutcomesOf(run[1..], t) == OutcomesOf(run, t)[1..];
  }

  /** The uninstall loop of a teardown, interleaved with any steps of other threads, ends with exactly the
      failed installers, in order. */
  lemma {:induction false} LoopEndsWithFailed(s: State, run: seq<Action>, t: Thread, ok: nat -> bool, from: nat)
    requires Legal(s, run) && At(s.threads, t).Removing? && StoreFailed(t) !in run
    requires OutcomesOf(run, t) == seq(|At(s.threads, t).todo|, (i: nat) => ok(from + i))
    ensures At(Exec(s, run).threads, t) == AfterLoop(At(s.threads, t), ok, from)
    decreases |run|
  {
    if run == [] {
      assert |OutcomesOf(run, t)| == |At(s.threads, t).todo|;
      assert At(s.threads, t).failed + [] == At(s.threads, t).failed;
    } else {
      var a, next := run[0], Apply(s, run[0]);
      assert a in run && StoreFailed(t) !in run[1..];
      if a.t == t {
        LoopMoves(s, a);
        OutcomesCons(run, t, |At(s.threads, t).todo|, ok, from);
        LoopStep(s, a, ok, from);
        LoopEndsWithFailed(next, run[1..], t, ok, from + 1);
      } else {
        OtherStep(s, a, t);
        LoopEndsWithFailed(next, run[1..], t, ok, from);
      }
    }
  }

  /** So a teardown that loaded `list` leaves FailedOf(list) registered, as UninstallServicesFromNamespace does. */
  lemma TeardownStoresFailed(s: State, run: seq<Action>, t: Thread, ns: string, ok: nat -> bool, from: nat)
    requires Enabled(s, StartRemoval(t, ns)) && Legal(Apply(s, StartRemoval(t, ns)), run) && StoreFailed(t) !in run
    requires OutcomesOf(run, t) == seq(|Registered(s, ns)|, (i: nat) => ok(from + i))
    ensures var end := Exec(Apply(s, StartRemoval(t, ns)), run);
      && Enabled(end, StoreFailed(t))
      && Registered(Apply(end, StoreFailed(t)), ns) == FailedOf(Registered(s, ns), ok, from)
  {
    LoopEndsWithFailed(Apply(s, StartRemoval(t, ns)), run, t, ok, from);
    assert [] + FailedOf(Registered(s, ns), ok, from) == FailedOf(Registered(s, ns), ok, from);
  }
}
