/**
 Cluster-wide services.  Install registers the installer with one atomic LoadOrStore and runs the real
 installation only if it was not registered; the uninstallation is meant to remove the installers that it
 uninstalled, but ranges over slice indices and removes nothing.
 */
module ClusterServices {

  type Installer = nat

  /** The registry's keys are values of any type: installers, or, in the removal loop, slice indices. */
  datatype Key = Service(si: Installer) | Index(i: nat)

  /** Which keys the removal loop deletes: the slice's indices, as coded, or its elements, as meant. */
  datatype Removal = AsCoded | AsMeant

  function KeyOf(mode: Removal, deleted: seq<Installer>, i: nat): Key
    requires i < |deleted|
  {
    if mode.AsCoded? then Index(i) else Service(deleted[i])
  }

  /** The registry after the removal loop. */
  function Removed(mode: Removal, entries: set<Key>, deleted: seq<Installer>): set<Key> {
    entries - set i | 0 <= i < |deleted| :: KeyOf(mode, deleted, i)
  }

  /** Only installers are ever stored. */
  predicate OnlyServices(entries: set<Key>) {
    forall k :: k in entries ==> k.Service?
  }

  /** As coded the loop removes nothing, so it does what it is meant to do exactly when nothing was to be
      removed: when no registered service was uninstalled. */
  lemma RemovalAsMeantIff(entries: set<Key>, deleted: seq<Installer>)
    requires OnlyServices(entries)
    ensures Removed(AsCoded, entries, deleted) == entries
    ensures Removed(AsCoded, entries, deleted) == Removed(AsMeant, entries, deleted)
       <==> forall si :: si in deleted ==> Service(si) !in entries
  {
    var meant := Removed(AsMeant, entries, deleted);
    if si :| si in deleted && Service(si) in entries {
      var i :| 0 <= i < |deleted| && deleted[i] == si;
      assert KeyOf(AsMeant, deleted, i) == Service(si);
      assert Service(si) !in meant;
    } else {
      assert forall i :: 0 <= i < |deleted| ==> deleted[i] in deleted;
      assert meant == entries;
    }
  }

  // ---------- The uninstallation ----------

  class Registry {
    var entries: set<Key>

    constructor ()
      ensures entries == {}
    {
      entries := {};
    }

    /** The atomic access at the start of Install: whether this caller has to run the installation. */
    method LoadOrStore(si: Installer) returns (loaded: bool)
      modifies this
      ensures loaded <==> Service(si) in old(entries)
      ensures entries == old(entries) + {Service(si)}
    {
      loaded := Service(si) in entries;
      entries := entries + {Service(si)};
    }

    /** Calls every registered installer in some order; `ok` gives the outcome of each uninstallation. */
    method UninstallServicesFromCluster(ok: Installer -> bool) returns (success: bool, servicesDeleted: seq<Installer>)
      requires OnlyServices(entries)
      modifies this
      ensures forall si :: si in servicesDeleted <==> Service(si) in old(entries) && ok(si)
      ensures success <==> forall si :: Service(si) in old(entries) ==> ok(si)
      ensures entries == Removed(AsCoded, old(entries), servicesDeleted) == old(entries)
      ensures entries == Removed(AsMeant, old(entries), servicesDeleted)
         <==> forall si :: Service(si) in old(entries) ==> !ok(si)
    {
      success, servicesDeleted := true, [];
      var todo := entries;
      while todo != {}
        invariant todo <= entries == old(entries)
        invariant forall si :: si in servicesDeleted <==> Service(si) in entries && Service(si) !in todo && ok(si)
        invariant success <==> forall si :: Service(si) in entries && Service(si) !in todo ==> ok(si)
        decreases |todo|
      {
        var k :| k in todo;
        if ok(k.si) {
          servicesDeleted := servicesDeleted + [k.si];
        } else {
          success := false;
        }
        todo := todo - {k};
      }
      for si := 0 to |servicesDeleted|
        invariant entries == old(entries)
      {
        entries := entries - {Index(si)};
      }
      RemovalAsMeantIff(entries, servicesDeleted);
      assert forall si :: si in servicesDeleted && Service(si) in entries <==> Service(si) in entries && ok(si);
    }
  }

  // ---------- Runs of concurrent calls ----------

  /** Where a call of UninstallServicesFromCluster is. */
  datatype Place =
    | Ranging                      // between two services of the registry
    | Uninstalling(si: Installer)  // the range loop has loaded si, whose uninstallation is under way
    | Deleting(next: nat)          // the removal loop comes to the deleted service at next

  datatype Teardown = Teardown(visited: set<Installer>, deleted: seq<Installer>, place: Place)

  /** `gone` has the installers that were uninstalled since their last installation began.  The multisets count,
      per installer, the calls that took the installation branch, those that took the wait branch, the successful
      uninstallations and the removals of its entry.  The code reads none of the five. */
  datatype State = State(entries: set<Key>, teardowns: seq<Teardown>, gone: set<Installer>,
                         installed: multiset<Installer>, waited: multiset<Installer>,
                         uninstalled: multiset<Installer>, removed: multiset<Installer>)

  datatype Step =
    | Install(si: Installer)           // the atomic LoadOrStore of an Install call
    | Start                            // a call of UninstallServicesFromCluster begins
    | Load(t: nat, si: Installer)      // its range loop loads an entry that it has not visited
    | Uninstall(t: nat, ok: bool)      // the uninstallation ends
    | EndRange(t: nat)                 // allowed at any time, which only adds runs
    | DeleteNext(t: nat)               // one removal of the removal loop

  const INIT := State({}, [], {}, multiset{}, multiset{}, multiset{}, multiset{})

  /** The teardown can take the step. */
  predicate CanMove(d: Teardown, a: Step) {
    match a
    case Install(_) => false
    case Start => false
    case Load(_, si) => d.place.Ranging? && si !in d.visited
    case Uninstall(_, _) => d.place.Uninstalling?
    case EndRange(_) => d.place.Ranging?
    case DeleteNext(_) => d.place.Deleting? && d.place.next < |d.deleted|
  }

  function Move(d: Teardown, a: Step): Teardown
    requires CanMove(d, a)
  {
    match a
    case Load(_, si) => d.(visited := d.visited + {si}, place := Uninstalling(si))
    case Uninstall(_, ok) => d.(deleted := if ok then d.deleted + [d.place.si] else d.deleted, place := Ranging)
    case EndRange(_) => d.(place := Deleting(0))
    case DeleteNext(_) => d.(place := Deleting(d.place.next + 1))
  }

  predicate Enabled(s: State, a: Step) {
    a.Install? || a.Start?
    || (a.t < |s.teardowns| && CanMove(s.teardowns[a.t], a) && (a.Load? ==> Service(a.si) in s.entries))
  }

  function Apply(mode: Removal, s: State, a: Step): State
    requires Enabled(s, a)
  {
    match a
    case Install(si) =>
      if Service(si) in s.entries then s.(waited := s.waited + multiset{si})
      else s.(entries := s.entries + {Service(si)}, gone := s.gone - {si}, installed := s.installed + multiset{si})
    case Start => s.(teardowns := s.teardowns + [Teardown({}, [], Ranging)])
    case _ => Effect(mode, s.(teardowns := s.teardowns[a.t := Move(s.teardowns[a.t], a)]), s.teardowns[a.t], a)
  }

  /** What the step of teardown d does to the registry and to the services. */
  function Effect(mode: Removal, s: State, d: Teardown, a: Step): (t: State)
    requires CanMove(d, a)
    ensures t.teardowns == s.teardowns
  {
    if a.Uninstall? && a.ok then
      s.(gone := s.gone + {d.place.si}, uninstalled := s.uninstalled + multiset{d.place.si})
    else if a.DeleteNext? then
      var key := KeyOf(mode, d.deleted, d.place.next);
      if key in s.entries && key.Service? then
        s.(entries := s.entries - {key}, removed := s.removed + multiset{key.si})
      else s
    else s
  }

  predicate Legal(mode: Removal, s: State, run: seq<Step>)
    decreases |run|
  {
    run == [] || (Enabled(s, run[0]) && Legal(mode, Apply(mode, s, run[0]), run[1..]))
  }

  function Exec(mode: Removal, s: State, run: seq<Step>): State
    requires Legal(mode, s, run)
    decreases |run|
  {
    if run == [] then s else Exec(mode, Apply(mode, s, run[0]), run[1..])
  }

  /** The Install calls for one installer in the run. */
  function CallsFor(run: seq<Step>, si: Installer): nat {
    if run == [] then 0 else (if run[0] == Install(si) then 1 else 0) + CallsFor(run[1..], si)
  }

  // ---------- Installations ----------

  /** Each installation is matched by the present entry or by a removed one. */
  predicate Balanced(s: State, si: Installer) {
    s.installed[si] == s.removed[si] + if Service(si) in s.entries then 1 else 0
  }

  lemma StepBalances(mode: Removal, s: State, a: Step, si: Installer)
    requires Balanced(s, si) && Enabled(s, a)
    ensures var t := Apply(mode, s, a);
      && Balanced(t, si)
      && t.installed[si] + t.waited[si] == s.installed[si] + s.waited[si] + (if a == Install(si) then 1 else 0)
      && (mode.AsCoded? ==> t.removed == s.removed && s.entries <= t.entries)
  {
  }

  lemma {:induction false} RunBalances(mode: Removal, s: State, run: seq<Step>, si: Installer)
    requires Balanced(s, si) && Legal(mode, s, run)
    ensures var t := Exec(mode, s, run);
      && Balanced(t, si)
      && t.installed[si] + t.waited[si] == s.installed[si] + s.waited[si] + CallsFor(run, si)
      && (mode.AsCoded? ==> t.removed == s.removed)
    decreases |run|
  {
    if run != [] {
      StepBalances(mode, s, run[0], si);
      RunBalances(mode, Apply(mode, s, run[0]), run[1..], si);
    }
  }

  /** For every interleaving of concurrent installations and uninstallations: the real installation runs
      once per registration of an installer, and every other caller takes the wait branch. */
  lemma OneInstallationPerRegistration(mode: Removal, run: seq<Step>, si: Installer)
    requires Legal(mode, INIT, run)
    ensures var s := Exec(mode, INIT, run);
      && s.installed[si] == s.removed[si] + (if Service(si) in s.entries then 1 else 0)
      && s.waited[si] == CallsFor(run, si) - s.installed[si]
  {
    RunBalances(mode, INIT, run, si);
  }

  /** As coded an installer is installed at most once in the whole run. */
  lemma NeverInstalledAgain(run: seq<Step>, si: Installer)
    requires Legal(AsCoded, INIT, run)
    ensures Exec(AsCoded, INIT, run).installed[si] == if CallsFor(run, si) > 0 then 1 else 0
  {
    RunBalances(AsCoded, INIT, run, si);
    if CallsFor(run, si) > 0 {
      InstallRegisters(INIT, run, si);
    }
  }

  lemma {:induction false} InstallRegisters(s: State, run: seq<Step>, si: Installer)
    requires Legal(AsCoded, s, run) && (CallsFor(run, si) > 0 || Service(si) in s.entries)
    ensures Service(si) in Exec(AsCoded, s, run).entries
    decreases |run|
  {
    if run != [] {
      InstallRegisters(Apply(AsCoded, s, run[0]), run[1..], si);
    }
  }

  /** As coded a service that was uninstalled is gone for good: every further Install only waits for it. */
  lemma {:induction false} GoneForGood(s: State, run: seq<Step>, si: Installer)
    requires Legal(AsCoded, s, run) && si in s.gone && Service(si) in s.entries
    ensures var t := Exec(AsCoded, s, run);
      && si in t.gone && t.installed[si] == s.installed[si]
      && t.waited[si] == s.waited[si] + CallsFor(run, si)
    decreases |run|
  {
    if run != [] {
      GoneForGood(Apply(AsCoded, s, run[0]), run[1..], si);
    }
  }

  // ---------- Removals ----------

  predicate NoRepeats(deleted: seq<Installer>) {
    forall i, j :: 0 <= i < j < |deleted| ==> deleted[i] != deleted[j]
  }

  /** Each service that a teardown has uninstalled was visited, and once. */
  predicate Sound(d: Teardown) {
    && NoRepeats(d.deleted)
    && (forall si :: si in d.deleted ==> si in d.visited)
    && (d.place.Uninstalling? ==> d.place.si in d.visited && d.place.si !in d.deleted)
    && (d.place.Deleting? ==> d.place.next <= |d.deleted|)
  }

  function Pending(d: Teardown): seq<Installer>
    requires Sound(d)
  {
    if d.place.Deleting? then d.deleted[d.place.next..] else d.deleted
  }

  predicate AllSound(ds: seq<Teardown>) {
    forall d :: d in ds ==> Sound(d)
  }

  lemma MoveKeepsSound(d: Teardown, a: Step)
    requires Sound(d) && CanMove(d, a)
    ensures Sound(Move(d, a))
  {
  }

  lemma StepKeepsSound(mode: Removal, s: State, a: Step)
    requires AllSound(s.teardowns) && Enabled(s, a)
    ensures AllSound(Apply(mode, s, a).teardowns)
  {
    if !a.Install? && !a.Start? {
      assert s.teardowns[a.t] in s.teardowns;
      MoveKeepsSound(s.teardowns[a.t], a);
    }
    assert forall d :: d in Apply(mode, s, a).teardowns ==>
      || d in s.teardowns || d == Teardown({}, [], Ranging)
      || (!a.Install? && !a.Start? && d == Move(s.teardowns[a.t], a));
  }

  /** A teardown comes to hold a service by uninstalling it, and lets it go with the removal of the entry. */
  lemma MovePending(d: Teardown, a: Step, si: Installer)
    requires Sound(d) && CanMove(d, a)
    ensures Sound(Move(d, a))
    ensures if a.Uninstall? && a.ok && si == d.place.si then si in Pending(Move(d, a)) && si !in Pending(d)
            else if a.DeleteNext? && si == d.deleted[d.place.next] then si in Pending(d) && si !in Pending(Move(d, a))
            else si in Pending(Move(d, a)) <==> si in Pending(d)
  {
    MoveKeepsSound(d, a);
    if a.DeleteNext? {
      assert Pending(d) == [d.deleted[d.place.next]] + Pending(Move(d, a));
      assert d.deleted[d.place.next] !in Pending(Move(d, a));
    }
  }

  /** The teardowns that have uninstalled si and have still to remove its entry. */
  function Holders(ds: seq<Teardown>, si: Installer): nat
    requires AllSound(ds)
  {
    if ds == [] then 0 else (if si in Pending(ds[0]) then 1 else 0) + Holders(ds[1..], si)
  }

  lemma {:induction false} HoldersAfter(ds: seq<Teardown>, t: nat, d: Teardown, si: Installer)
    requires AllSound(ds) && t < |ds| && Sound(d)
    ensures AllSound(ds[t := d])
    ensures Holders(ds[t := d], si)
      == Holders(ds, si) - (if si in Pending(ds[t]) then 1 else 0) + (if si in Pending(d) then 1 else 0)
  {
    var es := ds[t := d];
    assert forall e :: e in es ==> e in ds || e == d;
    if t > 0 {
      assert forall e :: e in ds[1..] ==> e in ds;
      assert es[1..] == ds[1..][t - 1 := d];
      HoldersAfter(ds[1..], t - 1, d, si);
    } else {
      assert es[1..] == ds[1..];
    }
  }

  lemma {:induction false} HoldersSnoc(ds: seq<Teardown>, d: Teardown, si: Installer)
    requires AllSound(ds) && Sound(d) && Pending(d) == []
    ensures AllSound(ds + [d]) && Holders(ds + [d], si) == Holders(ds, si)
  {
    assert forall e :: e in ds + [d] ==> e in ds || e == d;
    if ds == [] {
      assert ([d] + [])[1..] == [];
      assert ds + [d] == [d];
    } else {
      assert (ds + [d])[1..] == ds[1..] + [d];
      HoldersSnoc(ds[1..], d, si);
    }
  }

  /** Every removal, done or still to come, has a successful uninstallation of its own. */
  predicate Covered(s: State, si: Installer) {
    AllSound(s.teardowns) && s.removed[si] + Holders(s.teardowns, si) <= s.uninstalled[si]
  }

  lemma MoveKeepsCovered(s: State, a: Step, si: Installer)
    requires Covered(s, si) && Enabled(s, a) && !a.Install? && !a.Start?
    ensures Covered(Apply(AsMeant, s, a), si)
  {
    var d := s.teardowns[a.t];
    assert d in s.teardowns;
    MovePending(d, a, si);
    HoldersAfter(s.teardowns, a.t, Move(d, a), si);
    EffectCounts(s.(teardowns := s.teardowns[a.t := Move(d, a)]), d, a, si);
  }

  lemma EffectCounts(s: State, d: Teardown, a: Step, si: Installer)
    requires CanMove(d, a)
    ensures var t := Effect(AsMeant, s, d, a);
      && t.uninstalled[si] == s.uninstalled[si] + (if a.Uninstall? && a.ok && si == d.place.si then 1 else 0)
      && t.removed[si] <= s.removed[si] + (if a.DeleteNext? && si == d.deleted[d.place.next] then 1 else 0)
  {
  }

  lemma StepKeepsCovered(s: State, a: Step, si: Installer)
    requires Covered(s, si) && Enabled(s, a)
    ensures Covered(Apply(AsMeant, s, a), si)
  {
    if a.Start? {
      HoldersSnoc(s.teardowns, Teardown({}, [], Ranging), si);
    } else if !a.Install? {
      MoveKeepsCovered(s, a, si);
    }
  }

  /** As meant, for every interleaving and any number of overlapping teardowns: entries of si are dropped no more
      often than si was uninstalled with success. */
  lemma {:induction false} DroppedAfterUninstallation(s: State, run: seq<Step>, si: Installer)
    requires Covered(s, si) && Legal(AsMeant, s, run)
    ensures Covered(Exec(AsMeant, s, run), si)
    ensures var t := Exec(AsMeant, s, run); t.removed[si] <= t.uninstalled[si]
    decreases |run|
  {
    if run != [] {
      StepKeepsCovered(s, run[0], si);
      DroppedAfterUninstallation(Apply(AsMeant, s, run[0]), run[1..], si);
    }
  }

  /** An installer none of whose uninstallations succeeded stays registered, as coded and as meant. */
  lemma FailedInstallerStays(mode: Removal, run: seq<Step>, si: Installer)
    requires Legal(mode, INIT, run) && CallsFor(run, si) > 0 && Exec(mode, INIT, run).uninstalled[si] == 0
    ensures Service(si) in Exec(mode, INIT, run).entries
  {
    RunBalances(mode, INIT, run, si);
    if mode.AsCoded? {
      InstallRegisters(INIT, run, si);
    } else {
      DroppedAfterUninstallation(INIT, run, si);
      CallsReachBranches(mode, INIT, run, si);
    }
  }

  lemma {:induction false} CallsReachBranches(mode: Removal, s: State, run: seq<Step>, si: Installer)
    requires Legal(mode, s, run) && (CallsFor(run, si) > 0 || s.installed[si] > 0) && Balanced(s, si)
    ensures Exec(mode, s, run).installed[si] > 0
    decreases |run|
  {
    if run != [] {
      StepBalances(mode, s, run[0], si);
      CallsReachBranches(mode, Apply(mode, s, run[0]), run[1..], si);
    }
  }

  // ---------- One teardown at a time ----------

  predicate Over(d: Teardown) {
    d.place == Deleting(|d.deleted|)
  }

  /** No teardown starts before the last one has ended. */
  predicate OneAtATime(mode: Removal, s: State, run: seq<Step>)
    requires Legal(mode, s, run)
    decreases |run|
  {
    run != [] ==>
      && (run[0].Start? && s.teardowns != [] ==> Over(s.teardowns[|s.teardowns| - 1]))
      && OneAtATime(mode, Apply(mode, s, run[0]), run[1..])
  }

  /** The step drops an entry only if its service is gone. */
  predicate DropsOnlyGone(mode: Removal, s: State, a: Step)
    requires Enabled(s, a)
  {
    a.DeleteNext? ==>
      var d := s.teardowns[a.t];
      var key := KeyOf(mode, d.deleted, d.place.next);
      key in s.entries && key.Service? ==> key.si in s.gone
  }

  predicate RunDropsOnlyGone(mode: Removal, s: State, run: seq<Step>)
    requires Legal(mode, s, run)
    decreases |run|
  {
    run == [] || (DropsOnlyGone(mode, s, run[0]) && RunDropsOnlyGone(mode, Apply(mode, s, run[0]), run[1..]))
  }

  /** What a teardown has uninstalled is registered and gone until it removes the entry. */
  predicate Held(d: Teardown, entries: set<Key>, gone: set<Installer>)
    requires Sound(d)
  {
    && (d.place.Uninstalling? ==> Service(d.place.si) in entries)
    && (forall si :: si in Pending(d) ==> Service(si) in entries && si in gone)
  }

  /** So it is for the last teardown, and the earlier ones have ended. */
  predicate HeldAreGone(s: State) {
    && AllSound(s.teardowns)
    && (forall t :: 0 <= t < |s.teardowns| - 1 ==> Over(s.teardowns[t]))
    && (s.teardowns != [] ==> Held(s.teardowns[|s.teardowns| - 1], s.entries, s.gone))
  }

  lemma MoveKeepsHeld(s: State, d: Teardown, a: Step)
    requires Sound(d) && CanMove(d, a) && Held(d, s.entries, s.gone) && (a.Load? ==> Service(a.si) in s.entries)
    ensures var t := Effect(AsMeant, s, d, a); Sound(Move(d, a)) && Held(Move(d, a), t.entries, t.gone)
    ensures a.DeleteNext? ==> d.deleted[d.place.next] in s.gone
  {
    forall si: Installer
      ensures Sound(Move(d, a))
      ensures si in Pending(Move(d, a)) ==> si in Pending(d) || (a.Uninstall? && a.ok && si == d.place.si)
      ensures si in Pending(Move(d, a)) && a.DeleteNext? ==> si != d.deleted[d.place.next]
    {
      MovePending(d, a, si);
    }
    if a.DeleteNext? {
      MovePending(d, a, d.deleted[d.place.next]);
    }
  }

  lemma StepKeepsHeld(s: State, a: Step)
    requires HeldAreGone(s) && Enabled(s, a)
    requires a.Start? && s.teardowns != [] ==> Over(s.teardowns[|s.teardowns| - 1])
    ensures HeldAreGone(Apply(AsMeant, s, a)) && DropsOnlyGone(AsMeant, s, a)
  {
    StepKeepsSound(AsMeant, s, a);
    if !a.Install? && !a.Start? {
      var d := s.teardowns[a.t];
      assert d in s.teardowns && !Over(d);
      MoveKeepsHeld(s.(teardowns := s.teardowns[a.t := Move(d, a)]), d, a);
    } else {
      EntryStepKeepsHeld(s, a);
    }
  }

  lemma EntryStepKeepsHeld(s: State, a: Step)
    requires HeldAreGone(s) && (a.Install? || a.Start?)
    requires a.Start? && s.teardowns != [] ==> Over(s.teardowns[|s.teardowns| - 1])
    requires AllSound(Apply(AsMeant, s, a).teardowns)
    ensures HeldAreGone(Apply(AsMeant, s, a))
  {
    if s.teardowns != [] {
      assert s.teardowns[|s.teardowns| - 1] in s.teardowns;
    }
    assert forall d :: d in Apply(AsMeant, s, a).teardowns ==> Sound(d);
  }

  /** As meant, with one teardown at a time: an entry is dropped only while its service is gone. */
  lemma {:induction false} OneAtATimeDropsOnlyGone(s: State, run: seq<Step>)
    requires HeldAreGone(s) && Legal(AsMeant, s, run) && OneAtATime(AsMeant, s, run)
    ensures RunDropsOnlyGone(AsMeant, s, run) && HeldAreGone(Exec(AsMeant, s, run))
    decreases |run|
  {
    if run != [] {
      StepKeepsHeld(s, run[0]);
      OneAtATimeDropsOnlyGone(Apply(AsMeant, s, run[0]), run[1..]);
    }
  }

  /** Even as meant, an Install between an uninstallation and the removal of the entry only waits, for a service
      that is gone. */
  lemma InstallBetweenOnlyWaits(run: seq<Step>, t: nat, si: Installer)
    requires Legal(AsMeant, INIT, run) && OneAtATime(AsMeant, INIT, run)
    requires var s := Exec(AsMeant, INIT, run);
      t < |s.teardowns| && Sound(s.teardowns[t]) && si in Pending(s.teardowns[t])
    ensures var s := Exec(AsMeant, INIT, run);
      si in s.gone && Apply(AsMeant, s, Install(si)) == s.(waited := s.waited + multiset{si})
  {
    OneAtATimeDropsOnlyGone(INIT, run);
  }

  // ---------- Two teardowns at a time ----------

  lemma RunOne(s: State, a: Step)
    requires Enabled(s, a)
    ensures Legal(AsMeant, s, [a]) && Exec(AsMeant, s, [a]) == Apply(AsMeant, s, a)
    ensures RunDropsOnlyGone(AsMeant, s, [a]) ==> DropsOnlyGone(AsMeant, s, a)
  {
    assert [a][1..] == [];
  }

  lemma {:induction false} Then(s: State, run: seq<Step>, a: Step)
    requires Legal(AsMeant, s, run) && Enabled(Exec(AsMeant, s, run), a)
    ensures Legal(AsMeant, s, run + [a])
    ensures Exec(AsMeant, s, run + [a]) == Apply(AsMeant, Exec(AsMeant, s, run), a)
    ensures RunDropsOnlyGone(AsMeant, s, run + [a]) ==> DropsOnlyGone(AsMeant, Exec(AsMeant, s, run), a)
    decreases |run|
  {
    if run == [] {
      assert run + [a] == [a];
      RunOne(s, a);
    } else {
      Then(Apply(AsMeant, s, run[0]), run[1..], a);
      assert (run + [a])[1..] == run[1..] + [a];
    }
  }

  /** A teardown uninstalls one service and comes to its removal. */
  lemma UninstallOne(s: State, run: seq<Step>, t: nat, si: Installer) returns (longer: seq<Step>)
    requires Legal(AsMeant, s, run)
    requires var e := Exec(AsMeant, s, run);
      t < |e.teardowns| && e.teardowns[t] == Teardown({}, [], Ranging) && Service(si) in e.entries
    ensures Legal(AsMeant, s, longer)
    ensures var e, f := Exec(AsMeant, s, run), Exec(AsMeant, s, longer);
      f.teardowns == e.teardowns[t := Teardown({si}, [si], Deleting(0))] && f.entries == e.entries
  {
    Then(s, run, Load(t, si));
    Then(s, run + [Load(t, si)], Uninstall(t, true));
    Then(s, run + [Load(t, si)] + [Uninstall(t, true)], EndRange(t));
    assert {} + {si} == {si} && [] + [si] == [si];
    longer := run + [Load(t, si)] + [Uninstall(t, true)] + [EndRange(t)];
  }

  lemma TwoTeardowns(si: Installer) returns (run: seq<Step>)
    ensures Legal(AsMeant, INIT, run)
    ensures var s := Exec(AsMeant, INIT, run);
      s.teardowns == [Teardown({}, [], Ranging), Teardown({}, [], Ranging)] && s.entries == {Service(si)}
  {
    assert Exec(AsMeant, INIT, []) == INIT;
    Then(INIT, [], Install(si));
    Then(INIT, [] + [Install(si)], Start);
    Then(INIT, [] + [Install(si)] + [Start], Start);
    run := [] + [Install(si)] + [Start] + [Start];
  }

  /** With two teardowns at a time even the removal as meant can drop a service that runs: the second removes the
      entry of an installation that came after the first one's removal. */
  lemma OverlappingTeardownsDropARunningService(si: Installer) returns (run: seq<Step>)
    ensures Legal(AsMeant, INIT, run) && !RunDropsOnlyGone(AsMeant, INIT, run)
  {
    var r0 := TwoTeardowns(si);
    var r1 := UninstallOne(INIT, r0, 0, si);
    var r2 := UninstallOne(INIT, r1, 1, si);
    run := RemoveTwice(r2, si);
  }

  lemma RemoveTwice(first: seq<Step>, si: Installer) returns (run: seq<Step>)
    requires Legal(AsMeant, INIT, first)
    requires var s, d := Exec(AsMeant, INIT, first), Teardown({si}, [si], Deleting(0));
      s.teardowns == [d, d] && s.entries == {Service(si)}
    ensures Legal(AsMeant, INIT, run) && !RunDropsOnlyGone(AsMeant, INIT, run)
  {
    Then(INIT, first, DeleteNext(0));
    Then(INIT, first + [DeleteNext(0)], Install(si));
    Then(INIT, first + [DeleteNext(0)] + [Install(si)], DeleteNext(1));
    run := first + [DeleteNext(0)] + [Install(si)] + [DeleteNext(1)];
  }
}
