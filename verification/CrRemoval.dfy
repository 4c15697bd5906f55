/**
 Removal of a service's custom resources (CRs).  Only the CRs without owner are deleted; the cluster's
 garbage collector removes a CR once all its owners are gone.  The question is when that is enough.
 */
module CrRemoval {
  import opened Optional

  /** `owners` gives the owner references of each CR; `external` are the owners outside the service's CRs
      that stay alive. */
  datatype Cluster = Cluster(owners: map<string, set<string>>, external: set<string>)

  function Owners(c: Cluster, x: string): set<string> {
    if x in c.owners then c.owners[x] else {}
  }

  predicate Ownerless(c: Cluster, x: string) {
    Owners(c, x) == {}
  }

  /** One removal: a delete call on a CR without owner, or the collection of a CR whose owners are gone. */
  datatype Step = Delete(x: string) | Collect(x: string)

  predicate Enabled(c: Cluster, present: set<string>, s: Step) {
    && s.x in present
    && (s.Delete? ==> Ownerless(c, s.x))
    && (s.Collect? ==> !Ownerless(c, s.x) && Owners(c, s.x) * (present + c.external) == {})
  }

  predicate Legal(c: Cluster, present: set<string>, run: seq<Step>)
    decreases |run|
  {
    run == [] || (Enabled(c, present, run[0]) && Legal(c, present - {run[0].x}, run[1..]))
  }

  function Exec(c: Cluster, present: set<string>, run: seq<Step>): set<string>
    requires Legal(c, present, run)
    decreases |run|
  {
    if run == [] then present else Exec(c, present - {run[0].x}, run[1..])
  }

  /** Nothing is left to do for the cleanup and for the garbage collector. */
  ghost predicate Settled(c: Cluster, present: set<string>) {
    forall s :: !Enabled(c, present, s)
  }

  /** CRs that keep each other, or that something outside keeps, alive: every one has an owner among them
      or an external one. */
  ghost predicate SelfSustaining(c: Cluster, keep: set<string>) {
    keep != {} && forall x :: x in keep ==> Owners(c, x) * (keep + c.external) != {}
  }

  /** A step removes nothing of a self-sustaining set. */
  lemma {:induction false} SustainedStays(c: Cluster, present: set<string>, run: seq<Step>, keep: set<string>)
    requires SelfSustaining(c, keep) && keep <= present && Legal(c, present, run)
    ensures keep <= Exec(c, present, run)
    decreases |run|
  {
    if run != [] {
      var x := run[0].x;
      if x in keep {
        assert false;
      }
      SustainedStays(c, present - {x}, run[1..], keep);
    }
  }

  /** What is left in a settled cluster sustains itself. */
  lemma SettledIsSustained(c: Cluster, present: set<string>)
    requires Settled(c, present) && present != {}
    ensures SelfSustaining(c, present)
  {
    forall x | x in present
      ensures Owners(c, x) * (present + c.external) != {}
    {
      assert !Enabled(c, present, Delete(x)) && !Enabled(c, present, Collect(x));
    }
  }

  lemma {:induction false} RunShrinks(c: Cluster, present: set<string>, run: seq<Step>)
    requires Legal(c, present, run)
    ensures Exec(c, present, run) <= present && |Exec(c, present, run)| + |run| == |present|
    decreases |run|
  {
    if run != [] {
      RunShrinks(c, present - {run[0].x}, run[1..]);
    }
  }

  /** A settled state is reached from everywhere, after at most as many steps as there are CRs. */
  lemma {:induction false} CanSettle(c: Cluster, present: set<string>) returns (run: seq<Step>)
    ensures Legal(c, present, run) && Settled(c, Exec(c, present, run)) && |run| <= |present|
    decreases |present|
  {
    if Settled(c, present) {
      run := [];
    } else {
      var s :| Enabled(c, present, s);
      var rest := CanSettle(c, present - {s.x});
      run := [s] + rest;
      assert run[1..] == rest;
    }
  }

  /** Deleting only the CRs without owner, in any interleaving with the garbage collector, removes all CRs
      if and only if no set of CRs sustains itself through ownership cycles or external owners. */
  lemma DeletingOwnerlessIsEnoughIff(c: Cluster, crs: set<string>)
    ensures (forall run :: Legal(c, crs, run) && Settled(c, Exec(c, crs, run)) ==> Exec(c, crs, run) == {})
       <==> !exists keep :: keep <= crs && SelfSustaining(c, keep)
  {
    if keep :| keep <= crs && SelfSustaining(c, keep) {
      var run := CanSettle(c, crs);
      SustainedStays(c, crs, run, keep);
    } else {
      forall run | Legal(c, crs, run) && Settled(c, Exec(c, crs, run))
        ensures Exec(c, crs, run) == {}
      {
        RunShrinks(c, crs, run);
        if Exec(c, crs, run) != {} {
          SettledIsSustained(c, Exec(c, crs, run));
          assert false;
        }
      }
    }
  }

  /** Ownership that only points to CRs of smaller rank has no self-sustaining set. */
  lemma RankedOwnershipDrains(c: Cluster, crs: set<string>, rank: map<string, nat>)
    requires crs <= rank.Keys
    requires forall x, o :: x in crs && o in Owners(c, x) ==> o !in c.external && o in crs && rank[o] < rank[x]
    ensures forall run :: Legal(c, crs, run) && Settled(c, Exec(c, crs, run)) ==> Exec(c, crs, run) == {}
  {
    if keep :| keep <= crs && SelfSustaining(c, keep) {
      var x := LowestRank(keep, rank);
      assert false;
    }
    DeletingOwnerlessIsEnoughIff(c, crs);
  }

  lemma {:induction false} LowestRank(keep: set<string>, rank: map<string, nat>) returns (x: string)
    requires keep != {} && keep <= rank.Keys
    ensures x in keep && forall y :: y in keep ==> rank[x] <= rank[y]
    decreases |keep|
  {
    x :| x in keep;
    if keep != {x} {
      var y := LowestRank(keep - {x}, rank);
      if rank[y] < rank[x] {
        x := y;
      }
    }
  }

  // ---------- The calls ----------

  /** The places of the CRs that have no owner reference, in order. */
  ghost predicate Picks(owners: map<string, set<string>>, crs: seq<string>, found: seq<string>, at: seq<nat>) {
    && |at| == |found|
    && (forall k :: 0 <= k < |at| ==> at[k] < |crs| && crs[at[k]] == found[k])
    && (forall k, l :: 0 <= k < l < |at| ==> at[k] < at[l])
    && (forall i :: 0 <= i < |crs| ==> (i in at <==> crs[i] in owners ==> owners[crs[i]] == {}))
  }

  /** getCrsWithoutOwner */
  method CrsWithoutOwner(c: Cluster, crs: seq<string>) returns (found: seq<string>)
    ensures found == OwnerlessOf(c, crs)
    ensures forall x :: x in found <==> x in crs && (x in c.owners ==> c.owners[x] == {})
    ensures exists at :: Picks(c.owners, crs, found, at)
  {
    found := [];
    for i := 0 to |crs|
      invariant found == OwnerlessOf(c, crs[..i])
    {
      assert crs[..i + 1] == crs[..i] + [crs[i]];
      OwnerlessConcat(c, crs[..i], crs[i]);
      if Ownerless(c, crs[i]) {
        found := found + [crs[i]];
      }
    }
    assert crs[..|crs|] == crs;
    AllOwnerlessMembers(c, crs);
    var at := OwnerlessPlaces(c, crs);
  }

  lemma {:induction false} OwnerlessPlaces(c: Cluster, crs: seq<string>) returns (at: seq<nat>)
    ensures Picks(c.owners, crs, OwnerlessOf(c, crs), at)
    decreases |crs|
  {
    if crs == [] {
      at := [];
    } else {
      var n := |crs| - 1;
      at := OwnerlessPlaces(c, crs[..n]);
      OwnerlessConcat(c, crs[..n], crs[n]);
      assert crs == crs[..n] + [crs[n]];
      if Ownerless(c, crs[n]) {
        at := at + [n];
      }
    }
  }

  /** When the steps are possible, by the owner references alone: only a CR without any is deleted, and only one
      that has some, all of them gone, is collected. */
  lemma StepsByOwners(c: Cluster, present: set<string>, x: string)
    ensures Enabled(c, present, Delete(x)) <==> x in present && (x in c.owners ==> c.owners[x] == {})
    ensures Enabled(c, present, Collect(x))
       <==> x in present && x in c.owners && c.owners[x] != {}
            && forall o :: o in c.owners[x] ==> o !in present && o !in c.external
  {
    var alive := Owners(c, x) * (present + c.external);
    assert forall o :: o in alive <==> o in Owners(c, x) && (o in present || o in c.external);
    assert alive == {} <==> forall o :: o in Owners(c, x) ==> o !in present && o !in c.external;
  }

  function OwnerlessOf(c: Cluster, crs: seq<string>): seq<string> {
    if crs == [] then [] else (if Ownerless(c, crs[0]) then [crs[0]] else []) + OwnerlessOf(c, crs[1..])
  }

  lemma {:induction false} OwnerlessConcat(c: Cluster, a: seq<string>, x: string)
    ensures OwnerlessOf(c, a + [x]) == OwnerlessOf(c, a) + if Ownerless(c, x) then [x] else []
  {
    if a == [] {
      assert a + [x] == [x] && [x][1..] == [];
    } else {
      OwnerlessConcat(c, a[1..], x);
      assert (a + [x])[1..] == a[1..] + [x];
    }
  }

  lemma {:induction false} OwnerlessMembers(c: Cluster, crs: seq<string>, x: string)
    ensures x in OwnerlessOf(c, crs) <==> x in crs && Ownerless(c, x)
  {
    if crs != [] {
      OwnerlessMembers(c, crs[1..], x);
      assert x in crs <==> x == crs[0] || x in crs[1..];
    }
  }

  lemma AllOwnerlessMembers(c: Cluster, crs: seq<string>)
    ensures forall x :: x in OwnerlessOf(c, crs) <==> x in crs && Ownerless(c, x)
  {
    forall x
      ensures x in OwnerlessOf(c, crs) <==> x in crs && Ownerless(c, x)
    {
      OwnerlessMembers(c, crs, x);
    }
  }

  /** deleteCrsWithoutOwner: `listed` is the answer of the list call, None its failure; `ok` gives the
      outcome of each delete call.  The first failing call ends the loop. */
  method DeleteCrsWithoutOwner(c: Cluster, listed: Option<seq<string>>, ok: string -> bool)
    returns (success: bool, deleted: seq<string>)
    ensures listed.None? ==> !success && deleted == []
    ensures listed.Some? ==>
      var roots := OwnerlessOf(c, listed.value);
      && deleted <= roots && (forall x :: x in deleted ==> ok(x))
      && (success <==> deleted == roots)
      && (success ==> forall x :: x in listed.value && (x in c.owners ==> c.owners[x] == {}) ==> x in deleted)
      && (forall x :: x in deleted ==> x in listed.value && (x in c.owners ==> c.owners[x] == {}))
      && (!success ==> !ok(roots[|deleted|]))
  {
    deleted := [];
    if listed.None? {
      return false, deleted;
    }
    var crs := CrsWithoutOwner(c, listed.value);
    for i := 0 to |crs|
      invariant deleted == crs[..i] && forall x :: x in deleted ==> ok(x)
    {
      if !ok(crs[i]) {
        return false, deleted;
      }
      deleted := deleted + [crs[i]];
    }
    AllOwnerlessMembers(c, listed.value);
    assert crs[..|crs|] == crs;
    return true, deleted;
  }

  predicate CollectOnly(run: seq<Step>) {
    forall s :: s in run ==> s.Collect?
  }

  /** Where every CR has an owner only the garbage collector acts. */
  lemma {:induction false} OwnedIsCollectOnly(c: Cluster, present: set<string>, run: seq<Step>)
    requires Legal(c, present, run) && forall x :: x in present ==> !Ownerless(c, x)
    ensures CollectOnly(run) && Exec(c, present, run) <= present
    decreases |run|
  {
    if run != [] {
      OwnedIsCollectOnly(c, present - {run[0].x}, run[1..]);
      assert forall s :: s in run ==> s == run[0] || s in run[1..];
    }
  }

  ghost predicate NothingToCollect(c: Cluster, present: set<string>) {
    forall x :: !Enabled(c, present, Collect(x))
  }

  /** Once deleteCrsWithoutOwner has succeeded, the garbage collector alone removes what is left of the listed CRs,
      in whatever order, if and only if no set of the listed CRs sustains itself. */
  lemma AfterCleanupCollectedIff(c: Cluster, listed: seq<string>, deleted: seq<string>)
    requires deleted == OwnerlessOf(c, listed)
    ensures var crs := set x | x in listed;
      var left := crs - set x | x in deleted;
      (forall run :: Legal(c, left, run) && CollectOnly(run) && NothingToCollect(c, Exec(c, left, run)) ==>
         Exec(c, left, run) == {})
      <==> !exists keep :: keep <= crs && SelfSustaining(c, keep)
  {
    var crs := set x | x in listed;
    var left := crs - set x | x in deleted;
    AllOwnerlessMembers(c, listed);
    assert forall x :: x in left <==> x in listed && !Ownerless(c, x);
    forall run | Legal(c, left, run)
      ensures CollectOnly(run)
      ensures NothingToCollect(c, Exec(c, left, run)) <==> Settled(c, Exec(c, left, run))
    {
      OwnedIsCollectOnly(c, left, run);
      OwnedSettles(c, Exec(c, left, run));
    }
    DeletingOwnerlessIsEnoughIff(c, left);
    assert forall keep :: SelfSustaining(c, keep) && keep <= crs ==> keep <= left;
  }

  lemma OwnedSettles(c: Cluster, present: set<string>)
    requires forall x :: x in present ==> !Ownerless(c, x)
    ensures NothingToCollect(c, present) <==> Settled(c, present)
  {
    if NothingToCollect(c, present) {
      forall s: Step
        ensures !Enabled(c, present, s)
      {
        assert s.Collect? ==> s == Collect(s.x);
      }
    }
  }

  /** Two CRs that own each other stay for ever. */
  lemma CycleIsNeverRemoved(x: string, y: string, run: seq<Step>)
    requires x != y && Legal(Cluster(map[x := {y}, y := {x}], {}), {x, y}, run)
    ensures Exec(Cluster(map[x := {y}, y := {x}], {}), {x, y}, run) == {x, y}
  {
    var c := Cluster(map[x := {y}, y := {x}], {});
    assert y in Owners(c, x) * {x, y} && x in Owners(c, y) * {x, y};
    assert {x, y} + c.external == {x, y};
    assert SelfSustaining(c, {x, y});
    SustainedStays(c, {x, y}, run, {x, y});
    RunShrinks(c, {x, y}, run);
  }
}
