/** The reconcile loops of the EC2 and Azure NodeClass controllers, call by call. */
module NodeClassController {
  import opened Wrappers
  import opened Collections
  import opened Objects
  import opened NodeClassLifecycle

  /** What happens around one API call: the others act, the call may fail, and a cached read of the child may lag. */
  datatype Turn = Turn(others: seq<Action>, fails: bool, lag: Option<Option<Child>>)

  datatype Outcome = Finished | Requeue | Failed

  /** Whether the namespace has a HostedControlPlane, and whether that one switches the operator off for E2E tests. */
  datatype ControlPlane = Absent | Overridden | Present

  /** What one reconcile finds besides the parent and the child. */
  datatype Round = Round(hcp: ControlPlane, secretFound: bool, desired: string)

  predicate Undisturbed(turns: seq<Turn>) {
    forall i :: 0 <= i < |turns| ==> turns[i].others == [] && !turns[i].fails && turns[i].lag.None?
  }

  /** The turn that the next call takes; nothing happens around the calls after the script. */
  function Next(turns: seq<Turn>): Turn {
    if turns == [] then Turn([], false, None) else turns[0]
  }

  function Rest(turns: seq<Turn>): seq<Turn> {
    if turns == [] then [] else turns[1..]
  }

  /** The world that the next call finds. */
  function Found(w: World, turns: seq<Turn>, finalizer: string): World {
    Play(w, Next(turns).others, finalizer)
  }

  /** EC2, from here on: the child is there and being deleted already, or it is still there when it is deleted. */
  predicate ChildStays(w: World, turns: seq<Turn>, finalizer: string) {
    var seen := Found(w, turns, finalizer);
    seen.child.Some? && (seen.child.value.deleting || Found(seen, Rest(turns), finalizer).child.Some?)
  }

  lemma FoundUndisturbed(w: World, turns: seq<Turn>, finalizer: string)
    requires Undisturbed(turns)
    ensures Found(w, turns, finalizer) == w && !Next(turns).fails && Undisturbed(Rest(turns))
  {
    assert Next(turns).others == [];
  }

  class Controller {
    const finalizer: string
    var w: World
    var turns: seq<Turn>
    ghost var writes: seq<Write>
    /** The number of API calls that failed so far, not counting a child that is not found. */
    ghost var failures: nat

    ghost predicate Inv()
      reads this
    {
      && Valid(w.parent) && Owned(w, finalizer) && SoundLog(writes, finalizer)
      && (writes != [] ==> Later(writes[|writes| - 1].after.parent, w.parent))
    }

    constructor ForEC2(turns: seq<Turn>)
      ensures Inv() && finalizer == EC2_FINALIZER && this.turns == turns && writes == [] && failures == 0
    {
      finalizer := EC2_FINALIZER;
      w := World(Store(None, []), None, 0);
      this.turns := turns;
      writes, failures := [], 0;
    }

    constructor ForAzure(turns: seq<Turn>)
      ensures Inv() && finalizer == AZURE_FINALIZER && this.turns == turns && writes == [] && failures == 0
    {
      finalizer := AZURE_FINALIZER;
      w := World(Store(None, []), None, 0);
      this.turns := turns;
      writes, failures := [], 0;
    }

    method Call() returns (fails: bool)
      requires Inv()
      modifies this`w, this`turns, this`failures
      ensures Inv() && Later(old(w.parent), w.parent)
      ensures w == Found(old(w), old(turns), finalizer) && turns == Rest(old(turns))
      ensures fails == Next(old(turns)).fails && failures == old(failures) + if fails then 1 else 0
      ensures Guarded(old(w), finalizer) ==> Guarded(w, finalizer)
      ensures old(w).child.None? ==> w.child.None?
      ensures Undisturbed(old(turns)) ==> Undisturbed(turns) && w == old(w) && !fails
    {
      if turns == [] { return false; }
      var t := turns[0];
      PlayKeeps(w, t.others, finalizer);
      if writes != [] {
        LaterTransitive(writes[|writes| - 1].after.parent, w.parent, Play(w, t.others, finalizer).parent);
      }
      w := Play(w, t.others, finalizer);
      turns := turns[1..];
      if t.fails {
        failures := failures + 1;
      }
      return t.fails;
    }

    method Record(change: Change, after: World)
      requires Inv() && Owned(after, finalizer) && Sound(Write(change, w, after), finalizer)
      modifies this`w, this`writes
      ensures Inv() && w == after && writes == old(writes) + [Write(change, old(w), after)]
    {
      ChainNext(writes, SoundFor(finalizer), Follows, Write(change, w, after));
      writes := writes + [Write(change, w, after)];
      w := after;
    }

    /** The locked finalizer patches: `adding` tells which one. */
    method PatchFinalizer(adding: bool, o: Object<string>) returns (ok: bool)
      requires Inv() && Seen(w.parent, o) && o.deleting == !adding && (!adding ==> w.child.None?)
      modifies this
      ensures Inv() && old(writes) <= writes
      ensures |writes| == |old(writes)| + if ok then 1 else 0
      ensures failures == old(failures) + if ok then 0 else 1
      ensures ok ==> var e := writes[|old(writes)|];
                     && e == Write(if adding then AddedFinalizer else RemovedFinalizer, e.before, w)
                     && e.before.parent.live == Some(o)
      ensures ok && adding ==> Guarded(w, finalizer)
      ensures Undisturbed(old(turns)) && old(w).parent.live == Some(o) ==>
                Undisturbed(turns) && ok && w == old(w).(parent := SetFinalizers(old(w).parent,
                  if adding then AddFinalizer(o.finalizers, finalizer) else RemoveFinalizer(o.finalizers, finalizer)))
    {
      var modified := if adding then AddFinalizer(o.finalizers, finalizer) else RemoveFinalizer(o.finalizers, finalizer);
      var fails := Call();
      if fails { return false; }
      PatchHitsWhatWasRead(w.parent, o, modified);
      var patched := PatchFinalizers(w.parent, o, modified);
      if patched.Err? {
        failures := failures + 1;
        return false;
      }
      PutSteps(w.parent, o.deleting, modified, o.spec);
      Record(if adding then AddedFinalizer else RemovedFinalizer, w.(parent := patched.value));
      return true;
    }

    /** The finalizer was taken off the version that was read, unless it carried none. */
    ghost predicate LetsGo(before: seq<Write>, o: Object<string>)
      reads this
    {
      if finalizer in o.finalizers then
        && |writes| == |before| + 1
        && writes[|before|].change.RemovedFinalizer? && writes[|before|].before.parent.live == Some(o)
      else writes == before
    }

    method EnsureFinalizer(o: Object<string>) returns (ok: bool)
      requires Inv() && w.parent.live == Some(o) && !o.deleting
      modifies this
      ensures Inv() && old(writes) <= writes
      ensures ok ==> Guarded(w, finalizer)
      ensures failures == old(failures) + if ok then 0 else 1
      ensures Undisturbed(old(turns)) ==>
                Undisturbed(turns) && ok && w == old(w).(parent := FinalizerOn(old(w).parent, finalizer))
    {
      if finalizer in o.finalizers { return true; }
      ok := PatchFinalizer(true, o);
    }

    method ReleaseParent(o: Object<string>) returns (ok: bool)
      requires Inv() && Seen(w.parent, o) && o.deleting && w.child.None?
      modifies this
      ensures Inv() && old(writes) <= writes
      ensures failures == old(failures) + if ok then 0 else 1
      ensures ok ==> LetsGo(old(writes), o)
      ensures Undisturbed(old(turns)) && old(w).parent.live == Some(o) ==>
                Undisturbed(turns) && ok && Released(old(w), w, finalizer)
    {
      if finalizer !in o.finalizers { return true; }
      ok := PatchFinalizer(false, o);
    }

    /** GET of the parent. */
    method GetParent() returns (o: Option<Object<string>>, ok: bool)
      requires Inv()
      modifies this`w, this`turns, this`failures
      ensures Inv() && (ok ==> o == w.parent.live)
      ensures w == Found(old(w), old(turns), finalizer) && turns == Rest(old(turns))
      ensures failures == old(failures) + if ok then 0 else 1
      ensures Undisturbed(old(turns)) ==> Undisturbed(turns) && w == old(w) && ok
    {
      var fails := Call();
      return w.parent.live, !fails;
    }

    /** DELETE of the child; NotFound is reported as `found` being false. */
    method DeleteChildObject() returns (found: bool, ok: bool)
      requires Inv()
      modifies this`w, this`turns, this`failures
      ensures Inv() && Later(old(w.parent), w.parent)
      ensures failures == old(failures) + if ok then 0 else 1
      ensures ok ==> found == Found(old(w), old(turns), finalizer).child.Some?
      ensures ok && !found ==> w.child.None?
      ensures Undisturbed(old(turns)) ==>
                Undisturbed(turns) && ok && found == old(w).child.Some?
                && w == old(w).(child := w.child, tick := w.tick) && w.child == ChildDeleted(old(w).child, old(w).tick)
                && (old(w).child.None? ==> w == old(w))
                && (old(w).child.Some? && !old(w).child.value.deleting ==>
                      if old(w).child.value.held then
                        && w.child.Some? && w.child.value.deleting
                        && w.child.value == old(w).child.value.(deleting := true, rv := w.child.value.rv)
                      else w.child.None?)
    {
      var fails := Call();
      if fails { return false, false; }
      if w.child.None? { return false, true; }
      w := w.(child := ChildDeleted(w.child, w.tick), tick := w.tick + 1);
      return true, true;
    }

    /** GET of the child from a cache that may hand out anything; only what the later writes do with it matters. */
    method GetCachedChild() returns (child: Option<Child>, ok: bool)
      requires Inv()
      modifies this`w, this`turns, this`failures
      ensures Inv() && (Guarded(old(w), finalizer) ==> Guarded(w, finalizer))
      ensures failures == old(failures) + if ok then 0 else 1
      ensures Undisturbed(old(turns)) ==> Undisturbed(turns) && w == old(w) && ok && child == w.child
    {
      var lag := if turns == [] then None else turns[0].lag;
      var fails := Call();
      return if lag.Some? then lag.value else w.child, !fails;
    }

    /** CREATE of the child; fails when somebody was faster. */
    method CreateChild(desired: string) returns (ok: bool)
      requires Inv() && Guarded(w, finalizer)
      modifies this
      ensures Inv() && old(writes) <= writes && Guarded(w, finalizer)
      ensures failures == old(failures) + if ok then 0 else 1
      ensures Undisturbed(old(turns)) && old(w).child.None? ==>
                Undisturbed(turns) && ok
                && w == old(w).(child := Some(Child(old(w).tick, false, false, desired)), tick := old(w).tick + 1)
    {
      var fails := Call();
      if fails { return false; }
      if w.child.Some? {
        failures := failures + 1;
        return false;
      }
      Record(OtherWrite, w.(child := Some(Child(w.tick, false, false, desired)), tick := w.tick + 1));
      return true;
    }

    /** UPDATE of the child as it was read; fails when it changed or went away since. */
    method UpdateChild(existing: Child, desired: string) returns (ok: bool)
      requires Inv() && Guarded(w, finalizer)
      modifies this`w, this`turns, this`failures
      ensures Inv() && Guarded(w, finalizer)
      ensures failures == old(failures) + if ok then 0 else 1
      ensures Undisturbed(old(turns)) && old(w).child == Some(existing) ==>
                Undisturbed(turns) && ok
                && w == old(w).(child := Some(existing.(spec := desired, rv := old(w).tick)), tick := old(w).tick + 1)
    {
      var fails := Call();
      if fails { return false; }
      if w.child.None? || w.child.value.rv != existing.rv {
        failures := failures + 1;
        return false;
      }
      w := w.(child := Some(w.child.value.(spec := desired, rv := w.tick)), tick := w.tick + 1);
      return true;
    }

    /** CreateOrUpdate of the child, from a read that may lag. */
    method CreateOrUpdateChild(desired: string) returns (ok: bool)
      requires Inv() && Guarded(w, finalizer)
      modifies this
      ensures Inv() && old(writes) <= writes && Guarded(w, finalizer)
      ensures failures == old(failures) + if ok then 0 else 1
      ensures Undisturbed(old(turns)) ==>
                Undisturbed(turns) && ok && w == old(w).(child := w.child, tick := w.tick)
                && ChildSynced(old(w).child, w.child, desired)
    {
      var existing;
      existing, ok := GetCachedChild();
      if !ok { return; }
      if existing.None? {
        ok := CreateChild(desired);
      } else if existing.value.spec == desired {
        return true;
      } else {
        ok := UpdateChild(existing.value, desired);
      }
    }

    /**
     What both controllers do for a parent that is not being deleted: finalizer first, then look the inputs up (the
     HostedControlPlane and the user data Secret), then write the child, then the status.
     */
    method SyncChild(o: Object<string>, inputsReady: bool, desired: string) returns (ok: bool)
      requires Inv() && w.parent.live == Some(o) && !o.deleting
      modifies this
      ensures Inv() && old(writes) <= writes
      ensures failures == old(failures) + if ok then 0 else 1
      ensures ok ==> Guarded(w, finalizer)
      ensures Undisturbed(old(turns)) ==> ok && Synced(old(w), w, finalizer, inputsReady, desired)
    {
      ok := EnsureFinalizer(o);
      if !ok { return; }
      var fails := Call();
      if fails { return false; }
      if !inputsReady { return true; }
      ok := CreateOrUpdateChild(desired);
      if !ok { return; }
      fails := Call();
      return !fails;
    }

    /** deleteIfNeeded of the EC2 controller. */
    method DeleteIfNeeded() returns (stillThere: bool, ok: bool)
      requires Inv()
      modifies this`w, this`turns, this`failures
      ensures Inv() && Later(old(w.parent), w.parent)
      ensures failures == old(failures) + if ok then 0 else 1
      ensures ok ==> stillThere == ChildStays(old(w), old(turns), finalizer)
      ensures ok && !stillThere ==> w.child.None?
      ensures Undisturbed(old(turns)) ==>
                Undisturbed(turns) && ok && stillThere == old(w).child.Some?
                && w == old(w).(child := w.child, tick := w.tick) && w.child == ChildDeleted(old(w).child, old(w).tick)
                && (old(w).child.None? ==> w == old(w))
    {
      var fails := Call();
      if fails { return false, false; }
      if w.child.None? { return false, true; }
      if w.child.value.deleting { return true, true; }
      ghost var before := w.parent;
      stillThere, ok := DeleteChildObject();
      LaterTransitive(old(w.parent), before, w.parent);
    }

    /** The deletion branch of the EC2 controller; the call in the middle writes the subnet ConfigMap. */
    method ReconcileDeleteEC2(o: Object<string>) returns (outcome: Outcome)
      requires Inv() && Seen(w.parent, o) && o.deleting
      modifies this
      ensures Inv() && old(writes) <= writes
      ensures failures == old(failures) + if outcome == Failed then 1 else 0
      ensures outcome != Failed ==>
                if ChildStays(old(w), old(turns), finalizer) then outcome == Requeue && writes == old(writes)
                else outcome == Finished && LetsGo(old(writes), o)
      ensures Undisturbed(old(turns)) && old(w).parent.live == Some(o) ==>
                && Reconciled(old(w), w, finalizer, true, false, "")
                && outcome == if old(w).child.Some? then Requeue else Finished
    {
      if Undisturbed(turns) {
        FoundUndisturbed(w, turns, finalizer);
        FoundUndisturbed(w, Rest(turns), finalizer);
      }
      var stillThere, ok := DeleteIfNeeded();
      if !ok { return Failed; }
      if stillThere { return Requeue; }
      var fails := Call();
      if fails { return Failed; }
      ok := ReleaseParent(o);
      return if ok then Finished else Failed;
    }

    /**
     Reconcile of the EC2 controller. The subnet ConfigMap, the status, and the admission policy are separate
     objects: writing them is a call that may fail.
     */
    method ReconcileEC2(hcp: ControlPlane, secretFound: bool, desired: string) returns (outcome: Outcome)
      requires Inv()
      modifies this
      ensures Inv() && old(writes) <= writes
      ensures failures == old(failures) + if outcome == Failed then 1 else 0
      ensures outcome != Failed ==>
                var w1, turns1 := Found(old(w), old(turns), finalizer), Rest(old(turns));
                var read, rest := Found(w1, turns1, finalizer), Rest(turns1);
                if !hcp.Present? || read.parent.live.None? then outcome == Finished && writes == old(writes)
                else if !read.parent.live.value.deleting then
                  Guarded(w, finalizer) && outcome == if secretFound then Finished else Requeue
                else if ChildStays(read, rest, finalizer) then outcome == Requeue && writes == old(writes)
                else outcome == Finished && LetsGo(old(writes), read.parent.live.value)
      ensures Undisturbed(old(turns)) ==>
                && Reconciled(old(w), w, finalizer, hcp.Present?, secretFound, desired)
                && outcome == if hcp.Present? && old(w).parent.live.Some?
                                 && (if old(w).parent.live.value.deleting then old(w).child.Some? else !secretFound)
                              then Requeue else Finished
    {
      if Undisturbed(turns) {
        FoundUndisturbed(w, turns, finalizer);
        FoundUndisturbed(w, Rest(turns), finalizer);
      }
      var fails := Call();
      if fails { return Failed; }
      if !hcp.Present? { return Finished; }
      var read, ok := GetParent();
      if !ok { return Failed; }
      if read.None? { return Finished; }
      var o := read.value;
      if o.deleting {
        outcome := ReconcileDeleteEC2(o);
        return;
      }
      ok := SyncChild(o, secretFound, desired);
      return if !ok then Failed else if secretFound then Finished else Requeue;
    }

    /** Reconcile of the Azure controller: it looks for the HostedControlPlane only after the finalizer is on. */
    method ReconcileAzure(hcp: ControlPlane, secretFound: bool, desired: string) returns (outcome: Outcome)
      requires Inv()
      modifies this
      ensures Inv() && old(writes) <= writes
      ensures failures == old(failures) + if outcome == Failed then 1 else 0
      ensures outcome != Failed ==>
                var read, rest := Found(old(w), old(turns), finalizer), Rest(old(turns));
                && outcome == Finished
                && if read.parent.live.None? then writes == old(writes)
                   else if !read.parent.live.value.deleting then Guarded(w, finalizer)
                   else if Found(read, rest, finalizer).child.Some? then writes == old(writes)
                   else LetsGo(old(writes), read.parent.live.value)
      ensures Undisturbed(old(turns)) ==>
                outcome == Finished && Reconciled(old(w), w, finalizer, true, !hcp.Absent? && secretFound, desired)
    {
      var read, ok := GetParent();
      if !ok { return Failed; }
      if read.None? { return Finished; }
      var o := read.value;
      if o.deleting {
        outcome := ReconcileDeleteAzure(o);
        return;
      }
      ok := SyncChild(o, !hcp.Absent? && secretFound, desired);
      return if ok then Finished else Failed;
    }

    method ReconcileDeleteAzure(o: Object<string>) returns (outcome: Outcome)
      requires Inv() && Seen(w.parent, o) && o.deleting
      modifies this
      ensures Inv() && old(writes) <= writes
      ensures failures == old(failures) + if outcome == Failed then 1 else 0
      ensures outcome != Failed ==>
                outcome == Finished
                && if Found(old(w), old(turns), finalizer).child.Some? then writes == old(writes) else LetsGo(old(writes), o)
      ensures Undisturbed(old(turns)) && old(w).parent.live == Some(o) ==>
                outcome == Finished && Reconciled(old(w), w, finalizer, true, false, "")
    {
      var found, ok := DeleteChildObject();
      if !ok { return Failed; }
      if found { return Finished; }
      ok := ReleaseParent(o);
      return if ok then Finished else Failed;
    }

    /**
     Any number of reconciles of either controller, under any script: an existing child has a parent that carries the
     finalizer; the finalizer goes only off a deleting parent without a child, and a child is created only under a parent
     with the finalizer; and the log of writes is one that the lemmas of Objects are about.
     */
    method Run(rounds: seq<Round>, ec2: bool)
      requires Inv()
      modifies this
      ensures Inv() && Owned(w, finalizer) && old(writes) <= writes
      ensures SoundWrites(ParentLog(writes), finalizer)
      ensures forall i :: 0 <= i < |writes| && writes[i].change.RemovedFinalizer? ==>
                writes[i].before.parent.live.Some? && writes[i].before.parent.live.value.deleting && writes[i].before.child.None?
      ensures forall i :: 0 <= i < |writes| && writes[i].change.OtherWrite? ==> Guarded(writes[i].before, finalizer)
    {
      for i := 0 to |rounds|
        invariant Inv() && old(writes) <= writes
      {
        var outcome;
        if ec2 {
          outcome := ReconcileEC2(rounds[i].hcp, rounds[i].secretFound, rounds[i].desired);
        } else {
          outcome := ReconcileAzure(rounds[i].hcp, rounds[i].secretFound, rounds[i].desired);
        }
      }
      ParentLogIsSound(writes, finalizer);
      forall i | 0 <= i < |writes|
        ensures writes[i].change.RemovedFinalizer? ==>
                  writes[i].before.parent.live.Some? && writes[i].before.parent.live.value.deleting && writes[i].before.child.None?
        ensures writes[i].change.OtherWrite? ==> Guarded(writes[i].before, finalizer)
      {
        ReleasedWithoutChild(writes, i, finalizer);
      }
    }
  }
}
