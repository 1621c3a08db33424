/**
 The reconcile loop of the HostedControlPlane deletion controller, call by call.

 Every API call is one atomic step. Before each call the other clients may act: `turns` scripts what they do, whether
 the call then fails, and which version of the HostedControlPlane the cache hands out. The script is arbitrary, so what
 is proved for the class holds for every interleaving at the granularity of API calls.
 */
module HcpDeletion {
  import opened Wrappers
  import opened Collections
  import opened Objects
  import opened HcpDrain

  /** What happens around one API call: the others act, the call may fail, and a cached read may be stale. */
  datatype Turn = Turn(others: seq<Action>, fails: bool, stale: Option<nat>, now: Timestamp)

  datatype Outcome = Finished | Requeue | Failed

  /** The turn that the next call takes; nothing happens around the calls after the script. */
  function Next(turns: seq<Turn>): Turn {
    if turns == [] then Turn([], false, None, "1970-01-01T00:00:00Z") else turns[0]
  }

  function Rest(turns: seq<Turn>): seq<Turn> {
    if turns == [] then [] else turns[1..]
  }

  /** The world that the next call finds. */
  function Found(w: World, turns: seq<Turn>): World {
    Play(w, Next(turns).others)
  }

  /** The HostedControlPlane that the next call reads from the cache. */
  function Cached(w: World, turns: seq<Turn>): Option<Object<string>> {
    var hcp := Found(w, turns).hcp;
    match Next(turns).stale
    case Some(v) => if v < |hcp.versions| then Some(hcp.versions[v]) else hcp.live
    case None => hcp.live
  }

  predicate CapiDeleting(w: World, name: string) {
    name != "" && name in w.capi && w.capi[name]
  }

  /** A cleanup that starts here finds some NodePool when it lists them, or else some NodeClaim. */
  predicate SeesObjects(w: World, turns: seq<Turn>) {
    Found(w, turns).pools != map[] || Found(Found(w, turns), Rest(turns)).claims != map[]
  }

  /** A reconcile that starts here reads a HostedControlPlane with the finalizer whose cluster is torn down. */
  predicate HasToDrain(w: World, turns: seq<Turn>) {
    && !Next(turns).fails && Cached(w, turns).Some?
    && var hcp := Cached(w, turns).value;
       && FINALIZER in hcp.finalizers
       && (hcp.deleting
           || (!Next(Rest(turns)).fails && CapiDeleting(Found(Found(w, turns), Rest(turns)), hcp.spec)))
  }

  /** Such a reconcile finds something to clean up; it asks for the CAPI Cluster first unless the read tells already. */
  predicate HasToRequeue(w: World, turns: seq<Turn>)
    requires HasToDrain(w, turns)
  {
    var w1, rest := Found(w, turns), Rest(turns);
    if Cached(w, turns).value.deleting then SeesObjects(w1, rest) else SeesObjects(Found(w1, rest), Rest(rest))
  }

  predicate CalmScript(turns: seq<Turn>) {
    forall i :: 0 <= i < |turns| ==> AllCalm(turns[i].others)
  }

  /** Nobody else acts, no call fails and no read is stale. */
  predicate Undisturbed(turns: seq<Turn>) {
    forall i :: 0 <= i < |turns| ==> turns[i].others == [] && !turns[i].fails && turns[i].stale.None?
  }

  predicate LeavesAnnotationsScript(turns: seq<Turn>) {
    forall i :: 0 <= i < |turns| ==> LeavesAnnotations(turns[i].others)
  }

  lemma ScriptTail(turns: seq<Turn>)
    requires turns != []
    ensures CalmScript(turns) ==> CalmScript(turns[1..]) && AllCalm(turns[0].others)
    ensures LeavesAnnotationsScript(turns) ==> LeavesAnnotationsScript(turns[1..]) && LeavesAnnotations(turns[0].others)
    ensures Undisturbed(turns) ==>
              Undisturbed(turns[1..]) && turns[0].others == [] && !turns[0].fails && turns[0].stale.None?
  {}

  /** None of the patches from index `from` on replaced a non-empty annotation. */
  predicate NoOverwrite(patches: seq<Patch>, from: nat) {
    forall i :: from <= i < |patches| ==> patches[i].replaced == ""
  }

  /** The claims `done` were live in `w0` and no longer are, or were deleting in `w0` and now are settled. */
  ghost predicate Processed(w0: World, w: World, done: seq<string>) {
    && (forall n :: n in done ==> n !in LiveClaims(w))
    && (forall n :: n in done && n in w0.claims && w0.claims[n].deletedAt.Some? ==> n !in UnsettledClaims(w))
  }

  lemma ProcessedNext(w0: World, w: World, w': World, names: seq<string>, i: nat)
    requires i < |names| && Processed(w0, w, names[..i]) && Further(w, w')
    requires names[i] !in LiveClaims(w')
    requires names[i] in w0.claims && w0.claims[names[i]].deletedAt.Some? ==> names[i] !in UnsettledClaims(w')
    ensures Processed(w0, w', names[..i + 1])
  {
    assert names[..i + 1] == names[..i] + [names[i]];
  }

  lemma AllProcessed(w0: World, w: World, names: seq<string>)
    requires Enumerates(names, w0.claims.Keys) && Further(w0, w) && Processed(w0, w, names)
    ensures LiveClaims(w) == {} && UnsettledClaims(w) <= LiveClaims(w0)
  {
    forall n | n in w.claims ensures n in names { assert n in w0.claims.Keys; }
    assert forall n :: n in LiveClaims(w) ==> n in w.claims;
    forall n | n in UnsettledClaims(w) ensures n in LiveClaims(w0) { assert n in names; }
  }

  lemma FoundUndisturbed(w: World, turns: seq<Turn>)
    requires Undisturbed(turns)
    ensures Found(w, turns) == w && Cached(w, turns) == w.hcp.live
    ensures !Next(turns).fails && Undisturbed(Rest(turns))
    ensures SeesObjects(w, turns) <==> w.pools != map[] || w.claims != map[]
  {
    assert Next(turns).others == [] && Next(Rest(turns)).others == [];
  }

  /** The write removes the finalizer from the version that was read, and the cluster is empty. */
  ghost predicate Releases(e: Write, hcp: Object<string>) {
    e.change.RemovedFinalizer? && e.before.hcp.live == Some(hcp) && e.before.pools == map[] && e.before.claims == map[]
  }

  class Controller {
    var w: World
    var turns: seq<Turn>
    /** The finalizer patches so far. */
    ghost var writes: seq<Write>
    /** The termination patches so far. */
    ghost var patches: seq<Patch>
    /** The error-free cleanup passes so far. */
    ghost var passes: seq<Drain>
    /** The number of API calls that failed so far. */
    ghost var failures: nat

    ghost predicate Inv()
      reads this
    {
      && Valid(w.hcp) && SoundLog(writes) && SoundPatches(patches)
      && (writes != [] ==> Later(writes[|writes| - 1].after.hcp, w.hcp))
    }

    /** The others are calm, and the passes so far are those of a run among calm others. */
    ghost predicate OnCourse()
      reads this
    {
      CalmScript(turns) && Converging(passes, w)
    }

    constructor (turns: seq<Turn>)
      ensures Inv() && this.turns == turns && writes == [] && patches == [] && passes == [] && failures == 0
    {
      w := World(Store(None, []), map[], map[], map[]);
      this.turns := turns;
      writes, patches, passes, failures := [], [], [], 0;
    }

    /** Everything before an API call takes effect. */
    method Call() returns (t: Turn)
      requires Inv()
      modifies this`w, this`turns
      ensures t == Next(old(turns)) && turns == Rest(old(turns))
      ensures Inv() && w == Found(old(w), old(turns)) && Later(old(w.hcp), w.hcp)
      ensures CalmScript(old(turns)) ==> CalmScript(turns) && Further(old(w), w)
      ensures old(OnCourse()) ==> OnCourse()
      ensures LeavesAnnotationsScript(old(turns)) ==> LeavesAnnotationsScript(turns) && LeavesAnnotations(t.others)
      ensures Undisturbed(old(turns)) ==> Undisturbed(turns) && w == old(w) && !t.fails && t.stale.None?
    {
      if turns == [] {
        t := Next(turns);
        return;
      }
      t := turns[0];
      ScriptTail(turns);
      PlayLater(w, t.others);
      if AllCalm(t.others) {
        PlayCalm(w, t.others);
      }
      if writes != [] {
        LaterTransitive(writes[|writes| - 1].after.hcp, w.hcp, Play(w, t.others).hcp);
      }
      ConvergingOn(passes, w, Play(w, t.others));
      w := Play(w, t.others);
      turns := turns[1..];
    }

    method Record(change: Change, after: World)
      requires Inv() && Sound(Write(change, w, after))
      modifies this`w, this`writes
      ensures Inv() && w == after && writes == old(writes) + [Write(change, old(w), after)]
      ensures old(OnCourse()) ==> OnCourse()
    {
      ConvergingOn(passes, w, after);
      ChainNext(writes, Sound, Follows, Write(change, w, after));
      writes := writes + [Write(change, w, after)];
      w := after;
    }

    /** The HostedControlPlane of the namespace, in its current or in any past version. */
    method GetHostedControlPlane() returns (read: Option<Object<string>>, ok: bool)
      requires Inv()
      modifies this`w, this`turns, this`failures
      ensures Inv() && w == Found(old(w), old(turns)) && turns == Rest(old(turns))
      ensures ok == !Next(old(turns)).fails && failures == old(failures) + if ok then 0 else 1
      ensures ok ==> read == Cached(old(w), old(turns))
      ensures ok && read.Some? ==> Seen(w.hcp, read.value)
      ensures old(OnCourse()) ==> OnCourse()
      ensures Undisturbed(old(turns)) ==> Undisturbed(turns) && w == old(w) && ok && read == w.hcp.live
    {
      var t := Call();
      if t.fails {
        failures := failures + 1;
        return None, false;
      }
      match t.stale {
        case Some(v) => return if v < |w.hcp.versions| then Some(w.hcp.versions[v]) else w.hcp.live, true;
        case None => return w.hcp.live, true;
      }
    }

    method IsClusterDeleting(hcp: Object<string>) returns (deleting: bool, ok: bool)
      requires Inv() && Seen(w.hcp, hcp)
      modifies this`w, this`turns, this`failures
      ensures Inv() && Seen(w.hcp, hcp)
      ensures failures == old(failures) + if ok then 0 else 1
      ensures if hcp.deleting || hcp.spec == "" then ok && w == old(w) && turns == old(turns)
              else ok == !Next(old(turns)).fails && w == Found(old(w), old(turns)) && turns == Rest(old(turns))
      ensures old(OnCourse()) ==> OnCourse()
      ensures ok ==> (deleting <==> hcp.deleting || CapiDeleting(w, hcp.spec))
      ensures Undisturbed(old(turns)) && old(w).hcp.live == Some(hcp) ==>
                Undisturbed(turns) && w == old(w) && ok && deleting == ClusterDeleting(w)
    {
      if hcp.deleting { return true, true; }
      if hcp.spec == "" { return false, true; }
      var t := Call();
      if t.fails {
        failures := failures + 1;
        return false, false;
      }
      return hcp.spec in w.capi && w.capi[hcp.spec], true;
    }

    method PatchFinalizer(change: Change, hcp: Object<string>, modified: seq<string>) returns (ok: bool)
      requires Inv() && Seen(w.hcp, hcp)
      requires change.AddedFinalizer? ==> !hcp.deleting && modified == AddFinalizer(hcp.finalizers, FINALIZER)
      requires change.RemovedFinalizer? ==>
                 hcp.deleting && modified == RemoveFinalizer(hcp.finalizers, FINALIZER) && Drained(w, hcp)
      requires !change.OtherWrite?
      modifies this`w, this`turns, this`writes, this`failures
      ensures Inv() && old(writes) <= writes
      ensures ok <==> !Next(old(turns)).fails && Found(old(w), old(turns)).hcp.live == Some(hcp)
      ensures failures == old(failures) + if ok then 0 else 1
      ensures old(OnCourse()) ==> OnCourse()
      ensures !ok ==> writes == old(writes)
      ensures ok ==> |writes| == |old(writes)| + 1
                     && writes[|old(writes)|] == Write(change, writes[|old(writes)|].before, w)
                     && writes[|old(writes)|].before.hcp.live == Some(hcp)
      ensures ok && change.RemovedFinalizer? ==> Releases(writes[|old(writes)|], hcp)
      ensures Undisturbed(old(turns)) && old(w).hcp.live == Some(hcp) ==>
                ok && w == old(w).(hcp := SetFinalizers(old(w).hcp, modified))
    {
      ghost var w0 := w;
      var t := Call();
      if t.fails {
        failures := failures + 1;
        return false;
      }
      if change.RemovedFinalizer? { PlayKeepsDrained(w0, t.others, hcp); }
      PatchHitsWhatWasRead(w.hcp, hcp, modified);
      var patched := PatchFinalizers(w.hcp, hcp, modified);
      if patched.Err? {
        failures := failures + 1;
        return false;
      }
      PutSteps(w.hcp, hcp.deleting, modified, hcp.spec);
      Record(change, w.(hcp := patched.value));
      return true;
    }

    /** DELETE of a NodePool; false when the call fails or the NodePool is not found. */
    method DeletePool(n: string) returns (ok: bool)
      requires Inv()
      modifies this`w, this`turns, this`failures
      ensures Inv() && Later(old(w.hcp), w.hcp)
      ensures ok <==> !Next(old(turns)).fails && n in Found(old(w), old(turns)).pools
      ensures failures == old(failures) + if ok then 0 else 1
      ensures CalmScript(old(turns)) ==> CalmScript(turns) && Further(old(w), w) && (ok ==> n !in LivePools(w))
      ensures LeavesAnnotationsScript(old(turns)) ==> LeavesAnnotationsScript(turns)
      ensures Undisturbed(old(turns)) ==>
                Undisturbed(turns) && (ok <==> n in old(w).pools) && w == old(w).(pools := PoolDeleted(old(w).pools, n))
    {
      var t := Call();
      if t.fails || n !in w.pools {
        failures := failures + 1;
        return false;
      }
      DeletingPoolDrains(w, n);
      w := w.(pools := PoolDeleted(w.pools, n));
      return true;
    }

    /** DELETE of a NodeClaim; false when the call fails or the NodeClaim is not found. */
    method DeleteClaim(n: string, ghost l: Listing, ghost rest: set<string>)
      returns (ok: bool, ghost at: Timestamp, ghost l': Listing)
      requires Inv() && Tracks(l, w, rest)
      modifies this`w, this`turns, this`failures
      ensures Inv() && Later(old(w.hcp), w.hcp)
      ensures ok <==> !Next(old(turns)).fails && n in Found(old(w), old(turns)).claims
      ensures failures == old(failures) + if ok then 0 else 1
      ensures l'.world == l.world && Tracks(l', w, rest - {n})
      ensures CalmScript(old(turns)) ==> CalmScript(turns) && Further(old(w), w) && (ok ==> n !in LiveClaims(w))
      ensures LeavesAnnotationsScript(old(turns)) ==> LeavesAnnotationsScript(turns)
      ensures LeavesAnnotationsScript(old(turns)) && LeavesAnnotations(l.since) ==> LeavesAnnotations(l'.since)
      ensures Undisturbed(old(turns)) ==>
                Undisturbed(turns) && (ok <==> n in old(w).claims)
                && w == old(w).(claims := ClaimDeleted(old(w).claims, n, at))
    {
      var t := Call();
      at, l' := t.now, Listing(l.world, l.since + t.others);
      TracksOthers(l, old(w), t.others, rest);
      TracksOwn(l', w, n, t.now, rest);
      if t.fails || n !in w.claims {
        failures := failures + 1;
        return false, at, l';
      }
      DeletingClaimDrains(w, n, t.now);
      w := w.(claims := ClaimDeleted(w.claims, n, t.now));
      return true, at, l';
    }

    /** PATCH of the termination annotation of a listed claim, without optimistic lock. */
    method AnnotateClaim(n: string, claim: NodeClaim, ghost l: Listing, ghost rest: set<string>)
      returns (ok: bool, ghost l': Listing)
      requires Inv() && claim.deletedAt.Some? && claim.termination == ""
      requires Tracks(l, w, rest) && n in rest && n in l.world.claims && l.world.claims[n] == claim
      modifies this`w, this`turns, this`patches, this`failures
      ensures Inv() && Later(old(w.hcp), w.hcp)
      ensures ok <==> !Next(old(turns)).fails && n in Found(old(w), old(turns)).claims
      ensures failures == old(failures) + if ok then 0 else 1
      ensures l'.world == l.world && Tracks(l', w, rest - {n})
      ensures old(patches) <= patches && |patches| == |old(patches)| + if ok then 1 else 0
      ensures ok ==> var p := patches[|old(patches)|];
                     && p == Patch(n, l.world, l'.since, p.replaced)
                     && (p.replaced != "" <==> AnnotatedBy(l.world, l'.since, n, |l'.since|))
      ensures CalmScript(old(turns)) ==>
                CalmScript(turns) && Further(old(w), w) && (ok && n !in LiveClaims(old(w)) ==> n !in UnsettledClaims(w))
      ensures LeavesAnnotationsScript(old(turns)) ==> LeavesAnnotationsScript(turns)
      ensures LeavesAnnotationsScript(old(turns)) && LeavesAnnotations(l.since) ==>
                LeavesAnnotations(l'.since) && NoOverwrite(patches, |old(patches)|)
      ensures Undisturbed(old(turns)) ==>
                Undisturbed(turns) && (ok <==> n in old(w).claims)
                && w == old(w).(claims := Annotated(old(w).claims, n, claim.deletedAt.value))
    {
      var t := Call();
      l' := Listing(l.world, l.since + t.others);
      TracksOthers(l, old(w), t.others, rest);
      TracksOwn(l', w, n, claim.deletedAt.value, rest);
      if t.fails || n !in w.claims {
        failures := failures + 1;
        return false, l';
      }
      ReplacedIsSound(l', w, n, rest);
      AnnotatingDrains(w, n, claim.deletedAt.value);
      patches := patches + [Patch(n, l'.world, l'.since, w.claims[n].termination)];
      w := w.(claims := Annotated(w.claims, n, claim.deletedAt.value));
      return true, l';
    }

    method DeleteNodePools() returns (gone: bool, ok: bool)
      requires Inv()
      modifies this`w, this`turns, this`failures
      ensures Inv() && Later(old(w.hcp), w.hcp)
      ensures failures == old(failures) + if ok then 0 else 1
      ensures ok ==> (gone <==> Found(old(w), old(turns)).pools == map[])
      ensures gone ==> ok && w == Found(old(w), old(turns)) && turns == Rest(old(turns))
      ensures ok && gone ==> w.pools == map[]
      ensures ok && CalmScript(old(turns)) && old(w).pools == map[] ==> gone
      ensures CalmScript(old(turns)) ==> CalmScript(turns) && Further(old(w), w) && (ok ==> LivePools(w) == {})
      ensures LeavesAnnotationsScript(old(turns)) ==> LeavesAnnotationsScript(turns)
      ensures Undisturbed(old(turns)) ==>
                Undisturbed(turns) && ok && gone == (old(w).pools == map[])
                && w == old(w).(pools := PoolsAfter(old(w).pools, old(w).pools.Keys))
    {
      var t := Call();
      if t.fails {
        failures := failures + 1;
        return false, false;
      }
      var listed := w.pools;
      var names := Enumerate(listed.Keys);
      ghost var w0 := w;
      assert listed == map[] <==> listed.Keys == {};
      assert w0.pools.Keys == {} ==> w0.pools == map[];
      ok := DeleteEachPool(listed, names);
      LaterTransitive(old(w.hcp), w0.hcp, w.hcp);
      return ok && |names| == 0, ok;
    }

    /** The loop of DeleteNodePools over the NodePools as listed. */
    method DeleteEachPool(listed: map<string, NodePool>, names: seq<string>) returns (ok: bool)
      requires Inv() && Enumerates(names, listed.Keys) && listed == w.pools
      modifies this`w, this`turns, this`failures
      ensures Inv() && Later(old(w.hcp), w.hcp)
      ensures failures == old(failures) + if ok then 0 else 1
      ensures names == [] ==> ok && w == old(w) && turns == old(turns)
      ensures CalmScript(old(turns)) ==>
                CalmScript(turns) && Further(old(w), w) && (ok ==> LivePools(w) == {})
      ensures LeavesAnnotationsScript(old(turns)) ==> LeavesAnnotationsScript(turns)
      ensures Undisturbed(old(turns)) ==>
                Undisturbed(turns) && ok && w == old(w).(pools := PoolsAfter(listed, listed.Keys))
    {
      ghost var done: set<string> := {};
      for i := 0 to |names|
        invariant Inv() && Later(old(w.hcp), w.hcp) && failures == old(failures)
        invariant i == 0 ==> w == old(w) && turns == old(turns)
        invariant Visited(names, done, i) && done <= listed.Keys
        invariant CalmScript(old(turns)) ==> CalmScript(turns) && Further(old(w), w) && LivePools(w) !! done
        invariant LeavesAnnotationsScript(old(turns)) ==> LeavesAnnotationsScript(turns)
        invariant Undisturbed(old(turns)) ==> Undisturbed(turns) && w == old(w).(pools := PoolsAfter(listed, done))
      {
        var n := names[i];
        VisitNext(names, done, i, listed.Keys);
        PoolsAfterNext(listed, done, n);
        done := done + {n};
        if listed[n].deleting { continue; }
        ghost var before := w;
        ok := DeletePool(n);
        LaterTransitive(old(w.hcp), before.hcp, w.hcp);
        if !ok { return false; }
      }
      VisitedAll(names, done, listed.Keys);
      return true;
    }

    method DeleteNodeClaims(ghost hcp: Object<string>) returns (gone: bool, ok: bool)
      requires Inv() && Seen(w.hcp, hcp)
      modifies this`w, this`turns, this`patches, this`failures
      ensures Inv() && old(patches) <= patches && Later(old(w.hcp), w.hcp)
      ensures failures == old(failures) + if ok then 0 else 1
      ensures ok ==> (gone <==> Found(old(w), old(turns)).claims == map[])
      ensures gone ==> ok && w == Found(old(w), old(turns))
      ensures ok && gone && hcp.deleting && PoolsGone(old(w), hcp) ==> Drained(w, hcp)
      ensures CalmScript(old(turns)) ==>
                CalmScript(turns) && Further(old(w), w)
                && (ok ==> LiveClaims(w) == {} && UnsettledClaims(w) <= LiveClaims(old(w)))
      ensures LeavesAnnotationsScript(old(turns)) ==> NoOverwrite(patches, |old(patches)|)
      ensures Undisturbed(old(turns)) ==>
                Undisturbed(turns) && ok && gone == (old(w).claims == map[])
                && w == old(w).(claims := w.claims) && ClaimsAfter(old(w).claims, w.claims, old(w).claims.Keys)
    {
      var t := Call();
      if hcp.deleting { PlayKeepsDrained(old(w), t.others, hcp); }
      if t.fails {
        failures := failures + 1;
        return false, false;
      }
      var listed := w.claims;
      var names := Enumerate(listed.Keys);
      ghost var w0 := w;
      assert listed == map[] <==> listed.Keys == {};
      ok := DeleteEachClaim(listed, names);
      LaterTransitive(old(w.hcp), w0.hcp, w.hcp);
      return ok && |names| == 0, ok;
    }

    /** The loop of DeleteNodeClaims over the claims as listed. */
    method DeleteEachClaim(listed: map<string, NodeClaim>, names: seq<string>) returns (ok: bool)
      requires Inv() && Enumerates(names, listed.Keys) && listed == w.claims
      modifies this`w, this`turns, this`patches, this`failures
      ensures Inv() && old(patches) <= patches && Later(old(w.hcp), w.hcp)
      ensures failures == old(failures) + if ok then 0 else 1
      ensures names == [] ==> ok && w == old(w)
      ensures CalmScript(old(turns)) ==>
                CalmScript(turns) && Further(old(w), w)
                && (ok ==> LiveClaims(w) == {} && UnsettledClaims(w) <= LiveClaims(old(w)))
      ensures LeavesAnnotationsScript(old(turns)) ==> NoOverwrite(patches, |old(patches)|)
      ensures Undisturbed(old(turns)) ==>
                Undisturbed(turns) && ok
                && w == old(w).(claims := w.claims) && ClaimsAfter(listed, w.claims, listed.Keys)
    {
      ghost var l := Listing(w, []);
      ghost var done: set<string> := {};
      for i := 0 to |names|
        invariant Inv() && old(patches) <= patches && Later(old(w.hcp), w.hcp) && failures == old(failures)
        invariant i == 0 ==> w == old(w)
        invariant Visited(names, done, i) && done <= listed.Keys
        invariant l.world == old(w) && Tracks(l, w, listed.Keys - done)
        invariant CalmScript(old(turns)) ==>
          CalmScript(turns) && Further(old(w), w) && Processed(old(w), w, names[..i])
        invariant LeavesAnnotationsScript(old(turns)) ==>
          LeavesAnnotationsScript(turns) && LeavesAnnotations(l.since) && NoOverwrite(patches, |old(patches)|)
        invariant Undisturbed(old(turns)) ==>
          Undisturbed(turns) && w == old(w).(claims := w.claims) && ClaimsAfter(listed, w.claims, done)
      {
        var n := names[i];
        VisitNext(names, done, i, listed.Keys);
        var claim := listed[n];
        ghost var before, sofar := w, |patches|;
        ghost var at: Timestamp;
        ok, at, l := DeleteNodeClaim(n, claim, l, listed.Keys - done);
        assert listed.Keys - done - {n} == listed.Keys - (done + {n});
        if Undisturbed(old(turns)) {
          ClaimsAfterNext(listed, before.claims, w.claims, done, n, at);
        }
        done := done + {n};
        LaterTransitive(old(w.hcp), before.hcp, w.hcp);
        if !ok { return false; }
        if CalmScript(old(turns)) { ProcessedNext(old(w), before, w, names, i); }
      }
      assert names[..|names|] == names;
      VisitedAll(names, done, listed.Keys);
      if CalmScript(old(turns)) { AllProcessed(old(w), w, names); }
      return true;
    }

    /** The loop body of DeleteNodeClaims. */
    method DeleteNodeClaim(n: string, claim: NodeClaim, ghost l: Listing, ghost rest: set<string>)
      returns (ok: bool, ghost at: Timestamp, ghost l': Listing)
      requires Inv() && Tracks(l, w, rest) && n in rest && n in l.world.claims && l.world.claims[n] == claim
      modifies this`w, this`turns, this`patches, this`failures
      ensures Inv() && old(patches) <= patches && Later(old(w.hcp), w.hcp)
      ensures failures == old(failures) + if ok then 0 else 1
      ensures l'.world == l.world && Tracks(l', w, rest - {n})
      ensures CalmScript(old(turns)) ==> CalmScript(turns) && Further(old(w), w)
      ensures CalmScript(old(turns)) && ok && claim.deletedAt.None? ==> n !in LiveClaims(w)
      ensures CalmScript(old(turns)) && ok && claim.deletedAt.Some? && n !in LiveClaims(old(w)) ==>
                n !in LiveClaims(w)
                && (claim.termination == "" || n !in UnsettledClaims(old(w)) ==> n !in UnsettledClaims(w))
      ensures LeavesAnnotationsScript(old(turns)) ==> LeavesAnnotationsScript(turns)
      ensures LeavesAnnotationsScript(old(turns)) && LeavesAnnotations(l.since) ==>
                LeavesAnnotations(l'.since) && NoOverwrite(patches, |old(patches)|)
      ensures Undisturbed(old(turns)) ==>
                && Undisturbed(turns) && (n in old(w).claims ==> ok)
                && w == old(w).(claims :=
                     if claim.deletedAt.None? then ClaimDeleted(old(w).claims, n, at)
                     else if claim.termination == "" then Annotated(old(w).claims, n, claim.deletedAt.value)
                     else old(w).claims)
    {
      if claim.deletedAt.None? {
        ok, at, l' := DeleteClaim(n, l, rest);
      } else {
        at := claim.deletedAt.value;
        ok, l' := HandleForcefulNodeClaimDeletion(n, claim, l, rest);
      }
    }

    /** An annotated claim is left alone; the patch of any other is logged with what it replaced, and exactly when. */
    method HandleForcefulNodeClaimDeletion(n: string, claim: NodeClaim, ghost l: Listing, ghost rest: set<string>)
      returns (ok: bool, ghost l': Listing)
      requires Inv() && claim.deletedAt.Some?
      requires Tracks(l, w, rest) && n in rest && n in l.world.claims && l.world.claims[n] == claim
      modifies this`w, this`turns, this`patches, this`failures
      ensures Inv() && old(patches) <= patches && Later(old(w.hcp), w.hcp)
      ensures failures == old(failures) + if ok then 0 else 1
      ensures l'.world == l.world && Tracks(l', w, rest - {n})
      ensures claim.termination != "" ==> ok && w == old(w) && turns == old(turns) && patches == old(patches)
      ensures claim.termination == "" && ok ==>
                && |patches| == |old(patches)| + 1
                && patches[|old(patches)|] == Patch(n, l.world, l'.since, patches[|old(patches)|].replaced)
      ensures CalmScript(old(turns)) ==> CalmScript(turns) && Further(old(w), w)
      ensures CalmScript(old(turns)) && ok && claim.termination == "" && n !in LiveClaims(old(w)) ==> n !in UnsettledClaims(w)
      ensures LeavesAnnotationsScript(old(turns)) ==> LeavesAnnotationsScript(turns)
      ensures LeavesAnnotationsScript(old(turns)) && LeavesAnnotations(l.since) ==>
                LeavesAnnotations(l'.since) && NoOverwrite(patches, |old(patches)|)
      ensures Undisturbed(old(turns)) && claim.termination == "" ==>
                Undisturbed(turns) && (ok <==> n in old(w).claims)
                && w == old(w).(claims := Annotated(old(w).claims, n, claim.deletedAt.value))
    {
      if claim.termination != "" { return true, l; }
      ok, l' := AnnotateClaim(n, claim, l, rest);
    }

    method CleanupKarpenterResources(ghost hcp: Object<string>) returns (cleanedUp: bool, ok: bool)
      requires Inv() && Seen(w.hcp, hcp)
      modifies this`w, this`turns, this`patches, this`passes, this`failures
      ensures Inv() && old(patches) <= patches && Seen(w.hcp, hcp)
      ensures failures == old(failures) + if ok then 0 else 1
      ensures ok ==> (cleanedUp <==> !SeesObjects(old(w), old(turns)))
      ensures passes == old(passes) + if ok then [Drain(old(w), w)] else []
      ensures old(OnCourse()) ==> OnCourse()
      ensures ok && cleanedUp && hcp.deleting ==> Drained(w, hcp)
      ensures CalmScript(old(turns)) ==> CalmScript(turns) && Further(old(w), w) && (ok ==> Pass(old(w), w))
      ensures LeavesAnnotationsScript(old(turns)) ==> NoOverwrite(patches, |old(patches)|)
      ensures Undisturbed(old(turns)) ==>
                && Undisturbed(turns) && ok && cleanedUp == (old(w).pools == map[] && old(w).claims == map[])
                && if cleanedUp then w == old(w) else CleanedUp(old(w), w)
    {
      var gone;
      gone, ok := DeleteNodePools();
      cleanedUp := false;
      if ok && gone {
        cleanedUp, ok := DeleteNodeClaims(hcp);
      }
      ConvergingOn(passes, old(w), w);
      ConvergingPass(passes, old(w), w);
      if ok {
        passes := passes + [Drain(old(w), w)];
      }
    }

    method ReconcileDeletion(hcp: Object<string>) returns (outcome: Outcome)
      requires Inv() && Seen(w.hcp, hcp)
      modifies this
      ensures Inv() && old(writes) <= writes && old(patches) <= patches && old(passes) <= passes
      ensures old(OnCourse()) ==> OnCourse()
      ensures failures == old(failures) + if outcome == Failed then 1 else 0
      ensures FINALIZER !in hcp.finalizers ==>
                outcome == Finished && w == old(w) && writes == old(writes) && passes == old(passes)
      ensures FINALIZER in hcp.finalizers && outcome != Failed ==>
                && |passes| == |old(passes)| + 1
                && outcome == if SeesObjects(old(w), old(turns)) then Requeue else Finished
      ensures |writes| ==
              |old(writes)| + if FINALIZER in hcp.finalizers && outcome == Finished && hcp.deleting then 1 else 0
      ensures |writes| > |old(writes)| ==> Releases(writes[|old(writes)|], hcp)
      ensures Undisturbed(old(turns)) && old(w).hcp.live == Some(hcp) ==>
                && outcome == (if FINALIZER in hcp.finalizers && (old(w).pools != map[] || old(w).claims != map[])
                               then Requeue else Finished)
                && if outcome == Requeue then CleanedUp(old(w), w)
                   else if FINALIZER in hcp.finalizers && hcp.deleting then
                     w == old(w).(hcp := SetFinalizers(old(w).hcp, RemoveFinalizer(hcp.finalizers, FINALIZER)))
                   else w == old(w)
    {
      if FINALIZER !in hcp.finalizers { return Finished; }
      if Undisturbed(turns) { FoundUndisturbed(w, turns); }
      var cleanedUp, ok := CleanupKarpenterResources(hcp);
      if !ok { return Failed; }
      if !cleanedUp { return Requeue; }
      if !hcp.deleting { return Finished; }
      var patched := PatchFinalizer(RemovedFinalizer, hcp, RemoveFinalizer(hcp.finalizers, FINALIZER));
      return if patched then Finished else Failed;
    }

    /** One reconcile, from any state the earlier ones may have left. */
    method Reconcile() returns (outcome: Outcome)
      requires Inv()
      modifies this
      ensures Inv() && old(writes) <= writes && old(patches) <= patches && old(passes) <= passes
      ensures old(OnCourse()) ==> OnCourse()
      ensures failures == old(failures) + if outcome == Failed then 1 else 0
      ensures HasToDrain(old(w), old(turns)) && outcome != Failed ==>
                && |passes| == |old(passes)| + 1
                && outcome == (if HasToRequeue(old(w), old(turns)) then Requeue else Finished)
                && var hcp := Cached(old(w), old(turns)).value;
                   if outcome == Finished && hcp.deleting then
                     |writes| == |old(writes)| + 1 && Releases(writes[|old(writes)|], hcp)
                   else writes == old(writes)
      ensures !HasToDrain(old(w), old(turns)) ==> outcome != Requeue && passes == old(passes)
      ensures Undisturbed(old(turns)) ==>
                && Reconciled(old(w), w)
                && outcome == if ClusterDeleting(old(w)) && FINALIZER in old(w).hcp.live.value.finalizers
                                 && (old(w).pools != map[] || old(w).claims != map[])
                              then Requeue else Finished
    {
      if Undisturbed(turns) {
        FoundUndisturbed(w, turns);
        FoundUndisturbed(w, Rest(turns));
      }
      var read, ok := GetHostedControlPlane();
      if !ok { return Failed; }
      if read.None? { return Finished; }
      var hcp := read.value;
      var deleting;
      deleting, ok := IsClusterDeleting(hcp);
      if !ok { return Failed; }
      if deleting {
        outcome := ReconcileDeletion(hcp);
        return;
      }
      if FINALIZER !in hcp.finalizers {
        ok := PatchFinalizer(AddedFinalizer, hcp, AddFinalizer(hcp.finalizers, FINALIZER));
        if !ok { return Failed; }
      }
      return Finished;
    }

    /**
     Any number of reconciles, under any script: the finalizer is only removed from a deleting HostedControlPlane of an
     empty cluster; the log of finalizer writes is one that the lemmas of Objects are about; and a termination patch
     overwrites an annotation exactly if the others annotated the claim since it was listed. Under a calm script no more
     than three of the error-free cleanup passes have work to do.
     */
    method Run(reconciles: nat)
      requires Inv()
      modifies this
      ensures Inv() && old(writes) <= writes && old(patches) <= patches && old(passes) <= passes
      ensures SoundWrites(HcpLog(writes), FINALIZER) && SoundPatches(patches)
      ensures old(OnCourse()) ==> OnCourse() && ThreePassesWork(passes)
      ensures forall i :: 0 <= i < |writes| && writes[i].change.RemovedFinalizer? ==>
                HcpDeleting(writes[i].before) && writes[i].before.pools == map[] && writes[i].before.claims == map[]
    {
      for i := 0 to reconciles
        invariant Inv() && old(writes) <= writes && old(patches) <= patches && old(passes) <= passes
        invariant old(OnCourse()) ==> OnCourse()
      {
        var outcome := Reconcile();
      }
      HcpLogIsSound(writes);
      if DrainRun(passes) { DrainConverges(passes); }
      forall i | 0 <= i < |writes| && writes[i].change.RemovedFinalizer?
        ensures HcpDeleting(writes[i].before) && writes[i].before.pools == map[] && writes[i].before.claims == map[]
      {
        ReleasedOnlyWhenDrained(writes, i);
      }
    }
  }
}
