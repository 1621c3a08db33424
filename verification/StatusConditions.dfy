/** Status conditions: meta.SetStatusCondition and SyncConditions, which merges two owners' conditions. */
module StatusConditions {
  import opened Wrappers
  import opened Objects

  datatype Status = True | False | Unknown

  /** A point in time; 0 is the zero value, "not set". */
  type Time = nat

  datatype Condition = Condition(kind: string, status: Status, since: Time, reason: string, message: string, generation: int)

  const READY := "Ready"
  const VERSION_RESOLVED := "VersionResolved"
  const TAG_CONFLICT := "AWSResourceTagConflict"
  const RESOLUTION_FAILED := "ResolutionFailed"

  /** meta.FindStatusCondition: the first condition of the type. */
  function Find(conditions: seq<Condition>, kind: string): Option<Condition> {
    if conditions == [] then None
    else if conditions[0].kind == kind then Some(conditions[0])
    else Find(conditions[1..], kind)
  }

  /** What an existing condition becomes: the transition time moves only with the status. */
  function Updated(existing: Condition, c: Condition, now: Time): Condition {
    c.(since := if existing.status == c.status then existing.since else if c.since != 0 then c.since else now)
  }

  /** meta.SetStatusCondition. */
  function Set(conditions: seq<Condition>, c: Condition, now: Time): seq<Condition> {
    if conditions == [] then [c.(since := if c.since != 0 then c.since else now)]
    else if conditions[0].kind == c.kind then [Updated(conditions[0], c, now)] + conditions[1..]
    else [conditions[0]] + Set(conditions[1..], c, now)
  }

  predicate UniqueKinds(conditions: seq<Condition>) {
    forall i, j :: 0 <= i < j < |conditions| ==> conditions[i].kind != conditions[j].kind
  }

  lemma {:induction false} FindMembers(conditions: seq<Condition>, kind: string)
    ensures Find(conditions, kind).None? <==> forall i :: 0 <= i < |conditions| ==> conditions[i].kind != kind
    ensures Find(conditions, kind).Some? ==> Find(conditions, kind).value in conditions && Find(conditions, kind).value.kind == kind
  {
    if conditions != [] {
      FindMembers(conditions[1..], kind);
      assert forall i :: 0 < i < |conditions| ==> conditions[i] == conditions[1..][i - 1];
      assert forall i :: 0 <= i < |conditions[1..]| ==> conditions[1..][i] == conditions[i + 1];
    }
  }

  /** Set touches its own type only, and writes there what `Updated` says. */
  lemma {:induction false} SetFind(conditions: seq<Condition>, c: Condition, now: Time, kind: string)
    ensures Find(Set(conditions, c, now), kind) ==
            if kind != c.kind then Find(conditions, kind)
            else if Find(conditions, kind).None? then Some(c.(since := if c.since != 0 then c.since else now))
            else Some(Updated(Find(conditions, kind).value, c, now))
  {
    if conditions != [] {
      SetFind(conditions[1..], c, now, kind);
    }
  }

  /** The types present after Set, in order. */
  lemma {:induction false} SetKinds(conditions: seq<Condition>, c: Condition, now: Time)
    ensures var r := Set(conditions, c, now);
            && |r| == |conditions| + (if Find(conditions, c.kind).None? then 1 else 0)
            && (forall i :: 0 <= i < |conditions| ==> r[i].kind == conditions[i].kind)
            && (Find(conditions, c.kind).None? ==> r[|conditions|].kind == c.kind)
  {
    if conditions != [] {
      SetKinds(conditions[1..], c, now);
      assert forall i :: 0 < i < |conditions| ==> conditions[i] == conditions[1..][i - 1];
    }
  }

  lemma SetKeepsUnique(conditions: seq<Condition>, c: Condition, now: Time)
    requires UniqueKinds(conditions)
    ensures UniqueKinds(Set(conditions, c, now))
  {
    SetKinds(conditions, c, now);
    FindMembers(conditions, c.kind);
  }

  /** Setting a condition to what it already is changes nothing. */
  lemma {:induction false} SetIdempotent(conditions: seq<Condition>, c: Condition, now: Time)
    requires Find(conditions, c.kind).Some?
    requires Find(conditions, c.kind).value == c.(since := Find(conditions, c.kind).value.since)
    ensures Set(conditions, c, now) == conditions
  {
    if conditions[0].kind != c.kind {
      SetIdempotent(conditions[1..], c, now);
    }
    assert conditions == [conditions[0]] + conditions[1..];
  }

  // ---- SyncConditions ----

  /** The loop: every provider condition but Ready is copied in; `clock` gives the time of each write. */
  function Merge(conditions: seq<Condition>, provider: seq<Condition>, clock: nat -> Time): seq<Condition> {
    if provider == [] then conditions
    else
      var n := |provider| - 1;
      var merged := Merge(conditions, provider[..n], clock);
      if provider[n].kind == READY then merged else Set(merged, provider[n], clock(n))
  }

  function NotReady(versionResolved: Option<Condition>, generation: int): Condition {
    match versionResolved
    case None => Condition(READY, False, 0, RESOLUTION_FAILED, "Version resolution status is unknown", generation)
    case Some(c) => Condition(READY, False, 0, c.reason, "Version resolution failed: " + c.message, generation)
  }

  predicate Resolved(conditions: seq<Condition>) {
    Find(conditions, VERSION_RESOLVED).Some? && Find(conditions, VERSION_RESOLVED).value.status == True
  }

  /** The last Ready condition that the provider reports. */
  function ProviderReady(provider: seq<Condition>): Option<Condition> {
    if provider == [] then None
    else if provider[|provider| - 1].kind == READY then Some(provider[|provider| - 1])
    else ProviderReady(provider[..|provider| - 1])
  }

  /** The Ready condition to be set last, if any. */
  function EffectiveReady(merged: seq<Condition>, provider: seq<Condition>, generation: int): Option<Condition> {
    if Resolved(merged) then ProviderReady(provider) else Some(NotReady(Find(merged, VERSION_RESOLVED), generation))
  }

  function Synced(conditions: seq<Condition>, provider: seq<Condition>, generation: int, clock: nat -> Time): seq<Condition> {
    var merged := Merge(conditions, provider, clock);
    var ready := EffectiveReady(merged, provider, generation);
    if ready.None? then merged else Set(merged, ready.value, clock(|provider|))
  }

  method SyncConditions(conditions: seq<Condition>, provider: seq<Condition>, generation: int, clock: nat -> Time)
    returns (result: seq<Condition>)
    ensures result == Synced(conditions, provider, generation, clock)
  {
    result := conditions;
    var providerReady: Option<Condition> := None;
    for i := 0 to |provider|
      invariant result == Merge(conditions, provider[..i], clock)
      invariant providerReady == ProviderReady(provider[..i])
    {
      assert provider[..i + 1][..i] == provider[..i];
      if provider[i].kind == READY {
        providerReady := Some(provider[i]);
        continue;
      }
      result := Set(result, provider[i], clock(i));
    }
    assert provider[..|provider|] == provider;

    var versionResolved := Find(result, VERSION_RESOLVED);
    if versionResolved.Some? && versionResolved.value.status == True {
      if providerReady.Some? {
        result := Set(result, providerReady.value, clock(|provider|));
      }
      return;
    }
    result := Set(result, NotReady(versionResolved, generation), clock(|provider|));
  }

  // ---- What SyncConditions promises ----

  /**
   A copied condition says what the owner says. Same status means same transition time; a new or changed status carries
   the owner's time or, without one, the clock reading `now` of the write.
   */
  ghost predicate CopiedFrom(r: Option<Condition>, before: Option<Condition>, c: Condition, now: Time) {
    && r.Some? && r.value == c.(since := r.value.since)
    && var changed := before.None? || before.value.status != c.status;
       r.value.since == if !changed then before.value.since else if c.since != 0 then c.since else now
  }

  /** The position of the first condition of the type. */
  function IndexOf(conditions: seq<Condition>, kind: string): nat {
    if conditions == [] || conditions[0].kind == kind then 0 else 1 + IndexOf(conditions[1..], kind)
  }

  lemma {:induction false} IndexOfAppend(conditions: seq<Condition>, c: Condition, kind: string)
    ensures Find(conditions, kind).Some? || c.kind == kind ==>
              IndexOf(conditions + [c], kind) == if Find(conditions, kind).Some? then IndexOf(conditions, kind) else |conditions|
  {
    if conditions != [] {
      assert (conditions + [c])[1..] == conditions[1..] + [c];
      IndexOfAppend(conditions[1..], c, kind);
    }
  }

  lemma {:induction false} MergeFind(conditions: seq<Condition>, provider: seq<Condition>, clock: nat -> Time, kind: string)
    requires UniqueKinds(provider)
    ensures Find(provider, kind).None? || kind == READY ==> Find(Merge(conditions, provider, clock), kind) == Find(conditions, kind)
    ensures Find(provider, kind).Some? && kind != READY ==>
              CopiedFrom(Find(Merge(conditions, provider, clock), kind), Find(conditions, kind), Find(provider, kind).value,
                         clock(IndexOf(provider, kind)))
    ensures Find(provider, READY) == ProviderReady(provider)
    decreases |provider|
  {
    if provider != [] {
      var n := |provider| - 1;
      var c := provider[n];
      MergeFind(conditions, provider[..n], clock, kind);
      assert provider == provider[..n] + [c];
      FindAppend(provider[..n], c, kind);
      IndexOfAppend(provider[..n], c, kind);
      FindAppend(provider[..n], c, READY);
      FindMembers(provider[..n], c.kind);
      if c.kind != READY {
        SetFind(Merge(conditions, provider[..n], clock), c, clock(n), kind);
      }
    }
  }

  lemma {:induction false} FindAppend(conditions: seq<Condition>, c: Condition, kind: string)
    ensures Find(conditions + [c], kind) ==
            if Find(conditions, kind).Some? then Find(conditions, kind) else if c.kind == kind then Some(c) else None
  {
    if conditions != [] {
      assert (conditions + [c])[1..] == conditions[1..] + [c];
      FindAppend(conditions[1..], c, kind);
    }
  }

  lemma {:induction false} MergeKeepsUnique(conditions: seq<Condition>, provider: seq<Condition>, clock: nat -> Time)
    requires UniqueKinds(conditions)
    ensures UniqueKinds(Merge(conditions, provider, clock))
    decreases |provider|
  {
    if provider != [] {
      var n := |provider| - 1;
      MergeKeepsUnique(conditions, provider[..n], clock);
      SetKeepsUnique(Merge(conditions, provider[..n], clock), provider[n], clock(n));
    }
  }

  /** The functional specification, type by type and down to the transition times. */
  lemma SyncSpec(conditions: seq<Condition>, provider: seq<Condition>, generation: int, clock: nat -> Time, kind: string)
    requires UniqueKinds(provider)
    requires Find(provider, VERSION_RESOLVED).None?
    ensures var before := Find(conditions, kind);
            var after := Find(Synced(conditions, provider, generation, clock), kind);
            if kind != READY then
              if Find(provider, kind).Some? then CopiedFrom(after, before, Find(provider, kind).value, clock(IndexOf(provider, kind)))
              else after == before
            else if Resolved(conditions) then
              if Find(provider, READY).Some? then CopiedFrom(after, before, Find(provider, READY).value, clock(|provider|))
              else after == before
            else
              CopiedFrom(after, before, NotReady(Find(conditions, VERSION_RESOLVED), generation), clock(|provider|))
  {
    MergeFind(conditions, provider, clock, kind);
    MergeFind(conditions, provider, clock, VERSION_RESOLVED);
    var merged := Merge(conditions, provider, clock);
    var ready := EffectiveReady(merged, provider, generation);
    if ready.Some? {
      FindMembers(provider, READY);
      SetFind(merged, ready.value, clock(|provider|), kind);
    }
  }

  /** Ready follows the provider once VersionResolved is True; until then it is False and says what VersionResolved says. */
  lemma ReadyMeans(conditions: seq<Condition>, provider: seq<Condition>, generation: int, clock: nat -> Time)
    requires UniqueKinds(provider)
    requires Find(provider, "VersionResolved").None?
    ensures var resolved := Find(conditions, "VersionResolved");
            var ready, reported := Find(Synced(conditions, provider, generation, clock), "Ready"), Find(provider, "Ready");
            if resolved.Some? && resolved.value.status == True then
              if reported.None? then ready == Find(conditions, "Ready")
              else ready.Some? && ready.value == reported.value.(since := ready.value.since)
            else
              && ready.Some? && ready.value.status == False && ready.value.generation == generation
              && if resolved.None? then
                   ready.value.reason == "ResolutionFailed" && ready.value.message == "Version resolution status is unknown"
                 else
                   && ready.value.reason == resolved.value.reason
                   && ready.value.message == "Version resolution failed: " + resolved.value.message
  {
    SyncSpec(conditions, provider, generation, clock, READY);
  }

  lemma SyncKeepsUnique(conditions: seq<Condition>, provider: seq<Condition>, generation: int, clock: nat -> Time)
    requires UniqueKinds(conditions)
    ensures UniqueKinds(Synced(conditions, provider, generation, clock))
  {
    MergeKeepsUnique(conditions, provider, clock);
    var merged := Merge(conditions, provider, clock);
    var ready := EffectiveReady(merged, provider, generation);
    if ready.Some? { SetKeepsUnique(merged, ready.value, clock(|provider|)); }
  }

  /** A merge into conditions that already say what the provider says is the identity. */
  lemma {:induction false} MergeIdempotent(conditions: seq<Condition>, provider: seq<Condition>, clock: nat -> Time)
    requires forall i :: 0 <= i < |provider| && provider[i].kind != READY ==>
               Find(conditions, provider[i].kind).Some?
               && Find(conditions, provider[i].kind).value == provider[i].(since := Find(conditions, provider[i].kind).value.since)
    ensures Merge(conditions, provider, clock) == conditions
    decreases |provider|
  {
    if provider != [] {
      var n := |provider| - 1;
      MergeIdempotent(conditions, provider[..n], clock);
      if provider[n].kind != READY { SetIdempotent(conditions, provider[n], clock(n)); }
    }
  }

  lemma {:induction false} FindAt(conditions: seq<Condition>, i: nat)
    requires UniqueKinds(conditions) && i < |conditions|
    ensures Find(conditions, conditions[i].kind) == Some(conditions[i])
  {
    if i > 0 {
      assert conditions[i] == conditions[1..][i - 1];
      FindAt(conditions[1..], i - 1);
    }
  }

  /** Applying SyncConditions again at any later clock readings changes nothing, transition times included. */
  lemma SyncIdempotent(conditions: seq<Condition>, provider: seq<Condition>, generation: int,
                       clock: nat -> Time, later: nat -> Time)
    requires UniqueKinds(provider)
    ensures var once := Synced(conditions, provider, generation, clock);
            Synced(once, provider, generation, later) == once
  {
    var merged := Merge(conditions, provider, clock);
    var ready := EffectiveReady(merged, provider, generation);
    var once := Synced(conditions, provider, generation, clock);
    forall kind | kind != READY ensures Find(once, kind) == Find(merged, kind) {
      if ready.Some? {
        ProviderReadyKind(provider);
        SetFind(merged, ready.value, clock(|provider|), kind);
      }
    }
    forall i | 0 <= i < |provider| && provider[i].kind != READY
      ensures Find(once, provider[i].kind).Some?
      ensures Find(once, provider[i].kind).value == provider[i].(since := Find(once, provider[i].kind).value.since)
    {
      FindAt(provider, i);
      MergeFind(conditions, provider, clock, provider[i].kind);
    }
    MergeIdempotent(once, provider, later);
    if ready.Some? {
      ProviderReadyKind(provider);
      SetFind(merged, ready.value, clock(|provider|), READY);
      SetIdempotent(once, ready.value, later(|provider|));
    }
  }

  lemma {:induction false} ProviderReadyKind(provider: seq<Condition>)
    ensures ProviderReady(provider).Some? ==> ProviderReady(provider).value.kind == READY
    decreases |provider|
  {
    if provider != [] { ProviderReadyKind(provider[..|provider| - 1]); }
  }

  // ---- Runs: two owners of one condition list, and a status patch under optimistic lock ----

  /**
   The NodeClass status, written by the ignition controller (VersionResolved and SupportedVersionSkew) and by this
   operator (everything else). `read` and `child` are what the reconcile in flight computes its patch from: the parent
   it read, and the provider conditions of the child it read, either possibly outdated by now.
   */
  datatype World = World(status: Store<seq<Condition>>, provider: seq<Condition>,
                         read: Option<Object<seq<Condition>>>, child: seq<Condition>)

  datatype Event =
    | Ignition(c: Condition, now: Time)
    | Provider(conditions: seq<Condition>)
    | Touch
    | Read
    | ReadChild
    | PatchStatus(generation: int, clock: nat -> Time, conflict: ConflictWrite)

  /** What the same patch does to the tag conflict condition: nothing (Azure), or removing or setting it (EC2). */
  datatype ConflictWrite = NoWrite | Remove | Report(status: Status, reason: string, message: string)

  predicate IgnitionOwned(kind: string) {
    kind == VERSION_RESOLVED || kind == "SupportedVersionSkew"
  }

  /** Provider conditions have distinct types, none of them the ignition controller's. */
  predicate ProviderLegal(conditions: seq<Condition>) {
    UniqueKinds(conditions) && forall i :: 0 <= i < |conditions| ==> !IgnitionOwned(conditions[i].kind)
  }

  /** What the owners agree on. */
  predicate Legal(e: Event) {
    match e
    case Ignition(c, _) => IgnitionOwned(c.kind)
    case Provider(cs) => ProviderLegal(cs)
    case _ => true
  }

  function Conditions(r: World): seq<Condition> {
    if r.status.live.Some? then r.status.live.value.spec else []
  }

  /** The patch replaces the whole list, and is refused when the object changed since it was read. */
  predicate Patches(r: World) {
    r.read.Some? && r.status.live.Some? && r.read.value.rv == r.status.live.value.rv
  }

  /** meta.RemoveStatusCondition. */
  function Without(conditions: seq<Condition>, kind: string): seq<Condition> {
    if conditions == [] then []
    else if conditions[0].kind == kind then Without(conditions[1..], kind)
    else [conditions[0]] + Without(conditions[1..], kind)
  }

  lemma {:induction false} WithoutFind(conditions: seq<Condition>, kind: string, other: string)
    ensures Find(Without(conditions, kind), other) == if other == kind then None else Find(conditions, other)
  {
    if conditions != [] {
      WithoutFind(conditions[1..], kind, other);
    }
  }

  function WithConflict(conditions: seq<Condition>, conflict: ConflictWrite, generation: int, now: Time): seq<Condition> {
    match conflict
    case NoWrite => conditions
    case Remove => Without(conditions, TAG_CONFLICT)
    case Report(status, reason, message) =>
      Set(conditions, Condition(TAG_CONFLICT, status, 0, reason, message, generation), now)
  }

  lemma WithConflictFind(conditions: seq<Condition>, conflict: ConflictWrite, generation: int, now: Time, kind: string)
    ensures var result := WithConflict(conditions, conflict, generation, now);
            && (kind != TAG_CONFLICT || conflict.NoWrite? ==> Find(result, kind) == Find(conditions, kind))
            && (conflict.Remove? ==> Find(result, TAG_CONFLICT).None?)
            && (conflict.Report? ==>
                  CopiedFrom(Find(result, TAG_CONFLICT), Find(conditions, TAG_CONFLICT),
                             Condition(TAG_CONFLICT, conflict.status, 0, conflict.reason, conflict.message, generation), now))
  {
    match conflict
    case NoWrite =>
    case Remove =>
      WithoutFind(conditions, TAG_CONFLICT, kind);
      WithoutFind(conditions, TAG_CONFLICT, TAG_CONFLICT);
    case Report(status, reason, message) =>
      var c := Condition(TAG_CONFLICT, status, 0, reason, message, generation);
      SetFind(conditions, c, now, kind);
      SetFind(conditions, c, now, TAG_CONFLICT);
  }

  /** The list that a reconcile writes. */
  function Written(before: seq<Condition>, provider: seq<Condition>, e: Event): seq<Condition>
    requires e.PatchStatus?
  {
    WithConflict(Synced(before, provider, e.generation, e.clock), e.conflict, e.generation, e.clock(|provider| + 1))
  }

  function Step(r: World, e: Event): World {
    match e
    case Ignition(c, now) => r.(status := SetSpec(r.status, Set(Conditions(r), c, now)))
    case Provider(cs) => r.(provider := cs)
    case Touch => r.(status := SetSpec(r.status, Conditions(r)))
    case Read => r.(read := r.status.live)
    case ReadChild => r.(child := r.provider)
    case PatchStatus(_, _, _) =>
      if !Patches(r) then r.(read := None)
      else r.(status := SetSpec(r.status, Written(r.read.value.spec, r.child, e)), read := None)
  }

  ghost predicate Inv(r: World) {
    && Valid(r.status) && (r.read.Some? ==> Seen(r.status, r.read.value))
    && ProviderLegal(r.provider) && ProviderLegal(r.child)
  }

  lemma StepKeepsInv(r: World, e: Event)
    requires Inv(r) && Legal(e)
    ensures Inv(Step(r, e)) && Later(r.status, Step(r, e).status)
  {
    if r.status.live.Some? {
      var o := r.status.live.value;
      match e
      case Ignition(c, now) => PutSteps(r.status, o.deleting, o.finalizers, Set(Conditions(r), c, now));
      case Touch => PutSteps(r.status, o.deleting, o.finalizers, Conditions(r));
      case PatchStatus(_, _, _) =>
        if Patches(r) { PutSteps(r.status, o.deleting, o.finalizers, Written(r.read.value.spec, r.child, e)); }
      case _ =>
    }
  }

  function Run(r: World, events: seq<Event>): World
    decreases |events|
  {
    if events == [] then r else Run(Step(r, events[0]), events[1..])
  }

  function Ready(r: World): Option<Condition> {
    Find(Conditions(r), READY)
  }

  /** Ready keeps its transition time unless the step changes its status. */
  ghost predicate ReadyTimeHonest(r: World, r': World) {
    Ready(r).Some? && Ready(r').Some? && Ready(r).value.status == Ready(r').value.status ==>
      Ready(r').value.since == Ready(r).value.since
  }

  /** No write of the ignition controller is lost, whatever the patch was computed from. */
  ghost predicate IgnitionKept(r: World, r': World) {
    forall kind | IgnitionOwned(kind) :: Find(Conditions(r'), kind) == Find(Conditions(r), kind)
  }

  /** The tag conflict condition is what the patch says; its time moves only with its status, unless the provider reports it, too. */
  ghost predicate ConflictAsWritten(r: World, r': World, conflict: ConflictWrite) {
    var before, after := Find(Conditions(r), TAG_CONFLICT), Find(Conditions(r'), TAG_CONFLICT);
    match conflict
    case NoWrite => Find(r.child, TAG_CONFLICT).None? ==> after == before
    case Remove => after.None?
    case Report(status, reason, message) =>
      && after.Some? && after.value.status == status && after.value.reason == reason && after.value.message == message
      && (Find(r.child, TAG_CONFLICT).None? && before.Some? && before.value.status == status ==>
            after.value.since == before.value.since)
  }

  ghost predicate StepSafe(r: World, e: Event) {
    var r' := Step(r, e);
    r'.status.live.Some? ==>
      && ReadyTimeHonest(r, r')
      && (!e.Ignition? ==> IgnitionKept(r, r'))
      && (e.PatchStatus? && Patches(r) ==>
            && (Ready(r').Some? && Ready(r').value.status == True ==> Resolved(Conditions(r')))
            && (!Resolved(Conditions(r')) ==> Ready(r').Some? && Ready(r').value.status == False)
            && ConflictAsWritten(r, r', e.conflict))
  }

  lemma PatchIsSafe(r: World, e: Event)
    requires Inv(r) && Patches(r) && e.PatchStatus?
    ensures StepSafe(r, e)
  {
    assert r.read == r.status.live;
    var before := Conditions(r);
    var synced := Synced(before, r.child, e.generation, e.clock);
    var now := e.clock(|r.child| + 1);
    FindMembers(r.child, VERSION_RESOLVED);
    forall kind | IgnitionOwned(kind) ensures Find(Written(before, r.child, e), kind) == Find(before, kind) {
      FindMembers(r.child, kind);
      SyncSpec(before, r.child, e.generation, e.clock, kind);
      WithConflictFind(synced, e.conflict, e.generation, now, kind);
    }
    SyncSpec(before, r.child, e.generation, e.clock, READY);
    WithConflictFind(synced, e.conflict, e.generation, now, READY);
    WithConflictFind(synced, e.conflict, e.generation, now, TAG_CONFLICT);
    SyncSpec(before, r.child, e.generation, e.clock, TAG_CONFLICT);
  }

  lemma EveryStepIsSafe(r: World, e: Event)
    requires Inv(r) && Legal(e)
    ensures StepSafe(r, e)
  {
    match e
    case Ignition(c, now) => SetFind(Conditions(r), c, now, READY);
    case PatchStatus(_, _, _) =>
      if Patches(r) { PatchIsSafe(r, e); }
    case _ =>
  }

  /**
   Readiness over runs: in any interleaving of ignition writes, provider changes, other writes, reads and status
   patches, every successful patch leaves Ready=True only if VersionResolved=True, no step moves Ready's transition time
   without changing Ready's status, no whole-list patch loses a condition of the ignition controller, and the tag conflict
   condition that EC2 writes into the same list is what the patch says.
   */
  lemma {:induction false} ReadinessOverRuns(r: World, events: seq<Event>, i: nat)
    requires Inv(r) && (forall k :: 0 <= k < |events| ==> Legal(events[k])) && i < |events|
    ensures Inv(Run(r, events[..i])) && StepSafe(Run(r, events[..i]), events[i])
    decreases i
  {
    if i == 0 {
      EveryStepIsSafe(r, events[0]);
    } else {
      StepKeepsInv(r, events[0]);
      assert events[..i][1..] == events[1..][..i - 1];
      ReadinessOverRuns(Step(r, events[0]), events[1..], i - 1);
    }
  }
}
