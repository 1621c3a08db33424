/**
 API server objects under one key, with optimistic concurrency.

 A `Store` keeps the live object and every version it ever had. The resourceVersion of a version is its
 index in that history, so a reader may be handed any past version (an informer cache may lag) and a
 write that names a resourceVersion succeeds only on the version it was computed from.
 */
module Objects {
  import opened Wrappers

  datatype Object<+T> = Object(uid: nat, rv: nat, deleting: bool, finalizers: seq<string>, spec: T)

  datatype Store<+T> = Store(live: Option<Object<T>>, versions: seq<Object<T>>)

  function AddFinalizer(finalizers: seq<string>, f: string): seq<string> {
    if f in finalizers then finalizers else finalizers + [f]
  }

  function RemoveFinalizer(finalizers: seq<string>, f: string): seq<string> {
    if finalizers == [] then []
    else (if finalizers[0] == f then [] else [finalizers[0]]) + RemoveFinalizer(finalizers[1..], f)
  }

  /** The finalizers that owners other than the owner of `f` put on the object, in order. */
  function Others(finalizers: seq<string>, f: string): seq<string> {
    RemoveFinalizer(finalizers, f)
  }

  lemma {:induction false} RemoveFinalizerAppend(a: seq<string>, b: seq<string>, f: string)
    ensures RemoveFinalizer(a + b, f) == RemoveFinalizer(a, f) + RemoveFinalizer(b, f)
  {
    if a == [] {
      assert a + b == b;
    } else {
      assert a + b == [a[0]] + (a[1..] + b);
      RemoveFinalizerAppend(a[1..], b, f);
    }
  }

  lemma {:induction false} RemoveFinalizerMembers(finalizers: seq<string>, f: string)
    ensures f !in RemoveFinalizer(finalizers, f)
    ensures forall g :: g != f ==> (g in finalizers <==> g in RemoveFinalizer(finalizers, f))
    ensures f !in finalizers ==> RemoveFinalizer(finalizers, f) == finalizers
  {
    if finalizers != [] {
      assert finalizers == [finalizers[0]] + finalizers[1..];
      RemoveFinalizerMembers(finalizers[1..], f);
    }
  }

  /** Neither adding nor removing one's own finalizer touches, drops or reorders anybody else's. */
  lemma OwnFinalizerOnly(finalizers: seq<string>, f: string)
    ensures f in AddFinalizer(finalizers, f) && f !in RemoveFinalizer(finalizers, f)
    ensures Others(AddFinalizer(finalizers, f), f) == Others(finalizers, f)
    ensures Others(RemoveFinalizer(finalizers, f), f) == Others(finalizers, f)
    ensures forall g :: g != f ==> (g in finalizers <==> g in Others(finalizers, f))
  {
    RemoveFinalizerAppend(finalizers, [f], f);
    RemoveFinalizerMembers(finalizers, f);
    RemoveFinalizerMembers(RemoveFinalizer(finalizers, f), f);
  }

  /** What is true of every history: versions are numbered, and the live object is the last of them. */
  ghost predicate Valid<T>(st: Store<T>) {
    && (forall i :: 0 <= i < |st.versions| ==> st.versions[i].rv == i)
    && (st.live.Some? ==>
          |st.versions| > 0 && st.live.value == st.versions[|st.versions| - 1] && st.live.value.uid < |st.versions|)
  }

  /** `o` is a version of this store, possibly a stale one. */
  ghost predicate Seen<T>(st: Store<T>, o: Object<T>) {
    o.rv < |st.versions| && st.versions[o.rv] == o
  }

  /**
   `st'` may follow `st`: the history is only extended; a live object is the same version or a new one; and it
   either has a new UID or continues the object of `st`, whose DeletionTimestamp stays once it is set.
   */
  ghost predicate Later<T>(st: Store<T>, st': Store<T>) {
    && st.versions <= st'.versions
    && (st'.live.Some? ==>
          && (st'.live.value.rv < |st.versions| ==> st'.live == st.live)
          && (st'.live.value.uid >= |st.versions| ||
              (st.live.Some? && st'.live.value.uid == st.live.value.uid
               && (st.live.value.deleting ==> st'.live.value.deleting))))
  }

  function Create<T>(st: Store<T>, finalizers: seq<string>, spec: T): Store<T> {
    if st.live.Some? then st
    else
      var o := Object(|st.versions|, |st.versions|, false, finalizers, spec);
      Store(Some(o), st.versions + [o])
  }

  /** Stores a new version of the live object; the last finalizer of a deleting object takes it away. */
  function Put<T>(st: Store<T>, deleting: bool, finalizers: seq<string>, spec: T): Store<T> {
    if st.live.None? then st
    else if deleting && finalizers == [] then Store(None, st.versions)
    else
      var o := Object(st.live.value.uid, |st.versions|, deleting, finalizers, spec);
      Store(Some(o), st.versions + [o])
  }

  function Delete<T>(st: Store<T>): Store<T> {
    if st.live.None? || st.live.value.deleting then st
    else Put(st, true, st.live.value.finalizers, st.live.value.spec)
  }

  function SetFinalizers<T>(st: Store<T>, finalizers: seq<string>): Store<T> {
    if st.live.None? then st
    else Put(st, st.live.value.deleting, finalizers, st.live.value.spec)
  }

  function SetSpec<T>(st: Store<T>, spec: T): Store<T> {
    if st.live.None? then st
    else Put(st, st.live.value.deleting, st.live.value.finalizers, spec)
  }

  /**
   JSON merge patch of metadata.finalizers with an optimistic lock: arrays are replaced whole (section 2 of
   RFC 7396), and the patch carries the resourceVersion of the object it was computed from.
   */
  function PatchFinalizers<T>(st: Store<T>, original: Object<T>, modified: seq<string>): Result<Store<T>> {
    if st.live.None? || st.live.value.rv != original.rv then Err
    else Ok(SetFinalizers(st, if modified == original.finalizers then st.live.value.finalizers else modified))
  }

  lemma LaterTransitive<T>(a: Store<T>, b: Store<T>, c: Store<T>)
    requires Later(a, b) && Later(b, c)
    ensures Later(a, c)
  {}

  lemma PutSteps<T>(st: Store<T>, deleting: bool, finalizers: seq<string>, spec: T)
    requires Valid(st) && (st.live.Some? && st.live.value.deleting ==> deleting)
    ensures Valid(Put(st, deleting, finalizers, spec)) && Later(st, Put(st, deleting, finalizers, spec))
  {}

  lemma CreateSteps<T>(st: Store<T>, finalizers: seq<string>, spec: T)
    requires Valid(st)
    ensures Valid(Create(st, finalizers, spec)) && Later(st, Create(st, finalizers, spec))
  {}

  /** The lock at work: a locked patch only ever succeeds on the very object it was computed from. */
  lemma PatchHitsWhatWasRead<T>(st: Store<T>, original: Object<T>, modified: seq<string>)
    requires Valid(st) && Seen(st, original)
    ensures PatchFinalizers(st, original, modified).Ok? <==> st.live == Some(original)
    ensures st.live == Some(original) ==>
              PatchFinalizers(st, original, modified).value == SetFinalizers(st, modified)
  {}

  /** Deleting is forever: no later object with the same UID is without a DeletionTimestamp. */
  lemma DeletingIsForever<T>(st: Store<T>, st': Store<T>)
    requires Valid(st) && Valid(st') && Later(st, st')
    requires st.live.Some? && st.live.value.deleting
    ensures st'.live.Some? && st'.live.value.uid == st.live.value.uid ==> st'.live.value.deleting
  {}

  // ---- The log of one owner's finalizer writes ----

  datatype Change = AddedFinalizer | RemovedFinalizer | OtherWrite

  /** A successful write, with the object right before and right after it. */
  datatype StoreWrite<+T> = StoreWrite(change: Change, before: Store<T>, after: Store<T>)

  /** The finalizer is added to objects that are not being deleted, and removed from those that are. */
  ghost predicate SoundWrite<T>(e: StoreWrite<T>, f: string) {
    && Valid(e.before) && Valid(e.after) && Later(e.before, e.after)
    && e.before.live.Some?
    && var o := e.before.live.value;
    match e.change
    case AddedFinalizer => !o.deleting && e.after == SetFinalizers(e.before, AddFinalizer(o.finalizers, f))
    case RemovedFinalizer => o.deleting && e.after == SetFinalizers(e.before, RemoveFinalizer(o.finalizers, f))
    case OtherWrite => e.after == e.before
  }

  /** Every write is sound, and each happened after the one before it. */
  ghost predicate SoundWrites<T>(writes: seq<StoreWrite<T>>, f: string) {
    && (forall i :: 0 <= i < |writes| ==> SoundWrite(writes[i], f))
    && (forall i :: 0 < i < |writes| ==> Later(writes[i - 1].after, writes[i].before))
  }

  lemma {:induction false} WritesInOrder<T>(writes: seq<StoreWrite<T>>, i: nat, j: nat, f: string)
    requires SoundWrites(writes, f) && i < j < |writes|
    ensures Later(writes[i].after, writes[j].before)
    decreases j
  {
    assert SoundWrite(writes[j - 1], f);
    if i < j - 1 {
      WritesInOrder(writes, i, j - 1, f);
      LaterTransitive(writes[i].after, writes[j - 1].before, writes[j - 1].after);
      LaterTransitive(writes[i].after, writes[j - 1].after, writes[j].before);
    }
  }

  /** No write of a run drops or reorders a finalizer of another owner, whatever that owner did concurrently. */
  lemma FinalizersOfOthersSurvive<T>(writes: seq<StoreWrite<T>>, i: nat, f: string)
    requires SoundWrites(writes, f) && i < |writes| && writes[i].after.live.Some?
    ensures writes[i].before.live.Some?
    ensures Others(writes[i].after.live.value.finalizers, f) == Others(writes[i].before.live.value.finalizers, f)
  {
    assert SoundWrite(writes[i], f);
    OwnFinalizerOnly(writes[i].before.live.value.finalizers, f);
  }

  /** An object that vanishes with a write of a run carried nobody else's finalizer. */
  lemma LastOwnerLeaves<T>(writes: seq<StoreWrite<T>>, i: nat, f: string)
    requires SoundWrites(writes, f) && i < |writes| && writes[i].after.live.None?
    ensures writes[i].change.RemovedFinalizer? && writes[i].before.live.Some?
    ensures Others(writes[i].before.live.value.finalizers, f) == []
  {
    assert SoundWrite(writes[i], f);
  }

  /** Once removed, the finalizer never comes back on the same object over the rest of the run. */
  lemma NeverAddedBack<T>(writes: seq<StoreWrite<T>>, i: nat, j: nat, f: string)
    requires SoundWrites(writes, f) && i < j < |writes|
    requires writes[i].change.RemovedFinalizer? && writes[j].change.AddedFinalizer?
    ensures writes[i].before.live.Some? && writes[j].before.live.Some?
    ensures writes[i].before.live.value.uid != writes[j].before.live.value.uid
  {
    assert SoundWrite(writes[i], f) && SoundWrite(writes[j], f);
    WritesInOrder(writes, i, j, f);
    LaterTransitive(writes[i].before, writes[i].after, writes[j].before);
    DeletingIsForever(writes[i].before, writes[j].before);
  }
}
