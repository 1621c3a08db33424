/**
 The lifecycle of one OpenShift NodeClass (the parent) and the provider NodeClass of the same name (the child:
 an EC2NodeClass or an AKSNodeClass). The finalizer goes on before the child is created, and off only when the
 child is gone.

 API calls are atomic steps; before each of them the other clients may act. There is one worker per NodeClass name.
 Reads of the parent must be fresh (see `StaleReadOrphans`), and so must the one read of the child on which the EC2
 controller alone decides that the child is gone (see `StaleChildReadOrphans`). Any other read of the child may lag: it
 is followed by a create or an update that the API server refuses if the read was wrong, and the Azure controller
 deletes the child without reading it.
 */
module NodeClassLifecycle {
  import opened Wrappers
  import opened Collections
  import opened Objects

  const EC2_FINALIZER := "hypershift.openshift.io/ec2-nodeclass-finalizer"
  const AZURE_FINALIZER := "hypershift.openshift.io/azure-nodeclass-finalizer"

  /** The provider NodeClass; `held`: it carries finalizers of the Karpenter provider. */
  datatype Child = Child(rv: nat, deleting: bool, held: bool, spec: string)

  /** `tick` numbers the versions of the child. The spec of the parent is a rendering of the user's input. */
  datatype World = World(parent: Store<string>, child: Option<Child>, tick: nat)

  /** The admission policy lets nobody but the operator create the child or change its spec. */
  datatype Action =
    | CreateParent(finalizers: seq<string>, spec: string) | DeleteParent
    | SetParentFinalizers(finalizers: seq<string>) | SetParentSpec(spec: string)
    | DeleteChild | HoldChild(held: bool)

  function ChildDeleted(child: Option<Child>, rv: nat): Option<Child> {
    if child.None? || child.value.deleting then child
    else if child.value.held then Some(child.value.(deleting := true, rv := rv))
    else None
  }

  function Apply(w: World, a: Action, finalizer: string): World {
    match a
    case CreateParent(fs, spec) => w.(parent := Create(w.parent, fs, spec))
    case DeleteParent => w.(parent := Delete(w.parent))
    case SetParentFinalizers(fs) =>
      // only the operator removes its own finalizer
      if w.parent.live.Some? && finalizer in w.parent.live.value.finalizers && finalizer !in fs then w
      else w.(parent := SetFinalizers(w.parent, fs))
    case SetParentSpec(spec) => w.(parent := SetSpec(w.parent, spec))
    case DeleteChild => w.(child := ChildDeleted(w.child, w.tick), tick := w.tick + 1)
    case HoldChild(held) =>
      if w.child.None? then w
      else if !held && w.child.value.deleting then w.(child := None)
      else w.(child := Some(w.child.value.(held := held, rv := w.tick)), tick := w.tick + 1)
  }

  function Play(w: World, acts: seq<Action>, finalizer: string): World
    decreases |acts|
  {
    if acts == [] then w else Play(Apply(w, acts[0], finalizer), acts[1..], finalizer)
  }

  ghost predicate Guarded(w: World, finalizer: string) {
    w.parent.live.Some? && finalizer in w.parent.live.value.finalizers
  }

  /** An existing child has a parent, and the parent cannot go away without the operator. */
  ghost predicate Owned(w: World, finalizer: string) {
    w.child.Some? ==> Guarded(w, finalizer)
  }

  lemma ApplyKeeps(w: World, a: Action, finalizer: string)
    requires Valid(w.parent)
    ensures Valid(Apply(w, a, finalizer).parent) && Later(w.parent, Apply(w, a, finalizer).parent)
    ensures Guarded(w, finalizer) ==> Guarded(Apply(w, a, finalizer), finalizer)
    ensures w.child.None? ==> Apply(w, a, finalizer).child.None?
  {
    match a
    case CreateParent(fs, spec) => CreateSteps(w.parent, fs, spec);
    case DeleteParent =>
      if w.parent.live.Some? { PutSteps(w.parent, true, w.parent.live.value.finalizers, w.parent.live.value.spec); }
    case SetParentFinalizers(fs) =>
      if w.parent.live.Some? { PutSteps(w.parent, w.parent.live.value.deleting, fs, w.parent.live.value.spec); }
    case SetParentSpec(spec) =>
      if w.parent.live.Some? { PutSteps(w.parent, w.parent.live.value.deleting, w.parent.live.value.finalizers, spec); }
    case _ =>
  }

  /** What the operator relies on: others neither take its finalizer away nor bring a child into being. */
  lemma {:induction false} PlayKeeps(w: World, acts: seq<Action>, finalizer: string)
    requires Valid(w.parent)
    ensures Valid(Play(w, acts, finalizer).parent) && Later(w.parent, Play(w, acts, finalizer).parent)
    ensures Guarded(w, finalizer) ==> Guarded(Play(w, acts, finalizer), finalizer)
    ensures w.child.None? ==> Play(w, acts, finalizer).child.None?
    ensures Owned(w, finalizer) ==> Owned(Play(w, acts, finalizer), finalizer)
    decreases |acts|
  {
    if acts != [] {
      var w' := Apply(w, acts[0], finalizer);
      ApplyKeeps(w, acts[0], finalizer);
      PlayKeeps(w', acts[1..], finalizer);
      LaterTransitive(w.parent, w'.parent, Play(w, acts, finalizer).parent);
    }
  }

  // ---- The writes of the operator ----

  /** A finalizer patch of the parent, or (`OtherWrite`) the creation of the child, with the state before and after it. */
  datatype Write = Write(change: Change, before: World, after: World)

  function ParentWrite(e: Write): StoreWrite<string> {
    StoreWrite(e.change, e.before.parent, e.after.parent)
  }

  /**
   A sound write of the parent and of nothing else, or the creation of a child under a parent that carries the finalizer;
   the finalizer is removed only where there is no child.
   */
  ghost predicate Sound(e: Write, finalizer: string) {
    && SoundWrite(ParentWrite(e), finalizer)
    && match e.change
       case AddedFinalizer => e.after == e.before.(parent := e.after.parent)
       case RemovedFinalizer => e.before.child.None? && e.after == e.before.(parent := e.after.parent)
       case OtherWrite =>
         && finalizer in e.before.parent.live.value.finalizers && e.before.child.None? && e.after.child.Some?
         && e.after == e.before.(child := e.after.child, tick := e.after.tick)
  }

  ghost predicate Follows(a: Write, b: Write) {
    Later(a.after.parent, b.before.parent)
  }

  ghost function SoundFor(finalizer: string): Write -> bool {
    e => Sound(e, finalizer)
  }

  ghost predicate SoundLog(writes: seq<Write>, finalizer: string) {
    Chain(writes, SoundFor(finalizer), Follows)
  }

  /** The log as one of the parent alone. */
  function ParentLog(writes: seq<Write>): seq<StoreWrite<string>> {
    seq(|writes|, i requires 0 <= i < |writes| => ParentWrite(writes[i]))
  }

  lemma ParentLogIsSound(writes: seq<Write>, finalizer: string)
    requires SoundLog(writes, finalizer)
    ensures SoundWrites(ParentLog(writes), finalizer)
  {
    var log := ParentLog(writes);
    forall i | 0 <= i < |writes| ensures SoundWrite(log[i], finalizer) && (i > 0 ==> Later(log[i - 1].after, log[i].before)) {
      ChainAt(writes, SoundFor(finalizer), Follows, i);
    }
  }

  /** At the step that lets the parent go it is being deleted and has no child; at the step that creates a child its parent is held. */
  lemma ReleasedWithoutChild(writes: seq<Write>, i: nat, finalizer: string)
    requires SoundLog(writes, finalizer) && i < |writes|
    ensures writes[i].before.parent.live.Some?
    ensures writes[i].change.RemovedFinalizer? ==> writes[i].before.parent.live.value.deleting && writes[i].before.child.None?
    ensures writes[i].change.OtherWrite? ==> Guarded(writes[i].before, finalizer) && writes[i].before.child.None?
  {
    ChainAt(writes, SoundFor(finalizer), Follows, i);
  }

  /**
   Why reads must be fresh: a version of the parent from before it went away still carries the finalizer, and
   nothing in the creation of a child refers to the parent's resourceVersion.
   */
  lemma StaleReadOrphans(finalizer: string)
    ensures exists w: World, stale: Object<string> ::
              && Valid(w.parent) && Owned(w, finalizer) && w.child.None?
              && Seen(w.parent, stale) && !stale.deleting && finalizer in stale.finalizers
              && !Owned(w.(child := Some(Child(w.tick, false, false, stale.spec))), finalizer)
  {
    var stale := Object(0, 0, false, [finalizer], "");
    var gone := Object(0, 1, true, [finalizer], "");
    var w := World(Store(None, [stale, gone]), None, 0);
    assert Seen(w.parent, stale) && finalizer in stale.finalizers;
    assert !Owned(w.(child := Some(Child(w.tick, false, false, stale.spec))), finalizer);
  }

  /**
   Why EC2's read of the child must be fresh before the release: a cache that does not show a new child yet lets the
   parent of an existing child go.
   */
  lemma StaleChildReadOrphans(finalizer: string)
    ensures exists w: World, o: Object<string> ::
              && Valid(w.parent) && Owned(w, finalizer) && w.parent.live == Some(o) && o.deleting && w.child.Some?
              && PatchFinalizers(w.parent, o, RemoveFinalizer(o.finalizers, finalizer)).Ok?
              && !Owned(w.(parent := PatchFinalizers(w.parent, o, RemoveFinalizer(o.finalizers, finalizer)).value), finalizer)
  {
    var o := Object(0, 0, true, [finalizer], "");
    var w := World(Store(Some(o), [o]), Some(Child(0, false, false, "")), 1);
    assert RemoveFinalizer(o.finalizers, finalizer) == [] by {
      OwnFinalizerOnly(o.finalizers, finalizer);
      assert o.finalizers[1..] == [];
    }
    assert finalizer in o.finalizers;
    var after := PatchFinalizers(w.parent, o, []).value;
    assert !Owned(w.(parent := after), finalizer);
  }

  // ---- What one undisturbed reconcile does ----

  /** The child exists with the desired spec; an existing one keeps everything else but its resourceVersion. */
  ghost predicate ChildSynced(child: Option<Child>, child': Option<Child>, desired: string) {
    && child'.Some? && child'.value.spec == desired
    && if child.None? then !child'.value.deleting && !child'.value.held
       else child'.value == child.value.(rv := child'.value.rv, spec := desired)
  }

  function FinalizerOn(parent: Store<string>, finalizer: string): Store<string> {
    if parent.live.None? || finalizer in parent.live.value.finalizers then parent
    else SetFinalizers(parent, parent.live.value.finalizers + [finalizer])
  }

  /** The common part: finalizer on, then the child gets the desired spec once its inputs are there. */
  ghost predicate Synced(w: World, w': World, finalizer: string, inputsReady: bool, desired: string)
    requires w.parent.live.Some?
  {
    && w'.parent == FinalizerOn(w.parent, finalizer)
    && if !inputsReady then w'.child == w.child else ChildSynced(w.child, w'.child, desired)
  }

  ghost predicate Released(w: World, w': World, finalizer: string)
    requires w.parent.live.Some?
  {
    var o := w.parent.live.value;
    w' == if finalizer in o.finalizers then w.(parent := SetFinalizers(w.parent, RemoveFinalizer(o.finalizers, finalizer)))
          else w
  }

  /** Both controllers: a deleting parent gets its child deleted and, when there is none, is released. */
  ghost predicate Reconciled(w: World, w': World, finalizer: string, active: bool, inputsReady: bool, desired: string) {
    if w.parent.live.None? || !active then w' == w
    else if w.parent.live.value.deleting then
      if w.child.Some? then w' == w.(child := w'.child, tick := w'.tick) && w'.child == ChildDeleted(w.child, w.tick)
      else Released(w, w', finalizer)
    else Synced(w, w', finalizer, inputsReady, desired)
  }
}
