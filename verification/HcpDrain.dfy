/**
 The world of the HostedControlPlane deletion controller, which holds the HostedControlPlane with a finalizer, deletes
 all NodePools and then all NodeClaims once the cluster is torn down, and lets the HostedControlPlane go: what the other
 clients of the two API servers (users, Karpenter, HyperShift, Cluster API) do in it, how far it is drained, and what the
 controller's writes promise. The controller itself is in HcpDeletion.
 */
module HcpDrain {
  import opened Wrappers
  import opened Collections
  import opened Objects

  const FINALIZER := "hypershift.openshift.io/karpenter-finalizer"

  /** A DeletionTimestamp in its RFC 3339 form. */
  type Timestamp = s: string | s != "" witness "1970-01-01T00:00:00Z"

  /** `held`: the object carries finalizers, so deleting it only marks it. */
  datatype NodePool = NodePool(deleting: bool, held: bool)
  datatype NodeClaim = NodeClaim(deletedAt: Option<Timestamp>, termination: string, held: bool)

  /** `hcp` stores the infrastructure ID as its spec; `capi` says of each CAPI Cluster whether it is deleting. */
  datatype World = World(hcp: Store<string>, capi: map<string, bool>,
                         pools: map<string, NodePool>, claims: map<string, NodeClaim>)

  // ---- What the other clients may do ----

  datatype Action =
    | CreateHcp(finalizers: seq<string>, infraID: string) | DeleteHcp
    | SetHcpFinalizers(finalizers: seq<string>) | SetHcpSpec(infraID: string)
    | SetCapi(name: string, deleting: bool) | RemoveCapi(name: string)
    | CreatePool(name: string, held: bool) | DeletePool(name: string) | HoldPool(name: string, held: bool)
    | CreateClaim(name: string, held: bool) | DeleteClaim(name: string, at: Timestamp)
    | HoldClaim(name: string, held: bool) | Annotate(name: string, value: string)

  predicate HcpDeleting(w: World) {
    w.hcp.live.Some? && w.hcp.live.value.deleting
  }

  function PoolDeleted(pools: map<string, NodePool>, n: string): map<string, NodePool> {
    if n !in pools then pools
    else if pools[n].held then pools[n := pools[n].(deleting := true)]
    else pools - {n}
  }

  function ClaimDeleted(claims: map<string, NodeClaim>, n: string, at: Timestamp): map<string, NodeClaim> {
    if n !in claims || claims[n].deletedAt.Some? then claims
    else if claims[n].held then claims[n := claims[n].(deletedAt := Some(at))]
    else claims - {n}
  }

  /** The forceful-termination patch: it names no resourceVersion, so it lands on whatever the claim is by now. */
  function Annotated(claims: map<string, NodeClaim>, n: string, value: string): map<string, NodeClaim> {
    if n !in claims then claims else claims[n := claims[n].(termination := value)]
  }

  /**
   The two environment assumptions are the guards of CreatePool and CreateClaim: no NodePool is created once
   the HostedControlPlane has a DeletionTimestamp, and a NodeClaim is created only while some NodePool exists.
   */
  function Apply(w: World, a: Action): World {
    match a
    case CreateHcp(fs, id) => w.(hcp := Create(w.hcp, fs, id))
    case DeleteHcp => w.(hcp := Delete(w.hcp))
    case SetHcpFinalizers(fs) => w.(hcp := SetFinalizers(w.hcp, fs))
    case SetHcpSpec(id) => w.(hcp := SetSpec(w.hcp, id))
    case SetCapi(n, d) => w.(capi := w.capi[n := d])
    case RemoveCapi(n) => w.(capi := w.capi - {n})
    case CreatePool(n, h) =>
      if HcpDeleting(w) || n in w.pools then w else w.(pools := w.pools[n := NodePool(false, h)])
    case DeletePool(n) => w.(pools := PoolDeleted(w.pools, n))
    case HoldPool(n, h) =>
      if n !in w.pools then w
      else if !h && w.pools[n].deleting then w.(pools := w.pools - {n})
      else w.(pools := w.pools[n := w.pools[n].(held := h)])
    case CreateClaim(n, h) =>
      if w.pools == map[] || n in w.claims then w else w.(claims := w.claims[n := NodeClaim(None, "", h)])
    case DeleteClaim(n, at) => w.(claims := ClaimDeleted(w.claims, n, at))
    case HoldClaim(n, h) =>
      if n !in w.claims then w
      else if !h && w.claims[n].deletedAt.Some? then w.(claims := w.claims - {n})
      else w.(claims := w.claims[n := w.claims[n].(held := h)])
    case Annotate(n, v) => w.(claims := Annotated(w.claims, n, v))
  }

  function Play(w: World, acts: seq<Action>): World
    decreases |acts|
  {
    if acts == [] then w else Play(Apply(w, acts[0]), acts[1..])
  }

  lemma ApplyLater(w: World, a: Action)
    requires Valid(w.hcp)
    ensures Valid(Apply(w, a).hcp) && Later(w.hcp, Apply(w, a).hcp)
  {
    match a
    case CreateHcp(fs, id) => CreateSteps(w.hcp, fs, id);
    case DeleteHcp =>
      if w.hcp.live.Some? { PutSteps(w.hcp, true, w.hcp.live.value.finalizers, w.hcp.live.value.spec); }
    case SetHcpFinalizers(fs) =>
      if w.hcp.live.Some? { PutSteps(w.hcp, w.hcp.live.value.deleting, fs, w.hcp.live.value.spec); }
    case SetHcpSpec(id) =>
      if w.hcp.live.Some? { PutSteps(w.hcp, w.hcp.live.value.deleting, w.hcp.live.value.finalizers, id); }
    case _ =>
      assert Apply(w, a).hcp == w.hcp;
  }

  lemma {:induction false} PlayLater(w: World, acts: seq<Action>)
    requires Valid(w.hcp)
    ensures Valid(Play(w, acts).hcp) && Later(w.hcp, Play(w, acts).hcp)
    decreases |acts|
  {
    if acts != [] {
      ApplyLater(w, acts[0]);
      PlayLater(Apply(w, acts[0]), acts[1..]);
      LaterTransitive(w.hcp, Apply(w, acts[0]).hcp, Play(w, acts).hcp);
    }
  }

  // ---- What an emptied cluster stays: the rely condition of the drain ----

  /** As long as `hcp` is still the current version, no NodePool is left. */
  ghost predicate PoolsGone(w: World, hcp: Object<string>) {
    w.hcp.live == Some(hcp) ==> w.pools == map[]
  }

  /** As long as `hcp` is still the current version, nothing is left to drain. */
  ghost predicate Drained(w: World, hcp: Object<string>) {
    w.hcp.live == Some(hcp) ==> w.pools == map[] && w.claims == map[]
  }

  /** Once the version that was read is deleting, emptiness survives whatever the others do. */
  lemma {:induction false} PlayKeepsDrained(w: World, acts: seq<Action>, hcp: Object<string>)
    requires Valid(w.hcp) && Seen(w.hcp, hcp) && hcp.deleting
    ensures PoolsGone(w, hcp) ==> PoolsGone(Play(w, acts), hcp)
    ensures Drained(w, hcp) ==> Drained(Play(w, acts), hcp)
    decreases |acts|
  {
    if acts != [] {
      var w' := Apply(w, acts[0]);
      ApplyLater(w, acts[0]);
      assert w'.hcp.live == Some(hcp) ==> w.hcp.live == Some(hcp);
      PlayKeepsDrained(w', acts[1..], hcp);
    }
  }

  // ---- The drain measure ----

  ghost function LivePools(w: World): set<string> {
    set n | n in w.pools && !w.pools[n].deleting
  }

  ghost function LiveClaims(w: World): set<string> {
    set n | n in w.claims && w.claims[n].deletedAt.None?
  }

  /** The NodeClaims that are not yet both deleting and annotated for forceful termination. */
  ghost function UnsettledClaims(w: World): set<string> {
    set n | n in w.claims && (w.claims[n].deletedAt.None? || w.claims[n].termination == "")
  }

  /** Sum over the NodeClaims of 2 when live, 1 when deleting but not annotated, 0 when both. */
  ghost function ClaimWork(w: World): nat {
    |LiveClaims(w)| + |UnsettledClaims(w)|
  }

  ghost predicate NotMore(w': World, w: World) {
    |LivePools(w')| < |LivePools(w)| || (|LivePools(w')| == |LivePools(w)| && ClaimWork(w') <= ClaimWork(w))
  }

  ghost predicate Less(w': World, w: World) {
    |LivePools(w')| < |LivePools(w)| || (|LivePools(w')| == |LivePools(w)| && ClaimWork(w') < ClaimWork(w))
  }

  /** Object by object, `w'` is at least as far drained as `w`. */
  ghost predicate Further(w: World, w': World) {
    && w'.pools.Keys <= w.pools.Keys && LivePools(w') <= LivePools(w)
    && w'.claims.Keys <= w.claims.Keys && LiveClaims(w') <= LiveClaims(w)
    && UnsettledClaims(w') <= UnsettledClaims(w)
  }

  /** An action that neither creates a NodePool or NodeClaim nor clears a termination annotation. */
  predicate Calm(a: Action) {
    !a.CreatePool? && !a.CreateClaim? && (a.Annotate? ==> a.value != "")
  }

  predicate AllCalm(acts: seq<Action>) {
    forall i :: 0 <= i < |acts| ==> Calm(acts[i])
  }

  lemma ApplyCalm(w: World, a: Action)
    requires Calm(a)
    ensures Further(w, Apply(w, a))
  {
    match a
    case DeletePool(n) => DeletingPoolDrains(w, n);
    case DeleteClaim(n, at) => DeletingClaimDrains(w, n, at);
    case _ =>
  }

  lemma {:induction false} PlayCalm(w: World, acts: seq<Action>)
    requires AllCalm(acts)
    ensures Further(w, Play(w, acts))
    decreases |acts|
  {
    if acts != [] {
      assert Calm(acts[0]);
      ApplyCalm(w, acts[0]);
      PlayCalm(Apply(w, acts[0]), acts[1..]);
    }
  }

  /** The controller's own writes drain, too. */
  lemma DeletingPoolDrains(w: World, n: string)
    ensures var w' := w.(pools := PoolDeleted(w.pools, n)); Further(w, w') && n !in LivePools(w')
  {}

  lemma DeletingClaimDrains(w: World, n: string, at: Timestamp)
    ensures var w' := w.(claims := ClaimDeleted(w.claims, n, at)); Further(w, w') && n !in LiveClaims(w')
  {}

  lemma AnnotatingDrains(w: World, n: string, at: Timestamp)
    ensures var w' := w.(claims := Annotated(w.claims, n, at));
            Further(w, w') && (n !in LiveClaims(w) ==> n !in UnsettledClaims(w'))
  {}

  lemma FurtherTransitive(a: World, b: World, c: World)
    requires Further(a, b) && Further(b, c)
    ensures Further(a, c)
  {}

  lemma SubsetSize<T>(a: set<T>, b: set<T>)
    requires a <= b
    ensures |a| <= |b| && (|a| == |b| ==> a == b)
  {
    assert b == a + (b - a);
  }

  lemma FurtherNotMore(w: World, w': World)
    requires Further(w, w')
    ensures NotMore(w', w)
  {
    SubsetSize(LivePools(w'), LivePools(w));
    SubsetSize(LiveClaims(w'), LiveClaims(w));
    SubsetSize(UnsettledClaims(w'), UnsettledClaims(w));
  }

  /**
   What one error-free cleanup pass achieves among calm others: with live NodePools, none is live afterwards;
   with no NodePool at all, no NodeClaim is live and each that was already deleting is annotated.
   */
  ghost predicate Pass(w: World, w': World) {
    && Further(w, w')
    && (LivePools(w) != {} ==> LivePools(w') == {})
    && (w.pools == map[] ==> LiveClaims(w') == {} && UnsettledClaims(w') <= LiveClaims(w))
  }

  /** The cases in which a pass has nothing to do: NodePools that are all deleting, or claims that are all settled. */
  ghost predicate WaitsForOthers(w: World) {
    && LivePools(w) == {}
    && (w.pools != map[] || UnsettledClaims(w) == {})
  }

  /** A pass never raises the measure, and lowers it strictly unless it only waits for others. */
  lemma PassLowersMeasure(w: World, w': World)
    requires Pass(w, w')
    ensures NotMore(w', w)
    ensures WaitsForOthers(w) || Less(w', w)
  {
    FurtherNotMore(w, w');
    if LivePools(w) == {} && !WaitsForOthers(w) {
      SubsetSize(UnsettledClaims(w'), LiveClaims(w));
      assert UnsettledClaims(w) != {};
    }
  }

  /** Convergence: with the NodePools gone, two passes settle every NodeClaim, however many there are. */
  lemma TwoPassesSettle(w0: World, w1: World, w2: World, w3: World)
    requires w0.pools == map[] && Pass(w0, w1) && Further(w1, w2) && Pass(w2, w3)
    ensures UnsettledClaims(w3) == {}
    ensures forall n :: n in w3.claims ==> w3.claims[n].deletedAt.Some? && w3.claims[n].termination != ""
  {
    assert w2.pools.Keys == {};
    assert w2.pools == map[];
    forall n | n in w3.claims ensures w3.claims[n].deletedAt.Some? && w3.claims[n].termination != "" {
      assert n !in UnsettledClaims(w3);
    }
  }

  /** An error-free cleanup pass: the world right before and right after it. */
  datatype Drain = Drain(before: World, after: World)

  ghost predicate IsPass(d: Drain) {
    Pass(d.before, d.after)
  }

  ghost predicate Drains(a: Drain, b: Drain) {
    Further(a.after, b.before)
  }

  /** A run of passes among calm others, however much these drain in between. */
  ghost predicate DrainRun(passes: seq<Drain>) {
    Chain(passes, IsPass, Drains)
  }

  /** The passes so far are those of such a run, and the world is one that calm others may have left since. */
  ghost predicate Converging(passes: seq<Drain>, w: World) {
    DrainRun(passes) && (passes != [] ==> Further(passes[|passes| - 1].after, w))
  }

  lemma ConvergingOn(passes: seq<Drain>, w: World, w': World)
    ensures Converging(passes, w) && Further(w, w') ==> Converging(passes, w')
  {
    if passes != [] && Converging(passes, w) && Further(w, w') {
      FurtherTransitive(passes[|passes| - 1].after, w, w');
    }
  }

  lemma ConvergingPass(passes: seq<Drain>, w: World, w': World)
    ensures Converging(passes, w) && Pass(w, w') ==> Converging(passes + [Drain(w, w')], w')
  {
    if Converging(passes, w) && Pass(w, w') {
      ChainNext(passes, IsPass, Drains, Drain(w, w'));
    }
  }

  lemma {:induction false} FurtherAcross(passes: seq<Drain>, i: nat, j: nat)
    requires DrainRun(passes) && i < j < |passes|
    ensures IsPass(passes[i]) && IsPass(passes[j]) && Drains(passes[i], passes[j])
    decreases j
  {
    ChainAt(passes, IsPass, Drains, j);
    if i < j - 1 {
      FurtherAcross(passes, i, j - 1);
      FurtherTransitive(passes[i].after, passes[j - 1].before, passes[j - 1].after);
      FurtherTransitive(passes[i].after, passes[j - 1].after, passes[j].before);
    } else {
      ChainAt(passes, IsPass, Drains, i);
    }
  }

  /**
   Convergence of the whole drain: whatever the number of NodePools and NodeClaims, of any four error-free passes among
   calm others at least one only waits, so no more than three passes in a run have work to do.
   */
  lemma AtMostThreePassesWork(passes: seq<Drain>, i: nat, j: nat, k: nat, l: nat)
    requires DrainRun(passes) && i < j < k < l < |passes|
    ensures WaitsForOthers(passes[i].before) || WaitsForOthers(passes[j].before)
            || WaitsForOthers(passes[k].before) || WaitsForOthers(passes[l].before)
  {
    FurtherAcross(passes, i, j);
    FurtherAcross(passes, j, k);
    FurtherAcross(passes, k, l);
    assert LivePools(passes[i].after) == {};
    assert LivePools(passes[j].before) == LivePools(passes[k].before) == LivePools(passes[l].before) == {};
    if passes[j].before.pools == map[] && passes[k].before.pools == map[] {
      assert LiveClaims(passes[k].before) <= LiveClaims(passes[j].after) == {};
      assert UnsettledClaims(passes[l].before) <= UnsettledClaims(passes[k].after) == {};
      NoneLeft(passes[k].before, passes[l].before);
    }
  }

  /** Whichever four passes are picked, one of them only waits. */
  ghost predicate ThreePassesWork(passes: seq<Drain>) {
    forall i, j, k, l :: 0 <= i < j < k < l < |passes| ==>
      WaitsForOthers(passes[i].before) || WaitsForOthers(passes[j].before)
      || WaitsForOthers(passes[k].before) || WaitsForOthers(passes[l].before)
  }

  lemma DrainConverges(passes: seq<Drain>)
    requires DrainRun(passes)
    ensures ThreePassesWork(passes)
  {
    forall i, j, k, l | 0 <= i < j < k < l < |passes|
      ensures WaitsForOthers(passes[i].before) || WaitsForOthers(passes[j].before)
              || WaitsForOthers(passes[k].before) || WaitsForOthers(passes[l].before)
    {
      AtMostThreePassesWork(passes, i, j, k, l);
    }
  }

  lemma NoneLeft(w: World, w': World)
    requires w.pools == map[] && w'.pools.Keys <= w.pools.Keys
    ensures w'.pools == map[]
  {
    assert w'.pools.Keys == {};
  }

  // ---- The termination patch is not locked ----

  /** A patch that arrives now replaces no non-empty annotation of the claim. */
  predicate Bare(w: World, n: string) {
    n in w.claims ==> w.claims[n].termination == ""
  }

  /** The i-th action sets an annotation on the claim while it exists. */
  predicate AnnotatesAt(w: World, acts: seq<Action>, n: string, i: nat)
    requires i < |acts|
  {
    acts[i].Annotate? && acts[i].name == n && acts[i].value != "" && n in Play(w, acts[..i]).claims
  }

  /** The i-th action clears the annotation or leaves no claim of this name. */
  predicate ClearsAt(w: World, acts: seq<Action>, n: string, i: nat)
    requires i < |acts|
  {
    acts[i] == Annotate(n, "") || n !in Play(w, acts[..i + 1]).claims
  }

  /** One of the first `k` actions annotates the claim, and none of the later ones undoes it. */
  ghost predicate AnnotatedBy(w: World, acts: seq<Action>, n: string, k: nat)
    requires k <= |acts|
  {
    exists i :: 0 <= i < k && AnnotatesAt(w, acts, n, i) && NotCleared(w, acts, n, i + 1, k)
  }

  ghost predicate NotCleared(w: World, acts: seq<Action>, n: string, from: nat, k: nat)
    requires k <= |acts|
  {
    forall j :: from <= j < k ==> !ClearsAt(w, acts, n, j)
  }

  lemma {:induction false} PlayNext(w: World, acts: seq<Action>, i: nat)
    requires i < |acts|
    ensures Play(w, acts[..i + 1]) == Apply(Play(w, acts[..i]), acts[i])
    decreases |acts|
  {
    if i == 0 {
      assert acts[..1] == [acts[0]] && [acts[0]][1..] == [];
    } else {
      assert acts[..i + 1][1..] == acts[1..][..i] && acts[..i][1..] == acts[1..][..i - 1];
      PlayNext(Apply(w, acts[0]), acts[1..], i - 1);
    }
  }

  /** One action changes whether the claim carries an annotation only by setting, clearing or removing it. */
  lemma ApplyBare(w: World, a: Action, n: string)
    ensures !Bare(Apply(w, a), n) <==>
              (a.Annotate? && a.name == n && a.value != "" && n in w.claims)
              || (!Bare(w, n) && a != Annotate(n, "") && n in Apply(w, a).claims)
  {}

  /** After `k` actions of the others a patch would overwrite an annotation, if and only if one of them set it for good. */
  lemma {:induction false} OverwritesIffAnnotated(w: World, acts: seq<Action>, n: string, k: nat)
    requires Bare(w, n) && k <= |acts|
    ensures !Bare(Play(w, acts[..k]), n) <==> AnnotatedBy(w, acts, n, k)
  {
    if k == 0 {
      assert acts[..0] == [];
    } else {
      OverwritesIffAnnotated(w, acts, n, k - 1);
      PlayNext(w, acts, k - 1);
      ApplyBare(Play(w, acts[..k - 1]), acts[k - 1], n);
      AnnotatedNext(w, acts, n, k - 1);
    }
  }

  lemma AnnotatedNext(w: World, acts: seq<Action>, n: string, k: nat)
    requires k < |acts|
    ensures AnnotatedBy(w, acts, n, k + 1) <==> AnnotatesAt(w, acts, n, k) || (AnnotatedBy(w, acts, n, k) && !ClearsAt(w, acts, n, k))
  {
    if AnnotatesAt(w, acts, n, k) {
      assert NotCleared(w, acts, n, k + 1, k + 1);
    }
    if AnnotatedBy(w, acts, n, k) && !ClearsAt(w, acts, n, k) {
      var i :| 0 <= i < k && AnnotatesAt(w, acts, n, i) && NotCleared(w, acts, n, i + 1, k);
      assert NotCleared(w, acts, n, i + 1, k + 1);
    }
    if AnnotatedBy(w, acts, n, k + 1) && !AnnotatesAt(w, acts, n, k) {
      var i :| 0 <= i < k + 1 && AnnotatesAt(w, acts, n, i) && NotCleared(w, acts, n, i + 1, k + 1);
      assert NotCleared(w, acts, n, i + 1, k);
    }
  }

  /** A successful termination patch: the world that was listed, what the others did since, and the value it replaced. */
  datatype Patch = Patch(name: string, listed: World, since: seq<Action>, replaced: string)

  /**
   The controller patches only claims that it listed as deleting and not annotated, and the patch overwrites an
   annotation if and only if the others annotated the claim since then, and undid that neither by clearing the
   annotation nor by letting the claim go.
   */
  ghost predicate SoundPatch(p: Patch) {
    && p.name in p.listed.claims
    && p.listed.claims[p.name].deletedAt.Some? && p.listed.claims[p.name].termination == ""
    && (p.replaced != "" <==> AnnotatedBy(p.listed, p.since, p.name, |p.since|))
  }

  ghost predicate SoundPatches(patches: seq<Patch>) {
    forall i :: 0 <= i < |patches| ==> SoundPatch(patches[i])
  }

  /** The others leave the termination annotation of NodeClaims alone. */
  predicate LeavesAnnotations(acts: seq<Action>) {
    forall i :: 0 <= i < |acts| ==> !acts[i].Annotate?
  }

  /** A list of NodeClaims that the controller works through, and what the others did since. */
  datatype Listing = Listing(world: World, since: seq<Action>)

  /** Apart from what the controller did to other claims, the world is the listed one after the others' actions. */
  ghost predicate Agree(w: World, w': World, names: set<string>) {
    w.hcp == w'.hcp && w.pools == w'.pools && forall n :: n in names ==> SameClaim(w, w', n)
  }

  predicate SameClaim(w: World, w': World, n: string) {
    (n in w.claims <==> n in w'.claims) && (n in w.claims ==> w.claims[n] == w'.claims[n])
  }

  ghost predicate Tracks(l: Listing, w: World, names: set<string>) {
    Agree(Play(l.world, l.since), w, names)
  }

  lemma ApplySame(w: World, w': World, a: Action, n: string)
    requires w.hcp == w'.hcp && w.pools == w'.pools && SameClaim(w, w', n)
    ensures SameClaim(Apply(w, a), Apply(w', a), n)
  {}

  lemma ApplyAgree(w: World, w': World, a: Action, names: set<string>)
    requires Agree(w, w', names)
    ensures Agree(Apply(w, a), Apply(w', a), names)
  {
    forall n | n in names ensures SameClaim(Apply(w, a), Apply(w', a), n) { ApplySame(w, w', a, n); }
    ApplySameElsewhere(w, w', a);
  }

  lemma ApplySameElsewhere(w: World, w': World, a: Action)
    requires w.hcp == w'.hcp && w.pools == w'.pools
    ensures Apply(w, a).hcp == Apply(w', a).hcp && Apply(w, a).pools == Apply(w', a).pools
  {}

  lemma {:induction false} PlayAgree(w: World, w': World, acts: seq<Action>, names: set<string>)
    requires Agree(w, w', names)
    ensures Agree(Play(w, acts), Play(w', acts), names)
    decreases |acts|
  {
    if acts != [] {
      ApplyAgree(w, w', acts[0], names);
      PlayAgree(Apply(w, acts[0]), Apply(w', acts[0]), acts[1..], names);
    }
  }

  lemma {:induction false} PlayAppend(w: World, a: seq<Action>, b: seq<Action>)
    ensures Play(w, a + b) == Play(Play(w, a), b)
    decreases |a|
  {
    if a == [] {
      assert a + b == b;
    } else {
      assert (a + b)[1..] == a[1..] + b;
      PlayAppend(Apply(w, a[0]), a[1..], b);
    }
  }

  /** The others' actions are accounted for. */
  lemma TracksOthers(l: Listing, w: World, acts: seq<Action>, names: set<string>)
    requires Tracks(l, w, names)
    ensures Tracks(Listing(l.world, l.since + acts), Play(w, acts), names)
  {
    PlayAppend(l.world, l.since, acts);
    PlayAgree(Play(l.world, l.since), w, acts, names);
  }

  /** The controller's own writes touch one claim. */
  lemma TracksOwn(l: Listing, w: World, n: string, at: Timestamp, names: set<string>)
    requires Tracks(l, w, names)
    ensures Tracks(l, w.(claims := ClaimDeleted(w.claims, n, at)), names - {n})
    ensures Tracks(l, w.(claims := Annotated(w.claims, n, at)), names - {n})
  {}

  /** What the patch of a listed claim replaces. */
  lemma ReplacedIsSound(l: Listing, w: World, n: string, names: set<string>)
    requires Tracks(l, w, names) && n in names && n in w.claims
    requires n in l.world.claims && l.world.claims[n].deletedAt.Some? && l.world.claims[n].termination == ""
    ensures SoundPatch(Patch(n, l.world, l.since, w.claims[n].termination))
    ensures LeavesAnnotations(l.since) ==> w.claims[n].termination == ""
  {
    OverwritesIffAnnotated(l.world, l.since, n, |l.since|);
    assert l.since[..|l.since|] == l.since;
  }

  /** For instance: the others postpone the termination of a deleting claim, and the patch puts it back. */
  lemma UnlockedPatchOverwrites()
    ensures var listed := NodeClaim(Some("2026-01-01T00:00:00Z"), "", true);
            var w := World(Store(None, []), map[], map[], map["worker" := listed]);
            var w' := Play(w, [Annotate("worker", "2026-01-01T00:05:00Z")]);
            && w'.claims["worker"].termination == "2026-01-01T00:05:00Z"
            && Annotated(w'.claims, "worker", listed.deletedAt.value)["worker"].termination == "2026-01-01T00:00:00Z"
  {
    var listed := NodeClaim(Some("2026-01-01T00:00:00Z"), "", true);
    var w := World(Store(None, []), map[], map[], map["worker" := listed]);
    var act := Annotate("worker", "2026-01-01T00:05:00Z");
    assert Play(w, [act]) == Play(Apply(w, act), []) == Apply(w, act);
  }

  // ---- What a pass does when nobody interferes ----

  /** The NodePools after each of `done` that was live got deleted. */
  function PoolsAfter(pools: map<string, NodePool>, done: set<string>): map<string, NodePool> {
    map n | n in pools && (n !in done || pools[n].deleting || pools[n].held)
      :: if n in done then pools[n].(deleting := true) else pools[n]
  }

  lemma PoolsAfterNext(pools: map<string, NodePool>, done: set<string>, n: string)
    requires n in pools && n !in done
    ensures PoolsAfter(pools, done + {n}) ==
            if pools[n].deleting then PoolsAfter(pools, done) else PoolDeleted(PoolsAfter(pools, done), n)
  {}

  /**
   The NodeClaims after the pass treated `done`: live ones are deleted, deleting ones without an annotation are
   annotated with their own DeletionTimestamp, and a NodeClaim with an annotation is left alone.
   */
  ghost predicate ClaimsAfter(claims: map<string, NodeClaim>, claims': map<string, NodeClaim>, done: set<string>) {
    && (forall n :: n in claims' <==>
          n in claims && (n !in done || claims[n].deletedAt.Some? || claims[n].held))
    && (forall n :: n in claims' ==>
          if n !in done then claims'[n] == claims[n]
          else if claims[n].deletedAt.None? then
            claims'[n].deletedAt.Some? && claims'[n] == claims[n].(deletedAt := claims'[n].deletedAt)
          else if claims[n].termination == "" then
            claims'[n] == claims[n].(termination := claims[n].deletedAt.value)
          else claims'[n] == claims[n])
  }

  lemma ClaimsAfterNext(claims: map<string, NodeClaim>, c1: map<string, NodeClaim>, c2: map<string, NodeClaim>,
                        done: set<string>, n: string, at: Timestamp)
    requires ClaimsAfter(claims, c1, done) && n in claims && n !in done
    requires c2 == if claims[n].deletedAt.None? then ClaimDeleted(c1, n, at)
                   else if claims[n].termination == "" then Annotated(c1, n, claims[n].deletedAt.value)
                   else c1
    ensures ClaimsAfter(claims, c2, done + {n})
  {}

  predicate ClusterDeleting(w: World) {
    && w.hcp.live.Some?
    && var o := w.hcp.live.value;
       o.deleting || (o.spec != "" && o.spec in w.capi && w.capi[o.spec])
  }

  /** The whole effect of one undisturbed cleanup pass: NodePools first, NodeClaims once no NodePool is left. */
  ghost predicate CleanedUp(w: World, w': World) {
    if w.pools != map[] then w' == w.(pools := PoolsAfter(w.pools, w.pools.Keys))
    else w' == w.(claims := w'.claims) && ClaimsAfter(w.claims, w'.claims, w.claims.Keys)
  }

  /** The whole effect of one undisturbed reconcile. */
  ghost predicate Reconciled(w: World, w': World) {
    if w.hcp.live.None? then w' == w
    else
      var o := w.hcp.live.value;
      if !ClusterDeleting(w) then
        w' == if FINALIZER in o.finalizers then w
              else w.(hcp := SetFinalizers(w.hcp, o.finalizers + [FINALIZER]))
      else if FINALIZER !in o.finalizers then w' == w
      else if w.pools != map[] || w.claims != map[] then CleanedUp(w, w')
      else
        w' == if o.deleting then w.(hcp := SetFinalizers(w.hcp, RemoveFinalizer(o.finalizers, FINALIZER))) else w
  }

  // ---- The finalizer writes of the controller ----

  /** A successful finalizer patch, with the state right before and right after it. */
  datatype Write = Write(change: Change, before: World, after: World)

  function HcpWrite(e: Write): StoreWrite<string> {
    StoreWrite(e.change, e.before.hcp, e.after.hcp)
  }

  /** A sound write of the HostedControlPlane and of nothing else; it lets it go only when the cluster is empty. */
  ghost predicate Sound(e: Write) {
    && SoundWrite(HcpWrite(e), FINALIZER) && !e.change.OtherWrite?
    && e.after == e.before.(hcp := e.after.hcp)
    && (e.change.RemovedFinalizer? ==> e.before.pools == map[] && e.before.claims == map[])
  }

  ghost predicate Follows(a: Write, b: Write) {
    Later(a.after.hcp, b.before.hcp)
  }

  ghost predicate SoundLog(writes: seq<Write>) {
    Chain(writes, Sound, Follows)
  }

  /** The log as one of the HostedControlPlane alone. */
  function HcpLog(writes: seq<Write>): seq<StoreWrite<string>> {
    seq(|writes|, i requires 0 <= i < |writes| => HcpWrite(writes[i]))
  }

  lemma HcpLogIsSound(writes: seq<Write>)
    requires SoundLog(writes)
    ensures SoundWrites(HcpLog(writes), FINALIZER)
  {
    var log := HcpLog(writes);
    forall i | 0 <= i < |writes| ensures SoundWrite(log[i], FINALIZER) && (i > 0 ==> Later(log[i - 1].after, log[i].before)) {
      ChainAt(writes, Sound, Follows, i);
    }
  }

  /** At the step that lets the HostedControlPlane go, it is being deleted and the hosted cluster is empty. */
  lemma ReleasedOnlyWhenDrained(writes: seq<Write>, i: nat)
    requires SoundLog(writes) && i < |writes| && writes[i].change.RemovedFinalizer?
    ensures HcpDeleting(writes[i].before)
    ensures writes[i].before.pools == map[] && writes[i].before.claims == map[]
  {
    ChainAt(writes, Sound, Follows, i);
  }
}
