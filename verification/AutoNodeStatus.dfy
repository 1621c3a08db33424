/**
 HostedControlPlane.Status.AutoNode: node, NodeClaim and vCPU counts of the hosted cluster, recomputed only on events
 that the watch predicates let through.
 */
module AutoNodeStatus {
  import opened Wrappers
  import opened Collections

  /** A Node: its name, whether it carries the NodePool label, and everything else about it. */
  datatype Node = Node(name: string, labelled: bool, rest: string)

  /** A NodeClaim; `cpu`: its CPU capacity in billionths of a core (the finest a Quantity holds), absent before the node registers. */
  datatype NodeClaim = NodeClaim(name: string, nodeName: string, cpu: Option<int>, rest: string)

  // ---- Machine integers ----

  const TWO32: int := 0x1_0000_0000
  const TWO64: int := 0x1_0000_0000_0000_0000

  function ToInt32(n: int): (r: int)
    ensures -0x8000_0000 <= r < 0x8000_0000
  {
    (n + 0x8000_0000) % TWO32 - 0x8000_0000
  }

  function ToInt64(n: int): int {
    (n + 0x8000_0000_0000_0000) % TWO64 - 0x8000_0000_0000_0000
  }

  /** Two integers that are equal modulo 2^64 convert to the same int32. */
  lemma SameModulo(a: int, b: int, q: int)
    requires a == b + q * TWO64
    ensures ToInt32(a) == ToInt32(b)
  {
    assert a + 0x8000_0000 == b + 0x8000_0000 + (q * TWO32) * TWO32;
    AddMultiple(b + 0x8000_0000, q * TWO32);
  }

  lemma AddMultiple(n: int, k: int)
    ensures (n + k * TWO32) % TWO32 == n % TWO32
  {}

  lemma ToInt64Quotient(n: int) returns (q: int)
    ensures ToInt64(n) == n + q * TWO64
  {
    q := -((n + 0x8000_0000_0000_0000) / TWO64);
  }

  // ---- The status ----

  /** Quantity.Value(): whole cores, rounded away from zero. */
  function Cores(cpu: int): (c: int)
    ensures cpu >= 0 ==> (c - 1) * 1_000_000_000 < cpu <= c * 1_000_000_000
    ensures cpu < 0 ==> c * 1_000_000_000 <= cpu < (c + 1) * 1_000_000_000
  {
    if cpu < 0 then -((-cpu + 999_999_999) / 1_000_000_000) else (cpu + 999_999_999) / 1_000_000_000
  }

  function Names(nodes: seq<Node>): set<string> {
    set i | 0 <= i < |nodes| :: nodes[i].name
  }

  /** What one NodeClaim adds: nothing unless its Node exists and its capacity is known. */
  function VCPUs(claim: NodeClaim, live: set<string>): int {
    if claim.nodeName in live && claim.cpu.Some? then Cores(claim.cpu.value) else 0
  }

  function SumVCPUs(claims: seq<NodeClaim>, live: set<string>): int {
    Sum(claims, Weight(live))
  }

  function Weight(live: set<string>): NodeClaim -> int {
    (claim: NodeClaim) => VCPUs(claim, live)
  }

  function Labelled(node: Node): int {
    if node.labelled then 1 else 0
  }

  function CountLabelled(nodes: seq<Node>): int {
    Sum(nodes, Labelled)
  }

  datatype Status = Status(nodeCount: int, nodeClaimCount: int, vcpus: int)

  /** Recomputation from scratch. */
  function Computed(nodes: seq<Node>, claims: seq<NodeClaim>): Status {
    Status(ToInt32(CountLabelled(nodes)), ToInt32(|claims|), ToInt32(SumVCPUs(claims, Names(nodes))))
  }

  /** sumNodeClaimVCPUs: an int64 accumulator, narrowed at the end. */
  method SumNodeClaimVCPUs(claims: seq<NodeClaim>, live: set<string>) returns (vcpus: int)
    ensures vcpus == ToInt32(SumVCPUs(claims, live))
  {
    var total := 0;
    ghost var q := 0;
    for i := 0 to |claims|
      invariant total == SumVCPUs(claims[..i], live) + q * TWO64
    {
      SumNext(claims, Weight(live), i);
      if claims[i].nodeName !in live { continue; }
      if claims[i].cpu.Some? {
        ghost var p := ToInt64Quotient(total + Cores(claims[i].cpu.value));
        total := ToInt64(total + Cores(claims[i].cpu.value));
        q := q + p;
      }
    }
    assert claims[..|claims|] == claims;
    SameModulo(total, SumVCPUs(claims, live), q);
    return ToInt32(total);
  }

  /** The vCPU value is the exact sum if and only if that fits in an int32, intermediate overflow included. */
  lemma VCPUsExactIffTheyFit(nodes: seq<Node>, claims: seq<NodeClaim>)
    ensures var sum := SumVCPUs(claims, Names(nodes));
            Computed(nodes, claims).vcpus == sum <==> -0x8000_0000 <= sum < 0x8000_0000
  {}

  lemma NamesNext(nodes: seq<Node>, i: nat)
    requires i < |nodes|
    ensures Names(nodes[..i + 1]) == Names(nodes[..i]) + {nodes[i].name}
  {
    var next := nodes[..i + 1];
    assert next[i] == nodes[i];
    assert forall j :: 0 <= j < i ==> next[j] == nodes[..i][j];
  }

  lemma CountNext32(nodes: seq<Node>, i: nat)
    requires i < |nodes|
    ensures ToInt32(CountLabelled(nodes[..i + 1])) ==
              if nodes[i].labelled then ToInt32(ToInt32(CountLabelled(nodes[..i])) + 1) else ToInt32(CountLabelled(nodes[..i]))
  {
    SumNext(nodes, Labelled, i);
    ToInt32Next(CountLabelled(nodes[..i]));
  }

  /** Counting up in an int32 wraps as the exact count does. */
  lemma ToInt32Next(n: int)
    ensures ToInt32(ToInt32(n) + 1) == ToInt32(n + 1)
  {
    var q := (n + 0x8000_0000) / TWO32;
    assert ToInt32(n) == n - q * TWO32;
    AddMultiple(n + 1 + 0x8000_0000, -q);
    assert ToInt32(n) + 1 + 0x8000_0000 == n + 1 + 0x8000_0000 + -q * TWO32;
  }

  /** The node loop of reconcileAutoNodeStatus. */
  method CountNodes(nodes: seq<Node>) returns (live: set<string>, count: int)
    ensures live == Names(nodes) && count == ToInt32(CountLabelled(nodes))
  {
    live, count := {}, 0;
    for i := 0 to |nodes|
      invariant live == Names(nodes[..i]) && count == ToInt32(CountLabelled(nodes[..i]))
    {
      NamesNext(nodes, i);
      CountNext32(nodes, i);
      live := live + {nodes[i].name};
      if nodes[i].labelled { count := ToInt32(count + 1); }
    }
    assert nodes[..|nodes|] == nodes;
  }

  predicate Exists(nodes: seq<Node>, name: string) {
    exists i :: 0 <= i < |nodes| && nodes[i].name == name
  }

  /** The claims whose Node exists and whose capacity is known. */
  function Counted(nodes: seq<Node>): NodeClaim -> bool {
    (claim: NodeClaim) => claim.cpu.Some? && Exists(nodes, claim.nodeName)
  }

  function CoresOf(claim: NodeClaim): int {
    if claim.cpu.Some? then Cores(claim.cpu.value) else 0
  }

  function HasLabel(node: Node): bool {
    node.labelled
  }

  function One(node: Node): int {
    1
  }

  /** Each count by itself: the labelled Nodes, the NodeClaims, and the cores of the claims that have a live Node. */
  lemma ComputedMeans(nodes: seq<Node>, claims: seq<NodeClaim>)
    ensures Computed(nodes, claims).nodeCount == ToInt32(|Filter(nodes, HasLabel)|)
    ensures Computed(nodes, claims).nodeClaimCount == ToInt32(|claims|)
    ensures Computed(nodes, claims).vcpus == ToInt32(Sum(Filter(claims, Counted(nodes)), CoresOf))
  {
    SumOfFilter(nodes, HasLabel, One, Labelled);
    SumOfOnes(Filter(nodes, HasLabel));
    forall claim: NodeClaim ensures Weight(Names(nodes))(claim) == if Counted(nodes)(claim) then CoresOf(claim) else 0 {
      assert claim.nodeName in Names(nodes) <==> Exists(nodes, claim.nodeName);
    }
    SumOfFilter(claims, Counted(nodes), CoresOf, Weight(Names(nodes)));
  }

  lemma {:induction false} SumOfOnes(nodes: seq<Node>)
    ensures Sum(nodes, One) == |nodes|
  {
    if nodes != [] {
      SumOfOnes(nodes[..|nodes| - 1]);
    }
  }

  /** reconcileAutoNodeStatus: `written` tells whether the status had to be applied. */
  method ReconcileAutoNodeStatus(nodes: seq<Node>, claims: seq<NodeClaim>, current: Status)
    returns (status: Status, written: bool)
    ensures status == Computed(nodes, claims) && written == (current != status)
    ensures status.nodeCount == ToInt32(|Filter(nodes, HasLabel)|) && status.nodeClaimCount == ToInt32(|claims|)
    ensures status.vcpus == ToInt32(Sum(Filter(claims, Counted(nodes)), CoresOf))
  {
    ComputedMeans(nodes, claims);
    var live, count := CountNodes(nodes);
    var vcpus := SumNodeClaimVCPUs(claims, live);
    var desired := Status(count, ToInt32(|claims|), vcpus);
    if current == desired { return current, false; }
    return desired, true;
  }

  // ---- The list order does not matter ----

  /** The computed status is a function of what exists, not of the order in which the API lists it. */
  lemma ComputedIsOrderIndependent(nodes: seq<Node>, nodes': seq<Node>, claims: seq<NodeClaim>, claims': seq<NodeClaim>)
    requires multiset(nodes) == multiset(nodes') && multiset(claims) == multiset(claims')
    ensures Computed(nodes, claims) == Computed(nodes', claims')
  {
    PermutedNodesCount(nodes, nodes');
    PermutedClaimsSum(nodes, claims, claims');
  }

  lemma SameNames(nodes: seq<Node>, nodes': seq<Node>)
    requires multiset(nodes) == multiset(nodes')
    ensures Names(nodes) <= Names(nodes')
  {
    forall i | 0 <= i < |nodes| ensures nodes[i].name in Names(nodes') {
      assert nodes[i] in multiset(nodes');
      var j :| 0 <= j < |nodes'| && nodes'[j] == nodes[i];
    }
  }

  // ---- The watch predicates ----

  /** nodeClaimPredicate on updates: an absent CPU capacity compares like an explicit zero. */
  predicate AcceptsClaimUpdate(before: NodeClaim, after: NodeClaim) {
    var cpu := (c: NodeClaim) => if c.cpu.Some? then c.cpu.value else 0;
    cpu(before) != cpu(after) || before.nodeName != after.nodeName
  }

  /** countChangePredicate on updates. */
  predicate AcceptsNodeUpdate(before: Node, after: Node) {
    before.labelled != after.labelled
  }

  lemma RejectedClaimUpdate(nodes: seq<Node>, claims: seq<NodeClaim>, i: nat, after: NodeClaim)
    requires i < |claims| && !AcceptsClaimUpdate(claims[i], after)
    ensures Computed(nodes, claims[i := after]) == Computed(nodes, claims)
  {
    SumUpdate(claims, Weight(Names(nodes)), i, after);
  }

  lemma RejectedNodeUpdate(nodes: seq<Node>, claims: seq<NodeClaim>, i: nat, after: Node)
    requires i < |nodes| && nodes[i].name == after.name && !AcceptsNodeUpdate(nodes[i], after)
    ensures Computed(nodes[i := after], claims) == Computed(nodes, claims)
  {
    RejectedNodeCounts(nodes, i, after);
  }

  /** Two lists of Nodes that count alike. */
  predicate SameNodes(a: seq<Node>, b: seq<Node>) {
    Names(a) == Names(b) && CountLabelled(a) == CountLabelled(b)
  }

  lemma RejectedNodeCounts(nodes: seq<Node>, i: nat, after: Node)
    requires i < |nodes| && nodes[i].name == after.name && !AcceptsNodeUpdate(nodes[i], after)
    ensures SameNodes(nodes[i := after], nodes)
  {
    SumUpdate(nodes, Labelled, i, after);
    var updated := nodes[i := after];
    assert forall j :: 0 <= j < |nodes| ==> updated[j].name == nodes[j].name;
    assert Names(nodes) == Names(updated);
  }

  lemma PermutedNodesCount(a: seq<Node>, b: seq<Node>)
    requires multiset(a) == multiset(b)
    ensures SameNodes(a, b)
  {
    SumOfPermutation(a, b, Labelled);
    SameNames(a, b);
    SameNames(b, a);
    assert Names(a) == Names(b);
  }

  lemma PermutedClaimsSum(nodes: seq<Node>, a: seq<NodeClaim>, b: seq<NodeClaim>)
    requires multiset(a) == multiset(b)
    ensures Computed(nodes, a) == Computed(nodes, b)
  {
    assert |a| == |multiset(a)| == |b|;
    SumOfPermutation(a, b, Weight(Names(nodes)));
  }

  // ---- Runs: the reads and the write of a reconcile, interleaved with every other event ----

  /** How far the reconcile in flight is: the status it read, the Nodes it listed, and the NodeClaims it listed. */
  datatype Flight =
    | Idle
    | Started
    | StatusRead(current: Status)
    | NodesListed(current: Status, nodes: seq<Node>)
    | BothListed(current: Status, nodes: seq<Node>, claims: seq<NodeClaim>)

  /** `pending`: an accepted event has enqueued a reconcile that was not taken off the queue yet. */
  datatype World = World(nodes: seq<Node>, claims: seq<NodeClaim>, status: Status, pending: bool, flight: Flight)

  datatype Event =
    | AddNode(node: Node) | RemoveNode(index: nat) | UpdateNode(index: nat, node: Node)
    | AddClaim(claim: NodeClaim) | RemoveClaim(index: nat) | UpdateClaim(index: nat, claim: NodeClaim)
    | OthersWriteStatus(status: Status)
    | Dequeue | ReadStatus | ListNodes(nodes: seq<Node>) | ListClaims(claims: seq<NodeClaim>) | Write | Fail

  /** The queue hands a request out to one worker at a time; a failed reconcile is enqueued again. Lists come in any order. */
  function Step(w: World, e: Event): World {
    match e
    case AddNode(n) => w.(nodes := w.nodes + [n], pending := true)
    case RemoveNode(i) =>
      if i >= |w.nodes| then w else w.(nodes := w.nodes[..i] + w.nodes[i + 1..], pending := true)
    case UpdateNode(i, n) =>
      if i >= |w.nodes| || w.nodes[i].name != n.name then w
      else w.(nodes := w.nodes[i := n], pending := w.pending || AcceptsNodeUpdate(w.nodes[i], n))
    case AddClaim(c) => w.(claims := w.claims + [c], pending := true)
    case RemoveClaim(i) =>
      if i >= |w.claims| then w else w.(claims := w.claims[..i] + w.claims[i + 1..], pending := true)
    case UpdateClaim(i, c) =>
      if i >= |w.claims| then w
      else w.(claims := w.claims[i := c], pending := w.pending || AcceptsClaimUpdate(w.claims[i], c))
    case OthersWriteStatus(s) => w.(status := s, pending := true)
    case Dequeue => if w.pending && w.flight.Idle? then w.(pending := false, flight := Started) else w
    case ReadStatus => if w.flight.Started? then w.(flight := StatusRead(w.status)) else w
    case ListNodes(listed) =>
      if w.flight.StatusRead? && multiset(listed) == multiset(w.nodes) then w.(flight := NodesListed(w.flight.current, listed))
      else w
    case ListClaims(listed) =>
      if w.flight.NodesListed? && multiset(listed) == multiset(w.claims) then
        w.(flight := BothListed(w.flight.current, w.flight.nodes, listed))
      else w
    case Write =>
      if !w.flight.BothListed? then w
      else
        var desired := Computed(w.flight.nodes, w.flight.claims);
        w.(status := if w.flight.current == desired then w.status else desired, flight := Idle)
    case Fail => if w.flight.Idle? then w else w.(pending := true, flight := Idle)
  }

  function Run(w: World, events: seq<Event>): World
    decreases |events|
  {
    if events == [] then w else Run(Step(w, events[0]), events[1..])
  }

  /** Without a pending event, the status is right or will be: whatever the reconcile in flight has seen still counts alike. */
  ghost predicate Fresh(w: World) {
    !w.pending ==>
      match w.flight
      case Idle => w.status == Computed(w.nodes, w.claims)
      case Started => true
      case StatusRead(current) => current == w.status
      case NodesListed(current, nodes) => current == w.status && SameNodes(nodes, w.nodes)
      case BothListed(current, nodes, claims) =>
        current == w.status && Computed(nodes, claims) == Computed(w.nodes, w.claims)
  }

  lemma StepKeepsFresh(w: World, e: Event)
    requires Fresh(w)
    ensures Fresh(Step(w, e))
  {
    match e
    case UpdateNode(i, n) =>
      if i < |w.nodes| && w.nodes[i].name == n.name && !AcceptsNodeUpdate(w.nodes[i], n) {
        RejectedNodeUpdate(w.nodes, w.claims, i, n);
        RejectedNodeCounts(w.nodes, i, n);
      }
    case UpdateClaim(i, c) =>
      if i < |w.claims| && !AcceptsClaimUpdate(w.claims[i], c) { RejectedClaimUpdate(w.nodes, w.claims, i, c); }
    case ListNodes(listed) =>
      if multiset(listed) == multiset(w.nodes) { PermutedNodesCount(listed, w.nodes); }
    case ListClaims(listed) =>
      if multiset(listed) == multiset(w.claims) { PermutedClaimsSum(w.nodes, listed, w.claims); }
    case _ =>
  }

  /** A failed attempt, and then the first calls of the next one. */
  const RETRY := [Fail, Dequeue, ReadStatus]

  /** The rest of a reconcile that has read the status, with nobody in between. */
  function Rest(w: World): seq<Event> {
    [ListNodes(w.nodes), ListClaims(w.claims), Write]
  }

  lemma RetryReads(w: World)
    requires w.pending || !w.flight.Idle?
    ensures Run(w, RETRY) == w.(pending := false, flight := StatusRead(w.status))
  {
    ThreeSteps(w, Fail, Dequeue, ReadStatus);
  }

  lemma RestWrites(w: World)
    requires w.flight == StatusRead(w.status)
    ensures Run(w, Rest(w)) == w.(status := Computed(w.nodes, w.claims), flight := Idle)
  {
    ThreeSteps(w, ListNodes(w.nodes), ListClaims(w.claims), Write);
  }

  /** Whatever is pending or in flight, and even if that fails, the next undisturbed reconcile brings the status up to date. */
  lemma RetryUpdates(w: World)
    requires w.pending || !w.flight.Idle?
    ensures Run(w, RETRY + Rest(w)) == w.(status := Computed(w.nodes, w.claims), pending := false, flight := Idle)
  {
    var read := w.(pending := false, flight := StatusRead(w.status));
    RetryReads(w);
    RestWrites(read);
    RunAppend(w, RETRY, Rest(w));
  }

  lemma {:induction false} ThreeSteps(w: World, a: Event, b: Event, c: Event)
    ensures Run(w, [a, b, c]) == Step(Step(Step(w, a), b), c)
  {
    assert [a, b, c][1..] == [b, c] && [b, c][1..] == [c] && [c][1..] == [];
    assert Run(Step(Step(w, a), b), [c]) == Step(Step(Step(w, a), b), c);
    assert Run(Step(w, a), [b, c]) == Run(Step(Step(w, a), b), [c]);
  }

  lemma {:induction false} RunAppend(w: World, a: seq<Event>, b: seq<Event>)
    ensures Run(w, a + b) == Run(Run(w, a), b)
    decreases |a|
  {
    if a == [] {
      assert a + b == b;
    } else {
      assert (a + b)[1..] == a[1..] + b;
      RunAppend(Step(w, a[0]), a[1..], b);
    }
  }

  /**
   Over every run of events, before, between and after the calls of the reconciles: whenever no accepted event is pending
   and no reconcile is in flight, the written status equals recomputation from scratch, in whatever list order.
   */
  lemma {:induction false} TrackedStatusIsFresh(w: World, events: seq<Event>, nodes: seq<Node>, claims: seq<NodeClaim>)
    requires Fresh(w)
    requires multiset(nodes) == multiset(Run(w, events).nodes) && multiset(claims) == multiset(Run(w, events).claims)
    ensures var w' := Run(w, events); !w'.pending && w'.flight.Idle? ==> w'.status == Computed(nodes, claims)
    decreases |events|
  {
    if events == [] {
      ComputedIsOrderIndependent(w.nodes, nodes, w.claims, claims);
    } else {
      StepKeepsFresh(w, events[0]);
      TrackedStatusIsFresh(Step(w, events[0]), events[1..], nodes, claims);
    }
  }
}
