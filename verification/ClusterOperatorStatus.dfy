/** The ClusterOperator status: four conditions whose transition times the controller carries over by itself. */
module ClusterOperatorStatus {
  import opened Wrappers

  datatype Kind = Available | Progressing | Degraded | Upgradeable

  /** One condition; `since` is absent until applyStatus fills it in. */
  datatype Condition = Condition(kind: Kind, status: bool, reason: string, message: string, since: Option<int>)

  // ---- What a reconcile reads, and the conditions it builds ----

  datatype Karpenter = KarpenterNotFound | KarpenterError | KarpenterFound

  datatype Deployment =
    | DeploymentNotFound | DeploymentError
    | DeploymentFound(availableReplicas: int, updatedReplicas: int, replicas: int)

  /** `release` stands for the release version text, `error` for the text of an API error. */
  datatype Inputs = Inputs(unsupportedPlatform: Option<string>, karpenter: Karpenter, deployment: Deployment,
                           release: string, error: string)

  /** The status that a reconcile with these inputs reports for one type. */
  function StatusOf(i: Inputs, kind: Kind): bool {
    match kind
    case Available => true
    case Upgradeable => true
    case Progressing =>
      && i.unsupportedPlatform.None? && i.karpenter.KarpenterFound?
      && (i.deployment.DeploymentNotFound?
          || (i.deployment.DeploymentFound?
              && (i.deployment.availableReplicas < 1 || i.deployment.updatedReplicas != i.deployment.replicas)))
    case Degraded =>
      && i.unsupportedPlatform.None?
      && (i.karpenter.KarpenterError? || (i.karpenter.KarpenterFound? && i.deployment.DeploymentError?))
  }

  /** The four types in their fixed order, with the given status and no transition time. */
  predicate Shape(c: seq<Condition>, progressing: bool, degraded: bool) {
    && |c| == 4 && (forall k :: 0 <= k < 4 ==> c[k].since.None?)
    && c[0].kind == Available && c[0].status && c[1].kind == Progressing && c[1].status == progressing
    && c[2].kind == Degraded && c[2].status == degraded && c[3].kind == Upgradeable && c[3].status
  }

  function AvailableConditions(reason: string, message: string): (c: seq<Condition>)
    ensures Shape(c, false, false)
  {
    [Condition(Available, true, reason, message, None), Condition(Progressing, false, "AsExpected", "", None),
     Condition(Degraded, false, "AsExpected", "", None), Condition(Upgradeable, true, "AsExpected", "", None)]
  }

  function ProgressingConditions(reason: string, message: string): (c: seq<Condition>)
    ensures Shape(c, true, false)
  {
    [Condition(Available, true, "AsExpected", "", None), Condition(Progressing, true, reason, message, None),
     Condition(Degraded, false, "AsExpected", "", None), Condition(Upgradeable, true, "AsExpected", "", None)]
  }

  function DegradedConditions(reason: string, message: string): (c: seq<Condition>)
    ensures Shape(c, false, true)
  {
    [Condition(Available, true, "AsExpected", "", None), Condition(Progressing, false, "AsExpected", "", None),
     Condition(Degraded, true, reason, message, None), Condition(Upgradeable, true, "AsExpected", "", None)]
  }

  function OperandConditions(i: Inputs): (c: seq<Condition>)
    requires i.unsupportedPlatform.None?
    ensures Shape(c, StatusOf(i, Progressing), StatusOf(i, Degraded))
  {
    match i.karpenter
    case KarpenterNotFound => AvailableConditions("KarpenterNotFound", "at version " + i.release)
    case KarpenterError => DegradedConditions("KarpenterCheckFailed", "Failed to get Karpenter CR: " + i.error)
    case KarpenterFound =>
      match i.deployment
      case DeploymentNotFound =>
        ProgressingConditions("OperandNotYetCreated", "Waiting for karpenter Deployment to be created")
      case DeploymentError => DegradedConditions("OperandCheckFailed", "Failed to get operand Deployment: " + i.error)
      case DeploymentFound(available, updated, replicas) =>
        if available < 1 then
          ProgressingConditions("OperandNotReady", "Waiting for karpenter Deployment to become available")
        else if updated != replicas then
          ProgressingConditions("OperandRollingOut", "Karpenter Deployment is rolling out")
        else AvailableConditions("AsExpected", "at version " + i.release)
  }

  function DesiredConditions(i: Inputs): (c: seq<Condition>)
    ensures Shape(c, StatusOf(i, Progressing), StatusOf(i, Degraded))
  {
    match i.unsupportedPlatform
    case Some(platform) =>
      AvailableConditions("UnsupportedPlatform",
                          "Karpenter is not supported on platform " + platform + ", no operand is deployed")
    case None => OperandConditions(i)
  }

  /** One reason for each situation, and nothing else is out of the ordinary. */
  lemma ReasonsTell(i: Inputs)
    ensures var c := DesiredConditions(i);
            var supported := i.unsupportedPlatform.None?;
            var found := supported && i.karpenter.KarpenterFound?;
            var deployed := found && i.deployment.DeploymentFound?;
            && (c[0].reason == "UnsupportedPlatform" <==> !supported)
            && (c[0].reason == "KarpenterNotFound" <==> supported && i.karpenter.KarpenterNotFound?)
            && (c[2].reason == "KarpenterCheckFailed" <==> supported && i.karpenter.KarpenterError?)
            && (c[1].reason == "OperandNotYetCreated" <==> found && i.deployment.DeploymentNotFound?)
            && (c[2].reason == "OperandCheckFailed" <==> found && i.deployment.DeploymentError?)
            && (c[1].reason == "OperandNotReady" <==> deployed && i.deployment.availableReplicas < 1)
            && (c[1].reason == "OperandRollingOut" <==>
                  deployed && i.deployment.availableReplicas >= 1 && i.deployment.updatedReplicas != i.deployment.replicas)
            && (!c[1].status ==> c[1].reason == "AsExpected") && (!c[2].status ==> c[2].reason == "AsExpected")
            && c[3].reason == "AsExpected"
            && (supported && !i.karpenter.KarpenterNotFound? ==> c[0].reason == "AsExpected")
  {
    Differ("UnsupportedPlatform", "KarpenterNotFound", 'U', 'K');
    Differ("UnsupportedPlatform", "AsExpected", 'U', 'A');
    Differ("KarpenterNotFound", "AsExpected", 'K', 'A');
    Differ("KarpenterCheckFailed", "AsExpected", 'K', 'A');
    Differ("KarpenterCheckFailed", "OperandCheckFailed", 'K', 'O');
    Differ("OperandCheckFailed", "AsExpected", 'O', 'A');
    Differ("OperandNotYetCreated", "AsExpected", 'O', 'A');
    Differ("OperandNotReady", "AsExpected", 'O', 'A');
    Differ("OperandRollingOut", "AsExpected", 'O', 'A');
    assert |"OperandNotYetCreated"| == 20 && |"OperandNotReady"| == 15 && |"OperandRollingOut"| == 17;
  }

  /** What the conditions say: the version once everything is as expected, and otherwise what stands in the way. */
  lemma MessagesTell(i: Inputs)
    ensures var c := DesiredConditions(i);
            && (i.unsupportedPlatform.Some? ==>
                  c[0].message ==
                  "Karpenter is not supported on platform " + i.unsupportedPlatform.value + ", no operand is deployed")
            && (i.unsupportedPlatform.None? && !c[1].status && !c[2].status ==> c[0].message == "at version " + i.release)
            && (c[2].status && i.karpenter.KarpenterError? ==> c[2].message == "Failed to get Karpenter CR: " + i.error)
            && (c[2].status && !i.karpenter.KarpenterError? ==> c[2].message == "Failed to get operand Deployment: " + i.error)
            && (c[1].status ==>
                  c[1].message ==
                  if i.deployment.DeploymentNotFound? then "Waiting for karpenter Deployment to be created"
                  else if i.deployment.availableReplicas < 1 then "Waiting for karpenter Deployment to become available"
                  else "Karpenter Deployment is rolling out")
  {}

  lemma Differ(s: string, t: string, a: char, b: char)
    requires s != "" && t != "" && s[0] == a && t[0] == b && a != b
    ensures s != t
  {}

  /** Each of the four types exactly once. */
  predicate Complete(conditions: seq<Condition>) {
    |conditions| == 4 && forall i, j :: 0 <= i < j < 4 ==> conditions[i].kind != conditions[j].kind
  }

  // ---- applyStatus ----

  function FindCondition(conditions: seq<Condition>, kind: Kind): Option<Condition> {
    if conditions == [] then None
    else if conditions[0].kind == kind then Some(conditions[0])
    else FindCondition(conditions[1..], kind)
  }

  /** The loop body: now, unless the status is the one already reported. */
  function Timed(existing: seq<Condition>, c: Condition, now: int): Condition {
    var prev := FindCondition(existing, c.kind);
    c.(since := if prev.Some? && prev.value.status == c.status then prev.value.since
                else if c.since.None? then Some(now) else c.since)
  }

  /**
   The conditions to be applied. The controller owns all of them, so server-side apply makes the applied list the
   reported one.
   */
  method ApplyStatus(existing: seq<Condition>, conditions: seq<Condition>, now: int) returns (applied: seq<Condition>)
    ensures applied == AllTimed(existing, conditions, now)
  {
    applied := conditions;
    for i := 0 to |conditions|
      invariant |applied| == |conditions|
      invariant forall k :: 0 <= k < i ==> applied[k] == Timed(existing, conditions[k], now)
      invariant forall k :: i <= k < |conditions| ==> applied[k] == conditions[k]
    {
      var c := applied[i];
      if c.since.None? { c := c.(since := Some(now)); }
      var prev := FindCondition(existing, c.kind);
      if prev.Some? && prev.value.status == c.status { c := c.(since := prev.value.since); }
      applied := applied[i := c];
    }
  }

  function AllTimed(existing: seq<Condition>, conditions: seq<Condition>, now: int): seq<Condition> {
    seq(|conditions|, k requires 0 <= k < |conditions| => Timed(existing, conditions[k], now))
  }

  // ---- Runs of successful reconciles ----

  /** One successful reconcile: what it read, and its clock reading. */
  datatype Tick = Tick(inputs: Inputs, now: int)

  function Run(ticks: seq<Tick>): seq<Condition> {
    if ticks == [] then []
    else AllTimed(Run(ticks[..|ticks| - 1]), DesiredConditions(ticks[|ticks| - 1].inputs), ticks[|ticks| - 1].now)
  }

  /** The index of the first reconcile of the unbroken streak of the current status of `kind`. */
  function StreakStart(ticks: seq<Tick>, kind: Kind): nat
    requires ticks != []
    ensures StreakStart(ticks, kind) < |ticks|
  {
    var n := |ticks| - 1;
    if n == 0 || StatusOf(ticks[n - 1].inputs, kind) != StatusOf(ticks[n].inputs, kind) then n
    else StreakStart(ticks[..n], kind)
  }

  /** What a streak is: the same status from its start to the end, and another one just before. */
  lemma {:induction false} StreakStartMeans(ticks: seq<Tick>, kind: Kind)
    requires ticks != []
    ensures var s := StreakStart(ticks, kind);
            var status := StatusOf(ticks[|ticks| - 1].inputs, kind);
            && (forall i :: s <= i < |ticks| ==> StatusOf(ticks[i].inputs, kind) == status)
            && (s > 0 ==> StatusOf(ticks[s - 1].inputs, kind) != status)
    decreases |ticks|
  {
    var n := |ticks| - 1;
    if n > 0 && StatusOf(ticks[n - 1].inputs, kind) == StatusOf(ticks[n].inputs, kind) {
      StreakStartMeans(ticks[..n], kind);
      assert forall i :: 0 <= i < n ==> ticks[..n][i] == ticks[i];
    }
  }

  lemma {:induction false} FindAt(conditions: seq<Condition>, k: nat)
    requires k < |conditions| && forall j :: 0 <= j < k ==> conditions[j].kind != conditions[k].kind
    ensures FindCondition(conditions, conditions[k].kind) == Some(conditions[k])
  {
    if k > 0 {
      assert forall j :: 0 <= j < k ==> conditions[1..][j] == conditions[j + 1];
      FindAt(conditions[1..], k - 1);
    }
  }

  lemma FindTimed(existing: seq<Condition>, desired: seq<Condition>, progressing: bool, degraded: bool, now: int, kind: Kind)
    requires Shape(desired, progressing, degraded)
    ensures Complete(AllTimed(existing, desired, now))
    ensures FindCondition(AllTimed(existing, desired, now), kind).Some?
    ensures var c := FindCondition(AllTimed(existing, desired, now), kind).value;
            var status := match kind case Progressing => progressing case Degraded => degraded case _ => true;
            var prev := FindCondition(existing, kind);
            && c.status == status
            && c.since == if prev.Some? && prev.value.status == status then prev.value.since else Some(now)
  {
    var r := AllTimed(existing, desired, now);
    var k := match kind case Available => 0 case Progressing => 1 case Degraded => 2 case Upgradeable => 3;
    assert forall j :: 0 <= j < 4 ==> r[j] == Timed(existing, desired[j], now);
    FindAt(r, k);
  }

  /**
   After every successful reconcile each condition type is reported exactly once, with the status of that reconcile and
   with the time of the first reconcile in the current unbroken streak of that status.
   */
  lemma {:induction false} TransitionTimes(ticks: seq<Tick>, kind: Kind)
    requires ticks != []
    ensures Complete(Run(ticks)) && FindCondition(Run(ticks), kind).Some?
    ensures FindCondition(Run(ticks), kind).value.status == StatusOf(ticks[|ticks| - 1].inputs, kind)
    ensures FindCondition(Run(ticks), kind).value.since == Some(ticks[StreakStart(ticks, kind)].now)
    decreases |ticks|
  {
    var n := |ticks| - 1;
    var before := Run(ticks[..n]);
    var i := ticks[n].inputs;
    FindTimed(before, DesiredConditions(i), StatusOf(i, Progressing), StatusOf(i, Degraded), ticks[n].now, kind);
    if n > 0 {
      TransitionTimes(ticks[..n], kind);
      assert ticks[..n][n - 1] == ticks[n - 1];
    }
  }
}
