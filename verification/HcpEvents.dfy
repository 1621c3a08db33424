/**
 Three controllers watch the HostedControlPlane through event filters. A filter may reject only updates that leave its
 controller's output as it is; here the outputs and the filters meet.
 */
module HcpEvents {
  import opened Wrappers
  import opened Collections
  import opened UpgradeHold
  import opened ResourceTags

  const KARPENTER := "Karpenter"
  const IMAGE_OVERRIDE := "autoscaling.openshift.io/karpenter-image"
  const E2E_OVERRIDE := "hypershift.openshift.io/karpenter-core-e2e-override"
  const INSTANCE_PROFILE := "hypershift.openshift.io/aws-karpenter-default-instance-profile"

  datatype AutoNode = AutoNode(provisioner: string, details: string)

  /** `awsTags` is absent on other platforms; `details` are the version status' timestamps, `other` is everything else. */
  datatype Hcp = Hcp(name: string, uid: string, annotations: map<string, string>, infraID: string, autoNode: AutoNode,
                     awsTags: Option<seq<PlatformTag>>, version: ControlPlaneVersion, details: string, other: string)

  /** A missing annotation reads as the empty string. */
  function Annotation(hcp: Hcp, key: string): string {
    if key in hcp.annotations then hcp.annotations[key] else ""
  }

  function AwsResourceTags(hcp: Hcp): seq<PlatformTag> {
    if hcp.awsTags.None? then [] else hcp.awsTags.value
  }

  predicate ControlPlaneVersionChanged(was: Hcp, now: Hcp) {
    was.version != now.version || was.details != now.details
  }

  // ---- The operand ----

  datatype OwnerRef = OwnerRef(name: string, uid: string)

  /** The operator's own configuration; the parts that do not depend on the HCP are `fixed`. */
  datatype OperatorConfig = OperatorConfig(namespace: string, karpenterImage: string, fixed: string)

  datatype OperandConfig = OperandConfig(namespace: string, karpenterImage: string, releaseVersion: string,
                                         kubeconfigSecret: string, fixed: string)

  datatype Operand = NotKarpenter | NoVersionYet | NoImage | Rendered(config: OperandConfig, owner: OwnerRef)

  function Render(config: OperatorConfig, hcp: Hcp): Operand {
    if hcp.autoNode.provisioner != KARPENTER then NotKarpenter
    else if hcp.version.desiredVersion == "" then NoVersionYet
    else
      var image := if Annotation(hcp, IMAGE_OVERRIDE) != "" then Annotation(hcp, IMAGE_OVERRIDE) else config.karpenterImage;
      if image == "" then NoImage
      else Rendered(OperandConfig(config.namespace, image, hcp.version.desiredVersion, hcp.infraID + "-kubeconfig", config.fixed),
                    OwnerRef(hcp.name, hcp.uid))
  }

  /** What is rendered for this HCP: the override image if there is one, else the configured image. */
  predicate RenderedFor(config: OperatorConfig, hcp: Hcp, operand: OperandConfig, owner: OwnerRef) {
    var key := "autoscaling.openshift.io/karpenter-image";
    && operand.karpenterImage != "" && operand.releaseVersion != ""
    && operand.karpenterImage ==
       (if key in hcp.annotations && hcp.annotations[key] != "" then hcp.annotations[key] else config.karpenterImage)
    && operand.releaseVersion == hcp.version.desiredVersion && operand.kubeconfigSecret == hcp.infraID + "-kubeconfig"
    && operand.namespace == config.namespace && operand.fixed == config.fixed
    && owner.name == hcp.name && owner.uid == hcp.uid
  }

  datatype Outcome = Done | RequeueAfter(seconds: nat) | Failed

  /** The three objects that the operand controller applies, one after the other; `fails` picks the call that errs. */
  class OperandController {
    const config: OperatorConfig
    var serviceAccount: Option<OwnerRef>
    var deployment: Option<(OperandConfig, OwnerRef)>
    var podMonitor: Option<(OperandConfig, OwnerRef)>

    constructor (config: OperatorConfig)
      ensures this.config == config
    {
      this.config := config;
      serviceAccount, deployment, podMonitor := None, None, None;
    }

    /** `read`: an error, no HCP, or the HCP. */
    method Reconcile(read: Result<Option<Hcp>>, fails: nat) returns (r: Outcome)
      modifies this
      ensures read.Ok? && read.value.Some? && Render(config, read.value.value).Rendered? ==>
                var out := Render(config, read.value.value);
                && serviceAccount == (if fails == 1 then old(serviceAccount) else Some(out.owner))
                && deployment == (if fails in {1, 2} then old(deployment) else Some((out.config, out.owner)))
                && podMonitor == (if fails in {1, 2, 3} then old(podMonitor) else Some((out.config, out.owner)))
                && r == (if fails in {1, 2, 3} then Failed else Done)
      ensures !(read.Ok? && read.value.Some? && Render(config, read.value.value).Rendered?) ==>
                && unchanged(this)
                && r == (if read.Err? then Failed
                         else if read.value.None? then Done
                         else match Render(config, read.value.value)
                              case NotKarpenter => Done
                              case NoVersionYet => RequeueAfter(5)
                              case _ => Failed)
      ensures read.Ok? && read.value.Some? && read.value.value.autoNode.provisioner == "Karpenter" ==>
                && (r == Done ==> deployment.Some? && podMonitor == deployment && serviceAccount == Some(deployment.value.1)
                                  && RenderedFor(config, read.value.value, deployment.value.0, deployment.value.1))
                && (r.RequeueAfter? <==> read.value.value.version.desiredVersion == "")
      ensures read.Ok? && read.value.Some? && read.value.value.autoNode.provisioner != "Karpenter" ==>
                unchanged(this) && r == Done
    {
      if read.Err? {
        return Failed;
      }
      if read.value.None? {
        return Done;
      }
      var hcp := read.value.value;
      if hcp.autoNode.provisioner != KARPENTER {
        return Done;
      }
      if hcp.version.desiredVersion == "" {
        return RequeueAfter(5);
      }
      var karpenterImage := config.karpenterImage;
      if Annotation(hcp, IMAGE_OVERRIDE) != "" {
        karpenterImage := Annotation(hcp, IMAGE_OVERRIDE);
      }
      if karpenterImage == "" {
        return Failed;
      }
      var ref := OwnerRef(hcp.name, hcp.uid);
      if fails == 1 {
        return Failed;
      }
      serviceAccount := Some(ref);
      var cfg := OperandConfig(config.namespace, karpenterImage, hcp.version.desiredVersion, hcp.infraID + "-kubeconfig",
                               config.fixed);
      if fails == 2 {
        return Failed;
      }
      deployment := Some((cfg, ref));
      if fails == 3 {
        return Failed;
      }
      podMonitor := Some((cfg, ref));
      return Done;
    }
  }

  predicate OperandChanged(was: Hcp, now: Hcp) {
    || was.infraID != now.infraID || was.autoNode != now.autoNode
    || was.version.desiredVersion != now.version.desiredVersion
    || Annotation(was, IMAGE_OVERRIDE) != Annotation(now, IMAGE_OVERRIDE)
  }

  predicate SameObject(was: Hcp, now: Hcp) {
    was.name == now.name && was.uid == now.uid
  }

  /** Versions of one HCP, oldest first. */
  predicate History(versions: seq<Hcp>) {
    forall i, j :: 0 <= i < j < |versions| ==> SameObject(versions[i], versions[j])
  }

  /**
   Along any run of versions, the operand of the last version is that of the last accepted one `k`: the events the
   filter drops need no reconcile, whatever configuration the operator has.
   */
  lemma {:induction false} OperandOfLastAccepted(config: OperatorConfig, versions: seq<Hcp>, k: nat)
    requires k < |versions| && History(versions)
    requires forall i :: k <= i < |versions| - 1 ==> !OperandChanged(versions[i], versions[i + 1])
    ensures Render(config, versions[|versions| - 1]) == Render(config, versions[k])
    decreases |versions|
  {
    var n := |versions| - 1;
    if k < n {
      OperandOfLastAccepted(config, versions[..n], k);
      assert !OperandChanged(versions[n - 1], versions[n - 1 + 1]);
      assert SameObject(versions[n - 1], versions[n]);
    }
  }

  // ---- The NodeClass controllers ----

  datatype SelectorTerm = SelectorTerm(tags: map<string, string>, id: string, name: string)

  /** A NodeClass; `details` is what its provider spec copies from it and from nothing else. */
  datatype NodeClass = NodeClass(version: string, tags: Option<map<string, string>>,
                                 subnetTerms: Option<seq<SelectorTerm>>, securityGroupTerms: Option<seq<SelectorTerm>>,
                                 details: string)

  /** Everything a NodeClass reconcile derives from the HCP: the provider spec and the tag conflict condition. */
  datatype Spec =
    | EC2Spec(pair: Pair, tags: Option<map<string, string>>, instanceProfile: Option<string>,
              subnetTerms: seq<SelectorTerm>, securityGroupTerms: seq<SelectorTerm>, details: string, conflict: Conflict)
    | AKSSpec(pair: Pair, details: string)

  function DefaultSubnetTerm(infraID: string): SelectorTerm {
    SelectorTerm(map["kubernetes.io/role/internal-elb" := "1", "kubernetes.io/cluster/" + infraID := "*"], "", "")
  }

  function DefaultSecurityGroupTerm(infraID: string): SelectorTerm {
    SelectorTerm(map["karpenter.sh/discovery" := infraID], "", "")
  }

  /** The fields of an EC2 spec that go back to the HCP or the NodeClass, one by one. */
  ghost predicate DerivedFrom(restricted: string -> bool, hcp: Hcp, nodeClass: NodeClass, spec: Spec) {
    && spec.EC2Spec? && spec.details == nodeClass.details
    && spec.subnetTerms ==
       (if nodeClass.subnetTerms.Some? then nodeClass.subnetTerms.value
        else [SelectorTerm(map["kubernetes.io/role/internal-elb" := "1", "kubernetes.io/cluster/" + hcp.infraID := "*"], "", "")])
    && spec.securityGroupTerms ==
       (if nodeClass.securityGroupTerms.Some? then nodeClass.securityGroupTerms.value
        else [SelectorTerm(map["karpenter.sh/discovery" := hcp.infraID], "", "")])
    && (var key := "hypershift.openshift.io/aws-karpenter-default-instance-profile";
        spec.instanceProfile ==
        if key in hcp.annotations && hcp.annotations[key] != "" then Some(hcp.annotations[key]) else None)
    && (var platform := if hcp.awsTags.Some? then hcp.awsTags.value else [];
        && (spec.tags.Some? ==> forall k :: k in spec.tags.value ==> TagIs(platform, nodeClass.tags, k, spec.tags.value[k]))
        && (forall k :: (spec.tags.Some? && k in spec.tags.value) <==> Tagged(platform, nodeClass.tags, k) && !restricted(k)))
  }

  lemma OutputDerives(restricted: string -> bool, hcp: Hcp, nodeClass: NodeClass, secret: Secret, current: Pair)
    ensures var out := Output(EC2, restricted, hcp, nodeClass, secret, current);
            var key := "hypershift.openshift.io/karpenter-core-e2e-override";
            && (out.None? <==> key in hcp.annotations && hcp.annotations[key] == "true")
            && (out.Some? && out.value.Ok? ==> DerivedFrom(restricted, hcp, nodeClass, out.value.value))
  {
    EC2TagsMeans(AwsResourceTags(hcp), nodeClass.tags, restricted);
  }

  predicate Overridden(hcp: Hcp) {
    Annotation(hcp, E2E_OVERRIDE) == "true"
  }

  /** The reconcile's result for a provider NodeClass that holds `current`: nothing to write, an error, or a spec. */
  function Output(provider: Provider, restricted: string -> bool, hcp: Hcp, nodeClass: NodeClass, secret: Secret, current: Pair)
    : Option<Result<Spec>>
  {
    var pair := Desired(provider, WaitsForControlPlaneUpgrade(hcp.version, nodeClass.version), current, secret);
    match provider
    case EC2 =>
      if Overridden(hcp) then None
      else if pair.Err? then Some(Err)
      else
        var profile := Annotation(hcp, INSTANCE_PROFILE);
        Some(Ok(EC2Spec(
          pair.value,
          EC2Tags(AwsResourceTags(hcp), nodeClass.tags, restricted),
          if profile != "" then Some(profile) else None,
          if nodeClass.subnetTerms.Some? then nodeClass.subnetTerms.value else [DefaultSubnetTerm(hcp.infraID)],
          if nodeClass.securityGroupTerms.Some? then nodeClass.securityGroupTerms.value
            else [DefaultSecurityGroupTerm(hcp.infraID)],
          nodeClass.details,
          ConflictOf(AwsResourceTags(hcp), TagMap(nodeClass.tags)))))
    case Azure => if pair.Err? then Some(Err) else Some(Ok(AKSSpec(pair.value, nodeClass.details)))
  }

  /** The update filters of the two controllers. */
  predicate Accepted(provider: Provider, was: Hcp, now: Hcp) {
    match provider
    case EC2 =>
      || Annotation(was, INSTANCE_PROFILE) != Annotation(now, INSTANCE_PROFILE)
      || AwsResourceTags(was) != AwsResourceTags(now)
      || ControlPlaneVersionChanged(was, now)
    case Azure => ControlPlaneVersionChanged(was, now)
  }

  /** What the EC2 filter does not look at: InfraID, and whether the controller is overridden at all. */
  predicate Fixed(provider: Provider, was: Hcp, now: Hcp) {
    provider == EC2 ==> Overridden(was) == Overridden(now) && (Overridden(was) || was.infraID == now.infraID)
  }

  predicate SameOutput(provider: Provider, was: Hcp, now: Hcp, restricted: string -> bool, nodeClass: NodeClass,
                       secret: Secret, current: Pair)
  {
    Output(provider, restricted, was, nodeClass, secret, current) == Output(provider, restricted, now, nodeClass, secret, current)
  }

  /** A Secret that both providers accept and a NodeClass without selectors of its own. */
  const SOME_SECRET := SecretNamed("")
  const PLAIN := NodeClass("", None, None, None, "")

  lemma PlainOutputDiffers(was: Hcp, now: Hcp, restricted: string -> bool)
    requires !Accepted(EC2, was, now) && !Fixed(EC2, was, now)
    ensures !SameOutput(EC2, was, now, restricted, PLAIN, SOME_SECRET, UNSET)
  {
    SecretNamedPair(EC2, "");
    if Overridden(was) == Overridden(now) {
      var a, b := DefaultSecurityGroupTerm(was.infraID), DefaultSecurityGroupTerm(now.infraID);
      assert a.tags["karpenter.sh/discovery"] != b.tags["karpenter.sh/discovery"];
      assert [a][0] != [b][0];
    }
  }

  /** For instance: the filter rejects an update that gives the HostedControlPlane its InfraID, and the selectors change. */
  lemma InfraIDChangeIsRejected(restricted: string -> bool)
    ensures var was := Hcp("hcp", "1", map[], "", AutoNode(KARPENTER, ""), None, IDLE, "", "");
            var now := was.(infraID := "infra-1");
            !Accepted(EC2, was, now) && !SameOutput(EC2, was, now, restricted, PLAIN, SOME_SECRET, UNSET)
  {
    var was := Hcp("hcp", "1", map[], "", AutoNode(KARPENTER, ""), None, IDLE, "", "");
    PlainOutputDiffers(was, was.(infraID := "infra-1"), restricted);
  }

  /**
   A rejected update changes no output, for every NodeClass, Secret and present state, if and only if the E2E override
   does not flip and, unless it is set, InfraID stays.
   */
  lemma RejectedIsHarmlessIffFixed(provider: Provider, was: Hcp, now: Hcp)
    requires !Accepted(provider, was, now)
    ensures (forall restricted, nodeClass, secret, current ::
               SameOutput(provider, was, now, restricted, nodeClass, secret, current)) <==> Fixed(provider, was, now)
  {
    if !Fixed(provider, was, now) {
      PlainOutputDiffers(was, now, (key: string) => false);
    }
  }

  // ---- Runs: reconciling on accepted events against reconciling on every event ----

  /** One NodeClass with what it depends on. `spec` is absent before the first write; `secret` may be missing. */
  datatype Cluster = Cluster(hcp: Hcp, nodeClass: NodeClass, secret: Option<Secret>, spec: Option<Spec>)

  datatype Change = HcpUpdate(now: Hcp) | NodeClassUpdate(nodeClass: NodeClass) | SecretUpdate(secret: Option<Secret>)

  function PairIn(spec: Option<Spec>): Pair {
    if spec.Some? then spec.value.pair else UNSET
  }

  function Reconcile(provider: Provider, restricted: string -> bool, s: Cluster): Cluster {
    if s.secret.None? then s
    else
      var out := Output(provider, restricted, s.hcp, s.nodeClass, s.secret.value, PairIn(s.spec));
      if out.Some? && out.value.Ok? then s.(spec := Some(out.value.value)) else s
  }

  function Happen(s: Cluster, e: Change): Cluster {
    match e
    case HcpUpdate(now) => s.(hcp := now)
    case NodeClassUpdate(nodeClass) => s.(nodeClass := nodeClass)
    case SecretUpdate(secret) => s.(secret := secret)
  }

  predicate Wakes(provider: Provider, s: Cluster, e: Change) {
    e.HcpUpdate? ==> Accepted(provider, s.hcp, e.now)
  }

  function OnEveryEvent(provider: Provider, restricted: string -> bool, s: Cluster, events: seq<Change>): Cluster
    decreases |events|
  {
    if events == [] then s
    else OnEveryEvent(provider, restricted, Reconcile(provider, restricted, Happen(s, events[0])), events[1..])
  }

  function OnAcceptedEvents(provider: Provider, restricted: string -> bool, s: Cluster, events: seq<Change>): Cluster
    decreases |events|
  {
    if events == [] then s
    else
      var s' := Happen(s, events[0]);
      OnAcceptedEvents(provider, restricted, if Wakes(provider, s, events[0]) then Reconcile(provider, restricted, s') else s',
                       events[1..])
  }

  predicate AllFixed(provider: Provider, hcp: Hcp, events: seq<Change>) {
    forall i :: 0 <= i < |events| && events[i].HcpUpdate? ==> Fixed(provider, hcp, events[i].now)
  }

  /** Desired is stable: what was just written is what a second reconcile writes. */
  lemma DesiredTwice(provider: Provider, waits: bool, current: Pair, secret: Secret)
    requires Desired(provider, waits, current, secret).Ok?
    ensures Desired(provider, waits, Desired(provider, waits, current, secret).value, secret) ==
              Desired(provider, waits, current, secret)
  {}

  /** A reconcile that finds nothing changed since the last one writes nothing new. */
  lemma ReconcileTwice(provider: Provider, restricted: string -> bool, s: Cluster)
    ensures var s' := Reconcile(provider, restricted, s); Reconcile(provider, restricted, s') == s'
  {
    if s.secret.Some? {
      var waits := WaitsForControlPlaneUpgrade(s.hcp.version, s.nodeClass.version);
      if Desired(provider, waits, PairIn(s.spec), s.secret.value).Ok? {
        DesiredTwice(provider, waits, PairIn(s.spec), s.secret.value);
      }
    }
  }

  lemma RejectedStaysSettled(provider: Provider, restricted: string -> bool, s: Cluster, now: Hcp)
    requires Reconcile(provider, restricted, s) == s
    requires !Accepted(provider, s.hcp, now) && Fixed(provider, s.hcp, now)
    ensures Reconcile(provider, restricted, s.(hcp := now)) == s.(hcp := now)
  {
    RejectedIsHarmlessIffFixed(provider, s.hcp, now);
    if s.secret.Some? {
      assert SameOutput(provider, s.hcp, now, restricted, s.nodeClass, s.secret.value, PairIn(s.spec));
    }
  }

  /**
   The filters lose nothing: over every run of HCP, NodeClass and Secret changes, reconciling on the accepted events
   alone ends in the same state, with the same written spec and conflict condition, as reconciling on every event.
   */
  lemma {:induction false} FilterLosesNothing(provider: Provider, restricted: string -> bool, s: Cluster, events: seq<Change>)
    requires Reconcile(provider, restricted, s) == s && AllFixed(provider, s.hcp, events)
    ensures OnAcceptedEvents(provider, restricted, s, events) == OnEveryEvent(provider, restricted, s, events)
    decreases |events|
  {
    if events != [] {
      var e := events[0];
      var s' := Happen(s, e);
      if Wakes(provider, s, e) {
        ReconcileTwice(provider, restricted, s');
      } else {
        RejectedStaysSettled(provider, restricted, s, e.now);
      }
      var next := Reconcile(provider, restricted, s');
      FixedFrom(provider, s.hcp, next.hcp, events);
      FilterLosesNothing(provider, restricted, next, events[1..]);
    }
  }

  lemma FixedFrom(provider: Provider, was: Hcp, now: Hcp, events: seq<Change>)
    requires events != [] && AllFixed(provider, was, events)
    requires now == was || events[0] == HcpUpdate(now)
    ensures AllFixed(provider, now, events[1..])
  {
    assert events[0].HcpUpdate? ==> Fixed(provider, was, events[0].now);
    forall i | 0 <= i < |events[1..]| && events[1..][i].HcpUpdate? ensures Fixed(provider, now, events[1..][i].now) {
      assert events[i + 1] == events[1..][i];
    }
  }

  // ---- The object that the reconciles overwrite ----

  /** The provider NodeClass and the conflict condition of its parent, as the reconciles of both controllers leave them. */
  class Derived {
    var spec: Option<Spec>

    constructor ()
      ensures spec == None
    {
      spec := None;
    }

    /** The whole EC2 spec is replaced, field by field; an error leaves the object alone. */
    method ReconcileEC2(restricted: string -> bool, hcp: Hcp, nodeClass: NodeClass, secret: Secret, order: seq<string>)
      returns (ok: bool)
      requires Enumerates(order, TagMap(nodeClass.tags).Keys)
      requires spec.Some? ==> spec.value.EC2Spec? && (spec.value.pair.image.Some? ==> spec.value.pair.image.value.Amis?)
      modifies this
      ensures spec == Reconcile(EC2, restricted, Cluster(hcp, nodeClass, Some(secret), old(spec))).spec
      ensures ok <==> Output(EC2, restricted, hcp, nodeClass, secret, PairIn(old(spec))) != Some(Err)
      ensures ok && Annotation(hcp, "hypershift.openshift.io/karpenter-core-e2e-override") != "true" ==>
                spec.Some? && DerivedFrom(restricted, hcp, nodeClass, spec.value)
    {
      OutputDerives(restricted, hcp, nodeClass, secret, PairIn(spec));
      if Annotation(hcp, E2E_OVERRIDE) == "true" {
        return true;
      }
      var pair := PairEC2(hcp, nodeClass, secret);
      if pair.Err? {
        return false;
      }
      var tags := MergeEC2NodeClassTags(AwsResourceTags(hcp), nodeClass.tags, restricted, order);
      var profile := InstanceProfile(hcp);
      var subnets, groups := Selectors(hcp, nodeClass);
      var conflict := SetTagConflictCondition(AwsResourceTags(hcp), nodeClass.tags, order);
      spec := Some(EC2Spec(pair.value, tags, profile, subnets, groups, nodeClass.details, conflict));
      return true;
    }

    method PairEC2(hcp: Hcp, nodeClass: NodeClass, secret: Secret) returns (pair: Result<Pair>)
      requires spec.Some? ==> spec.value.pair.image.Some? ==> spec.value.pair.image.value.Amis?
      ensures pair == Desired(EC2, WaitsForControlPlaneUpgrade(hcp.version, nodeClass.version), PairIn(spec), secret)
    {
      var child := new ProviderNodeClass();
      if spec.Some? {
        child.userData, child.image := spec.value.pair.userData, spec.value.pair.image;
      }
      var written := child.ReconcileEC2(hcp.version, nodeClass.version, secret);
      return if written then Ok(child.Value()) else Err;
    }

    static method InstanceProfile(hcp: Hcp) returns (profile: Option<string>)
      ensures profile == if Annotation(hcp, INSTANCE_PROFILE) != "" then Some(Annotation(hcp, INSTANCE_PROFILE)) else None
    {
      profile := None;
      if INSTANCE_PROFILE in hcp.annotations && hcp.annotations[INSTANCE_PROFILE] != "" {
        profile := Some(hcp.annotations[INSTANCE_PROFILE]);
      }
    }

    static method Selectors(hcp: Hcp, nodeClass: NodeClass) returns (subnets: seq<SelectorTerm>, groups: seq<SelectorTerm>)
      ensures subnets == if nodeClass.subnetTerms.Some? then nodeClass.subnetTerms.value else [DefaultSubnetTerm(hcp.infraID)]
      ensures groups == if nodeClass.securityGroupTerms.Some? then nodeClass.securityGroupTerms.value
                        else [DefaultSecurityGroupTerm(hcp.infraID)]
    {
      subnets, groups := [DefaultSubnetTerm(hcp.infraID)], [DefaultSecurityGroupTerm(hcp.infraID)];
      if nodeClass.subnetTerms.Some? {
        subnets := CopyTerms(nodeClass.subnetTerms.value);
      }
      if nodeClass.securityGroupTerms.Some? {
        groups := CopyTerms(nodeClass.securityGroupTerms.value);
      }
    }

    /** The Azure spec is replaced first, and the held fields are put back. */
    method ReconcileAzure(restricted: string -> bool, hcp: Hcp, nodeClass: NodeClass, secret: Secret)
      requires spec.Some? ==> spec.value.AKSSpec? && (spec.value.pair.image.Some? ==> spec.value.pair.image.value.Marketplace?)
      modifies this
      ensures spec == Reconcile(Azure, restricted, Cluster(hcp, nodeClass, Some(secret), old(spec))).spec
      ensures spec.Some? && spec.value.AKSSpec? && spec.value.details == nodeClass.details
      ensures Installing(hcp.version) || nodeClass.version != "" || old(spec).None? || !IsSet(old(spec).value.pair) ==>
                && spec.value.pair.userData == Some(secret.value)
                && spec.value.pair.image.Some? && MarketplaceIs(secret.labels, spec.value.pair.image.value)
    {
      var child := new ProviderNodeClass();
      if spec.Some? {
        child.userData, child.image := spec.value.pair.userData, spec.value.pair.image;
      }
      child.ReconcileAzure(hcp.version, nodeClass.version, secret);
      spec := Some(AKSSpec(child.Value(), nodeClass.details));
    }

    static method CopyTerms(terms: seq<SelectorTerm>) returns (copy: seq<SelectorTerm>)
      ensures copy == terms
    {
      copy := [];
      for i := 0 to |terms|
        invariant copy == terms[..i]
      {
        copy := copy + [SelectorTerm(terms[i].tags, terms[i].id, terms[i].name)];
      }
    }
  }
}
