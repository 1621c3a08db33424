/**
 Approval of the certificate signing requests of Karpenter nodes. The controller reads a CSR and the NodeClaims from
 caches that may lag; the API server accepts its approval only for the resourceVersion that was read. Other writers
 act on the CSR at any time, and the API server lets nobody take an Approved or Denied condition away.
 */
module CsrApproval {
  import opened Wrappers
  import opened Collections
  import opened Objects
  import opened NodeIdentity

  datatype Signer = KubeAPIServerClientKubelet | KubeletServing | OtherSigner(name: string)

  datatype Kind = Approved | Denied | OtherKind(name: string)

  datatype Condition = Condition(kind: Kind, reason: string)

  /** `commonName` is the subject of the PEM request, absent if it does not parse. */
  datatype Csr = Csr(signer: Signer, username: string, groups: seq<string>, commonName: Option<string>,
                     conditions: seq<Condition>)

  const NODE_BOOTSTRAPPER := "system:serviceaccount:openshift-machine-config-operator:node-bootstrapper"
  const NODE_GROUP := "system:nodes"
  const NODE_PREFIX := "system:node:"

  const APPROVAL := Condition(Approved, "KarpenterCSRApprove")

  ghost predicate Decided(conditions: seq<Condition>) {
    exists c :: c in conditions && (c.kind == Approved || c.kind == Denied)
  }

  function CountOf(conditions: seq<Condition>, kind: Kind): nat {
    if conditions == [] then 0
    else
      var n := |conditions| - 1;
      CountOf(conditions[..n], kind) + if conditions[n].kind == kind then 1 else 0
  }

  lemma CountNext(conditions: seq<Condition>, c: Condition, kind: Kind)
    ensures CountOf(conditions + [c], kind) == CountOf(conditions, kind) + if c.kind == kind then 1 else 0
  {
    assert (conditions + [c])[..|conditions|] == conditions;
  }

  method IsCertificateRequestPending(csr: Csr) returns (pending: bool)
    ensures pending == !Decided(csr.conditions)
  {
    for i := 0 to |csr.conditions|
      invariant forall j :: 0 <= j < i ==> csr.conditions[j].kind != Approved && csr.conditions[j].kind != Denied
    {
      if csr.conditions[i].kind == Approved || csr.conditions[i].kind == Denied {
        assert csr.conditions[i] in csr.conditions;
        return false;
      }
    }
    return true;
  }

  /** The requests that the controller is meant for: by the node bootstrapper for a client, by a node for a server. */
  predicate RequestAccepted(csr: Csr) {
    || (csr.signer == KubeAPIServerClientKubelet && csr.username == NODE_BOOTSTRAPPER)
    || (csr.signer == KubeletServing && NODE_GROUP in csr.groups)
  }

  /** The event filter: whatever passes it is undecided and a request that the controller is meant for. */
  method CsrFilter(csr: Csr) returns (accepted: bool)
    ensures accepted <==> !Decided(csr.conditions) && RequestAccepted(csr)
  {
    var pending := IsCertificateRequestPending(csr);
    if !pending {
      return false;
    }
    match csr.signer
    case KubeAPIServerClientKubelet => return csr.username == NODE_BOOTSTRAPPER;
    case KubeletServing => return NODE_GROUP in csr.groups;
    case OtherSigner(_) => return false;
  }

  // ---- Authorization ----

  function TrimPrefix(s: string, prefix: string): string {
    if prefix <= s then s[|prefix|..] else s
  }

  /** The NodeClaims no node was created for yet, in order. */
  function Unbound(claims: seq<Claim>): seq<Claim> {
    Filter(claims, IsUnbound)
  }

  predicate IsUnbound(claim: Claim) {
    claim.nodeName == ""
  }

  /** The filter works in place: it moves the claims it keeps to the front and clears the rest. */
  method DeleteBound(a: array<Claim>) returns (kept: nat)
    modifies a
    ensures kept <= a.Length
    ensures a[..kept] == Unbound(old(a[..]))
    ensures forall k :: kept <= k < a.Length ==> a[k] == Claim("", "")
  {
    ghost var was := a[..];
    kept := 0;
    for i := 0 to a.Length
      invariant kept <= i
      invariant a[..kept] == Unbound(was[..i])
      invariant a[i..] == was[i..]
    {
      FilterNext(was, IsUnbound, i);
      assert a[i] == a[i..][0] == was[i];
      assert a[i + 1..] == a[i..][1..] == was[i + 1..];
      if a[i].nodeName == "" {
        a[kept] := a[i];
        assert a[..kept + 1] == a[..kept] + [was[i]];
        kept := kept + 1;
      }
    }
    assert was[..a.Length] == was;
    ghost var front := a[..kept];
    for k := kept to a.Length
      invariant a[..kept] == front
      invariant forall j :: kept <= j < k ==> a[j] == Claim("", "")
    {
      a[k] := Claim("", "");
    }
  }

  /** The first claim bound to this node. */
  function TargetClaim(claims: seq<Claim>, nodeName: string): (c: Option<Claim>)
    ensures c.Some? ==> c.value in claims && c.value.nodeName == nodeName
    ensures c.None? ==> forall k :: k in claims ==> k.nodeName != nodeName
  {
    if claims == [] then None
    else if claims[0].nodeName == nodeName then Some(claims[0])
    else TargetClaim(claims[1..], nodeName)
  }

  method FindTargetNodeClaim(claims: seq<Claim>, nodeName: string) returns (c: Option<Claim>)
    ensures c == TargetClaim(claims, nodeName)
  {
    for i := 0 to |claims|
      invariant TargetClaim(claims, nodeName) == TargetClaim(claims[i..], nodeName)
    {
      assert claims[i..][0] == claims[i] && claims[i..][1..] == claims[i + 1..];
      if claims[i].nodeName == nodeName {
        return Some(claims[i]);
      }
    }
    return None;
  }

  function VerifyClaims(describe: EC2, nodeName: string, claims: seq<Claim>): Result<bool> {
    Ask(describe, nodeName, Chunks(InstanceIDs(claims), MAX_IDS), 0).result
  }

  /** The node name a CSR asks for. */
  function NodeName(csr: Csr): Result<string> {
    var name := match csr.signer
      case KubeAPIServerClientKubelet => if csr.commonName.Some? then TrimPrefix(csr.commonName.value, NODE_PREFIX) else ""
      case KubeletServing => TrimPrefix(csr.username, NODE_PREFIX)
      case OtherSigner(_) => "";
    if name == "" then Err else Ok(name)
  }

  /** The claims that a CSR's node name is checked against, out of those that were listed. */
  function Candidates(csr: Csr, nodeName: string, listed: seq<Claim>): seq<Claim> {
    match csr.signer
    case KubeAPIServerClientKubelet => Unbound(listed)
    case KubeletServing =>
      var target := TargetClaim(listed, nodeName);
      if target.Some? then [target.value] else []
    case OtherSigner(_) => []
  }

  function Authorize(csr: Csr, listed: Result<seq<Claim>>, describe: EC2): Result<bool> {
    var name := NodeName(csr);
    if name.Err? || listed.Err? then Err
    else
      var candidates := Candidates(csr, name.value, listed.value);
      if candidates == [] then Ok(false) else VerifyClaims(describe, name.value, candidates)
  }

  /** When EC2 answers the calls about the candidates, a CSR is authorized exactly if its name is that of a candidate's instance. */
  lemma AuthorizedIffInstanceNamed(csr: Csr, listed: seq<Claim>, describe: EC2, dns: string -> Option<string>)
    requires NodeName(csr).Ok?
    requires AnswersBatches(describe, dns, Chunks(InstanceIDs(Candidates(csr, NodeName(csr).value, listed)), MAX_IDS))
    ensures Authorize(csr, Ok(listed), describe) ==
              Ok(SomeClaimNames(dns, NodeName(csr).value, Candidates(csr, NodeName(csr).value, listed)))
  {
    BatchedIsSingle(describe, dns, NodeName(csr).value, Candidates(csr, NodeName(csr).value, listed));
  }

  method AuthorizeClientCSR(csr: Csr, listed: Result<seq<Claim>>, describe: EC2) returns (authorized: Result<bool>)
    requires csr.signer == KubeAPIServerClientKubelet
    ensures authorized == Authorize(csr, listed, describe)
  {
    if csr.commonName.None? {
      return Err;
    }
    var nodeName := TrimPrefix(csr.commonName.value, NODE_PREFIX);
    if |nodeName| == 0 || listed.Err? {
      return Err;
    }
    var items := new Claim[|listed.value|](i requires 0 <= i < |listed.value| => listed.value[i]);
    assert items[..] == listed.value;
    var kept := DeleteBound(items);
    if kept == 0 {
      return Ok(false);
    }
    var verified, calls := Verify(describe, nodeName, items[..kept]);
    return verified;
  }

  method AuthorizeServingCSR(csr: Csr, listed: Result<seq<Claim>>, describe: EC2) returns (authorized: Result<bool>)
    requires csr.signer == KubeletServing
    ensures authorized == Authorize(csr, listed, describe)
  {
    var nodeName := TrimPrefix(csr.username, NODE_PREFIX);
    if |nodeName| == 0 || listed.Err? {
      return Err;
    }
    var claim := FindTargetNodeClaim(listed.value, nodeName);
    if claim.None? {
      return Ok(false);
    }
    var verified, calls := Verify(describe, nodeName, [claim.value]);
    return verified;
  }

  // ---- The CSR at the API server ----

  /** What everybody else does to the CSR under this name. */
  datatype Action =
    | Submit(csr: Csr)
    | Remove
    | AppendCondition(condition: Condition)
    | EditFinalizers(finalizers: seq<string>)

  function Apply(st: Store<Csr>, a: Action): Store<Csr> {
    match a
    case Submit(csr) => Create(st, [], csr.(conditions := []))
    case Remove => Delete(st)
    case AppendCondition(c) =>
      if st.live.None? then st
      else SetSpec(st, st.live.value.spec.(conditions := st.live.value.spec.conditions + [c]))
    case EditFinalizers(finalizers) => SetFinalizers(st, finalizers)
  }

  function Play(st: Store<Csr>, actions: seq<Action>): Store<Csr>
    decreases |actions|
  {
    if actions == [] then st else Play(Apply(st, actions[0]), actions[1..])
  }

  /** The approval subresource takes the conditions that were sent, if nothing changed since they were read. */
  function UpdateApproval(st: Store<Csr>, sent: Object<Csr>): Result<Store<Csr>> {
    if st.live.None? || st.live.value.rv != sent.rv then Err
    else Ok(SetSpec(st, st.live.value.spec.(conditions := sent.spec.conditions)))
  }

  // ---- Runs ----

  /** A successful approval: what was read, what was listed, how EC2 answered, and the CSR before and after. */
  datatype Approval = Approval(seen: Object<Csr>, listed: seq<Claim>, describe: EC2, before: Store<Csr>, after: Store<Csr>)

  ghost predicate Verified(csr: Csr, listed: seq<Claim>, describe: EC2) {
    && NodeName(csr).Ok?
    && VerifyClaims(describe, NodeName(csr).value, Candidates(csr, NodeName(csr).value, listed)) == Ok(true)
  }

  /**
   The approved CSR is the one that was read, and it was undecided and not being deleted; its name was verified against
   exactly the claims that are candidates for its signer; and the approval appends one condition and changes nothing else.
   */
  ghost predicate Justified(a: Approval) {
    && a.before.live == Some(a.seen) && !a.seen.deleting
    && !Decided(a.seen.spec.conditions)
    && Verified(a.seen.spec, a.listed, a.describe)
    && a.after == SetSpec(a.before, a.seen.spec.(conditions := a.seen.spec.conditions + [APPROVAL]))
  }

  /** The CSR gets one more Approved condition, and is otherwise the one it was. */
  ghost predicate OnlyApproves(before: Store<Csr>, after: Store<Csr>) {
    && before.live.Some? && after.live.Some? && before.live.value.uid == after.live.value.uid
    && SameRequest(before.live.value.spec, after.live.value.spec)
    && var was, now := before.live.value.spec.conditions, after.live.value.spec.conditions;
       && was <= now && |now| == |was| + 1
       && CountOf(now, Approved) == CountOf(was, Approved) + 1 && CountOf(now, Denied) == CountOf(was, Denied)
       && forall c :: c in now ==> c.kind != Denied
  }

  lemma JustifiedApproves(a: Approval)
    requires Justified(a)
    ensures OnlyApproves(a.before, a.after)
  {
    var was := a.seen.spec.conditions;
    CountNext(was, APPROVAL, Approved);
    CountNext(was, APPROVAL, Denied);
  }

  lemma NothingToVerify(describe: EC2, nodeName: string)
    ensures VerifyClaims(describe, nodeName, []) == Ok(false)
  {
    assert InstanceIDs([]) == [];
  }

  /** Who was asked about: every unbound claim and no other, or a single claim bound to the node's name. */
  lemma VerifiedOver(csr: Csr, listed: seq<Claim>, describe: EC2)
    requires Verified(csr, listed, describe)
    ensures var candidates := Candidates(csr, NodeName(csr).value, listed);
            && candidates != []
            && (csr.signer == KubeAPIServerClientKubelet ==> forall c :: c in candidates <==> c in listed && c.nodeName == "")
            && (csr.signer == KubeletServing ==>
                  |candidates| == 1 && candidates[0] in listed && candidates[0].nodeName == NodeName(csr).value)
            && !csr.signer.OtherSigner?
  {
    var candidates := Candidates(csr, NodeName(csr).value, listed);
    NothingToVerify(describe, NodeName(csr).value);
    if csr.signer == KubeAPIServerClientKubelet {
      forall c ensures c in candidates <==> c in listed && c.nodeName == "" {
        FilterMembers(listed, IsUnbound, c);
      }
    }
  }

  /** Every version since the approval still carries the decision. */
  ghost predicate StaysDecided(st: Store<Csr>, a: Approval) {
    && a.seen.uid < |a.before.versions| < |st.versions|
    && forall i :: |a.before.versions| <= i < |st.versions| && st.versions[i].uid == a.seen.uid
                   ==> Decided(st.versions[i].spec.conditions)
  }

  /** Everything but the conditions is immutable. */
  predicate SameRequest(a: Csr, b: Csr) {
    a.(conditions := []) == b.(conditions := [])
  }

  /** All versions of one CSR are of the same request, and UIDs are not used again. */
  ghost predicate Immutable(st: Store<Csr>) {
    && (forall i :: 0 <= i < |st.versions| ==> st.versions[i].uid <= i)
    && (forall i, j :: 0 <= i < j < |st.versions| && st.versions[i].uid == st.versions[j].uid ==>
          SameRequest(st.versions[i].spec, st.versions[j].spec))
  }

  lemma PutKeepsImmutable(st: Store<Csr>, deleting: bool, finalizers: seq<string>, conditions: seq<Condition>)
    requires Valid(st) && Immutable(st) && st.live.Some?
    ensures Immutable(Put(st, deleting, finalizers, st.live.value.spec.(conditions := conditions)))
  {
    var st' := Put(st, deleting, finalizers, st.live.value.spec.(conditions := conditions));
    var n := |st.versions|;
    forall i | 0 <= i < n && |st'.versions| > n && st'.versions[i].uid == st'.versions[n].uid
      ensures SameRequest(st'.versions[i].spec, st'.versions[n].spec)
    {
      assert st'.versions[i] == st.versions[i] && st.versions[n - 1] == st.live.value;
    }
  }

  lemma ApplyKeepsImmutable(st: Store<Csr>, a: Action)
    requires Valid(st) && Immutable(st)
    ensures Immutable(Apply(st, a))
  {
    if st.live.Some? {
      var o := st.live.value;
      assert o.spec.(conditions := o.spec.conditions) == o.spec;
      match a
      case Submit(_) =>
      case Remove => PutKeepsImmutable(st, true, o.finalizers, o.spec.conditions);
      case AppendCondition(c) => PutKeepsImmutable(st, o.deleting, o.finalizers, o.spec.conditions + [c]);
      case EditFinalizers(fs) => PutKeepsImmutable(st, o.deleting, fs, o.spec.conditions);
    }
  }

  /** What every run keeps. */
  ghost predicate Sound(st: Store<Csr>, approvals: seq<Approval>) {
    && Valid(st) && Immutable(st)
    && (forall i :: 0 <= i < |approvals| ==> Justified(approvals[i]) && StaysDecided(st, approvals[i]))
    && (forall i, j :: 0 <= i < j < |approvals| ==> approvals[i].seen.uid != approvals[j].seen.uid)
  }

  lemma ApplyKeepsDecided(st: Store<Csr>, a: Action, p: Approval)
    requires Valid(st) && StaysDecided(st, p)
    ensures StaysDecided(Apply(st, a), p)
  {
    var st' := Apply(st, a);
    if |st'.versions| > |st.versions| && st.live.Some? && st.live.value.uid == p.seen.uid {
      var c :| c in st.live.value.spec.conditions && (c.kind == Approved || c.kind == Denied);
      assert c in st'.versions[|st.versions|].spec.conditions;
    }
  }

  lemma ApplyKeeps(st: Store<Csr>, a: Action, approvals: seq<Approval>)
    requires Sound(st, approvals)
    ensures Sound(Apply(st, a), approvals)
  {
    ApplyKeepsImmutable(st, a);
    forall i | 0 <= i < |approvals| ensures StaysDecided(Apply(st, a), approvals[i]) {
      ApplyKeepsDecided(st, a, approvals[i]);
    }
  }

  lemma {:induction false} PlayKeeps(st: Store<Csr>, actions: seq<Action>, approvals: seq<Approval>)
    requires Sound(st, approvals)
    ensures Sound(Play(st, actions), approvals) && st.versions <= Play(st, actions).versions
    decreases |actions|
  {
    if actions != [] {
      ApplyKeeps(st, actions[0], approvals);
      PlayKeeps(Apply(st, actions[0]), actions[1..], approvals);
    }
  }

  /** An approval goes through only for an object that no approval in the run has touched. */
  lemma ApproveKeeps(st: Store<Csr>, p: Approval, approvals: seq<Approval>)
    requires Sound(st, approvals) && Justified(p) && p.before == st
    ensures Sound(p.after, approvals + [p])
  {
    var n := |st.versions|;
    assert p.seen == st.versions[n - 1];
    ApprovedImmutable(st, p);
    assert APPROVAL in p.seen.spec.conditions + [APPROVAL];
    assert StaysDecided(p.after, p) by { ApprovedVersion(st, p); }
    forall i | 0 <= i < |approvals|
      ensures StaysDecided(p.after, approvals[i]) && approvals[i].seen.uid != p.seen.uid
    {
      assert StaysDecided(st, approvals[i]);
      ApprovedVersion(st, p);
    }
  }

  lemma ApprovedImmutable(st: Store<Csr>, p: Approval)
    requires Valid(st) && Immutable(st) && Justified(p) && p.before == st
    ensures Immutable(p.after)
  {
    PutKeepsImmutable(st, p.seen.deleting, p.seen.finalizers, p.seen.spec.conditions + [APPROVAL]);
  }

  /** The store after an approval: the object lives on, with one more version. */
  lemma ApprovedVersion(st: Store<Csr>, p: Approval)
    requires Valid(st) && Justified(p) && p.before == st
    ensures Valid(p.after)
    ensures |p.after.versions| == |st.versions| + 1 && st.versions <= p.after.versions
    ensures p.after.versions[|st.versions|].uid == p.seen.uid
    ensures p.after.versions[|st.versions|].spec.conditions == p.seen.spec.conditions + [APPROVAL]
  {}

  /**
   Over every run: two successful approvals are of two different CSRs, so the controller adds at most one Approved
   condition to each; and a CSR it approved is never undecided again.
   */
  lemma ApprovedOnce(st: Store<Csr>, approvals: seq<Approval>, i: nat, j: nat)
    requires Sound(st, approvals) && i < j < |approvals|
    ensures approvals[i].seen.uid != approvals[j].seen.uid
    ensures st.live.Some? && st.live.value.uid == approvals[i].seen.uid ==> Decided(st.live.value.spec.conditions)
  {
    assert StaysDecided(st, approvals[i]);
  }

  // ---- The event filter and the reconcile ----

  lemma SameUIDSameRequest(st: Store<Csr>, a: Object<Csr>, b: Object<Csr>)
    requires Immutable(st) && Seen(st, a) && Seen(st, b)
    ensures a.uid == b.uid ==> SameRequest(a.spec, b.spec) && (RequestAccepted(a.spec) <==> RequestAccepted(b.spec))
  {}

  /** An object that a reconcile may read after an event: of the same request, if it is the same CSR. */
  predicate MayFollow(event: Object<Csr>, o: Object<Csr>) {
    o.uid == event.uid ==> SameRequest(o.spec, event.spec)
  }

  /** A client CSR of some user, for a node that is about to join. */
  function ClientCsr(username: string, name: string): Csr {
    Csr(KubeAPIServerClientKubelet, username, [], Some(NODE_PREFIX + name), [])
  }

  /** The node's name with or without the prefix, in the subject of a client request or the user of a server request. */
  predicate Names(s: string, name: string) {
    s == "system:node:" + name || (s == name && !("system:node:" <= name))
  }

  lemma NodeNameMeans(csr: Csr, name: string)
    ensures NodeName(csr) == Ok(name) <==>
              name != ""
              && match csr.signer
                 case KubeAPIServerClientKubelet => csr.commonName.Some? && Names(csr.commonName.value, name)
                 case KubeletServing => Names(csr.username, name)
                 case OtherSigner(_) => false
  {
    TrimPrefixOf(NODE_PREFIX, name);
    if csr.commonName.Some? { TrimmedNames(csr.commonName.value, name); }
    TrimmedNames(csr.username, name);
  }

  lemma TrimmedNames(s: string, name: string)
    ensures TrimPrefix(s, NODE_PREFIX) == name <==> Names(s, name)
  {
    TrimPrefixOf(NODE_PREFIX, name);
    if NODE_PREFIX <= s {
      assert s == NODE_PREFIX + s[|NODE_PREFIX|..];
    }
  }

  lemma TrimPrefixOf(prefix: string, s: string)
    ensures TrimPrefix(prefix + s, prefix) == s
  {
    assert (prefix + s)[..|prefix|] == prefix && (prefix + s)[|prefix|..] == s;
  }

  /** Instances that were launched together come in one reservation. */
  function Together(ids: seq<string>): (groups: seq<seq<string>>)
    ensures SplitsInto(groups, ids)
  {
    assert [ids][0] == ids;
    [ids]
  }

  /** An EC2 with one instance. */
  function OneInstance(id: string, name: string): EC2 {
    StrictEC2(map[id := Some(name)], Together, [])
  }

  lemma LoneClaimIsAuthorized(csr: Csr, claim: Claim, id: string, name: string)
    requires csr.signer == KubeAPIServerClientKubelet && NodeName(csr) == Ok(name)
    requires IsUnbound(claim) && HasID(claim, id)
    ensures Authorize(csr, Ok([claim]), OneInstance(id, name)) == Ok(true)
  {
    var instances := map[id := Some(name)];
    FilterOne(claim, IsUnbound);
    InstanceIDsOne(claim, id);
    StrictEC2AnswersBatches(instances, Together, [], [claim]);
    AuthorizedIffInstanceNamed(csr, [claim], OneInstance(id, name), NameIn(instances));
    assert claim in [claim] && NameIn(instances)(id) == Some(name);
  }

  /** Authorization looks at the node's name only, not at the user. */
  lemma AnyUserIsAuthorized(username: string, name: string, id: string)
    requires name != "" && id != "" && '/' !in id
    ensures Authorize(ClientCsr(username, name), Ok([Claim("/" + id, "")]), OneInstance(id, name)) == Ok(true)
  {
    TrimPrefixOf(NODE_PREFIX, name);
    assert EndsIn("/" + id, "", id) by { assert "" + "/" + id == "/" + id; }
    InstanceIDIff("/" + id, id);
    LoneClaimIsAuthorized(ClientCsr(username, name), Claim("/" + id, ""), id, name);
  }

  /** A reconcile that may follow the event approves what it reads, for some list of NodeClaims and answer of EC2. */
  ghost predicate MayApprove(event: Object<Csr>, o: Object<Csr>) {
    MayFollow(event, o) && exists listed: seq<Claim>, describe: EC2 :: Authorize(o.spec, Ok(listed), describe) == Ok(true)
  }

  lemma SameRequestAccepted(event: Object<Csr>, o: Object<Csr>)
    requires RequestAccepted(event.spec) && MayFollow(event, o)
    ensures o.uid == event.uid ==> RequestAccepted(o.spec)
  {}

  lemma AnotherMayBeApproved(event: Object<Csr>, uid: nat, name: string, id: string) returns (o: Object<Csr>)
    requires uid != event.uid && name != "" && id != "" && '/' !in id
    ensures o.uid == uid && MayApprove(event, o) && !RequestAccepted(o.spec)
  {
    o := Object(uid, 0, false, [], ClientCsr("", name));
    AnyUserIsAuthorized("", name, id);
  }

  /**
   The filter is applied to the event's object and not again to what the reconcile reads. Whatever may be approved then
   passes the filter, if and only if the CSR that is read is the one of the event, by UID.
   */
  lemma {:induction false} FilterHoldsIffSameUID(event: Object<Csr>, uid: nat)
    requires RequestAccepted(event.spec)
    ensures (forall o: Object<Csr> :: o.uid == uid && MayApprove(event, o) ==> RequestAccepted(o.spec)) <==> uid == event.uid
  {
    if uid == event.uid {
      forall o: Object<Csr> | o.uid == uid && MayApprove(event, o) ensures RequestAccepted(o.spec) {
        SameRequestAccepted(event, o);
      }
    } else {
      var o := AnotherMayBeApproved(event, uid, "n", "i");
    }
  }

  /** For instance: between event and reconcile the CSR is removed, and another user's is submitted under its name. */
  lemma ReusedNamePassesUnfiltered(username: string, name: string, id: string)
    requires username != NODE_BOOTSTRAPPER && name != "" && id != "" && '/' !in id
    ensures var event := Object(0, 0, false, [], ClientCsr(NODE_BOOTSTRAPPER, name));
            var st := Play(Store(Some(event), [event]), [Remove, Submit(ClientCsr(username, name))]);
            && RequestAccepted(event.spec) && st.live.Some? && st.live.value.uid != event.uid
            && Decide(Ok(st.live), true, Ok([Claim("/" + id, "")]), OneInstance(id, name)) == Approve
            && !RequestAccepted(st.live.value.spec)
  {
    var event := Object(0, 0, false, [], ClientCsr(NODE_BOOTSTRAPPER, name));
    AnyUserIsAuthorized(username, name, id);
    RemovedAndSubmitted(event, ClientCsr(username, name));
  }

  lemma {:induction false} RemovedAndSubmitted(event: Object<Csr>, csr: Csr)
    requires event.finalizers == [] && !event.deleting
    ensures Play(Store(Some(event), [event]), [Remove, Submit(csr)]).live == Some(Object(1, 1, false, [], csr.(conditions := [])))
  {
    var st := Store(Some(event), [event]);
    assert [Remove, Submit(csr)][1..] == [Submit(csr)] && [Submit(csr)][1..] == [];
    assert Play(st, [Remove, Submit(csr)]) == Play(Apply(st, Remove), [Submit(csr)]);
    assert Play(Apply(st, Remove), [Submit(csr)]) == Play(Apply(Apply(st, Remove), Submit(csr)), []);
  }

  datatype Decision = Skip | Fail | Approve

  function Decide(read: Result<Option<Object<Csr>>>, pending: bool, listed: Result<seq<Claim>>, describe: EC2): Decision {
    if read.Err? then Fail
    else if read.value.None? || read.value.value.deleting || !pending then Skip
    else
      match Authorize(read.value.value.spec, listed, describe)
      case Err => Fail
      case Ok(authorized) => if authorized then Approve else Skip
  }

  /** What the cache hands out: an error, no CSR, or any version that there ever was. */
  datatype Cached = CacheError | CacheMiss | CacheHit(version: nat)

  /**
   One reconcile: what others do before it, the version whose event enqueued it, what it reads, and what happens before
   its approval arrives.
   */
  datatype Round = Round(between: seq<Action>, event: nat, cached: Cached, listed: Result<seq<Claim>>, describe: EC2,
                         turns: seq<Action>, fails: bool)

  class Controller {
    var csr: Store<Csr>
    ghost var approvals: seq<Approval>
    /** The object of the event that led to each approval. */
    ghost var events: seq<Object<Csr>>

    constructor ()
      ensures Sound(csr, approvals) && Triggered() && approvals == []
    {
      csr, approvals, events := Store(None, []), [], [];
    }

    /** Each approval goes back to an event that passed the filter, and passes it itself if it is of the same CSR. */
    ghost predicate Triggered()
      reads this
    {
      && |events| == |approvals|
      && forall i :: 0 <= i < |events| ==>
           RequestAccepted(events[i].spec)
           && (events[i].uid == approvals[i].seen.uid ==> RequestAccepted(approvals[i].seen.spec))
    }

    /**
     Any number of reconciles, interleaved with everybody else's actions and with a cache that may lag arbitrarily: every
     approval is justified, no two are of the same CSR, no approved CSR is undecided again, and every approved CSR that is
     the one of the event passes the filter.
     */
    method Run(rounds: seq<Round>)
      requires Sound(csr, approvals) && Triggered()
      modifies this
      ensures Sound(csr, approvals) && Triggered() && old(approvals) <= approvals
      ensures forall i :: 0 <= i < |approvals| ==>
                Justified(approvals[i]) && OnlyApproves(approvals[i].before, approvals[i].after)
      ensures forall i, j :: 0 <= i < j < |approvals| ==> approvals[i].seen.uid != approvals[j].seen.uid
      ensures forall i :: 0 <= i < |approvals| && csr.live.Some? && csr.live.value.uid == approvals[i].seen.uid ==>
                Decided(csr.live.value.spec.conditions)
    {
      for i := 0 to |rounds|
        invariant Sound(csr, approvals) && Triggered() && old(approvals) <= approvals
      {
        PlayKeeps(csr, rounds[i].between, approvals);
        csr := Play(csr, rounds[i].between);
        if rounds[i].event < |csr.versions| {
          HandleEvent(csr.versions[rounds[i].event], rounds[i]);
        }
      }
      forall i | 0 <= i < |approvals| && csr.live.Some? && csr.live.value.uid == approvals[i].seen.uid
        ensures Decided(csr.live.value.spec.conditions)
      {
        assert StaysDecided(csr, approvals[i]);
      }
      forall i | 0 <= i < |approvals| ensures OnlyApproves(approvals[i].before, approvals[i].after) {
        JustifiedApproves(approvals[i]);
      }
    }

    /** An event of some version of the CSR: the filter, and then the reconcile of whatever now has its name. */
    method HandleEvent(event: Object<Csr>, round: Round)
      requires Sound(csr, approvals) && Triggered() && Seen(csr, event)
      modifies this
      ensures Sound(csr, approvals) && Triggered() && old(approvals) <= approvals
    {
      var accepted := CsrFilter(event.spec);
      if !accepted {
        return;
      }
      var read := Read(round.cached);
      if read.Ok? && read.value.Some? { SameUIDSameRequest(csr, event, read.value.value); }
      var ok := Reconcile(read, round.listed, round.describe, round.turns, round.fails);
      if |approvals| > |old(approvals)| {
        events := events + [event];
      }
    }

    method Read(cached: Cached) returns (read: Result<Option<Object<Csr>>>)
      requires Valid(csr)
      ensures read.Ok? && read.value.Some? ==> Seen(csr, read.value.value)
      ensures cached.CacheHit? && cached.version < |csr.versions| ==> read == Ok(Some(csr.versions[cached.version]))
    {
      match cached
      case CacheError => return Err;
      case CacheMiss => return Ok(None);
      case CacheHit(version) => return Ok(if version < |csr.versions| then Some(csr.versions[version]) else None);
    }

    /** `read` is any version that the CSR ever had; `turns` is what others do before the approval arrives. */
    method Reconcile(read: Result<Option<Object<Csr>>>, listed: Result<seq<Claim>>, describe: EC2, turns: seq<Action>, fails: bool)
      returns (ok: bool)
      requires Sound(csr, approvals)
      requires read.Ok? && read.value.Some? ==> Seen(csr, read.value.value)
      modifies this`csr, this`approvals
      ensures Sound(csr, approvals)
      ensures var mid := Play(old(csr), turns);
              var decision := Decide(read, read.Ok? && read.value.Some? && !Decided(read.value.value.spec.conditions), listed, describe);
              if decision == Approve && mid.live == read.value && !fails then
                && ok && OnlyApproves(mid, csr)
                && approvals == old(approvals) + [Approval(read.value.value, listed.value, describe, mid, csr)]
              else
                && ok == (decision == Skip)
                && csr == mid && approvals == old(approvals)
    {
      ghost var mid := Play(csr, turns);
      PlayKeeps(csr, turns, approvals);
      if read.Err? {
        csr := Play(csr, turns);
        return false;
      }
      if read.value.None? || read.value.value.deleting {
        csr := Play(csr, turns);
        return true;
      }
      var pending := IsCertificateRequestPending(read.value.value.spec);
      if !pending {
        csr := Play(csr, turns);
        return true;
      }
      var authorized := AuthorizeCSR(read.value.value.spec, listed, describe);
      csr := Play(csr, turns);
      if authorized.Err? {
        return false;
      }
      ok := true;
      if authorized.value {
        ok := ApproveCSR(read.value.value, listed.value, describe, fails);
      }
    }

    static method AuthorizeCSR(csr: Csr, listed: Result<seq<Claim>>, describe: EC2) returns (authorized: Result<bool>)
      ensures authorized == Authorize(csr, listed, describe)
    {
      match csr.signer
      case KubeAPIServerClientKubelet => authorized := AuthorizeClientCSR(csr, listed, describe);
      case KubeletServing => authorized := AuthorizeServingCSR(csr, listed, describe);
      case OtherSigner(_) => return Err;
    }

    /** Whatever version was read, the approval succeeds only on a CSR that still is that version. */
    method ApproveCSR(seen: Object<Csr>, listed: seq<Claim>, describe: EC2, fails: bool) returns (ok: bool)
      requires Sound(csr, approvals) && Seen(csr, seen)
      requires !seen.deleting && !Decided(seen.spec.conditions) && Authorize(seen.spec, Ok(listed), describe) == Ok(true)
      modifies this`csr, this`approvals
      ensures Sound(csr, approvals)
      ensures ok == (old(csr).live == Some(seen) && !fails)
      ensures ok ==> approvals == old(approvals) + [Approval(seen, listed, describe, old(csr), csr)]
      ensures !ok ==> csr == old(csr) && approvals == old(approvals)
      ensures ok ==> OnlyApproves(old(csr), csr)
    {
      var sent := seen.(spec := seen.spec.(conditions := seen.spec.conditions + [APPROVAL]));
      var result := UpdateApproval(csr, sent);
      if result.Err? || fails {
        return false;
      }
      ghost var p := Approval(seen, listed, describe, csr, result.value);
      assert p.before.live == Some(seen);
      ApproveKeeps(csr, p, approvals);
      JustifiedApproves(p);
      csr := result.value;
      approvals := approvals + [p];
      return true;
    }
  }
}
