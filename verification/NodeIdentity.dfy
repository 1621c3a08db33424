/**
 Whether a node name belongs to the EC2 instance of one of a list of NodeClaims. The instances are looked up in
 batches, and EC2 answers or fails each call on its own: `describe(i, ids)` is its answer to the i-th call.
 */
module NodeIdentity {
  import opened Wrappers

  const MAX_IDS := 1000

  datatype Claim = Claim(providerID: string, nodeName: string)

  datatype Instance = Instance(id: string, privateDnsName: Option<string>)

  type Reservations = seq<seq<Instance>>

  type EC2 = (nat, seq<string>) -> Result<Reservations>

  // ---- Provider IDs ----

  /** The index of the last `c`, or -1. */
  function LastIndex(s: string, c: char): (i: int)
    ensures -1 <= i < |s|
    ensures i >= 0 ==> s[i] == c
    ensures forall j :: i < j < |s| ==> s[j] != c
  {
    if s == "" then -1
    else if s[|s| - 1] == c then |s| - 1
    else LastIndex(s[..|s| - 1], c)
  }

  function InstanceID(providerID: string): Option<string> {
    var separator := LastIndex(providerID, '/');
    if separator < 0 || separator == |providerID| - 1 then None else Some(providerID[separator + 1..])
  }

  lemma {:induction false} LastSlash(prefix: string, id: string)
    requires '/' !in id
    ensures LastIndex(prefix + "/" + id, '/') == |prefix|
  {
    var s := prefix + "/" + id;
    if id == "" {
      assert s == prefix + "/";
    } else {
      var n := |id| - 1;
      assert s[..|s| - 1] == prefix + "/" + id[..n] && s[|s| - 1] == id[n];
      LastSlash(prefix, id[..n]);
    }
  }

  predicate EndsIn(s: string, prefix: string, id: string) {
    s == prefix + "/" + id
  }

  /** An instance ID is what follows the last slash, if anything does. */
  lemma InstanceIDIff(providerID: string, id: string)
    ensures InstanceID(providerID) == Some(id) <==> id != "" && '/' !in id && exists prefix :: EndsIn(providerID, prefix, id)
  {
    if InstanceID(providerID) == Some(id) {
      assert EndsIn(providerID, providerID[..LastIndex(providerID, '/')], id);
    }
    forall prefix | id != "" && '/' !in id && EndsIn(providerID, prefix, id) ensures InstanceID(providerID) == Some(id) {
      LastSlash(prefix, id);
      assert providerID[|prefix| + 1..] == id;
    }
  }

  function InstanceIDs(claims: seq<Claim>): seq<string> {
    if claims == [] then []
    else
      var n := |claims| - 1;
      var id := InstanceID(claims[n].providerID);
      InstanceIDs(claims[..n]) + if id.Some? then [id.value] else []
  }

  ghost predicate HasID(claim: Claim, id: string) {
    InstanceID(claim.providerID) == Some(id)
  }

  lemma {:induction false} InstanceIDsAre(claims: seq<Claim>, id: string)
    ensures id in InstanceIDs(claims) <==> exists c :: c in claims && HasID(c, id)
  {
    if claims != [] {
      var n := |claims| - 1;
      InstanceIDsAre(claims[..n], id);
      assert claims == claims[..n] + [claims[n]];
      assert HasID(claims[n], id) <==> InstanceID(claims[n].providerID) == Some(id);
    }
  }

  lemma InstanceIDsOne(claim: Claim, id: string)
    requires HasID(claim, id)
    ensures InstanceIDs([claim]) == [id]
  {
    assert [claim][..0] == [];
  }

  // ---- Batches ----

  function Chunks(ids: seq<string>, size: nat): seq<seq<string>>
    requires size > 0
  {
    if ids == [] then []
    else if |ids| <= size then [ids]
    else [ids[..size]] + Chunks(ids[size..], size)
  }

  function Concat(batches: seq<seq<string>>): seq<string> {
    if batches == [] then [] else batches[0] + Concat(batches[1..])
  }

  /** Batching loses, repeats and reorders nothing, and stays within the limit of one call. */
  lemma {:induction false} ChunksPartition(ids: seq<string>, size: nat)
    requires size > 0
    ensures Concat(Chunks(ids, size)) == ids
    ensures forall batch :: batch in Chunks(ids, size) ==> 1 <= |batch| <= size
  {
    if |ids| > size {
      ChunksPartition(ids[size..], size);
      var first, rest := ids[..size], Chunks(ids[size..], size);
      assert Chunks(ids, size) == [first] + rest;
      assert ([first] + rest)[1..] == rest;
      assert first + ids[size..] == ids;
    } else if ids != [] {
      assert [ids][1..] == [];
      assert ids + [] == ids;
    }
  }

  /** No call is wasted: there are as many as the limit makes necessary. */
  lemma {:induction false} ChunkCount(ids: seq<string>, size: nat)
    requires size > 0
    ensures |Chunks(ids, size)| * size < |ids| + size && |ids| <= |Chunks(ids, size)| * size
  {
    if |ids| > size {
      ChunkCount(ids[size..], size);
    }
  }

  lemma {:induction false} InConcat(batches: seq<seq<string>>, id: string)
    ensures id in Concat(batches) <==> exists i :: 0 <= i < |batches| && id in batches[i]
  {
    if batches != [] {
      InConcat(batches[1..], id);
      if exists i :: 0 <= i < |batches| && id in batches[i] {
        var i :| 0 <= i < |batches| && id in batches[i];
        assert i > 0 ==> id in batches[1..][i - 1];
      }
    }
  }

  // ---- Verify ----

  /** A missing name reads as the empty string. */
  function DnsName(instance: Instance): string {
    if instance.privateDnsName.Some? then instance.privateDnsName.value else ""
  }

  predicate InReservation(reservation: seq<Instance>, nodeName: string) {
    exists i :: 0 <= i < |reservation| && DnsName(reservation[i]) == nodeName
  }

  predicate Named(reservations: Reservations, nodeName: string) {
    exists r :: 0 <= r < |reservations| && InReservation(reservations[r], nodeName)
  }

  /** Instance `i` of reservation `r` has this name; one without a name has the empty one. */
  predicate HasName(reservations: Reservations, r: int, i: int, nodeName: string) {
    && 0 <= r < |reservations| && 0 <= i < |reservations[r]|
    && var name := reservations[r][i].privateDnsName;
       name == Some(nodeName) || (name == None && nodeName == "")
  }

  /** Any instance of any reservation counts. */
  lemma NamedMeans(reservations: Reservations, nodeName: string)
    ensures Named(reservations, nodeName) <==> exists r, i :: HasName(reservations, r, i, nodeName)
  {
    if Named(reservations, nodeName) {
      var r :| 0 <= r < |reservations| && InReservation(reservations[r], nodeName);
      var i :| 0 <= i < |reservations[r]| && DnsName(reservations[r][i]) == nodeName;
      assert HasName(reservations, r, i, nodeName);
    }
    if r, i :| HasName(reservations, r, i, nodeName) {
      assert InReservation(reservations[r], nodeName);
    }
  }

  datatype Outcome = Outcome(result: Result<bool>, calls: seq<seq<string>>)

  /** The outcome once the first `k` batches were answered without a match. */
  function Ask(describe: EC2, nodeName: string, batches: seq<seq<string>>, k: nat): (o: Outcome)
    requires k <= |batches|
    ensures o.calls <= batches && k <= |o.calls|
    decreases |batches| - k
  {
    if k == |batches| then Outcome(Ok(false), batches)
    else
      var answer := describe(k, batches[k]);
      if answer.Err? then Outcome(Err, batches[..k + 1])
      else if Named(answer.value, nodeName) then Outcome(Ok(true), batches[..k + 1])
      else Ask(describe, nodeName, batches, k + 1)
  }

  method MatchesPrivateDNSName(answer: Result<Reservations>, nodeName: string) returns (found: Result<bool>)
    ensures found.Err? <==> answer.Err?
    ensures found.Ok? ==> (found.value <==> Named(answer.value, nodeName))
    ensures found == Ok(true) <==> answer.Ok? && exists r, i :: HasName(answer.value, r, i, nodeName)
  {
    if answer.Ok? { NamedMeans(answer.value, nodeName); }
    if answer.Err? {
      return Err;
    }
    var reservations := answer.value;
    for r := 0 to |reservations|
      invariant forall q :: 0 <= q < r ==> !InReservation(reservations[q], nodeName)
    {
      var instances := reservations[r];
      for i := 0 to |instances|
        invariant forall j :: 0 <= j < i ==> DnsName(instances[j]) != nodeName
      {
        if DnsName(instances[i]) == nodeName {
          assert InReservation(reservations[r], nodeName);
          return Ok(true);
        }
      }
    }
    return Ok(false);
  }

  method Verify(describe: EC2, nodeName: string, claims: seq<Claim>) returns (result: Result<bool>, calls: seq<seq<string>>)
    ensures Outcome(result, calls) == Ask(describe, nodeName, Chunks(InstanceIDs(claims), MAX_IDS), 0)
    ensures forall k :: 0 <= k < |calls| ==> 1 <= |calls[k]| <= 1000
    ensures result == Ok(false) ==> Concat(calls) == InstanceIDs(claims) && |calls| * 1000 < |InstanceIDs(claims)| + 1000
  {
    var ids := [];
    for i := 0 to |claims|
      invariant ids == InstanceIDs(claims[..i])
    {
      assert claims[..i + 1][..i] == claims[..i];
      var id := InstanceID(claims[i].providerID);
      if id.Some? {
        ids := ids + [id.value];
      }
    }
    assert claims[..|claims|] == claims;

    var batches := Chunks(ids, MAX_IDS);
    ChunksPartition(ids, MAX_IDS);
    ChunkCount(ids, MAX_IDS);
    calls := [];
    for k := 0 to |batches|
      invariant calls == batches[..k]
      invariant Ask(describe, nodeName, batches, k) == Ask(describe, nodeName, batches, 0)
    {
      calls := calls + [batches[k]];
      assert calls == batches[..k + 1];
      var found := MatchesPrivateDNSName(describe(k, batches[k]), nodeName);
      if found.Err? {
        return Err, calls;
      }
      if found.value {
        return Ok(true), calls;
      }
    }
    return Ok(false), calls;
  }

  /**
   What the outcome says about the calls: every call before the last was answered without the name; the result is an
   error exactly if the last call failed and true exactly if it was answered with the name.
   */
  lemma {:induction false} AskMeans(describe: EC2, nodeName: string, batches: seq<seq<string>>, k: nat)
    requires k <= |batches|
    ensures var o := Ask(describe, nodeName, batches, k);
            var last := |o.calls| - 1;
            && (forall i :: k <= i < last ==> describe(i, batches[i]).Ok? && !Named(describe(i, batches[i]).value, nodeName))
            && (o.result.Err? <==> last >= k && describe(last, batches[last]).Err?)
            && (o.result == Ok(true) <==>
                  last >= k && describe(last, batches[last]).Ok? && Named(describe(last, batches[last]).value, nodeName))
            && (o.result == Ok(false) ==> o.calls == batches)
    decreases |batches| - k
  {
    if k < |batches| && describe(k, batches[k]).Ok? && !Named(describe(k, batches[k]).value, nodeName) {
      AskMeans(describe, nodeName, batches, k + 1);
    }
  }

  /** The i-th call does not fail, and whether a name is in its answer depends on each ID alone. */
  ghost predicate Answers(describe: EC2, dns: string -> Option<string>, i: nat, ids: seq<string>) {
    && describe(i, ids).Ok?
    && forall name :: Named(describe(i, ids).value, name) <==> exists id :: id in ids && dns(id) == Some(name)
  }

  /** No call of a lookup fails, and each ID is answered independently: `dns` is the name of its instance, if there is one. */
  ghost predicate AnswersBatches(describe: EC2, dns: string -> Option<string>, batches: seq<seq<string>>) {
    forall k :: 0 <= k < |batches| ==> Answers(describe, dns, k, batches[k])
  }

  /** EC2 answers every call of a size that it admits in this way. */
  ghost predicate AnswersEachID(describe: EC2, dns: string -> Option<string>) {
    forall i, ids :: 1 <= |ids| <= MAX_IDS ==> Answers(describe, dns, i, ids)
  }

  /** The lookups stay within the calls that EC2 admits. */
  lemma BatchesAreAdmitted(describe: EC2, dns: string -> Option<string>, claims: seq<Claim>)
    requires AnswersEachID(describe, dns)
    ensures AnswersBatches(describe, dns, Chunks(InstanceIDs(claims), MAX_IDS))
  {
    ChunksPartition(InstanceIDs(claims), MAX_IDS);
  }

  /** The groups hold these IDs and no others. */
  ghost predicate SplitsInto(groups: seq<seq<string>>, ids: seq<string>) {
    forall id :: id in ids <==> exists r :: 0 <= r < |groups| && id in groups[r]
  }

  /** Instances that were launched together, of which EC2 knows the names. */
  function Reservation(instances: map<string, Option<string>>, group: seq<string>): (r: seq<Instance>)
    ensures |r| == |group|
    ensures forall k :: 0 <= k < |r| ==>
              r[k].id == group[k] && (group[k] in instances ==> r[k].privateDnsName == instances[group[k]])
  {
    seq(|group|, k requires 0 <= k < |group| => Instance(group[k], if group[k] in instances then instances[group[k]] else None))
  }

  /**
   An EC2 that refuses oversized calls and unknown IDs, and answers a call without IDs with everything it has. It spreads
   the instances of an answer over reservations as they were launched: `groups` says how.
   */
  function StrictEC2(instances: map<string, Option<string>>, groups: seq<string> -> seq<seq<string>>, all: Reservations): EC2 {
    (i, ids) =>
      if ids == [] then Ok(all)
      else if |ids| > MAX_IDS || exists k :: 0 <= k < |ids| && ids[k] !in instances then Err
      else Ok(seq(|groups(ids)|, r requires 0 <= r < |groups(ids)| => Reservation(instances, groups(ids)[r])))
  }

  /** The name that an instance goes by; an instance without one goes by the empty name. */
  function NameIn(instances: map<string, Option<string>>): string -> Option<string> {
    id => if id !in instances then None else if instances[id].None? then Some("") else instances[id]
  }

  lemma StrictAnswers(instances: map<string, Option<string>>, groups: seq<string> -> seq<seq<string>>, all: Reservations,
                      i: nat, ids: seq<string>)
    requires 1 <= |ids| <= MAX_IDS && forall k :: 0 <= k < |ids| ==> ids[k] in instances
    requires SplitsInto(groups(ids), ids)
    ensures Answers(StrictEC2(instances, groups, all), NameIn(instances), i, ids)
  {
    var answer := StrictEC2(instances, groups, all)(i, ids);
    forall name ensures Named(answer.value, name) <==> exists id :: id in ids && NameIn(instances)(id) == Some(name) {
      if Named(answer.value, name) {
        var r :| 0 <= r < |answer.value| && InReservation(answer.value[r], name);
        var k :| 0 <= k < |answer.value[r]| && DnsName(answer.value[r][k]) == name;
        assert groups(ids)[r][k] in ids;
        assert NameIn(instances)(groups(ids)[r][k]) == Some(name);
      }
      if id :| id in ids && NameIn(instances)(id) == Some(name) {
        var r :| 0 <= r < |groups(ids)| && id in groups(ids)[r];
        var k :| 0 <= k < |groups(ids)[r]| && groups(ids)[r][k] == id;
        assert DnsName(answer.value[r][k]) == name;
        assert InReservation(answer.value[r], name);
      }
    }
  }

  /**
   Such an EC2 meets the hypothesis as long as it knows the claims' instances, however many there are and whatever
   reservations they come in.
   */
  lemma StrictEC2AnswersBatches(instances: map<string, Option<string>>, groups: seq<string> -> seq<seq<string>>,
                                all: Reservations, claims: seq<Claim>)
    requires forall id :: id in InstanceIDs(claims) ==> id in instances
    requires forall ids :: SplitsInto(groups(ids), ids)
    ensures AnswersBatches(StrictEC2(instances, groups, all), NameIn(instances), Chunks(InstanceIDs(claims), MAX_IDS))
  {
    var ids := InstanceIDs(claims);
    var batches := Chunks(ids, MAX_IDS);
    ChunksPartition(ids, MAX_IDS);
    forall k | 0 <= k < |batches| ensures Answers(StrictEC2(instances, groups, all), NameIn(instances), k, batches[k]) {
      assert batches[k] in batches;
      forall j | 0 <= j < |batches[k]| ensures batches[k][j] in instances {
        InConcat(batches, batches[k][j]);
      }
      StrictAnswers(instances, groups, all, k, batches[k]);
    }
  }

  /** Some claim with a well-formed provider ID names an instance of this name. */
  ghost predicate SomeClaimNames(dns: string -> Option<string>, nodeName: string, claims: seq<Claim>) {
    exists c, id :: c in claims && HasID(c, id) && dns(id) == Some(nodeName)
  }

  lemma {:induction false} AskFinds(describe: EC2, dns: string -> Option<string>, nodeName: string, batches: seq<seq<string>>, k: nat)
    requires k <= |batches| && AnswersBatches(describe, dns, batches)
    ensures Ask(describe, nodeName, batches, k).result ==
              Ok(exists i, id :: k <= i < |batches| && id in batches[i] && dns(id) == Some(nodeName))
    decreases |batches| - k
  {
    if k < |batches| {
      AskFinds(describe, dns, nodeName, batches, k + 1);
      assert Answers(describe, dns, k, batches[k]);
      if Named(describe(k, batches[k]).value, nodeName) {
        var id :| id in batches[k] && dns(id) == Some(nodeName);
        assert k <= k < |batches| && id in batches[k] && dns(id) == Some(nodeName);
      }
    }
  }

  /** If the calls that are made are answered, the batched lookup decides what looking up each claim's instance on its own would decide. */
  lemma BatchedIsSingle(describe: EC2, dns: string -> Option<string>, nodeName: string, claims: seq<Claim>)
    requires AnswersBatches(describe, dns, Chunks(InstanceIDs(claims), MAX_IDS))
    ensures Ask(describe, nodeName, Chunks(InstanceIDs(claims), MAX_IDS), 0).result ==
              Ok(SomeClaimNames(dns, nodeName, claims))
  {
    var ids := InstanceIDs(claims);
    var batches := Chunks(ids, MAX_IDS);
    AskFinds(describe, dns, nodeName, batches, 0);
    ChunksPartition(ids, MAX_IDS);
    forall id ensures (exists i :: 0 <= i < |batches| && id in batches[i]) <==> id in ids { InConcat(batches, id); }
    if SomeClaimNames(dns, nodeName, claims) {
      var c, id :| c in claims && HasID(c, id) && dns(id) == Some(nodeName);
      InstanceIDsAre(claims, id);
      assert id in ids;
    }
    if exists i, id :: 0 <= i < |batches| && id in batches[i] && dns(id) == Some(nodeName) {
      var i, id :| 0 <= i < |batches| && id in batches[i] && dns(id) == Some(nodeName);
      assert id in ids;
      InstanceIDsAre(claims, id);
    }
  }
}
