/** The ConfigMap karpenter-subnets: a sorted index of the subnet IDs of all EC2 NodeClasses that are not being deleted. */
module SubnetIndex {
  import opened Wrappers
  import opened Collections

  datatype NodeClass = NodeClass(deleting: bool, subnets: seq<string>)

  // ---- Byte-wise order of strings ----

  predicate Less(a: string, b: string) {
    b != [] && (a == [] || a[0] < b[0] || (a[0] == b[0] && Less(a[1..], b[1..])))
  }

  lemma {:induction false} LessTotal(a: string, b: string)
    ensures Less(a, b) || a == b || Less(b, a)
    ensures !(Less(a, b) && (a == b || Less(b, a)))
  {
    if a != [] && b != [] && a[0] == b[0] {
      LessTotal(a[1..], b[1..]);
      assert a == [a[0]] + a[1..] && b == [b[0]] + b[1..];
    }
    if a == b && a != [] { LessTotal(a[1..], b[1..]); }
  }

  lemma {:induction false} LessTransitive(a: string, b: string, c: string)
    requires Less(a, b) && Less(b, c)
    ensures Less(a, c)
  {
    if a != [] && a[0] == b[0] && b[0] == c[0] { LessTransitive(a[1..], b[1..], c[1..]); }
  }

  ghost predicate StrictlySorted(s: seq<string>) {
    forall i, j :: 0 <= i < j < |s| ==> Less(s[i], s[j])
  }

  /** `s` lists exactly the members of `ids`, sorted and without duplicates. */
  ghost predicate Lists(s: seq<string>, ids: set<string>) {
    && StrictlySorted(s)
    && (forall x | x in s :: x in ids)
    && (forall x | x in ids :: x in s)
  }

  lemma HeadIsLeast(s: seq<string>, ids: set<string>, x: string)
    requires Lists(s, ids) && x in ids
    ensures s != [] && (x == s[0] || Less(s[0], x))
  {
    var i :| 0 <= i < |s| && s[i] == x;
  }

  lemma {:induction false} ListsSize(s: seq<string>, ids: set<string>)
    requires Lists(s, ids)
    ensures |s| == |ids|
    decreases |s|
  {
    if s == [] {
      assert ids == {};
    } else {
      TailLists(s, ids);
      ListsSize(s[1..], ids - {s[0]});
      assert ids == ids - {s[0]} + {s[0]};
    }
  }

  /** There is only one such list, so the index does not depend on the order in which the NodeClasses are visited. */
  lemma {:induction false} ListsIsUnique(s: seq<string>, t: seq<string>, ids: set<string>)
    requires Lists(s, ids) && Lists(t, ids)
    ensures s == t
    decreases |s|
  {
    ListsSize(s, ids);
    ListsSize(t, ids);
    if s != [] {
      HeadIsLeast(s, ids, t[0]);
      HeadIsLeast(t, ids, s[0]);
      LessTotal(s[0], t[0]);
      TailLists(s, ids);
      TailLists(t, ids);
      ListsIsUnique(s[1..], t[1..], ids - {s[0]});
      assert s == [s[0]] + s[1..] && t == [t[0]] + t[1..];
    }
  }

  lemma TailLists(s: seq<string>, ids: set<string>)
    requires Lists(s, ids) && s != []
    ensures Lists(s[1..], ids - {s[0]})
  {
    forall x | x in s[1..] ensures x in ids - {s[0]} {
      var i :| 0 < i < |s| && s[i] == x;
      LessTotal(s[0], x);
    }
    forall x | x in ids - {s[0]} ensures x in s[1..] {
      var i :| 0 <= i < |s| && s[i] == x;
      assert s[1..][i - 1] == x;
    }
  }

  /** sets.String.List(): insertion into a sorted list, one member at a time. */
  method SortedList(ids: set<string>) returns (s: seq<string>)
    ensures Lists(s, ids)
  {
    s := [];
    var rest := ids;
    while rest != {}
      invariant rest <= ids && Lists(s, ids - rest)
      decreases |rest|
    {
      var x :| x in rest;
      s := Insert(s, x, ids - rest);
      rest := rest - {x};
      assert ids - rest == ids - (rest + {x}) + {x};
    }
  }

  method Insert(s: seq<string>, x: string, ghost ids: set<string>) returns (r: seq<string>)
    requires Lists(s, ids) && x !in ids
    ensures Lists(r, ids + {x})
  {
    var i := 0;
    while i < |s| && Less(s[i], x)
      invariant 0 <= i <= |s| && forall j :: 0 <= j < i ==> Less(s[j], x)
    {
      i := i + 1;
    }
    forall j | i <= j < |s| ensures Less(x, s[j]) {
      assert s[i] in s && s[j] in s;
      LessTotal(x, s[i]);
      if i < j { LessTransitive(x, s[i], s[j]); }
    }
    r := s[..i] + [x] + s[i..];
    assert forall y :: y in r <==> y == x || y in s by {
      assert s == s[..i] + s[i..];
    }
  }

  // ---- reconcileKarpenterSubnetsConfigMap ----

  /** The IDs to be indexed: non-empty, of NodeClasses that are not being deleted. */
  function IDs(classes: map<string, NodeClass>): set<string> {
    set n, i | n in classes && !classes[n].deleting && 0 <= i < |classes[n].subnets| && classes[n].subnets[i] != ""
      :: classes[n].subnets[i]
  }

  /** The ConfigMap agrees with its definition; an absent ConfigMap is an empty index. */
  ghost predicate IsIndex(classes: map<string, NodeClass>, configMap: Option<seq<string>>) {
    if IDs(classes) == {} then configMap.None? else configMap.Some? && Lists(configMap.value, IDs(classes))
  }

  function NonEmpty(subnets: seq<string>): set<string> {
    set i | 0 <= i < |subnets| && subnets[i] != "" :: subnets[i]
  }

  method InsertSubnets(ids: set<string>, subnets: seq<string>) returns (r: set<string>)
    ensures r == ids + NonEmpty(subnets)
  {
    r := ids;
    for i := 0 to |subnets|
      invariant r == ids + NonEmpty(subnets[..i])
    {
      assert NonEmpty(subnets[..i + 1]) == NonEmpty(subnets[..i]) + if subnets[i] != "" then {subnets[i]} else {} by {
        assert forall j :: 0 <= j < i ==> subnets[..i + 1][j] == subnets[..i][j];
        assert subnets[..i + 1][i] == subnets[i];
      }
      if subnets[i] != "" { r := r + {subnets[i]}; }
    }
    assert subnets[..|subnets|] == subnets;
  }

  /** The NodeClasses restricted to those already visited. */
  ghost function Restrict(classes: map<string, NodeClass>, done: set<string>): map<string, NodeClass> {
    map n | n in classes && n in done :: classes[n]
  }

  lemma IDsNext(classes: map<string, NodeClass>, done: set<string>, n: string)
    requires n in classes
    ensures IDs(Restrict(classes, done + {n})) ==
            IDs(Restrict(classes, done)) + if classes[n].deleting then {} else NonEmpty(classes[n].subnets)
  {
    var a, b := Restrict(classes, done + {n}), Restrict(classes, done);
    forall x | x in IDs(a) ensures x in IDs(b) || (!classes[n].deleting && x in NonEmpty(classes[n].subnets)) {
      var m, i :| m in a && !a[m].deleting && 0 <= i < |a[m].subnets| && a[m].subnets[i] != "" && a[m].subnets[i] == x;
      if m != n { assert m in b && b[m] == a[m]; }
    }
    forall x | x in IDs(b) ensures x in IDs(a) {
      var m, i :| m in b && !b[m].deleting && 0 <= i < |b[m].subnets| && b[m].subnets[i] != "" && b[m].subnets[i] == x;
      assert m in a && a[m] == b[m];
    }
    if !classes[n].deleting {
      assert n in a && a[n] == classes[n];
    }
  }

  /** The call that changes the ConfigMap, if any does: deleteIfNeeded or CreateOrUpdate. */
  datatype Call = NoCall | DeleteCall | CreateCall | UpdateCall

  /** From the listed NodeClasses, in any order, to the new ConfigMap and the call that brings it about. */
  method ReconcileConfigMap(classes: map<string, NodeClass>, order: seq<string>, configMap: Option<seq<string>>)
    returns (result: Option<seq<string>>, call: Call)
    requires Enumerates(order, classes.Keys)
    ensures IsIndex(classes, result)
    ensures call.NoCall? <==> IsIndex(classes, configMap)
    ensures call.DeleteCall? <==> configMap.Some? && IDs(classes) == {}
    ensures call.CreateCall? <==> configMap.None? && IDs(classes) != {}
  {
    var ids: set<string> := {};
    ghost var done: set<string> := {};
    assert Restrict(classes, done) == map[];
    for i := 0 to |order|
      invariant Visited(order, done, i) && done <= classes.Keys
      invariant ids == IDs(Restrict(classes, done))
    {
      var n := order[i];
      VisitNext(order, done, i, classes.Keys);
      IDsNext(classes, done, n);
      done := done + {n};
      if classes[n].deleting { continue; }
      ids := InsertSubnets(ids, classes[n].subnets);
    }
    VisitedAll(order, done, classes.Keys);
    assert Restrict(classes, done) == classes;
    if |ids| == 0 {
      return None, if configMap.None? then NoCall else DeleteCall;
    }
    var sorted := SortedList(ids);
    if configMap.Some? && Lists(configMap.value, ids) { ListsIsUnique(configMap.value, sorted, ids); }
    result := Some(sorted);
    call := if configMap.None? then CreateCall else if configMap == result then NoCall else UpdateCall;
  }

  // ---- Runs of atomic reconciles ----

  datatype State = State(classes: map<string, NodeClass>, configMap: Option<seq<string>>)

  /** Sync: a reconcile of a NodeClass that lives; Release: the reconcile that removes the finalizer of one that is deleting. */
  datatype Event =
    | CreateClass(name: string) | DeleteClass(name: string)
    | Sync(name: string, subnets: seq<string>) | Release(name: string)

  ghost predicate Reconciled(classes: map<string, NodeClass>, s': State, classes': map<string, NodeClass>) {
    IsIndex(classes, s'.configMap) && s'.classes == classes'
  }

  ghost predicate Step(s: State, e: Event, s': State) {
    match e
    case CreateClass(n) => n !in s.classes && s' == s.(classes := s.classes[n := NodeClass(false, [])])
    case DeleteClass(n) => n in s.classes && s' == s.(classes := s.classes[n := s.classes[n].(deleting := true)])
    case Sync(n, subnets) =>
      n in s.classes && !s.classes[n].deleting
      && var updated := s.classes[n := NodeClass(false, subnets)]; Reconciled(updated, s', updated)
    case Release(n) =>
      n in s.classes && s.classes[n].deleting && Reconciled(s.classes, s', s.classes - {n})
  }

  ghost predicate IsRun(states: seq<State>, events: seq<Event>) {
    && |states| == |events| + 1
    && forall i :: 0 <= i < |events| ==> Step(states[i], events[i], states[i + 1])
  }

  function Indexed(configMap: Option<seq<string>>): set<string> {
    if configMap.None? then {} else set i | 0 <= i < |configMap.value| :: configMap.value[i]
  }

  /** A NodeClass, living or deleting, still reports the ID. */
  ghost predicate Reported(classes: map<string, NodeClass>, id: string) {
    exists n :: n in classes && id in classes[n].subnets
  }

  lemma IndexIs(classes: map<string, NodeClass>, configMap: Option<seq<string>>)
    requires IsIndex(classes, configMap)
    ensures Indexed(configMap) == IDs(classes)
  {
    if configMap.Some? {
      forall x ensures x in Indexed(configMap) <==> x in configMap.value {}
    }
  }

  lemma IDsMeans(classes: map<string, NodeClass>, id: string)
    ensures id in IDs(classes) <==> id != "" && exists n :: n in classes && !classes[n].deleting && id in classes[n].subnets
  {
    if n :| id != "" && n in classes && !classes[n].deleting && id in classes[n].subnets {
      var i :| 0 <= i < |classes[n].subnets| && classes[n].subnets[i] == id;
    }
  }

  /** Nothing is indexed without a NodeClass that reports it, and nothing that a living NodeClass reports is missing. */
  ghost predicate Tracked(s: State) {
    && (forall id :: id in Indexed(s.configMap) ==> Reported(s.classes, id))
    && IDs(s.classes) <= Indexed(s.configMap)
  }

  lemma StepKeepsTracked(s: State, e: Event, s': State)
    requires Tracked(s) && Step(s, e, s')
    ensures Tracked(s')
  {
    match e
    case CreateClass(n) =>
      forall id ensures id in IDs(s'.classes) ==> id in IDs(s.classes) { IDsMeans(s.classes, id); IDsMeans(s'.classes, id); }
      forall id | Reported(s.classes, id) ensures Reported(s'.classes, id) {
        var m :| m in s.classes && id in s.classes[m].subnets;
        assert m in s'.classes && id in s'.classes[m].subnets;
      }
    case DeleteClass(n) =>
      forall id ensures id in IDs(s'.classes) ==> id in IDs(s.classes) { IDsMeans(s.classes, id); IDsMeans(s'.classes, id); }
      forall id | Reported(s.classes, id) ensures Reported(s'.classes, id) {
        var m :| m in s.classes && id in s.classes[m].subnets;
        assert m in s'.classes && id in s'.classes[m].subnets;
      }
    case Sync(n, subnets) =>
      IndexIs(s'.classes, s'.configMap);
      forall id | id in IDs(s'.classes) ensures Reported(s'.classes, id) { IDsMeans(s'.classes, id); }
    case Release(n) =>
      IndexIs(s.classes, s'.configMap);
      forall id | id in IDs(s.classes) ensures Reported(s'.classes, id) {
        IDsMeans(s.classes, id);
        var m :| m in s.classes && !s.classes[m].deleting && id in s.classes[m].subnets;
        assert m in s'.classes && id in s'.classes[m].subnets;
      }
      forall id | id in IDs(s'.classes) ensures id in IDs(s.classes) { IDsMeans(s.classes, id); IDsMeans(s'.classes, id); }
  }

  /** In every reachable state the index is tracked; initially there is neither a NodeClass nor a ConfigMap. */
  lemma {:induction false} AlwaysTracked(states: seq<State>, events: seq<Event>, i: nat)
    requires IsRun(states, events) && Tracked(states[0]) && i < |states|
    ensures Tracked(states[i])
  {
    if i > 0 {
      AlwaysTracked(states, events, i - 1);
      StepKeepsTracked(states[i - 1], events[i - 1], states[i - 1 + 1]);
    }
  }

  /** The event is a reconcile that finds the ID in a living NodeClass's status. */
  predicate Reports(e: Event, id: string) {
    e.Sync? && id in e.subnets
  }

  lemma StepKeepsGone(s: State, e: Event, s': State, id: string)
    requires Step(s, e, s') && !Reports(e, id) && id !in IDs(s.classes)
    ensures id !in IDs(s'.classes)
    ensures id !in Indexed(s.configMap) || e.Sync? || e.Release? ==> id !in Indexed(s'.configMap)
  {
    IDsMeans(s.classes, id);
    IDsMeans(s'.classes, id);
    match e
    case Sync(n, subnets) => IndexIs(s'.classes, s'.configMap);
    case Release(n) => IndexIs(s.classes, s'.configMap);
    case _ =>
  }

  /**
   Over every run: from the step on that takes the finalizer off a NodeClass, an ID that no living NodeClass reported is
   not indexed, no matter which deleting ones still list it, and stays out of the index, through creations, deletions,
   reconciles and re-used names, as long as no reconcile finds it in a living NodeClass.
   */
  lemma {:induction false} ReleasedIDsStayGone(states: seq<State>, events: seq<Event>, i: nat, j: nat, id: string)
    requires IsRun(states, events) && i < j < |states| && events[i].Release?
    requires id !in IDs(states[i].classes)
    requires forall k :: i < k < j ==> !Reports(events[k], id)
    ensures id !in Indexed(states[j].configMap) && id !in IDs(states[j].classes)
    decreases j
  {
    assert Step(states[j - 1], events[j - 1], states[j - 1 + 1]);
    if i < j - 1 {
      ReleasedIDsStayGone(states, events, i, j - 1, id);
    }
    StepKeepsGone(states[j - 1], events[j - 1], states[j], id);
  }

  /** In the other direction, over every run an ID that a living NodeClass reports is indexed in every state. */
  lemma LivingIDsAreIndexed(states: seq<State>, events: seq<Event>, i: nat, id: string)
    requires IsRun(states, events) && Tracked(states[0]) && i < |states| && id in IDs(states[i].classes)
    ensures id in Indexed(states[i].configMap)
  {
    AlwaysTracked(states, events, i);
  }

  /** Right after a release the index is exact: an ID is in it if and only if a living NodeClass reports it. */
  lemma ReleasedIDsAreGone(states: seq<State>, events: seq<Event>, i: nat, id: string)
    requires IsRun(states, events) && Tracked(states[0]) && i < |events| && events[i].Release?
    ensures id in Indexed(states[i + 1].configMap) <==> id in IDs(states[i + 1].classes)
  {
    if id in IDs(states[i].classes) {
      IDsMeans(states[i].classes, id);
      IDsMeans(states[i + 1].classes, id);
      assert Step(states[i], events[i], states[i + 1]);
      var n :| n in states[i].classes && !states[i].classes[n].deleting && id in states[i].classes[n].subnets;
      assert n in states[i + 1].classes;
      LivingIDsAreIndexed(states, events, i + 1, id);
    } else {
      ReleasedIDsStayGone(states, events, i, i + 1, id);
    }
  }
}
