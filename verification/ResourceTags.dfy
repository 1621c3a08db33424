/**
 EC2 tags: the platform's resource tags merged with those of a NodeClass, and the separately computed condition that
 counts the conflicts between the two. The API admits platform tag lists that repeat a key.
 */
module ResourceTags {
  import opened Wrappers
  import opened Collections

  /** A platform tag; `allow`: its override policy lets a NodeClass tag win. */
  datatype PlatformTag = PlatformTag(key: string, value: string, allow: bool)

  function Keys(platform: seq<PlatformTag>): set<string> {
    set i | 0 <= i < |platform| :: platform[i].key
  }

  predicate AnyAllow(platform: seq<PlatformTag>, k: string) {
    exists i :: 0 <= i < |platform| && platform[i].key == k && platform[i].allow
  }

  function FirstTag(platform: seq<PlatformTag>, k: string): (tag: PlatformTag)
    requires k in Keys(platform)
    ensures tag in platform && tag.key == k
  {
    if platform[0].key == k then platform[0]
    else
      assert forall i :: 0 < i < |platform| ==> platform[i] == platform[1..][i - 1];
      FirstTag(platform[1..], k)
  }

  function LastTag(platform: seq<PlatformTag>, k: string): (tag: PlatformTag)
    requires k in Keys(platform)
    ensures tag in platform && tag.key == k
  {
    var n := |platform| - 1;
    if platform[n].key == k then platform[n] else LastTag(platform[..n], k)
  }

  /** Whether the NodeClass value wins for tag `k`: nothing stands against it, or some platform tag of that key allows it. */
  predicate NodeClassWins(platform: seq<PlatformTag>, nodeClass: map<string, string>, k: string) {
    k in nodeClass && (k !in Keys(platform) || AnyAllow(platform, k))
  }

  /** The merge before restricted tags are filtered out, in closed form. */
  function Merged(platform: seq<PlatformTag>, nodeClass: map<string, string>): map<string, string> {
    map k | k in Keys(platform) + nodeClass.Keys
      :: if NodeClassWins(platform, nodeClass, k) then nodeClass[k] else LastTag(platform, k).value
  }

  /** Keep the tags that Karpenter does not manage itself. */
  function Unrestricted(tags: map<string, string>, restricted: string -> bool): map<string, string> {
    map k | k in tags && !restricted(k) :: tags[k]
  }

  function TagMap(tags: Option<map<string, string>>): map<string, string> {
    if tags.Some? then tags.value else map[]
  }

  // ---- mergeEC2NodeClassTags ----

  function PlatformMap(platform: seq<PlatformTag>): map<string, string> {
    map k | k in Keys(platform) :: LastTag(platform, k).value
  }

  function AllowSet(platform: seq<PlatformTag>): set<string> {
    set k | k in Keys(platform) && AnyAllow(platform, k)
  }

  /** One more platform tag: it wins over earlier ones of its key, and its permission is never taken back. */
  lemma PlatformNext(platform: seq<PlatformTag>, tag: PlatformTag)
    ensures Keys(platform + [tag]) == Keys(platform) + {tag.key}
    ensures PlatformMap(platform + [tag]) == PlatformMap(platform)[tag.key := tag.value]
    ensures AllowSet(platform + [tag]) == AllowSet(platform) + if tag.allow then {tag.key} else {}
  {
    var next := platform + [tag];
    KeysNext(platform, tag);
    forall k | k in Keys(next)
      ensures LastTag(next, k) == if k == tag.key then tag else LastTag(platform, k)
      ensures AnyAllow(next, k) <==> AnyAllow(platform, k) || (tag.key == k && tag.allow)
    {
      LastTagNext(platform, tag, k);
      AnyAllowNext(platform, tag, k);
    }
    forall k | AnyAllow(platform, k) ensures k in Keys(platform) {}
  }

  lemma KeysNext(platform: seq<PlatformTag>, tag: PlatformTag)
    ensures Keys(platform + [tag]) == Keys(platform) + {tag.key}
  {
    var next, n := platform + [tag], |platform|;
    assert next[n] == tag && forall j :: 0 <= j < n ==> next[j] == platform[j];
  }

  lemma LastTagNext(platform: seq<PlatformTag>, tag: PlatformTag, k: string)
    requires k in Keys(platform + [tag])
    ensures k != tag.key ==> k in Keys(platform)
    ensures LastTag(platform + [tag], k) == if k == tag.key then tag else LastTag(platform, k)
  {
    KeysNext(platform, tag);
    assert (platform + [tag])[..|platform|] == platform;
  }

  lemma AnyAllowNext(platform: seq<PlatformTag>, tag: PlatformTag, k: string)
    ensures AnyAllow(platform + [tag], k) <==> AnyAllow(platform, k) || (tag.key == k && tag.allow)
  {
    var next, n := platform + [tag], |platform|;
    assert next[n] == tag && forall j :: 0 <= j < n ==> next[j] == platform[j];
    if AnyAllow(platform, k) {
      var j :| 0 <= j < n && platform[j].key == k && platform[j].allow;
      assert next[j].key == k && next[j].allow;
    }
  }

  /** The first loop: platform tags, later ones winning, and the keys that may be overridden. */
  method PlatformTags(platform: seq<PlatformTag>) returns (tags: map<string, string>, allowOverride: set<string>)
    ensures tags == PlatformMap(platform) && allowOverride == AllowSet(platform)
  {
    tags, allowOverride := map[], {};
    for i := 0 to |platform|
      invariant tags == PlatformMap(platform[..i]) && allowOverride == AllowSet(platform[..i])
    {
      var tag := platform[i];
      assert platform[..i + 1] == platform[..i] + [tag];
      PlatformNext(platform[..i], tag);
      tags := tags[tag.key := tag.value];
      if tag.allow {
        allowOverride := allowOverride + {tag.key};
      }
    }
    assert platform[..|platform|] == platform;
  }

  /** The second loop, over the NodeClass tags in whatever order Go enumerates the map. */
  method OverrideTags(base: map<string, string>, allowOverride: set<string>, nodeClass: map<string, string>, order: seq<string>)
    returns (tags: map<string, string>)
    requires Enumerates(order, nodeClass.Keys)
    ensures tags == base + map k | k in nodeClass && (k !in base || k in allowOverride) :: nodeClass[k]
  {
    tags := base;
    ghost var done: set<string> := {};
    for i := 0 to |order|
      invariant Visited(order, done, i)
      invariant done <= nodeClass.Keys
      invariant tags == base + map k | k in done && (k !in base || k in allowOverride) :: nodeClass[k]
    {
      var k := order[i];
      VisitNext(order, done, i, nodeClass.Keys);
      done := done + {k};
      if k in tags && k !in allowOverride { continue; }
      tags := tags[k := nodeClass[k]];
    }
    VisitedAll(order, done, nodeClass.Keys);
  }

  method MergeTags(platform: seq<PlatformTag>, nodeClass: map<string, string>, order: seq<string>)
    returns (tags: map<string, string>)
    requires Enumerates(order, nodeClass.Keys)
    ensures tags == Merged(platform, nodeClass)
  {
    var base, allowOverride := PlatformTags(platform);
    tags := OverrideTags(base, allowOverride, nodeClass, order);
  }

  /** filterRestrictedTags: an empty map is returned as it is. */
  method FilterRestrictedTags(tags: map<string, string>, restricted: string -> bool, order: seq<string>)
    returns (filtered: map<string, string>, removed: seq<string>)
    requires Enumerates(order, tags.Keys)
    ensures filtered == Unrestricted(tags, restricted)
    ensures forall k :: k in removed <==> k in tags && restricted(k)
  {
    filtered, removed := map[], [];
    if |tags| == 0 {
      assert tags == map[];
      return tags, [];
    }
    ghost var done: set<string> := {};
    for i := 0 to |order|
      invariant Visited(order, done, i)
      invariant done <= tags.Keys
      invariant filtered == map k | k in done && !restricted(k) :: tags[k]
      invariant forall k :: k in removed <==> k in done && restricted(k)
    {
      var k := order[i];
      VisitNext(order, done, i, tags.Keys);
      done := done + {k};
      if restricted(k) {
        removed := removed + [k];
      } else {
        filtered := filtered[k := tags[k]];
      }
    }
    VisitedAll(order, done, tags.Keys);
  }

  /**
   The tags of the EC2NodeClass: nil when the NodeClass has no tag map and nothing remains. `restricted` stands for
   Karpenter's restricted tag patterns. The result does not depend on the order of enumeration.
   */
  method MergeEC2NodeClassTags(platform: seq<PlatformTag>, nodeClassTags: Option<map<string, string>>,
                               restricted: string -> bool, order: seq<string>)
    returns (result: Option<map<string, string>>)
    requires Enumerates(order, TagMap(nodeClassTags).Keys)
    ensures result == EC2Tags(platform, nodeClassTags, restricted)
    ensures result.None? <==> nodeClassTags.None? && forall i :: 0 <= i < |platform| ==> restricted(platform[i].key)
    ensures forall k :: (result.Some? && k in result.value) <==> Tagged(platform, nodeClassTags, k) && !restricted(k)
    ensures result.Some? ==> forall k :: k in result.value ==> TagIs(platform, nodeClassTags, k, result.value[k])
  {
    EC2TagsMeans(platform, nodeClassTags, restricted);
    var tags := MergeTags(platform, TagMap(nodeClassTags), order);
    var tagOrder := Enumerate(tags.Keys);
    var filtered, _ := FilterRestrictedTags(tags, restricted, tagOrder);
    return if nodeClassTags.None? && filtered == map[] then None else Some(filtered);
  }

  function EC2Tags(platform: seq<PlatformTag>, nodeClassTags: Option<map<string, string>>, restricted: string -> bool)
    : Option<map<string, string>>
  {
    var tags := Unrestricted(Merged(platform, TagMap(nodeClassTags)), restricted);
    if nodeClassTags.None? && tags == map[] then None else Some(tags)
  }

  predicate HasKey(platform: seq<PlatformTag>, k: string) {
    exists i :: 0 <= i < |platform| && platform[i].key == k
  }

  /** The last platform tag of this key is at position `i`. */
  predicate LastAt(platform: seq<PlatformTag>, k: string, i: int) {
    0 <= i < |platform| && platform[i].key == k && forall j :: i < j < |platform| ==> platform[j].key != k
  }

  predicate Tagged(platform: seq<PlatformTag>, nodeClassTags: Option<map<string, string>>, k: string) {
    HasKey(platform, k) || (nodeClassTags.Some? && k in nodeClassTags.value)
  }

  /** The NodeClass value where no platform tag stands against it or one allows it, and the last platform value otherwise. */
  ghost predicate TagIs(platform: seq<PlatformTag>, nodeClassTags: Option<map<string, string>>, k: string, v: string) {
    if nodeClassTags.Some? && k in nodeClassTags.value
       && (!HasKey(platform, k) || exists i :: 0 <= i < |platform| && platform[i].key == k && platform[i].allow)
    then v == nodeClassTags.value[k]
    else exists i :: LastAt(platform, k, i) && platform[i].value == v
  }

  lemma {:induction false} LastTagIsLast(platform: seq<PlatformTag>, k: string)
    requires k in Keys(platform)
    ensures exists i :: LastAt(platform, k, i) && platform[i] == LastTag(platform, k)
  {
    var n := |platform| - 1;
    if platform[n].key == k {
      assert LastAt(platform, k, n);
    } else {
      LastTagIsLast(platform[..n], k);
      var i :| LastAt(platform[..n], k, i) && platform[..n][i] == LastTag(platform[..n], k);
      assert LastAt(platform, k, i);
    }
  }

  lemma HasKeyIff(platform: seq<PlatformTag>, k: string)
    ensures HasKey(platform, k) <==> k in Keys(platform)
  {}

  /** The closed form, key by key. */
  lemma EC2TagsMeans(platform: seq<PlatformTag>, nodeClassTags: Option<map<string, string>>, restricted: string -> bool)
    ensures var result := EC2Tags(platform, nodeClassTags, restricted);
            && (result.None? <==> nodeClassTags.None? && forall i :: 0 <= i < |platform| ==> restricted(platform[i].key))
            && (forall k :: (result.Some? && k in result.value) <==> Tagged(platform, nodeClassTags, k) && !restricted(k))
            && (result.Some? ==> forall k :: k in result.value ==> TagIs(platform, nodeClassTags, k, result.value[k]))
  {
    var result := EC2Tags(platform, nodeClassTags, restricted);
    var nodeClass := TagMap(nodeClassTags);
    var tags := Unrestricted(Merged(platform, nodeClass), restricted);
    forall k ensures k in tags <==> Tagged(platform, nodeClassTags, k) && !restricted(k) {
      HasKeyIff(platform, k);
    }
    forall k | k in tags ensures TagIs(platform, nodeClassTags, k, tags[k]) {
      HasKeyIff(platform, k);
      if !NodeClassWins(platform, nodeClass, k) {
        LastTagIsLast(platform, k);
      }
    }
    if nodeClassTags.None? {
      if i :| 0 <= i < |platform| && !restricted(platform[i].key) {
        assert platform[i].key in tags;
      }
      if tags != map[] {
        var k :| k in tags;
        assert HasKey(platform, k);
      }
    }
  }

  // ---- setAWSResourceTagConflictCondition ----

  /** The condition: removed, False with the number of overrides, or True with both counts. */
  datatype Conflict = Removed | NoConflict(overridden: nat) | Conflicting(blocked: nat, overridden: nat)

  /** NodeClass tags that differ from the first platform tag of their key. */
  function Differing(platform: seq<PlatformTag>, nodeClass: map<string, string>, allow: bool): set<string> {
    set k | k in nodeClass && k in Keys(platform)
            && FirstTag(platform, k).value != nodeClass[k] && FirstTag(platform, k).allow == allow
  }

  function ConflictOf(platform: seq<PlatformTag>, nodeClass: map<string, string>): Conflict {
    if platform == [] || nodeClass == map[] then Removed
    else
      var blocked, overridden := |Differing(platform, nodeClass, false)|, |Differing(platform, nodeClass, true)|;
      if blocked == 0 then NoConflict(overridden) else Conflicting(blocked, overridden)
  }

  lemma {:induction false} FirstTagAt(platform: seq<PlatformTag>, i: nat)
    requires i < |platform| && forall j :: 0 <= j < i ==> platform[j].key != platform[i].key
    ensures platform[i].key in Keys(platform) && FirstTag(platform, platform[i].key) == platform[i]
  {
    if i > 0 {
      assert forall j :: 0 <= j < i ==> platform[1..][j] == platform[j + 1];
      FirstTagAt(platform[1..], i - 1);
    }
  }

  /** The inner loop: the first platform tag of that key. */
  method FindTag(platform: seq<PlatformTag>, k: string) returns (found: Option<PlatformTag>)
    ensures found == if k in Keys(platform) then Some(FirstTag(platform, k)) else None
  {
    for i := 0 to |platform|
      invariant forall j :: 0 <= j < i ==> platform[j].key != k
    {
      if platform[i].key == k {
        FirstTagAt(platform, i);
        return Some(platform[i]);
      }
    }
    return None;
  }

  /** The loop that bumps the two counters, over the NodeClass tags in any order. */
  method CountConflicts(platform: seq<PlatformTag>, nodeClass: map<string, string>, order: seq<string>)
    returns (blocked: nat, overridden: nat)
    requires Enumerates(order, nodeClass.Keys)
    ensures blocked == |Differing(platform, nodeClass, false)| && overridden == |Differing(platform, nodeClass, true)|
  {
    blocked, overridden := 0, 0;
    ghost var lost, won := Differing(platform, nodeClass, false), Differing(platform, nodeClass, true);
    ghost var done: set<string> := {};
    for i := 0 to |order|
      invariant Visited(order, done, i)
      invariant done <= nodeClass.Keys
      invariant blocked == |lost * done| && overridden == |won * done|
    {
      var k := order[i];
      VisitNext(order, done, i, nodeClass.Keys);
      CountNext(lost, done, k);
      CountNext(won, done, k);
      done := done + {k};
      var tag := FindTag(platform, k);
      if tag.None? || tag.value.value == nodeClass[k] { continue; }
      if tag.value.allow {
        overridden := overridden + 1;
      } else {
        blocked := blocked + 1;
      }
    }
    VisitedAll(order, done, nodeClass.Keys);
    CountAll(lost, done);
    CountAll(won, done);
  }

  method SetTagConflictCondition(platform: seq<PlatformTag>, nodeClassTags: Option<map<string, string>>, order: seq<string>)
    returns (condition: Conflict)
    requires Enumerates(order, TagMap(nodeClassTags).Keys)
    ensures condition == ConflictOf(platform, TagMap(nodeClassTags))
  {
    var nodeClass := TagMap(nodeClassTags);
    if |platform| == 0 || |nodeClass| == 0 {
      assert nodeClass == map[] || platform == [];
      return Removed;
    }
    var blocked, overridden := CountConflicts(platform, nodeClass, order);
    return if blocked == 0 then NoConflict(overridden) else Conflicting(blocked, overridden);
  }

  // ---- Do the counts agree with the merge? ----

  /** NodeClass tags whose value the merge discards. */
  function Lost(platform: seq<PlatformTag>, nodeClass: map<string, string>): set<string> {
    set k | k in nodeClass && Merged(platform, nodeClass)[k] != nodeClass[k]
  }

  /** NodeClass tags whose value replaces a different one of the platform. */
  function Won(platform: seq<PlatformTag>, nodeClass: map<string, string>): set<string> {
    set k | k in nodeClass && k in Keys(platform)
            && Merged(platform, nodeClass)[k] == nodeClass[k] && Merged(platform, map[])[k] != nodeClass[k]
  }

  /** The tags that share a key speak with one voice: the first and the last of them agree, and policies match. */
  predicate Consistent(platform: seq<PlatformTag>) {
    forall k :: k in Keys(platform) ==>
      FirstTag(platform, k).value == LastTag(platform, k).value && FirstTag(platform, k).allow == AnyAllow(platform, k)
  }

  predicate DistinctKeys(platform: seq<PlatformTag>) {
    forall i, j :: 0 <= i < j < |platform| ==> platform[i].key != platform[j].key
  }

  lemma DistinctKeysAreConsistent(platform: seq<PlatformTag>)
    requires DistinctKeys(platform)
    ensures Consistent(platform)
  {
    forall k | k in Keys(platform)
      ensures FirstTag(platform, k) == LastTag(platform, k) && FirstTag(platform, k).allow == AnyAllow(platform, k)
    {
      var first := FirstTag(platform, k);
      assert forall tag :: tag in platform && tag.key == k ==> tag == first;
    }
  }

  lemma OneTag(platform: seq<PlatformTag>, nodeClass: map<string, string>, k: string)
    requires k in nodeClass
    ensures k in Lost(platform, nodeClass) <==>
              k in Keys(platform) && !AnyAllow(platform, k) && LastTag(platform, k).value != nodeClass[k]
    ensures k in Won(platform, nodeClass) <==>
              k in Keys(platform) && AnyAllow(platform, k) && LastTag(platform, k).value != nodeClass[k]
  {}

  /** The condition that the merge calls for: how many NodeClass values it discarded, and how many it let win. */
  function MergeReport(platform: seq<PlatformTag>, nodeClass: map<string, string>): Conflict {
    if platform == [] || nodeClass == map[] then Removed
    else
      var lost, won := |Lost(platform, nodeClass)|, |Won(platform, nodeClass)|;
      if lost == 0 then NoConflict(won) else Conflicting(lost, won)
  }

  /** Whether tag `k` of this value is counted as the merge treats it. */
  predicate KeyMatches(platform: seq<PlatformTag>, k: string, v: string)
    requires k in Keys(platform)
  {
    var first, last := FirstTag(platform, k), LastTag(platform, k);
    (first.value != v) == (last.value != v) && (first.value != v ==> first.allow == AnyAllow(platform, k))
  }

  lemma MatchesKeyByKey(platform: seq<PlatformTag>, nodeClass: map<string, string>, k: string)
    requires k in nodeClass && k in Keys(platform)
    ensures (k in Differing(platform, nodeClass, false) <==> k in Lost(platform, nodeClass))
            && (k in Differing(platform, nodeClass, true) <==> k in Won(platform, nodeClass))
            <==> KeyMatches(platform, k, nodeClass[k])
  {
    OneTag(platform, nodeClass, k);
  }

  lemma AtMostOne(s: set<string>, k: string)
    requires s <= {k}
    ensures |s| == if k in s then 1 else 0
  {
    if k in s {
      assert s == {k};
    }
  }

  /** For a NodeClass with one tag the counts say where that tag is counted. */
  lemma OneTagCounts(platform: seq<PlatformTag>, k: string, v: string)
    requires k in Keys(platform)
    ensures ConflictOf(platform, map[k := v]) == MergeReport(platform, map[k := v]) <==> KeyMatches(platform, k, v)
  {
    var nodeClass := map[k := v];
    assert k in nodeClass && nodeClass[k] == v;
    OneTag(platform, nodeClass, k);
    AtMostOne(Differing(platform, nodeClass, false), k);
    AtMostOne(Differing(platform, nodeClass, true), k);
    AtMostOne(Lost(platform, nodeClass), k);
    AtMostOne(Won(platform, nodeClass), k);
  }

  /** If some key is inconsistent, a NodeClass with that tag alone gets a wrong condition. */
  lemma InconsistencyShows(platform: seq<PlatformTag>, k: string) returns (nodeClass: map<string, string>)
    requires k in Keys(platform)
    requires FirstTag(platform, k).value != LastTag(platform, k).value || FirstTag(platform, k).allow != AnyAllow(platform, k)
    ensures nodeClass.Keys == {k} && ConflictOf(platform, nodeClass) != MergeReport(platform, nodeClass)
  {
    var first, last := FirstTag(platform, k), LastTag(platform, k);
    var v := if first.value != last.value then last.value else first.value + "x";
    assert !KeyMatches(platform, k, v);
    OneTagCounts(platform, k, v);
    nodeClass := map[k := v];
  }

  /** For instance: the first tag forbids what the second allows, and a value that the merge lets win is reported as lost. */
  lemma RepeatedKeyMiscounts()
    ensures var platform := [PlatformTag("team", "a", false), PlatformTag("team", "b", true)];
            && Merged(platform, map["team" := "c"]) == map["team" := "c"]
            && ConflictOf(platform, map["team" := "c"]) == Conflicting(1, 0)
            && MergeReport(platform, map["team" := "c"]) == NoConflict(1)
  {
    var platform := [PlatformTag("team", "a", false), PlatformTag("team", "b", true)];
    var nodeClass := map["team" := "c"];
    assert platform[0].key == "team" && platform[1].key == "team" && platform[1].allow;
    assert "team" in Keys(platform) && AnyAllow(platform, "team");
    assert FirstTag(platform, "team") == platform[0] && LastTag(platform, "team") == platform[1];
    assert "a"[0] != "c"[0] && "b"[0] != "c"[0];
    assert Keys(platform) == {"team"};
    OneTag(platform, nodeClass, "team");
    AtMostOne(Differing(platform, nodeClass, false), "team");
    AtMostOne(Differing(platform, nodeClass, true), "team");
    AtMostOne(Lost(platform, nodeClass), "team");
    AtMostOne(Won(platform, nodeClass), "team");
  }

  lemma ConsistentReports(platform: seq<PlatformTag>, nodeClass: map<string, string>)
    requires Consistent(platform)
    ensures ConflictOf(platform, nodeClass) == MergeReport(platform, nodeClass)
  {
    forall k | k in nodeClass && k in Keys(platform)
      ensures k in Differing(platform, nodeClass, false) <==> k in Lost(platform, nodeClass)
      ensures k in Differing(platform, nodeClass, true) <==> k in Won(platform, nodeClass)
    {
      MatchesKeyByKey(platform, nodeClass, k);
    }
    forall k | k in Lost(platform, nodeClass) ensures k in Keys(platform) { OneTag(platform, nodeClass, k); }
    assert Differing(platform, nodeClass, false) == Lost(platform, nodeClass);
    assert Differing(platform, nodeClass, true) == Won(platform, nodeClass);
  }

  /**
   The reported counts are those of the merge for every NodeClass if and only if platform tags that share a key are
   consistent: the merge honours the last value and any permission, the counter looks at the first tag only.
   */
  lemma CountsAgreeIffConsistent(platform: seq<PlatformTag>)
    ensures (forall nodeClass :: ConflictOf(platform, nodeClass) == MergeReport(platform, nodeClass)) <==> Consistent(platform)
  {
    if Consistent(platform) {
      forall nodeClass ensures ConflictOf(platform, nodeClass) == MergeReport(platform, nodeClass) {
        ConsistentReports(platform, nodeClass);
      }
    } else {
      var k :| k in Keys(platform)
               && (FirstTag(platform, k).value != LastTag(platform, k).value || FirstTag(platform, k).allow != AnyAllow(platform, k));
      var nodeClass := InconsistencyShows(platform, k);
    }
  }

  /** With distinct keys the condition is True exactly when some NodeClass value was discarded, and the counts are right. */
  lemma ConditionReportsTheMerge(platform: seq<PlatformTag>, nodeClass: map<string, string>)
    requires DistinctKeys(platform)
    ensures var c := ConflictOf(platform, nodeClass);
            && (c.Conflicting? <==> Lost(platform, nodeClass) != {})
            && (c.Conflicting? ==> c == Conflicting(|Lost(platform, nodeClass)|, |Won(platform, nodeClass)|))
            && (c.NoConflict? ==> c == NoConflict(|Won(platform, nodeClass)|))
  {
    DistinctKeysAreConsistent(platform);
    ConsistentReports(platform, nodeClass);
    if platform == [] || nodeClass == map[] {
      assert Lost(platform, nodeClass) == {};
    }
  }
}
