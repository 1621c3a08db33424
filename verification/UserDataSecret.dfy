/**
 The user data Secret of a NodeClass: the lookup that the NodeClass controllers do, and the mapping of Secret events
 back to the NodeClass to reconcile.
 */
module UserDataSecret {
  import opened Wrappers
  import opened Collections

  const TOKEN_ANNOTATION := "hypershift.openshift.io/ignition-config"
  const NODE_POOL_ANNOTATION := "hypershift.openshift.io/nodePool"
  const SUFFIX := "-karpenter"

  /** `managed` is the label that the list and the event predicate select. */
  datatype Secret = Secret(name: string, managed: bool, annotations: map<string, string>)

  datatype Lookup = Found(secret: Secret) | NotFound | Failed

  /** A missing annotation reads as the empty string. */
  function Annotation(secret: Secret, key: string): string {
    if key in secret.annotations then secret.annotations[key] else ""
  }

  function NodePoolName(nodeClass: string): string {
    nodeClass + SUFFIX
  }

  predicate IsToken(secret: Secret) {
    Annotation(secret, TOKEN_ANNOTATION) == "true"
  }

  /** The lookup for this NodeClass takes the Secret for its own. */
  predicate Accepts(secret: Secret, namespace: string, nodeClass: string) {
    Annotation(secret, NODE_POOL_ANNOTATION) == namespace + "/" + NodePoolName(nodeClass) && !IsToken(secret)
  }

  /** The Secret names the NodePool of this NodeClass, and is not the token Secret. */
  lemma AcceptsMeans(secret: Secret, namespace: string, nodeClass: string)
    ensures var pool, token := "hypershift.openshift.io/nodePool", "hypershift.openshift.io/ignition-config";
            Accepts(secret, namespace, nodeClass) <==>
              && pool in secret.annotations && secret.annotations[pool] == namespace + "/" + nodeClass + "-karpenter"
              && !(token in secret.annotations && secret.annotations[token] == "true")
  {
    assert namespace + "/" + (nodeClass + "-karpenter") == namespace + "/" + nodeClass + "-karpenter";
    assert |namespace + "/" + NodePoolName(nodeClass)| > 0;
  }

  function Accepted(items: seq<Secret>, namespace: string, nodeClass: string): seq<Secret> {
    Filter(items, (secret: Secret) => Accepts(secret, namespace, nodeClass))
  }

  method GetUserDataSecret(items: Result<seq<Secret>>, namespace: string, nodeClass: string) returns (r: Lookup)
    ensures items.Err? ==> r == Failed
    ensures items.Ok? ==> r == LookupOf(Accepted(items.value, namespace, nodeClass))
  {
    if items.Err? {
      return Failed;
    }
    var secrets := items.value;
    var expected := namespace + "/" + NodePoolName(nodeClass);
    ghost var keep := (secret: Secret) => Accepts(secret, namespace, nodeClass);
    var matching := [];
    for i := 0 to |secrets|
      invariant matching == Filter(secrets[..i], keep)
    {
      FilterNext(secrets, keep, i);
      var nodePool := Annotation(secrets[i], NODE_POOL_ANNOTATION);
      if nodePool == expected && Annotation(secrets[i], TOKEN_ANNOTATION) != "true" {
        matching := matching + [secrets[i]];
      }
    }
    assert secrets[..|secrets|] == secrets;
    return if |matching| == 0 then NotFound else if |matching| == 1 then Found(matching[0]) else Failed;
  }

  function LookupOf(accepted: seq<Secret>): Lookup {
    if |accepted| == 0 then NotFound else if |accepted| == 1 then Found(accepted[0]) else Failed
  }

  /** The lookup never guesses: it finds a Secret exactly if one item alone is accepted, and that one. */
  lemma FoundIsTheOnlyOne(items: seq<Secret>, namespace: string, nodeClass: string)
    ensures var keep := (secret: Secret) => Accepts(secret, namespace, nodeClass);
            var r := LookupOf(Accepted(items, namespace, nodeClass));
            && (r == NotFound <==> forall i :: !KeptAt(items, keep, i))
            && (forall i :: KeptAt(items, keep, i) ==> (r.Found? <==> OnlyAt(items, keep, i)))
            && (forall i :: OnlyAt(items, keep, i) ==> r == Found(items[i]))
  {
    var keep := (secret: Secret) => Accepts(secret, namespace, nodeClass);
    NoneKept(items, keep);
    forall i | KeptAt(items, keep, i)
      ensures var r := LookupOf(Accepted(items, namespace, nodeClass));
              (r.Found? <==> OnlyAt(items, keep, i)) && (r.Found? ==> r == Found(items[i]))
    {
      OneKept(items, keep, i);
    }
  }

  // ---- Events ----

  /** What follows the first `c`, or nothing. */
  function CutAfter(s: string, c: char): string {
    if s == "" then "" else if s[0] == c then s[1..] else CutAfter(s[1..], c)
  }

  function CutSuffix(s: string, suffix: string): Option<string> {
    if |suffix| <= |s| && s[|s| - |suffix|..] == suffix then Some(s[..|s| - |suffix|]) else None
  }

  function MapToNodeClass(secret: Secret): Option<string> {
    if IsToken(secret) then None else CutSuffix(CutAfter(Annotation(secret, NODE_POOL_ANNOTATION), '/'), SUFFIX)
  }

  lemma {:induction false} CutAtFirst(before: string, after: string, c: char)
    requires c !in before
    ensures CutAfter(before + [c] + after, c) == after
  {
    var s := before + [c] + after;
    if before == "" {
      assert s[1..] == after;
    } else {
      assert s[1..] == before[1..] + [c] + after && s[0] == before[0];
      CutAtFirst(before[1..], after, c);
    }
  }

  /** Whatever a cut leaves stands behind a first slash; only an empty rest may come from a string without one. */
  lemma {:induction false} CutFrom(s: string, c: char) returns (before: string)
    ensures c !in before
    ensures CutAfter(s, c) != "" ==> s == before + [c] + CutAfter(s, c)
  {
    if s == "" || s[0] == c {
      before := "";
      assert s != "" ==> s == [s[0]] + s[1..];
    } else {
      var rest := CutFrom(s[1..], c);
      before := [s[0]] + rest;
      assert s == [s[0]] + s[1..];
    }
  }

  lemma CutSuffixIff(s: string, stem: string, suffix: string)
    ensures CutSuffix(s, suffix) == Some(stem) <==> s == stem + suffix
  {
    if |suffix| <= |s| {
      assert s == s[..|s| - |suffix|] + s[|s| - |suffix|..];
    }
  }

  /**
   The mapping inverts the lookup, whatever the NodeClass is called: an accepted Secret is mapped back to the NodeClass
   it was accepted for exactly if the namespace has no slash, as no Kubernetes namespace does.
   */
  lemma MappedBack(secret: Secret, namespace: string, nodeClass: string)
    requires Accepts(secret, namespace, nodeClass)
    ensures MapToNodeClass(secret) == Some(nodeClass) <==> '/' !in namespace
  {
    var key := Annotation(secret, NODE_POOL_ANNOTATION);
    if '/' in namespace {
      var rest := AtSlash(namespace);
      var after := namespace[rest + 1..] + "/" + NodePoolName(nodeClass);
      assert key == namespace[..rest] + "/" + after;
      CutAtFirst(namespace[..rest], after, '/');
      CutSuffixIff(after, nodeClass, SUFFIX);
      assert |after| > |nodeClass + SUFFIX|;
    } else {
      CutAtFirst(namespace, NodePoolName(nodeClass), '/');
      CutSuffixIff(NodePoolName(nodeClass), nodeClass, SUFFIX);
    }
  }

  lemma {:induction false} AtSlash(s: string) returns (i: nat)
    requires '/' in s
    ensures i < |s| && s[i] == '/' && '/' !in s[..i]
  {
    if s[0] == '/' {
      i := 0;
    } else {
      assert s == [s[0]] + s[1..];
      var j := AtSlash(s[1..]);
      i := j + 1;
      assert s[..i] == [s[0]] + s[1..][..j];
    }
  }

  /** In the other direction, a Secret is only ever mapped to a NodeClass whose lookup accepts it somewhere. */
  lemma MappedIffAccepted(secret: Secret, nodeClass: string)
    ensures MapToNodeClass(secret) == Some(nodeClass) <==>
              exists namespace :: '/' !in namespace && Accepts(secret, namespace, nodeClass)
  {
    if MapToNodeClass(secret) == Some(nodeClass) {
      var key := Annotation(secret, NODE_POOL_ANNOTATION);
      var before := CutFrom(key, '/');
      CutSuffixIff(CutAfter(key, '/'), nodeClass, SUFFIX);
      assert key == before + "/" + NodePoolName(nodeClass);
      assert Accepts(secret, before, nodeClass);
    }
    forall namespace | '/' !in namespace && Accepts(secret, namespace, nodeClass)
      ensures MapToNodeClass(secret) == Some(nodeClass)
    {
      MappedBack(secret, namespace, nodeClass);
    }
  }

  /** No Secret serves two NodeClasses of a namespace. */
  lemma AcceptedForOne(secret: Secret, namespace: string, nodeClass: string, other: string)
    requires Accepts(secret, namespace, nodeClass) && Accepts(secret, namespace, other)
    ensures nodeClass == other
  {
    var key := Annotation(secret, NODE_POOL_ANNOTATION);
    var prefix := namespace + "/";
    assert key == prefix + nodeClass + SUFFIX && key == prefix + other + SUFFIX;
    assert |nodeClass| == |other|;
    assert nodeClass == key[|prefix|..|prefix| + |nodeClass|] == other;
  }

  // ---- Which events wake a NodeClass ----

  datatype Event = Created(now: Secret) | Updated(was: Secret, now: Secret) | Deleted(was: Secret)

  /** The event predicate: creations and updates that leave the Secret with the label. */
  predicate Watched(e: Event) {
    match e
    case Created(now) => now.managed
    case Updated(_, now) => now.managed
    case Deleted(_) => false
  }

  /** An update enqueues what either version maps to. */
  function Requests(e: Event): set<string> {
    if !Watched(e) then {}
    else
      var now := MapToNodeClass(e.now);
      var was := if e.Updated? then MapToNodeClass(e.was) else None;
      (if now.Some? then {now.value} else {}) + (if was.Some? then {was.value} else {})
  }

  function Store(secrets: map<string, Secret>, e: Event): map<string, Secret> {
    if e.Deleted? then secrets - {e.was.name} else secrets[e.now.name := e.now]
  }

  predicate Happens(secrets: map<string, Secret>, e: Event) {
    match e
    case Created(now) => now.name !in secrets
    case Updated(was, now) => was.name == now.name && was.name in secrets && secrets[was.name] == was
    case Deleted(was) => was.name in secrets && secrets[was.name] == was
  }

  /** What a list for the NodeClass would accept. */
  function Serving(secrets: map<string, Secret>, namespace: string, nodeClass: string): map<string, Secret> {
    map name | name in secrets && secrets[name].managed && Accepts(secrets[name], namespace, nodeClass) :: secrets[name]
  }

  lemma OthersStay(secrets: map<string, Secret>, e: Event, namespace: string, nodeClass: string)
    requires Happens(secrets, e) && !e.Deleted?
    requires !Accepts(e.now, namespace, nodeClass) && (e.Updated? ==> !Accepts(e.was, namespace, nodeClass))
    ensures Serving(Store(secrets, e), namespace, nodeClass) == Serving(secrets, namespace, nodeClass)
  {}

  /**
   Exactly which wake-ups are lost: an event after which the lookup of a NodeClass sees other Secrets enqueues that
   NodeClass if and only if the event predicate lets it through, so it is missed only when a Secret is deleted or loses
   its label.
   */
  lemma ChangeIsNoticed(secrets: map<string, Secret>, e: Event, namespace: string, nodeClass: string)
    requires Happens(secrets, e) && '/' !in namespace
    requires Serving(Store(secrets, e), namespace, nodeClass) != Serving(secrets, namespace, nodeClass)
    ensures nodeClass in Requests(e) <==> Watched(e)
    ensures !Watched(e) <==> e.Deleted? || (e.Updated? && !e.now.managed)
  {
    if !e.Deleted? && !e.now.managed {
      UnlabelledStays(secrets, e, namespace, nodeClass);
    } else if e.Deleted? {
    } else if Accepts(e.now, namespace, nodeClass) {
      MappedBack(e.now, namespace, nodeClass);
    } else if e.Updated? && Accepts(e.was, namespace, nodeClass) {
      MappedBack(e.was, namespace, nodeClass);
    } else {
      OthersStay(secrets, e, namespace, nodeClass);
    }
  }

  lemma UnlabelledStays(secrets: map<string, Secret>, e: Event, namespace: string, nodeClass: string)
    requires Happens(secrets, e)
    ensures e.Created? && !e.now.managed ==> Serving(Store(secrets, e), namespace, nodeClass) == Serving(secrets, namespace, nodeClass)
  {}

  /** For instance: of two Secrets that made the lookup fail one is deleted, and nobody is told that it would succeed now. */
  lemma DeletionIsMissed(namespace: string, nodeClass: string)
    ensures var annotations := map[NODE_POOL_ANNOTATION := namespace + "/" + NodePoolName(nodeClass)];
            var a, b := Secret("a", true, annotations), Secret("b", true, annotations);
            var secrets := map["a" := a, "b" := b];
            && Happens(secrets, Deleted(a)) && Requests(Deleted(a)) == {}
            && Serving(secrets, namespace, nodeClass) == secrets
            && Serving(Store(secrets, Deleted(a)), namespace, nodeClass) == map["b" := b]
  {
    var annotations := map[NODE_POOL_ANNOTATION := namespace + "/" + NodePoolName(nodeClass)];
    var a, b := Secret("a", true, annotations), Secret("b", true, annotations);
    assert "a"[0] != "b"[0] && |TOKEN_ANNOTATION| != |NODE_POOL_ANNOTATION|;
    assert Accepts(a, namespace, nodeClass) && Accepts(b, namespace, nodeClass);
    assert Store(map["a" := a, "b" := b], Deleted(a)) == map["b" := b];
  }
}
