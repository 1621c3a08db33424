/**
 The upgrade hold of the NodeClass controllers: while the control plane upgrades, a NodeClass that follows it keeps
 its user data and image, because changing them would roll all its nodes.
 */
module UpgradeHold {
  import opened Wrappers

  /** One entry of status.controlPlaneVersion.history, newest first. */
  datatype Entry = Entry(completed: bool, image: string)

  datatype ControlPlaneVersion = ControlPlaneVersion(desiredImage: string, desiredVersion: string, history: seq<Entry>)

  function NewestCompleted(history: seq<Entry>): Option<string> {
    if history == [] then None
    else if history[0].completed then Some(history[0].image)
    else NewestCompleted(history[1..])
  }

  predicate IsControlPlaneUpgrading(v: ControlPlaneVersion) {
    && v.desiredImage != ""
    && var completed := NewestCompleted(v.history);
       completed.Some? && completed.value != v.desiredImage
  }

  predicate WaitsForControlPlaneUpgrade(v: ControlPlaneVersion, version: string) {
    version == "" && IsControlPlaneUpgrading(v)
  }

  /** The newest completed entry is at position `i`. */
  predicate CompletedFirstAt(history: seq<Entry>, i: int) {
    0 <= i < |history| && history[i].completed && forall j :: 0 <= j < i ==> !history[j].completed
  }

  /** The scan finds the newest completed release: everything newer is incomplete. */
  lemma {:induction false} NewestCompletedIsFirst(history: seq<Entry>)
    ensures NewestCompleted(history).None? <==> forall i :: 0 <= i < |history| ==> !history[i].completed
    ensures NewestCompleted(history).Some? <==> exists i :: CompletedFirstAt(history, i)
    ensures forall i :: CompletedFirstAt(history, i) ==> NewestCompleted(history) == Some(history[i].image)
  {
    if history != [] {
      var rest := history[1..];
      NewestCompletedIsFirst(rest);
      assert forall i :: 0 < i < |history| ==> history[i] == rest[i - 1];
      if history[0].completed {
        assert CompletedFirstAt(history, 0);
      } else {
        forall i ensures CompletedFirstAt(history, i) <==> CompletedFirstAt(rest, i - 1) {
          assert forall j :: 0 <= j < |rest| ==> rest[j] == history[j + 1];
        }
        if i :| CompletedFirstAt(rest, i) {
          assert CompletedFirstAt(history, i + 1);
        }
      }
    }
  }

  /** An upgrade runs exactly if a release is desired and the newest completed entry of the history is of another one. */
  lemma UpgradingMeans(v: ControlPlaneVersion)
    ensures IsControlPlaneUpgrading(v) <==>
              v.desiredImage != "" && exists i :: CompletedFirstAt(v.history, i) && v.history[i].image != v.desiredImage
  {
    NewestCompletedIsFirst(v.history);
  }

  /** During the initial install nothing is completed, or no release is desired yet. */
  predicate Installing(v: ControlPlaneVersion) {
    v.desiredImage == "" || forall i :: 0 <= i < |v.history| ==> !v.history[i].completed
  }

  /** Neither the initial install nor an explicit version makes a NodeClass wait. */
  lemma InstallNeverWaits(v: ControlPlaneVersion, version: string)
    ensures Installing(v) || version != "" ==> !WaitsForControlPlaneUpgrade(v, version)
  {
    UpgradingMeans(v);
  }

  // ---- The user data Secret and the provider NodeClass ----

  datatype Provider = EC2 | Azure

  datatype Image = Amis(ids: seq<string>) | Marketplace(publisher: string, offer: string, sku: string, version: string)

  /** A user data Secret: its data key "value" and its labels. */
  datatype Secret = Secret(value: string, labels: map<string, string>)

  const AMI_LABEL := "hypershift.openshift.io/ami"

  function ArchToAmiLabelKey(arch: string): string {
    if arch == "amd64" then AMI_LABEL else AMI_LABEL + "-" + arch
  }

  function AmisOf(labels: map<string, string>, archs: seq<string>): seq<string> {
    if archs == [] then []
    else (if ArchToAmiLabelKey(archs[0]) in labels then [labels[ArchToAmiLabelKey(archs[0])]] else [])
         + AmisOf(labels, archs[1..])
  }

  const SUPPORTED_ARCHITECTURES := ["amd64", "arm64"]

  lemma {:induction false} AmisOfAppend(labels: map<string, string>, archs: seq<string>, arch: string)
    ensures AmisOf(labels, archs + [arch]) == AmisOf(labels, archs) + AmisOf(labels, [arch])
  {
    if archs == [] {
      assert archs + [arch] == [arch];
    } else {
      assert (archs + [arch])[1..] == archs[1..] + [arch];
      AmisOfAppend(labels, archs[1..], arch);
    }
  }

  /** The AMIs are those of the label for amd64 and of the label for arm64, in this order, as far as they are present. */
  predicate AmisAre(labels: map<string, string>, amis: seq<string>) {
    var amd64, arm64 := "hypershift.openshift.io/ami", "hypershift.openshift.io/ami-arm64";
    amis == (if amd64 in labels then [labels[amd64]] else []) + (if arm64 in labels then [labels[arm64]] else [])
  }

  lemma LabelsOf(labels: map<string, string>)
    ensures AmisAre(labels, AmisOf(labels, SUPPORTED_ARCHITECTURES))
  {
    assert SUPPORTED_ARCHITECTURES[1..] == ["arm64"] && ["arm64"][1..] == [];
    assert |"arm64"| == 5 && "arm64"[1] != "amd64"[1];
    assert ArchToAmiLabelKey("arm64") == "hypershift.openshift.io/ami-arm64";
    assert AmisOf(labels, ["arm64"]) ==
           if "hypershift.openshift.io/ami-arm64" in labels then [labels["hypershift.openshift.io/ami-arm64"]] else [];
  }

  /** amiSelectorTermsFromUserDataSecret: an error when no supported architecture has an AMI. */
  method AmiSelectorTerms(secret: Secret) returns (terms: Result<seq<string>>)
    ensures terms == if AmisOf(secret.labels, SUPPORTED_ARCHITECTURES) == [] then Err
                     else Ok(AmisOf(secret.labels, SUPPORTED_ARCHITECTURES))
    ensures AmisAre(secret.labels, if terms.Ok? then terms.value else [])
  {
    LabelsOf(secret.labels);
    var found := [];
    for i := 0 to |SUPPORTED_ARCHITECTURES|
      invariant found == AmisOf(secret.labels, SUPPORTED_ARCHITECTURES[..i])
    {
      var key := ArchToAmiLabelKey(SUPPORTED_ARCHITECTURES[i]);
      AmisOfAppend(secret.labels, SUPPORTED_ARCHITECTURES[..i], SUPPORTED_ARCHITECTURES[i]);
      assert SUPPORTED_ARCHITECTURES[..i + 1] == SUPPORTED_ARCHITECTURES[..i] + [SUPPORTED_ARCHITECTURES[i]];
      if key in secret.labels {
        found := found + [secret.labels[key]];
      }
    }
    assert SUPPORTED_ARCHITECTURES[..|SUPPORTED_ARCHITECTURES|] == SUPPORTED_ARCHITECTURES;
    return if |found| == 0 then Err else Ok(found);
  }

  function MarketplaceImage(labels: map<string, string>): Image {
    var get := (k: string) => if k in labels then labels[k] else "";
    Marketplace(get("hypershift.openshift.io/azure-marketplace-publisher"), get("hypershift.openshift.io/azure-marketplace-offer"),
                get("hypershift.openshift.io/azure-marketplace-sku"), get("hypershift.openshift.io/azure-marketplace-version"))
  }

  /** The label has this value; a missing one reads as the empty string. */
  predicate HasLabel(labels: map<string, string>, suffix: string, value: string) {
    var key := "hypershift.openshift.io/azure-marketplace-" + suffix;
    value == if key in labels then labels[key] else ""
  }

  /** Publisher, offer, SKU and version of the image are those of their labels. */
  predicate MarketplaceIs(labels: map<string, string>, image: Image) {
    && image.Marketplace?
    && HasLabel(labels, "publisher", image.publisher) && HasLabel(labels, "offer", image.offer)
    && HasLabel(labels, "sku", image.sku) && HasLabel(labels, "version", image.version)
  }

  lemma MarketplaceLabels(labels: map<string, string>)
    ensures MarketplaceIs(labels, MarketplaceImage(labels))
  {
    var prefix := "hypershift.openshift.io/azure-marketplace-";
    assert prefix + "publisher" == "hypershift.openshift.io/azure-marketplace-publisher";
    assert prefix + "offer" == "hypershift.openshift.io/azure-marketplace-offer";
    assert prefix + "sku" == "hypershift.openshift.io/azure-marketplace-sku";
    assert prefix + "version" == "hypershift.openshift.io/azure-marketplace-version";
  }

  /** The two fields of the provider NodeClass spec that roll the nodes; both unset before the first write. */
  datatype Pair = Pair(userData: Option<string>, image: Option<Image>)

  const UNSET := Pair(None, None)

  /** What one Secret asks for; an error when an EC2 Secret has no AMI. */
  function PairOf(provider: Provider, secret: Secret): Result<Pair> {
    match provider
    case EC2 =>
      var amis := AmisOf(secret.labels, SUPPORTED_ARCHITECTURES);
      if amis == [] then Err else Ok(Pair(Some(secret.value), Some(Amis(amis))))
    case Azure => Ok(Pair(Some(secret.value), Some(MarketplaceImage(secret.labels))))
  }

  /** Whether there is something to hold. */
  predicate IsSet(pair: Pair) {
    && pair.userData.Some? && pair.image.Some?
    && (pair.image.value.Amis? ==> |pair.image.value.ids| > 0)
  }

  /** The specification of both controllers' mutate functions. */
  function Desired(provider: Provider, waits: bool, current: Pair, secret: Secret): Result<Pair> {
    if waits && IsSet(current) then Ok(current) else PairOf(provider, secret)
  }

  class ProviderNodeClass {
    var userData: Option<string>
    var image: Option<Image>

    function Value(): Pair
      reads this
    {
      Pair(userData, image)
    }

    /** The user data is that of the Secret, and there is an image. */
    predicate Takes(secret: Secret)
      reads this
    {
      userData == Some(secret.value) && image.Some?
    }

    constructor ()
      ensures Value() == UNSET
    {
      userData, image := None, None;
    }

    /** EC2: decide first, then overwrite the spec. An AMI error leaves the object alone. */
    method ReconcileEC2(v: ControlPlaneVersion, version: string, secret: Secret) returns (ok: bool)
      requires image.Some? ==> image.value.Amis?
      modifies this
      ensures ok <==> Desired(EC2, WaitsForControlPlaneUpgrade(v, version), old(Value()), secret).Ok?
      ensures Value() == if ok then Desired(EC2, WaitsForControlPlaneUpgrade(v, version), old(Value()), secret).value
                         else old(Value())
      ensures IsControlPlaneUpgrading(v) && version == ""
              && old(userData).Some? && old(image).Some? && |old(image).value.ids| > 0 ==>
                ok && Value() == old(Value())
      ensures Installing(v) || !IsControlPlaneUpgrading(v) || version != ""
              || old(userData).None? || old(image).None? || old(image).value.ids == [] ==>
                if ok then
                  Takes(secret) && image.value.Amis? && image.value.ids != [] && AmisAre(secret.labels, image.value.ids)
                else Value() == old(Value()) && AmisAre(secret.labels, [])
    {
      InstallNeverWaits(v, version);
      var newData := Some(secret.value);
      var newImage: Option<Image> := None;
      var hasTerms := image.Some? && |image.value.ids| > 0;
      if WaitsForControlPlaneUpgrade(v, version) && hasTerms && userData.Some? {
        newData, newImage := userData, image;
      } else {
        var terms := AmiSelectorTerms(secret);
        if terms.Err? { return false; }
        newImage := Some(Amis(terms.value));
      }
      userData, image := newData, newImage;
      return true;
    }

    /** Azure: overwrite the spec first, then put the held fields back. */
    method ReconcileAzure(v: ControlPlaneVersion, version: string, secret: Secret)
      requires image.Some? ==> image.value.Marketplace?
      modifies this
      ensures Desired(Azure, WaitsForControlPlaneUpgrade(v, version), old(Value()), secret) == Ok(Value())
      ensures IsControlPlaneUpgrading(v) && version == "" && old(userData).Some? && old(image).Some? ==>
                Value() == old(Value())
      ensures Installing(v) || !IsControlPlaneUpgrading(v) || version != "" || old(userData).None? || old(image).None? ==>
                Takes(secret) && MarketplaceIs(secret.labels, image.value)
    {
      InstallNeverWaits(v, version);
      MarketplaceLabels(secret.labels);
      var current := Value();
      userData, image := Some(secret.value), Some(MarketplaceImage(secret.labels));
      if WaitsForControlPlaneUpgrade(v, version) && current.userData.Some? && current.image.Some? {
        userData, image := current.userData, current.image;
      }
    }
  }

  // ---- Runs: the reads of a reconcile and its write, interleaved with upgrades, pinning and Secret rotation ----

  /** What the reconcile in flight has read so far; the two controllers read in different orders. */
  datatype Flight = Flight(hcp: Option<ControlPlaneVersion>, version: Option<string>, secret: Option<Secret>)

  const NO_FLIGHT := Flight(None, None, None)

  /** `seen`: every Secret there ever was. */
  datatype State = State(hcp: ControlPlaneVersion, version: string, secret: Option<Secret>, pair: Pair,
                         flight: Flight, seen: set<Secret>)

  datatype Event =
    | SetHcp(v: ControlPlaneVersion) | SetVersion(version: string) | Rotate(secret: Secret) | DropSecret
    | ReadHcp | ReadVersion | ReadSecret | Write | Abort

  predicate Loaded(f: Flight) {
    f.hcp.Some? && f.version.Some? && f.secret.Some?
  }

  function WriteOf(provider: Provider, s: State): Result<Pair>
    requires Loaded(s.flight)
  {
    Desired(provider, WaitsForControlPlaneUpgrade(s.flight.hcp.value, s.flight.version.value), s.pair, s.flight.secret.value)
  }

  function Step(provider: Provider, s: State, e: Event): State {
    match e
    case SetHcp(v) => s.(hcp := v)
    case SetVersion(version) => s.(version := version)
    case Rotate(secret) => s.(secret := Some(secret), seen := s.seen + {secret})
    case DropSecret => s.(secret := None)
    case ReadHcp => if s.flight.hcp.Some? then s else s.(flight := s.flight.(hcp := Some(s.hcp)))
    case ReadVersion => if s.flight.version.Some? then s else s.(flight := s.flight.(version := Some(s.version)))
    case ReadSecret => if s.flight.secret.Some? then s else s.(flight := s.flight.(secret := s.secret))
    case Write =>
      if !Loaded(s.flight) then s
      else
        var r := WriteOf(provider, s);
        s.(pair := if r.Ok? then r.value else s.pair, flight := NO_FLIGHT)
    case Abort => s.(flight := NO_FLIGHT)
  }

  function Run(provider: Provider, s: State, events: seq<Event>): State
    decreases |events|
  {
    if events == [] then s else Run(provider, Step(provider, s, events[0]), events[1..])
  }

  /** The control plane keeps upgrading and the NodeClass keeps following it. */
  predicate HoldsOn(events: seq<Event>) {
    forall i :: 0 <= i < |events| ==>
      (events[i].SetHcp? ==> IsControlPlaneUpgrading(events[i].v)) && (events[i].SetVersion? ==> events[i].version == "")
  }

  predicate Holding(s: State) {
    IsSet(s.pair) && WaitsForControlPlaneUpgrade(s.hcp, s.version)
  }

  /**
   The reconcile in flight cannot change the pair: either nothing it has read yet says that there is no upgrade to
   wait for, or the Secret it holds asks for the current pair anyway (or for nothing, by an error).
   */
  predicate FlightHarmless(provider: Provider, s: State) {
    || ((s.flight.hcp.Some? ==> IsControlPlaneUpgrading(s.flight.hcp.value))
        && (s.flight.version.Some? ==> s.flight.version.value == ""))
    || (s.flight.secret.Some? && PairOf(provider, s.flight.secret.value) in {Err, Ok(s.pair)})
  }

  lemma StepHolds(provider: Provider, s: State, e: Event)
    requires Holding(s) && HoldsOn([e]) && FlightHarmless(provider, s)
    ensures var s' := Step(provider, s, e); Holding(s') && FlightHarmless(provider, s') && s'.pair == s.pair
  {
    assert [e][0] == e;
    match e
    case Write =>
      if Loaded(s.flight) {
        assert WriteOf(provider, s) in {Err, Ok(s.pair)};
      }
    case _ =>
  }

  lemma {:induction false} PairIsHeld(provider: Provider, s: State, events: seq<Event>)
    requires Holding(s) && HoldsOn(events) && FlightHarmless(provider, s)
    ensures Run(provider, s, events).pair == s.pair
    decreases |events|
  {
    if events != [] {
      var s' := Step(provider, s, events[0]);
      assert HoldsOn([events[0]]) && HoldsOn(events[1..]);
      StepHolds(provider, s, events[0]);
      PairIsHeld(provider, s', events[1..]);
    }
  }

  /** A Secret that asks for something other than `pair`. */
  function OtherSecret(pair: Pair): (secret: Secret)
    ensures forall provider: Provider :: PairOf(provider, secret).Ok? && PairOf(provider, secret).value != pair
  {
    var current := if pair.userData.Some? then pair.userData.value else "";
    Secret(current + "x", map["hypershift.openshift.io/ami" := "ami-1"])
  }

  lemma ReadsFill(provider: Provider, s: State, secret: Secret)
    ensures var f := s.flight;
            Run(provider, s, [ReadHcp, ReadVersion, Rotate(secret), ReadSecret]) ==
            s.(secret := Some(secret), seen := s.seen + {secret},
               flight := Flight(Some(if f.hcp.Some? then f.hcp.value else s.hcp),
                                Some(if f.version.Some? then f.version.value else s.version),
                                Some(if f.secret.Some? then f.secret.value else secret)))
  {
    var s1 := Step(provider, s, ReadHcp);
    var s2 := Step(provider, s1, ReadVersion);
    var s3 := Step(provider, s2, Rotate(secret));
    var s4 := Step(provider, s3, ReadSecret);
    assert Run(provider, s3, [ReadSecret]) == Run(provider, s4, []);
    assert [Rotate(secret), ReadSecret][1..] == [ReadSecret];
    assert Run(provider, s2, [Rotate(secret), ReadSecret]) == Run(provider, s3, [ReadSecret]);
    assert [ReadVersion, Rotate(secret), ReadSecret][1..] == [Rotate(secret), ReadSecret];
    assert Run(provider, s1, [ReadVersion, Rotate(secret), ReadSecret]) == Run(provider, s2, [Rotate(secret), ReadSecret]);
    assert [ReadHcp, ReadVersion, Rotate(secret), ReadSecret][1..] == [ReadVersion, Rotate(secret), ReadSecret];
  }

  lemma {:induction false} RunAppend(provider: Provider, s: State, a: seq<Event>, b: seq<Event>)
    ensures Run(provider, s, a + b) == Run(provider, Run(provider, s, a), b)
    decreases |a|
  {
    if a == [] {
      assert a + b == b;
    } else {
      assert (a + b)[1..] == a[1..] + b;
      RunAppend(provider, Step(provider, s, a[0]), a[1..], b);
    }
  }

  lemma HarmfulFlightBreaksTheHold(provider: Provider, s: State)
    requires Holding(s) && !FlightHarmless(provider, s)
    ensures exists events :: HoldsOn(events) && Run(provider, s, events).pair != s.pair
  {
    var fill := [ReadHcp, ReadVersion, Rotate(OtherSecret(s.pair)), ReadSecret];
    ReadsFill(provider, s, OtherSecret(s.pair));
    assert HoldsOn(fill + [Write]);
    RunAppend(provider, s, fill, [Write]);
    var s4 := Run(provider, s, fill);
    assert Run(provider, s4, [Write]) == Step(provider, s4, Write);
    assert Run(provider, s, fill + [Write]).pair != s.pair;
  }

  /**
   The hold, exactly: whatever reconciles and Secret rotations follow while the upgrade lasts, the pair stays, if and
   only if the reconcile already in flight is harmless. One that read the HostedControlPlane before the upgrade began
   may still install the new release.
   */
  lemma HoldIffFlightHarmless(provider: Provider, s: State)
    requires Holding(s)
    ensures (forall events | HoldsOn(events) :: Run(provider, s, events).pair == s.pair) <==> FlightHarmless(provider, s)
  {
    if FlightHarmless(provider, s) {
      forall events | HoldsOn(events) ensures Run(provider, s, events).pair == s.pair {
        PairIsHeld(provider, s, events);
      }
    } else {
      HarmfulFlightBreaksTheHold(provider, s);
    }
  }

  /** A Secret that both providers accept. */
  function SecretNamed(value: string): Secret {
    Secret(value, map[AMI_LABEL := "ami-1"])
  }

  lemma SecretNamedPair(provider: Provider, value: string)
    ensures PairOf(provider, SecretNamed(value)).Ok?
    ensures IsSet(PairOf(provider, SecretNamed(value)).value)
    ensures PairOf(provider, SecretNamed(value)).value.userData == Some(value)
  {
    assert ArchToAmiLabelKey("amd64") == AMI_LABEL;
  }

  const IDLE := ControlPlaneVersion("old", "", [Entry(true, "old")])
  const UPGRADING := ControlPlaneVersion("new", "", [Entry(false, "new"), Entry(true, "old")])

  lemma UpgradingIs()
    ensures IsControlPlaneUpgrading(UPGRADING) && !IsControlPlaneUpgrading(IDLE)
  {
    assert UPGRADING.history[1..][0] == Entry(true, "old") && "old"[0] != "new"[0];
    assert NewestCompleted(UPGRADING.history) == Some("old") && NewestCompleted(IDLE.history) == Some("old");
  }

  /** A new NodeClass that follows an idle control plane. */
  function Fresh(): State {
    State(IDLE, "", None, UNSET, NO_FLIGHT, {})
  }

  /** The reads of one reconcile, the last one of a new Secret. */
  function Reads(secret: Secret): seq<Event> {
    [ReadHcp, ReadVersion, Rotate(secret), ReadSecret]
  }

  /** One reconcile writes the first pair; the next one reads the HostedControlPlane, and then the upgrade begins. */
  function UntilUpgrade(secret: Secret): seq<Event> {
    Reads(secret) + [Write, ReadHcp, SetHcp(UPGRADING)]
  }

  lemma ReachesUpgrade(provider: Provider, s: State, secret: Secret)
    requires s == Fresh() && PairOf(provider, secret).Ok?
    ensures Run(provider, s, UntilUpgrade(secret)) ==
              State(UPGRADING, "", Some(secret), PairOf(provider, secret).value, Flight(Some(IDLE), None, None), {secret})
  {
    ReadsFill(provider, s, secret);
    RunAppend(provider, s, Reads(secret), [Write, ReadHcp, SetHcp(UPGRADING)]);
    var s1 := Run(provider, s, Reads(secret));
    var s2 := Step(provider, s1, Write);
    var s3 := Step(provider, s2, ReadHcp);
    assert [Write, ReadHcp, SetHcp(UPGRADING)][1..] == [ReadHcp, SetHcp(UPGRADING)];
    assert [ReadHcp, SetHcp(UPGRADING)][1..] == [SetHcp(UPGRADING)];
    assert Run(provider, s1, [Write, ReadHcp, SetHcp(UPGRADING)]) == Run(provider, s2, [ReadHcp, SetHcp(UPGRADING)]);
    assert Run(provider, s3, [SetHcp(UPGRADING)]) == Step(provider, s3, SetHcp(UPGRADING));
    assert {} + {secret} == {secret};
  }

  /** During the upgrade the reconcile in flight goes on as if there were none. */
  lemma FinishesUnaware(provider: Provider, s: State, secret: Secret)
    requires s.flight == Flight(Some(IDLE), None, None) && PairOf(provider, secret).Ok?
    ensures Run(provider, s, Reads(secret) + [Write]) ==
              s.(secret := Some(secret), seen := s.seen + {secret}, pair := PairOf(provider, secret).value, flight := NO_FLIGHT)
  {
    UpgradingIs();
    ReadsFill(provider, s, secret);
    RunAppend(provider, s, Reads(secret), [Write]);
    var s' := Run(provider, s, Reads(secret));
    assert Run(provider, s', [Write]) == Step(provider, s', Write);
  }

  /** A run from the start in which the pair of a NodeClass that waits for the upgrade changes while the upgrade runs. */
  lemma HoldBreaksInReachableRun(provider: Provider)
    ensures var s := Run(provider, Fresh(), UntilUpgrade(SecretNamed("old")));
            var s' := Run(provider, s, Reads(SecretNamed("new")) + [Write]);
            Holding(s) && HoldsOn(Reads(SecretNamed("new")) + [Write]) && Holding(s') && s'.pair != s.pair
  {
    UpgradingIs();
    SecretNamedPair(provider, "old");
    SecretNamedPair(provider, "new");
    ReachesUpgrade(provider, Fresh(), SecretNamed("old"));
    FinishesUnaware(provider, Run(provider, Fresh(), UntilUpgrade(SecretNamed("old"))), SecretNamed("new"));
    assert "old"[0] != "new"[0];
  }

  // ---- After the upgrade, and for pinned NodeClasses ----

  /** Throughout `events` there is nothing to wait for: no upgrade runs, or the NodeClass is pinned all along. */
  predicate NeverWaits(s: State, events: seq<Event>, pinned: bool) {
    if pinned then
      s.version != "" && forall i :: 0 <= i < |events| && events[i].SetVersion? ==> events[i].version != ""
    else
      !IsControlPlaneUpgrading(s.hcp)
      && forall i :: 0 <= i < |events| && events[i].SetHcp? ==> !IsControlPlaneUpgrading(events[i].v)
  }

  /** What the reconcile in flight has read allows it to wait, although there is nothing left to wait for. */
  predicate MayWait(f: Flight, pinned: bool) {
    if pinned then
      f.version == Some("") && (f.hcp.None? || IsControlPlaneUpgrading(f.hcp.value))
    else
      f.hcp.Some? && IsControlPlaneUpgrading(f.hcp.value) && (f.version.None? || f.version.value == "")
  }

  /** The reconcile in flight does not hold the pair back: it cannot wait, has nothing to keep, or keeps what is asked for. */
  predicate CatchesUp(provider: Provider, s: State, pinned: bool) {
    || !MayWait(s.flight, pinned)
    || !IsSet(s.pair)
    || (s.flight.secret.Some? && PairOf(provider, s.flight.secret.value) in {Err, Ok(s.pair)})
  }

  /** A write right after `events` installs the pair of the Secret it read; without an AMI nothing changes. */
  ghost predicate Installs(provider: Provider, s: State, events: seq<Event>) {
    var s' := Run(provider, s, events);
    Loaded(s'.flight) ==>
      var asked := PairOf(provider, s'.flight.secret.value);
      Run(provider, s, events + [Write]).pair == if asked.Ok? then asked.value else s'.pair
  }

  lemma NeverWaitsNext(provider: Provider, s: State, events: seq<Event>, pinned: bool)
    requires NeverWaits(s, events, pinned) && events != []
    ensures NeverWaits(Step(provider, s, events[0]), events[1..], pinned)
  {
    forall i | 0 <= i < |events[1..]| ensures events[1..][i] == events[i + 1] {}
  }

  lemma {:induction false} StaysCaughtUp(provider: Provider, s: State, events: seq<Event>, pinned: bool)
    requires NeverWaits(s, events, pinned) && CatchesUp(provider, s, pinned)
    ensures CatchesUp(provider, Run(provider, s, events), pinned)
    decreases |events|
  {
    if events != [] {
      NeverWaitsNext(provider, s, events, pinned);
      assert CatchesUp(provider, Step(provider, s, events[0]), pinned) by { StepCatchesUp(provider, s, events, pinned); }
      StaysCaughtUp(provider, Step(provider, s, events[0]), events[1..], pinned);
    }
  }

  lemma StepCatchesUp(provider: Provider, s: State, events: seq<Event>, pinned: bool)
    requires NeverWaits(s, events, pinned) && CatchesUp(provider, s, pinned) && events != []
    ensures CatchesUp(provider, Step(provider, s, events[0]), pinned)
  {
    match events[0]
    case _ =>
  }

  /**
   From the completion of an upgrade on (`s`), every write installs the pair of the Secret it read, so the first
   successful one does; and a pinned NodeClass tracks the Secret at all times.
   */
  lemma WriteInstallsSecret(provider: Provider, s: State, events: seq<Event>, pinned: bool)
    requires NeverWaits(s, events, pinned) && CatchesUp(provider, s, pinned)
    ensures Installs(provider, s, events)
  {
    StaysCaughtUp(provider, s, events, pinned);
    RunAppend(provider, s, events, [Write]);
    var s' := Run(provider, s, events);
    assert Run(provider, s', [Write]) == Step(provider, s', Write);
  }

  /** A reconcile whose reads make it wait keeps the pair instead of installing what its Secret asks for. */
  lemma WaitingFlightHoldsBack(provider: Provider, s: State, secret: Secret)
    requires WaitsForControlPlaneUpgrade(if s.flight.hcp.Some? then s.flight.hcp.value else s.hcp,
                                         if s.flight.version.Some? then s.flight.version.value else s.version)
    requires IsSet(s.pair)
    requires PairOf(provider, if s.flight.secret.Some? then s.flight.secret.value else secret) !in {Err, Ok(s.pair)}
    ensures !Installs(provider, s, Reads(secret))
  {
    ReadsFill(provider, s, secret);
    RunAppend(provider, s, Reads(secret), [Write]);
    var s' := Run(provider, s, Reads(secret));
    assert Run(provider, s', [Write]) == Step(provider, s', Write);
  }

  lemma InstallsLater(provider: Provider, s: State, e: Event, events: seq<Event>)
    ensures Installs(provider, s, [e] + events) <==> Installs(provider, Step(provider, s, e), events)
  {
    assert ([e] + events)[1..] == events;
    assert ([e] + events + [Write])[1..] == events + [Write];
  }

  /** What the others can do so that a flight which may wait does. */
  function Lure(pinned: bool): Event {
    if pinned then SetHcp(UPGRADING) else SetVersion("")
  }

  lemma LuredFlightWaits(provider: Provider, s: State, pinned: bool)
    requires NeverWaits(s, [], pinned) && MayWait(s.flight, pinned)
    ensures var s' := Step(provider, s, Lure(pinned));
            && s'.flight == s.flight && s'.pair == s.pair
            && WaitsForControlPlaneUpgrade(if s.flight.hcp.Some? then s.flight.hcp.value else s'.hcp,
                                           if s.flight.version.Some? then s.flight.version.value else s'.version)
  {
    UpgradingIs();
  }

  lemma LureNeverWaits(s: State, secret: Secret, pinned: bool)
    requires NeverWaits(s, [], pinned)
    ensures NeverWaits(s, [Lure(pinned)] + Reads(secret), pinned)
  {}

  lemma LaggingFlightHoldsBack(provider: Provider, s: State, pinned: bool)
    requires NeverWaits(s, [], pinned) && !CatchesUp(provider, s, pinned)
    ensures exists events :: NeverWaits(s, events, pinned) && !Installs(provider, s, events)
  {
    var secret := OtherSecret(s.pair);
    LuredFlightWaits(provider, s, pinned);
    WaitingFlightHoldsBack(provider, Step(provider, s, Lure(pinned)), secret);
    InstallsLater(provider, s, Lure(pinned), Reads(secret));
    LureNeverWaits(s, secret, pinned);
  }

  const DONE := ControlPlaneVersion("new", "", [Entry(true, "new"), Entry(true, "old")])

  /** After the first write an upgrade begins, the next reconcile reads the HostedControlPlane, and the upgrade completes. */
  function UntilDone(secret: Secret): seq<Event> {
    Reads(secret) + [Write, SetHcp(UPGRADING), ReadHcp, SetHcp(DONE)]
  }

  lemma ReachesDone(provider: Provider, s: State, secret: Secret)
    requires s == Fresh() && PairOf(provider, secret).Ok?
    ensures Run(provider, s, UntilDone(secret)) ==
              State(DONE, "", Some(secret), PairOf(provider, secret).value, Flight(Some(UPGRADING), None, None), {secret})
  {
    ReadsFill(provider, s, secret);
    RunAppend(provider, s, Reads(secret), [Write, SetHcp(UPGRADING), ReadHcp, SetHcp(DONE)]);
    var s1 := Run(provider, s, Reads(secret));
    var s2 := Step(provider, s1, Write);
    var s3 := Step(provider, s2, SetHcp(UPGRADING));
    var s4 := Step(provider, s3, ReadHcp);
    assert [Write, SetHcp(UPGRADING), ReadHcp, SetHcp(DONE)][1..] == [SetHcp(UPGRADING), ReadHcp, SetHcp(DONE)];
    assert [SetHcp(UPGRADING), ReadHcp, SetHcp(DONE)][1..] == [ReadHcp, SetHcp(DONE)];
    assert [ReadHcp, SetHcp(DONE)][1..] == [SetHcp(DONE)];
    assert Run(provider, s3, [ReadHcp, SetHcp(DONE)]) == Run(provider, s4, [SetHcp(DONE)]);
    assert Run(provider, s4, [SetHcp(DONE)]) == Step(provider, s4, SetHcp(DONE));
    assert {} + {secret} == {secret};
  }

  /** A run from the start after which, the upgrade being over, a reconcile still holds the old pair back. */
  lemma OldPairHeldAfterUpgrade(provider: Provider)
    ensures var s := Run(provider, Fresh(), UntilDone(SecretNamed("old")));
            && NeverWaits(s, [], false) && !CatchesUp(provider, s, false)
            && !Installs(provider, s, Reads(SecretNamed("new")))
  {
    UpgradingIs();
    SecretNamedPair(provider, "old");
    SecretNamedPair(provider, "new");
    ReachesDone(provider, Fresh(), SecretNamed("old"));
    assert NewestCompleted(DONE.history) == Some("new");
    assert "old"[0] != "new"[0];
    WaitingFlightHoldsBack(provider, Run(provider, Fresh(), UntilDone(SecretNamed("old"))), SecretNamed("new"));
  }

  /**
   Exactly: whatever follows, every write installs the pair of the Secret it read, if and only if the reconcile that is
   in flight when the waiting ends does not hold the pair back.
   */
  lemma InstallsIffCaughtUp(provider: Provider, s: State, pinned: bool)
    requires NeverWaits(s, [], pinned)
    ensures (forall events | NeverWaits(s, events, pinned) :: Installs(provider, s, events)) <==> CatchesUp(provider, s, pinned)
  {
    if CatchesUp(provider, s, pinned) {
      forall events | NeverWaits(s, events, pinned) ensures Installs(provider, s, events) {
        WriteInstallsSecret(provider, s, events, pinned);
      }
    } else {
      LaggingFlightHoldsBack(provider, s, pinned);
    }
  }

  // ---- Both halves come from one Secret ----

  ghost predicate OneSnapshot(provider: Provider, s: State) {
    && (s.secret.Some? ==> s.secret.value in s.seen)
    && (s.flight.secret.Some? ==> s.flight.secret.value in s.seen)
    && (s.pair == UNSET || exists secret :: secret in s.seen && PairOf(provider, secret) == Ok(s.pair))
  }

  lemma StepKeepsOneSnapshot(provider: Provider, s: State, e: Event)
    requires OneSnapshot(provider, s)
    ensures OneSnapshot(provider, Step(provider, s, e))
  {
    var s' := Step(provider, s, e);
    if s'.pair == s.pair {
      if s.pair != UNSET {
        var secret :| secret in s.seen && PairOf(provider, secret) == Ok(s.pair);
        assert secret in s'.seen;
      }
    } else {
      assert e.Write? && Loaded(s.flight);
      assert PairOf(provider, s.flight.secret.value) == Ok(s'.pair);
    }
  }

  /** In every reachable state user data and image are those of one and the same Secret version. */
  lemma {:induction false} HalvesNeverMix(provider: Provider, s: State, events: seq<Event>)
    requires OneSnapshot(provider, s)
    ensures OneSnapshot(provider, Run(provider, s, events))
    decreases |events|
  {
    if events != [] {
      var s' := Step(provider, s, events[0]);
      StepKeepsOneSnapshot(provider, s, events[0]);
      HalvesNeverMix(provider, s', events[1..]);
    }
  }
}
