/**
 KubeletConfiguration as JSON (section 4 of RFC 8259): eleven typed fields, and an overflow object that carries every
 other member through. JSON texts are lists of members, in textual order and possibly with repeated keys.
 */
module KubeletConfig {
  import opened Wrappers
  import opened Collections

  datatype Json =
    | Null | Bool(b: bool) | Number(n: int) | Text(s: string)
    | Object(members: map<string, Json>)
    /** Arrays and numbers with a fraction or exponent: no typed field accepts them. */
    | Other(raw: string)

  datatype Member = Member(key: string, value: Json)

  type Int32 = n: int | -0x8000_0000 <= n < 0x8000_0000

  datatype Field =
    | MaxPods | PodsPerCore | SystemReserved | KubeReserved | EvictionHard | EvictionSoft | EvictionSoftGracePeriod
    | EvictionMaxPodGracePeriod | ImageGCHighThresholdPercent | ImageGCLowThresholdPercent | CPUCFSQuota

  const FIELDS := [MaxPods, PodsPerCore, SystemReserved, KubeReserved, EvictionHard, EvictionSoft, EvictionSoftGracePeriod,
                   EvictionMaxPodGracePeriod, ImageGCHighThresholdPercent, ImageGCLowThresholdPercent, CPUCFSQuota]

  function Name(f: Field): string {
    match f
    case MaxPods => "maxPods"
    case PodsPerCore => "podsPerCore"
    case SystemReserved => "systemReserved"
    case KubeReserved => "kubeReserved"
    case EvictionHard => "evictionHard"
    case EvictionSoft => "evictionSoft"
    case EvictionSoftGracePeriod => "evictionSoftGracePeriod"
    case EvictionMaxPodGracePeriod => "evictionMaxPodGracePeriod"
    case ImageGCHighThresholdPercent => "imageGCHighThresholdPercent"
    case ImageGCLowThresholdPercent => "imageGCLowThresholdPercent"
    case CPUCFSQuota => "cpuCFSQuota"
  }

  type StringMap = map<string, string>

  /** A nil map is None; a nil pointer is None. */
  datatype Config = Config(
    maxPods: Int32, podsPerCore: Int32,
    systemReserved: Option<StringMap>, kubeReserved: Option<StringMap>,
    evictionHard: Option<StringMap>, evictionSoft: Option<StringMap>, evictionSoftGracePeriod: Option<StringMap>,
    evictionMaxPodGracePeriod: Option<Int32>, imageGCHighThresholdPercent: Option<Int32>,
    imageGCLowThresholdPercent: Option<Int32>, cpuCFSQuota: Option<bool>,
    overflow: Option<map<string, Json>>)

  const ZERO := Config(0, 0, None, None, None, None, None, None, None, None, None, None)

  // ---- Field access ----

  datatype Slot = IntSlot(n: Int32) | MapSlot(m: Option<StringMap>) | PtrSlot(p: Option<Int32>) | BoolSlot(b: Option<bool>)

  function Get(c: Config, f: Field): Slot {
    match f
    case MaxPods => IntSlot(c.maxPods)
    case PodsPerCore => IntSlot(c.podsPerCore)
    case SystemReserved => MapSlot(c.systemReserved)
    case KubeReserved => MapSlot(c.kubeReserved)
    case EvictionHard => MapSlot(c.evictionHard)
    case EvictionSoft => MapSlot(c.evictionSoft)
    case EvictionSoftGracePeriod => MapSlot(c.evictionSoftGracePeriod)
    case EvictionMaxPodGracePeriod => PtrSlot(c.evictionMaxPodGracePeriod)
    case ImageGCHighThresholdPercent => PtrSlot(c.imageGCHighThresholdPercent)
    case ImageGCLowThresholdPercent => PtrSlot(c.imageGCLowThresholdPercent)
    case CPUCFSQuota => BoolSlot(c.cpuCFSQuota)
  }

  predicate SameType(a: Slot, b: Slot) {
    a.IntSlot? == b.IntSlot? && a.MapSlot? == b.MapSlot? && a.PtrSlot? == b.PtrSlot? && a.BoolSlot? == b.BoolSlot?
  }

  function Put(c: Config, f: Field, s: Slot): (r: Config)
    requires SameType(s, Get(ZERO, f))
    ensures forall g :: Get(r, g) == if g == f then s else Get(c, g)
    ensures r.overflow == c.overflow
  {
    match f
    case MaxPods => c.(maxPods := s.n)
    case PodsPerCore => c.(podsPerCore := s.n)
    case SystemReserved => c.(systemReserved := s.m)
    case KubeReserved => c.(kubeReserved := s.m)
    case EvictionHard => c.(evictionHard := s.m)
    case EvictionSoft => c.(evictionSoft := s.m)
    case EvictionSoftGracePeriod => c.(evictionSoftGracePeriod := s.m)
    case EvictionMaxPodGracePeriod => c.(evictionMaxPodGracePeriod := s.p)
    case ImageGCHighThresholdPercent => c.(imageGCHighThresholdPercent := s.p)
    case ImageGCLowThresholdPercent => c.(imageGCLowThresholdPercent := s.p)
    case CPUCFSQuota => c.(cpuCFSQuota := s.b)
  }

  lemma EqualFields(a: Config, b: Config)
    requires (forall f :: Get(a, f) == Get(b, f)) && a.overflow == b.overflow
    ensures a == b
  {
    assert forall f :: f in FIELDS ==> Get(a, f) == Get(b, f);
    assert Get(a, MaxPods) == Get(b, MaxPods) && Get(a, PodsPerCore) == Get(b, PodsPerCore);
    assert Get(a, SystemReserved) == Get(b, SystemReserved) && Get(a, KubeReserved) == Get(b, KubeReserved);
    assert Get(a, EvictionHard) == Get(b, EvictionHard) && Get(a, EvictionSoft) == Get(b, EvictionSoft);
    assert Get(a, EvictionSoftGracePeriod) == Get(b, EvictionSoftGracePeriod);
    assert Get(a, EvictionMaxPodGracePeriod) == Get(b, EvictionMaxPodGracePeriod);
    assert Get(a, ImageGCHighThresholdPercent) == Get(b, ImageGCHighThresholdPercent);
    assert Get(a, ImageGCLowThresholdPercent) == Get(b, ImageGCLowThresholdPercent);
    assert Get(a, CPUCFSQuota) == Get(b, CPUCFSQuota);
  }

  // ---- Keys: encoding/json matches them ignoring case ----

  /** The representative of a character's case-folding class, as far as ASCII letters are concerned. */
  function FoldChar(c: char): char {
    if 'a' <= c <= 'z' then (c as int - 32) as char
    else if c == '\U{17F}' then 'S'
    else if c == '\U{212A}' then 'K'
    else c
  }

  function Fold(s: string): string {
    seq(|s|, i requires 0 <= i < |s| => FoldChar(s[i]))
  }

  /** The field that a member of this key is decoded into. */
  predicate Matches(key: string, f: Field) {
    Fold(key) == Fold(Name(f))
  }

  predicate Known(key: string) {
    exists f :: Matches(key, f)
  }

  function Signature(s: string): (int, char, char) {
    (|s|, if |s| > 8 then FoldChar(s[0]) else ' ', if |s| > 8 then FoldChar(s[8]) else ' ')
  }

  lemma SignatureOfFold(s: string, t: string)
    requires Fold(s) == Fold(t)
    ensures Signature(s) == Signature(t)
  {
    assert |Fold(s)| == |s| && |Fold(t)| == |t|;
    if |s| > 8 {
      assert Fold(s)[0] == Fold(t)[0] && Fold(s)[8] == Fold(t)[8];
    }
  }

  lemma SignaturesDiffer(f: Field, g: Field)
    requires Signature(Name(f)) == Signature(Name(g))
    ensures f == g
  {}

  /** No key belongs to two fields; in particular field names are distinct. */
  lemma MatchesOne(key: string, f: Field, g: Field)
    requires Matches(key, f) && Matches(key, g)
    ensures f == g
  {
    SignatureOfFold(Name(f), Name(g));
    SignaturesDiffer(f, g);
  }

  function KnownNames(): set<string> {
    set f: Field | f in FIELDS :: Name(f)
  }

  lemma AllFields(f: Field)
    ensures f in FIELDS && Name(f) in KnownNames()
  {
    assert FIELDS[0] == MaxPods && FIELDS[1] == PodsPerCore && FIELDS[2] == SystemReserved && FIELDS[3] == KubeReserved
           && FIELDS[4] == EvictionHard && FIELDS[5] == EvictionSoft && FIELDS[6] == EvictionSoftGracePeriod
           && FIELDS[7] == EvictionMaxPodGracePeriod && FIELDS[8] == ImageGCHighThresholdPercent
           && FIELDS[9] == ImageGCLowThresholdPercent && FIELDS[10] == CPUCFSQuota;
    assert f in FIELDS;
  }

  // ---- Encoding and decoding one field ----

  /** The JSON of a field, absent for the values that omitempty drops. */
  function Encode(s: Slot): Option<Json> {
    match s
    case IntSlot(n) => if n == 0 then None else Some(Number(n))
    case MapSlot(m) => if m.None? || m.value == map[] then None else Some(Object(map k | k in m.value :: Text(m.value[k])))
    case PtrSlot(p) => if p.None? then None else Some(Number(p.value))
    case BoolSlot(b) => if b.None? then None else Some(Bool(b.value))
  }

  predicate InRange(n: int) {
    -0x8000_0000 <= n < 0x8000_0000
  }

  /** Decoding into a field that may already hold a value: null leaves a number alone, and objects add to a map. */
  function Decode(v: Json, current: Slot): (r: Result<Slot>)
    ensures r.Ok? ==> SameType(r.value, current)
  {
    match current
    case IntSlot(n) =>
      if v.Null? then Ok(current) else if v.Number? && InRange(v.n) then Ok(IntSlot(v.n)) else Err
    case MapSlot(m) =>
      if v.Null? then Ok(MapSlot(None))
      else if v.Object? && forall k :: k in v.members ==> v.members[k].Text? || v.members[k].Null? then
        var base := if m.Some? then m.value else map[];
        Ok(MapSlot(Some(base + map k | k in v.members :: if v.members[k].Text? then v.members[k].s else "")))
      else Err
    case PtrSlot(p) =>
      if v.Null? then Ok(PtrSlot(None)) else if v.Number? && InRange(v.n) then Ok(PtrSlot(Some(v.n))) else Err
    case BoolSlot(b) =>
      if v.Null? then Ok(BoolSlot(None)) else if v.Bool? then Ok(BoolSlot(Some(v.b))) else Err
  }

  /**
   What the field holds after a decode that may have failed: encoding/json reports the first bad value at the end and
   goes on. A bad value leaves a number as it is, allocates a nil pointer, and becomes the empty string inside a map.
   */
  function DecodeAnyway(v: Json, current: Slot): (s: Slot)
    ensures SameType(s, current)
    ensures Decode(v, current).Ok? ==> s == Decode(v, current).value
  {
    if Decode(v, current).Ok? then Decode(v, current).value
    else
      match current
      case IntSlot(_) => current
      case MapSlot(m) =>
        if !v.Object? then current
        else
          var base := if m.Some? then m.value else map[];
          MapSlot(Some(base + map k | k in v.members :: if v.members[k].Text? then v.members[k].s else ""))
      case PtrSlot(p) => PtrSlot(Some(if p.Some? then p.value else 0))
      case BoolSlot(b) => BoolSlot(Some(if b.Some? then b.value else false))
  }

  /** A value that survives decoding and encoding: neither null, zero nor empty, and without nulls inside. */
  predicate NonDefault(f: Field, v: Json) {
    match Get(ZERO, f)
    case IntSlot(_) => v.Number? && v.n != 0
    case MapSlot(_) => v.Object? && v.members != map[] && forall k :: k in v.members ==> v.members[k].Text?
    case PtrSlot(_) => v.Number?
    case BoolSlot(_) => v.Bool?
  }

  /** A field value that encoding does not lose: a map is nil or non-empty. */
  predicate NormalSlot(s: Slot) {
    s.MapSlot? && s.m.Some? ==> s.m.value != map[]
  }

  lemma DecodeEncode(f: Field, s: Slot)
    requires SameType(s, Get(ZERO, f)) && NormalSlot(s)
    ensures Encode(s).None? <==> s == Get(ZERO, f)
    ensures Encode(s).Some? ==> Decode(Encode(s).value, Get(ZERO, f)) == Ok(s)
  {
    if s.MapSlot? && s.m.Some? {
      var v := Encode(s).value;
      assert map[] + (map k | k in v.members :: if v.members[k].Text? then v.members[k].s else "") == s.m.value;
    }
  }

  lemma EncodeDecode(f: Field, v: Json)
    requires Decode(v, Get(ZERO, f)).Ok?
    ensures Encode(Decode(v, Get(ZERO, f)).value) == Some(v) <==> NonDefault(f, v)
  {
    match Get(ZERO, f)
    case MapSlot(_) =>
      if v.Object? {
        var m := map k | k in v.members :: if v.members[k].Text? then v.members[k].s else "";
        assert map[] + m == m && m.Keys == v.members.Keys;
        if NonDefault(f, v) {
          assert (map k | k in m :: Text(m[k])) == v.members;
        } else if v.members != map[] {
          var k :| k in v.members && !v.members[k].Text?;
          assert (map k | k in m :: Text(m[k]))[k] != v.members[k];
        }
      }
    case _ =>
  }

  // ---- UnmarshalJSON ----

  function FirstMatch(key: string, fields: seq<Field>): (r: Option<Field>)
    ensures r.Some? ==> r.value in fields && Matches(key, r.value)
    ensures r.None? ==> forall f | f in fields :: !Matches(key, f)
  {
    if fields == [] then None
    else if Matches(key, fields[0]) then Some(fields[0])
    else FirstMatch(key, fields[1..])
  }

  function FieldOf(key: string): Option<Field> {
    FirstMatch(key, FIELDS)
  }

  lemma FieldOfIff(key: string, f: Field)
    ensures FieldOf(key) == Some(f) <==> Matches(key, f)
  {
    AllFields(f);
    if FieldOf(key).Some? && Matches(key, f) {
      MatchesOne(key, f, FieldOf(key).value);
    }
  }

  lemma FieldOfName(f: Field)
    ensures FieldOf(Name(f)) == Some(f) && Name(f) in KnownNames()
  {
    FieldOfIff(Name(f), f);
    AllFields(f);
  }

  /** The typed fields, member by member; one bad value makes the whole decode fail. */
  function Typed(members: seq<Member>): (r: Result<Config>)
    ensures r.Ok? ==> r.value.overflow.None?
  {
    if members == [] then Ok(ZERO)
    else
      var n := |members| - 1;
      var c := Typed(members[..n]);
      if c.Err? then Err else TypedNext(c.value, members[n])
  }

  function TypedNext(c: Config, m: Member): (r: Result<Config>)
    ensures r.Ok? ==> r.value.overflow == c.overflow
  {
    var f := FieldOf(m.key);
    if f.None? then Ok(c)
    else
      var s := Decode(m.value, Get(c, f.value));
      if s.Err? then Err else Ok(Put(c, f.value, s.value))
  }

  /** The typed fields, whatever values are bad. */
  function TypedAnyway(members: seq<Member>): (c: Config)
    ensures c.overflow.None?
  {
    if members == [] then ZERO
    else
      var n := |members| - 1;
      AnywayNext(TypedAnyway(members[..n]), members[n])
  }

  function AnywayNext(c: Config, m: Member): (r: Config)
    ensures r.overflow == c.overflow
    ensures TypedNext(c, m).Ok? ==> r == TypedNext(c, m).value
  {
    var f := FieldOf(m.key);
    if f.None? then c else Put(c, f.value, DecodeAnyway(m.value, Get(c, f.value)))
  }

  /** Without bad values both decodes agree. */
  lemma {:induction false} AnywayIsTyped(members: seq<Member>)
    ensures Typed(members).Ok? ==> TypedAnyway(members) == Typed(members).value
  {
    if members != [] {
      AnywayIsTyped(members[..|members| - 1]);
    }
  }

  /** The values of the members whose key is taken, in textual order. */
  function Values(members: seq<Member>, taken: string -> bool): seq<Json> {
    if members == [] then []
    else
      var n := |members| - 1;
      Values(members[..n], taken) + if taken(members[n].key) then [members[n].value] else []
  }

  function Taken(f: Field): string -> bool {
    key => FieldOf(key) == Some(f)
  }

  /** One value after the other decoded into a field. */
  function DecodeAll(values: seq<Json>, start: Slot): (r: Result<Slot>)
    ensures r.Ok? ==> SameType(r.value, start)
  {
    if values == [] then Ok(start)
    else
      var n := |values| - 1;
      var s := DecodeAll(values[..n], start);
      if s.Err? then Err else Decode(values[n], s.value)
  }

  /** What one field ends up with, whatever happens to the other ten. */
  function FieldDecode(members: seq<Member>, f: Field): (r: Result<Slot>)
    ensures r.Ok? ==> SameType(r.value, Get(ZERO, f))
  {
    if members == [] then Ok(Get(ZERO, f))
    else
      var n := |members| - 1;
      var s := FieldDecode(members[..n], f);
      if s.Err? || FieldOf(members[n].key) != Some(f) then s else Decode(members[n].value, s.value)
  }

  lemma DecodeLast(values: seq<Json>, v: Json, start: Slot)
    ensures DecodeAll(values + [v], start) ==
              var s := DecodeAll(values, start); if s.Err? then Err else Decode(v, s.value)
  {
    assert (values + [v])[..|values|] == values;
  }

  lemma ValuesNext(members: seq<Member>, taken: string -> bool, start: Slot)
    requires members != []
    ensures var n := |members| - 1;
            var s := DecodeAll(Values(members[..n], taken), start);
            DecodeAll(Values(members, taken), start) ==
              if s.Err? || !taken(members[n].key) then s else Decode(members[n].value, s.value)
  {
    var before := Values(members[..|members| - 1], taken);
    DecodeLast(before, members[|members| - 1].value, start);
    assert before + [] == before;
  }

  lemma {:induction false} FieldDecodeIsAll(members: seq<Member>, f: Field)
    ensures FieldDecode(members, f) == DecodeAll(Values(members, Taken(f)), Get(ZERO, f))
  {
    if members != [] {
      ValuesNext(members, Taken(f), Get(ZERO, f));
      FieldDecodeIsAll(members[..|members| - 1], f);
    }
  }

  /** A map decoded from the members: the last of a repeated key wins. */
  function RawMap(members: seq<Member>): map<string, Json> {
    if members == [] then map[]
    else
      var n := |members| - 1;
      RawMap(members[..n])[members[n].key := members[n].value]
  }

  function OverflowOf(raw: map<string, Json>): Option<map<string, Json>> {
    var rest := raw - KnownNames();
    if rest == map[] then None else Some(rest)
  }

  function Unmarshal(members: seq<Member>): Result<Config> {
    var typed := Typed(members);
    if typed.Err? then Err else Ok(typed.value.(overflow := OverflowOf(RawMap(members))))
  }

  /** Decoding treats the fields independently: it fails exactly if some field does. */
  lemma {:induction false} TypedPerField(members: seq<Member>)
    ensures Typed(members).Ok? <==> forall f :: FieldDecode(members, f).Ok?
    ensures Typed(members).Ok? ==> forall f :: FieldDecode(members, f) == Ok(Get(Typed(members).value, f))
  {
    if members != [] {
      var n := |members| - 1;
      TypedPerField(members[..n]);
      if Typed(members[..n]).Err? {
        var f :| FieldDecode(members[..n], f).Err?;
        assert FieldDecode(members, f).Err?;
      } else if FieldOf(members[n].key).Some? {
        var f := FieldOf(members[n].key).value;
        assert FieldDecode(members, f) == Decode(members[n].value, Get(Typed(members[..n]).value, f));
      }
    }
  }

  /** The keys that encoding/json takes for this one. */
  function SpelledLike(key: string): string -> bool {
    k => Fold(k) == Fold(key)
  }

  /** `slot` is what the members that are spelled like `key` make of a field that starts as `empty`. */
  predicate Becomes(members: seq<Member>, key: string, empty: Slot, slot: Slot) {
    DecodeAll(Values(members, SpelledLike(key)), empty) == Ok(slot)
  }

  lemma {:induction false} SameValues(members: seq<Member>, a: string -> bool, b: string -> bool)
    requires forall key :: a(key) == b(key)
    ensures Values(members, a) == Values(members, b)
  {
    if members != [] {
      SameValues(members[..|members| - 1], a, b);
    }
  }

  lemma FieldBecomes(members: seq<Member>, key: string, f: Field)
    requires Typed(members).Ok? && key == Name(f)
    ensures Becomes(members, key, Get(ZERO, f), Get(Typed(members).value, f))
  {
    TypedPerField(members);
    FieldDecodeIsAll(members, f);
    forall k ensures Taken(f)(k) == SpelledLike(key)(k) { FieldOfIff(k, f); }
    SameValues(members, Taken(f), SpelledLike(key));
  }

  /** Which field of the record each key is for, in every text that decodes: the numbers and the flag. */
  lemma ScalarsBecome(members: seq<Member>)
    requires Typed(members).Ok?
    ensures var c := Typed(members).value;
            && Becomes(members, "maxPods", IntSlot(0), IntSlot(c.maxPods))
            && Becomes(members, "podsPerCore", IntSlot(0), IntSlot(c.podsPerCore))
            && Becomes(members, "cpuCFSQuota", BoolSlot(None), BoolSlot(c.cpuCFSQuota))
  {
    FieldBecomes(members, "maxPods", MaxPods);
    FieldBecomes(members, "podsPerCore", PodsPerCore);
    FieldBecomes(members, "cpuCFSQuota", CPUCFSQuota);
  }

  /** Likewise the optional numbers. */
  lemma PointersBecome(members: seq<Member>)
    requires Typed(members).Ok?
    ensures var c := Typed(members).value;
            && Becomes(members, "evictionMaxPodGracePeriod", PtrSlot(None), PtrSlot(c.evictionMaxPodGracePeriod))
            && Becomes(members, "imageGCHighThresholdPercent", PtrSlot(None), PtrSlot(c.imageGCHighThresholdPercent))
            && Becomes(members, "imageGCLowThresholdPercent", PtrSlot(None), PtrSlot(c.imageGCLowThresholdPercent))
  {
    FieldBecomes(members, "evictionMaxPodGracePeriod", EvictionMaxPodGracePeriod);
    FieldBecomes(members, "imageGCHighThresholdPercent", ImageGCHighThresholdPercent);
    FieldBecomes(members, "imageGCLowThresholdPercent", ImageGCLowThresholdPercent);
  }

  /** Likewise the maps. */
  lemma MapsBecome(members: seq<Member>)
    requires Typed(members).Ok?
    ensures var c := Typed(members).value;
            && Becomes(members, "systemReserved", MapSlot(None), MapSlot(c.systemReserved))
            && Becomes(members, "kubeReserved", MapSlot(None), MapSlot(c.kubeReserved))
            && Becomes(members, "evictionHard", MapSlot(None), MapSlot(c.evictionHard))
            && Becomes(members, "evictionSoft", MapSlot(None), MapSlot(c.evictionSoft))
            && Becomes(members, "evictionSoftGracePeriod", MapSlot(None), MapSlot(c.evictionSoftGracePeriod))
  {
    FieldBecomes(members, "systemReserved", SystemReserved);
    FieldBecomes(members, "kubeReserved", KubeReserved);
    FieldBecomes(members, "evictionHard", EvictionHard);
    FieldBecomes(members, "evictionSoft", EvictionSoft);
    FieldBecomes(members, "evictionSoftGracePeriod", EvictionSoftGracePeriod);
  }

  // ---- MarshalJSON ----

  /** The object that encoding/json makes of the typed fields. */
  function Structured(c: Config): map<string, Json> {
    map key | key in KnownNames() && FieldOf(key).Some? && Encode(Get(c, FieldOf(key).value)).Some?
      :: Encode(Get(c, FieldOf(key).value)).value
  }

  function OverflowMap(c: Config): map<string, Json> {
    if c.overflow.None? then map[] else c.overflow.value
  }

  /** Structured fields win over overflow members of the same name. */
  function Marshal(c: Config): map<string, Json> {
    OverflowMap(c) + Structured(c)
  }

  function Lookup(o: map<string, Json>, key: string): Option<Json> {
    if key in o then Some(o[key]) else None
  }

  lemma StructuredAt(c: Config, f: Field)
    ensures Lookup(Structured(c), Name(f)) == Encode(Get(c, f))
  {
    FieldOfName(f);
  }

  /** Every key outside the eleven names is overflow, on the way out and on the way in. */
  lemma OthersAreOverflow(c: Config, key: string)
    requires key !in KnownNames()
    ensures Lookup(Marshal(c), key) == Lookup(OverflowMap(c), key)
    ensures forall raw :: Lookup(raw, key) == if OverflowOf(raw).None? then None else Lookup(OverflowOf(raw).value, key)
  {
    forall raw: map<string, Json>
      ensures Lookup(raw, key) == if OverflowOf(raw).None? then None else Lookup(OverflowOf(raw).value, key)
    {
      if key in raw { assert key in raw - KnownNames(); }
    }
  }

  // ---- Texts ----

  predicate DistinctKeys(members: seq<Member>) {
    forall i, j :: 0 <= i < j < |members| ==> members[i].key != members[j].key
  }

  /** The members of a JSON text of object `o`, in some order. */
  predicate TextOf(members: seq<Member>, o: map<string, Json>) {
    DistinctKeys(members) && RawMap(members) == o
  }

  lemma {:induction false} RawMapKeys(members: seq<Member>, key: string)
    ensures key in RawMap(members) <==> exists i :: 0 <= i < |members| && members[i].key == key
  {
    if members != [] {
      var n := |members| - 1;
      RawMapKeys(members[..n], key);
      if key in RawMap(members[..n]) {
        var i :| 0 <= i < n && members[..n][i].key == key;
        assert members[i].key == key;
      } else if exists i :: 0 <= i < |members| && members[i].key == key {
        var i :| 0 <= i < |members| && members[i].key == key;
        assert i < n ==> members[..n][i].key == key;
      }
    }
  }

  lemma DistinctNext(members: seq<Member>)
    requires DistinctKeys(members) && members != []
    ensures DistinctKeys(members[..|members| - 1]) && members[|members| - 1].key !in RawMap(members[..|members| - 1])
  {
    var n := |members| - 1;
    RawMapKeys(members[..n], members[n].key);
  }

  /** The values taken from a text are those of the object's taken keys. */
  lemma {:induction false} ValuesAre(members: seq<Member>, taken: string -> bool, v: Json)
    requires DistinctKeys(members)
    ensures v in Values(members, taken) <==>
              exists key :: taken(key) && key in RawMap(members) && RawMap(members)[key] == v
  {
    if members != [] {
      var n := |members| - 1;
      var m, before := members[n], RawMap(members[..n]);
      DistinctNext(members);
      ValuesAre(members[..n], taken, v);
      if key :| taken(key) && key in before && before[key] == v {
        assert RawMap(members)[key] == v;
      }
      if key :| taken(key) && key in RawMap(members) && RawMap(members)[key] == v {
        assert key != m.key ==> key in before && before[key] == v;
      }
    }
  }

  /** Every object has a text, and any one member may come last in it. */
  lemma {:induction false} SomeText(o: map<string, Json>) returns (members: seq<Member>)
    ensures TextOf(members, o)
    decreases |o.Keys|, 1
  {
    if o == map[] {
      members := [];
    } else {
      var key :| key in o;
      members := TextEndingIn(o, key);
    }
  }

  lemma {:induction false} TextEndingIn(o: map<string, Json>, key: string) returns (members: seq<Member>)
    requires key in o
    ensures TextOf(members, o) && members != [] && members[|members| - 1] == Member(key, o[key])
    decreases |o.Keys|, 0
  {
    var rest := o - {key};
    assert rest.Keys == o.Keys - {key};
    var before := SomeText(rest);
    RawMapKeys(before, key);
    members := before + [Member(key, o[key])];
    Appended(before, Member(key, o[key]));
    assert rest[key := o[key]] == o;
  }

  lemma Appended(members: seq<Member>, m: Member)
    requires DistinctKeys(members) && m.key !in RawMap(members)
    ensures DistinctKeys(members + [m]) && RawMap(members + [m]) == RawMap(members)[m.key := m.value]
  {
    assert (members + [m])[..|members|] == members;
    RawMapKeys(members, m.key);
  }

  // ---- Decoding one field from members in any order ----

  /** Decoding this value into a field that holds `s` changes nothing. */
  predicate Absorbs(v: Json, s: Slot) {
    Decode(v, s) == Ok(s)
  }

  /** What a field may hold on its way from the zero value to `s`. */
  predicate Below(x: Slot, s: Slot) {
    match s
    case IntSlot(n) => x == s || x == IntSlot(0)
    case MapSlot(m) =>
      x == s || x == MapSlot(None)
      || (x.MapSlot? && x.m.Some? && m.Some? && forall k :: k in x.m.value ==> k in m.value && m.value[k] == x.m.value[k])
    case PtrSlot(p) => x == s || x == PtrSlot(None)
    case BoolSlot(b) => x == s || x == BoolSlot(None)
  }

  /** The value alone takes the field all the way to `s`. */
  predicate Completes(v: Json, s: Slot) {
    Encode(s) == Some(v) || !NormalSlot(s)
  }

  lemma OwnAbsorbs(s: Slot)
    ensures Encode(s).Some? ==> Absorbs(Encode(s).value, s)
  {
    if s.MapSlot? && Encode(s).Some? {
      var v := Encode(s).value;
      assert s.m.value + (map k | k in v.members :: if v.members[k].Text? then v.members[k].s else "") == s.m.value;
    }
  }

  lemma AbsorbBelow(v: Json, x: Slot, s: Slot)
    requires Absorbs(v, s) && Below(x, s)
    ensures Decode(v, x).Ok? && Below(Decode(v, x).value, s)
    ensures x == s || Completes(v, s) ==> Decode(v, x) == Ok(s)
  {
    if s.MapSlot? && v.Object? {
      var add := map k | k in v.members :: if v.members[k].Text? then v.members[k].s else "";
      assert s.m.value + add == s.m.value;
      forall k | k in add ensures k in s.m.value && s.m.value[k] == add[k] { assert (s.m.value + add)[k] == add[k]; }
      var base := if x.m.Some? then x.m.value else map[];
      assert Decode(v, x) == Ok(MapSlot(Some(base + add)));
      if Encode(s) == Some(v) {
        assert add.Keys == v.members.Keys == s.m.value.Keys;
        assert base + add == s.m.value;
      } else if !NormalSlot(s) {
        assert base + add == map[];
      }
    }
  }

  /** A value that leads to `s` from anywhere leaves `s` alone. */
  lemma DecodeTwice(v: Json, x: Slot, s: Slot)
    requires Decode(v, x) == Ok(s)
    ensures Absorbs(v, s)
  {
    if s.MapSlot? && v.Object? {
      var add := map k | k in v.members :: if v.members[k].Text? then v.members[k].s else "";
      var base := if x.m.Some? then x.m.value else map[];
      assert s.m.value == base + add;
      assert s.m.value + add == s.m.value;
    }
  }

  /** Values that `s` absorbs never lead past `s`, and reach it if one of them does alone. */
  lemma {:induction false} Settles(values: seq<Json>, start: Slot, s: Slot)
    requires Below(start, s) && forall v :: v in values ==> Absorbs(v, s)
    ensures DecodeAll(values, start).Ok? && Below(DecodeAll(values, start).value, s)
    ensures (exists v :: v in values && Completes(v, s)) ==> DecodeAll(values, start) == Ok(s)
  {
    if values != [] {
      var n := |values| - 1;
      LastOf(values);
      Settles(values[..n], start, s);
      AbsorbBelow(values[n], DecodeAll(values[..n], start).value, s);
    }
  }

  lemma ZeroIsBelow(s: Slot, f: Field)
    requires SameType(s, Get(ZERO, f))
    ensures Below(Get(ZERO, f), s)
    ensures forall x :: Below(x, Get(ZERO, f)) ==> x == Get(ZERO, f)
  {}

  /** No key stands for a field in anything but that field's own spelling. */
  predicate ExactKeys(o: map<string, Json>) {
    forall key :: key in o && FieldOf(key).Some? ==> key == Name(FieldOf(key).value)
  }

  lemma {:induction false} ExactValues(members: seq<Member>, taken: string -> bool, name: string)
    requires DistinctKeys(members) && taken(name)
    requires forall key :: key in RawMap(members) && taken(key) ==> key == name
    ensures Values(members, taken) == if name in RawMap(members) then [RawMap(members)[name]] else []
  {
    if members != [] {
      var n := |members| - 1;
      DistinctNext(members);
      forall key | key in RawMap(members[..n]) ensures key in RawMap(members) {}
      ExactValues(members[..n], taken, name);
      assert members[n].key in RawMap(members);
    }
  }

  /** With exact keys, every field is decoded from the member of its own name alone. */
  lemma ExactDecode(members: seq<Member>, o: map<string, Json>, f: Field)
    requires TextOf(members, o) && ExactKeys(o)
    ensures FieldDecode(members, f) == if Name(f) in o then Decode(o[Name(f)], Get(ZERO, f)) else Ok(Get(ZERO, f))
  {
    FieldOfName(f);
    ExactValues(members, Taken(f), Name(f));
    FieldDecodeIsAll(members, f);
    if Name(f) in o {
      DecodeLast([], o[Name(f)], Get(ZERO, f));
      assert [] + [o[Name(f)]] == [o[Name(f)]];
    }
  }

  /** With exact keys all texts of an object are decoded alike: the order of members does not matter. */
  lemma TextsAgree(a: seq<Member>, b: seq<Member>, o: map<string, Json>)
    requires TextOf(a, o) && TextOf(b, o) && ExactKeys(o)
    ensures Unmarshal(a) == Unmarshal(b)
  {
    forall f ensures FieldDecode(a, f) == FieldDecode(b, f) {
      ExactDecode(a, o, f);
      ExactDecode(b, o, f);
    }
    TypedPerField(a);
    TypedPerField(b);
    if Typed(a).Ok? {
      forall f ensures Get(Typed(a).value, f) == Get(Typed(b).value, f) {
        assert FieldDecode(a, f) == FieldDecode(b, f);
      }
      EqualFields(Typed(a).value, Typed(b).value);
    }
  }

  // ---- Unmarshal after Marshal ----

  predicate Normal(c: Config) {
    && (forall f :: NormalSlot(Get(c, f)))
    && (c.overflow.Some? ==> c.overflow.value != map[] && forall key :: key in c.overflow.value ==> !Known(key))
  }

  /** Where a marshalled object holds a field: the field if it is not omitted, or else an overflow member. */
  lemma MarshalAt(c: Config, f: Field)
    ensures Lookup(Marshal(c), Name(f)) ==
              if Encode(Get(c, f)).Some? then Encode(Get(c, f)) else Lookup(OverflowMap(c), Name(f))
  {
    StructuredAt(c, f);
  }

  lemma SlotTypes(c: Config, f: Field)
    ensures SameType(Get(c, f), Get(ZERO, f))
  {}

  lemma FieldsRecovered(c: Config, members: seq<Member>)
    requires forall f :: FieldDecode(members, f) == Ok(Get(c, f))
    requires OverflowOf(RawMap(members)) == c.overflow
    ensures Unmarshal(members) == Ok(c)
  {
    TypedPerField(members);
    var back := Unmarshal(members).value;
    forall f ensures Get(back, f) == Get(c, f) {
      assert FieldDecode(members, f) == Ok(Get(Typed(members).value, f));
    }
    EqualFields(back, c);
  }

  /** Whatever text of the encoding is decoded, the configuration comes back. */
  ghost predicate RoundTrips(c: Config) {
    forall members :: TextOf(members, Marshal(c)) ==> Unmarshal(members) == Ok(c)
  }

  predicate OverflowRecoverable(c: Config) {
    c.overflow.Some? ==> c.overflow.value != map[] && forall key :: key in c.overflow.value ==> key !in KnownNames()
  }

  /** An overflow key that encoding/json takes for the field. */
  predicate OverflowFor(c: Config, key: string, f: Field) {
    key in OverflowMap(c) && Taken(f)(key)
  }

  /** Overflow members that are taken for the field say nothing new, and an empty map is spelt out by one of them. */
  ghost predicate FieldRecoverable(c: Config, f: Field) {
    && (forall key :: OverflowFor(c, key, f) ==> Absorbs(OverflowMap(c)[key], Get(c, f)))
    && (NormalSlot(Get(c, f)) || exists key :: OverflowFor(c, key, f))
  }

  ghost predicate Recoverable(c: Config) {
    OverflowRecoverable(c) && forall f :: FieldRecoverable(c, f)
  }

  /** The overflow of an encoding, as decoding sees it. */
  lemma OverflowBack(c: Config)
    ensures OverflowOf(Marshal(c)) == c.overflow <==> OverflowRecoverable(c)
    ensures OverflowRecoverable(c) ==>
              forall key :: key in OverflowMap(c) ==> Lookup(Marshal(c), key) == Some(OverflowMap(c)[key])
  {
    if OverflowRecoverable(c) {
      assert Marshal(c) - KnownNames() == OverflowMap(c);
    } else if c.overflow.value != map[] {
      var key :| key in c.overflow.value && key in KnownNames();
      assert key !in Marshal(c) - KnownNames();
    }
  }

  lemma MergedValues(members: seq<Member>, over: map<string, Json>, top: map<string, Json>, taken: string -> bool,
                     name: string, v: Json)
    requires DistinctKeys(members) && RawMap(members) == over + top && over.Keys !! top.Keys
    requires taken(name) && forall key :: key in top && taken(key) ==> key == name
    ensures v in Values(members, taken) <==>
              (name in top && top[name] == v) || exists key :: key in over && taken(key) && over[key] == v
  {
    ValuesAre(members, taken, v);
    if key :| taken(key) && key in over + top && (over + top)[key] == v {
      assert key in top ==> key == name;
    }
    if key :| key in over && taken(key) && over[key] == v {
      assert key in over + top && (over + top)[key] == v;
    }
    if name in top && top[name] == v {
      assert name in over + top && (over + top)[name] == v;
    }
  }

  lemma NameOfKey(key: string, f: Field)
    requires key in KnownNames() && FieldOf(key) == Some(f)
    ensures key == Name(f)
  {
    var g :| g in FIELDS && Name(g) == key;
    FieldOfName(g);
  }

  lemma StructuredFor(c: Config, f: Field)
    ensures forall key :: key in Structured(c) && Taken(f)(key) ==> key == Name(f)
  {
    forall key | key in Structured(c) && Taken(f)(key) ensures key == Name(f) { NameOfKey(key, f); }
  }

  /** What is decoded into a field from an encoding: the field itself, and overflow members. */
  lemma EncodedValues(c: Config, members: seq<Member>, f: Field, v: Json)
    requires TextOf(members, Marshal(c)) && OverflowRecoverable(c)
    ensures v in Values(members, Taken(f)) <==>
              Encode(Get(c, f)) == Some(v) || exists key :: OverflowFor(c, key, f) && OverflowMap(c)[key] == v
  {
    StructuredAt(c, f);
    StructuredFor(c, f);
    FieldOfName(f);
    MergedValues(members, OverflowMap(c), Structured(c), Taken(f), Name(f), v);
    if key :| key in OverflowMap(c) && Taken(f)(key) && OverflowMap(c)[key] == v {
      assert OverflowFor(c, key, f);
    }
  }

  lemma RecoveredField(c: Config, members: seq<Member>, f: Field)
    requires TextOf(members, Marshal(c)) && OverflowRecoverable(c) && FieldRecoverable(c, f)
    ensures FieldDecode(members, f) == Ok(Get(c, f))
  {
    var s, values := Get(c, f), Values(members, Taken(f));
    SlotTypes(c, f);
    OwnAbsorbs(s);
    ZeroIsBelow(s, f);
    forall v | v in values ensures Absorbs(v, s) { EncodedValues(c, members, f, v); }
    FieldDecodeIsAll(members, f);
    Settles(values, Get(ZERO, f), s);
    if Encode(s).Some? {
      EncodedValues(c, members, f, Encode(s).value);
      assert Completes(Encode(s).value, s);
    } else if NormalSlot(s) {
      DecodeEncode(f, s);
    } else {
      var key :| OverflowFor(c, key, f);
      EncodedValues(c, members, f, OverflowMap(c)[key]);
      assert Completes(OverflowMap(c)[key], s);
    }
  }

  lemma NecessaryForKey(c: Config, key: string, f: Field)
    ensures OverflowFor(c, key, f) && RoundTrips(c) && OverflowRecoverable(c) ==> Absorbs(OverflowMap(c)[key], Get(c, f))
  {
    if OverflowFor(c, key, f) && RoundTrips(c) && OverflowRecoverable(c) {
      OverflowBack(c);
      var members := TextEndingIn(Marshal(c), key);
      TypedPerField(members);
      assert FieldDecode(members, f) == Ok(Get(c, f));
      var n := |members| - 1;
      DecodeTwice(members[n].value, FieldDecode(members[..n], f).value, Get(c, f));
    }
  }

  lemma NecessaryForField(c: Config, f: Field)
    requires RoundTrips(c) && OverflowRecoverable(c)
    ensures FieldRecoverable(c, f)
  {
    forall key | OverflowFor(c, key, f) ensures Absorbs(OverflowMap(c)[key], Get(c, f)) { NecessaryForKey(c, key, f); }
    var members := SomeText(Marshal(c));
    TypedPerField(members);
    assert FieldDecode(members, f) == Ok(Get(c, f));
    NothingTaken(c, members, f);
  }

  lemma NothingTaken(c: Config, members: seq<Member>, f: Field)
    requires TextOf(members, Marshal(c)) && OverflowRecoverable(c)
    ensures !NormalSlot(Get(c, f)) && FieldDecode(members, f) == Ok(Get(c, f)) ==> exists key :: OverflowFor(c, key, f)
  {
    var values := Values(members, Taken(f));
    FieldDecodeIsAll(members, f);
    if values != [] {
      EncodedValues(c, members, f, values[0]);
    }
  }

  /**
   The round trip, exactly and for every configuration: each text of the encoding is decoded to the configuration if and
   only if its overflow is absent, or non-empty without a field's name, and every overflow member that spells a field's
   name in another case says what the field says already.
   */
  lemma UnmarshalMarshal(c: Config)
    ensures RoundTrips(c) <==> Recoverable(c)
  {
    OverflowBack(c);
    if Recoverable(c) {
      forall members | TextOf(members, Marshal(c)) ensures Unmarshal(members) == Ok(c) {
        forall f ensures FieldDecode(members, f) == Ok(Get(c, f)) { RecoveredField(c, members, f); }
        FieldsRecovered(c, members);
      }
    }
    if RoundTrips(c) {
      var members := SomeText(Marshal(c));
      assert Unmarshal(members) == Ok(c);
      forall f ensures FieldRecoverable(c, f) { NecessaryForField(c, f); }
    }
  }

  /** The normal form is recoverable, and nothing else is unless an overflow key spells a field's name in another case. */
  lemma NormalIsRecoverable(c: Config)
    ensures Normal(c) ==> Recoverable(c)
    ensures (forall key :: key in OverflowMap(c) && Known(key) ==> key in KnownNames()) ==> (Recoverable(c) <==> Normal(c))
  {
    forall key ensures FieldOf(key).Some? ==> Known(key) {}
    forall key | key in KnownNames() ensures Known(key) {
      var f :| f in FIELDS && Name(f) == key;
      assert Matches(key, f);
    }
    forall f, key | OverflowFor(c, key, f) ensures Known(key) && key in OverflowMap(c) {}
    if Recoverable(c) && forall key :: key in OverflowMap(c) && Known(key) ==> key in KnownNames() {
      forall f ensures NormalSlot(Get(c, f)) {
        assert FieldRecoverable(c, f);
      }
    }
  }

  // ---- Marshal after Unmarshal ----

  /** Every member that is not exactly a field's name is passed through, whatever it is. */
  lemma UnknownMembersSurvive(members: seq<Member>, key: string)
    requires Unmarshal(members).Ok? && key !in KnownNames()
    ensures Lookup(Marshal(Unmarshal(members).value), key) == Lookup(RawMap(members), key)
  {
    OthersAreOverflow(Unmarshal(members).value, key);
  }

  lemma KnownMember(members: seq<Member>, f: Field)
    requires Unmarshal(members).Ok?
    ensures Lookup(Marshal(Unmarshal(members).value), Name(f)) == Encode(Get(Typed(members).value, f))
  {
    MarshalAt(Unmarshal(members).value, f);
    FieldOfName(f);
    assert Name(f) !in OverflowMap(Unmarshal(members).value);
  }

  lemma SameLookups(a: map<string, Json>, b: map<string, Json>)
    requires forall key :: Lookup(a, key) == Lookup(b, key)
    ensures a == b
  {
    assert forall key :: key in a <==> Lookup(a, key).Some?;
    assert forall key :: key in b <==> Lookup(b, key).Some?;
  }

  /** For any one text: what comes back is decided field by field. */
  lemma ComesBackPerField(members: seq<Member>)
    requires Unmarshal(members).Ok?
    ensures Marshal(Unmarshal(members).value) == RawMap(members) <==>
              forall f :: Lookup(RawMap(members), Name(f)) == Encode(Get(Typed(members).value, f))
  {
    var back, o := Marshal(Unmarshal(members).value), RawMap(members);
    forall f ensures Lookup(back, Name(f)) == Encode(Get(Typed(members).value, f)) { KnownMember(members, f); }
    if forall f :: Lookup(o, Name(f)) == Encode(Get(Typed(members).value, f)) {
      forall key ensures Lookup(back, key) == Lookup(o, key) {
        if key in KnownNames() {
          var f :| f in FIELDS && Name(f) == key;
          assert Lookup(o, Name(f)) == Encode(Get(Typed(members).value, f));
        } else {
          UnknownMembersSurvive(members, key);
        }
      }
      SameLookups(back, o);
    }
  }

  /** Whatever its text, the object decodes and comes back with every key and value. */
  ghost predicate ComesBack(o: map<string, Json>) {
    forall members :: TextOf(members, o) ==> Unmarshal(members).Ok? && Marshal(Unmarshal(members).value) == o
  }

  /** A value that leaves the field to be omitted. */
  predicate Blank(v: Json, f: Field) {
    Decode(v, Get(ZERO, f)).Ok? && Encode(Decode(v, Get(ZERO, f)).value).None?
  }

  /** A field's own member decodes to a non-default value; one in another case repeats it, or is blank where the own member is missing. */
  predicate KeyKept(o: map<string, Json>, key: string, f: Field)
    requires key in o
  {
    if key == Name(f) then Decode(o[key], Get(ZERO, f)).Ok? && NonDefault(f, o[key])
    else if Name(f) in o then
      var own := Decode(o[Name(f)], Get(ZERO, f));
      own.Ok? && Absorbs(o[key], own.value)
    else Blank(o[key], f)
  }

  predicate AllKept(o: map<string, Json>) {
    forall key :: key in o && FieldOf(key).Some? ==> KeyKept(o, key, FieldOf(key).value)
  }

  lemma {:induction false} BlankSettles(values: seq<Json>, f: Field)
    requires forall v :: v in values ==> Blank(v, f)
    ensures DecodeAll(values, Get(ZERO, f)).Ok? && Encode(DecodeAll(values, Get(ZERO, f)).value).None?
  {
    if values != [] {
      var n := |values| - 1;
      LastOf(values);
      BlankSettles(values[..n], f);
      BlankFrom(values[n], DecodeAll(values[..n], Get(ZERO, f)).value, f);
    }
  }

  lemma BlankFrom(v: Json, x: Slot, f: Field)
    requires SameType(x, Get(ZERO, f)) && Encode(x).None?
    ensures Blank(v, f) ==> Decode(v, x).Ok? && Encode(Decode(v, x).value).None?
  {
    if x.MapSlot? && v.Object? && Blank(v, f) {
      var add := map k | k in v.members :: if v.members[k].Text? then v.members[k].s else "";
      assert map[] + add == map[];
      var base: StringMap := if x.m.Some? then x.m.value else map[];
      assert base + add == map[];
    }
  }

  /** If anything that is decoded with this value last is omitted, the value is blank. */
  lemma BlankBack(v: Json, x: Slot, f: Field)
    requires SameType(x, Get(ZERO, f)) && Decode(v, x).Ok? && Encode(Decode(v, x).value).None?
    ensures Blank(v, f)
  {
    if x.MapSlot? && v.Object? {
      var add := map k | k in v.members :: if v.members[k].Text? then v.members[k].s else "";
      var base: StringMap := if x.m.Some? then x.m.value else map[];
      assert base + add == map[];
      forall k ensures k !in add { assert k !in base + add; }
      assert map[] + add == map[];
    }
  }

  /** The values that are decoded into a field are those of kept keys. */
  lemma KeptValue(members: seq<Member>, o: map<string, Json>, f: Field, v: Json) returns (key: string)
    requires TextOf(members, o) && AllKept(o) && v in Values(members, Taken(f))
    ensures key in o && FieldOf(key) == Some(f) && o[key] == v && KeyKept(o, key, f)
  {
    ValuesAre(members, Taken(f), v);
    key :| Taken(f)(key) && key in o && o[key] == v;
  }

  lemma KeptOwn(members: seq<Member>, o: map<string, Json>, f: Field)
    requires TextOf(members, o) && AllKept(o) && Name(f) in o
    ensures FieldDecode(members, f).Ok? && Encode(FieldDecode(members, f).value) == Some(o[Name(f)])
  {
    var values, own := Values(members, Taken(f)), o[Name(f)];
    FieldOfName(f);
    assert KeyKept(o, Name(f), f);
    EncodeDecode(f, own);
    var s := Decode(own, Get(ZERO, f)).value;
    OwnAbsorbs(s);
    ZeroIsBelow(s, f);
    forall v | v in values ensures Absorbs(v, s) { var key := KeptValue(members, o, f, v); }
    Settles(values, Get(ZERO, f), s);
    ValuesAre(members, Taken(f), own);
    assert Taken(f)(Name(f)) && Completes(own, s);
    FieldDecodeIsAll(members, f);
  }

  /** With all members kept, each field ends up as its own member says, or omitted. */
  lemma KeptField(members: seq<Member>, o: map<string, Json>, f: Field)
    requires TextOf(members, o) && AllKept(o)
    ensures FieldDecode(members, f).Ok? && Encode(FieldDecode(members, f).value) == Lookup(o, Name(f))
  {
    if Name(f) in o {
      KeptOwn(members, o, f);
    } else {
      forall v | v in Values(members, Taken(f)) ensures Blank(v, f) { var key := KeptValue(members, o, f, v); }
      BlankSettles(Values(members, Taken(f)), f);
      FieldDecodeIsAll(members, f);
    }
  }

  lemma NecessaryForMember(o: map<string, Json>, key: string, f: Field)
    requires ComesBack(o) && key in o && FieldOf(key) == Some(f)
    ensures KeyKept(o, key, f)
  {
    var members := TextEndingIn(o, key);
    var n := |members| - 1;
    ComesBackPerField(members);
    TypedPerField(members);
    var before := FieldDecode(members[..n], f).value;
    var s := FieldDecode(members, f).value;
    assert Decode(o[key], before) == Ok(s) && Encode(s) == Lookup(o, Name(f));
    if Name(f) in o {
      OwnIs(f, s, o[Name(f)]);
      DecodeTwice(o[key], before, s);
    } else {
      BlankBack(o[key], before, f);
    }
  }

  /** Only one field value has a given encoding, and the encoding is decoded to it. */
  lemma OwnIs(f: Field, s: Slot, v: Json)
    requires SameType(s, Get(ZERO, f)) && Encode(s) == Some(v)
    ensures Decode(v, Get(ZERO, f)) == Ok(s) && NonDefault(f, v)
  {
    DecodeEncode(f, s);
    EncodeDecode(f, v);
  }

  /**
   Exactly and for every object: from each of its texts it comes back with every key and value, if and only if each
   field's own member has a non-default value, and each member that spells a field's name in another case repeats the
   own member or, without one, leaves the field omitted.
   */
  lemma MarshalUnmarshal(o: map<string, Json>)
    ensures ComesBack(o) <==> AllKept(o)
  {
    if AllKept(o) {
      forall members | TextOf(members, o) ensures Unmarshal(members).Ok? && Marshal(Unmarshal(members).value) == o {
        forall f ensures FieldDecode(members, f).Ok? && Encode(FieldDecode(members, f).value) == Lookup(o, Name(f)) {
          KeptField(members, o, f);
        }
        TypedPerField(members);
        ComesBackPerField(members);
      }
    }
    if ComesBack(o) {
      forall key | key in o && FieldOf(key).Some? ensures KeyKept(o, key, FieldOf(key).value) {
        NecessaryForMember(o, key, FieldOf(key).value);
      }
    }
  }

  // ---- Which sets of keys are safe ----

  /** Two non-default values for a field, neither of which absorbs the other. */
  function Usual(f: Field): Json {
    match Get(ZERO, f)
    case IntSlot(_) => Number(1)
    case MapSlot(_) => Object(map["a" := Text("1")])
    case PtrSlot(_) => Number(1)
    case BoolSlot(_) => Bool(true)
  }

  function Unusual(f: Field): Json {
    match Get(ZERO, f)
    case IntSlot(_) => Number(2)
    case MapSlot(_) => Object(map["b" := Text("2")])
    case PtrSlot(_) => Number(2)
    case BoolSlot(_) => Bool(false)
  }

  lemma UsualValues(f: Field)
    ensures NonDefault(f, Usual(f)) && Decode(Usual(f), Get(ZERO, f)).Ok? && Decode(Unusual(f), Get(ZERO, f)).Ok?
    ensures !Blank(Unusual(f), f) && !Absorbs(Unusual(f), Get(ZERO, f))
    ensures !Absorbs(Unusual(f), Decode(Usual(f), Get(ZERO, f)).value)
  {
    if Get(ZERO, f).MapSlot? {
      UsualMaps(f);
    }
  }

  lemma UsualMaps(f: Field)
    requires Get(ZERO, f).MapSlot?
    ensures Decode(Usual(f), Get(ZERO, f)) == Ok(MapSlot(Some(map["a" := "1"])))
    ensures Decode(Unusual(f), Get(ZERO, f)) == Ok(MapSlot(Some(map["b" := "2"])))
    ensures Decode(Unusual(f), MapSlot(Some(map["a" := "1"]))) == Ok(MapSlot(Some(map["a" := "1", "b" := "2"])))
    ensures "b" !in map["a" := "1"] && "a" !in map["b" := "2"]
  {
    assert "a"[0] != "b"[0];
    var a, b := map["a" := Text("1")], map["b" := Text("2")];
    assert map[] + (map k | k in a :: if a[k].Text? then a[k].s else "") == map["a" := "1"];
    assert map[] + (map k | k in b :: if b[k].Text? then b[k].s else "") == map["b" := "2"];
    assert map["a" := "1"] + (map k | k in b :: if b[k].Text? then b[k].s else "") == map["a" := "1", "b" := "2"];
  }

  /** An object with these keys: an unusual value at `bad`, usual ones at the other keys of fields. */
  function Witness(keys: set<string>, bad: string, f: Field): map<string, Json> {
    map key | key in keys ::
      if key == bad then Unusual(f) else if FieldOf(key).Some? then Usual(FieldOf(key).value) else Null
  }

  /** The own members of all fields decode to non-default values. */
  predicate OwnMembersKept(o: map<string, Json>) {
    forall f :: Name(f) in o ==> Decode(o[Name(f)], Get(ZERO, f)).Ok? && NonDefault(f, o[Name(f)])
  }

  /** Every value of a key that is taken for a field has that field's type. */
  predicate Decodable(o: map<string, Json>) {
    forall key :: key in o && FieldOf(key).Some? ==> Decode(o[key], Get(ZERO, FieldOf(key).value)).Ok?
  }

  /** An object decodes from all of its texts or from none. */
  lemma DecodableMeans(o: map<string, Json>, members: seq<Member>)
    requires TextOf(members, o)
    ensures Unmarshal(members).Ok? <==> Decodable(o)
  {
    TypedPerField(members);
    forall f ensures FieldDecode(members, f).Ok? <==> DecodableFor(o, f) { DecodableField(o, members, f); }
    if !Decodable(o) {
      var key :| key in o && FieldOf(key).Some? && Decode(o[key], Get(ZERO, FieldOf(key).value)).Err?;
      assert !DecodableFor(o, FieldOf(key).value);
    } else {
      forall f ensures DecodableFor(o, f) {}
    }
  }

  ghost predicate DecodableFor(o: map<string, Json>, f: Field) {
    forall key :: key in o && FieldOf(key) == Some(f) ==> Decode(o[key], Get(ZERO, f)).Ok?
  }

  lemma DecodableField(o: map<string, Json>, members: seq<Member>, f: Field)
    requires TextOf(members, o)
    ensures FieldDecode(members, f).Ok? <==> DecodableFor(o, f)
  {
    var values := Values(members, Taken(f));
    FieldDecodeIsAll(members, f);
    DecodesIff(values, f);
    forall v | v in values ensures exists key :: key in o && FieldOf(key) == Some(f) && o[key] == v {
      ValuesAre(members, Taken(f), v);
      var key :| Taken(f)(key) && key in o && o[key] == v;
    }
    forall key | key in o && FieldOf(key) == Some(f) ensures o[key] in values {
      ValuesAre(members, Taken(f), o[key]);
      assert Taken(f)(key);
    }
  }

  lemma {:induction false} DecodesIff(values: seq<Json>, f: Field)
    ensures DecodeAll(values, Get(ZERO, f)).Ok? <==> forall v :: v in values ==> Decode(v, Get(ZERO, f)).Ok?
  {
    if values != [] {
      var n := |values| - 1;
      LastOf(values);
      DecodesIff(values[..n], f);
      if DecodeAll(values[..n], Get(ZERO, f)).Ok? {
        TypeDecides(values[n], DecodeAll(values[..n], Get(ZERO, f)).value, Get(ZERO, f));
      }
    }
  }

  /** Whether a value can be decoded into a field does not depend on what the field holds. */
  lemma TypeDecides(v: Json, x: Slot, y: Slot)
    requires SameType(x, y)
    ensures Decode(v, x).Ok? <==> Decode(v, y).Ok?
  {}

  /**
   In terms of keys alone: every object with these keys that decodes, and whose fields have non-default values, comes
   back from every text, if and only if no key spells a field's name in another case.
   */
  lemma SafeKeys(keys: set<string>)
    ensures (forall o: map<string, Json> :: o.Keys == keys && Decodable(o) && OwnMembersKept(o) ==> ComesBack(o)) <==>
            (forall key :: key in keys && FieldOf(key).Some? ==> key == Name(FieldOf(key).value))
  {
    if forall key :: key in keys && FieldOf(key).Some? ==> key == Name(FieldOf(key).value) {
      forall o: map<string, Json> | o.Keys == keys && Decodable(o) && OwnMembersKept(o) ensures ComesBack(o) {
        MarshalUnmarshal(o);
      }
    } else {
      var bad :| bad in keys && FieldOf(bad).Some? && bad != Name(FieldOf(bad).value);
      var f := FieldOf(bad).value;
      var o := Witness(keys, bad, f);
      WitnessKept(keys, bad, f);
      MarshalUnmarshal(o);
    }
  }

  lemma WitnessKept(keys: set<string>, bad: string, f: Field)
    requires bad in keys && FieldOf(bad) == Some(f) && bad != Name(f)
    ensures var o := Witness(keys, bad, f); o.Keys == keys && Decodable(o) && OwnMembersKept(o) && !AllKept(o)
  {
    WitnessDecodes(keys, bad, f);
    WitnessOwn(keys, bad, f);
    WitnessFails(keys, bad, f);
  }

  lemma WitnessDecodes(keys: set<string>, bad: string, f: Field)
    requires FieldOf(bad) == Some(f)
    ensures Decodable(Witness(keys, bad, f))
  {
    UsualValues(f);
    forall g: Field ensures Decode(Usual(g), Get(ZERO, g)).Ok? { UsualValues(g); }
  }

  lemma WitnessOwn(keys: set<string>, bad: string, f: Field)
    requires FieldOf(bad) == Some(f) && bad != Name(f)
    ensures OwnMembersKept(Witness(keys, bad, f))
  {
    var o := Witness(keys, bad, f);
    forall g | Name(g) in o ensures Decode(o[Name(g)], Get(ZERO, g)).Ok? && NonDefault(g, o[Name(g)]) {
      FieldOfName(g);
      UsualValues(g);
    }
  }

  lemma WitnessFails(keys: set<string>, bad: string, f: Field)
    requires bad in keys && FieldOf(bad) == Some(f) && bad != Name(f)
    ensures !AllKept(Witness(keys, bad, f))
  {
    FieldOfName(f);
    UsualValues(f);
    assert !KeyKept(Witness(keys, bad, f), bad, f);
  }

  /**
   In terms of overflow keys alone: every configuration with these overflow keys whose maps are nil or non-empty comes
   back from every text of its encoding, if and only if the overflow is absent, or non-empty without a known key.
   */
  lemma SafeOverflowKeys(keys: Option<set<string>>)
    ensures (forall c :: OverflowKeys(c) == keys && (forall f :: NormalSlot(Get(c, f))) ==> RoundTrips(c)) <==>
            (keys.Some? ==> keys.value != {} && forall key :: key in keys.value ==> !Known(key))
  {
    if keys.Some? ==> keys.value != {} && forall key :: key in keys.value ==> !Known(key) {
      forall c | OverflowKeys(c) == keys && forall f :: NormalSlot(Get(c, f)) ensures RoundTrips(c) {
        assert Normal(c);
        NormalIsRecoverable(c);
        UnmarshalMarshal(c);
      }
    } else {
      var bad := if keys.value == {} then "" else var key :| key in keys.value && Known(key); key;
      UnsafeOverflow(keys.value, bad);
    }
  }

  function OverflowKeys(c: Config): Option<set<string>> {
    if c.overflow.None? then None else Some(c.overflow.value.Keys)
  }

  lemma UnsafeOverflow(keys: set<string>, bad: string)
    requires keys == {} || (bad in keys && Known(bad))
    ensures exists c :: OverflowKeys(c) == Some(keys) && (forall f :: NormalSlot(Get(c, f))) && !RoundTrips(c)
  {
    var g :| keys != {} ==> Matches(bad, g);
    var o := Witness(keys, bad, g);
    var c := ZERO.(overflow := Some(o));
    assert o.Keys == keys;
    forall f ensures Get(c, f) == Get(ZERO, f) && NormalSlot(Get(c, f)) {}
    if keys != {} {
      FieldOfIff(bad, g);
      UsualValues(g);
      assert OverflowFor(c, bad, g) && o[bad] == Unusual(g);
      assert !FieldRecoverable(c, g);
    } else {
      assert o == map[];
    }
    UnmarshalMarshal(c);
  }

  /** Without exact spelling a value is lost: the member of the same name in another case wins, and both are kept. */
  lemma FoldedKeyOverwrites()
    ensures var members := [Member("maxPods", Number(110)), Member("MAXPODS", Number(50))];
            && TextOf(members, map["maxPods" := Number(110), "MAXPODS" := Number(50)])
            && Unmarshal(members).Ok?
            && Lookup(Marshal(Unmarshal(members).value), "maxPods") == Some(Number(50))
            && Lookup(Marshal(Unmarshal(members).value), "MAXPODS") == Some(Number(50))
  {
    var first, second := Member("maxPods", Number(110)), Member("MAXPODS", Number(50));
    var members := [first, second];
    assert members[..1] == [first] && [first][..0] == [];
    assert "maxPods"[0] != "MAXPODS"[0] && Name(MaxPods) == "maxPods";
    assert Fold("MAXPODS") == Fold("maxPods");
    FieldOfIff("maxPods", MaxPods);
    FieldOfIff("MAXPODS", MaxPods);
    assert Typed([first]) == TypedNext(ZERO, first);
    assert Typed(members) == TypedNext(Typed([first]).value, second);
    KnownMember(members, MaxPods);
    NotAName("MAXPODS", MaxPods);
    UnknownMembersSurvive(members, "MAXPODS");
  }

  lemma NotAName(key: string, f: Field)
    requires Matches(key, f) && key != Name(f)
    ensures key !in KnownNames()
  {
    if key in KnownNames() {
      var g :| g in FIELDS && Name(g) == key;
      MatchesOne(key, f, g);
    }
  }

  // ---- HasTypedFields and IsZero ----

  predicate HasTypedFields(c: Config) {
    || c.maxPods != 0 || c.podsPerCore != 0
    || c.systemReserved.Some? || c.kubeReserved.Some?
    || c.evictionHard.Some? || c.evictionSoft.Some? || c.evictionSoftGracePeriod.Some?
    || c.evictionMaxPodGracePeriod.Some?
    || c.imageGCHighThresholdPercent.Some? || c.imageGCLowThresholdPercent.Some?
    || c.cpuCFSQuota.Some?
  }

  predicate IsZero(c: Config) {
    !HasTypedFields(c) && c.overflow.None?
  }

  /** The hand-written list of comparisons misses no field: without typed fields nothing but overflow is left. */
  lemma HasTypedFieldsIsComplete(c: Config)
    ensures HasTypedFields(c) <==> c.(overflow := None) != ZERO
    ensures HasTypedFields(c) <==> exists f :: Get(c, f) != Get(ZERO, f)
  {
    if forall f :: Get(c, f) == Get(ZERO, f) {
      EqualFields(c.(overflow := None), ZERO) by {
        forall f ensures Get(c.(overflow := None), f) == Get(ZERO, f) { assert Get(c, f) == Get(ZERO, f); }
      }
    } else {
      var f :| Get(c, f) != Get(ZERO, f);
      assert Get(c.(overflow := None), f) != Get(ZERO, f);
    }
  }

  /** On normal forms, omitting a zero configuration omits nothing but the empty object. */
  lemma IsZeroIffEmpty(c: Config)
    requires Normal(c)
    ensures IsZero(c) <==> Marshal(c) == map[]
  {
    HasTypedFieldsIsComplete(c);
    if Marshal(c) == map[] {
      forall f ensures Get(c, f) == Get(ZERO, f) { EmptyField(c, f); }
      assert OverflowMap(c) == map[];
    }
    if IsZero(c) {
      forall f ensures Encode(Get(c, f)).None? { assert Get(c, f) == Get(ZERO, f); }
    }
  }

  lemma EmptyField(c: Config, f: Field)
    requires Normal(c) && Marshal(c) == map[]
    ensures Get(c, f) == Get(ZERO, f)
  {
    MarshalAt(c, f);
    SlotTypes(c, f);
    DecodeEncode(f, Get(c, f));
  }

  // ---- The receiver ----

  class KubeletConfiguration {
    var value: Config

    constructor ()
      ensures value == ZERO
    {
      value := ZERO;
    }

    /** Nothing of the receiver's previous value survives. After an error it holds the fields as far as they decoded. */
    method UnmarshalJSON(members: seq<Member>) returns (ok: bool)
      modifies this
      ensures ok == Unmarshal(members).Ok?
      ensures value == if ok then Unmarshal(members).value else TypedAnyway(members)
    {
      value := ZERO;
      ok := DecodeFields(members);
      if !ok {
        return;
      }
      AnywayIsTyped(members);
      var raw := DecodeRaw(members);
      var rest := DeleteKnown(raw);
      if rest != map[] {
        value := value.(overflow := Some(rest));
      }
    }

    method DecodeFields(members: seq<Member>) returns (ok: bool)
      requires value == ZERO
      modifies this
      ensures ok == Typed(members).Ok?
      ensures value == TypedAnyway(members)
    {
      ok := true;
      for i := 0 to |members|
        invariant ok == Typed(members[..i]).Ok?
        invariant value == TypedAnyway(members[..i])
      {
        assert members[..i + 1][..i] == members[..i];
        AnywayIsTyped(members[..i]);
        ok := ok && TypedNext(value, members[i]).Ok?;
        value := AnywayNext(value, members[i]);
      }
      assert members[..|members|] == members;
    }

    static method DecodeRaw(members: seq<Member>) returns (raw: map<string, Json>)
      ensures raw == RawMap(members)
    {
      raw := map[];
      for i := 0 to |members|
        invariant raw == RawMap(members[..i])
      {
        assert members[..i + 1][..i] == members[..i];
        raw := raw[members[i].key := members[i].value];
      }
      assert members[..|members|] == members;
    }

    /** The known keys are deleted one at a time, in whatever order the set is ranged over. */
    static method DeleteKnown(raw: map<string, Json>) returns (rest: map<string, Json>)
      ensures rest == raw - KnownNames()
    {
      var order := Enumerate(KnownNames());
      ghost var done := {};
      rest := raw;
      for i := 0 to |order|
        invariant Visited(order, done, i) && done <= KnownNames()
        invariant rest == raw - done
      {
        VisitNext(order, done, i, KnownNames());
        rest := rest - {order[i]};
        done := done + {order[i]};
      }
      VisitedAll(order, done, KnownNames());
    }

    method MarshalJSON() returns (o: map<string, Json>)
      ensures o == Marshal(value)
    {
      var structured := EncodeFields();
      if value.overflow.None? {
        return structured;
      }
      o := MergeInto(value.overflow.value, structured);
    }

    static method MergeInto<V>(base: map<string, V>, top: map<string, V>) returns (o: map<string, V>)
      ensures o == base + top
    {
      o := base;
      var order := Enumerate(top.Keys);
      ghost var done := {};
      for i := 0 to |order|
        invariant Visited(order, done, i) && done <= top.Keys
        invariant o.Keys == base.Keys + done
        invariant forall key :: key in o ==> o[key] == if key in done then top[key] else base[key]
      {
        VisitNext(order, done, i, top.Keys);
        o := o[order[i] := top[order[i]]];
        done := done + {order[i]};
      }
      VisitedAll(order, done, top.Keys);
    }

    method EncodeFields() returns (structured: map<string, Json>)
      ensures structured == Structured(value)
    {
      structured := EncodeEach(value, FIELDS);
      AllWritten(value, structured);
    }

    static method EncodeEach(c: Config, fields: seq<Field>) returns (structured: map<string, Json>)
      ensures SubMap(structured, Structured(c))
      ensures forall f :: f in fields ==> Written(c, f, structured)
    {
      structured := map[];
      for i := 0 to |fields|
        invariant SubMap(structured, Structured(c))
        invariant forall j :: 0 <= j < i ==> Written(c, fields[j], structured)
      {
        structured := EncodeField(c, fields[i], structured);
      }
    }

    static method EncodeField(c: Config, f: Field, structured: map<string, Json>) returns (next: map<string, Json>)
      requires SubMap(structured, Structured(c))
      ensures SubMap(next, Structured(c)) && Written(c, f, next)
      ensures forall g :: Written(c, g, structured) ==> Written(c, g, next)
    {
      StructuredAt(c, f);
      var v := Encode(Get(c, f));
      next := if v.Some? then structured[Name(f) := v.value] else structured;
    }
  }

  ghost predicate SubMap(a: map<string, Json>, b: map<string, Json>) {
    forall key :: key in a ==> key in b && a[key] == b[key]
  }

  ghost predicate Written(c: Config, f: Field, structured: map<string, Json>) {
    Encode(Get(c, f)).Some? ==> Name(f) in structured
  }

  lemma AllWritten(c: Config, structured: map<string, Json>)
    requires SubMap(structured, Structured(c)) && forall f :: f in FIELDS ==> Written(c, f, structured)
    ensures structured == Structured(c)
  {
    forall key | key in Structured(c) ensures key in structured {
      var f :| f in FIELDS && Name(f) == key;
      StructuredAt(c, f);
      assert Written(c, f, structured);
    }
  }
}
