/** Which opaque configuration each prepared device gets. */
module DeviceConfig {
  import opened Common
  import opened GoStrings
  import opened Sequences

  datatype Result<T> = Ok(value: T) | Err

  /** A decoded configuration: its kind, and its parameters as they are. */
  datatype Config = Gpu(parameters: string) | Mig(parameters: string) | Vfio(parameters: string)

  const DEFAULT_GPU := Gpu("")
  const DEFAULT_MIG := Mig("")

  // ---------- decoding ----------

  datatype Source = FromClass | FromClaim | Unknown

  /** Opaque parameters; `decoded` is what decoding, normalising and validating them gives, if they succeed. */
  datatype Opaque = Opaque(driver: string, decoded: Option<Config>)

  datatype RawConfig = RawConfig(source: Source, requests: seq<string>, opaque_: Option<Opaque>)

  datatype OpaqueConfig = OpaqueConfig(requests: seq<string>, config: Config)

  predicate IsClass(c: RawConfig) { c.source == FromClass }
  predicate IsClaim(c: RawConfig) { c.source == FromClaim }
  predicate IsUnknown(c: RawConfig) { c.source == Unknown }

  /** Candidates in order; one for another driver is passed over, a bad one fails the whole list. */
  function DecodeAll(candidates: seq<RawConfig>, driver: string): Result<seq<OpaqueConfig>> {
    if candidates == [] then Ok([])
    else
      var init, last := DecodeAll(candidates[..|candidates| - 1], driver), candidates[|candidates| - 1];
      if init.Err? || last.opaque_.None? then Err
      else if last.opaque_.value.driver != driver then init
      else if last.opaque_.value.decoded.None? then Err
      else Ok(init.value + [OpaqueConfig(last.requests, last.opaque_.value.decoded.value)])
  }

  /** Class configurations first, then claim configurations, each in their own order. */
  function Decode(configs: seq<RawConfig>, driver: string): Result<seq<OpaqueConfig>> {
    if Filter(configs, IsUnknown) != [] then Err
    else DecodeAll(Filter(configs, IsClass) + Filter(configs, IsClaim), driver)
  }

  /** The first loop: class and claim configurations apart, an unknown source refused. */
  method Partition(configs: seq<RawConfig>)
    returns (ok: bool, classConfigs: seq<RawConfig>, claimConfigs: seq<RawConfig>)
    ensures ok <==> Filter(configs, IsUnknown) == []
    ensures ok ==> classConfigs == Filter(configs, IsClass) && claimConfigs == Filter(configs, IsClaim)
  {
    classConfigs, claimConfigs := [], [];
    for i := 0 to |configs|
      invariant classConfigs == Filter(configs[..i], IsClass) && claimConfigs == Filter(configs[..i], IsClaim)
      invariant Filter(configs[..i], IsUnknown) == []
    {
      assert configs[..i + 1][..i] == configs[..i];
      match configs[i].source {
        case FromClass => classConfigs := classConfigs + [configs[i]];
        case FromClaim => claimConfigs := claimConfigs + [configs[i]];
        case Unknown =>
          assert configs == configs[..i + 1] + configs[i + 1..];
          FilterConcat(configs[..i + 1], configs[i + 1..], IsUnknown);
          return false, classConfigs, claimConfigs;
      }
    }
    assert configs[..|configs|] == configs;
    ok := true;
  }

  /** The second loop: decode in order. */
  method DecodeCandidates(candidates: seq<RawConfig>, driver: string) returns (r: Result<seq<OpaqueConfig>>)
    ensures r == DecodeAll(candidates, driver)
  {
    var result: seq<OpaqueConfig> := [];
    for i := 0 to |candidates|
      invariant DecodeAll(candidates[..i], driver) == Ok(result)
    {
      var cfg := candidates[i];
      assert candidates[..i + 1][..i] == candidates[..i];
      if cfg.opaque_.None? {
        DecodeErrorStays(candidates, i + 1, driver);
        return Err;
      }
      if cfg.opaque_.value.driver != driver {
        continue;
      }
      if cfg.opaque_.value.decoded.None? {
        DecodeErrorStays(candidates, i + 1, driver);
        return Err;
      }
      result := result + [OpaqueConfig(cfg.requests, cfg.opaque_.value.decoded.value)];
    }
    assert candidates[..|candidates|] == candidates;
    r := Ok(result);
  }

  method DecodeDeviceConfigs(configs: seq<RawConfig>, driver: string) returns (r: Result<seq<OpaqueConfig>>)
    ensures r == Decode(configs, driver)
  {
    if |configs| == 0 {
      return Ok([]);
    }
    var ok, classConfigs, claimConfigs := Partition(configs);
    if !ok {
      return Err;
    }
    r := DecodeCandidates(classConfigs + claimConfigs, driver);
  }

  lemma {:induction false} DecodeErrorStays(cs: seq<RawConfig>, i: nat, driver: string)
    requires i <= |cs| && DecodeAll(cs[..i], driver).Err?
    ensures DecodeAll(cs, driver).Err?
    decreases |cs|
  {
    if i == |cs| {
      assert cs[..i] == cs;
    } else {
      var init := cs[..|cs| - 1];
      assert init[..i] == cs[..i];
      DecodeErrorStays(init, i, driver);
    }
  }

  lemma {:induction false} DecodeConcat(a: seq<RawConfig>, b: seq<RawConfig>, driver: string)
    ensures DecodeAll(a + b, driver) ==
            (var x, y := DecodeAll(a, driver), DecodeAll(b, driver);
             if x.Ok? && y.Ok? then Ok(x.value + y.value) else Err)
    decreases |b|
  {
    if b == [] {
      assert a + b == a;
      assert forall s: seq<OpaqueConfig> :: s + [] == s;
    } else {
      var init := b[..|b| - 1];
      DecodeConcat(a, init, driver);
      assert (a + b)[..|a + b| - 1] == a + init;
      var x, y := DecodeAll(a, driver), DecodeAll(init, driver);
      if x.Ok? && y.Ok? && DecodeAll(b, driver).Ok? {
        assert DecodeAll(a + b, driver).value == x.value + DecodeAll(b, driver).value;
      }
    }
  }

  /** Only the class configurations and the claim configurations count, not how they are interleaved. */
  lemma InterleavingDoesNotMatter(xs: seq<RawConfig>, ys: seq<RawConfig>, driver: string)
    requires Filter(xs, IsClass) == Filter(ys, IsClass) && Filter(xs, IsClaim) == Filter(ys, IsClaim)
    requires Filter(xs, IsUnknown) == [] <==> Filter(ys, IsUnknown) == []
    ensures Decode(xs, driver) == Decode(ys, driver)
  {
  }

  predicate IsFor(c: RawConfig, driver: string) {
    c.opaque_.Some? && c.opaque_.value.driver == driver
  }

  ghost predicate Decodable(c: RawConfig, driver: string) {
    c.opaque_.Some? && (c.opaque_.value.driver == driver ==> c.opaque_.value.decoded.Some?)
  }

  /** `result` is what the configurations in `own` decode to, one by one. */
  ghost predicate AreDecoded(own: seq<RawConfig>, result: seq<OpaqueConfig>) {
    |result| == |own| && forall i :: 0 <= i < |own| ==>
      && own[i].opaque_.Some? && own[i].opaque_.value.decoded == Some(result[i].config)
      && result[i].requests == own[i].requests
  }

  /** The configurations of this driver, in order. */
  function OwnOf(cs: seq<RawConfig>, driver: string): seq<RawConfig> {
    Filter(cs, (c: RawConfig) => IsFor(c, driver))
  }

  function OwnFrom(cs: seq<RawConfig>, driver: string, source: Source): seq<RawConfig> {
    Filter(cs, (c: RawConfig) => c.source == source && IsFor(c, driver))
  }

  lemma {:induction false} DecodeAllExactly(cs: seq<RawConfig>, driver: string)
    ensures DecodeAll(cs, driver).Ok? <==> forall c :: c in cs ==> Decodable(c, driver)
    ensures DecodeAll(cs, driver).Ok? ==> AreDecoded(OwnOf(cs, driver), DecodeAll(cs, driver).value)
  {
    if cs != [] {
      var n := |cs| - 1;
      var init, c := cs[..n], cs[n];
      DecodeAllExactly(init, driver);
      assert cs == init + [c];
      assert OwnOf(cs, driver) == OwnOf(init, driver) + if IsFor(c, driver) then [c] else [];
      assert DecodeAll(cs, driver).Ok? <==> DecodeAll(init, driver).Ok? && Decodable(c, driver);
    }
  }

  lemma SourceSplit(cs: seq<RawConfig>, driver: string)
    ensures OwnOf(Filter(cs, IsClass) + Filter(cs, IsClaim), driver)
         == OwnFrom(cs, driver, FromClass) + OwnFrom(cs, driver, FromClaim)
  {
    var own := (c: RawConfig) => IsFor(c, driver);
    FilterConcat(Filter(cs, IsClass), Filter(cs, IsClaim), own);
    FilterTwice(cs, IsClass, own, (c: RawConfig) => c.source == FromClass && IsFor(c, driver));
    FilterTwice(cs, IsClaim, own, (c: RawConfig) => c.source == FromClaim && IsFor(c, driver));
  }

  lemma SourcesKnown(cs: seq<RawConfig>, driver: string)
    ensures (&& Filter(cs, IsUnknown) == []
             && forall c :: c in Filter(cs, IsClass) + Filter(cs, IsClaim) ==> Decodable(c, driver))
       <==> forall c :: c in cs ==> c.source != Unknown && Decodable(c, driver)
  {
    FilterMembers(cs, IsUnknown);
    FilterMembers(cs, IsClass);
    FilterMembers(cs, IsClaim);
    if Filter(cs, IsUnknown) != [] {
      assert Filter(cs, IsUnknown)[0] in Filter(cs, IsUnknown);
    }
  }

  /**
   Decoding fails exactly for an unknown source, missing opaque parameters or parameters of
   this driver that do not decode. Otherwise the result is the decoded configurations of this
   driver and of no other: those from classes in their order, then those from claims in theirs.
   */
  lemma DecodedExactly(configs: seq<RawConfig>, driver: string)
    ensures Decode(configs, driver).Ok? <==> forall c :: c in configs ==> c.source != Unknown && Decodable(c, driver)
    ensures Decode(configs, driver).Ok? ==>
              AreDecoded(OwnFrom(configs, driver, FromClass) + OwnFrom(configs, driver, FromClaim),
                         Decode(configs, driver).value)
  {
    SourcesKnown(configs, driver);
    DecodeAllExactly(Filter(configs, IsClass) + Filter(configs, IsClaim), driver);
    SourceSplit(configs, driver);
  }

  // ---------- which devices a configuration is for ----------

  predicate NameApplies(name: string, request: string) {
    TrimSpace(name) != "" && (TrimSpace(name) == request || HasPrefix(request, TrimSpace(name) + "/"))
  }

  ghost predicate Applies(requests: seq<string>, request: string) {
    TrimSpace(request) != ""
    && (requests == [] || exists i :: 0 <= i < |requests| && NameApplies(requests[i], TrimSpace(request)))
  }

  ghost predicate IsChild(request: string, name: string, rest: string) {
    request == name + "/" + rest
  }

  /** A name applies to the request of that name and to its children behind a slash, and to nothing else. */
  lemma NameAppliesExactly(name: string, request: string)
    ensures NameApplies(name, request) <==>
            && TrimSpace(name) != ""
            && (request == TrimSpace(name) || exists rest :: IsChild(request, TrimSpace(name), rest))
  {
    var n := TrimSpace(name);
    if HasPrefix(request, n + "/") {
      assert IsChild(request, n, request[|n| + 1..]);
    }
    if rest :| IsChild(request, n, rest) {
      assert request[..|n| + 1] == n + "/";
    }
  }

  method ConfigAppliesToRequest(configRequests: seq<string>, request0: string) returns (applies: bool)
    ensures applies <==> Applies(configRequests, request0)
    ensures applies <==>
            && TrimSpace(request0) != ""
            && (configRequests == []
                || exists i :: 0 <= i < |configRequests| && NameApplies(configRequests[i], TrimSpace(request0)))
  {
    var request := TrimSpace(request0);
    if request == "" {
      return false;
    }
    if |configRequests| == 0 {
      return true;
    }
    for i := 0 to |configRequests|
      invariant forall j :: 0 <= j < i ==> !NameApplies(configRequests[j], request)
    {
      var name := TrimSpace(configRequests[i]);
      if name == "" {
        continue;
      }
      if name == request {
        return true;
      }
      if HasPrefix(request, name + "/") {
        return true;
      }
    }
    return false;
  }

  // ---------- device types ----------

  /** Simple case folding towards ASCII letters, as strings.EqualFold does it. */
  function FoldChar(c: char): char {
    if 'A' <= c <= 'Z' then (c as int + 32) as char
    else if c == '\U{212A}' then 'k'
    else if c == '\U{17F}' then 's'
    else c
  }

  predicate EqualFold(s: string, lower: string) {
    |s| == |lower| && forall i :: 0 <= i < |s| ==> FoldChar(s[i]) == lower[i]
  }

  predicate IsPhysical(deviceType: string) { EqualFold(deviceType, "physical") }
  predicate IsMig(deviceType: string) { EqualFold(deviceType, "mig") }

  function DefaultConfig(deviceType: string): Option<Config> {
    if IsPhysical(deviceType) then Some(DEFAULT_GPU) else if IsMig(deviceType) then Some(DEFAULT_MIG) else None
  }

  predicate Matches(config: Config, deviceType: string) {
    match config
    case Gpu(_) => IsPhysical(deviceType)
    case Mig(_) => IsMig(deviceType)
    case Vfio(_) => false
  }

  // ---------- applying ----------

  datatype Device = Device(request: string, deviceType: string, config: Option<Config>)

  /** Configurations that are looked at for a device. */
  ghost predicate Relevant(c: OpaqueConfig, d: Device) {
    !c.config.Vfio? && Applies(c.requests, d.request)
  }

  ghost predicate Fits(configs: seq<OpaqueConfig>, d: Device) {
    forall i :: 0 <= i < |configs| && Relevant(configs[i], d) ==> Matches(configs[i].config, d.deviceType)
  }

  /** The last relevant configuration, if any. */
  ghost function LastRelevant(configs: seq<OpaqueConfig>, d: Device): Option<Config> {
    if configs == [] then None
    else
      var last := configs[|configs| - 1];
      if Relevant(last, d) then Some(last.config) else LastRelevant(configs[..|configs| - 1], d)
  }

  ghost function Selected(configs: seq<OpaqueConfig>, d: Device): Option<Config> {
    var last := LastRelevant(configs, d);
    if last.Some? then last else DefaultConfig(d.deviceType)
  }

  method SelectConfig(configs: seq<OpaqueConfig>, d: Device) returns (ok: bool, selected: Option<Config>)
    ensures ok <==> Fits(configs, d)
    ensures ok ==> selected == Selected(configs, d)
  {
    selected := DefaultConfig(d.deviceType);
    for i := 0 to |configs|
      invariant forall j :: 0 <= j < i && Relevant(configs[j], d) ==> Matches(configs[j].config, d.deviceType)
      invariant selected == Selected(configs[..i], d)
    {
      var cfg := configs[i];
      assert configs[..i + 1][..i] == configs[..i];
      if cfg.config.Vfio? {
        continue;
      }
      var applies := ConfigAppliesToRequest(cfg.requests, d.request);
      if !applies {
        continue;
      }
      if !Matches(cfg.config, d.deviceType) {
        assert Relevant(configs[i], d);
        return false, selected;
      }
      selected := Some(cfg.config);
    }
    assert configs[..|configs|] == configs;
    ok := true;
  }

  /** Sets the configuration of every device; on failure the devices before the failing one are already set. */
  method ApplyDeviceConfigs(devices: array<Device>, configs: seq<OpaqueConfig>) returns (ok: bool)
    modifies devices
    ensures ok <==> forall i :: 0 <= i < devices.Length ==> Fits(configs, old(devices[i]))
    ensures ok ==> forall i :: 0 <= i < devices.Length ==>
                                 devices[i] == old(devices[i]).(config := Selected(configs, old(devices[i])))
    ensures forall i :: 0 <= i < devices.Length ==> devices[i].(config := None) == old(devices[i]).(config := None)
  {
    for i := 0 to devices.Length
      invariant forall j :: 0 <= j < i ==> Fits(configs, old(devices[j]))
      invariant forall j :: 0 <= j < i ==> devices[j] == old(devices[j]).(config := Selected(configs, old(devices[j])))
      invariant forall j :: i <= j < devices.Length ==> devices[j] == old(devices[j])
    {
      var fits, selected := SelectConfig(configs, devices[i]);
      if !fits {
        return false;
      }
      devices[i] := devices[i].(config := selected);
    }
    return true;
  }

  // ---------- precedence ----------

  lemma {:induction false} LastRelevantConcat(a: seq<OpaqueConfig>, b: seq<OpaqueConfig>, d: Device)
    ensures LastRelevant(a + b, d) == if LastRelevant(b, d).Some? then LastRelevant(b, d) else LastRelevant(a, d)
    decreases |b|
  {
    if b == [] {
      assert a + b == a;
    } else {
      LastRelevantConcat(a, b[..|b| - 1], d);
      assert (a + b)[..|a + b| - 1] == a + b[..|b| - 1];
    }
  }

  ghost predicate AnyRelevant(configs: seq<OpaqueConfig>, d: Device) {
    exists i :: 0 <= i < |configs| && Relevant(configs[i], d)
  }

  /** There is a last relevant configuration exactly when some is relevant. */
  lemma {:induction false} SomeRelevant(configs: seq<OpaqueConfig>, d: Device)
    ensures LastRelevant(configs, d).Some? <==> AnyRelevant(configs, d)
  {
    if configs != [] {
      var n := |configs| - 1;
      SomeRelevant(configs[..n], d);
      if i :| 0 <= i < |configs| && Relevant(configs[i], d) {
        assert i < n ==> configs[..n][i] == configs[i];
      }
    }
  }

  /**
   The last relevant claim configuration; without a relevant one, the last relevant class
   configuration; without that too, the default of the device type.
   */
  lemma Precedence(configs: seq<RawConfig>, driver: string, d: Device)
    requires Decode(configs, driver).Ok?
    ensures var fromClass := DecodeAll(Filter(configs, IsClass), driver);
            var fromClaim := DecodeAll(Filter(configs, IsClaim), driver);
            && fromClass.Ok? && fromClaim.Ok?
            && Selected(Decode(configs, driver).value, d) ==
               if AnyRelevant(fromClaim.value, d) then LastRelevant(fromClaim.value, d)
               else if AnyRelevant(fromClass.value, d) then LastRelevant(fromClass.value, d)
               else DefaultConfig(d.deviceType)
  {
    var a, b := Filter(configs, IsClass), Filter(configs, IsClaim);
    DecodeConcat(a, b, driver);
    LastRelevantConcat(DecodeAll(a, driver).value, DecodeAll(b, driver).value, d);
    SomeRelevant(DecodeAll(a, driver).value, d);
    SomeRelevant(DecodeAll(b, driver).value, d);
  }

  /** The last relevant configuration is relevant, and no later one is. */
  lemma {:induction false} LastRelevantIsLast(configs: seq<OpaqueConfig>, d: Device) returns (i: nat)
    requires LastRelevant(configs, d).Some?
    ensures i < |configs| && Relevant(configs[i], d) && LastRelevant(configs, d) == Some(configs[i].config)
    ensures forall j :: i < j < |configs| ==> !Relevant(configs[j], d)
  {
    var n := |configs| - 1;
    if Relevant(configs[n], d) {
      i := n;
    } else {
      i := LastRelevantIsLast(configs[..n], d);
    }
  }

  /** A selected configuration always has the kind the device type asks for. */
  lemma SelectedMatches(configs: seq<OpaqueConfig>, d: Device)
    requires Fits(configs, d) && Selected(configs, d).Some?
    ensures Matches(Selected(configs, d).value, d.deviceType)
  {
    if LastRelevant(configs, d).Some? {
      var i := LastRelevantIsLast(configs, d);
    }
  }

  /** VFIO configurations play no part. */
  lemma {:induction false} VfioIsIgnored(configs: seq<OpaqueConfig>, d: Device)
    ensures var others := Filter(configs, (c: OpaqueConfig) => !c.config.Vfio?);
            Selected(configs, d) == Selected(others, d) && (Fits(configs, d) <==> Fits(others, d))
  {
    var keep := (c: OpaqueConfig) => !c.config.Vfio?;
    if configs != [] {
      var n := |configs| - 1;
      VfioIsIgnored(configs[..n], d);
      var others := Filter(configs[..n], keep);
      FitsGrows(configs[..n], configs[n], d);
      FitsGrows(others, configs[n], d);
      assert configs == configs[..n] + [configs[n]];
      if keep(configs[n]) {
        assert (others + [configs[n]])[..|others|] == others;
      } else {
        assert others + [] == others;
      }
    }
  }

  lemma FitsGrows(configs: seq<OpaqueConfig>, c: OpaqueConfig, d: Device)
    ensures Fits(configs + [c], d) <==> Fits(configs, d) && (Relevant(c, d) ==> Matches(c.config, d.deviceType))
  {
    var more := configs + [c];
    assert more[|configs|] == c && forall i :: 0 <= i < |configs| ==> more[i] == configs[i];
  }

  /** A device type has a default exactly when some configuration fits it, and the default fits. */
  lemma Defaults(deviceType: string)
    ensures DefaultConfig("Physical") == Some(Gpu("")) && DefaultConfig("MIG") == Some(Mig(""))
    ensures DefaultConfig("") == None
    ensures DefaultConfig(deviceType).Some? <==> exists config :: Matches(config, deviceType)
    ensures DefaultConfig(deviceType).Some? ==> Matches(DefaultConfig(deviceType).value, deviceType)
  {
    if DefaultConfig(deviceType).Some? {
      assert Matches(DefaultConfig(deviceType).value, deviceType);
    }
  }
}
