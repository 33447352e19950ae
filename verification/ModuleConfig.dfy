/**
 Parsing of the module configuration. Parsing also produces `sanitized`, the settings in
 clean form; parsing those again must give the same state.
 */
module ModuleConfig {
  import opened Common
  import opened GoStrings
  import opened Sequences

  datatype Result<T> = Ok(value: T) | Err(section: string)

  /** One settings section after JSON decoding: absent or null, of the wrong shape, or decoded. */
  datatype Section<T> = Missing | Undecodable | Decoded(payload: T)

  // ---------- input ----------

  datatype ManagedPayload = ManagedPayload(labelKey: string, enabledByDefault: Option<bool>)
  datatype ExpressionPayload = ExpressionPayload(key: string, operator: string, values: seq<string>)
  datatype SelectorPayload = SelectorPayload(matchLabels: map<string, string>, matchExpressions: seq<ExpressionPayload>)
  datatype ApprovalPayload = ApprovalPayload(mode: string, selector: Section<SelectorPayload>)
  datatype SchedulingPayload = SchedulingPayload(defaultStrategy: string, topologyKey: string)
  datatype HttpsPayload = HttpsPayload(mode: string, clusterIssuerName: string, secretName: string)

  datatype RawSettings = RawSettings(
    managedNodes: Section<ManagedPayload>,
    deviceApproval: Section<ApprovalPayload>,
    scheduling: Section<SchedulingPayload>,
    monitoring: Section<Option<bool>>,
    logLevel: Section<string>,
    placement: Section<seq<string>>,
    inventory: Section<string>,
    https: Section<HttpsPayload>,
    highAvailability: Section<bool>)

  datatype GlobalValues = GlobalValues(mode: string, certManagerIssuer: string, customSecret: string)

  datatype Input = Input(enabled: Option<bool>, settings: RawSettings, global: GlobalValues)

  // ---------- state ----------

  datatype Managed = Managed(labelKey: string, enabledByDefault: bool)
  datatype ApprovalMode = Manual | Automatic | BySelector
  datatype Expression = Expression(key: string, operator: Operator, values: seq<string>)
  datatype Selector = Selector(matchLabels: map<string, string>, matchExpressions: seq<Expression>)
  datatype Approval = Approval(mode: ApprovalMode, selector: Option<Selector>)
  datatype Strategy = Spread | BinPack
  datatype Scheduling = Scheduling(strategy: Strategy, topologyKey: string)
  datatype LogLevel = Debug | Info | Warn | Error
  datatype Https = CertManager(issuer: string) | CustomCertificate(secret: string) | OnlyInURI | Disabled

  datatype State = State(
    enabled: bool, managed: Managed, approval: Approval, scheduling: Scheduling, serviceMonitor: bool,
    logLevel: LogLevel, tolerationKeys: seq<string>, resyncPeriod: string, https: Https, highAvailability: Option<bool>,
    sanitized: RawSettings)

  const DEFAULT_LABEL_KEY := "gpu.deckhouse.io/enabled"
  const DEFAULT_TOPOLOGY := "topology.kubernetes.io/zone"
  const DEFAULT_ISSUER := "letsencrypt"

  // ---------- words ----------

  /** How a free-form word is compared: trimmed, in lower case. */
  function Normal(s: string): string {
    ToLower(TrimSpace(s))
  }

  function ParseMode(s: string): Option<ApprovalMode> {
    match Normal(s)
    case "manual" => Some(Manual)
    case "automatic" => Some(Automatic)
    case "selector" => Some(BySelector)
    case _ => None
  }

  function ModeText(m: ApprovalMode): string {
    match m case Manual => "Manual" case Automatic => "Automatic" case BySelector => "Selector"
  }

  function ParseOperator(s: string): Option<Operator> {
    match Normal(s)
    case "in" => Some(In)
    case "notin" => Some(NotIn)
    case "exists" => Some(Exists)
    case "doesnotexist" => Some(DoesNotExist)
    case _ => None
  }

  function OperatorText(o: Operator): string {
    match o case In => "In" case NotIn => "NotIn" case Exists => "Exists" case DoesNotExist => "DoesNotExist"
  }

  function ParseStrategy(s: string): Option<Strategy> {
    match Normal(s)
    case "spread" => Some(Spread)
    case "binpack" => Some(BinPack)
    case _ => None
  }

  function StrategyText(s: Strategy): string {
    match s case Spread => "Spread" case BinPack => "BinPack"
  }

  function ParseLevel(s: string): Option<LogLevel> {
    match Normal(s)
    case "debug" => Some(Debug)
    case "info" => Some(Info)
    case "warn" => Some(Warn)
    case "error" => Some(Error)
    case _ => None
  }

  function LevelText(l: LogLevel): string {
    match l case Debug => "Debug" case Info => "Info" case Warn => "Warn" case Error => "Error"
  }

  datatype HttpsMode = CertManagerMode | CustomCertificateMode | OnlyInURIMode | DisabledMode

  function ParseHttpsMode(s: string): Option<HttpsMode> {
    match Normal(s)
    case "certmanager" => Some(CertManagerMode)
    case "customcertificate" => Some(CustomCertificateMode)
    case "onlyinuri" => Some(OnlyInURIMode)
    case "disabled" => Some(DisabledMode)
    case _ => None
  }

  function HttpsModeText(m: HttpsMode): string {
    match m
    case CertManagerMode => "CertManager"
    case CustomCertificateMode => "CustomCertificate"
    case OnlyInURIMode => "OnlyInURI"
    case DisabledMode => "Disabled"
  }

  lemma NormalOfCapitalised(s: string, lower: string)
    requires |s| == |lower| && Trimmed(s) && forall i :: 0 <= i < |s| ==> LowerChar(s[i]) == lower[i]
    ensures Normal(s) == lower
  {
    TrimSpaceOfTrimmed(s);
  }

  // The canonical words parse to themselves.

  lemma ModeReturns(m: ApprovalMode)
    ensures ParseMode(ModeText(m)) == Some(m)
  {
    match m
    case Manual => NormalOfCapitalised("Manual", "manual");
    case Automatic => NormalOfCapitalised("Automatic", "automatic");
    case BySelector => NormalOfCapitalised("Selector", "selector");
  }

  lemma OperatorReturns(o: Operator)
    ensures ParseOperator(OperatorText(o)) == Some(o)
  {
    match o
    case In => NormalOfCapitalised("In", "in");
    case NotIn => NormalOfCapitalised("NotIn", "notin");
    case Exists => NormalOfCapitalised("Exists", "exists");
    case DoesNotExist => DoesNotExistReturns();
  }

  lemma DoesNotExistReturns()
    ensures Normal("DoesNotExist") == "doesnotexist"
  {
    NormalOfCapitalised("DoesNotExist", "doesnotexist");
  }

  lemma StrategyReturns(s: Strategy)
    ensures ParseStrategy(StrategyText(s)) == Some(s)
  {
    match s
    case Spread => NormalOfCapitalised("Spread", "spread");
    case BinPack => NormalOfCapitalised("BinPack", "binpack");
  }

  lemma LevelReturns(l: LogLevel)
    ensures ParseLevel(LevelText(l)) == Some(l)
  {
    match l
    case Debug => NormalOfCapitalised("Debug", "debug");
    case Info => NormalOfCapitalised("Info", "info");
    case Warn => NormalOfCapitalised("Warn", "warn");
    case Error => NormalOfCapitalised("Error", "error");
  }

  lemma HttpsModeReturns(m: HttpsMode)
    ensures ParseHttpsMode(HttpsModeText(m)) == Some(m)
  {
    match m
    case CertManagerMode => CertManagerReturns();
    case CustomCertificateMode => CustomCertificateReturns();
    case OnlyInURIMode => NormalOfCapitalised("OnlyInURI", "onlyinuri");
    case DisabledMode => NormalOfCapitalised("Disabled", "disabled");
  }

  lemma CertManagerReturns()
    ensures Normal("CertManager") == "certmanager"
  {
    NormalOfCapitalised("CertManager", "certmanager");
  }

  lemma CustomCertificateReturns()
    ensures Normal("CustomCertificate") == "customcertificate"
  {
    NormalOfCapitalised("CustomCertificate", "customcertificate");
  }

  // ---------- sections ----------

  function OrDefault(s: string, default_: string): string {
    if TrimSpace(s) != "" then TrimSpace(s) else default_
  }

  function ParseManaged(raw: Section<ManagedPayload>): Result<Managed> {
    match raw
    case Missing => Ok(Managed(DEFAULT_LABEL_KEY, true))
    case Undecodable => Err("managedNodes")
    case Decoded(p) =>
      Ok(Managed(OrDefault(p.labelKey, DEFAULT_LABEL_KEY),
                 if p.enabledByDefault.Some? then p.enabledByDefault.value else true))
  }

  function ParseScheduling(raw: Section<SchedulingPayload>): Result<Scheduling> {
    match raw
    case Missing => Ok(Scheduling(Spread, DEFAULT_TOPOLOGY))
    case Undecodable => Err("scheduling")
    case Decoded(p) =>
      var parsed := ParseStrategy(p.defaultStrategy);
      if parsed.None? && TrimSpace(p.defaultStrategy) != "" then Err("scheduling")
      else
        var strategy := if parsed.Some? then parsed.value else Spread;
        var topology := TrimSpace(p.topologyKey);
        Ok(Scheduling(strategy, if strategy == Spread && topology == "" then DEFAULT_TOPOLOGY else topology))
  }

  function ParseMonitoring(raw: Section<Option<bool>>): Result<bool> {
    match raw
    case Missing => Ok(true)
    case Undecodable => Err("monitoring")
    case Decoded(p) => Ok(if p.Some? then p.value else true)
  }

  function ParseLogLevel(raw: Section<string>): Result<LogLevel> {
    match raw
    case Missing => Ok(Info)
    case Undecodable => Err("logLevel")
    case Decoded(p) =>
      var parsed := ParseLevel(TrimSpace(p));
      if parsed.Some? then Ok(parsed.value)
      else if TrimSpace(p) != "" then Err("logLevel")
      else Ok(Info)
  }

  function DigitsValue(s: string): nat {
    if s == "" then 0
    else 10 * DigitsValue(s[..|s| - 1]) + var c := s[|s| - 1]; if '0' <= c <= '9' then c as int - '0' as int else 0
  }

  function UnitNanoseconds(c: char): nat {
    if c == 's' then 1_000_000_000 else if c == 'm' then 60_000_000_000 else 3_600_000_000_000
  }

  /** Digits and one of s, m, h, within a 64-bit count of nanoseconds. */
  predicate IsPeriod(s: string) {
    && |s| >= 2 && (forall i :: 0 <= i < |s| - 1 ==> '0' <= s[i] <= '9')
    && (s[|s| - 1] == 's' || s[|s| - 1] == 'm' || s[|s| - 1] == 'h')
    && DigitsValue(s[..|s| - 1]) * UnitNanoseconds(s[|s| - 1]) < 0x8000_0000_0000_0000
  }

  function ParseInventory(raw: Section<string>): Result<string> {
    match raw
    case Missing => Ok("")
    case Undecodable => Err("inventory")
    case Decoded(p) =>
      var trimmed := TrimSpace(p);
      if trimmed == "" then Ok("") else if IsPeriod(trimmed) then Ok(trimmed) else Err("inventory")
  }

  /** The mode, issuer and secret that apply before the mode is looked at. */
  function ParseHttps(raw: Section<HttpsPayload>, global: GlobalValues): Result<Https> {
    var globalMode := ParseHttpsMode(global.mode);
    var mode0 := if globalMode.Some? then globalMode.value else CertManagerMode;
    var issuer0 := OrDefault(global.certManagerIssuer, DEFAULT_ISSUER);
    var secret0 := TrimSpace(global.customSecret);
    match raw
    case Missing => SettleHttps(mode0, issuer0, secret0)
    case Undecodable => Err("https")
    case Decoded(p) =>
      var mode := ParseHttpsMode(p.mode);
      if mode.None? && TrimSpace(p.mode) != "" then Err("https")
      else SettleHttps(if mode.Some? then mode.value else mode0,
                       OrDefault(p.clusterIssuerName, issuer0), OrDefault(p.secretName, secret0))
  }

  function SettleHttps(mode: HttpsMode, issuer: string, secret: string): Result<Https> {
    match mode
    case CustomCertificateMode => if secret == "" then Err("https") else Ok(CustomCertificate(secret))
    case OnlyInURIMode => Ok(OnlyInURI)
    case DisabledMode => Ok(Disabled)
    case CertManagerMode => Ok(CertManager(issuer))
  }

  function ParseBool(raw: Section<bool>): Option<bool> {
    if raw.Decoded? then Some(raw.payload) else None
  }

  // ---------- placement ----------

  function TrimAll(keys: seq<string>): seq<string> {
    seq(|keys|, i requires 0 <= i < |keys| => TrimSpace(keys[i]))
  }

  /** Trimmed, without blanks, each once at its first occurrence. */
  function CleanKeys(keys: seq<string>): seq<string> {
    Dedup(Filter(TrimAll(keys), NonBlank))
  }

  function ParsePlacement(raw: Section<seq<string>>): seq<string> {
    if raw.Decoded? then CleanKeys(raw.payload) else []
  }

  method CleanTolerationKeys(payload: seq<string>) returns (keys: seq<string>)
    ensures keys == CleanKeys(payload)
  {
    keys := [];
    var seen: set<string> := {};
    ghost var kept: seq<string> := [];
    for i := 0 to |payload|
      invariant kept == Filter(TrimAll(payload)[..i], NonBlank) && keys == Dedup(kept)
      invariant forall k :: k in seen <==> k in kept
    {
      var k := TrimSpace(payload[i]);
      assert TrimAll(payload)[..i + 1][..i] == TrimAll(payload)[..i];
      if k == "" {
        continue;
      }
      assert (kept + [k])[..|kept|] == kept;
      kept := kept + [k];
      if k in seen {
        continue;
      }
      seen := seen + {k};
      keys := keys + [k];
    }
    assert TrimAll(payload)[..|payload|] == TrimAll(payload);
  }

  ghost predicate CleanList(keys: seq<string>) {
    && (forall i :: 0 <= i < |keys| ==> keys[i] != "" && Trimmed(keys[i]))
    && (forall i, j :: 0 <= i < j < |keys| ==> keys[i] != keys[j])
  }

  lemma CleanKeysMembers(keys: seq<string>)
    ensures forall k :: k in CleanKeys(keys) <==> k != "" && k in TrimAll(keys)
  {
    FilterMembers(TrimAll(keys), NonBlank);
    DedupMembers(Filter(TrimAll(keys), NonBlank));
  }

  /** Toleration keys come out trimmed, non-empty and distinct. */
  lemma CleanKeysAreClean(keys: seq<string>)
    ensures CleanList(CleanKeys(keys))
  {
    var clean := CleanKeys(keys);
    CleanKeysMembers(keys);
    DedupMembers(Filter(TrimAll(keys), NonBlank));
    forall i | 0 <= i < |clean| ensures clean[i] != "" && Trimmed(clean[i]) {
      assert clean[i] in clean && clean[i] in TrimAll(keys);
    }
  }

  /** A clean list is left as it is. */
  lemma CleanListStays(keys: seq<string>)
    requires CleanList(keys)
    ensures CleanKeys(keys) == keys
  {
    forall i | 0 <= i < |keys| ensures TrimSpace(keys[i]) == keys[i] {
      TrimSpaceOfTrimmed(keys[i]);
    }
    assert TrimAll(keys) == keys;
    FilterAll(keys, NonBlank);
    DedupDistinct(keys);
  }

  // ---------- device approval ----------

  function CleanValues(values: seq<string>): seq<string> {
    Filter(TrimAll(values), NonBlank)
  }

  function ParseExpression(p: ExpressionPayload): Result<Expression> {
    var operator := ParseOperator(p.operator);
    if operator.None? || TrimSpace(p.key) == "" then Err("selector")
    else
      var values := CleanValues(p.values);
      var wantsValues := operator.value == In || operator.value == NotIn;
      if wantsValues == (values == []) then Err("selector")
      else Ok(Expression(TrimSpace(p.key), operator.value, values))
  }

  function ParseExpressions(ps: seq<ExpressionPayload>): Result<seq<Expression>> {
    if ps == [] then Ok([])
    else
      var init := ParseExpressions(ps[..|ps| - 1]);
      if init.Err? then Err("selector")
      else
        var last := ParseExpression(ps[|ps| - 1]);
        if last.Err? then Err("selector") else Ok(init.value + [last.value])
  }

  predicate EntryAccepted(k: string, v: string) {
    TrimSpace(k) != "" && TrimSpace(v) != ""
  }

  ghost predicate LabelsAccepted(m: map<string, string>) {
    forall k :: k in m ==> EntryAccepted(k, m[k])
  }

  /** The entry k: v is what the entry of m at k0 becomes. */
  ghost predicate TrimmedFrom(m: map<string, string>, k0: string, k: string, v: string) {
    k0 in m && TrimSpace(k0) == k && TrimSpace(m[k0]) == v
  }

  /** Labels with keys and values trimmed; keys that become equal overwrite each other in any order. */
  ghost predicate IsTrimmedLabels(m: map<string, string>, r: map<string, string>) {
    && (forall k {:trigger HasKey(m, k)} :: HasKey(m, k) ==> TrimSpace(k) in r)
    && (forall k {:trigger HasKey(r, k)} :: HasKey(r, k) ==> exists k0 :: TrimmedFrom(m, k0, k, r[k]))
  }

  ghost predicate IsSelector(p: SelectorPayload, r: Result<Selector>) {
    var expressions := ParseExpressions(p.matchExpressions);
    if !LabelsAccepted(p.matchLabels) || expressions.Err? || (p.matchLabels == map[] && p.matchExpressions == [])
    then r == Err("selector")
    else r.Ok? && IsTrimmedLabels(p.matchLabels, r.value.matchLabels) && r.value.matchExpressions == expressions.value
  }

  /** `labels` holds the trimmed entries of m outside `todo`. */
  ghost predicate TrimmedSoFar(m: map<string, string>, todo: set<string>, labels: map<string, string>) {
    && (forall k :: HasKey(m, k) && k !in todo ==> TrimSpace(k) in labels)
    && (forall k :: HasKey(labels, k) ==> exists k0 :: TrimmedFrom(m, k0, k, labels[k]))
  }

  lemma OneMoreTrimmed(m: map<string, string>, todo: set<string>, labels: map<string, string>, key: string)
    requires TrimmedSoFar(m, todo, labels) && key in m && key in todo
    ensures TrimmedSoFar(m, todo - {key}, labels[TrimSpace(key) := TrimSpace(m[key])])
  {
    var more := labels[TrimSpace(key) := TrimSpace(m[key])];
    assert TrimmedFrom(m, key, TrimSpace(key), TrimSpace(m[key]));
    forall k | HasKey(more, k) ensures exists k0 :: TrimmedFrom(m, k0, k, more[k]) {
      assert k == TrimSpace(key) || HasKey(labels, k);
    }
  }

  method TrimLabels(m: map<string, string>) returns (ok: bool, labels: map<string, string>)
    ensures ok <==> LabelsAccepted(m)
    ensures ok ==> IsTrimmedLabels(m, labels)
  {
    labels := map[];
    var todo := m.Keys;
    while todo != {}
      invariant todo <= m.Keys && TrimmedSoFar(m, todo, labels)
      invariant forall k :: k in m && k !in todo ==> EntryAccepted(k, m[k])
      decreases |todo|
    {
      var key :| key in todo;
      var k, v := TrimSpace(key), TrimSpace(m[key]);
      if k == "" || v == "" {
        assert !EntryAccepted(key, m[key]);
        return false, labels;
      }
      assert EntryAccepted(key, m[key]);
      OneMoreTrimmed(m, todo, labels, key);
      labels := labels[k := v];
      todo := todo - {key};
    }
    ok := true;
  }

  /** The loop over the expressions; the first bad one ends it. */
  method ParseExpressionList(ps: seq<ExpressionPayload>) returns (r: Result<seq<Expression>>)
    ensures r == ParseExpressions(ps)
  {
    var expressions: seq<Expression> := [];
    for i := 0 to |ps|
      invariant ParseExpressions(ps[..i]) == Ok(expressions)
    {
      assert ps[..i + 1][..i] == ps[..i];
      var item := ParseExpression(ps[i]);
      if item.Err? {
        ErrorStays(ps, i + 1);
        return Err("selector");
      }
      expressions := expressions + [item.value];
    }
    assert ps[..|ps|] == ps;
    r := Ok(expressions);
  }

  method ParseSelector(p: SelectorPayload) returns (r: Result<Selector>)
    ensures IsSelector(p, r)
  {
    var ok, labels := TrimLabels(p.matchLabels);
    if !ok {
      return Err("selector");
    }
    var expressions := ParseExpressionList(p.matchExpressions);
    if expressions.Err? {
      return Err("selector");
    }
    if |p.matchLabels| == 0 && |p.matchExpressions| == 0 {
      return Err("selector");
    }
    r := Ok(Selector(labels, expressions.value));
  }

  lemma {:induction false} ErrorStays(ps: seq<ExpressionPayload>, i: nat)
    requires i <= |ps| && ParseExpressions(ps[..i]).Err?
    ensures ParseExpressions(ps).Err?
    decreases |ps|
  {
    if i == |ps| {
      assert ps[..i] == ps;
    } else {
      var init := ps[..|ps| - 1];
      assert init[..i] == ps[..i];
      ErrorStays(init, i);
    }
  }

  ghost predicate IsApproval(raw: Section<ApprovalPayload>, r: Result<Approval>) {
    match raw
    case Missing => r == Ok(Approval(Manual, None))
    case Undecodable => r == Err("deviceApproval")
    case Decoded(p) =>
      var parsed := ParseMode(p.mode);
      if parsed.None? && TrimSpace(p.mode) != "" then r == Err("deviceApproval")
      else
        var mode := if parsed.Some? then parsed.value else Manual;
        if mode != BySelector || p.selector.Missing? then r == Ok(Approval(mode, None))
        else if p.selector.Undecodable? then r == Err("selector")
        else exists s :: IsSelector(p.selector.payload, s)
                         && r == if s.Ok? then Ok(Approval(mode, Some(s.value))) else Err("selector")
  }

  method ParseApproval(raw: Section<ApprovalPayload>) returns (r: Result<Approval>)
    ensures IsApproval(raw, r)
  {
    if raw.Missing? {
      return Ok(Approval(Manual, None));
    } else if raw.Undecodable? {
      return Err("deviceApproval");
    }
    var p := raw.payload;
    var mode := Manual;
    var parsed := ParseMode(p.mode);
    if parsed.Some? {
      mode := parsed.value;
    } else if TrimSpace(p.mode) != "" {
      return Err("deviceApproval");
    }
    if mode == BySelector && !p.selector.Missing? {
      if p.selector.Undecodable? {
        return Err("selector");
      }
      var s := ParseSelector(p.selector.payload);
      return if s.Ok? then Ok(Approval(mode, Some(s.value))) else Err("selector");
    }
    r := Ok(Approval(mode, None));
  }

  // ---------- clean settings ----------

  function CleanManaged(m: Managed): Section<ManagedPayload> {
    Decoded(ManagedPayload(m.labelKey, Some(m.enabledByDefault)))
  }

  function CleanExpression(e: Expression): ExpressionPayload {
    ExpressionPayload(e.key, OperatorText(e.operator), e.values)
  }

  function CleanExpressions(es: seq<Expression>): seq<ExpressionPayload> {
    seq(|es|, i requires 0 <= i < |es| => CleanExpression(es[i]))
  }

  function CleanApproval(a: Approval): Section<ApprovalPayload> {
    Decoded(ApprovalPayload(
      ModeText(a.mode),
      if a.selector.None? then Missing
      else Decoded(SelectorPayload(a.selector.value.matchLabels, CleanExpressions(a.selector.value.matchExpressions)))))
  }

  function CleanScheduling(s: Scheduling): Section<SchedulingPayload> {
    Decoded(SchedulingPayload(StrategyText(s.strategy), s.topologyKey))
  }

  function CleanHttps(h: Https): Section<HttpsPayload> {
    match h
    case CertManager(issuer) => Decoded(HttpsPayload(HttpsModeText(CertManagerMode), issuer, ""))
    case CustomCertificate(secret) => Decoded(HttpsPayload(HttpsModeText(CustomCertificateMode), "", secret))
    case OnlyInURI => Decoded(HttpsPayload(HttpsModeText(OnlyInURIMode), "", ""))
    case Disabled => Decoded(HttpsPayload(HttpsModeText(DisabledMode), "", ""))
  }

  // ---------- the whole configuration ----------

  /** The outcome of every section. */
  datatype Parsed = Parsed(
    enabled: bool, managed: Result<Managed>, approval: Result<Approval>, scheduling: Result<Scheduling>,
    monitoring: Result<bool>, level: Result<LogLevel>, keys: seq<string>, inventory: Result<string>,
    https: Result<Https>, ha: Option<bool>)

  function ParseSections(input: Input, approval: Result<Approval>): Parsed {
    var raw := input.settings;
    Parsed(
      input.enabled.Some? && input.enabled.value, ParseManaged(raw.managedNodes), approval,
      ParseScheduling(raw.scheduling), ParseMonitoring(raw.monitoring), ParseLogLevel(raw.logLevel),
      ParsePlacement(raw.placement), ParseInventory(raw.inventory), ParseHttps(raw.https, input.global),
      ParseBool(raw.highAvailability))
  }

  /** The sections put together; the first section that fails decides. */
  function Assemble(p: Parsed): Result<State> {
    if p.managed.Err? then Err(p.managed.section)
    else if p.approval.Err? then Err(p.approval.section)
    else if p.scheduling.Err? then Err(p.scheduling.section)
    else if p.monitoring.Err? then Err(p.monitoring.section)
    else if p.level.Err? then Err(p.level.section)
    else if p.inventory.Err? then Err(p.inventory.section)
    else if p.https.Err? then Err(p.https.section)
    else
      Ok(State(
        p.enabled, p.managed.value, p.approval.value, p.scheduling.value, p.monitoring.value,
        p.level.value, p.keys, p.inventory.value, p.https.value, p.ha,
        RawSettings(
          CleanManaged(p.managed.value), CleanApproval(p.approval.value), CleanScheduling(p.scheduling.value),
          Decoded(Some(p.monitoring.value)), Decoded(LevelText(p.level.value)), Decoded(p.keys),
          Decoded(p.inventory.value),
          CleanHttps(p.https.value), if p.ha.Some? then Decoded(p.ha.value) else Missing)))
  }

  ghost predicate IsParse(input: Input, r: Result<State>) {
    exists approval :: IsApproval(input.settings.deviceApproval, approval)
                       && r == Assemble(ParseSections(input, approval))
  }

  method Parse(input: Input) returns (r: Result<State>)
    ensures IsParse(input, r)
  {
    var raw := input.settings;
    var enabled := false;
    if input.enabled.Some? {
      enabled := input.enabled.value;
    }
    var approval := ParseApproval(raw.deviceApproval);
    var managed := ParseManaged(raw.managedNodes);
    if managed.Err? {
      return Err(managed.section);
    }
    if approval.Err? {
      return Err(approval.section);
    }
    var scheduling := ParseScheduling(raw.scheduling);
    if scheduling.Err? {
      return Err(scheduling.section);
    }
    var monitoring := ParseMonitoring(raw.monitoring);
    if monitoring.Err? {
      return Err(monitoring.section);
    }
    var level := ParseLogLevel(raw.logLevel);
    if level.Err? {
      return Err(level.section);
    }
    var keys: seq<string> := [];
    if raw.placement.Decoded? {
      keys := CleanTolerationKeys(raw.placement.payload);
    }
    var inventory := ParseInventory(raw.inventory);
    if inventory.Err? {
      return Err(inventory.section);
    }
    var https := ParseHttps(raw.https, input.global);
    if https.Err? {
      return Err(https.section);
    }
    var ha := ParseBool(raw.highAvailability);
    var sanitized := RawSettings(
      CleanManaged(managed.value), CleanApproval(approval.value), CleanScheduling(scheduling.value),
      Decoded(Some(monitoring.value)), Decoded(LevelText(level.value)), Decoded(keys), Decoded(inventory.value),
      CleanHttps(https.value), if ha.Some? then Decoded(ha.value) else Missing);
    r := Ok(State(enabled, managed.value, approval.value, scheduling.value, monitoring.value, level.value, keys,
                  inventory.value, https.value, ha, sanitized));
  }

  // ---------- parsing is a projection ----------

  lemma ManagedReturns(raw: Section<ManagedPayload>)
    requires ParseManaged(raw).Ok?
    ensures ParseManaged(CleanManaged(ParseManaged(raw).value)) == ParseManaged(raw)
  {
    TrimSpaceOfTrimmed(ParseManaged(raw).value.labelKey);
  }

  lemma SchedulingReturns(raw: Section<SchedulingPayload>)
    requires ParseScheduling(raw).Ok?
    ensures ParseScheduling(CleanScheduling(ParseScheduling(raw).value)) == ParseScheduling(raw)
  {
    var s := ParseScheduling(raw).value;
    StrategyReturns(s.strategy);
    TrimSpaceOfTrimmed(s.topologyKey);
  }

  lemma LogLevelReturns(raw: Section<string>)
    requires ParseLogLevel(raw).Ok?
    ensures ParseLogLevel(Decoded(LevelText(ParseLogLevel(raw).value))) == ParseLogLevel(raw)
  {
    var l := ParseLogLevel(raw).value;
    LevelReturns(l);
    assert Trimmed(LevelText(l));
    TrimSpaceOfTrimmed(LevelText(l));
  }

  lemma InventoryReturns(raw: Section<string>)
    requires ParseInventory(raw).Ok?
    ensures ParseInventory(Decoded(ParseInventory(raw).value)) == ParseInventory(raw)
  {
    TrimSpaceOfTrimmed(ParseInventory(raw).value);
  }

  lemma PlacementReturns(raw: Section<seq<string>>)
    ensures ParsePlacement(Decoded(ParsePlacement(raw))) == ParsePlacement(raw)
  {
    if raw.Decoded? {
      CleanKeysAreClean(raw.payload);
    }
    CleanListStays(ParsePlacement(raw));
  }

  /** A section that names its mode does not look at the global mode. */
  lemma HttpsNamed(m: HttpsMode, issuer: string, secret: string, global: GlobalValues)
    ensures ParseHttps(Decoded(HttpsPayload(HttpsModeText(m), issuer, secret)), global)
         == SettleHttps(m, OrDefault(issuer, OrDefault(global.certManagerIssuer, DEFAULT_ISSUER)),
                        OrDefault(secret, TrimSpace(global.customSecret)))
  {
    HttpsModeReturns(m);
  }

  lemma OrDefaultIsTrimmed(s: string, default_: string)
    requires Trimmed(default_)
    ensures Trimmed(OrDefault(s, default_)) && (default_ != "" ==> OrDefault(s, default_) != "")
  {
  }

  ghost predicate HttpsTrimmed(r: Result<Https>) {
    r.Ok? ==>
      && (r.value.CertManager? ==> r.value.issuer != "" && Trimmed(r.value.issuer))
      && (r.value.CustomCertificate? ==> r.value.secret != "" && Trimmed(r.value.secret))
  }

  lemma SettledIsTrimmed(mode: HttpsMode, issuer: string, secret: string)
    requires issuer != "" && Trimmed(issuer) && Trimmed(secret)
    ensures HttpsTrimmed(SettleHttps(mode, issuer, secret))
  {
  }

  lemma HttpsIsTrimmed(raw: Section<HttpsPayload>, global: GlobalValues)
    ensures HttpsTrimmed(ParseHttps(raw, global))
  {
    var issuer, secret := OrDefault(global.certManagerIssuer, DEFAULT_ISSUER), TrimSpace(global.customSecret);
    OrDefaultIsTrimmed(global.certManagerIssuer, DEFAULT_ISSUER);
    if raw.Decoded? {
      issuer, secret := OrDefault(raw.payload.clusterIssuerName, issuer), OrDefault(raw.payload.secretName, secret);
      OrDefaultIsTrimmed(raw.payload.clusterIssuerName, OrDefault(global.certManagerIssuer, DEFAULT_ISSUER));
      OrDefaultIsTrimmed(raw.payload.secretName, TrimSpace(global.customSecret));
    }
    forall mode ensures HttpsTrimmed(SettleHttps(mode, issuer, secret)) {
      SettledIsTrimmed(mode, issuer, secret);
    }
  }

  /** Whatever the global values are the second time. */
  lemma HttpsReturns(raw: Section<HttpsPayload>, global: GlobalValues, global': GlobalValues)
    requires ParseHttps(raw, global).Ok?
    ensures ParseHttps(CleanHttps(ParseHttps(raw, global).value), global') == ParseHttps(raw, global)
  {
    HttpsIsTrimmed(raw, global);
    CleanHttpsReturns(ParseHttps(raw, global).value, global');
  }

  lemma CleanHttpsReturns(h: Https, global: GlobalValues)
    requires h.CertManager? ==> h.issuer != "" && Trimmed(h.issuer)
    requires h.CustomCertificate? ==> h.secret != "" && Trimmed(h.secret)
    ensures ParseHttps(CleanHttps(h), global) == Ok(h)
  {
    match h
    case CertManager(issuer) =>
      HttpsNamed(CertManagerMode, issuer, "", global);
      TrimSpaceOfTrimmed(issuer);
    case CustomCertificate(secret) =>
      HttpsNamed(CustomCertificateMode, "", secret, global);
      TrimSpaceOfTrimmed(secret);
    case OnlyInURI => HttpsNamed(OnlyInURIMode, "", "", global);
    case Disabled => HttpsNamed(DisabledMode, "", "", global);
  }

  lemma ValuesStay(values: seq<string>)
    ensures CleanValues(CleanValues(values)) == CleanValues(values)
  {
    var clean := CleanValues(values);
    FilterMembers(TrimAll(values), NonBlank);
    forall i | 0 <= i < |clean| ensures TrimSpace(clean[i]) == clean[i] && clean[i] != "" {
      assert clean[i] in clean && clean[i] in TrimAll(values);
      TrimSpaceOfTrimmed(clean[i]);
    }
    assert TrimAll(clean) == clean;
    FilterAll(clean, NonBlank);
  }

  lemma ExpressionReturns(p: ExpressionPayload)
    requires ParseExpression(p).Ok?
    ensures ParseExpression(CleanExpression(ParseExpression(p).value)) == ParseExpression(p)
  {
    var e := ParseExpression(p).value;
    OperatorReturns(e.operator);
    TrimSpaceOfTrimmed(e.key);
    ValuesStay(p.values);
  }

  lemma {:induction false} ExpressionsReturn(ps: seq<ExpressionPayload>)
    requires ParseExpressions(ps).Ok?
    ensures |ParseExpressions(ps).value| == |ps|
    ensures ParseExpressions(CleanExpressions(ParseExpressions(ps).value)) == ParseExpressions(ps)
  {
    if ps != [] {
      var init := ps[..|ps| - 1];
      ExpressionsReturn(init);
      ExpressionReturns(ps[|ps| - 1]);
      var es := ParseExpressions(ps).value;
      assert CleanExpressions(es)[..|es| - 1] == CleanExpressions(ParseExpressions(init).value);
    }
  }

  lemma LabelsReturn(m: map<string, string>, r: map<string, string>, r': map<string, string>)
    requires LabelsAccepted(m) && IsTrimmedLabels(m, r)
    ensures LabelsAccepted(r) && (r == map[] <==> m == map[])
    ensures IsTrimmedLabels(r, r') ==> r' == r
  {
    forall k | k in r ensures EntryAccepted(k, r[k]) && TrimSpace(k) == k && TrimSpace(r[k]) == r[k] {
      assert HasKey(r, k);
      var k0 :| TrimmedFrom(m, k0, k, r[k]);
      assert EntryAccepted(k0, m[k0]);
      TrimSpaceTwice(k0);
      TrimSpaceTwice(m[k0]);
    }
    if m != map[] {
      var k :| k in m;
      assert HasKey(m, k);
    }
    if r != map[] {
      var k :| k in r;
      assert HasKey(r, k);
    }
    if IsTrimmedLabels(r, r') {
      CleanLabelsStay(r, r');
    }
  }

  lemma CleanLabelsStay(r: map<string, string>, r': map<string, string>)
    requires IsTrimmedLabels(r, r') && forall k :: k in r ==> TrimSpace(k) == k && TrimSpace(r[k]) == r[k]
    ensures r' == r
  {
    forall k | k in r ensures k in r' {
      assert HasKey(r, k);
    }
    forall k | k in r' ensures k in r && r'[k] == r[k] {
      assert HasKey(r', k);
      var k0 :| TrimmedFrom(r, k0, k, r'[k]);
    }
  }

  lemma SelectorReturns(p: SelectorPayload, s: Selector, r: Result<Selector>)
    requires IsSelector(p, Ok(s)) && IsSelector(SelectorPayload(s.matchLabels, CleanExpressions(s.matchExpressions)), r)
    ensures r == Ok(s)
  {
    ExpressionsReturn(p.matchExpressions);
    LabelsReturn(p.matchLabels, s.matchLabels, if r.Ok? then r.value.matchLabels else map[]);
    assert |CleanExpressions(s.matchExpressions)| == |p.matchExpressions|;
  }

  lemma ApprovalReturns(raw: Section<ApprovalPayload>, first: Result<Approval>, again: Result<Approval>)
    ensures IsApproval(raw, first) && first.Ok? && IsApproval(CleanApproval(first.value), again) ==> again == first
  {
    if IsApproval(raw, first) && first.Ok? && IsApproval(CleanApproval(first.value), again) {
      var a := first.value;
      ModeReturns(a.mode);
      if a.selector.Some? {
        var s :| IsSelector(raw.payload.selector.payload, s)
                 && first == if s.Ok? then Ok(Approval(a.mode, Some(s.value))) else Err("selector");
        var clean := CleanApproval(a).payload.selector.payload;
        var s' :| IsSelector(clean, s')
                  && again == if s'.Ok? then Ok(Approval(a.mode, Some(s'.value))) else Err("selector");
        SelectorReturns(raw.payload.selector.payload, a.selector.value, s');
      }
    }
  }

  /** Feeding the sanitized settings back gives the same state, whatever the global values are then. */
  lemma ParseIsProjection(input: Input, st: State, global: GlobalValues, again: Result<State>)
    ensures IsParse(input, Ok(st)) && IsParse(Input(input.enabled, st.sanitized, global), again) ==> again == Ok(st)
  {
    var second := Input(input.enabled, st.sanitized, global);
    if IsParse(input, Ok(st)) && IsParse(second, again) {
      var approval :| IsApproval(input.settings.deviceApproval, approval)
                      && Ok(st) == Assemble(ParseSections(input, approval));
      var approval' :| IsApproval(st.sanitized.deviceApproval, approval')
                       && again == Assemble(ParseSections(second, approval'));
      ApprovalOfState(input, approval, st);
      ApprovalReturns(input.settings.deviceApproval, approval, approval');
      SectionsReturn(input, approval, st, global);
    }
  }

  lemma ApprovalOfState(input: Input, approval: Result<Approval>, st: State)
    requires Ok(st) == Assemble(ParseSections(input, approval))
    ensures approval.Ok? && st.sanitized.deviceApproval == CleanApproval(approval.value)
  {
  }

  lemma SectionsReturn(input: Input, approval: Result<Approval>, st: State, global: GlobalValues)
    requires Ok(st) == Assemble(ParseSections(input, approval))
    ensures ParseSections(Input(input.enabled, st.sanitized, global), approval) == ParseSections(input, approval)
  {
    ManagedReturns(input.settings.managedNodes);
    SchedulingReturns(input.settings.scheduling);
    LogLevelReturns(input.settings.logLevel);
    PlacementReturns(input.settings.placement);
    InventoryReturns(input.settings.inventory);
    HttpsReturns(input.settings.https, input.global, global);
  }
}
