/** What a parsed module configuration says, read off the input, and exactly which inputs are rejected. */
module ModuleConfigMeaning {
  import opened Common
  import opened GoStrings
  import opened Sequences
  import opened ModuleConfig

  // ---------- words ----------

  /** The words of the clean settings; parsing finds them again in any letter case and between blanks. */
  lemma CanonicalWords()
    ensures ModeText(Manual) == "Manual" && ModeText(Automatic) == "Automatic" && ModeText(BySelector) == "Selector"
    ensures OperatorText(In) == "In" && OperatorText(NotIn) == "NotIn"
    ensures OperatorText(Exists) == "Exists" && OperatorText(DoesNotExist) == "DoesNotExist"
    ensures StrategyText(Spread) == "Spread" && StrategyText(BinPack) == "BinPack"
    ensures LevelText(Debug) == "Debug" && LevelText(Info) == "Info" && LevelText(Warn) == "Warn"
    ensures LevelText(Error) == "Error"
    ensures HttpsModeText(CertManagerMode) == "CertManager" && HttpsModeText(OnlyInURIMode) == "OnlyInURI"
    ensures HttpsModeText(CustomCertificateMode) == "CustomCertificate" && HttpsModeText(DisabledMode) == "Disabled"
  {
  }

  /** Two texts that differ only in letter case and outer blanks. */
  ghost predicate SameWord(s: string, t: string) {
    ToLower(TrimSpace(s)) == ToLower(TrimSpace(t))
  }

  // A word is recognised exactly when it is one of the canonical words, up to case and blanks.

  function ModeWord(m: ApprovalMode): string {
    match m
    case Manual => "manual"
    case Automatic => "automatic"
    case BySelector => "selector"
  }

  lemma ModeNamed(s: string, m: ApprovalMode)
    ensures ParseMode(s) == Some(m) <==> Normal(s) == ModeWord(m)
  {
  }

  lemma ModeWordIs(m: ApprovalMode)
    ensures Normal(ModeText(m)) == ModeWord(m)
  {
    match m
    case Manual => NormalOfCapitalised("Manual", "manual");
    case Automatic => NormalOfCapitalised("Automatic", "automatic");
    case BySelector => NormalOfCapitalised("Selector", "selector");
  }

  lemma ModeRecognised(s: string, m: ApprovalMode)
    ensures ParseMode(s) == Some(m) <==> SameWord(s, ModeText(m))
  {
    ModeNamed(s, m);
    ModeWordIs(m);
  }

  function OperatorWord(o: Operator): string {
    match o
    case In => "in"
    case NotIn => "notin"
    case Exists => "exists"
    case DoesNotExist => "doesnotexist"
  }

  lemma OperatorNamed(s: string, o: Operator)
    ensures ParseOperator(s) == Some(o) <==> Normal(s) == OperatorWord(o)
  {
  }

  lemma OperatorWordIs(o: Operator)
    ensures Normal(OperatorText(o)) == OperatorWord(o)
  {
    match o
    case In => NormalOfCapitalised("In", "in");
    case NotIn => NormalOfCapitalised("NotIn", "notin");
    case Exists => NormalOfCapitalised("Exists", "exists");
    case DoesNotExist => DoesNotExistReturns();
  }

  lemma OperatorRecognised(s: string, o: Operator)
    ensures ParseOperator(s) == Some(o) <==> SameWord(s, OperatorText(o))
  {
    OperatorNamed(s, o);
    OperatorWordIs(o);
  }

  function StrategyWord(x: Strategy): string {
    match x
    case Spread => "spread"
    case BinPack => "binpack"
  }

  lemma StrategyNamed(s: string, x: Strategy)
    ensures ParseStrategy(s) == Some(x) <==> Normal(s) == StrategyWord(x)
  {
  }

  lemma StrategyWordIs(x: Strategy)
    ensures Normal(StrategyText(x)) == StrategyWord(x)
  {
    match x
    case Spread => NormalOfCapitalised("Spread", "spread");
    case BinPack => NormalOfCapitalised("BinPack", "binpack");
  }

  lemma StrategyRecognised(s: string, x: Strategy)
    ensures ParseStrategy(s) == Some(x) <==> SameWord(s, StrategyText(x))
  {
    StrategyNamed(s, x);
    StrategyWordIs(x);
  }

  function LevelWord(l: LogLevel): string {
    match l
    case Debug => "debug"
    case Info => "info"
    case Warn => "warn"
    case Error => "error"
  }

  lemma LevelNamed(s: string, l: LogLevel)
    ensures ParseLevel(s) == Some(l) <==> Normal(s) == LevelWord(l)
  {
  }

  lemma LevelWordIs(l: LogLevel)
    ensures Normal(LevelText(l)) == LevelWord(l)
  {
    match l
    case Debug => NormalOfCapitalised("Debug", "debug");
    case Info => NormalOfCapitalised("Info", "info");
    case Warn => NormalOfCapitalised("Warn", "warn");
    case Error => NormalOfCapitalised("Error", "error");
  }

  lemma LevelRecognised(s: string, l: LogLevel)
    ensures ParseLevel(s) == Some(l) <==> SameWord(s, LevelText(l))
  {
    LevelNamed(s, l);
    LevelWordIs(l);
  }

  function HttpsModeWord(h: HttpsMode): string {
    match h
    case CertManagerMode => "certmanager"
    case CustomCertificateMode => "customcertificate"
    case OnlyInURIMode => "onlyinuri"
    case DisabledMode => "disabled"
  }

  lemma HttpsModeNamed(s: string, h: HttpsMode)
    ensures ParseHttpsMode(s) == Some(h) <==> Normal(s) == HttpsModeWord(h)
  {
  }

  lemma HttpsModeWordIs(h: HttpsMode)
    ensures Normal(HttpsModeText(h)) == HttpsModeWord(h)
  {
    match h
    case CertManagerMode => CertManagerReturns();
    case CustomCertificateMode => CustomCertificateReturns();
    case OnlyInURIMode => NormalOfCapitalised("OnlyInURI", "onlyinuri");
    case DisabledMode => NormalOfCapitalised("Disabled", "disabled");
  }

  lemma HttpsModeRecognised(s: string, h: HttpsMode)
    ensures ParseHttpsMode(s) == Some(h) <==> SameWord(s, HttpsModeText(h))
  {
    HttpsModeNamed(s, h);
    HttpsModeWordIs(h);
  }

  // ---------- what each section says ----------

  /** The first text that is not blank, trimmed; "" when all are. */
  function FirstGiven(texts: seq<string>): string {
    if texts == [] then "" else if TrimSpace(texts[0]) != "" then TrimSpace(texts[0]) else FirstGiven(texts[1..])
  }

  /** The payload's text, or nothing when the section is not there. */
  function TextOf<P>(raw: Section<P>, text: P -> string): string {
    if raw.Decoded? then text(raw.payload) else ""
  }

  /** Label key and flag as given, or the well-known label and true. */
  ghost predicate ManagedMeant(raw: Section<ManagedPayload>, m: Managed) {
    && m.labelKey == FirstGiven([TextOf(raw, (p: ManagedPayload) => p.labelKey), "gpu.deckhouse.io/enabled"])
    && (m.enabledByDefault <==> !(raw.Decoded? && raw.payload.enabledByDefault == Some(false)))
  }

  /** The strategy named, or Spread; the topology key given, or for Spread the zone. */
  ghost predicate SchedulingMeant(raw: Section<SchedulingPayload>, s: Scheduling) {
    var named := ParseStrategy(TextOf(raw, (p: SchedulingPayload) => p.defaultStrategy));
    var zone := if s.strategy == Spread then "topology.kubernetes.io/zone" else "";
    && s.strategy == (if named.Some? then named.value else Spread)
    && s.topologyKey == FirstGiven([TextOf(raw, (p: SchedulingPayload) => p.topologyKey), zone])
  }

  ghost predicate LevelMeant(raw: Section<string>, l: LogLevel) {
    var named := ParseLevel(TextOf(raw, (p: string) => p));
    l == if named.Some? then named.value else Info
  }

  /** The mode the section names, else the global one if that is a mode, else cert-manager. */
  function HttpsModeMeant(raw: Section<HttpsPayload>, global: GlobalValues): HttpsMode {
    var named, fallback := ParseHttpsMode(TextOf(raw, (p: HttpsPayload) => p.mode)), ParseHttpsMode(global.mode);
    if named.Some? then named.value else if fallback.Some? then fallback.value else CertManagerMode
  }

  /** Issuer and secret: the section's if given, else the global one; for the issuer in the end a default. */
  function IssuerMeant(raw: Section<HttpsPayload>, global: GlobalValues): string {
    FirstGiven([TextOf(raw, (p: HttpsPayload) => p.clusterIssuerName), global.certManagerIssuer, "letsencrypt"])
  }

  function SecretMeant(raw: Section<HttpsPayload>, global: GlobalValues): string {
    FirstGiven([TextOf(raw, (p: HttpsPayload) => p.secretName), global.customSecret])
  }

  ghost predicate HttpsMeant(raw: Section<HttpsPayload>, global: GlobalValues, h: Https) {
    match HttpsModeMeant(raw, global)
    case CertManagerMode => h == CertManager(IssuerMeant(raw, global))
    case CustomCertificateMode => h == CustomCertificate(SecretMeant(raw, global)) && SecretMeant(raw, global) != ""
    case OnlyInURIMode => h == OnlyInURI
    case DisabledMode => h == Disabled
  }

  lemma FirstOfTwo(a: string, b: string)
    ensures FirstGiven([a, b]) == if TrimSpace(a) != "" then TrimSpace(a) else TrimSpace(b)
  {
    assert [a, b][1..] == [b] && [b][1..] == [];
    assert FirstGiven([b]) == TrimSpace(b);
  }

  lemma FirstOfThree(a: string, b: string, c: string)
    ensures FirstGiven([a, b, c]) == if TrimSpace(a) != "" then TrimSpace(a) else FirstGiven([b, c])
  {
    assert [a, b, c][1..] == [b, c];
  }

  lemma BlankIsNoWord()
    ensures TrimSpace("") == "" && ParseStrategy("").None? && ParseLevel("").None? && ParseHttpsMode("").None?
    ensures ParseMode("").None?
  {
    assert TrimSpace("") == "" && Normal("") == "";
  }

  /** Neither blank nor a word that is known. */
  ghost predicate IsStrange<W>(s: string, word: Option<W>) {
    word.None? && TrimSpace(s) != ""
  }

  lemma ManagedMeans(raw: Section<ManagedPayload>)
    ensures ParseManaged(raw).Ok? <==> !raw.Undecodable?
    ensures ParseManaged(raw).Ok? ==> ManagedMeant(raw, ParseManaged(raw).value)
  {
    BlankIsNoWord();
    FirstOfTwo(TextOf(raw, (p: ManagedPayload) => p.labelKey), DEFAULT_LABEL_KEY);
    assert Trimmed(DEFAULT_LABEL_KEY);
    TrimSpaceOfTrimmed(DEFAULT_LABEL_KEY);
  }

  lemma SchedulingMeans(raw: Section<SchedulingPayload>)
    ensures ParseScheduling(raw).Ok? ==> SchedulingMeant(raw, ParseScheduling(raw).value)
    ensures ParseScheduling(raw).Err? <==>
            || raw.Undecodable?
            || (raw.Decoded? && IsStrange(raw.payload.defaultStrategy, ParseStrategy(raw.payload.defaultStrategy)))
  {
    BlankIsNoWord();
    var topology := TextOf(raw, (p: SchedulingPayload) => p.topologyKey);
    FirstOfTwo(topology, DEFAULT_TOPOLOGY);
    FirstOfTwo(topology, "");
    assert Trimmed(DEFAULT_TOPOLOGY);
    TrimSpaceOfTrimmed(DEFAULT_TOPOLOGY);
  }

  lemma LevelMeans(raw: Section<string>)
    ensures ParseLogLevel(raw).Ok? ==> LevelMeant(raw, ParseLogLevel(raw).value)
    ensures ParseLogLevel(raw).Err? <==>
            raw.Undecodable? || (raw.Decoded? && IsStrange(raw.payload, ParseLevel(raw.payload)))
  {
    BlankIsNoWord();
    if raw.Decoded? {
      TrimSpaceTwice(raw.payload);
    }
  }

  lemma IssuerIs(raw: Section<HttpsPayload>, global: GlobalValues)
    ensures IssuerMeant(raw, global) ==
            var fallback := OrDefault(global.certManagerIssuer, DEFAULT_ISSUER);
            if raw.Decoded? then OrDefault(raw.payload.clusterIssuerName, fallback) else fallback
  {
    BlankIsNoWord();
    FirstOfThree(TextOf(raw, (p: HttpsPayload) => p.clusterIssuerName), global.certManagerIssuer, DEFAULT_ISSUER);
    FirstOfTwo(global.certManagerIssuer, DEFAULT_ISSUER);
    assert Trimmed(DEFAULT_ISSUER);
    TrimSpaceOfTrimmed(DEFAULT_ISSUER);
  }

  lemma SecretIs(raw: Section<HttpsPayload>, global: GlobalValues)
    ensures SecretMeant(raw, global) ==
            var fallback := TrimSpace(global.customSecret);
            if raw.Decoded? then OrDefault(raw.payload.secretName, fallback) else fallback
  {
    BlankIsNoWord();
    FirstOfTwo(TextOf(raw, (p: HttpsPayload) => p.secretName), global.customSecret);
  }

  lemma SettledMeans(raw: Section<HttpsPayload>, global: GlobalValues, mode: HttpsMode)
    requires mode == HttpsModeMeant(raw, global)
    ensures var r := SettleHttps(mode, IssuerMeant(raw, global), SecretMeant(raw, global));
            && (r.Ok? ==> HttpsMeant(raw, global, r.value))
            && (r.Err? <==> mode == CustomCertificateMode && SecretMeant(raw, global) == "")
  {
  }

  lemma HttpsMeans(raw: Section<HttpsPayload>, global: GlobalValues)
    ensures ParseHttps(raw, global).Ok? ==> HttpsMeant(raw, global, ParseHttps(raw, global).value)
    ensures ParseHttps(raw, global).Err? <==> HttpsRejected(raw, global)
  {
    BlankIsNoWord();
    IssuerIs(raw, global);
    SecretIs(raw, global);
    var mode := HttpsModeMeant(raw, global);
    SettledMeans(raw, global, mode);
    assert raw.Missing? || (raw.Decoded? && !IsStrange(raw.payload.mode, ParseHttpsMode(raw.payload.mode))) ==>
        ParseHttps(raw, global) == SettleHttps(mode, IssuerMeant(raw, global), SecretMeant(raw, global));
  }

  /** Not decodable, a mode that is none, or a custom certificate without a secret. */
  ghost predicate HttpsRejected(raw: Section<HttpsPayload>, global: GlobalValues) {
    || raw.Undecodable? || (raw.Decoded? && IsStrange(raw.payload.mode, ParseHttpsMode(raw.payload.mode)))
    || (HttpsModeMeant(raw, global) == CustomCertificateMode && SecretMeant(raw, global) == "")
  }

  /** Digits and a unit, as in 30s, 5m or 1h. */
  ghost predicate IsPeriodText(text: string, digits: string, unit: char) {
    && text == digits + [unit] && digits != "" && (forall i :: 0 <= i < |digits| ==> '0' <= digits[i] <= '9')
    && unit in "smh"
  }

  /** Short enough for 64 bits of nanoseconds. */
  ghost predicate IsShort(digits: string, unit: char) {
    var seconds := if unit == 's' then 1 else if unit == 'm' then 60 else 3600;
    DigitsValue(digits) * seconds * 1_000_000_000 < 0x8000_0000_0000_0000
  }

  ghost predicate IsAcceptedPeriod(text: string) {
    exists digits, unit :: IsPeriodText(text, digits, unit) && IsShort(digits, unit)
  }

  lemma PeriodsAccepted(text: string)
    ensures IsPeriod(text) <==> IsAcceptedPeriod(text)
  {
    if IsPeriod(text) {
      var digits, unit := text[..|text| - 1], text[|text| - 1];
      assert text == digits + [unit];
      assert "smh"[0] == 's' && "smh"[1] == 'm' && "smh"[2] == 'h';
      assert IsPeriodText(text, digits, unit) && IsShort(digits, unit);
    }
    if IsAcceptedPeriod(text) {
      var digits, unit :| IsPeriodText(text, digits, unit) && IsShort(digits, unit);
      assert text[..|text| - 1] == digits && text[|text| - 1] == unit;
    }
  }

  lemma InventoryMeans(raw: Section<string>)
    ensures ParseInventory(raw).Ok? ==> ParseInventory(raw).value == TrimSpace(TextOf(raw, (p: string) => p))
    ensures ParseInventory(raw).Err? <==>
            || raw.Undecodable?
            || (raw.Decoded? && TrimSpace(raw.payload) != "" && !IsAcceptedPeriod(TrimSpace(raw.payload)))
  {
    BlankIsNoWord();
    if raw.Decoded? {
      PeriodsAccepted(TrimSpace(raw.payload));
    }
  }

  /** Toleration keys are in the order in which they first occur. */
  lemma KeyOrder(keys: seq<string>, i: nat, j: nat, b: nat) returns (a: nat)
    requires i < j < |CleanKeys(keys)| && b < |keys| && TrimSpace(keys[b]) == CleanKeys(keys)[j]
    ensures a < b && TrimSpace(keys[a]) == CleanKeys(keys)[i]
  {
    a := FirstOccurrenceOrder(TrimAll(keys), NonBlank, i, j, b);
  }

  // ---------- device approval ----------

  ghost predicate TakesValues(o: Operator) {
    o == In || o == NotIn
  }

  ghost predicate HasValue(p: ExpressionPayload) {
    exists i :: 0 <= i < |p.values| && TrimSpace(p.values[i]) != ""
  }

  /** Operator, key and values as given, trimmed and without blanks. */
  ghost predicate ExpressionMeant(p: ExpressionPayload, e: Expression) {
    && ParseOperator(p.operator) == Some(e.operator) && e.key == TrimSpace(p.key)
    && e.values == Filter(seq(|p.values|, i requires 0 <= i < |p.values| => TrimSpace(p.values[i])), NonBlank)
  }

  /** Unknown operator, blank key, or values where there must be none or none where there must be some. */
  ghost predicate ExpressionRejected(p: ExpressionPayload) {
    var operator := ParseOperator(p.operator);
    operator.None? || TrimSpace(p.key) == "" || TakesValues(operator.value) != HasValue(p)
  }

  lemma ValuesGiven(p: ExpressionPayload)
    ensures CleanValues(p.values) != [] <==> HasValue(p)
  {
    var trimmed := TrimAll(p.values);
    FilterMembers(trimmed, NonBlank);
    if i :| 0 <= i < |p.values| && TrimSpace(p.values[i]) != "" {
      assert trimmed[i] in Filter(trimmed, NonBlank);
    }
    if CleanValues(p.values) != [] {
      assert CleanValues(p.values)[0] in trimmed;
      var i :| 0 <= i < |trimmed| && trimmed[i] == CleanValues(p.values)[0];
    }
  }

  lemma ExpressionMeans(p: ExpressionPayload)
    ensures ParseExpression(p).Err? <==> ExpressionRejected(p)
    ensures ParseExpression(p).Ok? ==> ExpressionMeant(p, ParseExpression(p).value)
  {
    ValuesGiven(p);
    assert TrimAll(p.values) == seq(|p.values|, i requires 0 <= i < |p.values| => TrimSpace(p.values[i]));
  }

  ghost predicate ExpressionsMeant(ps: seq<ExpressionPayload>, es: seq<Expression>) {
    |es| == |ps| && forall i :: 0 <= i < |ps| ==> ExpressionMeant(ps[i], es[i])
  }

  /** One by one, up to the first that fails. */
  lemma {:induction false} ExpressionsOneByOne(ps: seq<ExpressionPayload>, i: nat)
    requires ParseExpressions(ps).Ok?
    ensures |ParseExpressions(ps).value| == |ps|
    ensures i < |ps| ==> ParseExpression(ps[i]) == Ok(ParseExpressions(ps).value[i])
  {
    if ps != [] {
      ExpressionsOneByOne(ps[..|ps| - 1], i);
    }
  }

  lemma {:induction false} ExpressionsFail(ps: seq<ExpressionPayload>) returns (i: nat)
    requires ParseExpressions(ps).Err?
    ensures i < |ps| && ParseExpression(ps[i]).Err?
  {
    i := |ps| - 1;
    if ParseExpressions(ps[..i]).Err? {
      i := ExpressionsFail(ps[..i]);
    }
  }

  lemma ExpressionsMean(ps: seq<ExpressionPayload>)
    ensures ParseExpressions(ps).Err? <==> exists i :: 0 <= i < |ps| && ExpressionRejected(ps[i])
    ensures ParseExpressions(ps).Ok? ==> ExpressionsMeant(ps, ParseExpressions(ps).value)
  {
    if ParseExpressions(ps).Err? {
      var i := ExpressionsFail(ps);
      ExpressionMeans(ps[i]);
    } else {
      ExpressionsOneByOne(ps, 0);
      forall i | 0 <= i < |ps|
        ensures !ExpressionRejected(ps[i]) && ExpressionMeant(ps[i], ParseExpressions(ps).value[i])
      {
        ExpressionsOneByOne(ps, i);
        ExpressionMeans(ps[i]);
      }
    }
  }

  ghost predicate LabelRejected(k: string, v: string) {
    TrimSpace(k) == "" || TrimSpace(v) == ""
  }

  ghost predicate SelectorRejected(p: SelectorPayload) {
    || (exists k :: k in p.matchLabels && LabelRejected(k, p.matchLabels[k]))
    || (exists i :: 0 <= i < |p.matchExpressions| && ExpressionRejected(p.matchExpressions[i]))
    || (p.matchLabels == map[] && p.matchExpressions == [])
  }

  ghost predicate SelectorMeant(p: SelectorPayload, s: Selector) {
    IsTrimmedLabels(p.matchLabels, s.matchLabels) && ExpressionsMeant(p.matchExpressions, s.matchExpressions)
  }

  lemma SelectorMeans(p: SelectorPayload, r: Result<Selector>)
    ensures IsSelector(p, r) ==> (r.Err? <==> SelectorRejected(p)) && (r.Ok? ==> SelectorMeant(p, r.value))
  {
    ExpressionsMean(p.matchExpressions);
    assert LabelsAccepted(p.matchLabels) <==> forall k :: k in p.matchLabels ==> !LabelRejected(k, p.matchLabels[k]);
  }

  /** The mode named, or Manual; a selector exactly when the mode asks for one and it is given. */
  ghost predicate ApprovalMeant(raw: Section<ApprovalPayload>, a: Approval) {
    var named := ParseMode(TextOf(raw, (p: ApprovalPayload) => p.mode));
    && a.mode == (if named.Some? then named.value else Manual)
    && (a.selector.Some? <==> a.mode == BySelector && raw.Decoded? && raw.payload.selector.Decoded?)
    && (a.selector.Some? ==> SelectorMeant(raw.payload.selector.payload, a.selector.value))
  }

  ghost predicate ApprovalRejected(raw: Section<ApprovalPayload>) {
    || raw.Undecodable?
    || (raw.Decoded?
        && (|| IsStrange(raw.payload.mode, ParseMode(raw.payload.mode))
            || (ParseMode(raw.payload.mode) == Some(BySelector)
                && (raw.payload.selector.Undecodable?
                    || (raw.payload.selector.Decoded? && SelectorRejected(raw.payload.selector.payload))))))
  }

  lemma ApprovalMeans(raw: Section<ApprovalPayload>, r: Result<Approval>)
    ensures IsApproval(raw, r) ==> (r.Err? <==> ApprovalRejected(raw)) && (r.Ok? ==> ApprovalMeant(raw, r.value))
  {
    BlankIsNoWord();
    if IsApproval(raw, r) && raw.Decoded? && raw.payload.selector.Decoded? {
      var p := raw.payload.selector.payload;
      forall s ensures IsSelector(p, s) ==> (s.Err? <==> SelectorRejected(p)) && (s.Ok? ==> SelectorMeant(p, s.value)) {
        SelectorMeans(p, s);
      }
    }
  }

  // ---------- the whole configuration ----------

  /** What every field of a parsed state is, in terms of the input. */
  ghost predicate StateMeant(input: Input, st: State) {
    var raw := input.settings;
    && (st.enabled <==> input.enabled == Some(true))
    && ManagedMeant(raw.managedNodes, st.managed) && ApprovalMeant(raw.deviceApproval, st.approval)
    && SchedulingMeant(raw.scheduling, st.scheduling)
    && (st.serviceMonitor <==> raw.monitoring != Decoded(Some(false)))
    && LevelMeant(raw.logLevel, st.logLevel)
    && st.tolerationKeys == (if raw.placement.Decoded? then CleanKeys(raw.placement.payload) else [])
    && st.resyncPeriod == TrimSpace(TextOf(raw.inventory, (p: string) => p))
    && HttpsMeant(raw.https, input.global, st.https)
    && st.highAvailability == (if raw.highAvailability.Decoded? then Some(raw.highAvailability.payload) else None)
  }

  /** Some section is rejected; placement and high availability never are. */
  ghost predicate Rejected(input: Input) {
    var raw := input.settings;
    || raw.managedNodes.Undecodable? || ApprovalRejected(raw.deviceApproval)
    || raw.scheduling.Undecodable?
    || (raw.scheduling.Decoded?
        && IsStrange(raw.scheduling.payload.defaultStrategy, ParseStrategy(raw.scheduling.payload.defaultStrategy)))
    || raw.monitoring.Undecodable?
    || raw.logLevel.Undecodable?
    || (raw.logLevel.Decoded? && IsStrange(raw.logLevel.payload, ParseLevel(raw.logLevel.payload)))
    || raw.inventory.Undecodable?
    || (raw.inventory.Decoded? && TrimSpace(raw.inventory.payload) != ""
        && !IsAcceptedPeriod(TrimSpace(raw.inventory.payload)))
    || HttpsRejected(raw.https, input.global)
  }

  /** Parsing fails exactly on rejected inputs, and otherwise every field is what the input says. */
  lemma ParsedMeans(input: Input, r: Result<State>)
    ensures IsParse(input, r) ==> (r.Err? <==> Rejected(input)) && (r.Ok? ==> StateMeant(input, r.value))
  {
    var raw := input.settings;
    ManagedMeans(raw.managedNodes);
    SchedulingMeans(raw.scheduling);
    LevelMeans(raw.logLevel);
    InventoryMeans(raw.inventory);
    HttpsMeans(raw.https, input.global);
    if IsParse(input, r) {
      var approval :| IsApproval(raw.deviceApproval, approval) && r == Assemble(ParseSections(input, approval));
      ApprovalMeans(raw.deviceApproval, approval);
    }
  }
}
