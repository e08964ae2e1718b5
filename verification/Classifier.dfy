/** The attack classifier and the severity evaluator, for arbitrary detection rules. */
module Classifier {
  import opened Events
  import opened Sequences

  const COMMAND_INJECTION := "command_injection"
  const CREDENTIAL_ATTACK := "credential_attack"
  const BRUTE_FORCE := "brute_force"
  const PORT_SCAN := "port_scan"
  const HTTP_SCAN := "http_scan"
  const SUSPICIOUS := "suspicious_request"

  const HIGH := "HIGH"
  const MEDIUM := "MEDIUM"
  const LOW := "LOW"

  const ATTACK_TYPES := {COMMAND_INJECTION, CREDENTIAL_ATTACK, BRUTE_FORCE, PORT_SCAN, HTTP_SCAN, SUSPICIOUS}
  const SEVERITIES := {HIGH, MEDIUM, LOW}

  datatype IPContext = IPContext(recentAttempts: int, distinctPorts: set<int>)

  /** The empty context of a degraded store. */
  const NO_CONTEXT := IPContext(0, {})

  datatype ClassificationResult = ClassificationResult(attackType: string, severity: string)

  datatype SeverityCondition = SeverityCondition(attackType: string, minAttempts: Option<int>)

  datatype DetectionRules = DetectionRules(
    bruteForceProtocol: string,
    bruteForceMinAttempts: int,
    portScanMinPorts: int,
    httpScanPaths: seq<string>,
    usernames: seq<string>,
    passwords: seq<string>,
    httpEnabled: bool,
    emails: seq<string>,
    injectionPatterns: seq<string>,
    high: seq<SeverityCondition>,
    medium: seq<SeverityCondition>,
    low: seq<SeverityCondition>)

  predicate OccursAt(text: string, pattern: string, i: nat) {
    i + |pattern| <= |text| && text[i..i + |pattern|] == pattern
  }

  predicate Contains(text: string, pattern: string) {
    exists i | 0 <= i <= |text| :: OccursAt(text, pattern, i)
  }

  predicate ContainsAny(text: Option<string>, patterns: seq<string>) {
    text.Some? && exists p | p in patterns :: Contains(text.value, p)
  }

  predicate Listed(text: Option<string>, list: seq<string>) {
    text.Some? && text.value in list
  }

  predicate IsCommandInjection(rules: DetectionRules, event: AttackEvent) {
    event.protocol == "http" &&
    (ContainsAny(TextAt(event.rawData, "path"), rules.injectionPatterns) ||
     ContainsAny(TextAt(event.rawData, "body_preview"), rules.injectionPatterns))
  }

  predicate IsCredentialAttack(rules: DetectionRules, event: AttackEvent) {
    if event.protocol == "ssh" then
      Listed(TextAt(event.rawData, "username"), rules.usernames) ||
      Listed(TextAt(event.rawData, "password"), rules.passwords)
    else if event.protocol == "http" && event.eventType == "http_login_attempt" && rules.httpEnabled then
      var email, password := TextAt(event.rawData, "email"), TextAt(event.rawData, "password");
      (email != Some("") && Listed(email, rules.emails)) ||
      (password != Some("") && Listed(password, rules.passwords))
    else
      false
  }

  predicate IsBruteForce(rules: DetectionRules, event: AttackEvent, context: IPContext) {
    event.protocol == rules.bruteForceProtocol && context.recentAttempts >= rules.bruteForceMinAttempts
  }

  predicate IsPortScan(rules: DetectionRules, context: IPContext) {
    |context.distinctPorts| >= rules.portScanMinPorts
  }

  predicate IsHttpScan(rules: DetectionRules, event: AttackEvent) {
    event.protocol == "http" &&
    var path := TextAt(event.rawData, "path");
    path.Some? && exists p | p in rules.httpScanPaths :: p <= path.value
  }

  /** The evidence for one attack type, read on its own and without regard to priority. */
  predicate Indicated(rules: DetectionRules, event: AttackEvent, context: IPContext, attackType: string) {
    if attackType == COMMAND_INJECTION then IsCommandInjection(rules, event)
    else if attackType == CREDENTIAL_ATTACK then IsCredentialAttack(rules, event)
    else if attackType == BRUTE_FORCE then IsBruteForce(rules, event, context)
    else if attackType == PORT_SCAN then IsPortScan(rules, context)
    else if attackType == HTTP_SCAN then IsHttpScan(rules, event)
    else attackType == SUSPICIOUS
  }

  /** The documented priority: command injection highest, suspicious request lowest. */
  function Rank(attackType: string): nat {
    if attackType == COMMAND_INJECTION then 5
    else if attackType == CREDENTIAL_ATTACK then 4
    else if attackType == BRUTE_FORCE then 3
    else if attackType == PORT_SCAN then 2
    else if attackType == HTTP_SCAN then 1
    else 0
  }

  /** `t` is the indicated attack type of highest priority. */
  predicate HighestIndicated(rules: DetectionRules, event: AttackEvent, context: IPContext, t: string) {
    t in ATTACK_TYPES && Indicated(rules, event, context, t) &&
    forall u | u in ATTACK_TYPES && Indicated(rules, event, context, u) :: Rank(u) <= Rank(t)
  }

  /** The decision list picks the indicated attack type of highest priority. */
  function DetermineAttackType(rules: DetectionRules, event: AttackEvent, context: IPContext): (t: string)
    ensures HighestIndicated(rules, event, context, t)
  {
    if IsCommandInjection(rules, event) then COMMAND_INJECTION
    else if IsCredentialAttack(rules, event) then CREDENTIAL_ATTACK
    else if IsBruteForce(rules, event, context) then BRUTE_FORCE
    else if IsPortScan(rules, context) then PORT_SCAN
    else if IsHttpScan(rules, event) then HTTP_SCAN
    else SUSPICIOUS
  }

  function SeverityRank(severity: string): nat {
    if severity == HIGH then 2 else if severity == MEDIUM then 1 else 0
  }

  predicate Applies(c: SeverityCondition, attackType: string, context: IPContext) {
    c.attackType == attackType &&
    (c.minAttempts.Some? ==> context.recentAttempts >= c.minAttempts.value)
  }

  function Conditions(rules: DetectionRules, severity: string): seq<SeverityCondition> {
    if severity == HIGH then rules.high else if severity == MEDIUM then rules.medium else rules.low
  }

  predicate Supported(rules: DetectionRules, attackType: string, context: IPContext, severity: string) {
    exists c | c in Conditions(rules, severity) :: Applies(c, attackType, context)
  }

  /** `s` is the highest level with an applicable condition, LOW when there is none. */
  predicate HighestSupported(rules: DetectionRules, attackType: string, context: IPContext, s: string) {
    s in SEVERITIES && (Supported(rules, attackType, context, s) || s == LOW) &&
    forall u | u in SEVERITIES && Supported(rules, attackType, context, u) :: SeverityRank(u) <= SeverityRank(s)
  }

  /** The first-match scan yields the highest level that has an applicable condition, LOW by default. */
  function Evaluate(rules: DetectionRules, attackType: string, context: IPContext): (s: string)
    ensures HighestSupported(rules, attackType, context, s)
  {
    if exists c | c in rules.high :: Applies(c, attackType, context) then HIGH
    else if exists c | c in rules.medium :: Applies(c, attackType, context) then MEDIUM
    else LOW
  }

  /**
   The labels an event should get: in a context the indicated type of highest priority, with the highest
   level supported for it there; without one the fallback.
   */
  predicate Justified(rules: DetectionRules, event: AttackEvent, context: Option<IPContext>,
                      attackType: string, severity: string)
  {
    if context.Some? then
      HighestIndicated(rules, event, context.value, attackType) &&
      HighestSupported(rules, attackType, context.value, severity)
    else
      attackType == SUSPICIOUS && severity == LOW
  }

  /** A row that carries those labels. */
  predicate RowJustified(rules: DetectionRules, context: Option<IPContext>, row: Row) {
    row.attackType.Some? && row.severity.Some? &&
    Justified(rules, row.event, context, row.attackType.value, row.severity.value)
  }

  /** There is only one justified pair of labels. */
  lemma JustifiedOnce(rules: DetectionRules, context: Option<IPContext>, a: Row, b: Row)
    requires a.event == b.event && RowJustified(rules, context, a) && RowJustified(rules, context, b)
    ensures a == b
  {
    hide Indicated, Supported;
  }

  lemma JustifiedIsLabelled(rules: DetectionRules, event: AttackEvent, context: Option<IPContext>,
                            attackType: string, severity: string)
    requires Justified(rules, event, context, attackType, severity)
    ensures attackType in ATTACK_TYPES && severity in SEVERITIES
  {}

  function Classify(rules: DetectionRules, event: AttackEvent, context: IPContext): (r: ClassificationResult)
    ensures Justified(rules, event, Some(context), r.attackType, r.severity)
  {
    var attackType := DetermineAttackType(rules, event, context);
    ClassificationResult(attackType, Evaluate(rules, attackType, context))
  }

  /** `_classify_event`: any exception falls back to a suspicious request of LOW severity. */
  function ClassifyOrFallBack(rules: DetectionRules, event: AttackEvent, context: Option<IPContext>)
    : (r: ClassificationResult)
    ensures Justified(rules, event, context, r.attackType, r.severity)
  {
    if context.Some? then Classify(rules, event, context.value) else ClassificationResult(SUSPICIOUS, LOW)
  }

  // ----- The evidence, in terms of the event's own fields -----

  predicate Field(event: AttackEvent, key: string, text: string) {
    key in event.rawData && event.rawData[key] == Text(text)
  }

  /** The path or the body preview of an HTTP event has a listed pattern somewhere inside. */
  ghost predicate InjectionEvidence(rules: DetectionRules, event: AttackEvent) {
    event.protocol == "http" &&
    exists before, pattern, after | pattern in rules.injectionPatterns ::
      Field(event, "path", before + pattern + after) || Field(event, "body_preview", before + pattern + after)
  }

  /** A listed user name or password over SSH; a listed, nonempty email or password in an HTTP login attempt. */
  ghost predicate CredentialEvidence(rules: DetectionRules, event: AttackEvent) {
    (event.protocol == "ssh" && exists text ::
       (Field(event, "username", text) && text in rules.usernames) ||
       (Field(event, "password", text) && text in rules.passwords)) ||
    (event.protocol == "http" && event.eventType == "http_login_attempt" && rules.httpEnabled && exists text ::
       text != "" && ((Field(event, "email", text) && text in rules.emails) ||
                      (Field(event, "password", text) && text in rules.passwords)))
  }

  /** The path of an HTTP event starts with a listed one. */
  ghost predicate ScanEvidence(rules: DetectionRules, event: AttackEvent) {
    event.protocol == "http" &&
    exists path, rest | path in rules.httpScanPaths :: Field(event, "path", path + rest)
  }

  lemma ContainsIff(text: string, pattern: string)
    ensures Contains(text, pattern) <==> exists before, after :: text == before + pattern + after
  {
    if Contains(text, pattern) {
      var i :| 0 <= i <= |text| && OccursAt(text, pattern, i);
      assert text == text[..i] + pattern + text[i + |pattern|..];
    }
    if before, after :| text == before + pattern + after {
      assert text[|before|..|before| + |pattern|] == pattern;
      assert OccursAt(text, pattern, |before|);
    }
  }

  lemma InjectionIff(rules: DetectionRules, event: AttackEvent)
    ensures IsCommandInjection(rules, event) <==> InjectionEvidence(rules, event)
  {
    forall text, pattern
      ensures Contains(text, pattern) <==> exists before, after :: text == before + pattern + after
    {
      ContainsIff(text, pattern);
    }
    hide Contains;
    if InjectionEvidence(rules, event) {
      var before, pattern, after :| pattern in rules.injectionPatterns &&
        (Field(event, "path", before + pattern + after) || Field(event, "body_preview", before + pattern + after));
      assert Contains(before + pattern + after, pattern);
    }
  }

  lemma ScanIff(rules: DetectionRules, event: AttackEvent)
    ensures IsHttpScan(rules, event) <==> ScanEvidence(rules, event)
  {
    if IsHttpScan(rules, event) {
      var text := event.rawData["path"].text;
      var p :| p in rules.httpScanPaths && p <= text;
      assert text == p + text[|p|..];
    }
  }

  lemma CredentialIff(rules: DetectionRules, event: AttackEvent)
    ensures IsCredentialAttack(rules, event) <==> CredentialEvidence(rules, event)
  {
    forall key, text
      ensures Field(event, key, text) <==> TextAt(event.rawData, key) == Some(text)
    {}
  }

  /** When each type is chosen, by what the event's fields say and the context counts. */
  lemma TypeIff(rules: DetectionRules, event: AttackEvent, context: IPContext)
    ensures var t := DetermineAttackType(rules, event, context);
            var injected, credential := InjectionEvidence(rules, event), CredentialEvidence(rules, event);
            var brute := event.protocol == rules.bruteForceProtocol &&
                         context.recentAttempts >= rules.bruteForceMinAttempts;
            var ports, scan := |context.distinctPorts| >= rules.portScanMinPorts, ScanEvidence(rules, event);
            (t == COMMAND_INJECTION <==> injected) &&
            (t == CREDENTIAL_ATTACK <==> !injected && credential) &&
            (t == BRUTE_FORCE <==> !injected && !credential && brute) &&
            (t == PORT_SCAN <==> !injected && !credential && !brute && ports) &&
            (t == HTTP_SCAN <==> !injected && !credential && !brute && !ports && scan) &&
            (t == SUSPICIOUS <==> !injected && !credential && !brute && !ports && !scan)
  {
    InjectionIff(rules, event);
    CredentialIff(rules, event);
    ScanIff(rules, event);
    hide IsCommandInjection, IsCredentialAttack, IsHttpScan, InjectionEvidence, CredentialEvidence, ScanEvidence;
  }

  /** When each level is chosen for a type, by the conditions listed under the levels. */
  lemma SeverityIff(rules: DetectionRules, attackType: string, context: IPContext)
    ensures var s := Evaluate(rules, attackType, context);
            var high := exists c | c in rules.high :: c.attackType == attackType &&
                          (c.minAttempts == None || c.minAttempts.value <= context.recentAttempts);
            var medium := exists c | c in rules.medium :: c.attackType == attackType &&
                            (c.minAttempts == None || c.minAttempts.value <= context.recentAttempts);
            (s == HIGH <==> high) && (s == MEDIUM <==> !high && medium) && (s == LOW <==> !high && !medium)
  {}

  /** More attempts and more ports. */
  predicate Below(a: IPContext, b: IPContext) {
    a.recentAttempts <= b.recentAttempts && a.distinctPorts <= b.distinctPorts
  }

  /** A richer context never lowers the priority of the attack type, whatever the rules. */
  lemma TypeMonotone(rules: DetectionRules, event: AttackEvent, a: IPContext, b: IPContext)
    requires Below(a, b)
    ensures Rank(DetermineAttackType(rules, event, a)) <= Rank(DetermineAttackType(rules, event, b))
  {
    SubsetSize(a.distinctPorts, b.distinctPorts);
    assert Indicated(rules, event, b, DetermineAttackType(rules, event, a));
  }

  /** For one attack type, a richer context never lowers the severity, whatever the rules. */
  lemma SeverityMonotone(rules: DetectionRules, attackType: string, a: IPContext, b: IPContext)
    requires Below(a, b)
    ensures SeverityRank(Evaluate(rules, attackType, a)) <= SeverityRank(Evaluate(rules, attackType, b))
  {}

  /**
   Across attack types severity is not monotone: under rules shaped like the shipped ones, one
   more attempt turns a MEDIUM port scan into a LOW brute force.
   */
  lemma SeverityMayDropWithMoreAttempts(rules: DetectionRules, event: AttackEvent, ports: set<int>, n: int)
    requires event.protocol == rules.bruteForceProtocol
    requires !IsCommandInjection(rules, event) && !IsCredentialAttack(rules, event)
    requires n == rules.bruteForceMinAttempts && |ports| >= rules.portScanMinPorts
    requires SeverityCondition(PORT_SCAN, None) in rules.medium
    requires forall c | c in rules.high + rules.medium && c.attackType == BRUTE_FORCE ::
               c.minAttempts.Some? && c.minAttempts.value > n
    ensures Classify(rules, event, IPContext(n, ports)) == ClassificationResult(BRUTE_FORCE, LOW)
    ensures Classify(rules, event, IPContext(n - 1, ports)).attackType == PORT_SCAN
    ensures SeverityRank(Classify(rules, event, IPContext(n - 1, ports)).severity) >= SeverityRank(MEDIUM)
  {}
}
