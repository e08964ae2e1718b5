/**
 When more attempts and more ports can lower a severity. The attack type changes with the context, so
 this is a question about the rules; it is decided by a finite comparison of their conditions.
 */
module SeverityOrder {
  import opened Events
  import opened Sequences
  import opened Classifier

  /** The events the collector accepts. */
  predicate Observable(event: AttackEvent) {
    event.protocol == "ssh" || event.protocol == "http"
  }

  ghost predicate NoDrop(rules: DetectionRules, event: AttackEvent, a: IPContext, b: IPContext) {
    SeverityRank(Classify(rules, event, a).severity) <= SeverityRank(Classify(rules, event, b).severity)
  }

  /** A richer context never lowers the severity of any event, whatever type it gets. */
  ghost predicate SeverityNeverDrops(rules: DetectionRules) {
    forall event: AttackEvent, a: IPContext, b: IPContext | Observable(event) && 0 <= a.recentAttempts && Below(a, b) ::
      NoDrop(rules, event, a, b)
  }

  /** The rank of the severity of an attack type at some number of attempts. */
  function Level(rules: DetectionRules, attackType: string, attempts: int): int {
    SeverityRank(Evaluate(rules, attackType, IPContext(attempts, {})))
  }

  /** The first number of attempts at which a condition applies. */
  function Start(c: SeverityCondition): int {
    if c.minAttempts.Some? && c.minAttempts.value > 0 then c.minAttempts.value else 0
  }

  predicate Within(attempts: int, until: Option<int>) {
    until.Some? ==> attempts < until.value
  }

  /** Compared wherever a HIGH or MEDIUM condition for `x` starts to apply, `x` is not above `y`. */
  predicate NeverAbove(rules: DetectionRules, x: string, y: string, until: Option<int>) {
    forall c | c in rules.high + rules.medium && c.attackType == x && Within(Start(c), until) ::
      Level(rules, x, Start(c)) <= Level(rules, y, Start(c))
  }

  /** Some listed path is not itself an injection, so an HTTP scan can occur. */
  predicate ScanPossible(rules: DetectionRules) {
    exists p | p in rules.httpScanPaths :: !ContainsAny(Some(p), rules.injectionPatterns)
  }

  /**
   The finite check. A port scan must rank no lower than what it replaces, and a brute force at its
   threshold no lower than what it replaces one attempt earlier.
   */
  predicate SeveritiesOrdered(rules: DetectionRules) {
    var protocol, threshold := rules.bruteForceProtocol, rules.bruteForceMinAttempts;
    NeverAbove(rules, SUSPICIOUS, PORT_SCAN, None) &&
    (ScanPossible(rules) ==>
       NeverAbove(rules, HTTP_SCAN, PORT_SCAN, if protocol == "http" then Some(threshold) else None)) &&
    (protocol in {"ssh", "http"} ==>
       Level(rules, SUSPICIOUS, threshold - 1) <= Level(rules, BRUTE_FORCE, threshold) &&
       Level(rules, PORT_SCAN, threshold - 1) <= Level(rules, BRUTE_FORCE, threshold)) &&
    (protocol == "http" && ScanPossible(rules) ==>
       Level(rules, HTTP_SCAN, threshold - 1) <= Level(rules, BRUTE_FORCE, threshold))
  }

  /** What the rule file demands of its thresholds. */
  predicate WellFormed(rules: DetectionRules) {
    rules.bruteForceMinAttempts >= 1 && rules.portScanMinPorts >= 1
  }

  // ----- Levels -----

  lemma LevelIsSeverity(rules: DetectionRules, event: AttackEvent, context: IPContext)
    ensures SeverityRank(Classify(rules, event, context).severity) ==
            Level(rules, DetermineAttackType(rules, event, context), context.recentAttempts)
  {}

  lemma LevelMonotone(rules: DetectionRules, attackType: string, m: int, n: int)
    requires m <= n
    ensures 0 <= Level(rules, attackType, m) <= Level(rules, attackType, n)
  {}

  /** A level above LOW began with some condition. */
  lemma LevelBegins(rules: DetectionRules, attackType: string, n: int) returns (c: SeverityCondition)
    requires 0 <= n && Level(rules, attackType, n) > 0
    ensures c in rules.high + rules.medium && c.attackType == attackType
    ensures Start(c) <= n && Level(rules, attackType, Start(c)) >= Level(rules, attackType, n)
  {
    var context := IPContext(n, {});
    var s := Evaluate(rules, attackType, context);
    c :| c in Conditions(rules, s) && Applies(c, attackType, context);
    assert Applies(c, attackType, IPContext(Start(c), {}));
    assert Supported(rules, attackType, IPContext(Start(c), {}), s);
  }

  /** The finite comparison covers every number of attempts. */
  lemma NeverAboveIff(rules: DetectionRules, x: string, y: string, until: Option<int>)
    ensures NeverAbove(rules, x, y, until) <==>
            forall n | 0 <= n && Within(n, until) :: Level(rules, x, n) <= Level(rules, y, n)
  {
    if NeverAbove(rules, x, y, until) {
      forall n | 0 <= n && Within(n, until)
        ensures Level(rules, x, n) <= Level(rules, y, n)
      {
        LevelMonotone(rules, y, n, n);
        if Level(rules, x, n) > 0 {
          var c := LevelBegins(rules, x, n);
          assert Level(rules, x, Start(c)) <= Level(rules, y, Start(c));
          LevelMonotone(rules, y, Start(c), n);
        }
      }
    }
  }

  // ----- Sufficiency -----

  lemma ContainsInLonger(path: string, prefix: string, pattern: string)
    requires prefix <= path && Contains(prefix, pattern)
    ensures Contains(path, pattern)
  {
    var i :| 0 <= i <= |prefix| && OccursAt(prefix, pattern, i);
    assert path[i..i + |pattern|] == prefix[i..i + |pattern|];
    assert OccursAt(path, pattern, i);
  }

  lemma ScanSeen(rules: DetectionRules, event: AttackEvent)
    requires IsHttpScan(rules, event) && !IsCommandInjection(rules, event)
    ensures ScanPossible(rules) && event.protocol == "http"
  {
    var path := TextAt(event.rawData, "path").value;
    var p :| p in rules.httpScanPaths && p <= path;
    if ContainsAny(Some(p), rules.injectionPatterns) {
      var q :| q in rules.injectionPatterns && Contains(p, q);
      ContainsInLonger(path, p, q);
    }
  }

  /** Only port scans and brute forces replace other types, and only within their thresholds. */
  lemma TypeChanges(rules: DetectionRules, event: AttackEvent, a: IPContext, b: IPContext)
    requires Below(a, b)
    ensures var x, y := DetermineAttackType(rules, event, a), DetermineAttackType(rules, event, b);
            var threshold := rules.bruteForceMinAttempts;
            x == y ||
            (y == PORT_SCAN && x in {HTTP_SCAN, SUSPICIOUS} &&
             (event.protocol == rules.bruteForceProtocol ==> b.recentAttempts < threshold)) ||
            (y == BRUTE_FORCE && x in {PORT_SCAN, HTTP_SCAN, SUSPICIOUS} && event.protocol == rules.bruteForceProtocol &&
             a.recentAttempts < threshold <= b.recentAttempts)
    ensures DetermineAttackType(rules, event, a) == HTTP_SCAN ==>
              IsHttpScan(rules, event) && !IsCommandInjection(rules, event)
  {
    hide IsHttpScan, IsCommandInjection, IsCredentialAttack;
    SubsetSize(a.distinctPorts, b.distinctPorts);
  }

  lemma ToPortScan(rules: DetectionRules, x: string, m: int, n: int, protocol: string)
    requires SeveritiesOrdered(rules) && 0 <= m <= n
    requires x == SUSPICIOUS || (x == HTTP_SCAN && ScanPossible(rules) && protocol == "http")
    requires protocol == rules.bruteForceProtocol ==> n < rules.bruteForceMinAttempts
    ensures Level(rules, x, m) <= Level(rules, PORT_SCAN, n)
  {
    hide Level, NeverAbove, ScanPossible;
    LevelMonotone(rules, x, m, n);
    var until := if x == HTTP_SCAN && rules.bruteForceProtocol == "http" then Some(rules.bruteForceMinAttempts) else None;
    NeverAboveIff(rules, x, PORT_SCAN, until);
    assert Within(n, until);
  }

  lemma ToBruteForce(rules: DetectionRules, x: string, m: int, n: int)
    requires SeveritiesOrdered(rules) && m < rules.bruteForceMinAttempts <= n && rules.bruteForceProtocol in {"ssh", "http"}
    requires x == SUSPICIOUS || x == PORT_SCAN || (x == HTTP_SCAN && ScanPossible(rules) && rules.bruteForceProtocol == "http")
    ensures Level(rules, x, m) <= Level(rules, BRUTE_FORCE, n)
  {
    hide Level, NeverAbove, ScanPossible;
    LevelMonotone(rules, x, m, rules.bruteForceMinAttempts - 1);
    LevelMonotone(rules, BRUTE_FORCE, rules.bruteForceMinAttempts, n);
  }

  lemma OrderedNeverDrops(rules: DetectionRules, event: AttackEvent, a: IPContext, b: IPContext)
    requires SeveritiesOrdered(rules)
    requires Observable(event) && 0 <= a.recentAttempts && Below(a, b)
    ensures NoDrop(rules, event, a, b)
  {
    hide Level, SeveritiesOrdered, ScanPossible, DetermineAttackType, Classify, IsHttpScan, IsCommandInjection;
    var m, n := a.recentAttempts, b.recentAttempts;
    var x, y := DetermineAttackType(rules, event, a), DetermineAttackType(rules, event, b);
    LevelIsSeverity(rules, event, a);
    LevelIsSeverity(rules, event, b);
    TypeChanges(rules, event, a, b);
    if x == HTTP_SCAN {
      ScanSeen(rules, event);
    }
    if x == y {
      LevelMonotone(rules, x, m, n);
    } else if y == PORT_SCAN {
      ToPortScan(rules, x, m, n, event.protocol);
    } else {
      ToBruteForce(rules, x, m, n);
    }
  }

  // ----- Necessity -----

  /** An event that nothing but the context can make suspicious. */
  function Plain(protocol: string): AttackEvent {
    AttackEvent(0, 0, "", 0, 0, protocol, "", map[])
  }

  function Scan(path: string): AttackEvent {
    AttackEvent(0, 0, "", 0, 0, "http", "http_request", map["path" := Text(path)])
  }

  function FirstPorts(n: nat): (ports: set<int>)
    ensures |ports| == n && forall p :: p in ports <==> 0 <= p < n
  {
    if n == 0 then {} else FirstPorts(n - 1) + {n - 1}
  }

  lemma PlainTypes(rules: DetectionRules, protocol: string, context: IPContext)
    requires protocol in {"ssh", "http"}
    ensures DetermineAttackType(rules, Plain(protocol), context) ==
            if IsBruteForce(rules, Plain(protocol), context) then BRUTE_FORCE
            else if IsPortScan(rules, context) then PORT_SCAN
            else SUSPICIOUS
  {}

  lemma ScanTypes(rules: DetectionRules, path: string, context: IPContext)
    requires path in rules.httpScanPaths && !ContainsAny(Some(path), rules.injectionPatterns)
    ensures DetermineAttackType(rules, Scan(path), context) ==
            if IsBruteForce(rules, Scan(path), context) then BRUTE_FORCE
            else if IsPortScan(rules, context) then PORT_SCAN
            else HTTP_SCAN
  {}

  /** One comparison read off from one event and two contexts. */
  lemma Compare(rules: DetectionRules, event: AttackEvent, m: int, n: int, few: set<int>, many: set<int>)
    requires SeverityNeverDrops(rules) && Observable(event) && 0 <= m <= n && few <= many
    ensures Level(rules, DetermineAttackType(rules, event, IPContext(m, few)), m) <=
            Level(rules, DetermineAttackType(rules, event, IPContext(n, many)), n)
  {
    var a, b := IPContext(m, few), IPContext(n, many);
    assert NoDrop(rules, event, a, b);
    LevelIsSeverity(rules, event, a);
    LevelIsSeverity(rules, event, b);
  }

  lemma PlainPortScans(rules: DetectionRules)
    requires WellFormed(rules) && SeverityNeverDrops(rules)
    ensures NeverAbove(rules, SUSPICIOUS, PORT_SCAN, None)
  {
    hide Level, NeverAbove, SeverityNeverDrops, DetermineAttackType, Plain;
    var ports := FirstPorts(rules.portScanMinPorts);
    var other := if rules.bruteForceProtocol == "ssh" then "http" else "ssh";
    PlainProtocol(other);
    forall n | 0 <= n && Within(n, None)
      ensures Level(rules, SUSPICIOUS, n) <= Level(rules, PORT_SCAN, n)
    {
      PlainTypes(rules, other, IPContext(n, {}));
      PlainTypes(rules, other, IPContext(n, ports));
      Compare(rules, Plain(other), n, n, {}, ports);
    }
    NeverAboveIff(rules, SUSPICIOUS, PORT_SCAN, None);
  }

  lemma PlainProtocol(protocol: string)
    ensures Plain(protocol).protocol == protocol
  {}

  lemma ScanProtocol(path: string)
    ensures Scan(path).protocol == "http"
  {}

  lemma PlainBruteForce(rules: DetectionRules, ports: set<int>)
    requires WellFormed(rules) && SeverityNeverDrops(rules) && rules.bruteForceProtocol in {"ssh", "http"}
    ensures var threshold := rules.bruteForceMinAttempts;
            Level(rules, if |ports| >= rules.portScanMinPorts then PORT_SCAN else SUSPICIOUS, threshold - 1) <=
            Level(rules, BRUTE_FORCE, threshold)
  {
    hide Level, NeverAbove, SeverityNeverDrops, DetermineAttackType, Plain;
    var protocol, threshold := rules.bruteForceProtocol, rules.bruteForceMinAttempts;
    PlainProtocol(protocol);
    PlainTypes(rules, protocol, IPContext(threshold - 1, ports));
    PlainTypes(rules, protocol, IPContext(threshold, ports));
    Compare(rules, Plain(protocol), threshold - 1, threshold, ports, ports);
  }

  lemma ScanPortScans(rules: DetectionRules, path: string, until: Option<int>)
    requires WellFormed(rules) && SeverityNeverDrops(rules)
    requires path in rules.httpScanPaths && !ContainsAny(Some(path), rules.injectionPatterns)
    requires until == if rules.bruteForceProtocol == "http" then Some(rules.bruteForceMinAttempts) else None
    ensures NeverAbove(rules, HTTP_SCAN, PORT_SCAN, until)
  {
    hide Level, NeverAbove, SeverityNeverDrops, DetermineAttackType, ContainsAny, Scan;
    var ports := FirstPorts(rules.portScanMinPorts);
    ScanProtocol(path);
    forall n | 0 <= n && Within(n, until)
      ensures Level(rules, HTTP_SCAN, n) <= Level(rules, PORT_SCAN, n)
    {
      ScanTypes(rules, path, IPContext(n, {}));
      ScanTypes(rules, path, IPContext(n, ports));
      Compare(rules, Scan(path), n, n, {}, ports);
    }
    NeverAboveIff(rules, HTTP_SCAN, PORT_SCAN, until);
  }

  lemma ScanBruteForce(rules: DetectionRules, path: string)
    requires WellFormed(rules) && SeverityNeverDrops(rules) && rules.bruteForceProtocol == "http"
    requires path in rules.httpScanPaths && !ContainsAny(Some(path), rules.injectionPatterns)
    ensures var threshold := rules.bruteForceMinAttempts;
            Level(rules, HTTP_SCAN, threshold - 1) <= Level(rules, BRUTE_FORCE, threshold)
  {
    hide Level, NeverAbove, SeverityNeverDrops, DetermineAttackType, ContainsAny, Scan;
    var threshold := rules.bruteForceMinAttempts;
    ScanProtocol(path);
    ScanTypes(rules, path, IPContext(threshold - 1, {}));
    ScanTypes(rules, path, IPContext(threshold, {}));
    Compare(rules, Scan(path), threshold - 1, threshold, {}, {});
  }

  lemma NeverDropsIsOrdered(rules: DetectionRules)
    requires WellFormed(rules) && SeverityNeverDrops(rules)
    ensures SeveritiesOrdered(rules)
  {
    hide Level, NeverAbove, NoDrop, ContainsAny, SeverityNeverDrops;
    PlainPortScans(rules);
    if rules.bruteForceProtocol in {"ssh", "http"} {
      PlainBruteForce(rules, {});
      PlainBruteForce(rules, FirstPorts(rules.portScanMinPorts));
    }
    if ScanPossible(rules) {
      var path :| path in rules.httpScanPaths && !ContainsAny(Some(path), rules.injectionPatterns);
      ScanPortScans(rules, path, if rules.bruteForceProtocol == "http" then Some(rules.bruteForceMinAttempts) else None);
      if rules.bruteForceProtocol == "http" {
        ScanBruteForce(rules, path);
      }
    }
  }

  /** The exact condition on the rules, for all of them. */
  lemma SeverityNeverDropsIff(rules: DetectionRules)
    requires WellFormed(rules)
    ensures SeverityNeverDrops(rules) <==> SeveritiesOrdered(rules)
  {
    if SeverityNeverDrops(rules) {
      NeverDropsIsOrdered(rules);
    } else {
      var event: AttackEvent, a: IPContext, b: IPContext :|
        Observable(event) && 0 <= a.recentAttempts && Below(a, b) && !NoDrop(rules, event, a, b);
      Dropped(rules, event, a, b);
    }
  }

  // ----- The shipped rules -----

  /** The rules as shipped: brute force from 5 attempts, port scan from 3 ports. */
  function ShippedRules(): DetectionRules {
    DetectionRules(
      "ssh", 5, 3,
      ["/admin", "/wp-admin", "/wp-login.php", "/phpmyadmin", "/.env", "/.git", "/administrator", "/manager/html"],
      ["root", "admin", "administrator", "test", "user", "oracle", "postgres", "ubuntu"],
      ["123456", "password", "admin", "root", "12345678", "qwerty"],
      true,
      ["admin@example.com", "root@localhost", "test@test.com", "admin@admin.com", "user@example.com"],
      [";", "|", "$(", "&&", "../", "`", "wget ", "curl ", "/bin/sh", "/bin/bash"],
      [SeverityCondition(BRUTE_FORCE, Some(100)), SeverityCondition(COMMAND_INJECTION, None),
       SeverityCondition(CREDENTIAL_ATTACK, Some(50))],
      [SeverityCondition(BRUTE_FORCE, Some(20)), SeverityCondition(PORT_SCAN, None),
       SeverityCondition(CREDENTIAL_ATTACK, None)],
      [SeverityCondition(HTTP_SCAN, None), SeverityCondition(BRUTE_FORCE, None), SeverityCondition(SUSPICIOUS, None)])
  }

  /** The severities of port scans and brute forces under the shipped conditions. */
  lemma ShippedSeverities(rules: DetectionRules, ports: set<int>)
    requires rules.high == ShippedRules().high && rules.medium == ShippedRules().medium
    ensures Evaluate(rules, PORT_SCAN, IPContext(4, ports)) == MEDIUM
    ensures Evaluate(rules, BRUTE_FORCE, IPContext(5, ports)) == LOW
  {
    assert rules.medium[1] == SeverityCondition(PORT_SCAN, None);
    assert Applies(rules.medium[1], PORT_SCAN, IPContext(4, ports));
    assert forall c | c in rules.high :: !Applies(c, PORT_SCAN, IPContext(4, ports));
    assert forall c | c in rules.high :: !Applies(c, BRUTE_FORCE, IPContext(5, ports));
    assert forall c | c in rules.medium :: !Applies(c, BRUTE_FORCE, IPContext(5, ports));
  }

  lemma ShippedThresholds()
    ensures var rules := ShippedRules();
            rules.bruteForceProtocol == "ssh" && rules.bruteForceMinAttempts == 5 && rules.portScanMinPorts == 3
  {}

  /** They fail the check: a MEDIUM port scan at 4 attempts becomes a LOW brute force at 5. */
  lemma ShippedRulesDrop()
    ensures !SeveritiesOrdered(ShippedRules()) && !SeverityNeverDrops(ShippedRules())
    ensures Classify(ShippedRules(), Plain("ssh"), IPContext(4, {22, 80, 8080})) == ClassificationResult(PORT_SCAN, MEDIUM)
    ensures Classify(ShippedRules(), Plain("ssh"), IPContext(5, {22, 80, 8080})) == ClassificationResult(BRUTE_FORCE, LOW)
  {
    var rules, ports := ShippedRules(), {22, 80, 8080};
    assert |ports| == 3;
    ShippedThresholds();
    ShippedSeverities(rules, ports);
    hide ShippedRules, Evaluate, SeveritiesOrdered, SeverityNeverDrops, DetermineAttackType;
    PlainTypes(rules, "ssh", IPContext(4, ports));
    PlainTypes(rules, "ssh", IPContext(5, ports));
    Dropped(rules, Plain("ssh"), IPContext(4, ports), IPContext(5, ports));
  }

  lemma Dropped(rules: DetectionRules, event: AttackEvent, a: IPContext, b: IPContext)
    requires Observable(event) && 0 <= a.recentAttempts && Below(a, b) && !NoDrop(rules, event, a, b)
    ensures !SeveritiesOrdered(rules) && !SeverityNeverDrops(rules)
  {
    if SeveritiesOrdered(rules) {
      OrderedNeverDrops(rules, event, a, b);
    }
  }
}
