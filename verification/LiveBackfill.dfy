/**
 The live labels against the ones a backfill would give. A worker classifies every entry it is handed,
 before any commit, so an event delivered twice counts twice in the live window; the table holds it once.
 */
module LiveBackfill {
  import opened Events
  import opened Sequences
  import opened Classifier
  import opened IPContextStore
  import opened Backfill

  /**
   An event reaching a worker: the clock it read, the server's clock when the store call executed, how that
   call ended, and whether classification raised.
   */
  datatype Arrival = Arrival(event: AttackEvent, now: real, served: real, reply: Reply, raised: bool)

  /** The update of an arrival took effect on the server, for this IP. */
  predicate Counts(a: Arrival, ip: string) {
    !a.reply.Unreachable? && a.event.sourceIp == ip
  }

  /** The updates among the first `n` arrivals that took effect on the server. */
  function Effective(arrivals: seq<Arrival>, n: nat): seq<Call>
    requires n <= |arrivals|
  {
    if n == 0 then []
    else
      var a := arrivals[n - 1];
      Effective(arrivals, n - 1) +
      (if a.reply.Unreachable? then [] else [Call(a.event.sourceIp, a.event.destinationPort, a.now, a.served)])
  }

  /** The context the store answers to arrival `i`. */
  function LiveContext(arrivals: seq<Arrival>, i: nat, window: real, inclusive: bool): IPContext
    requires i < |arrivals|
  {
    var server := After(Effective(arrivals, i + 1), window, inclusive);
    var ip := arrivals[i].event.sourceIp;
    if arrivals[i].reply.Answered? && ip in server then ReadBack(server, ip) else NO_CONTEXT
  }

  function LiveLabel(rules: DetectionRules, arrivals: seq<Arrival>, i: nat, window: real, inclusive: bool): ClassificationResult
    requires i < |arrivals|
  {
    ClassifyOrFallBack(rules, arrivals[i].event,
      if arrivals[i].raised then None else Some(LiveContext(arrivals, i, window, inclusive)))
  }

  lemma {:induction false} EffectiveBefore(arrivals: seq<Arrival>, a: Arrival, n: nat)
    requires n <= |arrivals|
    ensures Effective(arrivals + [a], n) == Effective(arrivals, n)
  {
    if n > 0 {
      EffectiveBefore(arrivals, a, n - 1);
    }
  }

  /**
   `_classify_event` for one more arrival, through the store: the labels justified by the context owed to
   the calls so far, by the empty context when no answer came, and the fallback when anything raised.
   */
  method ClassifyEvent(store: IPContextStore, rules: DetectionRules, a: Arrival,
                       ghost arrivals: seq<Arrival>)
    returns (verdict: ClassificationResult)
    requires store.Valid() && store.history == Effective(arrivals, |arrivals|)
    modifies store
    ensures store.Valid() && store.history == Effective(arrivals + [a], |arrivals| + 1)
    ensures verdict == LiveLabel(rules, arrivals + [a], |arrivals|, store.window, store.inclusive)
    ensures a.raised ==> verdict == ClassificationResult("suspicious_request", "LOW")
    ensures !a.raised && !a.reply.Answered? ==>
              Justified(rules, a.event, Some(IPContext(0, {})), verdict.attackType, verdict.severity)
    ensures !a.raised && a.reply.Answered? && Monotone(store.history) ==>
              store.history != [] &&
              exists context | ExactContext(context, store.history, store.window, store.inclusive) ::
                Justified(rules, a.event, Some(context), verdict.attackType, verdict.severity)
  {
    hide Justified, Monotone, ExactContext, After;
    EffectiveBefore(arrivals, a, |arrivals|);
    var context := store.UpdateAndGet(a.event.sourceIp, a.event.destinationPort, a.now, a.served, a.reply);
    verdict := if a.raised then ClassificationResult(SUSPICIOUS, LOW) else Classify(rules, a.event, context);
  }

  function IpAt(arrivals: seq<Arrival>, i: nat): string
    requires i < |arrivals|
  {
    arrivals[i].event.sourceIp
  }

  // ----- Counting arrivals by id -----

  /** The ids counted for `ip` among the first `n` arrivals. */
  function IdsCounted(arrivals: seq<Arrival>, n: nat, ip: string): set<nat>
    requires n <= |arrivals|
  {
    set k | 0 <= k < n && Counts(arrivals[k], ip) :: arrivals[k].event.id
  }

  /** How many of them were counted although their id had been counted before. */
  function Repeats(arrivals: seq<Arrival>, n: nat, ip: string): nat
    requires n <= |arrivals|
  {
    if n == 0 then 0
    else
      Repeats(arrivals, n - 1, ip) +
      (if Counts(arrivals[n - 1], ip) && arrivals[n - 1].event.id in IdsCounted(arrivals, n - 1, ip) then 1 else 0)
  }

  lemma CallsOfExtends(history: seq<Call>, c: Call, ip: string)
    ensures |CallsOf(history + [c], ip)| == |CallsOf(history, ip)| + (if c.ip == ip then 1 else 0)
    ensures Ports(CallsOf(history + [c], ip)) == Ports(CallsOf(history, ip)) + (if c.ip == ip then {c.port} else {})
  {}

  lemma IdsStep(arrivals: seq<Arrival>, n: nat, ip: string)
    requires n < |arrivals|
    ensures IdsCounted(arrivals, n + 1, ip) ==
            IdsCounted(arrivals, n, ip) + (if Counts(arrivals[n], ip) then {arrivals[n].event.id} else {})
  {}

  lemma CallsStep(arrivals: seq<Arrival>, n: nat, ip: string)
    requires n < |arrivals|
    ensures var before, after := CallsOf(Effective(arrivals, n), ip), CallsOf(Effective(arrivals, n + 1), ip);
            var a := arrivals[n];
            |after| == |before| + (if Counts(a, ip) then 1 else 0) &&
            Ports(after) == Ports(before) + (if Counts(a, ip) then {a.event.destinationPort} else {})
  {
    var a, past := arrivals[n], Effective(arrivals, n);
    if a.reply.Unreachable? {
      assert Effective(arrivals, n + 1) == past;
    } else {
      CallsOfExtends(past, Call(a.event.sourceIp, a.event.destinationPort, a.now, a.served), ip);
    }
    hide CallsOf, Ports;
  }

  lemma NothingCounted(arrivals: seq<Arrival>, ip: string)
    ensures CallsOf(Effective(arrivals, 0), ip) == [] && IdsCounted(arrivals, 0, ip) == {} && PortsCounted(arrivals, 0, ip) == {}
    ensures Ports([]) == {}
  {}

  /** The calls of an IP are its distinct ids and its repeats. */
  lemma {:induction false} CallsAreIdsAndRepeats(arrivals: seq<Arrival>, n: nat, ip: string)
    requires n <= |arrivals|
    ensures |CallsOf(Effective(arrivals, n), ip)| == |IdsCounted(arrivals, n, ip)| + Repeats(arrivals, n, ip)
  {
    hide CallsOf, IdsCounted, Effective, Counts, Ports;
    if n > 0 {
      CallsAreIdsAndRepeats(arrivals, n - 1, ip);
      IdsStep(arrivals, n - 1, ip);
      CallsStep(arrivals, n - 1, ip);
    } else {
      NothingCounted(arrivals, ip);
    }
  }

  function PortsCounted(arrivals: seq<Arrival>, n: nat, ip: string): set<int>
    requires n <= |arrivals|
  {
    set k | 0 <= k < n && Counts(arrivals[k], ip) :: arrivals[k].event.destinationPort
  }

  lemma PortsCountedStep(arrivals: seq<Arrival>, n: nat, ip: string)
    requires n < |arrivals|
    ensures PortsCounted(arrivals, n + 1, ip) ==
            PortsCounted(arrivals, n, ip) + (if Counts(arrivals[n], ip) then {arrivals[n].event.destinationPort} else {})
  {}

  lemma {:induction false} CallPorts(arrivals: seq<Arrival>, n: nat, ip: string)
    requires n <= |arrivals|
    ensures Ports(CallsOf(Effective(arrivals, n), ip)) == PortsCounted(arrivals, n, ip)
  {
    hide CallsOf, PortsCounted, Effective, Counts, Ports, IdsCounted;
    if n > 0 {
      CallPorts(arrivals, n - 1, ip);
      PortsCountedStep(arrivals, n - 1, ip);
      CallsStep(arrivals, n - 1, ip);
    } else {
      NothingCounted(arrivals, ip);
    }
  }

  // ----- Against a table -----

  /**
   Row `r` is the event of arrival `i`, and every event of its IP counted so far has an unclassified row
   listed no later: the table tells the story in the order in which the workers saw it.
   */
  ghost predicate Covers(rows: Table, r: nat, arrivals: seq<Arrival>, i: nat) {
    r < |rows| && i < |arrivals| && rows[r].event == arrivals[i].event &&
    forall k | 0 <= k <= i && Counts(arrivals[k], IpAt(arrivals, i)) :: HasRow(rows, r + 1, arrivals[k].event)
  }

  ghost predicate HasRow(rows: Table, n: nat, event: AttackEvent)
    requires n <= |rows|
  {
    exists q | 0 <= q < n :: rows[q] == Row(event, None, rows[q].severity)
  }

  function PendingIds(rows: Table, n: nat, ip: string): set<nat>
    requires n <= |rows|
  {
    set q | 0 <= q < n && Pending(rows[q], ip) :: rows[q].event.id
  }

  lemma {:induction false} PendingIdsAreAttempts(rows: Table, n: nat, ip: string)
    requires n <= |rows|
    ensures |PendingIds(rows, n, ip)| <= Attempts(rows, n, ip)
  {
    if n > 0 {
      PendingIdsAreAttempts(rows, n - 1, ip);
      var more := if Pending(rows[n - 1], ip) then {rows[n - 1].event.id} else {};
      assert PendingIds(rows, n, ip) == PendingIds(rows, n - 1, ip) + more;
    }
  }

  lemma CountedHaveRows(rows: Table, r: nat, arrivals: seq<Arrival>, i: nat)
    requires Covers(rows, r, arrivals, i)
    ensures var ip := IpAt(arrivals, i);
            IdsCounted(arrivals, i + 1, ip) <= PendingIds(rows, r + 1, ip) &&
            PortsCounted(arrivals, i + 1, ip) <= PortsSeen(rows, r + 1, ip)
  {}

  /**
   Whatever the clocks, windows, expiries and lost replies, the live context exceeds the cumulative one
   by no port, and by no more attempts than there were repeats.
   */
  lemma LiveWithinRepeats(rows: Table, r: nat, arrivals: seq<Arrival>, i: nat, window: real, inclusive: bool)
    requires Covers(rows, r, arrivals, i)
    ensures var ip := IpAt(arrivals, i);
            var live, cumulative := LiveContext(arrivals, i, window, inclusive), Cumulative(rows, r + 1, ip);
            live.recentAttempts <= cumulative.recentAttempts + Repeats(arrivals, i + 1, ip) &&
            live.distinctPorts <= cumulative.distinctPorts
  {
    var ip := IpAt(arrivals, i);
    var calls := Effective(arrivals, i + 1);
    CountedHaveRows(rows, r, arrivals, i);
    PendingIdsAreAttempts(rows, r + 1, ip);
    SubsetSize(IdsCounted(arrivals, i + 1, ip), PendingIds(rows, r + 1, ip));
    CallsAreIdsAndRepeats(arrivals, i + 1, ip);
    CallPorts(arrivals, i + 1, ip);
    if ip in After(calls, window, inclusive) {
      NeverMoreThanTotal(calls, ip, window, inclusive);
    }
    hide Effective, After, CallsOf, IdsCounted, PendingIds, PortsSeen, PortsCounted, Attempts, Repeats;
  }

  // ----- Ranks -----

  /** What the rule file demands of its thresholds. */
  predicate Thresholds(rules: DetectionRules) {
    rules.bruteForceMinAttempts >= 1 && rules.portScanMinPorts >= 1
  }

  /** Under all rules, the second context gives the event at least the rank of the first. */
  ghost predicate RanksAtMost(event: AttackEvent, live: IPContext, cumulative: IPContext) {
    forall rules | Thresholds(rules) ::
      Rank(DetermineAttackType(rules, event, live)) <= Rank(DetermineAttackType(rules, event, cumulative))
  }

  predicate NoMore(a: IPContext, b: IPContext) {
    a.recentAttempts <= b.recentAttempts && |a.distinctPorts| <= |b.distinctPorts|
  }

  /** Rules under which nothing but the context counts. */
  function ContextRules(protocol: string, attempts: int, ports: int): DetectionRules {
    DetectionRules(protocol, attempts, ports, [], [], [], false, [], [], [], [], [])
  }

  lemma ContextRulesDecide(event: AttackEvent, attempts: int, ports: int, context: IPContext)
    ensures DetermineAttackType(ContextRules(event.protocol, attempts, ports), event, context) ==
            if context.recentAttempts >= attempts then BRUTE_FORCE
            else if |context.distinctPorts| >= ports then PORT_SCAN
            else SUSPICIOUS
  {}

  lemma CountsDecide(rules: DetectionRules, event: AttackEvent, a: IPContext, b: IPContext)
    requires NoMore(a, b)
    ensures Rank(DetermineAttackType(rules, event, a)) <= Rank(DetermineAttackType(rules, event, b))
  {}

  /** The ranks compare under all rules exactly when the counts do. */
  lemma RanksAtMostIff(event: AttackEvent, live: IPContext, cumulative: IPContext)
    requires 0 <= cumulative.recentAttempts
    ensures RanksAtMost(event, live, cumulative) <==> NoMore(live, cumulative)
  {
    if NoMore(live, cumulative) {
      forall rules | Thresholds(rules)
        ensures Rank(DetermineAttackType(rules, event, live)) <= Rank(DetermineAttackType(rules, event, cumulative))
      {
        CountsDecide(rules, event, live, cumulative);
      }
    } else {
      var attempts, ports := live.recentAttempts, |live.distinctPorts|;
      if attempts <= cumulative.recentAttempts {
        attempts := cumulative.recentAttempts + 1;
      }
      if ports <= |cumulative.distinctPorts| {
        ports := |cumulative.distinctPorts| + 1;
      }
      var rules := ContextRules(event.protocol, attempts, ports);
      ContextRulesDecide(event, attempts, ports, live);
      ContextRulesDecide(event, attempts, ports, cumulative);
      assert Thresholds(rules);
    }
  }

  /**
   The exact relation between a live label and backfill's: for an arrival whose classification did not
   raise, backfill ranks at least as high under all rules if and only if the live context counts no more
   attempts and no more ports than the cumulative one.
   */
  lemma BackfillRanksAtLeastLiveIff(rows: Table, r: nat, arrivals: seq<Arrival>, i: nat, window: real, inclusive: bool)
    requires r < |rows| && i < |arrivals| && rows[r].event == arrivals[i].event && !arrivals[i].raised
    ensures (forall rules | Thresholds(rules) ::
               Rank(LiveLabel(rules, arrivals, i, window, inclusive).attackType) <=
               Rank(Labelled(rules, rows, r).attackType.value))
            <==> NoMore(LiveContext(arrivals, i, window, inclusive), Cumulative(rows, r + 1, IpAt(arrivals, i)))
  {
    var event := arrivals[i].event;
    var live, cumulative := LiveContext(arrivals, i, window, inclusive), Cumulative(rows, r + 1, event.sourceIp);
    RanksAtMostIff(event, live, cumulative);
    forall rules
      ensures LiveLabel(rules, arrivals, i, window, inclusive).attackType == DetermineAttackType(rules, event, live)
      ensures Labelled(rules, rows, r).attackType == Some(DetermineAttackType(rules, event, cumulative))
    {}
  }

  /**
   Without a repeated id among the arrivals counted, backfill never gives an event a lower-priority type
   than the live worker did, for any rules, clocks, windows and store failures.
   */
  lemma BackfillRanksAtLeastLive(rules: DetectionRules, rows: Table, r: nat, arrivals: seq<Arrival>, i: nat,
                                 window: real, inclusive: bool)
    requires Covers(rows, r, arrivals, i) && Repeats(arrivals, i + 1, IpAt(arrivals, i)) == 0
    ensures Rank(LiveLabel(rules, arrivals, i, window, inclusive).attackType) <=
            Rank(Labelled(rules, rows, r).attackType.value)
  {
    var event := arrivals[i].event;
    LiveWithinRepeats(rows, r, arrivals, i, window, inclusive);
    TypeMonotone(rules, event, LiveContext(arrivals, i, window, inclusive),
                 Cumulative(rows, r + 1, event.sourceIp));
  }

  /** The arrivals as unclassified rows, in the order of arrival. */
  function AsRows(arrivals: seq<Arrival>): (rows: Table)
    ensures |rows| == |arrivals|
  {
    seq(|arrivals|, i requires 0 <= i < |arrivals| => Row(arrivals[i].event, None, None))
  }

  /** When every event arrives once and in the table's order, the table covers every arrival. */
  lemma SameStoryCovers(arrivals: seq<Arrival>, i: nat)
    requires i < |arrivals|
    requires forall j, k | 0 <= j < k < |arrivals| :: arrivals[j].event.id != arrivals[k].event.id
    ensures Covers(AsRows(arrivals), i, arrivals, i) && Repeats(arrivals, i + 1, IpAt(arrivals, i)) == 0
  {
    var rows := AsRows(arrivals);
    forall k | 0 <= k <= i
      ensures HasRow(rows, i + 1, arrivals[k].event)
    {
      assert rows[k] == Row(arrivals[k].event, None, rows[k].severity);
    }
    NoRepeats(arrivals, i + 1, IpAt(arrivals, i));
  }

  lemma {:induction false} NoRepeats(arrivals: seq<Arrival>, n: nat, ip: string)
    requires n <= |arrivals|
    requires forall j, k | 0 <= j < k < |arrivals| :: arrivals[j].event.id != arrivals[k].event.id
    ensures Repeats(arrivals, n, ip) == 0
  {
    if n > 0 {
      NoRepeats(arrivals, n - 1, ip);
    }
  }

  // ----- A repeated delivery can outrank the table -----

  /** Event `a` is delivered twice, then `b` once, within two seconds. */
  function DeliveredTwice(a: AttackEvent, b: AttackEvent): seq<Arrival> {
    [Arrival(a, 0.0, 0.0, Answered, false), Arrival(a, 1.0, 1.0, Answered, false), Arrival(b, 2.0, 2.0, Answered, false)]
  }

  lemma ThreeEffective(a: AttackEvent, b: AttackEvent)
    ensures Effective(DeliveredTwice(a, b), 3) ==
            [Call(a.sourceIp, a.destinationPort, 0.0, 0.0), Call(a.sourceIp, a.destinationPort, 1.0, 1.0),
             Call(b.sourceIp, b.destinationPort, 2.0, 2.0)]
  {
    var arrivals := DeliveredTwice(a, b);
    var c0, c1, c2 := Call(a.sourceIp, a.destinationPort, 0.0, 0.0), Call(a.sourceIp, a.destinationPort, 1.0, 1.0),
                      Call(b.sourceIp, b.destinationPort, 2.0, 2.0);
    assert Effective(arrivals, 0) == [];
    assert Effective(arrivals, 1) == [c0];
    assert Effective(arrivals, 2) == [c0, c1];
    assert Effective(arrivals, 3) == [c0, c1] + [c2];
  }

  lemma ThreeCalls(a: AttackEvent, b: AttackEvent, window: real, inclusive: bool)
    requires a.sourceIp == b.sourceIp && 600.0 <= window <= CONTEXT_TTL
    ensures LiveContext(DeliveredTwice(a, b), 2, window, inclusive).recentAttempts == 3
  {
    var ip := b.sourceIp;
    var c0, c1 := Call(ip, a.destinationPort, 0.0, 0.0), Call(ip, a.destinationPort, 1.0, 1.0);
    var c2 := Call(ip, b.destinationPort, 2.0, 2.0);
    ThreeEffective(a, b);
    ThreeOfOne(c0, c1, c2);
    RecountWithinTtl([c0, c1, c2], window, 0.0, 0.0, inclusive);
    RecentThree(c0, c1, c2, 2.0 - window);
    hide Effective, After, CallsOf, Recent, ReadBack;
  }

  lemma ThreeOfOne(c0: Call, c1: Call, c2: Call)
    requires c0.ip == c1.ip == c2.ip && 0.0 <= c0.now <= c1.now <= c2.now
    ensures CallsOf([c0, c1, c2], c2.ip) == [c0, c1, c2] && Monotone([c0, c1, c2])
  {
    var h := [c0, c1, c2];
    TwoCalls(c0, c1);
    assert h[..2] == [c0, c1];
    forall i: nat, j: nat
      ensures InOrder(h, i, j)
    {}
  }

  lemma RecentThree(c0: Call, c1: Call, c2: Call, from: real)
    requires from < c0.now < c1.now < c2.now
    ensures |Recent([c0, c1, c2], from)| == 3
  {
    var h := [c0, c1, c2];
    assert c0 in h && c1 in h && c2 in h;
    assert Recent(h, from) == {StampOf(c0), StampOf(c1), StampOf(c2)};
  }

  /**
   One lost reply of one XADD is enough: `a` is in the stream and so in the window twice, and `b` is a
   brute force live although backfill, which counts two rows, finds it suspicious at most.
   */
  lemma DuplicateDeliveryOutranks(rules: DetectionRules, a: AttackEvent, b: AttackEvent, window: real, inclusive: bool)
    requires a.id != b.id && a.sourceIp == b.sourceIp && 600.0 <= window <= CONTEXT_TTL
    requires rules.bruteForceProtocol == b.protocol && rules.bruteForceMinAttempts == 3 && rules.portScanMinPorts >= 3
    requires !IsCommandInjection(rules, b) && !IsCredentialAttack(rules, b)
    ensures var table := [Row(a, None, None), Row(b, None, None)];
            Covers(table, 1, DeliveredTwice(a, b), 2) && Repeats(DeliveredTwice(a, b), 3, b.sourceIp) == 1 &&
            LiveLabel(rules, DeliveredTwice(a, b), 2, window, inclusive).attackType == BRUTE_FORCE &&
            Labelled(rules, table, 1).attackType.value in {HTTP_SCAN, SUSPICIOUS}
  {
    var table, arrivals := [Row(a, None, None), Row(b, None, None)], DeliveredTwice(a, b);
    ThreeCalls(a, b, window, inclusive);
    TwoRows(a, b);
    OneRepeat(a, b);
    hide LiveContext, Attempts, PortsSeen, IsCommandInjection, IsCredentialAttack, IsHttpScan, Repeats;
  }

  lemma TwoRows(a: AttackEvent, b: AttackEvent)
    requires a.sourceIp == b.sourceIp
    ensures var table := [Row(a, None, None), Row(b, None, None)];
            Attempts(table, 2, b.sourceIp) == 2 && |PortsSeen(table, 2, b.sourceIp)| <= 2 &&
            Covers(table, 1, DeliveredTwice(a, b), 2)
  {
    var table, arrivals := [Row(a, None, None), Row(b, None, None)], DeliveredTwice(a, b);
    PortsStep(table, 0, b.sourceIp);
    PortsStep(table, 1, b.sourceIp);
    assert PortsSeen(table, 0, b.sourceIp) == {};
    assert PortsSeen(table, 2, b.sourceIp) == {a.destinationPort, b.destinationPort};
    assert Attempts(table, 0, b.sourceIp) == 0 && Attempts(table, 1, b.sourceIp) == 1;
    assert |{a.destinationPort} + {b.destinationPort}| <= 2;
    assert {a.destinationPort} + {b.destinationPort} == PortsSeen(table, 2, b.sourceIp);
    assert table[0] == Row(a, None, table[0].severity) && table[1] == Row(b, None, table[1].severity);
    assert HasRow(table, 2, a) && HasRow(table, 2, b);
  }

  lemma OneRepeat(a: AttackEvent, b: AttackEvent)
    requires a.id != b.id && a.sourceIp == b.sourceIp
    ensures Repeats(DeliveredTwice(a, b), 3, b.sourceIp) == 1
  {
    var arrivals, ip := DeliveredTwice(a, b), b.sourceIp;
    IdsStep(arrivals, 0, ip);
    IdsStep(arrivals, 1, ip);
    assert IdsCounted(arrivals, 0, ip) == {};
    assert Repeats(arrivals, 0, ip) == 0 && Repeats(arrivals, 1, ip) == 0 && Repeats(arrivals, 2, ip) == 1;
  }

  // ----- So can a late delivery -----

  /** `y` reaches a worker first, and `x`, buffered for a while, second. */
  function DeliveredLate(x: AttackEvent, y: AttackEvent): seq<Arrival> {
    [Arrival(y, 0.0, 0.0, Answered, false), Arrival(x, 1.0, 1.0, Answered, false)]
  }

  lemma TwoEffective(x: AttackEvent, y: AttackEvent)
    ensures Effective(DeliveredLate(x, y), 2) ==
            [Call(y.sourceIp, y.destinationPort, 0.0, 0.0), Call(x.sourceIp, x.destinationPort, 1.0, 1.0)]
  {
    var arrivals := DeliveredLate(x, y);
    var c0, c1 := Call(y.sourceIp, y.destinationPort, 0.0, 0.0), Call(x.sourceIp, x.destinationPort, 1.0, 1.0);
    assert Effective(arrivals, 0) == [];
    assert Effective(arrivals, 1) == [c0];
    assert Effective(arrivals, 2) == [c0] + [c1];
  }

  lemma TwoOfOne(c0: Call, c1: Call, from: real)
    requires c0.ip == c1.ip && 0.0 <= c0.now < c1.now && from < c0.now
    ensures CallsOf([c0, c1], c1.ip) == [c0, c1] && Monotone([c0, c1]) && |Recent([c0, c1], from)| == 2
  {
    var h := [c0, c1];
    TwoCalls(c0, c1);
    forall i: nat, j: nat
      ensures InOrder(h, i, j)
    {}
    assert c0 in h && c1 in h;
    assert Recent(h, from) == {StampOf(c0), StampOf(c1)};
  }

  lemma TwoLive(x: AttackEvent, y: AttackEvent, window: real, inclusive: bool)
    requires x.sourceIp == y.sourceIp && 600.0 <= window <= CONTEXT_TTL
    ensures LiveContext(DeliveredLate(x, y), 1, window, inclusive).recentAttempts == 2
  {
    var c0, c1 := Call(y.sourceIp, y.destinationPort, 0.0, 0.0), Call(x.sourceIp, x.destinationPort, 1.0, 1.0);
    TwoEffective(x, y);
    TwoOfOne(c0, c1, 1.0 - window);
    RecountWithinTtl([c0, c1], window, 0.0, 0.0, inclusive);
    hide Effective, After, CallsOf, Recent, ReadBack;
  }

  lemma FirstRow(x: AttackEvent, y: AttackEvent)
    ensures Cumulative([Row(x, None, None), Row(y, None, None)], 1, x.sourceIp) == IPContext(1, {x.destinationPort})
  {
    var table := [Row(x, None, None), Row(y, None, None)];
    PortsStep(table, 0, x.sourceIp);
    assert PortsSeen(table, 0, x.sourceIp) == {} && Attempts(table, 0, x.sourceIp) == 0;
  }

  /**
   No copy and no lost group is needed: an event that waits in the buffer while a later one is delivered
   counts both live, although backfill, which goes by timestamp, counts it alone.
   */
  lemma LateDeliveryOutranks(rules: DetectionRules, x: AttackEvent, y: AttackEvent, window: real, inclusive: bool)
    requires x.id != y.id && x.sourceIp == y.sourceIp && x.timestamp < y.timestamp && 600.0 <= window <= CONTEXT_TTL
    requires rules.bruteForceProtocol == x.protocol && rules.bruteForceMinAttempts == 2 && rules.portScanMinPorts >= 2
    requires !IsCommandInjection(rules, x) && !IsCredentialAttack(rules, x)
    ensures var arrivals, table := DeliveredLate(x, y), [Row(x, None, None), Row(y, None, None)];
            ByTime(table) && Repeats(arrivals, 2, x.sourceIp) == 0 &&
            LiveLabel(rules, arrivals, 1, window, inclusive).attackType == BRUTE_FORCE &&
            Labelled(rules, table, 0).attackType.value in {HTTP_SCAN, SUSPICIOUS}
  {
    TwoLive(x, y, window, inclusive);
    FirstRow(x, y);
    NoRepeats(DeliveredLate(x, y), 2, x.sourceIp);
    hide LiveContext, Attempts, PortsSeen, Cumulative, IsCommandInjection, IsCredentialAttack, IsHttpScan, Repeats;
  }
}
