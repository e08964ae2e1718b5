/**
 Risk scores and the risk ranking: candidates are the IPs with the most events, rescored, sorted and
 cut. The error of choosing candidates by event count is bounded, and the bounds are attained.
 */
module RiskRanking {
  import opened Events
  import opened Classifier
  import opened Sequences
  import opened Repository
  import opened Aggregates

  /** The frequency score as a function of the event count. */
  type Frequency = nat -> int

  /**
   What the ranking's guarantees need of the frequency score: it lies between 0 and 40 and more events
   never lower it. The original multiplies floats; rounding preserves both.
   */
  ghost predicate FrequencyOk(frequency: Frequency) {
    (forall n :: 0 <= frequency(n) <= 40) &&
    forall m, n | m <= n :: frequency(m) <= frequency(n)
  }

  /** min(40, total / 200 * 40) without rounding errors. */
  function ExactFrequency(total: nat): int {
    if total / 5 < 40 then total / 5 else 40
  }

  function SeverityScore(severity: string): int {
    if severity == HIGH then 30 else if severity == MEDIUM then 15 else if severity == LOW then 5 else 0
  }

  /** The highest severity contribution, 0 when there is none. */
  function MaxSeverity(severities: seq<string>): (r: int)
    ensures forall s | s in severities :: SeverityScore(s) <= r
    ensures r == 0 || exists s | s in severities :: SeverityScore(s) == r
    ensures 0 <= r <= 30
  {
    if severities == [] then 0
    else
      var rest := MaxSeverity(severities[1..]);
      assert severities == [severities[0]] + severities[1..];
      if SeverityScore(severities[0]) >= rest then SeverityScore(severities[0]) else rest
  }

  function Types(attackTypes: seq<string>): set<string> {
    set t | t in attackTypes
  }

  function Diversity(attackTypes: seq<string>): int {
    if |Types(attackTypes)| * 10 < 30 then |Types(attackTypes)| * 10 else 30
  }

  function Calculate(frequency: Frequency, total: nat, attackTypes: seq<string>, severities: seq<string>): int {
    var score := frequency(total) + Diversity(attackTypes) + MaxSeverity(severities);
    if score < 100 then score else 100
  }

  function ToRiskLevel(score: int): string {
    if score >= 70 then HIGH else if score >= 40 then MEDIUM else LOW
  }

  /** More events, types and severities never lower the score, which stays between 0 and 100. */
  lemma ScoreMonotone(frequency: Frequency, m: nat, n: nat, types: seq<string>, moreTypes: seq<string>,
                      severities: seq<string>, moreSeverities: seq<string>)
    requires FrequencyOk(frequency) && m <= n
    requires (forall t | t in types :: t in moreTypes) && forall s | s in severities :: s in moreSeverities
    ensures 0 <= Calculate(frequency, m, types, severities) <= Calculate(frequency, n, moreTypes, moreSeverities) <= 100
  {
    SubsetSize(Types(types), Types(moreTypes));
  }

  /**
   Events alone never make an IP high-risk. Once the frequency score is saturated, it is exactly the
   evidence that decides: a HIGH event, three types, or two types with a MEDIUM event.
   */
  lemma HighRiskIff(frequency: Frequency, total: nat, attackTypes: seq<string>, severities: seq<string>)
    requires FrequencyOk(frequency)
    ensures var evidence := HIGH in severities || |Types(attackTypes)| >= 3 ||
                            (|Types(attackTypes)| == 2 && MEDIUM in severities);
            var level := ToRiskLevel(Calculate(frequency, total, attackTypes, severities));
            (level == HIGH ==> evidence) &&
            (frequency(total) == 40 ==> (level == HIGH <==> evidence) && (level == MEDIUM <==> !evidence))
  {
    var worst := MaxSeverity(severities);
    assert worst in {0, 5, 15, 30};
    assert worst == 30 <==> HIGH in severities;
    assert worst >= 15 <==> HIGH in severities || MEDIUM in severities;
  }

  datatype IPAggregate = IPAggregate(sourceIp: string, totalEvents: nat, attackTypes: seq<string>, severities: seq<string>)

  datatype IPProfile = IPProfile(
    sourceIp: string, totalEvents: nat, attackTypes: set<string>, riskScore: int, riskLevel: string)

  function BuildProfile(frequency: Frequency, a: IPAggregate): IPProfile {
    var score := Calculate(frequency, a.totalEvents, a.attackTypes, a.severities);
    IPProfile(a.sourceIp, a.totalEvents, Types(a.attackTypes), score, ToRiskLevel(score))
  }

  /** All attack types recorded for an IP, over the whole table. */
  function TypesOf(rows: seq<Row>, ip: string): seq<string> {
    if rows == [] then []
    else
      (if rows[0].event.sourceIp == ip && rows[0].attackType.Some? then [rows[0].attackType.value] else []) +
      TypesOf(rows[1..], ip)
  }

  function SeveritiesOf(rows: seq<Row>, ip: string): seq<string> {
    if rows == [] then []
    else
      (if rows[0].event.sourceIp == ip && rows[0].severity.Some? then [rows[0].severity.value] else []) +
      SeveritiesOf(rows[1..], ip)
  }

  /** The events of an IP in the range. */
  function EventsOf(rows: seq<Row>, since: Option<int>, until: int, ip: string): nat {
    GroupCount(InRange(rows, since, until), SourceOf, ip, Always)
  }

  /** The range restricts the event count only; types and severities are those of all time. */
  function AggregateOf(rows: seq<Row>, since: Option<int>, until: int, ip: string): IPAggregate {
    IPAggregate(ip, EventsOf(rows, since, until, ip), TypesOf(rows, ip), SeveritiesOf(rows, ip))
  }

  function Score(frequency: Frequency, rows: seq<Row>, since: Option<int>, until: int, ip: string): int {
    Calculate(frequency, EventsOf(rows, since, until, ip), TypesOf(rows, ip), SeveritiesOf(rows, ip))
  }

  /** GROUP BY source_ip ORDER BY COUNT DESC LIMIT n, ties in any order. */
  ghost predicate IsTopIps(ips: seq<string>, rows: seq<Row>, since: Option<int>, until: int, n: nat) {
    var present := Keys(InRange(rows, since, until), SourceOf);
    Distinct(ips) && (forall ip | ip in ips :: ip in present) &&
    |ips| == (if |present| < n then |present| else n) &&
    forall ip, other | ip in ips && other in present && other !in ips ::
      EventsOf(rows, since, until, other) <= EventsOf(rows, since, until, ip)
  }

  /** How many candidates are fetched for a ranking of `limit` IPs. */
  function Candidates(limit: nat): nat {
    if limit * 3 > 30 then limit * 3 else 30
  }

  predicate ByScore(a: IPProfile, b: IPProfile) {
    a.riskScore >= b.riskScore
  }

  function Profiles(frequency: Frequency, rows: seq<Row>, since: Option<int>, until: int, ips: seq<string>): (p: seq<IPProfile>)
    ensures |p| == |ips|
  {
    seq(|ips|, i requires 0 <= i < |ips| => BuildProfile(frequency, AggregateOf(rows, since, until, ips[i])))
  }

  function RankingOf(frequency: Frequency, rows: seq<Row>, since: Option<int>, until: int,
                     limit: nat, ips: seq<string>): seq<IPProfile>
  {
    Prefix(Sort(Profiles(frequency, rows, since, until, ips), ByScore), limit)
  }

  // ----- What a profile should say -----

  ghost predicate HasSeverity(rows: seq<Row>, ip: string, level: string) {
    exists row | row in rows :: row.event.sourceIp == ip && row.severity == Some(level)
  }

  /** The contribution of the worst level recorded for an IP. */
  ghost function Worst(rows: seq<Row>, ip: string): int {
    if HasSeverity(rows, ip, "HIGH") then 30
    else if HasSeverity(rows, ip, "MEDIUM") then 15
    else if HasSeverity(rows, ip, "LOW") then 5
    else 0
  }

  /** The profile says about its IP what the rows of the table do, and rates it by that. */
  ghost predicate Describes(frequency: Frequency, rows: seq<Row>, since: Option<int>, until: int, p: IPProfile) {
    p.totalEvents == SizeOf(rows, since, until, p.sourceIp) &&
    p.attackTypes ==
      (set row | row in rows && row.event.sourceIp == p.sourceIp && row.attackType.Some? :: row.attackType.value) &&
    p.riskScore == frequency(p.totalEvents) + (if |p.attackTypes| < 3 then 10 * |p.attackTypes| else 30) +
                   Worst(rows, p.sourceIp) &&
    (p.riskLevel == "HIGH" <==> 70 <= p.riskScore) && (p.riskLevel == "MEDIUM" <==> 40 <= p.riskScore < 70) &&
    (p.riskLevel == "LOW" <==> p.riskScore < 40)
  }

  /** A higher score, or the same and chosen earlier. */
  ghost predicate ShownBefore(topIps: seq<string>, a: IPProfile, b: IPProfile) {
    a.riskScore > b.riskScore || (a.riskScore == b.riskScore && Precedes(topIps, a.sourceIp, b.sourceIp))
  }

  /**
   How much higher an IP left out can score than one shown: not at all when it was among the chosen, or
   when no IP in range was passed over; 45 points when the one shown has a labelled row; 60 in any case.
   */
  ghost predicate WithinError(rows: seq<Row>, since: Option<int>, until: int, limit: nat, topIps: seq<string>,
                              shown: IPProfile, p: IPProfile)
  {
    var sources := |set row | row in rows && Selected(row, since, until, None) :: row.event.sourceIp|;
    p.riskScore <= shown.riskScore +
      if p.sourceIp in topIps || sources <= 30 || sources <= 3 * limit then 0
      else if HasLabel(rows, shown.sourceIp) then 45
      else 60
  }

  // ----- The code -----

  /** Collects the aggregates of the chosen IPs, one query pair each. */
  method GetIpAggregatesForRanking(rows: seq<Row>, since: Option<int>, until: int, topIps: seq<string>)
    returns (aggregates: seq<IPAggregate>)
    ensures |aggregates| == |topIps|
    ensures forall i | 0 <= i < |topIps| :: aggregates[i] == AggregateOf(rows, since, until, topIps[i])
  {
    aggregates := [];
    for i := 0 to |topIps|
      invariant |aggregates| == i
      invariant forall j | 0 <= j < i :: aggregates[j] == AggregateOf(rows, since, until, topIps[j])
    {
      var total := Count(InRange(rows, since, until), InGroup(SourceOf, topIps[i], Always));
      var attackTypes := TypesOf(rows, topIps[i]);
      var severities := SeveritiesOf(rows, topIps[i]);
      aggregates := aggregates + [IPAggregate(topIps[i], total, attackTypes, severities)];
    }
  }

  /** The endpoint, given the IPs the database chose. */
  method GetRiskRanking(frequency: Frequency, rows: seq<Row>, since: Option<int>, until: int, limit: nat, topIps: seq<string>)
    returns (top: seq<IPProfile>)
    requires limit >= 1 && FrequencyOk(frequency)
    requires IsTopIps(topIps, rows, since, until, Candidates(limit))
    ensures top == RankingOf(frequency, rows, since, until, limit, topIps)
    ensures |top| == if |topIps| < limit then |topIps| else limit
    ensures forall k | 0 <= k < |top| :: top[k].sourceIp in topIps && Describes(frequency, rows, since, until, top[k])
    ensures forall i, j | 0 <= i < j < |top| :: ShownBefore(topIps, top[i], top[j])
    ensures forall k, p | 0 <= k < |top| && Describes(frequency, rows, since, until, p) && p.totalEvents > 0 &&
                          Excluded(top, p.sourceIp) :: WithinError(rows, since, until, limit, topIps, top[k], p)
  {
    hide Describes, WithinError, ShownBefore, Excluded, Sort, IsTopIps;
    var aggregates := GetIpAggregatesForRanking(rows, since, until, topIps);
    var profiles := seq(|aggregates|, i requires 0 <= i < |aggregates| => BuildProfile(frequency, aggregates[i]));
    assert profiles == Profiles(frequency, rows, since, until, topIps);
    top := Prefix(Sort(profiles, ByScore), limit);
    forall k | 0 <= k < |top|
      ensures top[k].sourceIp in topIps && Describes(frequency, rows, since, until, top[k])
    {
      RankedIsDescribed(frequency, rows, since, until, limit, topIps, k);
    }
    forall i, j | 0 <= i < j < |top|
      ensures ShownBefore(topIps, top[i], top[j])
    {
      RankedInOrder(frequency, rows, since, until, limit, topIps, i, j);
    }
    forall k, p | 0 <= k < |top| && Describes(frequency, rows, since, until, p) && p.totalEvents > 0 &&
                  Excluded(top, p.sourceIp)
      ensures WithinError(rows, since, until, limit, topIps, top[k], p)
    {
      LeftOutWithinError(frequency, rows, since, until, limit, topIps, k, p);
    }
  }

  // ----- The error bound -----

  ghost predicate Excluded(top: seq<IPProfile>, ip: string) {
    forall p | p in top :: p.sourceIp != ip
  }

  lemma ByScoreIsTotal()
    ensures TotalPreorder(ByScore)
  {}

  /** The candidates behind the ranking. */
  lemma ProfileOf(frequency: Frequency, rows: seq<Row>, since: Option<int>, until: int, ips: seq<string>, p: IPProfile)
    requires p in Profiles(frequency, rows, since, until, ips)
    ensures p.sourceIp in ips && p.riskScore == Score(frequency, rows, since, until, p.sourceIp)
  {}

  lemma RankedIsCandidate(frequency: Frequency, rows: seq<Row>, since: Option<int>, until: int, limit: nat,
                          ips: seq<string>, k: nat)
    requires k < |RankingOf(frequency, rows, since, until, limit, ips)|
    ensures var shown := RankingOf(frequency, rows, since, until, limit, ips)[k];
            shown.sourceIp in ips && shown.riskScore == Score(frequency, rows, since, until, shown.sourceIp)
  {
    var profiles := Profiles(frequency, rows, since, until, ips);
    var top := RankingOf(frequency, rows, since, until, limit, ips);
    InMultiset(Sort(profiles, ByScore), profiles);
    assert top[k] in Sort(profiles, ByScore);
    ProfileOf(frequency, rows, since, until, ips, top[k]);
  }

  lemma InPrefix(s: seq<IPProfile>, n: nat, i: nat)
    requires i < |s|
    ensures i < n ==> s[i] in Prefix(s, n)
  {}

  /** The ranking is the top of its candidates: who is cut scores no higher than who is kept. */
  lemma TopOfCandidates(profiles: seq<IPProfile>, limit: nat, k: nat, p: IPProfile)
    requires k < |Prefix(Sort(profiles, ByScore), limit)| && p in profiles
    requires p !in Prefix(Sort(profiles, ByScore), limit)
    ensures p.riskScore <= Prefix(Sort(profiles, ByScore), limit)[k].riskScore
  {
    var sorted := Sort(profiles, ByScore);
    ByScoreIsTotal();
    SortSorts(profiles, ByScore);
    InMultiset(sorted, profiles);
    var i :| 0 <= i < |sorted| && sorted[i] == p;
    InPrefix(sorted, limit, i);
    assert ByScore(sorted[k], sorted[i]);
  }

  /** The recorded types and severities. */
  lemma {:induction false} LabelsRecorded(rows: seq<Row>, row: Row)
    requires row in rows
    ensures row.attackType.Some? ==> row.attackType.value in TypesOf(rows, row.event.sourceIp)
    ensures row.severity.Some? ==> row.severity.value in SeveritiesOf(rows, row.event.sourceIp)
  {
    if row != rows[0] {
      assert row in rows[1..];
      LabelsRecorded(rows[1..], row);
    }
  }

  /** Some row of the IP has an attack type and a severity from the domain. */
  ghost predicate HasLabel(rows: seq<Row>, ip: string) {
    exists row | row in rows ::
      row.event.sourceIp == ip && row.attackType.Some? && row.severity.Some? && row.severity.value in SEVERITIES
  }

  lemma LabelledScore(rows: seq<Row>, ip: string)
    requires HasLabel(rows, ip)
    ensures Diversity(TypesOf(rows, ip)) >= 10 && MaxSeverity(SeveritiesOf(rows, ip)) >= 5
  {
    var row :| row in rows && row.event.sourceIp == ip && row.attackType.Some? && row.severity.Some? &&
               row.severity.value in SEVERITIES;
    LabelsRecorded(rows, row);
    SubsetSize({row.attackType.value}, Types(TypesOf(rows, ip)));
  }

  /** With no more events than another IP, an IP can score only so much higher. */
  lemma ScoreGap(frequency: Frequency, rows: seq<Row>, since: Option<int>, until: int, ip: string, other: string)
    requires FrequencyOk(frequency)
    requires EventsOf(rows, since, until, ip) <= EventsOf(rows, since, until, other)
    ensures Score(frequency, rows, since, until, ip) <= Score(frequency, rows, since, until, other) + 60
    ensures HasLabel(rows, other) ==>
              Score(frequency, rows, since, until, ip) <= Score(frequency, rows, since, until, other) + 45
  {
    if HasLabel(rows, other) {
      LabelledScore(rows, other);
    }
  }

  /**
   An IP left out of the ranking scores at most 60 more than one in it, at most 45 more once the
   latter has a labelled row, and no more at all when every IP in range was a candidate.
   */
  lemma ErrorBound(frequency: Frequency, rows: seq<Row>, since: Option<int>, until: int, limit: nat, ips: seq<string>,
                   k: nat, ip: string)
    requires FrequencyOk(frequency) && IsTopIps(ips, rows, since, until, Candidates(limit))
    requires k < |RankingOf(frequency, rows, since, until, limit, ips)|
    requires ip in Keys(InRange(rows, since, until), SourceOf)
    requires Excluded(RankingOf(frequency, rows, since, until, limit, ips), ip)
    ensures var shown := RankingOf(frequency, rows, since, until, limit, ips)[k];
            var excess := Score(frequency, rows, since, until, ip) - shown.riskScore;
            excess <= 60 &&
            (HasLabel(rows, shown.sourceIp) ==> excess <= 45) &&
            (|Keys(InRange(rows, since, until), SourceOf)| <= Candidates(limit) ==> excess <= 0)
  {
    var profiles := Profiles(frequency, rows, since, until, ips);
    var top := RankingOf(frequency, rows, since, until, limit, ips);
    RankedIsCandidate(frequency, rows, since, until, limit, ips, k);
    if ip in ips {
      ChosenNoHigher(frequency, rows, since, until, limit, ips, k, ip);
    } else {
      ScoreGap(frequency, rows, since, until, ip, top[k].sourceIp);
      AllCandidates(ips, rows, since, until, Candidates(limit), ip);
    }
  }

  /** An IP in range is missed only when there are more IPs than candidates. */
  lemma AllCandidates(ips: seq<string>, rows: seq<Row>, since: Option<int>, until: int, n: nat, ip: string)
    requires IsTopIps(ips, rows, since, until, n) && ip in Keys(InRange(rows, since, until), SourceOf) && ip !in ips
    ensures |Keys(InRange(rows, since, until), SourceOf)| > n
  {
    var present := Keys(InRange(rows, since, until), SourceOf);
    var chosen := set i | i in ips;
    DistinctSize(ips);
    StrictSubsetSize(chosen, present, ip);
  }

  lemma StrictSubsetSize(a: set<string>, b: set<string>, x: string)
    requires a <= b && x in b && x !in a
    ensures |a| < |b|
  {
    SubsetSize(a + {x}, b);
  }

  // ----- The profiles are right -----

  lemma SizeIsEvents(rows: seq<Row>, since: Option<int>, until: int, ip: string)
    ensures EventsOf(rows, since, until, ip) == SizeOf(rows, since, until, ip)
    ensures SizeOf(rows, since, until, ip) > 0 ==> ip in Keys(InRange(rows, since, until), SourceOf)
  {
    IpCountIsSize(rows, since, until, ip);
    FoundSelects(rows, Between(since, until));
    var places := set i: nat | i < |rows| && Selected(rows[i], since, until, None) && rows[i].event.sourceIp == ip;
    if places != {} {
      var i :| i in places;
      assert rows[i] in InRange(rows, since, until);
    }
  }

  /** What is recorded for an IP is what its rows say. */
  lemma {:induction false} LabelsIff(rows: seq<Row>, ip: string)
    ensures forall t :: t in TypesOf(rows, ip) <==>
                        exists row | row in rows :: row.event.sourceIp == ip && row.attackType == Some(t)
    ensures forall s :: s in SeveritiesOf(rows, ip) <==> HasSeverity(rows, ip, s)
  {
    if rows != [] {
      LabelsIff(rows[1..], ip);
      assert forall row :: row in rows <==> row == rows[0] || row in rows[1..];
      forall s
        ensures HasSeverity(rows, ip, s) <==>
                HasSeverity(rows[1..], ip, s) || (rows[0].event.sourceIp == ip && rows[0].severity == Some(s))
      {}
    }
  }

  lemma WorstIsMax(rows: seq<Row>, ip: string)
    ensures MaxSeverity(SeveritiesOf(rows, ip)) == Worst(rows, ip)
  {
    LabelsIff(rows, ip);
    hide HasSeverity, SeveritiesOf, TypesOf;
    var severities := SeveritiesOf(rows, ip);
    var worst := MaxSeverity(severities);
    assert worst == 30 <==> HIGH in severities;
    assert worst >= 15 <==> HIGH in severities || MEDIUM in severities;
    assert worst >= 5 <==> HIGH in severities || MEDIUM in severities || LOW in severities;
    assert worst in {0, 5, 15, 30};
  }

  lemma TypesAre(rows: seq<Row>, ip: string)
    ensures Types(TypesOf(rows, ip)) ==
            set row | row in rows && row.event.sourceIp == ip && row.attackType.Some? :: row.attackType.value
  {
    LabelsIff(rows, ip);
    hide SeveritiesOf, TypesOf;
  }

  lemma ProfileDescribes(frequency: Frequency, rows: seq<Row>, since: Option<int>, until: int, ip: string)
    requires FrequencyOk(frequency)
    ensures Describes(frequency, rows, since, until, BuildProfile(frequency, AggregateOf(rows, since, until, ip)))
  {
    SizeIsEvents(rows, since, until, ip);
    WorstIsMax(rows, ip);
    TypesAre(rows, ip);
    hide SizeOf, Worst, EventsOf, TypesOf, SeveritiesOf, MaxSeverity, Types;
  }

  /** A description has the score that the ranking compares. */
  lemma DescribedScore(frequency: Frequency, rows: seq<Row>, since: Option<int>, until: int, p: IPProfile)
    requires FrequencyOk(frequency) && Describes(frequency, rows, since, until, p)
    ensures p.riskScore == Score(frequency, rows, since, until, p.sourceIp)
    ensures p.totalEvents > 0 ==> p.sourceIp in Keys(InRange(rows, since, until), SourceOf)
  {
    ProfileDescribes(frequency, rows, since, until, p.sourceIp);
    SizeIsEvents(rows, since, until, p.sourceIp);
    hide SizeOf, Worst, EventsOf, TypesOf, SeveritiesOf, MaxSeverity, Types, Keys, InRange;
  }

  lemma RankedIsDescribed(frequency: Frequency, rows: seq<Row>, since: Option<int>, until: int, limit: nat,
                          ips: seq<string>, k: nat)
    requires FrequencyOk(frequency) && k < |RankingOf(frequency, rows, since, until, limit, ips)|
    ensures var shown := RankingOf(frequency, rows, since, until, limit, ips)[k];
            shown.sourceIp in ips && Describes(frequency, rows, since, until, shown)
  {
    hide Describes, Sort, BuildProfile, AggregateOf;
    var profiles := Profiles(frequency, rows, since, until, ips);
    var top := RankingOf(frequency, rows, since, until, limit, ips);
    InMultiset(Sort(profiles, ByScore), profiles);
    assert top[k] in Sort(profiles, ByScore);
    var i :| 0 <= i < |profiles| && profiles[i] == top[k];
    ProfileDescribes(frequency, rows, since, until, ips[i]);
    ProfileNames(frequency, rows, since, until, ips, i);
  }

  lemma ProfileNames(frequency: Frequency, rows: seq<Row>, since: Option<int>, until: int, ips: seq<string>, i: nat)
    requires i < |ips|
    ensures Profiles(frequency, rows, since, until, ips)[i].sourceIp == ips[i]
  {}

  lemma RankedInOrder(frequency: Frequency, rows: seq<Row>, since: Option<int>, until: int, limit: nat,
                      ips: seq<string>, i: nat, j: nat)
    requires i < j < |RankingOf(frequency, rows, since, until, limit, ips)|
    ensures var top := RankingOf(frequency, rows, since, until, limit, ips);
            ShownBefore(ips, top[i], top[j])
  {
    hide Sort, Profiles;
    var profiles := Profiles(frequency, rows, since, until, ips);
    var sorted := Sort(profiles, ByScore);
    ByScoreIsTotal();
    SortSorts(profiles, ByScore);
    assert ByScore(sorted[i], sorted[j]);
    if sorted[i].riskScore == sorted[j].riskScore {
      SortIsStable(profiles, ByScore, i, j);
      var a, b :| 0 <= a < b < |profiles| && profiles[a] == sorted[i] && profiles[b] == sorted[j];
      ProfileNames(frequency, rows, since, until, ips, a);
      ProfileNames(frequency, rows, since, until, ips, b);
    }
  }

  /** A chosen IP that is left out scores no higher than any shown. */
  lemma ChosenNoHigher(frequency: Frequency, rows: seq<Row>, since: Option<int>, until: int, limit: nat,
                       ips: seq<string>, k: nat, ip: string)
    requires k < |RankingOf(frequency, rows, since, until, limit, ips)| && ip in ips
    requires Excluded(RankingOf(frequency, rows, since, until, limit, ips), ip)
    ensures Score(frequency, rows, since, until, ip) <= RankingOf(frequency, rows, since, until, limit, ips)[k].riskScore
  {
    hide Sort;
    var profiles := Profiles(frequency, rows, since, until, ips);
    var i :| 0 <= i < |ips| && ips[i] == ip;
    assert profiles[i] in profiles && profiles[i].sourceIp == ip;
    TopOfCandidates(profiles, limit, k, profiles[i]);
  }

  lemma SourcesInRange(rows: seq<Row>, since: Option<int>, until: int)
    ensures Keys(InRange(rows, since, until), SourceOf) ==
            set row | row in rows && Selected(row, since, until, None) :: row.event.sourceIp
  {
    FoundSelects(rows, Between(since, until));
  }

  lemma LeftOutWithinError(frequency: Frequency, rows: seq<Row>, since: Option<int>, until: int, limit: nat,
                           ips: seq<string>, k: nat, p: IPProfile)
    requires FrequencyOk(frequency) && IsTopIps(ips, rows, since, until, Candidates(limit))
    requires k < |RankingOf(frequency, rows, since, until, limit, ips)|
    requires Describes(frequency, rows, since, until, p) && p.totalEvents > 0
    requires Excluded(RankingOf(frequency, rows, since, until, limit, ips), p.sourceIp)
    ensures WithinError(rows, since, until, limit, ips, RankingOf(frequency, rows, since, until, limit, ips)[k], p)
  {
    DescribedScore(frequency, rows, since, until, p);
    SourcesInRange(rows, since, until);
    ErrorBound(frequency, rows, since, until, limit, ips, k, p.sourceIp);
    if p.sourceIp in ips {
      ChosenNoHigher(frequency, rows, since, until, limit, ips, k, p.sourceIp);
    }
    hide Describes, Sort, RankingOf, Score, IsTopIps, Keys, InRange, HasLabel, Excluded;
  }

  // ----- The bounds are attained -----

  // Addresses of the documentation ranges, numbered.

  const PREFIX := "2001:db8::"
  const NEWCOMER := "192.0.2.1"
  const DIGITS := "0123456789abcdef"

  function Hex(k: nat): string {
    if k < 16 then [DIGITS[k]] else Hex(k / 16) + [DIGITS[k % 16]]
  }

  function DigitValue(c: char): nat {
    if '0' <= c <= '9' then (c - '0') as int else if 'a' <= c <= 'f' then 10 + (c - 'a') as int else 0
  }

  function HexValue(s: string): nat {
    if s == [] then 0 else 16 * HexValue(s[..|s| - 1]) + DigitValue(s[|s| - 1])
  }

  lemma DigitsValue(d: nat)
    requires d < 16
    ensures DigitValue(DIGITS[d]) == d
  {}

  lemma {:induction false} HexRoundTrip(k: nat)
    ensures HexValue(Hex(k)) == k
  {
    DigitsValue(k % 16);
    if k >= 16 {
      HexRoundTrip(k / 16);
      assert Hex(k)[..|Hex(k)| - 1] == Hex(k / 16);
    } else {
      assert Hex(k)[..0] == [];
    }
  }

  lemma {:induction false} HexLength(k: nat)
    ensures |Hex(k)| >= 1 && (k < 65536 ==> |Hex(k)| <= 4) && (k < 4096 ==> |Hex(k)| <= 3)
    ensures (k < 256 ==> |Hex(k)| <= 2) && (k < 16 ==> |Hex(k)| == 1)
  {
    if k >= 16 {
      HexLength(k / 16);
    }
  }

  /** The k-th IP of the crowd. */
  function Name(k: nat): string {
    PREFIX + Hex(k)
  }

  /** The number of an IP of the crowd. */
  function Number(ip: string): nat {
    if |ip| > |PREFIX| then HexValue(ip[|PREFIX|..]) else 0
  }

  lemma NameNumber(k: nat)
    ensures Number(Name(k)) == k && Name(k)[0] == '2'
    ensures k < 65536 ==> |Name(k)| <= 45
  {
    HexRoundTrip(k);
    HexLength(k);
    assert Name(k)[|PREFIX|..] == Hex(k);
  }

  function Visit(id: nat, ip: string, attackType: Option<string>, severity: Option<string>): Row {
    Row(AttackEvent(id, 0, ip, 0, 0, "ssh", "", map[]), attackType, severity)
  }

  /** `n` IPs with four rows each, ids counted up from 0. */
  function Crowd(n: nat, attackType: Option<string>, severity: Option<string>): seq<Row> {
    if n == 0 then [] else Visits(4 * (n - 1), Name(n - 1), attackType, severity, Crowd(n - 1, attackType, severity))
  }

  /** Four rows of one IP, with ids from `id`, in front of others. */
  function Visits(id: nat, ip: string, attackType: Option<string>, severity: Option<string>, rest: seq<Row>): seq<Row> {
    [Visit(id, ip, attackType, severity)] +
    ([Visit(id + 1, ip, attackType, severity)] +
     ([Visit(id + 2, ip, attackType, severity)] + ([Visit(id + 3, ip, attackType, severity)] + rest)))
  }

  /** One more IP with three rows of three types, all HIGH. */
  function WithNewcomer(id: nat, crowd: seq<Row>): seq<Row> {
    [Visit(id, NEWCOMER, Some(BRUTE_FORCE), Some(HIGH))] +
    ([Visit(id + 1, NEWCOMER, Some(PORT_SCAN), Some(HIGH))] +
     ([Visit(id + 2, NEWCOMER, Some(HTTP_SCAN), Some(HIGH))] + crowd))
  }

  /** The table that hides the newcomer behind `n` other IPs. */
  function HiddenNewcomer(n: nat, attackType: Option<string>, severity: Option<string>): seq<Row> {
    WithNewcomer(4 * n, Crowd(n, attackType, severity))
  }

  /** The primary key: every id once. */
  ghost predicate UniqueIds(rows: seq<Row>) {
    forall i, j | 0 <= i < j < |rows| :: rows[i].event.id != rows[j].event.id
  }

  predicate IdsBelow(rows: seq<Row>, id: nat) {
    forall row | row in rows :: row.event.id < id
  }

  lemma FrontId(v: Row, rest: seq<Row>)
    requires UniqueIds(rest) && forall row | row in rest :: row.event.id != v.event.id
    ensures UniqueIds([v] + rest)
  {}

  lemma VisitsIds(id: nat, ip: string, attackType: Option<string>, severity: Option<string>, rest: seq<Row>)
    requires UniqueIds(rest) && IdsBelow(rest, id)
    ensures UniqueIds(Visits(id, ip, attackType, severity, rest)) && IdsBelow(Visits(id, ip, attackType, severity, rest), id + 4)
  {
    hide UniqueIds;
    var v0, v1 := Visit(id, ip, attackType, severity), Visit(id + 1, ip, attackType, severity);
    var v2, v3 := Visit(id + 2, ip, attackType, severity), Visit(id + 3, ip, attackType, severity);
    FrontId(v3, rest);
    FrontId(v2, [v3] + rest);
    FrontId(v1, [v2] + ([v3] + rest));
    FrontId(v0, [v1] + ([v2] + ([v3] + rest)));
  }

  lemma {:induction false} CrowdIds(n: nat, attackType: Option<string>, severity: Option<string>)
    ensures UniqueIds(Crowd(n, attackType, severity)) && IdsBelow(Crowd(n, attackType, severity), 4 * n)
  {
    if n > 0 {
      CrowdIds(n - 1, attackType, severity);
      VisitsIds(4 * (n - 1), Name(n - 1), attackType, severity, Crowd(n - 1, attackType, severity));
    }
  }

  lemma NewcomerIds(n: nat, attackType: Option<string>, severity: Option<string>)
    ensures UniqueIds(HiddenNewcomer(n, attackType, severity))
  {
    CrowdIds(n, attackType, severity);
    hide UniqueIds, Crowd;
    var crowd, id := Crowd(n, attackType, severity), 4 * n;
    var c := Visit(id + 2, NEWCOMER, Some(HTTP_SCAN), Some(HIGH));
    var b := Visit(id + 1, NEWCOMER, Some(PORT_SCAN), Some(HIGH));
    FrontId(c, crowd);
    FrontId(b, [c] + crowd);
    FrontId(Visit(id, NEWCOMER, Some(BRUTE_FORCE), Some(HIGH)), [b] + ([c] + crowd));
  }

  /** What the score of an IP depends on: its event count, its types and its worst severity. */
  datatype Standing = Standing(events: nat, types: set<string>, worst: int)

  const ABSENT := Standing(0, {}, 0)

  function StandingOf(rows: seq<Row>, ip: string): (r: Standing)
    ensures r.worst >= 0
  {
    Standing(Count(rows, InGroup(SourceOf, ip, Always)), Types(TypesOf(rows, ip)), MaxSeverity(SeveritiesOf(rows, ip)))
  }

  /** The standing after one more row. */
  function OneMore(attackType: Option<string>, severity: Option<string>, s: Standing): Standing {
    var score := if severity.Some? then SeverityScore(severity.value) else 0;
    Standing(s.events + 1,
             s.types + (if attackType.Some? then {attackType.value} else {}),
             if score >= s.worst then score else s.worst)
  }

  lemma CountFront(v: Row, rest: seq<Row>, ip: string)
    ensures Count([v] + rest, InGroup(SourceOf, ip, Always)) ==
            Count(rest, InGroup(SourceOf, ip, Always)) + (if v.event.sourceIp == ip then 1 else 0)
  {
    assert ([v] + rest)[1..] == rest;
    assert InGroup(SourceOf, ip, Always)(v) == (v.event.sourceIp == ip);
  }

  lemma TypesFront(v: Row, rest: seq<Row>, ip: string)
    ensures Types(TypesOf([v] + rest, ip)) ==
            Types(TypesOf(rest, ip)) +
            (if v.event.sourceIp == ip && v.attackType.Some? then {v.attackType.value} else {})
  {}

  lemma SeveritiesFront(v: Row, rest: seq<Row>, ip: string)
    ensures SeveritiesOf([v] + rest, ip) ==
            (if v.event.sourceIp == ip && v.severity.Some? then [v.severity.value] else []) + SeveritiesOf(rest, ip)
  {}

  lemma WorstFront(severity: string, rest: seq<string>)
    ensures MaxSeverity([severity] + rest) ==
            if SeverityScore(severity) >= MaxSeverity(rest) then SeverityScore(severity) else MaxSeverity(rest)
  {}

  lemma KeysFront(v: Row, rest: seq<Row>)
    ensures Keys([v] + rest, SourceOf) == {v.event.sourceIp} + Keys(rest, SourceOf)
  {
    assert v in [v] + rest && forall row | row in rest :: row in [v] + rest;
  }

  lemma FrontRow(v: Row, rest: seq<Row>, ip: string)
    ensures StandingOf([v] + rest, ip) ==
            if v.event.sourceIp == ip then OneMore(v.attackType, v.severity, StandingOf(rest, ip)) else StandingOf(rest, ip)
    ensures Keys([v] + rest, SourceOf) == {v.event.sourceIp} + Keys(rest, SourceOf)
  {
    KeysFront(v, rest);
    CountFront(v, rest, ip);
    TypesFront(v, rest, ip);
    SeveritiesFront(v, rest, ip);
    hide Count, Types, TypesOf, SeveritiesOf, MaxSeverity;
    if v.severity.Some? {
      WorstFront(v.severity.value, SeveritiesOf(rest, ip));
    }
  }

  function FourMore(attackType: Option<string>, severity: Option<string>, s: Standing): Standing {
    OneMore(attackType, severity,
            OneMore(attackType, severity, OneMore(attackType, severity, OneMore(attackType, severity, s))))
  }

  lemma FourRows(id: nat, source: string, attackType: Option<string>, severity: Option<string>, rest: seq<Row>, ip: string)
    ensures var rows := Visits(id, source, attackType, severity, rest);
            StandingOf(rows, ip) ==
              (if source == ip then FourMore(attackType, severity, StandingOf(rest, ip)) else StandingOf(rest, ip)) &&
            Keys(rows, SourceOf) == {source} + Keys(rest, SourceOf)
  {
    hide StandingOf, OneMore, Keys;
    var v0, v1 := Visit(id, source, attackType, severity), Visit(id + 1, source, attackType, severity);
    var v2, v3 := Visit(id + 2, source, attackType, severity), Visit(id + 3, source, attackType, severity);
    FrontRow(v3, rest, ip);
    FrontRow(v2, [v3] + rest, ip);
    FrontRow(v1, [v2] + ([v3] + rest), ip);
    FrontRow(v0, [v1] + ([v2] + ([v3] + rest)), ip);
  }

  /** Whether an IP belongs to a crowd of `n`. */
  predicate InCrowd(ip: string, n: nat) {
    Number(ip) < n && ip == Name(Number(ip))
  }

  function CrowdStanding(attackType: Option<string>, severity: Option<string>): Standing {
    Standing(4, if attackType.Some? then {attackType.value} else {},
             if severity.Some? then SeverityScore(severity.value) else 0)
  }

  lemma CrowdGrows(n: nat, ip: string)
    requires n > 0
    ensures InCrowd(ip, n) <==> InCrowd(ip, n - 1) || ip == Name(n - 1)
    ensures !InCrowd(Name(n - 1), n - 1)
  {
    NameNumber(n - 1);
    hide Name, Number;
  }

  lemma EmptyStands(ip: string)
    ensures StandingOf([], ip) == ABSENT && Keys([], SourceOf) == {}
  {}

  lemma FourOfAbsent(attackType: Option<string>, severity: Option<string>)
    ensures FourMore(attackType, severity, ABSENT) == CrowdStanding(attackType, severity)
  {}

  lemma {:induction false} CrowdStands(n: nat, attackType: Option<string>, severity: Option<string>, ip: string)
    ensures StandingOf(Crowd(n, attackType, severity), ip) ==
            if InCrowd(ip, n) then CrowdStanding(attackType, severity) else ABSENT
    ensures ip in Keys(Crowd(n, attackType, severity), SourceOf) <==> InCrowd(ip, n)
  {
    hide StandingOf, Keys, FourMore, CrowdStanding, Visits;
    if n > 0 {
      CrowdStands(n - 1, attackType, severity, ip);
      CrowdGrows(n, ip);
      FourRows(4 * (n - 1), Name(n - 1), attackType, severity, Crowd(n - 1, attackType, severity), ip);
      FourOfAbsent(attackType, severity);
    } else {
      EmptyStands(ip);
    }
  }

  predicate AreVisits(rows: seq<Row>, attackType: Option<string>, severity: Option<string>) {
    forall row | row in rows :: row == Visit(row.event.id, row.event.sourceIp, attackType, severity)
  }

  lemma VisitsAreVisits(id: nat, ip: string, attackType: Option<string>, severity: Option<string>, rest: seq<Row>)
    requires AreVisits(rest, attackType, severity)
    ensures AreVisits(Visits(id, ip, attackType, severity, rest), attackType, severity)
  {}

  lemma NoVisits(attackType: Option<string>, severity: Option<string>)
    ensures AreVisits([], attackType, severity)
  {}

  lemma {:induction false} CrowdRows(n: nat, attackType: Option<string>, severity: Option<string>)
    ensures AreVisits(Crowd(n, attackType, severity), attackType, severity)
  {
    hide AreVisits, Visits;
    if n > 0 {
      CrowdRows(n - 1, attackType, severity);
      VisitsAreVisits(4 * (n - 1), Name(n - 1), attackType, severity, Crowd(n - 1, attackType, severity));
    } else {
      NoVisits(attackType, severity);
    }
  }

  lemma NewcomerStands(id: nat, crowd: seq<Row>, ip: string)
    ensures StandingOf(WithNewcomer(id, crowd), ip) ==
            if ip == NEWCOMER then
              var s := StandingOf(crowd, ip);
              Standing(s.events + 3, s.types + {HTTP_SCAN} + {PORT_SCAN} + {BRUTE_FORCE}, if 30 >= s.worst then 30 else s.worst)
            else StandingOf(crowd, ip)
    ensures Keys(WithNewcomer(id, crowd), SourceOf) == {NEWCOMER} + Keys(crowd, SourceOf)
  {
    hide StandingOf, Keys;
    var c := Visit(id + 2, NEWCOMER, Some(HTTP_SCAN), Some(HIGH));
    var b := Visit(id + 1, NEWCOMER, Some(PORT_SCAN), Some(HIGH));
    FrontRow(c, crowd, ip);
    FrontRow(b, [c] + crowd, ip);
    FrontRow(Visit(id, NEWCOMER, Some(BRUTE_FORCE), Some(HIGH)), [b] + ([c] + crowd), ip);
  }

  lemma {:induction false} AllInRange(rows: seq<Row>)
    requires forall row | row in rows :: row.event.timestamp == 0
    ensures InRange(rows, None, 0) == rows
  {
    if rows != [] {
      assert rows[0] in rows && forall row | row in rows[1..] :: row in rows;
      AllInRange(rows[1..]);
    }
  }

  function Names(n: nat): (names: seq<string>)
    ensures |names| == n
  {
    seq(n, k requires 0 <= k < n => Name(k))
  }

  lemma NamesAreCrowd(n: nat)
    ensures Distinct(Names(n))
    ensures forall ip :: ip in Names(n) <==> InCrowd(ip, n)
  {
    hide Name, Number;
    forall k: nat
      ensures Number(Name(k)) == k
    {
      NameNumber(k);
    }
    forall ip | InCrowd(ip, n)
      ensures ip in Names(n)
    {
      assert Names(n)[Number(ip)] == ip;
    }
  }

  lemma NewcomerIsNew(n: nat)
    ensures !InCrowd(NEWCOMER, n)
  {
    NameNumber(Number(NEWCOMER));
    hide Name, Number;
  }

  /** The score, from the standing alone. */
  function ScoreOf(s: Standing): int {
    var score := ExactFrequency(s.events) + (if |s.types| * 10 < 30 then |s.types| * 10 else 30) + s.worst;
    if score < 100 then score else 100
  }

  lemma ScoreByStanding(rows: seq<Row>, ip: string)
    requires forall row | row in rows :: row.event.timestamp == 0
    ensures InRange(rows, None, 0) == rows
    ensures EventsOf(rows, None, 0, ip) == StandingOf(rows, ip).events
    ensures Score(ExactFrequency, rows, None, 0, ip) == ScoreOf(StandingOf(rows, ip))
  {
    AllInRange(rows);
  }

  lemma CrowdScores(attackType: Option<string>, severity: Option<string>)
    ensures ScoreOf(CrowdStanding(attackType, severity)) ==
            (if attackType.Some? then 10 else 0) + (if severity.Some? then SeverityScore(severity.value) else 0)
  {}

  lemma NewcomerScore()
    ensures ScoreOf(Standing(0 + 3, {} + {HTTP_SCAN} + {PORT_SCAN} + {BRUTE_FORCE}, 30)) == 60
  {}

  lemma Unevenness(n: nat, attackType: Option<string>, severity: Option<string>, rows: seq<Row>, ip: string)
    requires rows == HiddenNewcomer(n, attackType, severity) && InCrowd(ip, n)
    ensures EventsOf(rows, None, 0, ip) == 4 && EventsOf(rows, None, 0, NEWCOMER) == 3
    ensures Score(ExactFrequency, rows, None, 0, NEWCOMER) == 60
    ensures Score(ExactFrequency, rows, None, 0, ip) ==
            (if attackType.Some? then 10 else 0) + (if severity.Some? then SeverityScore(severity.value) else 0)
  {
    hide StandingOf, Score, EventsOf, InRange, ScoreOf, Crowd, WithNewcomer, InCrowd;
    AtZero(n, attackType, severity);
    ScoreByStanding(rows, ip);
    ScoreByStanding(rows, NEWCOMER);
    CrowdStands(n, attackType, severity, ip);
    CrowdStands(n, attackType, severity, NEWCOMER);
    NewcomerStands(4 * n, Crowd(n, attackType, severity), ip);
    NewcomerStands(4 * n, Crowd(n, attackType, severity), NEWCOMER);
    NewcomerIsNew(n);
    CrowdScores(attackType, severity);
    NewcomerScore();
  }

  lemma AtZero(n: nat, attackType: Option<string>, severity: Option<string>)
    ensures forall row | row in HiddenNewcomer(n, attackType, severity) :: row.event.timestamp == 0
  {
    hide Crowd;
    CrowdRows(n, attackType, severity);
  }

  /** The crowd fills all candidate places, and the newcomer is left out. */
  lemma CrowdIsTop(n: nat, attackType: Option<string>, severity: Option<string>, rows: seq<Row>)
    requires rows == HiddenNewcomer(n, attackType, severity)
    ensures InRange(rows, None, 0) == rows && NEWCOMER in Keys(rows, SourceOf)
    ensures IsTopIps(Names(n), rows, None, 0, n)
  {
    AtZero(n, attackType, severity);
    ScoreByStanding(rows, NEWCOMER);
    NamesAreCrowd(n);
    var crowd := Crowd(n, attackType, severity);
    hide StandingOf, Score, EventsOf, InRange, ScoreOf, Crowd, WithNewcomer, InCrowd, Keys, Names;
    NewcomerStands(4 * n, crowd, NEWCOMER);
    forall ip
      ensures ip in Keys(rows, SourceOf) <==> ip in Names(n) || ip == NEWCOMER
    {
      CrowdStands(n, attackType, severity, ip);
    }
    NewcomerIsNew(n);
    DistinctSize(Names(n));
    StrictSubsetSize((set ip | ip in Names(n)), Keys(rows, SourceOf), NEWCOMER);
    forall ip | ip in Names(n)
      ensures EventsOf(rows, None, 0, NEWCOMER) <= EventsOf(rows, None, 0, ip)
    {
      Unevenness(n, attackType, severity, rows, ip);
    }
  }

  /** The addresses fit their column. */
  lemma {:induction false} CrowdNames(n: nat, attackType: Option<string>, severity: Option<string>)
    ensures n <= 65536 ==> forall row | row in Crowd(n, attackType, severity) :: |row.event.sourceIp| <= 45
  {
    if n > 0 {
      CrowdNames(n - 1, attackType, severity);
      NameNumber(n - 1);
      hide Name;
    }
  }

  /**
   For every limit both bounds are attained, by tables with unique ids and, up to the endpoint's largest
   limit, addresses that fit their column: an unlabelled crowd hides a newcomer that scores 60 more than
   every IP shown, and a fully labelled one a newcomer that scores 45 more.
   */
  lemma BoundIsTight(limit: nat, labelled: bool) returns (rows: seq<Row>, ips: seq<string>)
    requires limit >= 1
    ensures IsTopIps(ips, rows, None, 0, Candidates(limit)) && NEWCOMER in Keys(InRange(rows, None, 0), SourceOf)
    ensures UniqueIds(rows)
    ensures limit <= 100 ==> forall row | row in rows :: |row.event.sourceIp| <= 45
    ensures labelled ==> forall row | row in rows ::
              row.attackType.Some? && row.severity.Some? && row.severity.value in SEVERITIES
    ensures var top := RankingOf(ExactFrequency, rows, None, 0, limit, ips);
            |top| == limit && Excluded(top, NEWCOMER) &&
            forall p | p in top ::
              Score(ExactFrequency, rows, None, 0, NEWCOMER) - p.riskScore == if labelled then 45 else 60
  {
    var n := Candidates(limit);
    var attackType := if labelled then Some(SUSPICIOUS) else None;
    var severity := if labelled then Some(LOW) else None;
    rows, ips := HiddenNewcomer(n, attackType, severity), Names(n);
    NewcomerIds(n, attackType, severity);
    CrowdNames(n, attackType, severity);
    CrowdRows(n, attackType, severity);
    hide Score, EventsOf, InRange, Crowd, InCrowd, Keys, Names, IsTopIps;
    CrowdIsTop(n, attackType, severity, rows);
    NamesAreCrowd(n);
    NewcomerIsNew(n);
    var profiles := Profiles(ExactFrequency, rows, None, 0, ips);
    var top := RankingOf(ExactFrequency, rows, None, 0, limit, ips);
    InMultiset(Sort(profiles, ByScore), profiles);
    hide Sort, HiddenNewcomer, Profiles;
    forall p | p in top
      ensures p.sourceIp != NEWCOMER
      ensures Score(ExactFrequency, rows, None, 0, NEWCOMER) - p.riskScore == if labelled then 45 else 60
    {
      assert p in profiles;
      ProfileOf(ExactFrequency, rows, None, 0, ips, p);
      Unevenness(n, attackType, severity, rows, p.sourceIp);
    }
  }
}
