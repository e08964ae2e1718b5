/** The dashboard's aggregates over one snapshot: summary, timeline, per-IP counts and label counts. */
module Aggregates {
  import opened Events
  import opened Classifier
  import opened Sequences
  import opened Repository
  import opened GeoIP
  import opened Countries

  predicate Always(row: Row) {
    true
  }

  predicate IsSsh(row: Row) {
    row.event.protocol == "ssh"
  }

  predicate IsHttp(row: Row) {
    row.event.protocol == "http"
  }

  function SourceOf(row: Row): string {
    row.event.sourceIp
  }

  function BucketOf(bucket: int -> int): Row -> int {
    (row: Row) => bucket(row.event.timestamp)
  }

  function Keys<K>(rows: seq<Row>, key: Row -> K): set<K> {
    set row | row in rows :: key(row)
  }

  function InGroup<K(==)>(key: Row -> K, k: K, p: Row -> bool): Row -> bool {
    row => key(row) == k && p(row)
  }

  /** COUNT(...) FILTER (WHERE p) of one group. */
  function GroupCount<K(==)>(rows: seq<Row>, key: Row -> K, k: K, p: Row -> bool): nat {
    Count(rows, InGroup(key, k, p))
  }

  datatype Summary = Summary(total: nat, uniqueIps: nat, ssh: nat, http: nat)

  function InRange(rows: seq<Row>, since: Option<int>, until: int): seq<Row> {
    Found(rows, Between(since, until))
  }

  function GetSummary(rows: seq<Row>, since: Option<int>, until: int): Summary {
    var found := InRange(rows, since, until);
    Summary(|found|, |Keys(found, SourceOf)|, Count(found, IsSsh), Count(found, IsHttp))
  }

  datatype Bucket = Bucket(start: int, total: int, ssh: int, http: int)

  /** GROUP BY bucket ORDER BY bucket, for any bucket function. */
  ghost predicate IsTimeline(out: seq<Bucket>, rows: seq<Row>, bucket: int -> int, since: Option<int>, until: int) {
    var found, key := InRange(rows, since, until), BucketOf(bucket);
    (forall i, j | 0 <= i < j < |out| :: out[i].start < out[j].start) &&
    (set b | b in out :: b.start) == Keys(found, key) &&
    forall b | b in out ::
      b.total == GroupCount(found, key, b.start, Always) &&
      b.ssh == GroupCount(found, key, b.start, IsSsh) &&
      b.http == GroupCount(found, key, b.start, IsHttp)
  }

  /** GROUP BY source_ip ORDER BY count DESC, ties in any order. */
  ghost predicate IsIpCounts(out: seq<(string, int)>, rows: seq<Row>, since: Option<int>, until: int) {
    var found := InRange(rows, since, until);
    (forall i, j | 0 <= i < j < |out| :: out[i].0 != out[j].0 && out[i].1 >= out[j].1) &&
    (set pair | pair in out :: pair.0) == Keys(found, SourceOf) &&
    forall pair | pair in out :: pair.1 == GroupCount(found, SourceOf, pair.0, Always)
  }

  // ----- Groups add up to the whole -----

  lemma {:induction false} SumSame<T>(s: seq<T>, f: T -> int, g: T -> int)
    requires forall x | x in s :: f(x) == g(x)
    ensures Sum(s, f) == Sum(s, g)
  {
    if s != [] {
      assert s[0] in s && forall x | x in s[1..] :: x in s;
      SumSame(s[1..], f, g);
    }
  }

  /** One more unit in exactly one group. */
  lemma {:induction false} SumOneMore<T>(s: seq<T>, f: T -> int, g: T -> int, one: T, more: int)
    requires Distinct(s) && one in s
    requires forall x | x in s :: g(x) == f(x) + (if x == one then more else 0)
    ensures Sum(s, g) == Sum(s, f) + more
  {
    assert s[0] in s && forall x | x in s[1..] :: x in s;
    if s[0] == one {
      assert forall i | 0 <= i < |s| - 1 :: s[1..][i] == s[i + 1];
      assert forall x | x in s[1..] :: x != one;
      SumSame(s[1..], f, g);
    } else {
      SumOneMore(s[1..], f, g, one, more);
    }
  }

  /** The counts per group, as a function of the group. */
  function Counts<K(==)>(rows: seq<Row>, key: Row -> K, p: Row -> bool): K -> int {
    k => GroupCount(rows, key, k, p)
  }

  lemma {:induction false} SumZero<T>(s: seq<T>, f: T -> int)
    requires forall x | x in s :: f(x) == 0
    ensures Sum(s, f) == 0
  {
    if s != [] {
      assert s[0] in s && forall x | x in s[1..] :: x in s;
      SumZero(s[1..], f);
    }
  }

  /** Every row is in exactly one group, so the groups of any condition add up to its count. */
  lemma {:induction false} GroupsConserve<K>(keys: seq<K>, rows: seq<Row>, key: Row -> K, p: Row -> bool)
    requires Distinct(keys) && Keys(rows, key) <= (set k | k in keys)
    ensures Sum(keys, Counts(rows, key, p)) == Count(rows, p)
  {
    if rows == [] {
      SumZero(keys, Counts(rows, key, p));
    } else {
      var rest := rows[1..];
      assert rows[0] in rows && forall row | row in rest :: row in rows;
      GroupsConserve(keys, rest, key, p);
      assert key(rows[0]) in Keys(rows, key);
      SumOneMore(keys, Counts(rest, key, p), Counts(rows, key, p), key(rows[0]), if p(rows[0]) then 1 else 0);
    }
  }

  /** Sums over a result listed group by group. */
  lemma {:induction false} SumByKey<T, K>(out: seq<T>, keys: seq<K>, f: T -> int, g: K -> int)
    requires |out| == |keys| && forall i | 0 <= i < |out| :: f(out[i]) == g(keys[i])
    ensures Sum(out, f) == Sum(keys, g)
  {
    if out != [] {
      SumByKey(out[1..], keys[1..], f, g);
    }
  }

  function BucketTotal(): Bucket -> int {
    (b: Bucket) => b.total
  }

  function BucketSsh(): Bucket -> int {
    (b: Bucket) => b.ssh
  }

  function BucketHttp(): Bucket -> int {
    (b: Bucket) => b.http
  }

  function PairCount(): ((string, int)) -> int {
    (pair: (string, int)) => pair.1
  }

  lemma CountAlways(rows: seq<Row>)
    ensures Where(rows, Always) == rows
  {}

  lemma TimelineAddsUp(out: seq<Bucket>, rows: seq<Row>, bucket: int -> int, since: Option<int>, until: int)
    requires IsTimeline(out, rows, bucket, since, until)
    ensures var s := GetSummary(rows, since, until);
            Sum(out, BucketTotal()) == s.total && Sum(out, BucketSsh()) == s.ssh && Sum(out, BucketHttp()) == s.http
  {
    var found, key := InRange(rows, since, until), BucketOf(bucket);
    var keys := seq(|out|, i requires 0 <= i < |out| => out[i].start);
    assert Distinct(keys);
    forall k | k in Keys(found, key)
      ensures k in keys
    {
      var b :| b in out && b.start == k;
      var i :| 0 <= i < |out| && out[i] == b;
      assert keys[i] == k;
    }
    CountAlways(found);
    GroupsConserve(keys, found, key, Always);
    GroupsConserve(keys, found, key, IsSsh);
    GroupsConserve(keys, found, key, IsHttp);
    SumByKey(out, keys, BucketTotal(), Counts(found, key, Always));
    SumByKey(out, keys, BucketSsh(), Counts(found, key, IsSsh));
    SumByKey(out, keys, BucketHttp(), Counts(found, key, IsHttp));
  }

  lemma IpCountsAddUp(out: seq<(string, int)>, rows: seq<Row>, since: Option<int>, until: int)
    requires IsIpCounts(out, rows, since, until)
    ensures var s := GetSummary(rows, since, until);
            Sum(out, PairCount()) == s.total && |out| == s.uniqueIps
  {
    var found := InRange(rows, since, until);
    var keys := seq(|out|, i requires 0 <= i < |out| => out[i].0);
    assert Distinct(keys);
    assert (set k | k in keys) == Keys(found, SourceOf) by {
      assert forall i | 0 <= i < |out| :: keys[i] == out[i].0;
      forall k | k in Keys(found, SourceOf)
        ensures k in keys
      {
        var pair :| pair in out && pair.0 == k;
        var i :| 0 <= i < |out| && out[i] == pair;
        assert keys[i] == k;
      }
      forall k | k in keys
        ensures k in Keys(found, SourceOf)
      {
        var i :| 0 <= i < |keys| && keys[i] == k;
        assert out[i] in out;
      }
    }
    CountAlways(found);
    GroupsConserve(keys, found, SourceOf, Always);
    SumByKey(out, keys, PairCount(), Counts(found, SourceOf, Always));
    DistinctSize(keys);
  }

  /** The rows of a range, by what their columns say. */
  predicate Selected(row: Row, since: Option<int>, until: int, protocol: Option<string>) {
    (since == None || since.value <= row.event.timestamp) && row.event.timestamp <= until &&
    (protocol == None || protocol == Some(row.event.protocol))
  }

  /** How many rows of the table these are. */
  function Size(rows: seq<Row>, since: Option<int>, until: int, protocol: Option<string>): nat {
    |set i: nat | i < |rows| && Selected(rows[i], since, until, protocol)|
  }

  lemma CountSelected(rows: seq<Row>, since: Option<int>, until: int, p: Row -> bool, protocol: Option<string>)
    requires forall row :: Selected(row, since, until, protocol) == (Selected(row, since, until, None) && p(row))
    ensures Count(InRange(rows, since, until), p) == Size(rows, since, until, protocol)
  {
    var selected := row => Matches(row, Between(since, until)) && p(row);
    CountInRange(rows, since, until, p);
    CountIsSize(rows, selected);
    assert Places(rows, selected) == set i: nat | i < |rows| && Selected(rows[i], since, until, protocol);
  }

  /** The summary counts the rows in range, both bounds included, those of either protocol, and their distinct IPs. */
  lemma SummaryCounts(rows: seq<Row>, since: Option<int>, until: int)
    ensures var s := GetSummary(rows, since, until);
            s.total == Size(rows, since, until, None) &&
            s.ssh == Size(rows, since, until, Some("ssh")) && s.http == Size(rows, since, until, Some("http")) &&
            s.uniqueIps == |set row | row in rows && Selected(row, since, until, None) :: row.event.sourceIp|
  {
    CountAlways(InRange(rows, since, until));
    CountSelected(rows, since, until, Always, None);
    CountSelected(rows, since, until, IsSsh, Some("ssh"));
    CountSelected(rows, since, until, IsHttp, Some("http"));
    FoundSelects(rows, Between(since, until));
    assert Keys(InRange(rows, since, until), SourceOf) ==
           set row | row in rows && Selected(row, since, until, None) :: row.event.sourceIp;
  }

  /** The rows in range of one IP. */
  function SizeOf(rows: seq<Row>, since: Option<int>, until: int, ip: string): nat {
    |set i: nat | i < |rows| && Selected(rows[i], since, until, None) && rows[i].event.sourceIp == ip|
  }

  /** The rows in range that fall into one bucket. */
  function SizeIn(rows: seq<Row>, since: Option<int>, until: int, protocol: Option<string>,
                  bucket: int -> int, start: int): nat
  {
    |set i: nat | i < |rows| && Selected(rows[i], since, until, protocol) && bucket(rows[i].event.timestamp) == start|
  }

  lemma GroupIsSize<K>(rows: seq<Row>, since: Option<int>, until: int, key: Row -> K, k: K, p: Row -> bool,
                       places: set<nat>)
    requires forall i :: i in places <==> 0 <= i < |rows| && Selected(rows[i], since, until, None) &&
                                          key(rows[i]) == k && p(rows[i])
    ensures GroupCount(InRange(rows, since, until), key, k, p) == |places|
  {
    var own := InGroup(key, k, p);
    var selected := row => Matches(row, Between(since, until)) && own(row);
    CountInRange(rows, since, until, own);
    CountIsSize(rows, selected);
    forall i
      ensures i in Places(rows, selected) <==> i in places
    {
      if 0 <= i < |rows| {
        assert own(rows[i]) <==> key(rows[i]) == k && p(rows[i]);
      }
    }
    assert Places(rows, selected) == places;
  }

  lemma IpCountIsSize(rows: seq<Row>, since: Option<int>, until: int, ip: string)
    ensures GroupCount(InRange(rows, since, until), SourceOf, ip, Always) == SizeOf(rows, since, until, ip)
  {
    GroupIsSize(rows, since, until, SourceOf, ip, Always,
                set i: nat | i < |rows| && Selected(rows[i], since, until, None) && rows[i].event.sourceIp == ip);
  }

  /** Every entry of the timeline and of the per-IP counts counts the rows of its bucket or IP, and no others. */
  lemma GroupsCountRows(rows: seq<Row>, since: Option<int>, until: int, bucket: int -> int,
                        timeline: seq<Bucket>, ipCounts: seq<(string, int)>, b: Bucket, pair: (string, int))
    requires IsTimeline(timeline, rows, bucket, since, until) && IsIpCounts(ipCounts, rows, since, until)
    ensures b in timeline ==>
              b.total == SizeIn(rows, since, until, None, bucket, b.start) > 0 &&
              b.ssh == SizeIn(rows, since, until, Some("ssh"), bucket, b.start) &&
              b.http == SizeIn(rows, since, until, Some("http"), bucket, b.start)
    ensures pair in ipCounts ==> pair.1 == SizeOf(rows, since, until, pair.0) > 0
  {
    IpCountIsSize(rows, since, until, pair.0);
    BucketIsSize(rows, since, until, bucket, b.start, Always, None);
    BucketIsSize(rows, since, until, bucket, b.start, IsSsh, Some("ssh"));
    BucketIsSize(rows, since, until, bucket, b.start, IsHttp, Some("http"));
    var found := InRange(rows, since, until);
    if b in timeline {
      assert b.start in Keys(found, BucketOf(bucket));
      GroupIsThere(found, BucketOf(bucket), b.start);
    }
    if pair in ipCounts {
      assert pair.0 in Keys(found, SourceOf);
      GroupIsThere(found, SourceOf, pair.0);
    }
  }

  lemma GroupIsThere<K>(rows: seq<Row>, key: Row -> K, k: K)
    requires k in Keys(rows, key)
    ensures GroupCount(rows, key, k, Always) > 0
  {
    var own := InGroup(key, k, Always);
    var row :| row in rows && key(row) == k;
    WhereSelects(rows, own);
    assert row in Where(rows, own);
  }

  lemma BucketIsSize(rows: seq<Row>, since: Option<int>, until: int, bucket: int -> int, start: int,
                     p: Row -> bool, protocol: Option<string>)
    requires forall row :: Selected(row, since, until, protocol) == (Selected(row, since, until, None) && p(row))
    ensures GroupCount(InRange(rows, since, until), BucketOf(bucket), start, p) ==
            SizeIn(rows, since, until, protocol, bucket, start)
  {
    GroupIsSize(rows, since, until, BucketOf(bucket), start, p,
                set i: nat | i < |rows| && Selected(rows[i], since, until, protocol) &&
                             bucket(rows[i].event.timestamp) == start);
  }

  /** All aggregates of one snapshot and range agree with each other. */
  lemma AggregatesAgree(rows: seq<Row>, since: Option<int>, until: int, bucket: int -> int,
                        timeline: seq<Bucket>, ipCounts: seq<(string, int)>)
    requires IsTimeline(timeline, rows, bucket, since, until) && IsIpCounts(ipCounts, rows, since, until)
    ensures var s := GetSummary(rows, since, until);
            Sum(timeline, BucketTotal()) == s.total == Sum(ipCounts, PairCount()) &&
            Sum(timeline, BucketSsh()) == s.ssh && Sum(timeline, BucketHttp()) == s.http &&
            |ipCounts| == s.uniqueIps
  {
    TimelineAddsUp(timeline, rows, bucket, since, until);
    IpCountsAddUp(ipCounts, rows, since, until);
  }

  /** The protocol split covers the total exactly when every row in range is one of the two protocols. */
  lemma ProtocolsCoverIff(rows: seq<Row>, since: Option<int>, until: int)
    ensures var s := GetSummary(rows, since, until);
            s.ssh + s.http == s.total <==>
            forall row | row in InRange(rows, since, until) :: row.event.protocol in {"ssh", "http"}
  {
    CountSplits(InRange(rows, since, until), IsSsh, IsHttp);
  }

  /** The ranking by country, before truncation, accounts for every event in range. */
  lemma CountriesCoverAll(out: seq<(string, int)>, rows: seq<Row>, since: Option<int>, until: int, source: Source)
    requires IsIpCounts(out, rows, since, until)
    ensures Sum(Ranking(LocatedAll(out, source)), CountOf()) == GetSummary(rows, since, until).total
  {
    var items := LocatedAll(out, source);
    RankingConserves(items);
    SumByKey(items, out, CountOf(), PairCount());
    IpCountsAddUp(out, rows, since, until);
  }

  // ----- Wider ranges -----

  predicate Wider(since: Option<int>, until: int, since': Option<int>, until': int) {
    until <= until' && (since'.Some? ==> since.Some? && since'.value <= since.value)
  }

  lemma CountInRange(rows: seq<Row>, since: Option<int>, until: int, p: Row -> bool)
    ensures Count(InRange(rows, since, until), p) ==
            Count(rows, row => Matches(row, Between(since, until)) && p(row))
  {
    WhereTwice(rows, row => Matches(row, Between(since, until)), p,
               row => Matches(row, Between(since, until)) && p(row));
  }

  lemma WiderCounts(rows: seq<Row>, since: Option<int>, until: int, since': Option<int>, until': int, p: Row -> bool)
    requires Wider(since, until, since', until')
    ensures Count(InRange(rows, since, until), p) <= Count(InRange(rows, since', until'), p)
  {
    CountInRange(rows, since, until, p);
    CountInRange(rows, since', until', p);
    CountMonotone(rows, row => Matches(row, Between(since, until)) && p(row),
                  row => Matches(row, Between(since', until')) && p(row));
  }

  /** Widening the range never lowers a total, a protocol count, the number of IPs, or any group's count. */
  lemma WideningIsMonotone(rows: seq<Row>, since: Option<int>, until: int, since': Option<int>, until': int,
                           bucket: int -> int, start: int, ip: string)
    requires Wider(since, until, since', until')
    ensures var s, t := GetSummary(rows, since, until), GetSummary(rows, since', until');
            s.total <= t.total && s.uniqueIps <= t.uniqueIps && s.ssh <= t.ssh && s.http <= t.http
    ensures GroupCount(InRange(rows, since, until), BucketOf(bucket), start, Always) <=
            GroupCount(InRange(rows, since', until'), BucketOf(bucket), start, Always)
    ensures GroupCount(InRange(rows, since, until), SourceOf, ip, Always) <=
            GroupCount(InRange(rows, since', until'), SourceOf, ip, Always)
  {
    var some, more := InRange(rows, since, until), InRange(rows, since', until');
    CountAlways(some);
    CountAlways(more);
    WiderCounts(rows, since, until, since', until', Always);
    WiderCounts(rows, since, until, since', until', IsSsh);
    WiderCounts(rows, since, until, since', until', IsHttp);
    WiderCounts(rows, since, until, since', until', InGroup(BucketOf(bucket), start, Always));
    WiderCounts(rows, since, until, since', until', InGroup(SourceOf, ip, Always));
    FoundSelects(rows, Between(since, until));
    FoundSelects(rows, Between(since', until'));
    SubsetSize(Keys(some, SourceOf), Keys(more, SourceOf));
  }

  // ----- Severity summary -----

  function HasSeverity(severity: string): Row -> bool {
    (row: Row) => row.severity == Some(severity)
  }

  /** The three levels of the severity summary, zero where absent. */
  function SeveritySum(rows: seq<Row>, since: Option<int>, until: int): nat {
    var found := InRange(rows, since, until);
    Count(found, HasSeverity(HIGH)) + Count(found, HasSeverity(MEDIUM)) + Count(found, HasSeverity(LOW))
  }

  lemma {:induction false} ThreeWaySplit(rows: seq<Row>)
    ensures var n := Count(rows, HasSeverity(HIGH)) + Count(rows, HasSeverity(MEDIUM)) + Count(rows, HasSeverity(LOW));
            n <= |rows| &&
            (n == |rows| <==> forall row | row in rows :: row.severity.Some? && row.severity.value in SEVERITIES)
  {
    if rows != [] {
      assert rows == [rows[0]] + rows[1..];
      assert forall row | row in rows :: row == rows[0] || row in rows[1..];
      ThreeWaySplit(rows[1..]);
    }
  }

  /** The severity summary adds up to the total exactly when every row in range carries one of the three levels. */
  lemma SeveritiesCoverIff(rows: seq<Row>, since: Option<int>, until: int)
    ensures SeveritySum(rows, since, until) == GetSummary(rows, since, until).total <==>
            forall row | row in InRange(rows, since, until) :: row.severity.Some? && row.severity.value in SEVERITIES
  {
    ThreeWaySplit(InRange(rows, since, until));
  }
}
