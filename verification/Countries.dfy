/** Country totals: resolve through the stateful cache, group, sort, truncate. */
module Countries {
  import opened Events
  import opened Sequences
  import opened GeoIP

  const UNKNOWN_COUNTRY := "UNKNOWN"

  datatype CountryCount = CountryCount(code: string, count: int)

  function CodeOf(location: GeoLocation): string {
    if location.countryCode.Some? then location.countryCode.value else UNKNOWN_COUNTRY
  }

  /** Count descending, then code ascending. */
  predicate Before(a: CountryCount, b: CountryCount) {
    a.count > b.count || (a.count == b.count && StringLeq(a.code, b.code))
  }

  lemma BeforeIsTotal()
    ensures TotalPreorder(Before)
  {
    forall a, b
      ensures Before(a, b) || Before(b, a)
    {
      StringLeqTotal(a.code, b.code);
    }
    forall a, b, c | Before(a, b) && Before(b, c)
      ensures Before(a, c)
    {
      if a.count == b.count == c.count {
        StringLeqTransitive(a.code, b.code, c.code);
      }
    }
  }

  lemma BeforeIsStrict(a: CountryCount, b: CountryCount)
    requires Before(a, b) && Before(b, a)
    ensures a == b
  {
    StringLeqAntisymmetric(a.code, b.code);
  }

  /** An (IP, count) pair reduced to its country. */
  function Located(pair: (string, int), source: Source): CountryCount {
    CountryCount(CodeOf(source.Answer(Some(pair.0))), pair.1)
  }

  function LocatedAll(pairs: seq<(string, int)>, source: Source): (items: seq<CountryCount>)
    ensures |items| == |pairs|
  {
    seq(|pairs|, i requires 0 <= i < |pairs| => Located(pairs[i], source))
  }

  function CountOf(): CountryCount -> int {
    (item: CountryCount) => item.count
  }

  /** Counts towards one country only. */
  function CountIn(code: string): CountryCount -> int {
    (item: CountryCount) => if item.code == code then item.count else 0
  }

  /** What the group of one country adds up to. */
  function Total(items: seq<CountryCount>, code: string): int {
    Sum(items, CountIn(code))
  }

  function Codes(items: seq<CountryCount>): set<string> {
    set item | item in items :: item.code
  }

  /**
   Reference: `out` is the grouping of `items`, one entry per country present, each with the exact
   total of that country, strictly ordered by (-count, code).
   */
  ghost predicate IsRanking(items: seq<CountryCount>, out: seq<CountryCount>) {
    SortedBy(out, Before) &&
    (forall i, j | 0 <= i < j < |out| :: out[i].code != out[j].code) &&
    Codes(out) == Codes(items) &&
    forall entry | entry in out :: entry.count == Total(items, entry.code)
  }

  /** One entry per listed code. */
  function Entries(codes: seq<string>, items: seq<CountryCount>): (entries: seq<CountryCount>)
    ensures |entries| == |codes|
  {
    seq(|codes|, i requires 0 <= i < |codes| => CountryCount(codes[i], Total(items, codes[i])))
  }

  /** The codes of the items in order of first appearance, as a dictionary keeps them. */
  function FirstSeen(items: seq<CountryCount>): seq<string> {
    if items == [] then []
    else
      var n := |items| - 1;
      var codes := FirstSeen(items[..n]);
      if items[n].code in codes then codes else codes + [items[n].code]
  }

  lemma {:induction false} FirstSeenIsCodes(items: seq<CountryCount>)
    ensures Distinct(FirstSeen(items))
    ensures forall code :: code in FirstSeen(items) <==> code in Codes(items)
  {
    if items != [] {
      var n := |items| - 1;
      FirstSeenIsCodes(items[..n]);
      assert items == items[..n] + [items[n]];
      assert Codes(items) == Codes(items[..n]) + {items[n].code};
    }
  }

  /** The untruncated result. */
  function Ranking(items: seq<CountryCount>): seq<CountryCount> {
    Sort(Entries(FirstSeen(items), items), Before)
  }

  lemma RankingIsRanking(items: seq<CountryCount>)
    ensures IsRanking(items, Ranking(items))
  {
    var codes := FirstSeen(items);
    var entries, out := Entries(codes, items), Ranking(items);
    FirstSeenIsCodes(items);
    BeforeIsTotal();
    SortSorts(entries, Before);
    InMultiset(out, entries);
    forall entry | entry in out
      ensures entry.count == Total(items, entry.code) && entry.code in Codes(items)
    {
      var i :| 0 <= i < |entries| && entries[i] == entry;
      assert codes[i] in codes;
    }
    forall code | code in Codes(items)
      ensures code in Codes(out)
    {
      var i :| 0 <= i < |codes| && codes[i] == code;
      assert entries[i] in entries && entries[i] in out;
    }
    SortKeepsCodesDistinct(entries, out);
  }

  lemma SortKeepsCodesDistinct(entries: seq<CountryCount>, out: seq<CountryCount>)
    requires multiset(entries) == multiset(out)
    requires forall i, j | 0 <= i < j < |entries| :: entries[i].code != entries[j].code
    ensures forall i, j | 0 <= i < j < |out| :: out[i].code != out[j].code
  {
    forall i, j | 0 <= i < j < |out|
      ensures out[i].code != out[j].code
    {
      if out[i].code == out[j].code {
        InMultiset(entries, out);
        assert out[i] in out && out[j] in out;
        var p :| 0 <= p < |entries| && entries[p] == out[i];
        var q :| 0 <= q < |entries| && entries[q] == out[j];
        assert p == q;
        OccursTwice(out, i, j);
        OccursOnce(entries, p);
      }
    }
  }

  lemma OccursOnce<T>(s: seq<T>, i: nat)
    requires i < |s| && forall j | 0 <= j < |s| && j != i :: s[j] != s[i]
    ensures multiset(s)[s[i]] == 1
  {
    assert s == s[..i] + [s[i]] + s[i + 1..];
    assert s[i] !in s[..i] && s[i] !in s[i + 1..];
  }

  /** The reference determines its result. */
  lemma RankingUnique(items: seq<CountryCount>, a: seq<CountryCount>, b: seq<CountryCount>)
    requires IsRanking(items, a) && IsRanking(items, b)
    ensures a == b
  {
    SameEntries(items, a, b);
    DistinctSameMultiset(a, b);
    forall x, y | Before(x, y) && Before(y, x)
      ensures x == y
    {
      BeforeIsStrict(x, y);
    }
    SortedUnique(a, b, Before);
  }

  lemma SameEntries(items: seq<CountryCount>, a: seq<CountryCount>, b: seq<CountryCount>)
    requires IsRanking(items, a) && IsRanking(items, b)
    ensures forall x :: x in a <==> x in b
  {
    forall x | x in a
      ensures x in b
    {
      assert x.code in Codes(b);
      var y :| y in b && y.code == x.code;
    }
    forall x | x in b
      ensures x in a
    {
      assert x.code in Codes(a);
      var y :| y in a && y.code == x.code;
    }
  }

  lemma DistinctSameMultiset(a: seq<CountryCount>, b: seq<CountryCount>)
    requires forall i, j | 0 <= i < j < |a| :: a[i].code != a[j].code
    requires forall i, j | 0 <= i < j < |b| :: b[i].code != b[j].code
    requires forall x :: x in a <==> x in b
    ensures multiset(a) == multiset(b)
  {
    forall x
      ensures multiset(a)[x] == multiset(b)[x]
    {
      if x in a {
        var i :| 0 <= i < |a| && a[i] == x;
        var j :| 0 <= j < |b| && b[j] == x;
        OccursOnce(a, i);
        OccursOnce(b, j);
      } else {
        assert x !in multiset(a) && x !in multiset(b);
      }
    }
  }

  // ----- Invariances -----

  lemma CodesConcat(a: seq<CountryCount>, b: seq<CountryCount>)
    ensures Codes(a + b) == Codes(a) + Codes(b)
  {}

  /** The order of the input does not matter. */
  lemma OrderInvariant(a: seq<CountryCount>, b: seq<CountryCount>)
    requires multiset(a) == multiset(b)
    ensures Ranking(a) == Ranking(b)
  {
    InMultiset(a, b);
    assert Codes(a) == Codes(b);
    forall code
      ensures Total(a, code) == Total(b, code)
    {
      SumPermutation(a, b, CountIn(code));
    }
    RankingIsRanking(a);
    RankingIsRanking(b);
    RankingUnique(a, Ranking(a), Ranking(b));
  }

  /** Nor does counting one country's events in two portions. */
  lemma SplitInvariant(left: seq<CountryCount>, code: string, m: int, n: int, right: seq<CountryCount>)
    ensures Ranking(left + [CountryCount(code, m + n)] + right) ==
            Ranking(left + [CountryCount(code, m), CountryCount(code, n)] + right)
  {
    var whole, parts := [CountryCount(code, m + n)], [CountryCount(code, m), CountryCount(code, n)];
    var a, b := left + whole + right, left + parts + right;
    CodesConcat(left, whole);
    CodesConcat(left, parts);
    CodesConcat(left + whole, right);
    CodesConcat(left + parts, right);
    assert CountryCount(code, m) in parts && CountryCount(code, m + n) in whole;
    assert Codes(whole) == Codes(parts) == {code};
    forall c
      ensures Total(a, c) == Total(b, c)
    {
      SplitTotal(left, code, m, n, right, c);
    }
    RankingIsRanking(a);
    RankingIsRanking(b);
    RankingUnique(a, Ranking(a), Ranking(b));
  }

  lemma SplitTotal(left: seq<CountryCount>, code: string, m: int, n: int, right: seq<CountryCount>, c: string)
    ensures Total(left + [CountryCount(code, m + n)] + right, c) ==
            Total(left + [CountryCount(code, m), CountryCount(code, n)] + right, c)
  {
    var whole, parts := [CountryCount(code, m + n)], [CountryCount(code, m), CountryCount(code, n)];
    SumConcat(left, whole, CountIn(c));
    SumConcat(left, parts, CountIn(c));
    SumConcat(left + whole, right, CountIn(c));
    SumConcat(left + parts, right, CountIn(c));
    var f := CountIn(c);
    assert parts[1..] == [parts[1]] && whole[1..] == [] && parts[1..][1..] == [];
    assert Sum(whole, f) == f(whole[0]) && Sum(parts, f) == f(parts[0]) + f(parts[1]);
  }

  // ----- Conservation -----

  /** One more item is counted in exactly one entry, provided its code is listed once. */
  lemma {:induction false} EntriesGrow(codes: seq<string>, items: seq<CountryCount>, item: CountryCount)
    requires Distinct(codes)
    ensures Sum(Entries(codes, items + [item]), CountOf()) ==
            Sum(Entries(codes, items), CountOf()) + (if item.code in codes then item.count else 0)
  {
    if codes != [] {
      var c := codes[0];
      assert Distinct(codes[1..]);
      EntriesGrow(codes[1..], items, item);
      assert Entries(codes, items)[1..] == Entries(codes[1..], items);
      assert Entries(codes, items + [item])[1..] == Entries(codes[1..], items + [item]);
      SumConcat(items, [item], CountIn(c));
      assert codes == [c] + codes[1..];
      assert item.code == c ==> c !in codes[1..];
    }
  }

  lemma {:induction false} EntriesEmpty(codes: seq<string>)
    ensures Sum(Entries(codes, []), CountOf()) == 0
  {
    if codes != [] {
      EntriesEmpty(codes[1..]);
      assert Entries(codes, [])[1..] == Entries(codes[1..], []);
    }
  }

  lemma {:induction false} EntriesConserve(codes: seq<string>, items: seq<CountryCount>)
    requires Distinct(codes) && forall item | item in items :: item.code in codes
    ensures Sum(Entries(codes, items), CountOf()) == Sum(items, CountOf())
  {
    if items == [] {
      EntriesEmpty(codes);
    } else {
      var n := |items| - 1;
      assert items == items[..n] + [items[n]];
      EntriesConserve(codes, items[..n]);
      EntriesGrow(codes, items[..n], items[n]);
      SumConcat(items[..n], [items[n]], CountOf());
    }
  }

  /** Grouping and sorting neither lose nor invent events. */
  lemma RankingConserves(items: seq<CountryCount>)
    ensures Sum(Ranking(items), CountOf()) == Sum(items, CountOf())
  {
    FirstSeenIsCodes(items);
    EntriesConserve(FirstSeen(items), items);
    SumPermutation(Ranking(items), Entries(FirstSeen(items), items), CountOf());
  }

  /** Truncation keeps the top: whatever is cut stands strictly behind whatever is kept. */
  lemma PrefixIsTop(items: seq<CountryCount>, max: int, kept: nat, dropped: nat)
    requires kept < |Prefix(Ranking(items), max)| <= dropped < |Ranking(items)|
    ensures Prefix(Ranking(items), max)[kept] == Ranking(items)[kept]
    ensures Before(Ranking(items)[kept], Ranking(items)[dropped])
    ensures !Before(Ranking(items)[dropped], Ranking(items)[kept])
  {
    RankingIsRanking(items);
    var a, b := Ranking(items)[kept], Ranking(items)[dropped];
    if Before(b, a) {
      BeforeIsStrict(a, b);
    }
  }

  // ----- What that means for the pairs -----

  /** What a pair contributes to a country, given where its IP is answered to be. */
  function Contribution(source: Source, code: string): ((string, int)) -> int {
    (pair: (string, int)) =>
      var country := source.Answer(Some(pair.0)).countryCode;
      if country == Some(code) || (country == None && code == "UNKNOWN") then pair.1 else 0
  }

  /** The countries the pairs are answered to be in. */
  function CountriesOf(pairs: seq<(string, int)>, source: Source): set<string> {
    set pair | pair in pairs ::
      match source.Answer(Some(pair.0)).countryCode
      case Some(code) => code
      case None => "UNKNOWN"
  }

  /** More events, or as many and first in the alphabet. */
  ghost predicate RanksBefore(count: int, code: string, otherCount: int, otherCode: string) {
    count > otherCount || (count == otherCount && code != otherCode && Alphabetical(code, otherCode))
  }

  predicate Lists(out: seq<CountryCount>, code: string) {
    exists k | 0 <= k < |out| :: out[k].code == code
  }

  /**
   What the caller gets: the top countries of the pairs, each with what exactly its own IPs contribute,
   as many as the maximum allows, in strict order, and before every country that is left out. A negative
   maximum counts from the end, as the source's slice does.
   */
  ghost predicate IsTopCountries(pairs: seq<(string, int)>, source: Source, max: int, out: seq<CountryCount>) {
    var countries := CountriesOf(pairs, source);
    (forall i | 0 <= i < |out| ::
       out[i].code in countries && out[i].count == Sum(pairs, Contribution(source, out[i].code))) &&
    (forall i, j | 0 <= i < j < |out| :: RanksBefore(out[i].count, out[i].code, out[j].count, out[j].code)) &&
    (forall i, code | 0 <= i < |out| && code in countries && !Lists(out, code) ::
       RanksBefore(out[i].count, out[i].code, Sum(pairs, Contribution(source, code)), code)) &&
    |out| == (if max >= |countries| then |countries|
              else if max >= 0 then max
              else if |countries| + max >= 0 then |countries| + max
              else 0)
  }

  lemma {:induction false} TotalIsContribution(pairs: seq<(string, int)>, source: Source, code: string)
    ensures Total(LocatedAll(pairs, source), code) == Sum(pairs, Contribution(source, code))
  {
    if pairs != [] {
      TotalIsContribution(pairs[1..], source, code);
      assert LocatedAll(pairs, source)[1..] == LocatedAll(pairs[1..], source);
    }
  }

  lemma CodesAreCountries(pairs: seq<(string, int)>, source: Source)
    ensures Codes(LocatedAll(pairs, source)) == CountriesOf(pairs, source)
  {
    var items := LocatedAll(pairs, source);
    forall i | 0 <= i < |pairs|
      ensures pairs[i] in pairs && items[i] in items
      ensures items[i].code == match source.Answer(Some(pairs[i].0)).countryCode
                               case Some(code) => code
                               case None => "UNKNOWN"
    {}
    forall code
      ensures code in Codes(items) <==> code in CountriesOf(pairs, source)
    {
      if code in Codes(items) {
        var i :| 0 <= i < |items| && items[i].code == code;
        assert pairs[i] in pairs;
      }
      if code in CountriesOf(pairs, source) {
        var i :| 0 <= i < |pairs| && items[i].code == code;
        assert items[i] in items;
      }
    }
  }

  lemma BeforeRanks(a: CountryCount, b: CountryCount)
    requires Before(a, b) && a.code != b.code
    ensures RanksBefore(a.count, a.code, b.count, b.code)
  {
    StringLeqIff(a.code, b.code);
  }

  lemma RankingSize(items: seq<CountryCount>)
    ensures |Ranking(items)| == |Codes(items)|
  {
    RankingIsRanking(items);
    var codes := seq(|Ranking(items)|, i requires 0 <= i < |Ranking(items)| => Ranking(items)[i].code);
    DistinctSize(codes);
    forall code
      ensures code in Codes(Ranking(items)) <==> code in codes
    {
      if code in Codes(Ranking(items)) {
        var i :| 0 <= i < |Ranking(items)| && Ranking(items)[i].code == code;
        assert codes[i] == code;
      }
    }
    assert Codes(Ranking(items)) == set code | code in codes;
  }

  /** The ranking places every country of the pairs, with what its IPs contribute. */
  lemma RankingOfPairs(pairs: seq<(string, int)>, source: Source)
    ensures var ranking := Ranking(LocatedAll(pairs, source));
            |ranking| == |CountriesOf(pairs, source)| &&
            (forall code :: code in CountriesOf(pairs, source) <==> Lists(ranking, code)) &&
            (forall k | 0 <= k < |ranking| :: ranking[k].count == Sum(pairs, Contribution(source, ranking[k].code))) &&
            forall i, j | 0 <= i < j < |ranking| ::
              RanksBefore(ranking[i].count, ranking[i].code, ranking[j].count, ranking[j].code)
  {
    hide Sum, Contribution, CountriesOf, RanksBefore, Before, Ranking;
    var items := LocatedAll(pairs, source);
    var ranking := Ranking(items);
    RankingIsRanking(items);
    RankingSize(items);
    CodesAreCountries(pairs, source);
    forall k | 0 <= k < |ranking|
      ensures ranking[k].count == Sum(pairs, Contribution(source, ranking[k].code))
    {
      TotalIsContribution(pairs, source, ranking[k].code);
      assert ranking[k] in ranking;
    }
    forall i, j | 0 <= i < j < |ranking|
      ensures RanksBefore(ranking[i].count, ranking[i].code, ranking[j].count, ranking[j].code)
    {
      BeforeRanks(ranking[i], ranking[j]);
    }
    forall code
      ensures code in CountriesOf(pairs, source) <==> Lists(ranking, code)
    {
      if code in Codes(ranking) {
        var k :| 0 <= k < |ranking| && ranking[k].code == code;
      }
      if k :| 0 <= k < |ranking| && ranking[k].code == code {
        assert ranking[k] in ranking;
      }
    }
  }

  /** Whoever is listed stands before a country that is left out. */
  lemma BeforeLeftOut(pairs: seq<(string, int)>, source: Source, n: nat, i: nat, code: string)
    requires var ranking := Ranking(LocatedAll(pairs, source));
             i < n <= |ranking| && code in CountriesOf(pairs, source) && !Lists(ranking[..n], code)
    ensures var ranking := Ranking(LocatedAll(pairs, source));
            RanksBefore(ranking[i].count, ranking[i].code, Sum(pairs, Contribution(source, code)), code)
  {
    hide Sum, Contribution, CountriesOf, RanksBefore, Ranking, LocatedAll;
    RankingOfPairs(pairs, source);
    var ranking := Ranking(LocatedAll(pairs, source));
    var k :| 0 <= k < |ranking| && ranking[k].code == code;
    assert forall m | 0 <= m < n :: ranking[..n][m] == ranking[m];
  }

  lemma TopOfPairs(pairs: seq<(string, int)>, source: Source, max: int)
    ensures IsTopCountries(pairs, source, max, Prefix(Ranking(LocatedAll(pairs, source)), max))
  {
    hide Sum, Contribution, CountriesOf, RanksBefore, Ranking, LocatedAll, Lists;
    RankingOfPairs(pairs, source);
    var ranking := Ranking(LocatedAll(pairs, source));
    var out := Prefix(ranking, max);
    assert out == ranking[..|out|];
    forall i | 0 <= i < |out|
      ensures out[i].code in CountriesOf(pairs, source)
    {
      IsListed(ranking, i);
    }
    forall i, code | 0 <= i < |out| && code in CountriesOf(pairs, source) && !Lists(out, code)
      ensures RanksBefore(out[i].count, out[i].code, Sum(pairs, Contribution(source, code)), code)
    {
      BeforeLeftOut(pairs, source, |out|, i, code);
    }
  }

  lemma IsListed(ranking: seq<CountryCount>, i: nat)
    requires i < |ranking|
    ensures Lists(ranking, ranking[i].code)
  {}

  // ----- The aggregator -----

  /**
   The aggregation, which refills the cache as it goes, equals the pure one for any valid initial
   cache: the truncated ranking of the located pairs, which is the top of what the pairs contribute.
   */
  method Aggregate(pairs: seq<(string, int)>, resolver: GeoIPResolver, maxCountries: int) returns (out: seq<CountryCount>)
    requires resolver.Valid()
    modifies resolver
    ensures resolver.Valid()
    ensures out == Prefix(Ranking(LocatedAll(pairs, old(resolver.View()))), maxCountries)
    ensures IsTopCountries(pairs, old(resolver.View()), maxCountries, out)
  {
    hide FirstSeen, Sum, Sort, Counted, IsTopCountries;
    ghost var source := resolver.View();
    ghost var items := LocatedAll(pairs, source);
    var keys: seq<string>, totals: map<string, int> := [], map[];
    NothingCounted(items);
    for n := 0 to |pairs|
      invariant resolver.Valid() && resolver.View() == source
      invariant Counted(items, n, keys, totals)
    {
      var (ip, count) := pairs[n];
      var location := resolver.Resolve(Some(ip));
      var key := if location.countryCode.Some? then location.countryCode.value else UNKNOWN_COUNTRY;
      OneMoreCounted(items, n, keys, totals);
      if key !in totals {
        keys := keys + [key];
      }
      totals := totals[key := (if key in totals then totals[key] else 0) + count];
    }
    AllCounted(items, keys, totals);
    var entries := seq(|keys|, i requires 0 <= i < |keys| => CountryCount(keys[i], totals[keys[i]]));
    out := Prefix(Sort(entries, Before), maxCountries);
    TopOfPairs(pairs, source, maxCountries);
  }

  /** The dictionary after the first `n` items: its keys in order, and their totals. */
  ghost predicate Counted(items: seq<CountryCount>, n: nat, keys: seq<string>, totals: map<string, int>)
    requires n <= |items|
  {
    keys == FirstSeen(items[..n]) &&
    (forall k :: k in totals <==> k in keys) &&
    forall k | k in totals :: totals[k] == Total(items[..n], k)
  }

  lemma NothingCounted(items: seq<CountryCount>)
    ensures Counted(items, 0, [], map[])
  {}

  lemma OneMoreCounted(items: seq<CountryCount>, n: nat, keys: seq<string>, totals: map<string, int>)
    requires n < |items| && Counted(items, n, keys, totals)
    ensures var key, count := items[n].code, items[n].count;
            Counted(items, n + 1,
                    if key in totals then keys else keys + [key],
                    totals[key := (if key in totals then totals[key] else 0) + count])
  {
    hide FirstSeen, Total;
    TotalsGrow(items, n);
    if items[n].code !in totals {
      AbsentTotal(items[..n], items[n].code);
    }
  }

  lemma AllCounted(items: seq<CountryCount>, keys: seq<string>, totals: map<string, int>)
    requires Counted(items, |items|, keys, totals)
    ensures keys == FirstSeen(items) && forall i | 0 <= i < |keys| :: keys[i] in totals
    ensures seq(|keys|, i requires 0 <= i < |keys| => CountryCount(keys[i], totals[keys[i]])) == Entries(keys, items)
  {
    hide FirstSeen, Total;
    assert items[..|items|] == items;
  }

  lemma TotalsGrow(items: seq<CountryCount>, n: nat)
    requires n < |items|
    ensures FirstSeen(items[..n + 1]) ==
            var codes := FirstSeen(items[..n]);
            if items[n].code in codes then codes else codes + [items[n].code]
    ensures forall k :: Total(items[..n + 1], k) == Total(items[..n], k) + (if k == items[n].code then items[n].count else 0)
  {
    assert items[..n + 1][..n] == items[..n];
    forall k
      ensures Total(items[..n + 1], k) == Total(items[..n], k) + (if k == items[n].code then items[n].count else 0)
    {
      SumConcat(items[..n], [items[n]], CountIn(k));
      assert items[..n + 1] == items[..n] + [items[n]];
    }
  }

  lemma {:induction false} AbsentTotal(items: seq<CountryCount>, code: string)
    requires code !in FirstSeen(items)
    ensures Total(items, code) == 0
  {
    FirstSeenIsCodes(items);
    AbsentSum(items, code);
  }

  lemma {:induction false} AbsentSum(items: seq<CountryCount>, code: string)
    requires code !in Codes(items)
    ensures Sum(items, CountIn(code)) == 0
  {
    if items != [] {
      assert items[0].code in Codes(items);
      assert Codes(items[1..]) <= Codes(items);
      AbsentSum(items[1..], code);
    }
  }
}
