/** The LRU-cached GeoIP resolver and the country aggregation that runs through it. */
module GeoIP {
  import opened Events
  import opened Sequences

  datatype GeoLocation = GeoLocation(
    countryCode: Option<string>,
    countryName: Option<string>,
    region: Option<string>,
    city: Option<string>,
    latitude: Option<real>,
    longitude: Option<real>)

  const UNRESOLVED := GeoLocation(None, None, None, None, None, None)

  /** How `ipaddress` sees a string: not an address, one that is never looked up, or a public one. */
  datatype AddressKind = Invalid | Special | Public

  /** What the answers depend on: two switches, the IP parser and the contents of the database file. */
  datatype Source = Source(enabled: bool, loaded: bool, kind: string -> AddressKind, database: string -> GeoLocation) {
    /** Whether resolving `ip` reaches the cache or the database at all. */
    predicate LooksUp(ip: Option<string>) {
      enabled && loaded && ip.Some? && ip.value != "" && kind(ip.value).Public?
    }

    /** The uncached answer. */
    function Answer(ip: Option<string>): GeoLocation {
      if LooksUp(ip) then database(ip.value) else UNRESOLVED
    }
  }

  // ----- Least recently used, by the trace alone -----

  function Remove(s: seq<string>, x: string): seq<string> {
    if s == [] then []
    else if s[0] == x then Remove(s[1..], x)
    else [s[0]] + Remove(s[1..], x)
  }

  /** The distinct IPs of a trace, least recently used first. */
  function Recency(trace: seq<string>): seq<string> {
    if trace == [] then []
    else
      var n := |trace| - 1;
      Remove(Recency(trace[..n]), trace[n]) + [trace[n]]
  }

  lemma {:induction false} RemoveMembers(s: seq<string>, x: string)
    ensures forall y :: y in Remove(s, x) <==> y in s && y != x
  {
    if s != [] {
      RemoveMembers(s[1..], x);
      assert s == [s[0]] + s[1..];
    }
  }

  /** Recency forgets no IP and invents none. */
  lemma {:induction false} RecencyMembers(trace: seq<string>)
    ensures forall x :: x in Recency(trace) <==> x in trace
  {
    if trace != [] {
      var n := |trace| - 1;
      assert trace == trace[..n] + [trace[n]];
      RecencyMembers(trace[..n]);
      RemoveMembers(Recency(trace[..n]), trace[n]);
    }
  }

  /** One past the last position at which `x` occurs, 0 when it does not. */
  function LastUse(trace: seq<string>, x: string): (n: nat)
    ensures n <= |trace|
    ensures n > 0 ==> trace[n - 1] == x
    ensures forall i | n <= i < |trace| :: trace[i] != x
  {
    if trace == [] then 0
    else if trace[|trace| - 1] == x then |trace|
    else LastUse(trace[..|trace| - 1], x)
  }

  ghost predicate Increasing(s: seq<string>, rank: string -> int) {
    forall i, j | 0 <= i < j < |s| :: rank(s[i]) < rank(s[j])
  }

  lemma IncreasingCons(x: string, s: seq<string>, rank: string -> int)
    ensures Increasing([x] + s, rank) <==> Increasing(s, rank) && forall y | y in s :: rank(x) < rank(y)
  {
    var all := [x] + s;
    assert forall i | 0 <= i < |s| :: all[i + 1] == s[i];
    if Increasing(all, rank) {
      forall i, j | 0 <= i < j < |s|
        ensures rank(s[i]) < rank(s[j])
      {
        assert rank(all[i + 1]) < rank(all[j + 1]);
      }
      forall i | 0 <= i < |s|
        ensures rank(x) < rank(s[i])
      {
        assert rank(all[0]) < rank(all[i + 1]);
      }
    }
  }

  lemma {:induction false} RemoveKeepsIncreasing(s: seq<string>, x: string, rank: string -> int)
    requires Increasing(s, rank)
    ensures Increasing(Remove(s, x), rank)
  {
    if s != [] {
      assert s == [s[0]] + s[1..];
      IncreasingCons(s[0], s[1..], rank);
      RemoveKeepsIncreasing(s[1..], x, rank);
      RemoveMembers(s[1..], x);
      IncreasingCons(s[0], Remove(s[1..], x), rank);
    }
  }

  function Uses(trace: seq<string>): string -> int {
    x => LastUse(trace, x)
  }

  lemma IncreasingIsDistinct(s: seq<string>, rank: string -> int)
    requires Increasing(s, rank)
    ensures Distinct(s)
  {}

  /** Recency really is the order of most recent use. */
  lemma {:induction false} RecencyIsByLastUse(trace: seq<string>)
    ensures Increasing(Recency(trace), Uses(trace))
    ensures Distinct(Recency(trace))
  {
    if trace != [] {
      var n := |trace| - 1;
      var past, x := trace[..n], trace[n];
      RecencyIsByLastUse(past);
      var kept := Remove(Recency(past), x);
      RemoveKeepsIncreasing(Recency(past), x, Uses(past));
      RemoveMembers(Recency(past), x);
      forall k | 0 <= k < |kept|
        ensures Uses(trace)(kept[k]) == Uses(past)(kept[k]) < Uses(trace)(x)
      {
        assert kept[k] in kept;
      }
      assert forall i, j | 0 <= i < j < |kept| :: Uses(past)(kept[i]) < Uses(past)(kept[j]);
    }
    IncreasingIsDistinct(Recency(trace), Uses(trace));
  }

  lemma {:induction false} RemoveConcat(a: seq<string>, b: seq<string>, x: string)
    ensures Remove(a + b, x) == Remove(a, x) + Remove(b, x)
  {
    if a == [] {
      assert a + b == b;
    } else {
      RemoveConcat(a[1..], b, x);
      assert (a + b)[1..] == a[1..] + b;
      var front, back := Remove(a[1..], x), Remove(b, x);
      assert [a[0]] + (front + back) == ([a[0]] + front) + back;
      assert Remove(a, x) == if a[0] == x then front else [a[0]] + front;
      assert Remove(a + b, x) == if a[0] == x then front + back else [a[0]] + (front + back);
    }
  }

  lemma {:induction false} RemoveAbsent(s: seq<string>, x: string)
    requires x !in s
    ensures Remove(s, x) == s
  {
    if s != [] {
      RemoveAbsent(s[1..], x);
    }
  }

  lemma {:induction false} RemovePresent(s: seq<string>, x: string)
    requires x in s && Distinct(s)
    ensures |Remove(s, x)| == |s| - 1
  {
    if s[0] == x {
      RemoveAbsent(s[1..], x);
    } else {
      RemovePresent(s[1..], x);
    }
  }

  lemma AbsentFromTail(s: seq<string>, i: nat)
    requires Distinct(s) && i < |s|
    ensures s[i] !in s[i..][1..]
  {}

  /** What one use of `x` does to a cache of `size` entries kept in recency order. */
  function Use(keys: seq<string>, x: string, size: int): seq<string> {
    if x in keys then Remove(keys, x) + [x] else Suffix(keys + [x], size)
  }

  lemma HitKeepsSuffix(rest: seq<string>, keys: seq<string>, x: string)
    requires Distinct(rest + keys) && x in keys
    ensures Remove(keys, x) + [x] == Suffix(Remove(rest + keys, x) + [x], |keys|)
  {
    hide Remove;
    var all := rest + keys;
    var i :| 0 <= i < |keys| && keys[i] == x;
    assert all[|rest| + i] == x;
    assert forall j | 0 <= j < |rest| :: all[j] == rest[j];
    assert x !in rest;
    assert Distinct(keys) by {
      assert forall j | 0 <= j < |keys| :: keys[j] == all[|rest| + j];
    }
    RemoveConcat(rest, keys, x);
    RemoveAbsent(rest, x);
    RemovePresent(keys, x);
  }

  lemma SuffixOfConcat(a: seq<string>, b: seq<string>, n: nat)
    requires n <= |b|
    ensures Suffix(a + b, n) == Suffix(b, n)
  {}

  lemma MissKeepsSuffix(rest: seq<string>, keys: seq<string>, x: string, size: nat)
    requires x !in keys && size > 0 && |keys| <= size && (|keys| == size || rest == [])
    ensures Suffix(keys + [x], size) == Suffix(Remove(rest + keys, x) + [x], size)
  {
    hide Remove, Suffix;
    RemoveAbsent(keys, x);
    if rest == [] {
      assert rest + keys == keys;
    } else {
      RemoveConcat(rest, keys, x);
      assert Remove(rest, x) + keys + [x] == Remove(rest, x) + (keys + [x]);
      SuffixOfConcat(Remove(rest, x), keys + [x], size);
    }
  }

  /** The cache of `size` entries is always the tail of the unbounded recency list. */
  lemma UseIsSuffix(recency: seq<string>, x: string, size: int)
    requires Distinct(recency)
    ensures Use(Suffix(recency, size), x, size) == Suffix(Remove(recency, x) + [x], size)
  {
    if size > 0 {
      var keys := Suffix(recency, size);
      var rest := recency[..|recency| - |keys|];
      assert recency == rest + keys;
      if x in keys {
        HitKeepsSuffix(rest, keys, x);
        HitsFit(rest, keys, x, size);
      } else {
        MissKeepsSuffix(rest, keys, x, size);
      }
    }
  }

  lemma HitsFit(rest: seq<string>, keys: seq<string>, x: string, size: nat)
    requires Distinct(rest + keys) && x in keys && |keys| <= size && (|keys| == size || rest == [])
    ensures Suffix(Remove(rest + keys, x) + [x], |keys|) == Suffix(Remove(rest + keys, x) + [x], size)
  {
    if rest == [] {
      assert rest + keys == keys;
      RemovePresent(keys, x);
    }
  }

  /** Reader calls along a trace: the uses that find their IP outside the cache of `size` entries. */
  function Misses(trace: seq<string>, size: int): nat {
    if trace == [] then 0
    else
      var n := |trace| - 1;
      Misses(trace[..n], size) + (if trace[n] in Suffix(Recency(trace[..n]), size) then 0 else 1)
  }

  /** Inclusion: for one trace, a smaller cache holds a suffix of what a larger one holds. */
  lemma Inclusion(trace: seq<string>, small: int, large: int)
    requires small <= large
    ensures var bigger := Suffix(Recency(trace), large);
            Suffix(Recency(trace), small) == Suffix(bigger, small) &&
            forall x | x in Suffix(Recency(trace), small) :: x in bigger
  {
    hide Recency;
  }

  /** So a larger cache never makes more reader calls. */
  lemma {:induction false} LargerCacheMissesLess(trace: seq<string>, small: int, large: int)
    requires small <= large
    ensures Misses(trace, large) <= Misses(trace, small)
  {
    if trace != [] {
      LargerCacheMissesLess(trace[..|trace| - 1], small, large);
      Inclusion(trace[..|trace| - 1], small, large);
    }
  }

  /** One more use, seen by the cache and by the miss count. */
  lemma TraceGrows(trace: seq<string>, x: string, size: int)
    ensures var keys := Suffix(Recency(trace), size);
            Distinct(keys) && |keys| <= (if size <= 0 then 0 else size) &&
            Suffix(Recency(trace + [x]), size) == Use(keys, x, size) &&
            Misses(trace + [x], size) == Misses(trace, size) + (if x in keys then 0 else 1)
  {
    assert (trace + [x])[..|trace|] == trace;
    RecencyIsByLastUse(trace);
    UseIsSuffix(Recency(trace), x, size);
  }

  // ----- The resolver -----

  class GeoIPResolver {
    const cacheSize: int
    const enabled: bool
    const kind: string -> AddressKind
    const database: string -> GeoLocation
    var loaded: bool
    /** The OrderedDict: keys oldest first, and their values. */
    var keys: seq<string>
    var values: map<string, GeoLocation>
    /** The public IPs resolved while loaded, and the reader calls made for them. */
    ghost var trace: seq<string>
    ghost var readerCalls: nat

    ghost predicate Valid()
      reads this
    {
      keys == Suffix(Recency(trace), cacheSize) &&
      Agrees(keys) &&
      readerCalls == Misses(trace, cacheSize)
    }

    /** The cached values are what the database says. */
    ghost predicate Agrees(ks: seq<string>)
      reads this`values
    {
      forall k | k in ks :: k in values && values[k] == database(k)
    }

    constructor (cacheSize: int, enabled: bool, loaded: bool, kind: string -> AddressKind, database: string -> GeoLocation)
      ensures Valid() && trace == [] && keys == []
      ensures this.cacheSize == cacheSize && this.enabled == enabled && this.loaded == loaded
      ensures this.kind == kind && this.database == database
    {
      this.cacheSize, this.enabled, this.loaded := cacheSize, enabled, loaded;
      this.kind, this.database := kind, database;
      keys, values, trace, readerCalls := [], map[], [], 0;
    }

    function View(): Source
      reads this`loaded
    {
      Source(enabled, loaded, kind, database)
    }

    /**
     Agrees with the uncached answer: what the database says about a public address while the resolver is
     enabled and its file loaded, unresolved in every other case, in which nothing is remembered. It leaves
     the cache holding exactly the most recently used public IPs of the trace, in order.
     */
    method Resolve(ip: Option<string>) returns (location: GeoLocation)
      requires Valid()
      modifies this`keys, this`values, this`trace, this`readerCalls
      ensures Valid()
      ensures location == View().Answer(ip)
      ensures enabled && loaded && ip.Some? && ip.value != "" && kind(ip.value) == Public ==>
                location == database(ip.value) && trace == old(trace) + [ip.value]
      ensures !enabled || !loaded || ip == None || ip == Some("") || kind(ip.value) in {Invalid, Special} ==>
                location == UNRESOLVED && trace == old(trace)
    {
      if !enabled || !loaded {
        return UNRESOLVED;
      }
      if ip.None? || ip.value == "" || kind(ip.value) != Public {
        return UNRESOLVED;
      }
      location := ResolvePublic(ip.value);
    }

    /** Steps 4 to 6: the cache, then the database file, then the cache again. */
    method ResolvePublic(x: string) returns (location: GeoLocation)
      requires Valid()
      modifies this`keys, this`values, this`trace, this`readerCalls
      ensures Valid() && trace == old(trace) + [x] && location == database(x)
    {
      hide Recency, Misses, Remove, Suffix;
      TraceGrows(trace, x, cacheSize);
      trace := trace + [x];
      if x in keys {
        RemoveMembers(keys, x);
        location := values[x];
        keys := Remove(keys, x) + [x];
      } else {
        readerCalls := readerCalls + 1;
        location := database(x);
        CachePut(x, location);
      }
    }

    method CachePut(x: string, location: GeoLocation)
      requires x !in keys && Distinct(keys) && |keys| <= (if cacheSize <= 0 then 0 else cacheSize)
      requires Agrees(keys) && location == database(x)
      modifies this`keys, this`values
      ensures keys == Suffix(old(keys) + [x], cacheSize)
      ensures Agrees(keys)
    {
      if cacheSize <= 0 {
        return;
      }
      values := values[x := location];
      keys := keys + [x];
      ghost var all := keys;
      assert Distinct(all);
      while |keys| > cacheSize
        invariant |keys| <= |all| && keys == all[|all| - |keys|..]
        invariant |keys| >= cacheSize || |keys| == |all|
        invariant Agrees(keys)
      {
        var oldest := keys[0];
        AbsentFromTail(all, |all| - |keys|);
        keys := keys[1..];
        values := values - {oldest};
      }
    }

    /** Closing drops the reader and keeps the cache, which is not consulted again. */
    method Close()
      requires Valid()
      modifies this`loaded
      ensures Valid() && !loaded
      ensures forall ip :: View().Answer(ip) == UNRESOLVED
    {
      loaded := false;
    }
  }
}
