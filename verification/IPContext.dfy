/**
 The sliding-window IP context store. Every call prunes a sorted set and extends a port set in
 place, and both keys expire after a silence; the results are stated over the whole history.
 */
module IPContextStore {
  import opened Events
  import opened Sequences
  import opened Classifier

  /** Key expiry in seconds. */
  const CONTEXT_TTL := 3600.0

  /** One update: the caller's clock read `now` for it, the server's own clock `served` when it executed. */
  datatype Call = Call(ip: string, port: int, now: real, served: real)

  /** A sorted-set member "{now}:{port}"; its score is `at`. */
  datatype Stamp = Stamp(at: real, port: int)

  /** The two keys of one IP; both were last touched, and their expiry last set, at `touched` on the server's clock. */
  datatype Keys = Keys(attempts: set<Stamp>, ports: set<int>, touched: real)

  type Server = map<string, Keys>

  /** How the pipeline call ended for the client. */
  datatype Reply = Answered | ReplyLost | Unreachable

  /**
   Redis drops a key once its time to live has passed on the server's clock. Whether it is still there
   at exactly that instant is left open: every result holds for both values of `inclusive`.
   */
  predicate Expired(touched: real, served: real, inclusive: bool) {
    served - touched > CONTEXT_TTL || (inclusive && served - touched == CONTEXT_TTL)
  }

  function StampOf(c: Call): Stamp {
    Stamp(c.now, c.port)
  }

  /** What the server still holds for the caller's IP when the pipeline starts. */
  function Held(server: Server, c: Call, inclusive: bool): Keys {
    if c.ip in server && !Expired(server[c.ip].touched, c.served, inclusive) then server[c.ip]
    else Keys({}, {}, c.served)
  }

  /** ZREMRANGEBYSCORE 0 upTo, both ends included. */
  function Prune(attempts: set<Stamp>, upTo: real): set<Stamp> {
    set s | s in attempts && !(0.0 <= s.at <= upTo)
  }

  /** The pipeline: ZADD, ZREMRANGEBYSCORE, SADD and the two EXPIREs. */
  function Execute(server: Server, c: Call, window: real, inclusive: bool): Server {
    var held := Held(server, c, inclusive);
    server[c.ip := Keys(
      Prune(held.attempts + {StampOf(c)}, c.now - window), held.ports + {c.port}, c.served)]
  }

  /** ZCARD and SMEMBERS as read inside the same pipeline. */
  function ReadBack(server: Server, ip: string): IPContext
    requires ip in server
  {
    IPContext(|server[ip].attempts|, server[ip].ports)
  }

  /** The server after a whole history of updates, starting empty. */
  function After(history: seq<Call>, window: real, inclusive: bool): Server {
    if history == [] then map[]
    else
      var n := |history| - 1;
      Execute(After(history[..n], window, inclusive), history[n], window, inclusive)
  }

  /** The calls of one IP, in order. */
  function CallsOf(history: seq<Call>, ip: string): (calls: seq<Call>)
    ensures history != [] && history[|history| - 1].ip == ip ==>
              calls != [] && calls[|calls| - 1] == history[|history| - 1]
  {
    if history == [] then []
    else
      var n := |history| - 1;
      CallsOf(history[..n], ip) + (if history[n].ip == ip then [history[n]] else [])
  }

  predicate InOrder(history: seq<Call>, i: nat, j: nat) {
    i <= j < |history| ==> 0.0 <= history[i].now <= history[j].now
  }

  /** The callers' clock readings are never negative and never run backwards. */
  ghost predicate Monotone(history: seq<Call>) {
    forall i: nat, j: nat :: InOrder(history, i, j)
  }

  /** The keys expired during the silence that call `j` ended. */
  predicate EndsSilence(calls: seq<Call>, j: int, inclusive: bool) {
    0 < j < |calls| && Expired(calls[j - 1].served, calls[j].served, inclusive)
  }

  /** Where the longest stretch of the first `n` calls without an expiring silence begins. */
  function SilenceStart(calls: seq<Call>, n: nat, inclusive: bool): (start: nat)
    requires 1 <= n <= |calls|
    ensures start < n
    ensures start > 0 ==> EndsSilence(calls, start, inclusive)
    ensures forall j | start < j < n :: !EndsSilence(calls, j, inclusive)
  {
    if n == 1 || EndsSilence(calls, n - 1, inclusive) then n - 1 else SilenceStart(calls, n - 1, inclusive)
  }

  /** The calls since the last expiring silence. */
  function SinceSilence(calls: seq<Call>, inclusive: bool): seq<Call> {
    if calls == [] then [] else calls[SilenceStart(calls, |calls|, inclusive)..]
  }

  function Ports(calls: seq<Call>): set<int> {
    set c | c in calls :: c.port
  }

  /** The distinct (time, port) pairs later than `from`. */
  function Recent(calls: seq<Call>, from: real): set<Stamp> {
    set c | c in calls && c.now > from :: StampOf(c)
  }

  lemma MonotonePast(history: seq<Call>)
    requires Monotone(history) && history != []
    ensures Monotone(history[..|history| - 1])
  {
    var past := history[..|history| - 1];
    forall i: nat, j: nat
      ensures InOrder(past, i, j)
    {
      assert InOrder(history, i, j);
    }
  }

  lemma MonotoneExtends(history: seq<Call>, c: Call)
    requires Monotone(history) && 0.0 <= c.now && forall d | d in history :: d.now <= c.now
    ensures Monotone(history + [c])
  {
    var more := history + [c];
    forall i: nat, j: nat
      ensures InOrder(more, i, j)
    {
      if i <= j < |more| {
        assert InOrder(history, i, i) && InOrder(history, i, j);
        assert i < |history| ==> more[i] in history;
      }
    }
  }

  lemma LastIsLatest(history: seq<Call>)
    requires Monotone(history) && history != []
    ensures forall c | c in history :: 0.0 <= c.now <= history[|history| - 1].now
  {
    forall i | 0 <= i < |history|
      ensures 0.0 <= history[i].now <= history[|history| - 1].now
    {
      assert InOrder(history, i, |history| - 1);
    }
  }

  lemma {:induction false} CallsOfMembers(history: seq<Call>, ip: string)
    ensures forall c | c in CallsOf(history, ip) :: c in history
  {
    if history != [] {
      CallsOfMembers(history[..|history| - 1], ip);
    }
  }

  lemma {:induction false} CallsOfMonotone(history: seq<Call>, ip: string)
    requires Monotone(history)
    ensures Monotone(CallsOf(history, ip))
  {
    if history != [] {
      var past, c := history[..|history| - 1], history[|history| - 1];
      MonotonePast(history);
      CallsOfMonotone(past, ip);
      LastIsLatest(history);
      CallsOfMembers(past, ip);
      if c.ip == ip {
        forall d | d in CallsOf(past, ip)
          ensures d.now <= c.now
        {
          assert d in past;
          assert d in history;
        }
        MonotoneExtends(CallsOf(past, ip), c);
        assert CallsOf(history, ip) == CallsOf(past, ip) + [c];
      } else {
        assert CallsOf(history, ip) == CallsOf(past, ip);
      }
    }
  }

  lemma {:induction false} SilenceStartOfPrefix(calls: seq<Call>, c: Call, n: nat, inclusive: bool)
    requires 1 <= n <= |calls|
    ensures SilenceStart(calls + [c], n, inclusive) == SilenceStart(calls, n, inclusive)
  {
    assert EndsSilence(calls + [c], n - 1, inclusive) == EndsSilence(calls, n - 1, inclusive);
    if n > 1 {
      SilenceStartOfPrefix(calls, c, n - 1, inclusive);
    }
  }

  /** One more call without an expiring silence before it joins what is live. */
  lemma LiveExtends(calls: seq<Call>, c: Call, inclusive: bool)
    requires calls != [] && !Expired(calls[|calls| - 1].served, c.served, inclusive)
    ensures SinceSilence(calls + [c], inclusive) == SinceSilence(calls, inclusive) + [c]
  {
    SilenceStartOfPrefix(calls, c, |calls|, inclusive);
    assert !EndsSilence(calls + [c], |calls|, inclusive);
    var start := SilenceStart(calls, |calls|, inclusive);
    assert SilenceStart(calls + [c], |calls| + 1, inclusive) == start;
    assert (calls + [c])[start..] == calls[start..] + [c];
  }

  lemma ViewsExtend(calls: seq<Call>, c: Call, earlier: real, from: real)
    requires earlier <= from < c.now
    requires forall d | d in calls :: 0.0 <= d.now
    ensures Ports(calls + [c]) == Ports(calls) + {c.port}
    ensures Recent(calls + [c], from) == Prune(Recent(calls, earlier) + {StampOf(c)}, from)
  {}

  /** What the keys of an IP with these calls hold, in terms of the calls alone. */
  function KeysFor(calls: seq<Call>, window: real, inclusive: bool): Keys
    requires calls != []
  {
    var last := calls[|calls| - 1];
    var live := SinceSilence(calls, inclusive);
    Keys(Recent(live, last.now - window), Ports(live), last.served)
  }

  ghost predicate Faithful(server: Server, calls: seq<Call>, ip: string, window: real, inclusive: bool) {
    if calls == [] then ip !in server
    else ip in server && server[ip] == KeysFor(calls, window, inclusive)
  }

  lemma LiveIsNonNegative(calls: seq<Call>, inclusive: bool)
    requires Monotone(calls)
    ensures forall d | d in SinceSilence(calls, inclusive) :: 0.0 <= d.now
  {
    if calls != [] {
      LastIsLatest(calls);
    }
  }

  /** Keys that have not expired are pruned and extended. */
  lemma KeysExtend(calls: seq<Call>, c: Call, window: real, inclusive: bool)
    requires calls != [] && Monotone(calls) && calls[|calls| - 1].now <= c.now && window >= 1.0
    requires !Expired(calls[|calls| - 1].served, c.served, inclusive)
    ensures var held := KeysFor(calls, window, inclusive);
            KeysFor(calls + [c], window, inclusive) ==
            Keys(Prune(held.attempts + {StampOf(c)}, c.now - window), held.ports + {c.port}, c.served)
  {
    var live := SinceSilence(calls, inclusive);
    LiveExtends(calls, c, inclusive);
    LiveIsNonNegative(calls, inclusive);
    ViewsExtend(live, c, calls[|calls| - 1].now - window, c.now - window);
  }

  /** Expired keys start again with `c` alone. */
  lemma KeysRestart(calls: seq<Call>, c: Call, window: real, inclusive: bool)
    requires window >= 1.0 && (calls != [] ==> Expired(calls[|calls| - 1].served, c.served, inclusive))
    ensures KeysFor(calls + [c], window, inclusive) ==
            Keys(Prune({StampOf(c)}, c.now - window), {c.port}, c.served)
  {}

  lemma ExecuteKeepsFaithful(server: Server, calls: seq<Call>, c: Call, window: real, inclusive: bool)
    requires Monotone(calls) && (calls != [] ==> calls[|calls| - 1].now <= c.now) && window >= 1.0
    requires Faithful(server, calls, c.ip, window, inclusive)
    ensures Faithful(Execute(server, c, window, inclusive), calls + [c], c.ip, window, inclusive)
  {
    if calls == [] || Expired(calls[|calls| - 1].served, c.served, inclusive) {
      KeysRestart(calls, c, window, inclusive);
    } else {
      KeysExtend(calls, c, window, inclusive);
    }
  }

  /** Incremental pruning with expiring keys, characterised over the full history of every IP. */
  lemma {:induction false} StoreIsFaithful(history: seq<Call>, ip: string, window: real, inclusive: bool)
    requires Monotone(history) && window >= 1.0
    ensures Faithful(After(history, window, inclusive), CallsOf(history, ip), ip, window, inclusive)
  {
    if history != [] {
      var n := |history| - 1;
      var past, c := history[..n], history[n];
      MonotonePast(history);
      StoreIsFaithful(past, ip, window, inclusive);
      var before, calls := After(past, window, inclusive), CallsOf(past, ip);
      if c.ip == ip {
        CallsOfMonotone(past, ip);
        CallsOfMembers(past, ip);
        LastIsLatest(history);
        assert CallsOf(history, ip) == calls + [c];
        assert calls != [] ==> calls[|calls| - 1] in past;
        ExecuteKeepsFaithful(before, calls, c, window, inclusive);
      } else {
        assert CallsOf(history, ip) == calls;
        assert ip in Execute(before, c, window, inclusive) <==> ip in before;
      }
    }
  }

  /**
   The server's clock is ahead of the callers' by `offset` at least and `offset` + `lag` at most, when it
   executes a call: `lag` covers how far the callers' clocks differ and how long a call is under way.
   */
  ghost predicate Timely(history: seq<Call>, offset: real, lag: real) {
    forall c | c in history :: c.now + offset <= c.served <= c.now + offset + lag
  }

  /** The server's clock never runs backwards. */
  ghost predicate InServerOrder(history: seq<Call>) {
    forall i, j | 0 <= i < j < |history| :: history[i].served <= history[j].served
  }

  /** What came before an expiring silence lies at least one time to live in the past, up to the lag. */
  lemma BeforeSilenceIsOld(calls: seq<Call>, i: nat, start: nat, offset: real, lag: real, inclusive: bool)
    requires Monotone(calls) && Timely(calls, offset, lag) && i < start && EndsSilence(calls, start, inclusive)
    ensures calls[i].now <= calls[|calls| - 1].now + lag - CONTEXT_TTL
  {
    assert InOrder(calls, i, start - 1) && InOrder(calls, start, |calls| - 1);
    assert calls[start - 1] in calls && calls[start] in calls;
  }

  /** With a window and a lag that fit in the time to live together, expiry removes only what pruning would. */
  lemma ExpiryInvisible(calls: seq<Call>, window: real, offset: real, lag: real, inclusive: bool)
    requires Monotone(calls) && calls != [] && Timely(calls, offset, lag) && window + lag <= CONTEXT_TTL
    ensures var from := calls[|calls| - 1].now - window;
            Recent(SinceSilence(calls, inclusive), from) == Recent(calls, from)
  {
    var from := calls[|calls| - 1].now - window;
    var live := SinceSilence(calls, inclusive);
    RecentOfSuffix(calls, live, from) by {
      forall i | 0 <= i < |calls| - |live|
        ensures calls[i].now <= from
      {
        BeforeSilenceIsOld(calls, i, |calls| - |live|, offset, lag, inclusive);
      }
    }
  }

  lemma RecentOfSuffix(calls: seq<Call>, live: seq<Call>, from: real)
    requires |live| <= |calls| && live == calls[|calls| - |live|..]
    requires forall i | 0 <= i < |calls| - |live| :: calls[i].now <= from
    ensures Recent(live, from) == Recent(calls, from)
  {}

  /** The attempt count reported after `history` is a recount over everything the caller's IP ever did. */
  ghost predicate RecountExact(history: seq<Call>, window: real, inclusive: bool)
    requires history != []
  {
    var c := history[|history| - 1];
    var server := After(history, window, inclusive);
    c.ip in server &&
    ReadBack(server, c.ip).recentAttempts == |Recent(CallsOf(history, c.ip), c.now - window)|
  }

  lemma AfterExtends(history: seq<Call>, c: Call, window: real, inclusive: bool)
    ensures After(history + [c], window, inclusive) == Execute(After(history, window, inclusive), c, window, inclusive)
  {}

  /**
   The context owed to an IP with these calls: at least one attempt, the attempts and ports since
   the last expiring silence, and the attempts of all time when window and lag fit in the TTL.
   */
  ghost predicate Owed(context: IPContext, calls: seq<Call>, window: real, inclusive: bool)
    requires calls != []
  {
    var from := calls[|calls| - 1].now - window;
    var live := SinceSilence(calls, inclusive);
    context.recentAttempts == |Recent(live, from)| >= 1 &&
    context.distinctPorts == Ports(live) &&
    forall offset, lag | Timely(calls, offset, lag) && window + lag <= CONTEXT_TTL ::
      context.recentAttempts == |Recent(calls, from)|
  }

  /** The context owed to the last caller of a history. */
  ghost predicate ExactContext(context: IPContext, history: seq<Call>, window: real, inclusive: bool)
    requires history != []
  {
    Owed(context, CallsOf(history, history[|history| - 1].ip), window, inclusive)
  }

  lemma OwnCallCounts(calls: seq<Call>, window: real, inclusive: bool)
    requires calls != [] && window >= 1.0
    ensures |Recent(SinceSilence(calls, inclusive), calls[|calls| - 1].now - window)| >= 1
  {
    var c, live := calls[|calls| - 1], SinceSilence(calls, inclusive);
    assert live[|live| - 1] == c;
    assert StampOf(c) in Recent(live, c.now - window);
  }

  lemma KeysAreOwed(calls: seq<Call>, window: real, inclusive: bool)
    requires calls != [] && Monotone(calls) && window >= 1.0
    ensures var keys := KeysFor(calls, window, inclusive);
            Owed(IPContext(|keys.attempts|, keys.ports), calls, window, inclusive)
  {
    OwnCallCounts(calls, window, inclusive);
    var from := calls[|calls| - 1].now - window;
    forall offset, lag | Timely(calls, offset, lag) && window + lag <= CONTEXT_TTL
      ensures Recent(SinceSilence(calls, inclusive), from) == Recent(calls, from)
    {
      ExpiryInvisible(calls, window, offset, lag, inclusive);
    }
  }

  /** The context reported to the last caller of a history is the one owed. */
  lemma Reported(server: Server, history: seq<Call>, ip: string, window: real, inclusive: bool)
    requires history != [] && Monotone(history) && window >= 1.0 && ip == history[|history| - 1].ip
    requires Faithful(server, CallsOf(history, ip), ip, window, inclusive)
    ensures ip in server
    ensures ExactContext(ReadBack(server, ip), history, window, inclusive)
  {
    CallsOfMonotone(history, ip);
    KeysAreOwed(CallsOf(history, ip), window, inclusive);
  }

  lemma RecountWithinTtl(history: seq<Call>, window: real, offset: real, lag: real, inclusive: bool)
    requires history != [] && Monotone(history) && Timely(history, offset, lag) && 1.0 <= window && window + lag <= CONTEXT_TTL
    ensures RecountExact(history, window, inclusive)
  {
    hide After, CallsOf, Faithful, Recent, SinceSilence, Monotone, Timely;
    var server := After(history, window, inclusive);
    var ip := history[|history| - 1].ip;
    StoreIsFaithful(history, ip, window, inclusive);
    Reported(server, history, ip, window, inclusive);
    CallsOfLast(history, ip);
    CallsOfTimely(history, ip, offset, lag);
  }

  lemma CallsOfTimely(history: seq<Call>, ip: string, offset: real, lag: real)
    requires Timely(history, offset, lag)
    ensures Timely(CallsOf(history, ip), offset, lag)
  {
    CallsOfMembers(history, ip);
  }

  /** Two calls of one IP inside one window; the second is served late, more than the time to live after the first. */
  function LateReturn(window: real, lag: real): seq<Call> {
    var earliest := if CONTEXT_TTL > lag then CONTEXT_TTL - lag else 0.0;
    var now := (earliest + window) / 2.0;
    [Call("", 22, 0.0, 0.0), Call("", 22, now, now + lag)]
  }

  lemma LateReturnBehaves(window: real, lag: real)
    requires window >= 1.0 && lag >= 0.0
    ensures var h := LateReturn(window, lag);
            Monotone(h) && InServerOrder(h) && Timely(h, 0.0, lag)
  {
    forall i: nat, j: nat
      ensures InOrder(LateReturn(window, lag), i, j)
    {}
  }

  lemma LateReturnUndercounts(window: real, lag: real, inclusive: bool)
    requires window >= 1.0 && lag >= 0.0 && window + lag > CONTEXT_TTL
    ensures var h := LateReturn(window, lag);
            Monotone(h) && InServerOrder(h) && Timely(h, 0.0, lag) && !RecountExact(h, window, inclusive)
  {
    hide After, CallsOf, Recent, SinceSilence, Faithful, Monotone, InServerOrder, Timely;
    var h := LateReturn(window, lag);
    var first, second := h[0], h[1];
    LateReturnBehaves(window, lag);
    TwoCalls(first, second);
    StoreIsFaithful(h, "", window, inclusive);
    Reported(After(h, window, inclusive), h, "", window, inclusive);
    GapDropsFirst(first, second, second.now - window, inclusive);
  }

  lemma GapDropsFirst(a: Call, b: Call, from: real, inclusive: bool)
    requires Expired(a.served, b.served, inclusive) && from < a.now < b.now
    ensures |Recent(SinceSilence([a, b], inclusive), from)| == 1 && |Recent([a, b], from)| == 2
  {
    var calls := [a, b];
    assert EndsSilence(calls, 1, inclusive);
    assert SinceSilence(calls, inclusive) == [b];
    assert Recent([b], from) == {StampOf(b)};
    assert a in calls && b in calls && StampOf(a) != StampOf(b);
    assert Recent(calls, from) == {StampOf(a), StampOf(b)};
  }

  lemma TwoCalls(a: Call, b: Call)
    requires a.ip == b.ip
    ensures CallsOf([a, b], a.ip) == [a, b]
  {
    assert [a, b][..1] == [a] && [a][..0] == [];
    assert CallsOf([a], a.ip) == [a];
  }

  /** Every history whose clocks behave, up to a lag, is recounted exactly. */
  ghost predicate ExpiryNeverShows(window: real, lag: real, inclusive: bool) {
    forall history, offset | history != [] && Monotone(history) && InServerOrder(history) && Timely(history, offset, lag) ::
      RecountExact(history, window, inclusive)
  }

  /**
   Key expiry is invisible to the attempt count of every such history exactly when window and lag fit in
   the time to live together; without a lag, when the window does.
   */
  lemma ExpiryInvisibleIff(window: real, lag: real, inclusive: bool)
    requires window >= 1.0 && lag >= 0.0
    ensures ExpiryNeverShows(window, lag, inclusive) <==> window + lag <= 3600.0
  {
    if window + lag <= CONTEXT_TTL {
      forall history, offset | history != [] && Monotone(history) && InServerOrder(history) && Timely(history, offset, lag)
        ensures RecountExact(history, window, inclusive)
      {
        RecountWithinTtl(history, window, offset, lag, inclusive);
      }
    } else {
      LateReturnUndercounts(window, lag, inclusive);
    }
  }

  lemma SecondPrunesFirst(a: Call, b: Call, window: real, inclusive: bool)
    requires a.ip == b.ip && 0.0 <= a.now <= b.now - window
    ensures b.ip in After([a, b], window, inclusive)
    ensures After([a, b], window, inclusive)[b.ip].attempts <= {StampOf(b)}
  {
    AfterExtends([], a, window, inclusive);
    AfterExtends([a], b, window, inclusive);
    assert [] + [a] == [a] && [a] + [b] == [a, b];
    assert After([a], window, inclusive)[a.ip].attempts <= {StampOf(a)};
  }

  /** Three updates of one IP, one after the other; the clock was read for the last one before the second. */
  function ClockRunsBack(window: real): seq<Call> {
    [Call("", 22, 1.0, 1.0), Call("", 23, 1.0 + window, 1.0 + window), Call("", 24, 1.5, 1.0 + window)]
  }

  /** The monotone clock is needed, whatever the window: a late update is answered with too few attempts. */
  lemma ClockRunsBackUndercounts(window: real, inclusive: bool)
    requires window >= 1.0
    ensures !RecountExact(ClockRunsBack(window), window, inclusive)
  {
    var h := ClockRunsBack(window);
    var a, b, c := h[0], h[1], h[2];
    SecondPrunesFirst(a, b, window, inclusive);
    var two := After([a, b], window, inclusive);
    AfterExtends([a, b], c, window, inclusive);
    assert [a, b] + [c] == h;
    var three := Execute(two, c, window, inclusive);
    assert three[""].attempts <= {StampOf(b), StampOf(c)};
    SubsetSize(three[""].attempts, {StampOf(b), StampOf(c)});
    AllThreeRecent(a, b, c, 1.5 - window);
  }

  lemma AllThreeRecent(a: Call, b: Call, c: Call, from: real)
    requires a.ip == b.ip == c.ip && a.port != b.port && b.port != c.port && a.port != c.port
    requires from < a.now && from < b.now && from < c.now
    ensures |Recent(CallsOf([a, b, c], a.ip), from)| == 3
  {
    var h := [a, b, c];
    TwoCalls(a, b);
    assert h[..2] == [a, b];
    assert CallsOf(h, a.ip) == h;
    assert a in h && b in h && c in h;
    assert Recent(h, from) == {StampOf(a), StampOf(b), StampOf(c)};
  }

  // ----- Any clock: which histories are recounted exactly -----

  /** No later call of the IP pruned call `i`, and no later silence expired it. */
  ghost predicate Survives(calls: seq<Call>, i: nat, window: real, inclusive: bool) {
    i < |calls| &&
    forall j | i < j < |calls| :: Spares(calls, i, j, window, inclusive)
  }

  predicate Spares(calls: seq<Call>, i: nat, j: nat, window: real, inclusive: bool)
    requires i < |calls| && j < |calls|
  {
    calls[i].now > calls[j].now - window && !EndsSilence(calls, j, inclusive)
  }

  ghost predicate HasSurvivor(calls: seq<Call>, s: Stamp, window: real, inclusive: bool) {
    exists i: nat :: Survives(calls, i, window, inclusive) && StampOf(calls[i]) == s
  }

  ghost predicate NonNegative(history: seq<Call>) {
    forall c | c in history :: 0.0 <= c.now
  }

  /** The next call of the IP neither prunes what was stamped at `at` nor ends an expiring silence. */
  predicate Spared(calls: seq<Call>, at: real, c: Call, window: real, inclusive: bool) {
    calls != [] && at > c.now - window && !Expired(calls[|calls| - 1].served, c.served, inclusive)
  }

  /** An earlier call survives one more call if that call spares it; the new call itself always does. */
  lemma SurvivesExtends(calls: seq<Call>, c: Call, i: nat, window: real, inclusive: bool)
    requires window >= 1.0
    ensures Survives(calls + [c], i, window, inclusive) <==>
            i == |calls| ||
            (Survives(calls, i, window, inclusive) && Spared(calls, calls[i].now, c, window, inclusive))
  {
    var more := calls + [c];
    forall j | 0 < j < |calls|
      ensures EndsSilence(more, j, inclusive) == EndsSilence(calls, j, inclusive)
    {}
    if Survives(more, i, window, inclusive) && i < |calls| {
      assert Spares(more, i, |calls|, window, inclusive);
      forall j | i < j < |calls|
        ensures Spares(calls, i, j, window, inclusive)
      {
        assert Spares(more, i, j, window, inclusive);
      }
    }
    if i < |calls| && Survives(calls, i, window, inclusive) && Spared(calls, calls[i].now, c, window, inclusive) {
      forall j | i < j < |more|
        ensures Spares(more, i, j, window, inclusive)
      {
        assert j < |calls| ==> Spares(calls, i, j, window, inclusive);
      }
    }
  }

  lemma SurvivorExtends(calls: seq<Call>, c: Call, s: Stamp, window: real, inclusive: bool)
    requires window >= 1.0
    ensures HasSurvivor(calls + [c], s, window, inclusive) <==>
            s == StampOf(c) ||
            (HasSurvivor(calls, s, window, inclusive) && Spared(calls, s.at, c, window, inclusive))
  {
    var more := calls + [c];
    if HasSurvivor(more, s, window, inclusive) {
      var i: nat :| Survives(more, i, window, inclusive) && StampOf(more[i]) == s;
      SurvivesExtends(calls, c, i, window, inclusive);
    }
    if s == StampOf(c) {
      SurvivesExtends(calls, c, |calls|, window, inclusive);
      assert Survives(more, |calls|, window, inclusive) && StampOf(more[|calls|]) == s;
    } else if HasSurvivor(calls, s, window, inclusive) && Spared(calls, s.at, c, window, inclusive) {
      var i: nat :| Survives(calls, i, window, inclusive) && StampOf(calls[i]) == s;
      SurvivesExtends(calls, c, i, window, inclusive);
      assert Survives(more, i, window, inclusive) && StampOf(more[i]) == s;
    }
  }

  /** The sorted set of an IP holds the stamps with a survivor, whatever the clock did. */
  ghost predicate HoldsSurvivors(server: Server, calls: seq<Call>, ip: string, window: real, inclusive: bool) {
    if calls == [] then ip !in server
    else
      ip in server && server[ip].touched == calls[|calls| - 1].served &&
      forall s :: s in server[ip].attempts <==> HasSurvivor(calls, s, window, inclusive)
  }

  lemma ExecuteHoldsSurvivors(server: Server, calls: seq<Call>, c: Call, window: real, inclusive: bool)
    requires window >= 1.0 && NonNegative(calls) && 0.0 <= c.now
    requires HoldsSurvivors(server, calls, c.ip, window, inclusive)
    ensures HoldsSurvivors(Execute(server, c, window, inclusive), calls + [c], c.ip, window, inclusive)
  {
    var next := Execute(server, c, window, inclusive);
    forall s
      ensures s in next[c.ip].attempts <==> HasSurvivor(calls + [c], s, window, inclusive)
    {
      SurvivorExtends(calls, c, s, window, inclusive);
      if calls == [] {
        assert !HasSurvivor(calls, s, window, inclusive);
      } else if HasSurvivor(calls, s, window, inclusive) {
        SurvivorIsCall(calls, s, window, inclusive);
      }
    }
  }

  lemma SurvivorIsCall(calls: seq<Call>, s: Stamp, window: real, inclusive: bool)
    requires calls != [] && HasSurvivor(calls, s, window, inclusive) && window >= 1.0
    ensures exists c :: c in calls && StampOf(c) == s
    ensures s in Recent(calls, calls[|calls| - 1].now - window)
  {
    var i: nat :| Survives(calls, i, window, inclusive) && StampOf(calls[i]) == s;
    assert calls[i] in calls;
    assert i < |calls| - 1 ==> Spares(calls, i, |calls| - 1, window, inclusive);
  }

  lemma {:induction false} StoreHoldsSurvivors(history: seq<Call>, ip: string, window: real, inclusive: bool)
    requires NonNegative(history) && window >= 1.0
    ensures HoldsSurvivors(After(history, window, inclusive), CallsOf(history, ip), ip, window, inclusive)
  {
    if history != [] {
      var n := |history| - 1;
      var past, c := history[..n], history[n];
      StoreHoldsSurvivors(past, ip, window, inclusive);
      CallsOfMembers(past, ip);
      hide HoldsSurvivors, Execute, CallsOf;
      if c.ip == ip {
        CallsOfLast(history, ip);
        ExecuteHoldsSurvivors(After(past, window, inclusive), CallsOf(past, ip), c, window, inclusive);
      } else {
        CallsOfLast(history, ip);
        OtherIpUntouched(After(past, window, inclusive), c, CallsOf(past, ip), ip, window, inclusive);
      }
    } else {
      NoCalls(ip, window, inclusive);
    }
  }

  lemma NoCalls(ip: string, window: real, inclusive: bool)
    ensures HoldsSurvivors(After([], window, inclusive), CallsOf([], ip), ip, window, inclusive)
  {}

  lemma CallsOfLast(history: seq<Call>, ip: string)
    requires history != []
    ensures var n := |history| - 1;
            CallsOf(history, ip) ==
              if history[n].ip == ip then CallsOf(history[..n], ip) + [history[n]]
              else CallsOf(history[..n], ip)
  {}

  lemma OtherIpUntouched(server: Server, c: Call, calls: seq<Call>, ip: string, window: real, inclusive: bool)
    requires c.ip != ip && HoldsSurvivors(server, calls, ip, window, inclusive)
    ensures HoldsSurvivors(Execute(server, c, window, inclusive), calls, ip, window, inclusive)
  {}

  lemma SameSizeSubset(a: set<Stamp>, b: set<Stamp>)
    requires a <= b
    ensures |a| == |b| <==> a == b
  {
    if |a| == |b| && a != b {
      var x :| x in b && x !in a;
      SubsetSize(a + {x}, b);
    }
  }

  lemma HeldAreRecent(server: Server, calls: seq<Call>, ip: string, window: real, inclusive: bool)
    requires calls != [] && window >= 1.0 && HoldsSurvivors(server, calls, ip, window, inclusive)
    ensures server[ip].attempts <= Recent(calls, calls[|calls| - 1].now - window)
  {
    hide HasSurvivor, Recent;
    forall s | s in server[ip].attempts
      ensures s in Recent(calls, calls[|calls| - 1].now - window)
    {
      SurvivorIsCall(calls, s, window, inclusive);
    }
  }

  lemma HeldIsRecentIff(server: Server, calls: seq<Call>, ip: string, window: real, inclusive: bool)
    requires calls != [] && window >= 1.0 && HoldsSurvivors(server, calls, ip, window, inclusive)
    ensures ip in server
    ensures var recent := Recent(calls, calls[|calls| - 1].now - window);
            |server[ip].attempts| == |recent| <==> forall s | s in recent :: HasSurvivor(calls, s, window, inclusive)
  {
    hide HasSurvivor, Recent;
    HeldAreRecent(server, calls, ip, window, inclusive);
    SameSizeSubset(server[ip].attempts, Recent(calls, calls[|calls| - 1].now - window));
  }

  /** Every recent stamp of the last caller has a survivor. */
  ghost predicate RecentSurvive(history: seq<Call>, window: real, inclusive: bool)
    requires history != []
  {
    var c := history[|history| - 1];
    var calls := CallsOf(history, c.ip);
    forall s | s in Recent(calls, c.now - window) :: HasSurvivor(calls, s, window, inclusive)
  }

  /**
   The exact condition for any callers' clocks that are never negative and any server clock: the reported
   attempts are a recount of the whole history if and only if every recent attempt has an occurrence that
   no later call of the IP pruned and no later silence, on the server's clock, expired.
   */
  lemma RecountExactIff(history: seq<Call>, window: real, inclusive: bool)
    requires history != [] && NonNegative(history) && window >= 1.0
    ensures RecountExact(history, window, inclusive) <==> RecentSurvive(history, window, inclusive)
  {
    hide CallsOf, After, HasSurvivor, HoldsSurvivors, Recent;
    var c := history[|history| - 1];
    var calls, server := CallsOf(history, c.ip), After(history, window, inclusive);
    StoreHoldsSurvivors(history, c.ip, window, inclusive);
    CallsOfLast(history, c.ip);
    HeldIsRecentIff(server, calls, c.ip, window, inclusive);
  }

  /** A bound that needs no assumption on clocks or windows: never more stamps or ports than calls. */
  lemma {:induction false} NeverMoreThanTotal(history: seq<Call>, ip: string, window: real, inclusive: bool)
    requires ip in After(history, window, inclusive)
    ensures var keys := After(history, window, inclusive)[ip];
            |keys.attempts| <= |CallsOf(history, ip)| &&
            keys.ports <= Ports(CallsOf(history, ip))
  {
    var n := |history| - 1;
    var past, c := history[..n], history[n];
    var before := After(past, window, inclusive);
    if ip in before {
      NeverMoreThanTotal(past, ip, window, inclusive);
    }
    if c.ip == ip {
      var held := Held(before, c, inclusive);
      SubsetSize(After(history, window, inclusive)[ip].attempts, held.attempts + {StampOf(c)});
      assert |held.attempts + {StampOf(c)}| <= |held.attempts| + 1;
      assert CallsOf(history, ip) == CallsOf(past, ip) + [c];
    } else {
      assert CallsOf(history, ip) == CallsOf(past, ip);
    }
  }

  /** The server is what this history of updates leaves behind. */
  ghost predicate Consistent(server: Server, history: seq<Call>, window: real, inclusive: bool) {
    window >= 1.0 && server == After(history, window, inclusive)
  }

  /** One more update; whenever the clock never ran backwards, the answer is the context owed. */
  lemma ConsistentStep(server: Server, history: seq<Call>, c: Call, window: real, inclusive: bool)
    requires Consistent(server, history, window, inclusive)
    ensures Consistent(Execute(server, c, window, inclusive), history + [c], window, inclusive)
    ensures Monotone(history + [c]) ==>
              ExactContext(ReadBack(Execute(server, c, window, inclusive), c.ip), history + [c], window, inclusive)
  {
    var more := history + [c];
    AfterExtends(history, c, window, inclusive);
    assert more[|more| - 1] == c;
    if Monotone(more) {
      StoreIsFaithful(more, c.ip, window, inclusive);
      Reported(After(more, window, inclusive), more, c.ip, window, inclusive);
    }
  }

  /** The store object: one Redis server, seen through one client with a fixed window. */
  class IPContextStore {
    var connected: bool
    var server: Server
    const window: real
    const inclusive: bool
    ghost var history: seq<Call>

    ghost predicate Valid()
      reads this
    {
      Consistent(server, history, window, inclusive)
    }

    constructor (window: real, inclusive: bool)
      requires window >= 1.0
      ensures Valid() && history == [] && !connected
      ensures this.window == window && this.inclusive == inclusive
    {
      this.window, this.inclusive := window, inclusive;
      connected, server, history := false, map[], [];
    }

    method Connect()
      modifies this`connected
      ensures connected
    {
      connected := true;
    }

    method Close()
      modifies this`connected
      ensures !connected
    {
      connected := false;
    }

    /**
     Records one event, stamped by the caller's clock and expired by the server's, and reads the context back.
     A lost reply still updates the server; every failed call answers with the empty context.
     */
    method UpdateAndGet(ip: string, port: int, now: real, served: real, reply: Reply) returns (context: IPContext)
      requires Valid()
      modifies this
      ensures Valid() && connected
      ensures history == if reply.Unreachable? then old(history) else old(history) + [Call(ip, port, now, served)]
      ensures !reply.Answered? ==> context == NO_CONTEXT
      ensures reply.Answered? ==>
                ip in After(history, window, inclusive) &&
                context == ReadBack(After(history, window, inclusive), ip)
      ensures reply.Answered? && Monotone(history) ==> ExactContext(context, history, window, inclusive)
    {
      if !connected {
        Connect();
      }
      if reply.Unreachable? {
        return NO_CONTEXT;
      }
      var c := Call(ip, port, now, served);
      ConsistentStep(server, history, c, window, inclusive);
      server := Execute(server, c, window, inclusive);
      history := history + [c];
      if reply.ReplyLost? {
        return NO_CONTEXT;
      }
      context := ReadBack(server, ip);
    }
  }
}
