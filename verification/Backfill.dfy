/**
 Relabelling of unclassified rows: one pass in timestamp order that rebuilds the IP context
 cumulatively in memory, committing every BATCH_SIZE rows.
 */
module Backfill {
  import opened Events
  import opened Sequences
  import opened Classifier

  const BATCH_SIZE := 500

  /**
   `attack_events` as one run lists it: by timestamp, with ties in whatever order the database answers.
   A row is unclassified while its attack type is NULL.
   */
  type Table = seq<Row>

  ghost predicate ByTime(rows: Table) {
    forall i, j | 0 <= i < j < |rows| :: rows[i].event.timestamp <= rows[j].event.timestamp
  }

  /** `listing` is the table as some run may list it. */
  ghost predicate Lists(listing: Table, rows: Table) {
    multiset(listing) == multiset(rows) && ByTime(listing)
  }

  predicate Pending(row: Row, ip: string) {
    row.attackType.None? && row.event.sourceIp == ip
  }

  /** How many unclassified rows of `ip` are among the first `n`. */
  function Attempts(rows: Table, n: nat, ip: string): nat
    requires n <= |rows|
  {
    if n == 0 then 0
    else Attempts(rows, n - 1, ip) + (if Pending(rows[n - 1], ip) then 1 else 0)
  }

  function PortsSeen(rows: Table, n: nat, ip: string): set<int>
    requires n <= |rows|
  {
    set i | 0 <= i < n && Pending(rows[i], ip) :: rows[i].event.destinationPort
  }

  /** The context of `ip` counted over the unclassified rows among the first `n`: no window, no expiry. */
  function Cumulative(rows: Table, n: nat, ip: string): IPContext
    requires n <= |rows|
  {
    IPContext(Attempts(rows, n, ip), PortsSeen(rows, n, ip))
  }

  lemma PortsStep(rows: Table, n: nat, ip: string)
    requires n < |rows|
    ensures PortsSeen(rows, n + 1, ip) ==
            PortsSeen(rows, n, ip) + (if Pending(rows[n], ip) then {rows[n].event.destinationPort} else {})
  {}

  /** `_IPContextBuilder`: two dictionaries with default values, updated per event. */
  class IPContextBuilder {
    var attempts: map<string, int>
    var ports: map<string, set<int>>

    constructor ()
      ensures forall ip :: Context(ip) == NO_CONTEXT
    {
      attempts, ports := map[], map[];
    }

    /** What the dictionaries say about `ip`, defaults included. */
    function Context(ip: string): IPContext
      reads this
    {
      IPContext(if ip in attempts then attempts[ip] else 0, if ip in ports then ports[ip] else {})
    }

    method UpdateAndGet(ip: string, port: int) returns (context: IPContext)
      modifies this
      ensures context == Context(ip) ==
              old(IPContext(Context(ip).recentAttempts + 1, Context(ip).distinctPorts + {port}))
      ensures forall other | other != ip :: Context(other) == old(Context(other))
    {
      attempts := attempts[ip := (if ip in attempts then attempts[ip] else 0) + 1];
      ports := ports[ip := (if ip in ports then ports[ip] else {}) + {port}];
      context := IPContext(attempts[ip], ports[ip]);
    }
  }

  // ----- One run -----

  /** Row `i` as a pass over this table labels it. */
  function Labelled(rules: DetectionRules, rows: Table, i: nat): (row: Row)
    requires i < |rows|
    ensures row.event == rows[i].event
    ensures RowJustified(rules, Some(Cumulative(rows, i + 1, row.event.sourceIp)), row)
  {
    var event := rows[i].event;
    var verdict := Classify(rules, event, Cumulative(rows, i + 1, event.sourceIp));
    Row(event, Some(verdict.attackType), Some(verdict.severity))
  }

  /** The table once every unclassified row before position `cut` is labelled. */
  function Pass(rules: DetectionRules, rows: Table, cut: nat): (out: Table)
    ensures |out| == |rows|
  {
    seq(|rows|, i requires 0 <= i < |rows| =>
      if i < cut && rows[i].attackType.None? then Labelled(rules, rows, i) else rows[i])
  }

  /** SELECT of the unclassified rows among the first `n`, in order. */
  function Select(rows: Table, n: nat): (todo: seq<nat>)
    requires n <= |rows|
    ensures |todo| <= n
    ensures forall k | 0 <= k < |todo| :: todo[k] < n && rows[todo[k]].attackType.None?
  {
    if n == 0 then []
    else Select(rows, n - 1) + (if rows[n - 1].attackType.None? then [n - 1] else [])
  }

  /** Just after the k-th selected row; at the end of the table once all are done. */
  function Cut(rows: Table, k: nat): (cut: nat)
    requires k <= |Select(rows, |rows|)|
  {
    var todo := Select(rows, |rows|);
    if k == |todo| then |rows| else todo[k]
  }

  /** A run either completes, or crashes having updated `processed` rows in its session. */
  datatype Outcome = Completed | Crashed(processed: nat)

  /** The largest multiple of the batch size that is at most `n`. */
  function WholeBatches(n: nat): (m: nat)
    ensures m <= n
  {
    if n % BATCH_SIZE == 0 then n else WholeBatches(n - 1)
  }

  /** How many updates survive: whole batches only, unless the run completes. */
  function Survivors(outcome: Outcome, total: nat): (n: nat)
    ensures n <= total
  {
    match outcome
    case Completed => total
    case Crashed(processed) =>
      WholeBatches(if processed <= total then processed else total)
  }

  /** The table after one run. */
  function AfterRun(rules: DetectionRules, rows: Table, outcome: Outcome): (out: Table)
    ensures |out| == |rows|
  {
    Pass(rules, rows, Cut(rows, Survivors(outcome, |Select(rows, |rows|)|)))
  }

  // ----- The command -----

  /** The selection is increasing and misses nothing. */
  lemma {:induction false} SelectIsComplete(rows: Table, n: nat)
    requires n <= |rows|
    ensures forall j, k | 0 <= j < k < |Select(rows, n)| :: Select(rows, n)[j] < Select(rows, n)[k]
    ensures forall i: nat | i < n && rows[i].attackType.None? :: i in Select(rows, n)
  {
    if n > 0 {
      SelectIsComplete(rows, n - 1);
    }
  }

  /** From just after the k-th selected row to the next one, or to the end, nothing is unclassified. */
  lemma NothingBetween(rows: Table, k: nat, i: nat)
    requires k <= |Select(rows, |rows|)| && i < |rows|
    requires (k > 0 ==> Select(rows, |rows|)[k - 1] < i) && i < Cut(rows, k)
    ensures rows[i].attackType.Some?
  {
    SelectIsComplete(rows, |rows|);
  }

  lemma {:induction false} CumulativeOverGap(rows: Table, lo: nat, hi: nat, ip: string)
    requires lo <= hi <= |rows| && forall i | lo <= i < hi :: rows[i].attackType.Some?
    ensures Cumulative(rows, hi, ip) == Cumulative(rows, lo, ip)
    decreases hi
  {
    if lo < hi {
      CumulativeOverGap(rows, lo, hi - 1, ip);
      PortsStep(rows, hi - 1, ip);
    }
  }

  lemma PassStep(rules: DetectionRules, rows: Table, i: nat, next: nat)
    requires i < next <= |rows| && rows[i].attackType.None?
    requires forall j | i < j < next :: rows[j].attackType.Some?
    ensures Pass(rules, rows, next) == Pass(rules, rows, i)[i := Labelled(rules, rows, i)]
  {}

  /** Labelling the k-th selected row moves the cut to the next one. */
  lemma CutAdvances(rules: DetectionRules, rows: Table, k: nat)
    requires k < |Select(rows, |rows|)|
    ensures Cut(rows, k) < Cut(rows, k + 1) <= |rows|
    ensures forall j | Cut(rows, k) < j < Cut(rows, k + 1) :: rows[j].attackType.Some?
    ensures var i := Cut(rows, k);
            Pass(rules, rows, Cut(rows, k + 1)) == Pass(rules, rows, i)[i := Labelled(rules, rows, i)]
  {
    hide Pass, Labelled;
    SelectIsComplete(rows, |rows|);
    forall j | Cut(rows, k) < j < Cut(rows, k + 1)
      ensures rows[j].attackType.Some?
    {
      NothingBetween(rows, k + 1, j);
    }
    PassStep(rules, rows, Cut(rows, k), Cut(rows, k + 1));
  }

  lemma {:induction false} SelectPrefix(rows: Table, m: nat, n: nat)
    requires m <= n <= |rows|
    ensures Select(rows, m) <= Select(rows, n)
    decreases n
  {
    if m < n {
      SelectPrefix(rows, m, n - 1);
    }
  }

  /** An unclassified row is before the cut exactly when fewer than `k` others are listed before it. */
  lemma BeforeCut(rows: Table, k: nat, i: nat)
    requires k <= |Select(rows, |rows|)| && i < |rows| && rows[i].attackType.None?
    ensures i < Cut(rows, k) <==> |Select(rows, i)| < k
  {
    var todo, at := Select(rows, |rows|), |Select(rows, i)|;
    SelectPrefix(rows, i + 1, |rows|);
    assert Select(rows, i + 1)[at] == i;
    assert todo[at] == i;
    SelectIsComplete(rows, |rows|);
  }

  lemma {:induction false} WholeBatchesIs(n: nat)
    ensures WholeBatches(n) == n / 500 * 500
  {
    if n % 500 != 0 {
      WholeBatchesIs(n - 1);
    }
  }

  /** How many updates are committed: all of them, or what the last full batch of 500 before the crash held. */
  function Committed(outcome: Outcome, total: nat): nat {
    if outcome.Completed? then total
    else (if outcome.processed <= total then outcome.processed else total) / 500 * 500
  }

  /**
   What a run leaves, row by row: the unclassified rows listed first, as many as were committed, carry
   the labels that the rules ask for in the context counted up to them; no other row has changed.
   */
  ghost predicate Relabelled(rules: DetectionRules, listing: Table, outcome: Outcome, out: Table) {
    |out| == |listing| &&
    forall i | 0 <= i < |listing| ::
      if listing[i].attackType.None? && |Select(listing, i)| < Committed(outcome, |Select(listing, |listing|)|) then
        out[i].event == listing[i].event &&
        RowJustified(rules, Some(Cumulative(listing, i + 1, listing[i].event.sourceIp)), out[i])
      else
        out[i] == listing[i]
  }

  lemma RunRelabels(rules: DetectionRules, rows: Table, outcome: Outcome)
    ensures Relabelled(rules, rows, outcome, AfterRun(rules, rows, outcome))
  {
    hide Labelled, RowJustified, Cut, Select;
    var total := |Select(rows, |rows|)|;
    if outcome.Crashed? {
      WholeBatchesIs(if outcome.processed <= total then outcome.processed else total);
    }
    forall i | 0 <= i < |rows| && rows[i].attackType.None?
      ensures i < Cut(rows, Survivors(outcome, total)) <==> |Select(rows, i)| < Committed(outcome, total)
    {
      BeforeCut(rows, Survivors(outcome, total), i);
    }
  }

  lemma CutStart(rules: DetectionRules, rows: Table)
    ensures forall j: nat | j < Cut(rows, 0) :: rows[j].attackType.Some?
    ensures Pass(rules, rows, Cut(rows, 0)) == rows
  {
    forall j: nat | j < Cut(rows, 0)
      ensures rows[j].attackType.Some?
    {
      NothingBetween(rows, 0, j);
    }
  }

  /** The builder has counted the unclassified rows before position `n`. */
  ghost predicate HasCounted(builder: IPContextBuilder, rows: Table, n: nat)
    requires n <= |rows|
    reads builder
  {
    forall ip :: builder.Context(ip) == Cumulative(rows, n, ip)
  }

  lemma SkipGap(builder: IPContextBuilder, rows: Table, lo: nat, hi: nat)
    requires lo <= hi <= |rows| && forall i | lo <= i < hi :: rows[i].attackType.Some?
    requires HasCounted(builder, rows, lo)
    ensures HasCounted(builder, rows, hi)
  {
    forall ip
      ensures Cumulative(rows, hi, ip) == Cumulative(rows, lo, ip)
    {
      CumulativeOverGap(rows, lo, hi, ip);
    }
  }

  /** Classifies one event against what has been counted, itself included. */
  method LabelRow(rules: DetectionRules, builder: IPContextBuilder, event: AttackEvent, ghost rows: Table, ghost i: nat)
    returns (row: Row)
    requires i < |rows| && rows[i].attackType.None? && rows[i].event == event
    requires HasCounted(builder, rows, i)
    modifies builder
    ensures HasCounted(builder, rows, i + 1)
    ensures row == Labelled(rules, rows, i) && row.event == event
    ensures RowJustified(rules, Some(Cumulative(rows, i + 1, event.sourceIp)), row)
  {
    var context := builder.UpdateAndGet(event.sourceIp, event.destinationPort);
    forall ip
      ensures builder.Context(ip) == Cumulative(rows, i + 1, ip)
    {
      PortsStep(rows, i, ip);
      assert old(builder.Context(ip)) == Cumulative(rows, i, ip);
    }
    var verdict := Classify(rules, event, context);
    row := Row(event, Some(verdict.attackType), Some(verdict.severity));
  }

  method NewBuilder(ghost rules: DetectionRules, ghost rows: Table) returns (builder: IPContextBuilder)
    ensures fresh(builder)
    ensures Cut(rows, 0) <= |rows| && HasCounted(builder, rows, Cut(rows, 0))
    ensures Pass(rules, rows, Cut(rows, 0)) == rows
  {
    builder := new IPContextBuilder();
    CutStart(rules, rows);
    SkipGap(builder, rows, 0, Cut(rows, 0));
  }

  /** The UPDATE of the k-th selected row, inside the session. */
  method UpdateRow(rules: DetectionRules, builder: IPContextBuilder, before: Table, id: nat, ghost rows: Table, ghost k: nat)
    returns (session: Table)
    requires k < |Select(rows, |rows|)| && id == Select(rows, |rows|)[k]
    requires before == Pass(rules, rows, Cut(rows, k))
    requires HasCounted(builder, rows, Cut(rows, k))
    modifies builder
    ensures Cut(rows, k + 1) <= |rows| && HasCounted(builder, rows, Cut(rows, k + 1))
    ensures session == Pass(rules, rows, Cut(rows, k + 1))
  {
    CutAdvances(rules, rows, k);
    var row := LabelRow(rules, builder, before[id].event, rows, id);
    SkipGap(builder, rows, id + 1, Cut(rows, k + 1));
    session := before[id := row];
  }

  /** The database as the backfill command sees it. */
  class Database {
    var rows: Table

    constructor (rows: Table)
      ensures this.rows == rows
    {
      this.rows := rows;
    }

    /**
     One run of the command over the table as the database lists it; a crash strikes once `processed`
     rows have been updated.
     */
    method Backfill(rules: DetectionRules, listing: Table, outcome: Outcome)
      requires Lists(listing, rows)
      modifies this
      ensures rows == AfterRun(rules, listing, outcome)
      ensures Relabelled(rules, listing, outcome, rows)
    {
      hide Pass, Labelled, Relabelled;
      RunRelabels(rules, listing, outcome);
      rows := listing;
      ghost var start := rows;
      var events := Select(rows, |rows|);
      if events == [] {
        CutStart(rules, rows);
        return;
      }
      var builder := NewBuilder(rules, rows);
      var session := rows;
      var processed := 0;
      ghost var saved := 0;
      while processed < |events|
        invariant processed <= |events|
        invariant Cut(start, processed) <= |start| && HasCounted(builder, start, Cut(start, processed))
        invariant session == Pass(rules, start, Cut(start, processed))
        invariant saved == WholeBatches(processed)
        invariant rows == Pass(rules, start, Cut(start, saved))
        invariant outcome.Crashed? ==> processed <= outcome.processed
      {
        if outcome == Crashed(processed) {
          return;
        }
        session := UpdateRow(rules, builder, session, events[processed], start, processed);
        processed := processed + 1;
        if processed % BATCH_SIZE == 0 {
          rows := session;
          saved := processed;
        }
      }
      if outcome.Completed? {
        rows := session;
      }
    }
  }
}
