/**
 Backfill interrupted and run again. Every run asks the database anew, which may list rows of equal
 timestamp in another order each time.
 */
module Reruns {
  import opened Events
  import opened Sequences
  import opened Classifier
  import opened Backfill

  /** One run: how the database listed the table, and how the run ended. */
  datatype BackfillRun = BackfillRun(listing: Table, outcome: Outcome)

  /** The table after some runs. */
  function TableAfter(rules: DetectionRules, start: Table, runs: seq<BackfillRun>): Table {
    if runs == [] then start else AfterRun(rules, runs[|runs| - 1].listing, runs[|runs| - 1].outcome)
  }

  /** Each run lists, in an order of its own, what the runs before it left. */
  ghost predicate History(rules: DetectionRules, start: Table, runs: seq<BackfillRun>) {
    runs == [] ||
    (History(rules, start, runs[..|runs| - 1]) &&
     Lists(runs[|runs| - 1].listing, TableAfter(rules, start, runs[..|runs| - 1])))
  }

  // ----- Contexts up to a moment -----

  predicate PendingUpTo(row: Row, ip: string, time: int) {
    Pending(row, ip) && row.event.timestamp <= time
  }

  function CountUpTo(ip: string, time: int): Row -> int {
    (row: Row) => if PendingUpTo(row, ip, time) then 1 else 0
  }

  /** The unclassified rows of `ip` up to a moment, ties included: no listing counts more at that moment. */
  function UpTo(rows: Table, ip: string, time: int): IPContext {
    IPContext(Sum(rows, CountUpTo(ip, time)),
              set row | row in rows && PendingUpTo(row, ip, time) :: row.event.destinationPort)
  }

  lemma UpToRelisted(a: Table, b: Table, ip: string, time: int)
    requires multiset(a) == multiset(b)
    ensures UpTo(a, ip, time) == UpTo(b, ip, time)
  {
    SumPermutation(a, b, CountUpTo(ip, time));
    InMultiset(a, b);
  }

  lemma {:induction false} AttemptsAsSum(rows: Table, n: nat, ip: string, time: int)
    requires n <= |rows| && forall i | 0 <= i < n :: rows[i].event.timestamp <= time
    ensures Attempts(rows, n, ip) == Sum(rows[..n], CountUpTo(ip, time))
  {
    if n > 0 {
      AttemptsAsSum(rows, n - 1, ip, time);
      assert rows[..n] == rows[..n - 1] + [rows[n - 1]];
      SumConcat(rows[..n - 1], [rows[n - 1]], CountUpTo(ip, time));
      assert Sum([rows[n - 1]], CountUpTo(ip, time)) == CountUpTo(ip, time)(rows[n - 1]) + Sum([], CountUpTo(ip, time));
    }
  }

  lemma {:induction false} CountedNone(rows: Table, ip: string, time: int)
    ensures Sum(rows, CountUpTo(ip, time)) >= 0
    ensures (forall row | row in rows :: !PendingUpTo(row, ip, time)) ==> Sum(rows, CountUpTo(ip, time)) == 0
  {
    if rows != [] {
      CountedNone(rows[1..], ip, time);
      assert rows[0] in rows && forall row | row in rows[1..] :: row in rows;
    }
  }

  /** Two unclassified rows of one IP with the same timestamp. */
  predicate Tied(x: Row, y: Row) {
    x.attackType.None? && y.attackType.None? &&
    x.event.sourceIp == y.event.sourceIp && x.event.timestamp == y.event.timestamp
  }

  /** No unclassified row of the same IP and moment is listed after position `i`. */
  ghost predicate LastOfTies(listing: Table, i: nat)
    requires i < |listing|
  {
    forall j | i < j < |listing| :: !Tied(listing[i], listing[j])
  }

  /** What a run has counted at a row is at most everything up to its moment, and exactly that after the last tie. */
  lemma CumulativeWithinUpTo(listing: Table, i: nat)
    requires i < |listing| && ByTime(listing) && listing[i].attackType.None?
    ensures var e := listing[i].event;
            Below(Cumulative(listing, i + 1, e.sourceIp), UpTo(listing, e.sourceIp, e.timestamp)) &&
            (LastOfTies(listing, i) ==>
               Cumulative(listing, i + 1, e.sourceIp) == UpTo(listing, e.sourceIp, e.timestamp))
  {
    var e := listing[i].event;
    var count := CountUpTo(e.sourceIp, e.timestamp);
    AttemptsAsSum(listing, i + 1, e.sourceIp, e.timestamp);
    assert listing == listing[..i + 1] + listing[i + 1..];
    SumConcat(listing[..i + 1], listing[i + 1..], count);
    CountedNone(listing[i + 1..], e.sourceIp, e.timestamp);
    if LastOfTies(listing, i) {
      forall row | row in listing[i + 1..]
        ensures !PendingUpTo(row, e.sourceIp, e.timestamp)
      {
        var j :| i < j < |listing| && listing[j] == row;
        assert !Tied(listing[i], listing[j]);
      }
    }
    PortsWithinUpTo(listing, i);
  }

  lemma PortsWithinUpTo(listing: Table, i: nat)
    requires i < |listing| && ByTime(listing) && listing[i].attackType.None?
    ensures var e := listing[i].event;
            var all := UpTo(listing, e.sourceIp, e.timestamp).distinctPorts;
            PortsSeen(listing, i + 1, e.sourceIp) <= all &&
            (LastOfTies(listing, i) ==> all <= PortsSeen(listing, i + 1, e.sourceIp))
  {}

  /** Labelling rows leaves fewer to count. */
  lemma {:induction false} UpToFewer(some: Table, all: Table, ip: string, time: int)
    requires |some| == |all|
    requires forall i | 0 <= i < |all| :: some[i] == all[i] || (some[i].attackType.Some? && some[i].event == all[i].event)
    ensures Below(UpTo(some, ip, time), UpTo(all, ip, time))
  {
    if some != [] {
      UpToFewer(some[1..], all[1..], ip, time);
      assert some == [some[0]] + some[1..] && all == [all[0]] + all[1..];
      assert forall row :: row in some <==> row == some[0] || row in some[1..];
      assert forall row :: row in all <==> row == all[0] || row in all[1..];
    }
  }

  // ----- What any number of runs keep -----

  /** The row is untouched, or was unclassified and is labelled no higher than everything up to its moment justifies. */
  ghost predicate RowKept(rules: DetectionRules, start: Table, row: Row) {
    row in start ||
    (row.attackType.Some? && WasUnclassified(start, row.event) &&
     Rank(row.attackType.value) <=
     Rank(DetermineAttackType(rules, row.event, UpTo(start, row.event.sourceIp, row.event.timestamp))))
  }

  ghost predicate WasUnclassified(start: Table, event: AttackEvent) {
    exists row :: row in start && row.event == event && row.attackType.None?
  }

  ghost predicate Progress(rules: DetectionRules, start: Table, now: Table) {
    (forall row | row in now :: RowKept(rules, start, row)) &&
    forall ip, time :: Below(UpTo(now, ip, time), UpTo(start, ip, time))
  }

  lemma ProgressRelisted(rules: DetectionRules, start: Table, now: Table, listing: Table)
    requires Progress(rules, start, now) && multiset(listing) == multiset(now)
    ensures Progress(rules, start, listing)
  {
    InMultiset(listing, now);
    forall ip, time
      ensures UpTo(listing, ip, time) == UpTo(now, ip, time)
    {
      UpToRelisted(listing, now, ip, time);
    }
  }

  /** Row `i` after a run: unchanged, or labelled if it had no label. */
  lemma AfterRunAt(rules: DetectionRules, listing: Table, outcome: Outcome, i: nat)
    requires i < |listing|
    ensures var now := AfterRun(rules, listing, outcome)[i];
            now == listing[i] || (listing[i].attackType.None? && now == Labelled(rules, listing, i))
    ensures listing[i].attackType.None? && outcome.Completed? ==>
              AfterRun(rules, listing, outcome)[i] == Labelled(rules, listing, i)
  {
    hide Labelled;
  }

  lemma LabelledIsKept(rules: DetectionRules, start: Table, listing: Table, i: nat)
    requires Progress(rules, start, listing) && ByTime(listing) && i < |listing| && listing[i].attackType.None?
    ensures RowKept(rules, start, Labelled(rules, listing, i))
  {
    var e := listing[i].event;
    assert RowKept(rules, start, listing[i]) && listing[i] in start;
    CumulativeWithinUpTo(listing, i);
    TypeMonotone(rules, e, Cumulative(listing, i + 1, e.sourceIp), UpTo(start, e.sourceIp, e.timestamp));
  }

  /** A run, however the table is listed and wherever it is cut, keeps all this. */
  lemma RunKeepsProgress(rules: DetectionRules, start: Table, listing: Table, outcome: Outcome)
    requires Progress(rules, start, listing) && ByTime(listing)
    ensures Progress(rules, start, AfterRun(rules, listing, outcome))
  {
    var now := AfterRun(rules, listing, outcome);
    hide Labelled, AfterRun, RowKept;
    forall i | 0 <= i < |now|
      ensures now[i] == listing[i] || (now[i].attackType.Some? && now[i].event == listing[i].event)
      ensures RowKept(rules, start, now[i])
    {
      AfterRunAt(rules, listing, outcome, i);
      assert listing[i] in listing;
      if now[i] != listing[i] {
        LabelledIsKept(rules, start, listing, i);
      }
    }
    forall ip, time
      ensures Below(UpTo(now, ip, time), UpTo(start, ip, time))
    {
      UpToFewer(now, listing, ip, time);
    }
  }

  lemma {:induction false} HistoryKeepsProgress(rules: DetectionRules, start: Table, runs: seq<BackfillRun>)
    requires History(rules, start, runs)
    ensures Progress(rules, start, TableAfter(rules, start, runs))
  {
    if runs != [] {
      var n := |runs| - 1;
      HistoryKeepsProgress(rules, start, runs[..n]);
      ProgressRelisted(rules, start, TableAfter(rules, start, runs[..n]), runs[n].listing);
      RunKeepsProgress(rules, start, runs[n].listing, runs[n].outcome);
    }
  }

  /** This run gave the row its labels: those the rules ask for in what the run had counted at that row. */
  ghost predicate LabelledIn(rules: DetectionRules, run: BackfillRun, row: Row) {
    exists i | 0 <= i < |run.listing| ::
      run.listing[i].attackType.None? && run.listing[i].event == row.event &&
      RowJustified(rules, Some(Cumulative(run.listing, i + 1, row.event.sourceIp)), row)
  }

  /** So whatever crashes, every row is as it was at the start or was given both labels by one of the runs. */
  lemma {:induction false} LabelsAreJustified(rules: DetectionRules, start: Table, runs: seq<BackfillRun>, row: Row)
    requires History(rules, start, runs) && row in TableAfter(rules, start, runs)
    ensures row in start || exists n | 0 <= n < |runs| :: LabelledIn(rules, runs[n], row)
  {
    hide RowJustified, AfterRun, Labelled;
    if runs != [] {
      var n := |runs| - 1;
      var listing := runs[n].listing;
      var i :| 0 <= i < |listing| && AfterRun(rules, listing, runs[n].outcome)[i] == row;
      RunRelabels(rules, listing, runs[n].outcome);
      if row == listing[i] {
        InMultiset(listing, TableAfter(rules, start, runs[..n]));
        LabelsAreJustified(rules, start, runs[..n], row);
        if row !in start {
          var m :| 0 <= m < n && LabelledIn(rules, runs[..n][m], row);
          assert LabelledIn(rules, runs[m], row);
        }
      } else {
        assert LabelledIn(rules, runs[n], row);
      }
    }
  }

  /** One more run keeps every label, and leaves nothing unclassified if it completes. */
  lemma RunKeepsLabels(rules: DetectionRules, start: Table, runs: seq<BackfillRun>)
    requires History(rules, start, runs) && runs != []
    ensures var before, after := TableAfter(rules, start, runs[..|runs| - 1]), TableAfter(rules, start, runs);
            (forall row | row in before && row.attackType.Some? :: row in after) &&
            (runs[|runs| - 1].outcome.Completed? ==> forall row | row in after :: row.attackType.Some?)
  {
    var n := |runs| - 1;
    var before, listing, outcome := TableAfter(rules, start, runs[..n]), runs[n].listing, runs[n].outcome;
    var after := AfterRun(rules, listing, outcome);
    InMultiset(listing, before);
    forall row | row in before && row.attackType.Some?
      ensures row in after
    {
      var i :| 0 <= i < |listing| && listing[i] == row;
      AfterRunAt(rules, listing, outcome, i);
      assert after[i] == row;
    }
    if outcome.Completed? {
      forall row | row in after
        ensures row.attackType.Some?
      {
        var i :| 0 <= i < |after| && after[i] == row;
        AfterRunAt(rules, listing, outcome, i);
      }
    }
  }

  /** So a label, once committed, survives every later run. */
  lemma {:induction false} LabelsSurvive(rules: DetectionRules, start: Table, runs: seq<BackfillRun>, n: nat, row: Row)
    requires History(rules, start, runs) && n <= |runs|
    requires row in TableAfter(rules, start, runs[..n]) && row.attackType.Some?
    ensures row in TableAfter(rules, start, runs)
  {
    if n < |runs| {
      var fewer := runs[..|runs| - 1];
      assert fewer[..n] == runs[..n];
      LabelsSurvive(rules, start, fewer, n, row);
      RunKeepsLabels(rules, start, runs);
    } else {
      assert runs[..n] == runs;
    }
  }

  // ----- Against one uninterrupted run -----

  predicate RanksBelow(a: Row, b: Row) {
    a.attackType.Some? && b.attackType.Some? && Rank(a.attackType.value) <= Rank(b.attackType.value)
  }

  /** Every row the runs have labelled ranks no higher than one uninterrupted run over `listing` ranks it. */
  ghost predicate NoHigher(rules: DetectionRules, start: Table, runs: seq<BackfillRun>, listing: Table) {
    forall i, row | 0 <= i < |listing| && listing[i].attackType.None? && row in TableAfter(rules, start, runs) &&
                    row.event == listing[i].event && row.attackType.Some? && row !in start ::
      RanksBelow(row, AfterRun(rules, listing, Completed)[i])
  }

  /** No row and no id occurs twice. */
  ghost predicate PrimaryKey(rows: Table) {
    (forall row :: multiset(rows)[row] <= 1) &&
    forall x, y | x in rows && y in rows && x.event.id == y.event.id :: x == y
  }

  /** No two unclassified rows of one IP share a timestamp. */
  ghost predicate TieFree(rows: Table) {
    forall x, y | x in rows && y in rows && x != y :: !Tied(x, y)
  }

  lemma TieFreeIsLast(start: Table, listing: Table, i: nat)
    requires PrimaryKey(start) && TieFree(start) && multiset(listing) == multiset(start) && i < |listing|
    ensures LastOfTies(listing, i)
  {
    InMultiset(listing, start);
    forall j | i < j < |listing|
      ensures !Tied(listing[i], listing[j])
    {
      if listing[i] == listing[j] {
        OccursTwice(listing, i, j);
      }
      assert listing[i] in start && listing[j] in start;
    }
  }

  /** Without ties among unclassified rows of one IP, runs never rank a row higher than one uninterrupted run. */
  lemma TieFreeNoHigher(rules: DetectionRules, start: Table, runs: seq<BackfillRun>, listing: Table)
    requires PrimaryKey(start) && TieFree(start) && History(rules, start, runs) && Lists(listing, start)
    ensures NoHigher(rules, start, runs, listing)
  {
    HistoryKeepsProgress(rules, start, runs);
    hide AfterRun, Labelled;
    forall i, row | 0 <= i < |listing| && listing[i].attackType.None? && row in TableAfter(rules, start, runs) &&
                    row.event == listing[i].event && row.attackType.Some? && row !in start
      ensures RanksBelow(row, AfterRun(rules, listing, Completed)[i])
    {
      var e := row.event;
      assert RowKept(rules, start, row);
      AfterRunAt(rules, listing, Completed, i);
      TieFreeIsLast(start, listing, i);
      CumulativeWithinUpTo(listing, i);
      UpToRelisted(listing, start, e.sourceIp, e.timestamp);
      LabelledType(rules, listing, i);
    }
  }

  lemma LabelledType(rules: DetectionRules, listing: Table, i: nat)
    requires i < |listing|
    ensures var e := listing[i].event;
            Labelled(rules, listing, i).attackType ==
            Some(DetermineAttackType(rules, e, Cumulative(listing, i + 1, e.sourceIp)))
  {}

  // ----- Ties break the bound -----

  predicate Earlier(a: Row, b: Row) {
    a.event.timestamp <= b.event.timestamp
  }

  /** The table in some order by timestamp. */
  lemma SomeListing(rows: Table) returns (listing: Table)
    ensures Lists(listing, rows)
  {
    listing := Sort(rows, Earlier);
    SortSorts(rows, Earlier);
    assert forall i, j | 0 <= i < j < |listing| :: Earlier(listing[i], listing[j]);
  }

  function Exchanged(listing: Table, p: nat, q: nat): Table
    requires p < q < |listing|
  {
    listing[p := listing[q]][q := listing[p]]
  }

  lemma ExchangedLists(listing: Table, rows: Table, p: nat, q: nat)
    requires Lists(listing, rows) && p < q < |listing| && Tied(listing[p], listing[q])
    ensures Lists(Exchanged(listing, p, q), rows)
  {}

  lemma {:induction false} SameAttempts(a: Table, b: Table, n: nat, ip: string)
    requires n <= |a| == |b| && forall i | 0 <= i < n :: Pending(a[i], ip) == Pending(b[i], ip)
    ensures Attempts(a, n, ip) == Attempts(b, n, ip)
  {
    if n > 0 {
      SameAttempts(a, b, n - 1, ip);
    }
  }

  lemma {:induction false} AttemptsGrow(rows: Table, m: nat, n: nat, ip: string)
    requires m < n <= |rows| && Pending(rows[n - 1], ip)
    ensures Attempts(rows, m, ip) < Attempts(rows, n, ip)
  {
    AttemptsNeverFall(rows, m, n - 1, ip);
  }

  lemma {:induction false} AttemptsNeverFall(rows: Table, m: nat, n: nat, ip: string)
    requires m <= n <= |rows|
    ensures Attempts(rows, m, ip) <= Attempts(rows, n, ip)
    decreases n
  {
    if m < n {
      AttemptsNeverFall(rows, m, n - 1, ip);
    }
  }

  /** Rules under which only the number of attempts counts. */
  function AttemptRules(protocol: string, threshold: int, ports: int): DetectionRules {
    DetectionRules(protocol, threshold, ports, [], [], [], false, [], [], [], [], [])
  }

  lemma AttemptRulesDecide(event: AttackEvent, threshold: int, ports: int, context: IPContext)
    requires |context.distinctPorts| < ports
    ensures DetermineAttackType(AttemptRules(event.protocol, threshold, ports), event, context) ==
            if context.recentAttempts >= threshold then BRUTE_FORCE else SUSPICIOUS
  {}

  /** A run that crashes before its first commit leaves the table as it is. */
  lemma CrashAtOnce(rules: DetectionRules, listing: Table)
    ensures AfterRun(rules, listing, Crashed(0)) == listing
  {
    CutStart(rules, listing);
  }

  /** Two tied rows: after a crash the database lists them the other way round, and one gains an attempt. */
  lemma TieBreaks(start: Table, listing: Table, p: nat, q: nat) returns (rules: DetectionRules, runs: seq<BackfillRun>)
    requires PrimaryKey(start) && Lists(listing, start) && p < q < |listing| && Tied(listing[p], listing[q])
    ensures History(rules, start, runs) && !NoHigher(rules, start, runs, listing)
  {
    var x, other := listing[p], Exchanged(listing, p, q);
    ExchangedLists(listing, start, p, q);
    rules := TieOutranks(listing, p, q);
    runs := [BackfillRun(listing, Crashed(0)), BackfillRun(other, Completed)];
    TwoRuns(rules, start, listing, other);
    AfterRunAt(rules, listing, Completed, p);
    AfterRunAt(rules, other, Completed, q);
    InMultiset(listing, start);
    hide AfterRun, Labelled, Rank;
    var row := AfterRun(rules, other, Completed)[q];
    assert other[q] == x && row == Labelled(rules, other, q);
    assert row in TableAfter(rules, start, runs);
    assert !RanksBelow(row, AfterRun(rules, listing, Completed)[p]);
  }

  /** Listed after its tie, the first of two tied rows can get a type of higher rank. */
  lemma TieOutranks(listing: Table, p: nat, q: nat) returns (rules: DetectionRules)
    requires p < q < |listing| && Tied(listing[p], listing[q])
    ensures !RanksBelow(Labelled(rules, Exchanged(listing, p, q), q), Labelled(rules, listing, p))
  {
    var x, ip, other := listing[p], listing[p].event.sourceIp, Exchanged(listing, p, q);
    SameAttempts(listing, other, q + 1, ip);
    AttemptsGrow(listing, p + 1, q + 1, ip);
    var few, many := Cumulative(listing, p + 1, ip), Cumulative(other, q + 1, ip);
    var ports := |few.distinctPorts| + |many.distinctPorts| + 1;
    rules := AttemptRules(x.event.protocol, many.recentAttempts, ports);
    AttemptRulesDecide(x.event, many.recentAttempts, ports, few);
    AttemptRulesDecide(x.event, many.recentAttempts, ports, many);
    LabelledType(rules, listing, p);
    LabelledType(rules, other, q);
    hide Labelled, DetermineAttackType, Attempts, PortsSeen;
  }

  lemma TwoRuns(rules: DetectionRules, start: Table, listing: Table, other: Table)
    requires Lists(listing, start) && Lists(other, start)
    ensures var runs := [BackfillRun(listing, Crashed(0)), BackfillRun(other, Completed)];
            History(rules, start, runs) && TableAfter(rules, start, runs) == AfterRun(rules, other, Completed)
  {
    CrashAtOnce(rules, listing);
    var runs := [BackfillRun(listing, Crashed(0)), BackfillRun(other, Completed)];
    assert runs[..1] == [BackfillRun(listing, Crashed(0))] && runs[..1][..0] == [];
    assert TableAfter(rules, start, runs[..1]) == listing;
  }

  /** However the runs end and list their ties, they never rank a row higher than one uninterrupted run. */
  ghost predicate AlwaysNoHigher(start: Table) {
    forall rules, runs, listing | History(rules, start, runs) && Lists(listing, start) ::
      NoHigher(rules, start, runs, listing)
  }

  /** This is so for all rules, crashes and orders exactly when no two unclassified rows of one IP share a timestamp. */
  lemma NoHigherIffTieFree(start: Table)
    requires PrimaryKey(start)
    ensures AlwaysNoHigher(start) <==> TieFree(start)
  {
    if TieFree(start) {
      forall rules, runs, listing | History(rules, start, runs) && Lists(listing, start)
        ensures NoHigher(rules, start, runs, listing)
      {
        TieFreeNoHigher(rules, start, runs, listing);
      }
    } else {
      var x, y :| x in start && y in start && x != y && Tied(x, y);
      var listing := SomeListing(start);
      InMultiset(listing, start);
      var p :| 0 <= p < |listing| && listing[p] == x;
      var q :| 0 <= q < |listing| && listing[q] == y;
      var rules, runs := TieBreaks(start, listing, if p < q then p else q, if p < q then q else p);
    }
  }

  /**
   Crash and re-run: after any runs, one that completes keeps every label committed so far, leaves no
   row unclassified, and labels no row higher than all unclassified rows of its IP up to its moment
   justify.
   */
  lemma CrashAndRerun(rules: DetectionRules, start: Table, crashes: seq<BackfillRun>, listing: Table)
    requires History(rules, start, crashes) && Lists(listing, TableAfter(rules, start, crashes))
    ensures var before, final := TableAfter(rules, start, crashes), AfterRun(rules, listing, Completed);
            (forall row | row in before && row.attackType.Some? :: row in final) &&
            forall row | row in final :: row.attackType.Some? && RowKept(rules, start, row)
  {
    var runs := crashes + [BackfillRun(listing, Completed)];
    assert runs[..|crashes|] == crashes;
    HistoryKeepsProgress(rules, start, runs);
    RunKeepsLabels(rules, start, runs);
  }
}
