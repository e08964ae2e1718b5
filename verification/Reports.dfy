/**
 What the delivery guarantees buy the readers of the table: on every table the workers can produce,
 the severity summary is complete, the ranking is within its tighter bound, and backfill is idle.
 */
module Reports {
  import opened Events
  import opened Sequences
  import opened Classifier
  import opened Repository
  import opened Aggregates
  import opened RiskRanking
  import D = Delivery
  import B = Backfill

  /** The table after any run of publishers, workers and failures. */
  function TableAfter(steps: seq<D.Step>): seq<Row>
    requires D.ValidRun(D.INIT, steps)
  {
    D.Run(D.INIT, steps).rows
  }

  lemma EveryRowIsLabelled(steps: seq<D.Step>)
    requires D.ValidRun(D.INIT, steps)
    ensures forall row | row in TableAfter(steps) ::
              row.attackType.Some? && row.attackType.value in ATTACK_TYPES &&
              row.severity.Some? && row.severity.value in SEVERITIES
  {
    D.RunKeepsInv(D.INIT, steps);
    var s := D.Run(D.INIT, steps);
    forall row | row in s.rows
      ensures row.attackType.Some? && row.attackType.value in ATTACK_TYPES &&
              row.severity.Some? && row.severity.value in SEVERITIES
    {
      var r: nat :| r < |s.rows| && s.rows[r] == row;
      assert D.RowOk(s, r);
    }
  }

  lemma SeveritySummaryIsComplete(steps: seq<D.Step>, since: Option<int>, until: int)
    requires D.ValidRun(D.INIT, steps)
    ensures SeveritySum(TableAfter(steps), since, until) == GetSummary(TableAfter(steps), since, until).total
  {
    var rows := TableAfter(steps);
    EveryRowIsLabelled(steps);
    FoundSelects(rows, Between(since, until));
    SeveritiesCoverIff(rows, since, until);
  }

  /** An IP left out of the ranking of a delivered table scores at most 45 more than one in it. */
  lemma DeliveredRankingBound(steps: seq<D.Step>, frequency: Frequency, since: Option<int>, until: int,
                              limit: nat, ips: seq<string>, k: nat, ip: string)
    requires D.ValidRun(D.INIT, steps) && FrequencyOk(frequency)
    requires IsTopIps(ips, TableAfter(steps), since, until, Candidates(limit))
    requires k < |RankingOf(frequency, TableAfter(steps), since, until, limit, ips)|
    requires ip in Keys(InRange(TableAfter(steps), since, until), SourceOf)
    requires Excluded(RankingOf(frequency, TableAfter(steps), since, until, limit, ips), ip)
    ensures Score(frequency, TableAfter(steps), since, until, ip) <=
            RankingOf(frequency, TableAfter(steps), since, until, limit, ips)[k].riskScore + 45
  {
    hide D.Run, D.ValidRun;
    var rows := TableAfter(steps);
    EveryRowIsLabelled(steps);
    RankedIsPresent(frequency, rows, since, until, limit, ips, k);
    ErrorBound(frequency, rows, since, until, limit, ips, k, ip);
  }

  /** Whoever is ranked has a row. */
  lemma RankedIsPresent(frequency: Frequency, rows: seq<Row>, since: Option<int>, until: int, limit: nat,
                        ips: seq<string>, k: nat)
    requires IsTopIps(ips, rows, since, until, Candidates(limit))
    requires k < |RankingOf(frequency, rows, since, until, limit, ips)|
    ensures exists row | row in rows ::
              row.event.sourceIp == RankingOf(frequency, rows, since, until, limit, ips)[k].sourceIp
  {
    RankedIsCandidate(frequency, rows, since, until, limit, ips, k);
    var ip := RankingOf(frequency, rows, since, until, limit, ips)[k].sourceIp;
    assert ip in Keys(InRange(rows, since, until), SourceOf);
    FoundSelects(rows, Between(since, until));
  }

  /** A run of the backfill command over a delivered table, however listed, finds nothing to do and changes nothing. */
  lemma BackfillIsIdle(steps: seq<D.Step>, rules: DetectionRules, listing: B.Table, outcome: B.Outcome)
    requires D.ValidRun(D.INIT, steps) && B.Lists(listing, TableAfter(steps))
    ensures B.Select(listing, |listing|) == []
    ensures B.AfterRun(rules, listing, outcome) == listing
  {
    hide D.Run, D.ValidRun, TableAfter, B.Select, B.AfterRun;
    EveryRowIsLabelled(steps);
    InMultiset(listing, TableAfter(steps));
    NothingToLabel(listing, rules, outcome);
  }

  lemma NothingToLabel(rows: seq<Row>, rules: DetectionRules, outcome: B.Outcome)
    requires forall row | row in rows :: row.attackType.Some?
    ensures B.Select(rows, |rows|) == [] && B.AfterRun(rules, rows, outcome) == rows
  {
    hide B.Pass, B.Cut, B.Survivors;
    assert forall i | 0 <= i < |rows| :: rows[i] in rows;
    SelectsNothing(rows, |rows|);
    PassChangesNothing(rules, rows, B.Cut(rows, B.Survivors(outcome, 0)));
  }

  lemma {:induction false} SelectsNothing(rows: seq<Row>, n: nat)
    requires n <= |rows| && forall i | 0 <= i < n :: rows[i].attackType.Some?
    ensures B.Select(rows, n) == []
  {
    if n > 0 {
      SelectsNothing(rows, n - 1);
    }
  }

  lemma PassChangesNothing(rules: DetectionRules, rows: seq<Row>, cut: nat)
    requires forall i | 0 <= i < |rows| :: rows[i].attackType.Some?
    ensures B.Pass(rules, rows, cut) == rows
  {}
}
