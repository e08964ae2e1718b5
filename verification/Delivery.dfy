/**
 Delivery as a step machine: a stream with one consumer group, any number of workers, and the
 event table. Every network exchange is one step, so workers, publishers and failures interleave
 freely.
 */
module Delivery {
  import opened Events
  import opened Classifier
  import opened EventQueue

  const DB_MAX_RETRIES := 10

  /**
   A worker between two exchanges. `Ready` has entries left to handle; `Handling` is inside the
   retry loop of one event, with `stored` set from its own successful commit to its ack.
   */
  datatype Work =
    | Ready(batch: seq<nat>)
    | Handling(entry: nat, verdict: ClassificationResult, attempt: nat, stored: bool, rest: seq<nat>)

  /**
   `ever` holds every entry that any group, present or lost, has acked; `origin` names the stream
   entry each row was inserted from.
   */
  datatype State = State(
    stream: seq<Payload>,
    group: Group,
    ever: set<nat>,
    workers: map<nat, Work>,
    rows: seq<Row>,
    origin: seq<nat>)

  const INIT := State([], Missing, {}, map[], [], [])

  datatype Step =
    | Append(payload: Payload)
    | LoseGroup
    | EnsureGroup
    | Start(w: nat)
    | Read(w: nat, count: nat, net: Net)
    | Discard(w: nat, net: Net)
    | Label(w: nat, rules: DetectionRules, context: Option<IPContext>)
    | Commit(w: nat, net: Net)
    | Ack(w: nat, net: Net)
    | Crash(w: nat)

  /** The primary key: no row with this id yet. */
  predicate FreshId(rows: seq<Row>, id: nat) {
    forall r | 0 <= r < |rows| :: rows[r].event.id != id
  }

  function LabelledRow(event: AttackEvent, verdict: ClassificationResult): Row {
    Row(event, Some(verdict.attackType), Some(verdict.severity))
  }

  /** XACK, remembered beyond the life of the group. */
  function AckEntry(s: State, entry: nat): State {
    s.(group := Xack(s.group, entry),
       ever := if s.group.Group? && entry in s.group.pending then s.ever + {entry} else s.ever)
  }

  /** An attempt failed: try again, or leave the entry unacked after the last one. */
  function Failed(work: Work): Work
    requires work.Handling?
  {
    if work.attempt + 1 < DB_MAX_RETRIES then work.(attempt := work.attempt + 1, stored := false)
    else Ready(work.rest)
  }

  predicate Busy(s: State, w: nat) {
    w in s.workers && s.workers[w].Handling?
  }

  predicate HasNext(s: State, w: nat) {
    w in s.workers && s.workers[w].Ready? && s.workers[w].batch != [] && s.workers[w].batch[0] < |s.stream|
  }

  predicate Enabled(s: State, step: Step) {
    match step
    case Append(_) => true
    case LoseGroup => true
    case EnsureGroup => true
    case Start(w) => w !in s.workers
    case Read(w, _, _) =>
      w in s.workers && s.workers[w] == Ready([]) && s.group.Group? && s.group.cursor <= |s.stream|
    case Discard(w, _) => HasNext(s, w) && s.stream[s.workers[w].batch[0]].Malformed?
    case Label(w, _, _) => HasNext(s, w) && s.stream[s.workers[w].batch[0]].Event?
    case Commit(w, _) =>
      Busy(s, w) && !s.workers[w].stored && s.workers[w].entry < |s.stream| && s.stream[s.workers[w].entry].Event?
    case Ack(w, _) => Busy(s, w) && s.workers[w].stored
    case Crash(w) => w in s.workers
  }

  lemma Consecutive(lo: nat, batch: seq<nat>)
    requires forall k | 0 <= k < |batch| :: batch[k] == lo + k
    ensures forall i :: i in batch <==> lo <= i < lo + |batch|
  {
    forall i | lo <= i < lo + |batch|
      ensures i in batch
    {
      assert batch[i - lo] == i;
    }
  }

  /** The entries one read delivers. */
  function Delivered(s: State, count: nat): (batch: seq<nat>)
    requires s.group.Group? && s.group.cursor <= |s.stream|
    ensures forall i :: i in batch <==> s.group.cursor <= i < s.group.cursor + Available(s.group, |s.stream|, count)
  {
    var n := Available(s.group, |s.stream|, count);
    var batch := seq(n, k requires 0 <= k < n => s.group.cursor + k);
    Consecutive(s.group.cursor, batch);
    batch
  }

  function Apply(s: State, step: Step): State
    requires Enabled(s, step)
  {
    match step
    case Append(payload) => s.(stream := s.stream + [payload])
    case LoseGroup => s.(group := Missing)
    case EnsureGroup => s.(group := XgroupCreate(s.group))
    case Start(w) => s.(workers := s.workers[w := Ready([])])
    case Crash(w) => s.(workers := s.workers - {w})
    case Read(w, count, net) =>
      if net.Refused? then s
      else s.(group := Xreadgroup(s.group, |s.stream|, w, count),
              workers := s.workers[w := Ready(if net.Ok? then Delivered(s, count) else [])])
    case Discard(w, net) =>
      var batch := s.workers[w].batch;
      var next := if net.Refused? then s else AckEntry(s, batch[0]);
      next.(workers := s.workers[w := Ready(if net.Ok? then batch[1..] else [])])
    case Label(w, rules, context) =>
      var batch := s.workers[w].batch;
      var verdict := ClassifyOrFallBack(rules, s.stream[batch[0]].event, context);
      s.(workers := s.workers[w := Handling(batch[0], verdict, 0, false, batch[1..])])
    case Commit(w, net) =>
      var work := s.workers[w];
      var event := s.stream[work.entry].event;
      if net.Refused? || !FreshId(s.rows, event.id) then s.(workers := s.workers[w := Failed(work)])
      else s.(rows := s.rows + [LabelledRow(event, work.verdict)],
              origin := s.origin + [work.entry],
              workers := s.workers[w := if net.Ok? then work.(stored := true) else Failed(work)])
    case Ack(w, net) =>
      var work := s.workers[w];
      var next := if net.Refused? then s else AckEntry(s, work.entry);
      next.(workers := s.workers[w := if net.Ok? then Ready(work.rest) else Failed(work)])
  }

  predicate ValidRun(s: State, steps: seq<Step>)
    decreases |steps|
  {
    steps == [] || (Enabled(s, steps[0]) && ValidRun(Apply(s, steps[0]), steps[1..]))
  }

  function Run(s: State, steps: seq<Step>): State
    requires ValidRun(s, steps)
    decreases |steps|
  {
    if steps == [] then s else Run(Apply(s, steps[0]), steps[1..])
  }

  lemma {:induction false} Extend(s: State, steps: seq<Step>, step: Step)
    requires ValidRun(s, steps) && Enabled(Run(s, steps), step)
    ensures ValidRun(s, steps + [step]) && Run(s, steps + [step]) == Apply(Run(s, steps), step)
    decreases |steps|
  {
    if steps == [] {
      assert ValidRun(Apply(s, step), ([] + [step])[1..]);
    } else {
      Extend(Apply(s, steps[0]), steps[1..], step);
      assert (steps + [step])[1..] == steps[1..] + [step];
    }
  }

  lemma {:induction false} RunsJoin(s: State, first: seq<Step>, more: seq<Step>)
    requires ValidRun(s, first) && ValidRun(Run(s, first), more)
    ensures ValidRun(s, first + more) && Run(s, first + more) == Run(Run(s, first), more)
    decreases |first|
  {
    if first == [] {
      assert first + more == more;
    } else {
      RunsJoin(Apply(s, first[0]), first[1..], more);
      assert (first + more)[1..] == first[1..] + more;
    }
  }

  /** `steps` lead from `s` to `t`. */
  ghost predicate Leads(s: State, steps: seq<Step>, t: State) {
    ValidRun(s, steps) && Run(s, steps) == t
  }

  lemma Nothing(s: State)
    ensures Leads(s, [], s)
  {}

  lemma LeadsOn(s: State, steps: seq<Step>, t: State, step: Step)
    requires Leads(s, steps, t) && Enabled(t, step)
    ensures Leads(s, steps + [step], Apply(t, step))
  {
    Extend(s, steps, step);
  }

  lemma LeadsJoin(s: State, first: seq<Step>, t: State, more: seq<Step>, u: State)
    requires Leads(s, first, t) && Leads(t, more, u)
    ensures Leads(s, first + more, u)
  {
    RunsJoin(s, first, more);
  }

  lemma AppendEnabled(s: State, payload: Payload)
    ensures Enabled(s, Append(payload))
  {}

  // ----- What every reachable state satisfies -----

  /** Some row was inserted from this very entry. */
  ghost predicate Stored(s: State, entry: nat) {
    entry in s.origin
  }

  ghost predicate RowOk(s: State, r: nat)
    requires r < |s.rows| == |s.origin|
  {
    var row := s.rows[r];
    s.origin[r] < |s.stream| && s.stream[s.origin[r]] == Event(row.event) &&
    row.attackType.Some? && row.attackType.value in ATTACK_TYPES &&
    row.severity.Some? && row.severity.value in SEVERITIES
  }

  ghost predicate RowsOk(s: State) {
    |s.origin| == |s.rows| &&
    (forall r: nat | r < |s.rows| :: RowOk(s, r)) &&
    forall q: nat, r: nat | q < r < |s.rows| :: s.rows[q].event.id != s.rows[r].event.id
  }

  ghost predicate WorkOk(s: State, work: Work) {
    match work
    case Ready(batch) => forall i | i in batch :: i < |s.stream|
    case Handling(entry, verdict, attempt, stored, rest) =>
      entry < |s.stream| && s.stream[entry].Event? && attempt < DB_MAX_RETRIES &&
      verdict.attackType in ATTACK_TYPES && verdict.severity in SEVERITIES &&
      (stored ==> Stored(s, entry)) &&
      forall i | i in rest :: i < |s.stream|
  }

  ghost predicate WorkersOk(s: State) {
    forall w | w in s.workers :: WorkOk(s, s.workers[w])
  }

  /** An acked entry failed to parse or has a row inserted from it. */
  ghost predicate AcksOk(s: State) {
    (s.group.Group? ==> s.group.acked <= s.ever) &&
    forall i | i in s.ever :: i < |s.stream| && (s.stream[i].Malformed? || Stored(s, i))
  }

  ghost predicate Inv(s: State) {
    GroupInv(s.group, |s.stream|) && RowsOk(s) && WorkersOk(s) && AcksOk(s)
  }

  /** Nothing is taken from the stream, the rows or the acked entries. */
  ghost predicate Grows(s: State, t: State) {
    s.stream <= t.stream && s.rows <= t.rows && s.origin <= t.origin && s.ever <= t.ever
  }

  lemma StepGrows(s: State, step: Step)
    requires Enabled(s, step)
    ensures Grows(s, Apply(s, step))
  {}

  lemma {:induction false} RunGrows(s: State, steps: seq<Step>)
    requires ValidRun(s, steps)
    ensures Grows(s, Run(s, steps))
    decreases |steps|
  {
    if steps != [] {
      StepGrows(s, steps[0]);
      RunGrows(Apply(s, steps[0]), steps[1..]);
    }
  }

  lemma StepKeepsGroup(s: State, step: Step)
    requires GroupInv(s.group, |s.stream|) && Enabled(s, step)
    ensures GroupInv(Apply(s, step).group, |Apply(s, step).stream|)
  {}

  lemma StepKeepsRows(s: State, step: Step)
    requires RowsOk(s) && WorkersOk(s) && Enabled(s, step)
    ensures RowsOk(Apply(s, step))
  {
    var next := Apply(s, step);
    if step.Commit? {
      assert WorkOk(s, s.workers[step.w]);
    }
    forall r: nat | r < |next.rows|
      ensures RowOk(next, r)
    {
      if r < |s.rows| {
        assert RowOk(s, r);
      }
    }
  }

  /** Work in progress stays in order when the rest of the system grows. */
  lemma WorkStaysOk(s: State, t: State, work: Work)
    requires WorkOk(s, work) && Grows(s, t)
    ensures WorkOk(t, work)
  {}

  lemma OwnWorkOk(s: State, step: Step, w: nat)
    requires GroupInv(s.group, |s.stream|) && Enabled(s, step)
    requires step.Read? || step.Discard? || step.Label? || step.Commit? || step.Ack?
    requires step.w == w && WorkOk(s, s.workers[w])
    ensures WorkOk(Apply(s, step), Apply(s, step).workers[w])
  {
    hide Justified;
    if step.Label? {
      var event := s.stream[s.workers[w].batch[0]].event;
      var verdict := ClassifyOrFallBack(step.rules, event, step.context);
      JustifiedIsLabelled(step.rules, event, step.context, verdict.attackType, verdict.severity);
    }
    if step.Discard? || step.Label? {
      var batch := s.workers[w].batch;
      assert forall i | i in batch[1..] :: i in batch;
    }
  }

  lemma StepKeepsWorkers(s: State, step: Step)
    requires GroupInv(s.group, |s.stream|) && WorkersOk(s) && Enabled(s, step)
    ensures WorkersOk(Apply(s, step))
  {
    var next := Apply(s, step);
    StepGrows(s, step);
    forall w | w in next.workers
      ensures WorkOk(next, next.workers[w])
    {
      if w in s.workers && next.workers[w] == s.workers[w] {
        WorkStaysOk(s, next, s.workers[w]);
      } else if w in s.workers {
        OwnWorkOk(s, step, w);
      }
    }
  }

  lemma StepKeepsAcks(s: State, step: Step)
    requires GroupInv(s.group, |s.stream|) && WorkersOk(s) && AcksOk(s) && Enabled(s, step)
    ensures AcksOk(Apply(s, step))
  {}

  lemma {:induction false} RunKeepsInv(s: State, steps: seq<Step>)
    requires Inv(s) && ValidRun(s, steps)
    ensures Inv(Run(s, steps))
    decreases |steps|
  {
    if steps != [] {
      StepKeepsInv(s, steps[0]);
      RunKeepsInv(Apply(s, steps[0]), steps[1..]);
    }
  }

  lemma StepKeepsInv(s: State, step: Step)
    requires Inv(s) && Enabled(s, step)
    ensures Inv(Apply(s, step))
  {
    hide GroupInv, RowsOk, WorkersOk, AcksOk, Enabled, Apply;
    StepKeepsGroup(s, step);
    StepKeepsRows(s, step);
    StepKeepsWorkers(s, step);
    StepKeepsAcks(s, step);
  }

  lemma LeadsKeepsInv(s: State, steps: seq<Step>, t: State)
    requires Leads(s, steps, t) && Inv(s)
    ensures Inv(t)
  {
    RunKeepsInv(s, steps);
  }

  // ----- What that means for entries and rows -----

  /** Undelivered, pending, or acked. */
  datatype Status = Undelivered | Pending | Acked

  function StatusOf(group: Group, i: nat): Status {
    if group.Missing? || i >= group.cursor then Undelivered
    else if i in group.pending then Pending
    else Acked
  }

  /** The rows holding an id. */
  function RowsWithId(rows: seq<Row>, id: nat): set<nat> {
    set r | 0 <= r < |rows| && rows[r].event.id == id
  }

  /**
   Safety, in every reachable state: an entry that was ever acked failed to parse, or its event has
   exactly one row, with the entry's own fields and valid labels.
   */
  lemma AckedMeansStored(steps: seq<Step>, i: nat)
    requires ValidRun(INIT, steps) && i in Run(INIT, steps).ever
    ensures var s := Run(INIT, steps);
            i < |s.stream| && (s.stream[i].Malformed? || exists r ::
              RowsWithId(s.rows, s.stream[i].event.id) == {r} && OneRow(s.rows, r, s.stream[i].event))
  {
    RunKeepsInv(INIT, steps);
    var s := Run(INIT, steps);
    if s.stream[i].Event? {
      var r := StoredRow(s, i);
    }
  }

  ghost predicate OneRow(rows: seq<Row>, r: nat, event: AttackEvent) {
    r < |rows| && rows[r].event == event &&
    rows[r].attackType.Some? && rows[r].attackType.value in ATTACK_TYPES &&
    rows[r].severity.Some? && rows[r].severity.value in SEVERITIES
  }

  lemma StoredRow(s: State, i: nat) returns (r: nat)
    requires RowsOk(s) && Stored(s, i)
    ensures i < |s.stream| && s.stream[i].Event? && r < |s.origin| && s.origin[r] == i
    ensures OneRow(s.rows, r, s.stream[i].event)
    ensures RowsWithId(s.rows, s.stream[i].event.id) == {r}
  {
    r :| 0 <= r < |s.origin| && s.origin[r] == i;
    assert RowOk(s, r);
  }

  // ----- Where the labels of a row come from -----

  /** This step classifies `entry`, and `row` carries the labels that the rules ask for in its context. */
  predicate LabelsSo(s: State, step: Step, entry: nat, row: Row)
    requires Enabled(s, step)
  {
    step.Label? && s.workers[step.w].batch[0] == entry && RowJustified(step.rules, step.context, row)
  }

  /** Some step of the run does. */
  ghost predicate ClassifiedSo(s: State, steps: seq<Step>, entry: nat, row: Row)
    requires ValidRun(s, steps)
    decreases |steps|
  {
    steps != [] && (LabelsSo(s, steps[0], entry, row) || ClassifiedSo(Apply(s, steps[0]), steps[1..], entry, row))
  }

  /** Some worker is about to store `row` for `entry`. */
  ghost predicate Carried(s: State, entry: nat, row: Row) {
    entry < |s.stream| && s.stream[entry] == Event(row.event) &&
    exists w | Busy(s, w) :: s.workers[w].entry == entry && row == LabelledRow(row.event, s.workers[w].verdict)
  }

  ghost predicate HasRow(s: State, entry: nat, row: Row) {
    exists r: nat | r < |s.rows| && r < |s.origin| :: s.rows[r] == row && s.origin[r] == entry
  }

  lemma StepCarries(s: State, step: Step, entry: nat, row: Row)
    requires WorkersOk(s) && Enabled(s, step) && Carried(Apply(s, step), entry, row)
    ensures Carried(s, entry, row) || LabelsSo(s, step, entry, row)
  {
    hide Justified;
    var next := Apply(s, step);
    var w :| Busy(next, w) && next.workers[w].entry == entry && row == LabelledRow(row.event, next.workers[w].verdict);
    if Busy(s, w) {
      assert WorkOk(s, s.workers[w]);
      assert next.workers[w].entry == s.workers[w].entry && next.workers[w].verdict == s.workers[w].verdict;
    }
  }

  lemma StepStores(s: State, step: Step, entry: nat, row: Row)
    requires RowsOk(s) && Enabled(s, step) && HasRow(Apply(s, step), entry, row)
    ensures HasRow(s, entry, row) || Carried(s, entry, row)
  {
    var next := Apply(s, step);
    var r: nat :| r < |next.rows| && r < |next.origin| && next.rows[r] == row && next.origin[r] == entry;
    if r < |s.rows| {
      assert s.rows[r] == row && s.origin[r] == entry;
    }
  }

  lemma {:induction false} RowsComeFrom(s: State, steps: seq<Step>, entry: nat, row: Row)
    requires Inv(s) && ValidRun(s, steps) && HasRow(Run(s, steps), entry, row)
    ensures HasRow(s, entry, row) || Carried(s, entry, row) || ClassifiedSo(s, steps, entry, row)
    decreases |steps|
  {
    hide Apply, Enabled, HasRow, Carried, LabelsSo, GroupInv, RowsOk, WorkersOk, AcksOk;
    if steps != [] {
      StepKeepsInv(s, steps[0]);
      RowsComeFrom(Apply(s, steps[0]), steps[1..], entry, row);
      if HasRow(Apply(s, steps[0]), entry, row) {
        StepStores(s, steps[0], entry, row);
      } else if Carried(Apply(s, steps[0]), entry, row) {
        StepCarries(s, steps[0], entry, row);
      }
    }
  }

  /**
   The labels of every row are those the rules ask for: some step of the run classified the very entry
   the row was inserted from, in a context that justifies both labels, or fell back without one.
   */
  lemma LabelsAreJustified(steps: seq<Step>, r: nat)
    requires ValidRun(INIT, steps) && r < |Run(INIT, steps).rows|
    ensures var s := Run(INIT, steps);
            r < |s.origin| && s.origin[r] < |s.stream| && s.stream[s.origin[r]] == Event(s.rows[r].event) &&
            ClassifiedSo(INIT, steps, s.origin[r], s.rows[r])
  {
    RunKeepsInv(INIT, steps);
    var s := Run(INIT, steps);
    assert RowOk(s, r);
    assert HasRow(s, s.origin[r], s.rows[r]);
    hide ClassifiedSo;
    RowsComeFrom(INIT, steps, s.origin[r], s.rows[r]);
  }

  // ----- What an ack is worth -----

  /** The group's own account agrees: its delivered entries are a prefix, each pending or acked and, if acked, recorded. */
  lemma DeliveredPrefix(steps: seq<Step>, i: nat)
    requires ValidRun(INIT, steps)
    ensures var s := Run(INIT, steps);
            s.group.Group? ==>
              s.group.cursor <= |s.stream| &&
              (StatusOf(s.group, i).Undelivered? <==> i >= s.group.cursor) &&
              (StatusOf(s.group, i).Pending? <==> i in s.group.pending) &&
              (StatusOf(s.group, i).Acked? <==> i in s.group.acked) &&
              (StatusOf(s.group, i).Acked? ==> i in s.ever)
  {
    RunKeepsInv(INIT, steps);
  }

  /** Two acked entries never carry the same event: of all the copies in the stream, at most one is ever acked. */
  lemma OneCopyAcked(steps: seq<Step>, i: nat, j: nat)
    requires ValidRun(INIT, steps)
    requires var s := Run(INIT, steps);
             i in s.ever && j in s.ever && i < |s.stream| && j < |s.stream| &&
             s.stream[i].Event? && s.stream[j].Event? && s.stream[i].event.id == s.stream[j].event.id
    ensures i == j
  {
    RunKeepsInv(INIT, steps);
    var s := Run(INIT, steps);
    var q := StoredRow(s, i);
    var r := StoredRow(s, j);
    assert q in RowsWithId(s.rows, s.stream[j].event.id);
  }

  /**
   An entry left behind stays behind: once its event's row came from another copy, or from this
   copy but without an ack and with no worker about to ack it, no continuation ever acks it.
   */
  ghost predicate LeftBehind(s: State, i: nat) {
    i < |s.stream| && s.stream[i].Event? && i !in s.ever &&
    !FreshId(s.rows, s.stream[i].event.id) &&
    forall w | Busy(s, w) :: !(s.workers[w].entry == i && s.workers[w].stored)
  }

  lemma StepLeavesBehind(s: State, step: Step, i: nat)
    requires Enabled(s, step) && LeftBehind(s, i)
    ensures LeftBehind(Apply(s, step), i)
  {
    var next := Apply(s, step);
    StepGrows(s, step);
    var r :| 0 <= r < |s.rows| && s.rows[r].event.id == s.stream[i].event.id;
    assert next.rows[r] == s.rows[r];
    forall w | Busy(next, w)
      ensures !(next.workers[w].entry == i && next.workers[w].stored)
    {
      assert w in s.workers && next.workers[w] == s.workers[w] ==> Busy(s, w);
    }
    if step.Ack? {
      assert Busy(s, step.w);
    }
  }

  /** The code never reads pending entries again, so a commit whose ack is lost leaves its entry pending for good. */
  lemma {:induction false} LeftBehindForever(s: State, steps: seq<Step>, i: nat)
    requires ValidRun(s, steps) && LeftBehind(s, i)
    ensures LeftBehind(Run(s, steps), i)
    decreases |steps|
  {
    if steps != [] {
      StepLeavesBehind(s, steps[0], i);
      LeftBehindForever(Apply(s, steps[0]), steps[1..], i);
    }
  }

  /** Failing after the commit is one way to get there. */
  lemma FailedAckLeavesBehind(s: State, w: nat)
    requires Inv(s) && Enabled(s, Ack(w, Refused))
    requires s.workers[w].entry !in s.ever
    requires forall v | v != w && Busy(s, v) :: s.workers[v].entry != s.workers[w].entry
    ensures LeftBehind(Apply(s, Ack(w, Refused)), s.workers[w].entry)
  {
    assert WorkOk(s, s.workers[w]);
    var r := StoredRow(s, s.workers[w].entry);
  }

  /** A worker that dies between its commit and its ack is another. */
  lemma CrashLeavesBehind(s: State, w: nat)
    requires Inv(s) && Busy(s, w) && s.workers[w].stored && s.workers[w].entry !in s.ever
    requires forall v | v != w && Busy(s, v) :: s.workers[v].entry != s.workers[w].entry
    ensures LeftBehind(Apply(s, Crash(w)), s.workers[w].entry)
  {
    assert WorkOk(s, s.workers[w]);
    var r := StoredRow(s, s.workers[w].entry);
  }

  ghost predicate AckedBy(s: State, steps: seq<Step>, i: nat) {
    ValidRun(s, steps) && i in Run(s, steps).ever
  }

  ghost predicate CanBeAcked(s: State, i: nat) {
    exists steps :: AckedBy(s, steps, i)
  }

  lemma NewWorker(workers: map<nat, Work>) returns (w: nat)
    ensures w !in workers
  {
    w := Above(workers.Keys);
  }

  lemma {:induction false} Above(used: set<nat>) returns (w: nat)
    ensures forall u | u in used :: u < w
    decreases |used|
  {
    w := 0;
    if used != {} {
      var u :| u in used;
      var below := Above(used - {u});
      w := if u < below then below else u + 1;
      assert forall x | x in used :: x == u || x in used - {u};
    }
  }

  /** The group is lost and recreated, and a new worker `v` reads `n` entries without seeing them. */
  lemma StartOver(s: State, v: nat, n: nat) returns (steps: seq<Step>, t: State)
    requires v !in s.workers && n <= |s.stream|
    ensures Leads(s, steps, t)
    ensures t.group.Group? && t.group.cursor == n && forall i: nat :: i in t.group.pending <==> i < n
    ensures t == s.(group := t.group, workers := s.workers[v := Ready([])])
  {
    hide Leads;
    var t1 := s.(group := Missing);
    var t2 := s.(group := Group(0, map[], {}));
    var t3 := t2.(workers := s.workers[v := Ready([])]);
    Nothing(s);
    LeadsOn(s, [], s, LoseGroup);
    LeadsOn(s, [] + [LoseGroup], t1, EnsureGroup);
    LeadsOn(s, [] + [LoseGroup] + [EnsureGroup], t2, Start(v));
    LeadsOn(s, [] + [LoseGroup] + [EnsureGroup] + [Start(v)], t3, Read(v, n, LostReply));
    steps := [] + [LoseGroup] + [EnsureGroup] + [Start(v)] + [Read(v, n, LostReply)];
    t := Apply(t3, Read(v, n, LostReply));
  }

  lemma AckFromCommitted(s: State, w: nat, i: nat) returns (steps: seq<Step>)
    requires Busy(s, w) && s.workers[w].entry == i && s.workers[w].stored && i < |s.stream|
    ensures AckedBy(s, steps, i)
  {
    var v := NewWorker(s.workers);
    var t;
    steps, t := StartOver(s, v, i + 1);
    LeadsOn(s, steps, t, Ack(w, Ok));
    steps := steps + [Ack(w, Ok)];
  }

  lemma AckFromFresh(s: State, i: nat, rules: DetectionRules) returns (steps: seq<Step>)
    requires i < |s.stream| && s.stream[i].Event? && FreshId(s.rows, s.stream[i].event.id)
    ensures AckedBy(s, steps, i)
  {
    var v := NewWorker(s.workers);
    var t;
    steps, t := StartOver(s, v, i);
    LeadsOn(s, steps, t, Read(v, 1, Ok));
    steps, t := steps + [Read(v, 1, Ok)], Apply(t, Read(v, 1, Ok));
    assert t.workers[v].batch == [i] && i in t.group.pending;
    LeadsOn(s, steps, t, Label(v, rules, None));
    steps, t := steps + [Label(v, rules, None)], Apply(t, Label(v, rules, None));
    LeadsOn(s, steps, t, Commit(v, Ok));
    steps, t := steps + [Commit(v, Ok)], Apply(t, Commit(v, Ok));
    LeadsOn(s, steps, t, Ack(v, Ok));
    steps := steps + [Ack(v, Ok)];
  }

  /**
   Being left behind is exactly the fate of the entries that cannot be acked any more: any other
   entry still has a continuation that acks it, and then its event is stored by `AckedMeansStored`.
   */
  lemma LeftBehindIff(s: State, i: nat, rules: DetectionRules)
    requires i < |s.stream| && s.stream[i].Event? && i !in s.ever
    ensures LeftBehind(s, i) <==> !CanBeAcked(s, i)
  {
    if LeftBehind(s, i) {
      forall steps | ValidRun(s, steps)
        ensures !AckedBy(s, steps, i)
      {
        LeftBehindForever(s, steps, i);
      }
    } else if FreshId(s.rows, s.stream[i].event.id) {
      var steps := AckFromFresh(s, i, rules);
    } else {
      var w :| Busy(s, w) && s.workers[w].entry == i && s.workers[w].stored;
      var steps := AckFromCommitted(s, w, i);
    }
  }

  // ----- How often an entry is delivered -----

  predicate Delivers(s: State, step: Step, i: nat)
    requires Enabled(s, step)
  {
    step.Read? && !step.net.Refused? && i in Delivered(s, step.count)
  }

  function Deliveries(s: State, steps: seq<Step>, i: nat): nat
    requires ValidRun(s, steps)
    decreases |steps|
  {
    if steps == [] then 0
    else (if Delivers(s, steps[0], i) then 1 else 0) + Deliveries(Apply(s, steps[0]), steps[1..], i)
  }

  function GroupLosses(steps: seq<Step>): nat {
    if steps == [] then 0 else (if steps[0].LoseGroup? then 1 else 0) + GroupLosses(steps[1..])
  }

  /** Each life of the group delivers an entry to one worker at most: only losing the group brings it back. */
  lemma {:induction false} DeliveredOncePerGroup(s: State, steps: seq<Step>, i: nat)
    requires ValidRun(s, steps)
    ensures Deliveries(s, steps, i) <= GroupLosses(steps) + (if StatusOf(s.group, i).Undelivered? then 1 else 0)
    decreases |steps|
  {
    if steps != [] {
      DeliveredOncePerGroup(Apply(s, steps[0]), steps[1..], i);
    }
  }
}
