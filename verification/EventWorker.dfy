/**
 `EventWorker`: the sequential code of one worker over the shared server and table. Each call is a
 run of the delivery machine, and says exactly when it stores and when it acks.
 */
module EventWorker {
  import opened Events
  import opened Classifier
  import opened EventQueue
  import opened Delivery

  /** What worker `w` itself does while it runs: neither a crash nor a restart nor anyone else's steps. */
  predicate OwnStep(step: Step, w: nat) {
    step.EnsureGroup? ||
    ((step.Read? || step.Discard? || step.Label? || step.Commit? || step.Ack?) && step.w == w)
  }

  /** Worker `w` alone leads from `s` to `t` by these steps. */
  ghost predicate Works(w: nat, s: State, steps: seq<Step>, t: State) {
    Leads(s, steps, t) && forall i | 0 <= i < |steps| :: OwnStep(steps[i], w)
  }

  lemma WorksNot(w: nat, s: State)
    ensures Works(w, s, [], s)
  {}

  lemma WorksOn(w: nat, s: State, steps: seq<Step>, t: State, step: Step)
    requires Works(w, s, steps, t) && Enabled(t, step) && OwnStep(step, w)
    ensures Works(w, s, steps + [step], Apply(t, step))
  {
    LeadsOn(s, steps, t, step);
  }

  lemma WorksJoin(w: nat, s: State, first: seq<Step>, t: State, more: seq<Step>, u: State)
    requires Works(w, s, first, t) && Works(w, t, more, u)
    ensures Works(w, s, first + more, u)
  {
    LeadsJoin(s, first, t, more, u);
  }

  lemma WorksKeepsInv(w: nat, s: State, steps: seq<Step>, t: State)
    requires Works(w, s, steps, t) && Inv(s)
    ensures Inv(t)
  {
    LeadsKeepsInv(s, steps, t);
  }

  /** What happens to one attempt of the retry loop. */
  datatype Exchange = Exchange(commit: Net, ack: Attempt)

  /** The first commit among the first `n` attempts that reaches the database. */
  function FirstReached(net: nat -> Exchange, n: nat): (first: Option<nat>)
    ensures first.Some? ==> first.value < n && !net(first.value).commit.Refused?
    ensures forall j | 0 <= j < n && (first.Some? ==> j < first.value) :: net(j).commit.Refused?
  {
    if n == 0 then None
    else
      var earlier := FirstReached(net, n - 1);
      if earlier.Some? then earlier
      else if net(n - 1).commit.Refused? then None
      else Some(n - 1)
  }

  /** The commit reports success, and the ack that follows it finds the entry pending. */
  predicate Confirms(x: Exchange, connected: bool, group: Group, entry: nat) {
    x.commit.Ok? && x.ack.Sent(connected) && group.Group? && entry in group.pending
  }

  /** The attempt that stores the event: the first to reach the database, unless the id is taken. */
  ghost function Reached(s: State, id: nat, net: nat -> Exchange, n: nat): Option<nat> {
    if FreshId(s.rows, id) then FirstReached(net, n) else None
  }

  lemma ReachedStep(s: State, id: nat, net: nat -> Exchange, n: nat, limit: nat)
    requires n < limit
    ensures var first := Reached(s, id, net, n);
            Reached(s, id, net, n + 1) ==
            if first.None? && FreshId(s.rows, id) && !net(n).commit.Refused? then Some(n) else first
    ensures Reached(s, id, net, n + 1).Some? ==> Reached(s, id, net, limit) == Reached(s, id, net, n + 1)
  {}

  /** The rows and acked entries after some attempts at one event. */
  ghost predicate Progress(s: State, t: State, row: Row, entry: nat, net: nat -> Exchange, n: nat, connected: bool) {
    var first := Reached(s, row.event.id, net, n);
    t.rows == (if first.Some? then s.rows + [row] else s.rows) &&
    t.ever == (if first.Some? && Confirms(net(first.value), connected, s.group, entry) then s.ever + {entry} else s.ever)
  }

  lemma NoneReached(s: State, t: State, row: Row, entry: nat, net: nat -> Exchange, connected: bool)
    requires t.rows == s.rows && t.ever == s.ever
    ensures Reached(s, row.event.id, net, 0).None? && Progress(s, t, row, entry, net, 0, connected)
  {}

  /** What one attempt at an event does; `done` says whether it was the last one needed. */
  ghost predicate AttemptEffect(s: State, t: State, row: Row, entry: nat, x: Exchange, connected: bool, done: bool) {
    if FreshId(s.rows, row.event.id) && !x.commit.Refused? then
      t.rows == s.rows + [row] && (done ==> x.commit.Ok?) &&
      t.ever == if Confirms(x, connected, s.group, entry) then s.ever + {entry} else s.ever
    else !done && t.rows == s.rows && t.ever == s.ever && t.group == s.group
  }

  lemma ProgressStep(s: State, before: State, after: State, row: Row, entry: nat, net: nat -> Exchange, n: nat,
                     connected: bool, done: bool)
    requires n < DB_MAX_RETRIES && Progress(s, before, row, entry, net, n, connected)
    requires Reached(s, row.event.id, net, n).None? ==> before.group == s.group
    requires AttemptEffect(before, after, row, entry, net(n), connected, done) ||
             (Reached(s, row.event.id, net, n).Some? && !done && after.rows == before.rows && after.ever == before.ever)
    ensures Progress(s, after, row, entry, net, n + 1, connected)
    ensures done ==> Progress(s, after, row, entry, net, DB_MAX_RETRIES, connected)
    ensures Reached(s, row.event.id, net, n + 1).None? ==> Reached(s, row.event.id, net, n).None? && after.group == s.group
    ensures Reached(s, row.event.id, net, n + 1).None? ==> !FreshId(before.rows, row.event.id) || net(n).commit.Refused?
  {
    ReachedStep(s, row.event.id, net, n, DB_MAX_RETRIES);
    Taken(s.rows, row);
    hide Confirms;
  }

  /** Once the row is stored, an attempt changes neither rows nor acks; until then the client is as it was. */
  lemma StillStored(s: State, before: State, after: State, row: Row, entry: nat, net: nat -> Exchange, n: nat,
                    connected: bool, now: bool, done: bool)
    requires Progress(s, before, row, entry, net, n, connected)
    requires Reached(s, row.event.id, net, n).None? ==> now == connected
    requires AttemptEffect(before, after, row, entry, net(n), now, done)
    ensures AttemptEffect(before, after, row, entry, net(n), connected, done) ||
            (Reached(s, row.event.id, net, n).Some? && !done && after.rows == before.rows && after.ever == before.ever)
  {
    Taken(s.rows, row);
    hide Confirms;
  }

  /** No row is fresh once it is in the table. */
  lemma Taken(rows: seq<Row>, row: Row)
    ensures !FreshId(rows + [row], row.event.id)
  {
    assert (rows + [row])[|rows|] == row;
  }

  lemma StartsLabelling(s: State, w: nat, rules: DetectionRules, entry: nat, event: AttackEvent,
                        context: Option<IPContext>, rest: seq<nat>)
    requires w in s.workers && s.workers[w] == Ready([entry] + rest)
    requires entry < |s.stream| && s.stream[entry] == Event(event)
    ensures var verdict := ClassifyOrFallBack(rules, event, context);
            Works(w, s, [Label(w, rules, context)], s.(workers := s.workers[w := Handling(entry, verdict, 0, false, rest)]))
  {
    var step := Label(w, rules, context);
    assert ([entry] + rest)[1..] == rest;
    WorksNot(w, s);
    WorksOn(w, s, [], s, step);
    assert [] + [step] == [step];
  }

  /** The event table, with its primary key. */
  class EventTable {
    var rows: seq<Row>

    constructor ()
      ensures rows == []
    {
      rows := [];
    }

    /** Add and commit one row; a duplicate id is an IntegrityError. */
    method Insert(row: Row, net: Net) returns (ok: bool)
      modifies this
      ensures rows == if net.Refused? || !FreshId(old(rows), row.event.id) then old(rows) else old(rows) + [row]
      ensures ok == (net.Ok? && FreshId(old(rows), row.event.id))
    {
      ok := !net.Refused? && !(exists r | 0 <= r < |rows| :: rows[r].event.id == row.event.id);
      if ok {
        rows := rows + [row];
      }
      ok := ok && net.Ok?;
    }
  }

  class EventWorker {
    const queue: EventQueue
    const table: EventTable
    const rules: DetectionRules
    /** The consumer this worker reads as. */
    const w: nat

    constructor (queue: EventQueue, table: EventTable, rules: DetectionRules, w: nat)
      ensures this.queue == queue && this.table == table && this.rules == rules && this.w == w
    {
      this.queue, this.table, this.rules, this.w := queue, table, rules, w;
    }

    /** The machine state agrees with the server and the table. */
    ghost predicate Mirrors(s: State)
      reads queue.server, table
    {
      s.stream == queue.server.stream && s.group == queue.server.group && s.rows == table.rows
    }

    /** The connect an ack may start with. */
    static ghost function Connecting(connected: bool, net: Attempt): seq<Step> {
      if connected || net.connect.Refused? then [] else [EnsureGroup]
    }

    static lemma Connects(w: nat, s: State, connected: bool, net: Attempt)
      ensures Works(w, s, Connecting(connected, net), s.(group := net.Found(connected, s.group)))
    {
      if Connecting(connected, net) != [] {
        assert ValidRun(Apply(s, EnsureGroup), [EnsureGroup][1..]);
      }
    }

    static lemma AckRun(w: nat, s: State, connected: bool, net: Attempt, step: Step)
      requires Enabled(s.(group := net.Found(connected, s.group)), step) && OwnStep(step, w)
      ensures Works(w, s, Connecting(connected, net) + [step], Apply(s.(group := net.Found(connected, s.group)), step))
    {
      hide Enabled, Works;
      Connects(w, s, connected, net);
      WorksOn(w, s, Connecting(connected, net), s.(group := net.Found(connected, s.group)), step);
    }

    /** Acks the entry this worker has just stored. */
    method AckStored(entry: nat, net: Attempt, ghost s: State) returns (ok: bool, ghost steps: seq<Step>, ghost t: State)
      requires Mirrors(s) && Busy(s, w) && s.workers[w].stored && s.workers[w].entry == entry
      modifies queue`connected, queue.server`group
      ensures Mirrors(t) && Works(w, s, steps, t) && t.rows == s.rows && t.stream == s.stream
      ensures t.workers == s.workers[w := if ok then Ready(s.workers[w].rest) else Failed(s.workers[w])]
      ensures t.ever == if net.Sent(old(queue.connected)) && s.group.Group? && entry in s.group.pending
                        then s.ever + {entry} else s.ever
    {
      hide Works;
      ghost var step := Ack(w, net.Outcome(queue.connected));
      AckRun(w, s, queue.connected, net, step);
      steps := Connecting(queue.connected, net) + [step];
      t := Apply(s.(group := net.Found(queue.connected, s.group)), step);
      ok := queue.Ack(entry, net);
    }

    /** Acks the entry that failed to parse; on a connection error the rest of the batch is dropped. */
    method AckMalformed(entry: nat, net: Attempt, ghost s: State) returns (ok: bool, ghost steps: seq<Step>, ghost t: State)
      requires Mirrors(s) && Enabled(s, Discard(w, net.command)) && s.workers[w].batch[0] == entry
      modifies queue`connected, queue.server`group
      ensures Mirrors(t) && Works(w, s, steps, t) && t.rows == s.rows && t.stream == s.stream
      ensures t.workers == s.workers[w := Ready(if ok then s.workers[w].batch[1..] else [])]
    {
      hide Works;
      ghost var step := Discard(w, net.Outcome(queue.connected));
      AckRun(w, s, queue.connected, net, step);
      steps := Connecting(queue.connected, net) + [step];
      t := Apply(s.(group := net.Found(queue.connected, s.group)), step);
      ok := queue.Ack(entry, net);
      if !ok {
        queue.connected := false;
      }
    }

    /** Stores the event being handled, in this attempt. */
    method Store(event: AttackEvent, verdict: ClassificationResult, net: Net, ghost s: State)
      returns (ok: bool, ghost steps: seq<Step>, ghost t: State)
      requires Mirrors(s) && Enabled(s, Commit(w, net))
      requires s.stream[s.workers[w].entry] == Event(event) && s.workers[w].verdict == verdict
      modifies table
      ensures Mirrors(t) && Works(w, s, steps, t) && t.stream == s.stream && t.group == s.group && t.ever == s.ever
      ensures table.rows == if net.Refused? || !FreshId(s.rows, event.id) then s.rows
                            else s.rows + [LabelledRow(event, verdict)]
      ensures ok == (net.Ok? && FreshId(s.rows, event.id))
      ensures t.workers == s.workers[w := if ok then s.workers[w].(stored := true) else Failed(s.workers[w])]
    {
      hide Works;
      WorksNot(w, s);
      WorksOn(w, s, [], s, Commit(w, net));
      steps := [] + [Commit(w, net)];
      t := Apply(s, Commit(w, net));
      ok := table.Insert(LabelledRow(event, verdict), net);
    }

    /**
     One event, handed over by the consume loop: classify once, then commit and ack with up to ten
     attempts. The row carries the labels the rules ask for in this context; it is stored by the first
     commit that reaches the database, unless the id is taken; the entry is acked exactly when that
     commit reports success and the ack right after it arrives. Nothing later can make up for it, as
     every further commit hits the primary key.
     */
    method ProcessEvent(entry: nat, event: AttackEvent, context: Option<IPContext>, net: nat -> Exchange,
                        ghost s: State, ghost rest: seq<nat>)
      returns (ghost row: Row, ghost steps: seq<Step>, ghost t: State)
      requires Mirrors(s) && w in s.workers && s.workers[w] == Ready([entry] + rest)
      requires entry < |s.stream| && s.stream[entry] == Event(event)
      modifies queue`connected, queue.server`group, table
      ensures Mirrors(t) && Works(w, s, steps, t) && t.stream == s.stream
      ensures t.workers == s.workers[w := Ready(rest)]
      ensures row.event == event && RowJustified(rules, context, row)
      ensures Progress(s, t, row, entry, net, 10, old(queue.connected))
    {
      hide Works, Reached, FreshId, Progress, AttemptEffect, Justified;
      var verdict := ClassifyOrFallBack(rules, event, context);
      row := LabelledRow(event, verdict);
      steps := [Label(w, rules, context)];
      t := s.(workers := s.workers[w := Handling(entry, verdict, 0, false, rest)]);
      StartsLabelling(s, w, rules, entry, event, context, rest);
      NoneReached(s, t, row, entry, net, queue.connected);
      for attempt := 0 to DB_MAX_RETRIES
        invariant Mirrors(t) && Works(w, s, steps, t) && t.stream == s.stream
        invariant t.workers == s.workers[w := AfterAttempts(entry, verdict, attempt, rest)]
        invariant Progress(s, t, row, entry, net, attempt, old(queue.connected))
        invariant Reached(s, event.id, net, attempt).None? ==> queue.connected == old(queue.connected) && t.group == s.group
      {
        ghost var before, connected := t, queue.connected;
        var done, more, next := StoreAndAck(entry, event, verdict, net(attempt), t, attempt, rest);
        StillStored(s, before, next, row, entry, net, attempt, old(queue.connected), connected, done);
        ProgressStep(s, before, next, row, entry, net, attempt, old(queue.connected), done);
        WorksJoin(w, s, steps, t, more, next);
        steps, t := steps + more, next;
        if done {
          return;
        }
      }
    }

    /** The worker after `n` failed attempts. */
    static ghost function AfterAttempts(entry: nat, verdict: ClassificationResult, n: nat, rest: seq<nat>): Work {
      if n < DB_MAX_RETRIES then Handling(entry, verdict, n, false, rest) else Ready(rest)
    }

    /** One attempt of the retry loop; returns whether it was the last one needed. */
    method StoreAndAck(entry: nat, event: AttackEvent, verdict: ClassificationResult, x: Exchange,
                       ghost s: State, ghost attempt: nat, ghost rest: seq<nat>)
      returns (done: bool, ghost steps: seq<Step>, ghost t: State)
      requires Mirrors(s) && attempt < DB_MAX_RETRIES
      requires w in s.workers && s.workers[w] == AfterAttempts(entry, verdict, attempt, rest)
      requires entry < |s.stream| && s.stream[entry] == Event(event)
      modifies queue`connected, queue.server`group, table
      ensures Mirrors(t) && Works(w, s, steps, t) && t.stream == s.stream
      ensures t.workers == s.workers[w := if done then Ready(rest) else AfterAttempts(entry, verdict, attempt + 1, rest)]
      ensures AttemptEffect(s, t, LabelledRow(event, verdict), entry, x, old(queue.connected), done)
      ensures !FreshId(s.rows, event.id) || x.commit.Refused? ==> queue.connected == old(queue.connected)
    {
      hide Works, FreshId;
      ghost var stored: State;
      done, steps, stored := Store(event, verdict, x.commit, s);
      t := stored;
      if done {
        var acked, more, after := AckStored(entry, x.ack, stored);
        WorksJoin(w, s, steps, stored, more, after);
        done, steps, t := acked, steps + more, after;
      }
    }

    /** The steps of one read: connect if needed, then deliver, or recreate a missing group. */
    static ghost function Reading(s: State, connected: bool, net: Attempt, recreate: Net, w: nat, count: nat): seq<Step> {
      var found := net.Found(connected, s.group);
      Connecting(connected, net) +
      if !net.Sent(connected) then []
      else if found.Group? then [Read(w, count, net.command)]
      else if net.command.Ok? && !recreate.Refused? then [EnsureGroup]
      else []
    }

    static lemma ReadingLeads(s: State, connected: bool, net: Attempt, recreate: Net, w: nat, count: nat) returns (t: State)
      requires Inv(s) && w in s.workers && s.workers[w] == Ready([])
      ensures Works(w, s, Reading(s, connected, net, recreate, w, count), t)
      ensures var found := s.(group := net.Found(connected, s.group));
              t == if !net.Sent(connected) then found
                   else if found.group.Group? then
                     assert found.group.cursor <= |s.stream|; Apply(found, Read(w, count, net.command))
                   else if net.command.Ok? && !recreate.Refused? then Apply(found, EnsureGroup)
                   else found
    {
      hide Works;
      var found := s.(group := net.Found(connected, s.group));
      Connects(w, s, connected, net);
      var steps := Reading(s, connected, net, recreate, w, count)[|Connecting(connected, net)|..];
      t := found;
      if steps != [] {
        t := Apply(found, steps[0]);
        WorksOn(w, s, Connecting(connected, net), found, steps[0]);
      }
      assert Reading(s, connected, net, recreate, w, count) == Connecting(connected, net) + steps;
      assert Connecting(connected, net) + [] == Connecting(connected, net);
    }

    /** Reads the next batch. */
    method Fetch(count: nat, net: Attempt, recreate: Net, ghost s: State)
      returns (batch: seq<nat>, ghost steps: seq<Step>, ghost t: State)
      requires Mirrors(s) && Inv(s) && w in s.workers && s.workers[w] == Ready([])
      modifies queue`connected, queue.server`group
      ensures Mirrors(t) && Works(w, s, steps, t) && t.stream == s.stream && t.workers == s.workers[w := Ready(batch)]
      ensures steps == Reading(s, old(queue.connected), net, recreate, w, count)
    {
      hide Works;
      ghost var connected := queue.connected;
      steps := Reading(s, connected, net, recreate, w, count);
      t := ReadingLeads(s, connected, net, recreate, w, count);
      batch := queue.Poll(w, count, net, recreate);
      ghost var found := s.(group := net.Found(connected, s.group));
      if net.Sent(connected) && net.command.Ok? && found.group.Group? {
        assert batch == Delivered(found, count);
      }
    }

    /** One round of the consume loop: read a batch, drop what does not parse, process the rest in order. */
    method Round(count: nat, poll: Attempt, recreate: Net, acks: nat -> Attempt, contexts: nat -> Option<IPContext>,
                 net: nat -> nat -> Exchange, ghost s: State)
      returns (ghost steps: seq<Step>, ghost t: State)
      requires Mirrors(s) && Inv(s) && w in s.workers && s.workers[w] == Ready([])
      modifies queue`connected, queue.server`group, table
      ensures Mirrors(t) && Works(w, s, steps, t) && Inv(t)
      ensures Reading(s, old(queue.connected), poll, recreate, w, count) <= steps
      ensures t.stream == s.stream && t.workers == s.workers
    {
      hide Works, Inv, Progress, Reading;
      var batch;
      batch, steps, t := Fetch(count, poll, recreate, s);
      WorksKeepsInv(w, s, steps, t);
      while batch != []
        invariant Mirrors(t) && Works(w, s, steps, t) && Inv(t) && t.stream == s.stream
        invariant t.workers == s.workers[w := Ready(batch)]
        invariant Reading(s, old(queue.connected), poll, recreate, w, count) <= steps
        decreases |batch|
      {
        var entry := batch[0];
        EntryExists(t, w);
        ghost var before := t;
        ghost var more;
        if queue.server.stream[entry].Malformed? {
          var ok;
          ok, more, t := AckMalformed(entry, acks(|batch|), t);
          batch := if ok then batch[1..] else [];
        } else {
          assert batch == [entry] + batch[1..];
          ghost var row;
          row, more, t := ProcessEvent(entry, queue.server.stream[entry].event, contexts(|batch|), net(|batch|), t, batch[1..]);
          batch := batch[1..];
        }
        WorksJoin(w, s, steps, before, more, t);
        WorksKeepsInv(w, before, more, t);
        steps := steps + more;
      }
      assert s.workers[w := Ready([])] == s.workers;
    }

    static lemma EntryExists(s: State, w: nat)
      requires Inv(s) && w in s.workers && s.workers[w].Ready? && s.workers[w].batch != []
      ensures s.workers[w].batch[0] < |s.stream|
    {
      assert WorkOk(s, s.workers[w]);
      assert s.workers[w].batch[0] in s.workers[w].batch;
    }
  }
}
