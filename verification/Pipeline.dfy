/**
 The whole path from sensor to table: any number of honeypot machines, all of one process and so
 sharing one queue client, publishing into the stream of one delivery machine, in any interleaving.
 */
module Pipeline {
  import opened Events
  import opened Sequences
  import opened EventQueue
  import H = Honeypot
  import D = Delivery

  /** `used` holds the ids handed out so far. */
  datatype State = State(honeypots: seq<H.State>, delivery: D.State, used: set<nat>)

  datatype Step = Produce(h: nat, own: H.Step) | Deliver(exchange: D.Step)

  function Init(n: nat): State {
    State(seq(n, _ => H.INIT), D.INIT, {})
  }

  /** Event ids are new (UUID v4), and only honeypots append well-formed events. */
  predicate Enabled(s: State, step: Step) {
    match step
    case Produce(h, own) =>
      h < |s.honeypots| && H.Enabled(s.honeypots[h], own) && (own.Emit? ==> own.event.id !in s.used)
    case Deliver(own) => D.Enabled(s.delivery, own) && (own.Append? ==> own.payload.Malformed?)
  }

  /** The event whose XADD took effect in a honeypot's step, if any. */
  function Published(before: H.State, after: H.State): Option<AttackEvent> {
    if |after.published| > |before.published| then Some(after.published[|after.published| - 1]) else None
  }

  function Received(d: D.State, event: Option<AttackEvent>): D.State {
    if event.Some? then D.Apply(d, D.Append(Event(event.value))) else d
  }

  /** One honeypot has moved on; the others see the client as it left it. */
  function Share(honeypots: seq<H.State>, h: nat, next: H.State): (shared: seq<H.State>)
    requires h < |honeypots|
    ensures |shared| == |honeypots| && shared[h] == next
    ensures forall i | 0 <= i < |honeypots| && i != h :: shared[i] == honeypots[i].(connected := next.connected)
  {
    seq(|honeypots|, i requires 0 <= i < |honeypots| => if i == h then next else honeypots[i].(connected := next.connected))
  }

  function Apply(s: State, step: Step): State
    requires Enabled(s, step)
  {
    match step
    case Produce(h, own) =>
      var next := H.Apply(s.honeypots[h], own);
      State(Share(s.honeypots, h, next),
            Received(s.delivery, Published(s.honeypots[h], next)),
            s.used + if own.Emit? then {own.event.id} else {})
    case Deliver(own) => s.(delivery := D.Apply(s.delivery, own))
  }

  predicate ValidRun(s: State, steps: seq<Step>)
    decreases |steps|
  {
    steps == [] || (Enabled(s, steps[0]) && ValidRun(Apply(s, steps[0]), steps[1..]))
  }

  function Run(s: State, steps: seq<Step>): State
    requires ValidRun(s, steps)
    decreases |steps|
  {
    if steps == [] then s else Run(Apply(s, steps[0]), steps[1..])
  }

  predicate EmittedBy(s: State, h: nat, e: AttackEvent) {
    h < |s.honeypots| && e in s.honeypots[h].emitted
  }

  predicate PublishedBy(s: State, h: nat, e: AttackEvent) {
    h < |s.honeypots| && e in s.honeypots[h].published
  }

  /** The ids handed out name each emitted event once, across all honeypots. */
  ghost predicate IdsOk(s: State) {
    (forall h: nat, e | EmittedBy(s, h, e) :: e.id in s.used) &&
    forall g: nat, h: nat, d, e | EmittedBy(s, g, d) && EmittedBy(s, h, e) && d.id == e.id :: g == h && d == e
  }

  /** The stream holds exactly what the honeypots published, apart from what does not parse. */
  ghost predicate StreamOk(s: State) {
    (forall h: nat, e | PublishedBy(s, h, e) :: Event(e) in s.delivery.stream) &&
    forall p | p in s.delivery.stream && p.Event? :: exists h: nat :: PublishedBy(s, h, p.event)
  }

  ghost predicate PartsOk(s: State) {
    (forall h | 0 <= h < |s.honeypots| :: H.Inv(s.honeypots[h])) && D.Inv(s.delivery)
  }

  ghost predicate Inv(s: State) {
    PartsOk(s) && IdsOk(s) && StreamOk(s)
  }

  lemma InitOk(n: nat)
    ensures Inv(Init(n))
  {}

  /** What a step of one honeypot does to its emitted and published events. */
  lemma HoneypotStep(s: H.State, step: H.Step)
    requires H.Enabled(s, step)
    ensures var next := H.Apply(s, step);
            next.emitted == (if step.Emit? then s.emitted + {step.event} else s.emitted) &&
            (Published(s, next).None? ==> next.published == s.published) &&
            (Published(s, next).Some? ==> next.published == s.published + [Published(s, next).value])
  {
    hide H.Apply, H.Enabled;
    H.EmittedGrows(s, step);
    H.PublishedGrows(s, step);
  }

  lemma StepKeepsParts(s: State, step: Step)
    requires PartsOk(s) && Enabled(s, step)
    ensures PartsOk(Apply(s, step))
  {
    hide H.Ledger, H.Ownership, D.Inv, H.Apply, D.Apply, D.Enabled;
    match step
    case Produce(h, own) =>
      H.StepKeepsLedger(s.honeypots[h], own);
      H.StepKeepsOwnership(s.honeypots[h], own);
      forall i | 0 <= i < |s.honeypots| && i != h
        ensures H.Inv(Apply(s, step).honeypots[i])
      {
        H.LedgerFrame(s.honeypots[i], Apply(s, step).honeypots[i]);
        H.OwnershipFrame(s.honeypots[i], Apply(s, step).honeypots[i]);
      }
      var sent := Published(s.honeypots[h], H.Apply(s.honeypots[h], own));
      if sent.Some? {
        D.AppendEnabled(s.delivery, Event(sent.value));
        D.StepKeepsInv(s.delivery, D.Append(Event(sent.value)));
      }
    case Deliver(own) =>
      D.StepKeepsInv(s.delivery, own);
  }

  lemma StepKeepsIds(s: State, step: Step)
    requires IdsOk(s) && Enabled(s, step)
    ensures IdsOk(Apply(s, step))
  {
    hide H.Apply, D.Apply, D.Enabled, H.Enabled;
    var next := Apply(s, step);
    if step.Produce? {
      HoneypotStep(s.honeypots[step.h], step.own);
    }
    forall h: nat, e | EmittedBy(next, h, e)
      ensures EmittedBy(s, h, e) || NewlyEmitted(step, h, e)
    {}
  }

  predicate NewlyEmitted(step: Step, h: nat, e: AttackEvent) {
    step.Produce? && step.own.Emit? && h == step.h && e == step.own.event
  }

  lemma StepKeepsStream(s: State, step: Step)
    requires StreamOk(s) && Enabled(s, step)
    ensures StreamOk(Apply(s, step))
  {
    var next := Apply(s, step);
    match step
    case Deliver(own) =>
      DeliveryStep(s.delivery, own);
      forall h: nat, e | PublishedBy(next, h, e)
        ensures Event(e) in next.delivery.stream
      {
        assert PublishedBy(s, h, e);
      }
      forall p | p in next.delivery.stream && p.Event?
        ensures exists h: nat :: PublishedBy(next, h, p.event)
      {
        var h: nat :| PublishedBy(s, h, p.event);
        assert PublishedBy(next, h, p.event);
      }
    case Produce(h, own) =>
      HoneypotStep(s.honeypots[h], own);
      ProducedStream(s, h, s.honeypots[h], next.honeypots[h], next);
  }

  lemma DeliveryStep(d: D.State, step: D.Step)
    requires D.Enabled(d, step)
    ensures D.Apply(d, step).stream == if step.Append? then d.stream + [step.payload] else d.stream
  {}

  lemma ProducedStream(s: State, h: nat, before: H.State, after: H.State, next: State)
    requires StreamOk(s) && h < |s.honeypots| && before == s.honeypots[h]
    requires next.honeypots == Share(s.honeypots, h, after)
    requires var sent := Published(before, after);
             after.published == before.published + (if sent.Some? then [sent.value] else []) &&
             next.delivery.stream == s.delivery.stream + (if sent.Some? then [Event(sent.value)] else [])
    ensures StreamOk(next)
  {
    var sent := Published(before, after);
    forall g: nat, e | PublishedBy(next, g, e)
      ensures Event(e) in next.delivery.stream
    {
      assert PublishedBy(s, g, e) || (sent == Some(e) && g == h);
    }
    forall p | p in next.delivery.stream && p.Event?
      ensures exists g: nat :: PublishedBy(next, g, p.event)
    {
      if p in s.delivery.stream {
        var g: nat :| PublishedBy(s, g, p.event);
        assert PublishedBy(next, g, p.event);
      } else {
        assert PublishedBy(next, h, p.event);
      }
    }
  }

  lemma {:induction false} RunKeepsInv(s: State, steps: seq<Step>)
    requires Inv(s) && ValidRun(s, steps)
    ensures Inv(Run(s, steps))
    decreases |steps|
  {
    hide PartsOk, IdsOk, StreamOk, Apply, Enabled;
    if steps != [] {
      StepKeepsParts(s, steps[0]);
      StepKeepsIds(s, steps[0]);
      StepKeepsStream(s, steps[0]);
      RunKeepsInv(Apply(s, steps[0]), steps[1..]);
    }
  }

  // ----- End to end -----

  /** The event has exactly one row, with its own fields and valid labels. */
  ghost predicate StoredOnce(s: State, e: AttackEvent) {
    exists r :: D.RowsWithId(s.delivery.rows, e.id) == {r} && D.OneRow(s.delivery.rows, r, e)
  }

  /** Every row is some honeypot's emitted event, whole, and no other row has its id. */
  lemma RowsAreEmitted(s: State, r: nat)
    requires Inv(s) && r < |s.delivery.rows|
    ensures exists h: nat :: EmittedBy(s, h, s.delivery.rows[r].event)
    ensures forall h: nat, e | EmittedBy(s, h, e) && e.id == s.delivery.rows[r].event.id :: e == s.delivery.rows[r].event
    ensures StoredOnce(s, s.delivery.rows[r].event)
  {
    var d := s.delivery;
    var e := d.rows[r].event;
    assert D.RowOk(d, r);
    assert Event(e) in d.stream;
    var h: nat :| PublishedBy(s, h, e);
    assert H.Inv(s.honeypots[h]);
    assert EmittedBy(s, h, e);
    assert D.RowsWithId(d.rows, e.id) == {r};
  }

  /** Every entry ever acked failed to parse, or is an emitted event that is stored once. */
  lemma AckedIsStoredOnce(s: State, i: nat)
    requires Inv(s) && i in s.delivery.ever
    ensures i < |s.delivery.stream|
    ensures s.delivery.stream[i].Event? ==>
              StoredOnce(s, s.delivery.stream[i].event) && exists h: nat :: EmittedBy(s, h, s.delivery.stream[i].event)
  {
    var d := s.delivery;
    if d.stream[i].Event? {
      var r := D.StoredRow(d, i);
      RowsAreEmitted(s, r);
    }
  }

  /**
   Safety end to end, in every reachable state: rows are emitted events, whole and labelled, never
   two with one id; and no event is acked before it is stored.
   */
  lemma ReachableIsSound(n: nat, steps: seq<Step>)
    requires ValidRun(Init(n), steps)
    ensures var s := Run(Init(n), steps);
            (forall r: nat | r < |s.delivery.rows| ::
               StoredOnce(s, s.delivery.rows[r].event) && WasEmitted(s, s.delivery.rows[r].event)) &&
            (forall i: nat, e | i in s.delivery.ever && HasCopy(s, i, e) :: StoredOnce(s, e) && WasEmitted(s, e))
  {
    InitOk(n);
    RunKeepsInv(Init(n), steps);
    var s := Run(Init(n), steps);
    forall r: nat | r < |s.delivery.rows|
      ensures StoredOnce(s, s.delivery.rows[r].event) && WasEmitted(s, s.delivery.rows[r].event)
    {
      RowsAreEmitted(s, r);
    }
    forall i: nat, e | i in s.delivery.ever && HasCopy(s, i, e)
      ensures StoredOnce(s, e) && WasEmitted(s, e)
    {
      AckedIsStoredOnce(s, i);
    }
  }

  ghost predicate WasEmitted(s: State, e: AttackEvent) {
    exists h: nat :: EmittedBy(s, h, e)
  }

  /** No step of honeypot `h` in the run is a losing one. */
  ghost predicate LosslessFor(s: State, steps: seq<Step>, h: nat)
    requires ValidRun(s, steps)
    decreases |steps|
  {
    steps == [] ||
    ((steps[0].Produce? && steps[0].h == h ==> !H.Loses(s.honeypots[h], steps[0].own)) &&
     LosslessFor(Apply(s, steps[0]), steps[1..], h))
  }

  lemma Prepend(s: H.State, first: H.Step, next: H.State, later: seq<H.Step>) returns (steps: seq<H.Step>)
    requires H.Enabled(s, first) && H.Apply(s, first) == next && H.ValidRun(next, later)
    ensures steps == [first] + later && H.ValidRun(s, steps) && H.Run(s, steps) == H.Run(next, later)
    ensures H.Lossless(s, steps) <==> !H.Loses(s, first) && H.Lossless(next, later)
  {
    steps := [first] + later;
    assert steps[1..] == later;
  }

  /** The run as honeypot `h` alone lives through it. */
  lemma {:induction false} HoneypotsRun(s: State, steps: seq<Step>, h: nat) returns (own: seq<H.Step>)
    requires ValidRun(s, steps) && h < |s.honeypots|
    ensures |Run(s, steps).honeypots| == |s.honeypots|
    ensures H.ValidRun(s.honeypots[h], own) && H.Run(s.honeypots[h], own) == Run(s, steps).honeypots[h]
    ensures H.Lossless(s.honeypots[h], own) <==> LosslessFor(s, steps, h)
    decreases |steps|
  {
    hide H.Apply, H.Enabled, H.Loses, D.Apply, D.Enabled;
    own := [];
    if steps != [] {
      var next := Apply(s, steps[0]);
      own := HoneypotsRun(next, steps[1..], h);
      if steps[0].Produce? {
        var first := if steps[0].h == h then steps[0].own else H.Disturb(next.honeypots[h].connected);
        H.DisturbIsQuiet(s.honeypots[h], next.honeypots[h].connected);
        own := Prepend(s.honeypots[h], first, next.honeypots[h], own);
      }
    }
  }

  /** What the delivery machine takes part in. */
  function DeliverySteps(s: State, steps: seq<Step>): seq<D.Step>
    requires ValidRun(s, steps)
    decreases |steps|
  {
    if steps == [] then []
    else
      (match steps[0]
       case Produce(h, own) =>
         var sent := Published(s.honeypots[h], H.Apply(s.honeypots[h], own));
         if sent.Some? then [D.Append(Event(sent.value))] else []
       case Deliver(own) => [own]) +
      DeliverySteps(Apply(s, steps[0]), steps[1..])
  }

  /** The run as the delivery machine lives through it, so that its results hold end to end. */
  lemma {:induction false} DeliveryRuns(s: State, steps: seq<Step>)
    requires ValidRun(s, steps)
    ensures var own := DeliverySteps(s, steps);
            D.ValidRun(s.delivery, own) && D.Run(s.delivery, own) == Run(s, steps).delivery
    decreases |steps|
  {
    hide H.Apply, H.Enabled, D.Apply, D.Enabled;
    if steps != [] {
      var next, later := Apply(s, steps[0]), DeliverySteps(Apply(s, steps[0]), steps[1..]);
      DeliveryRuns(next, steps[1..]);
      DeliveryTakesPart(s, steps[0]);
      if next.delivery == s.delivery && DeliverySteps(s, steps) == [] + later {
        assert [] + later == later;
      } else {
        var first := DeliverySteps(s, steps)[0];
        assert DeliverySteps(s, steps) == [first] + later && ([first] + later)[1..] == later;
      }
    }
  }

  lemma DeliveryTakesPart(s: State, step: Step)
    requires Enabled(s, step)
    ensures match step
            case Produce(h, own) =>
              var sent := Published(s.honeypots[h], H.Apply(s.honeypots[h], own));
              if sent.None? then Apply(s, step).delivery == s.delivery
              else D.Enabled(s.delivery, D.Append(Event(sent.value))) &&
                   Apply(s, step).delivery == D.Apply(s.delivery, D.Append(Event(sent.value)))
            case Deliver(own) => D.Enabled(s.delivery, own) && Apply(s, step).delivery == D.Apply(s.delivery, own)
  {
    hide H.Apply, H.Enabled;
  }

  /** Every row carries the labels the rules asked for when a worker classified the copy it came from. */
  lemma LabelsAreJustified(n: nat, steps: seq<Step>, r: nat)
    requires ValidRun(Init(n), steps) && r < |Run(Init(n), steps).delivery.rows|
    ensures var d, own := Run(Init(n), steps).delivery, DeliverySteps(Init(n), steps);
            r < |d.origin| && D.ValidRun(D.INIT, own) && D.ClassifiedSo(D.INIT, own, d.origin[r], d.rows[r])
  {
    DeliveryRuns(Init(n), steps);
    D.LabelsAreJustified(DeliverySteps(Init(n), steps), r);
  }

  /** Where an emitted event can be. */
  ghost predicate Whereabouts(s: State, h: nat, e: AttackEvent)
    requires h < |s.honeypots|
  {
    H.InFlight(s.honeypots[h], e) || e in s.honeypots[h].buffer || H.WasEvicted(s.honeypots[h], e) ||
    exists i: nat :: HasCopy(s, i, e)
  }

  ghost predicate HasCopy(s: State, i: nat, e: AttackEvent) {
    i < |s.delivery.stream| && s.delivery.stream[i] == Event(e)
  }

  /**
   The main guarantee, over every interleaving of honeypots, workers, lost replies, crashes and group
   losses: every event a honeypot emitted is in flight, buffered, evicted from a full buffer, or in
   the stream, exactly when that honeypot made no losing step.
   */
  lemma NothingLostIff(n: nat, steps: seq<Step>, h: nat)
    requires ValidRun(Init(n), steps) && h < n
    ensures var s := Run(Init(n), steps);
            |s.honeypots| == n &&
            ((forall e | EmittedBy(s, h, e) :: Whereabouts(s, h, e)) <==> LosslessFor(Init(n), steps, h))
  {
    hide H.Ledger, H.Ownership, D.Inv, H.ValidRun, H.Run, H.Lossless;
    InitOk(n);
    RunKeepsInv(Init(n), steps);
    var own := HoneypotsRun(Init(n), steps, h);
    StartOk();
    H.ConservesIffLossless(H.INIT, own);
    var s := Run(Init(n), steps);
    forall e | EmittedBy(s, h, e)
      ensures Whereabouts(s, h, e) <==> H.Accounted(s.honeypots[h], e)
    {
      WhereaboutsIff(s, h, e);
    }
  }

  lemma StartOk()
    ensures H.Inv(H.INIT) && H.AllAccounted(H.INIT)
  {}

  /** Published and in the stream are the same thing. */
  lemma WhereaboutsIff(s: State, h: nat, e: AttackEvent)
    requires Inv(s) && EmittedBy(s, h, e)
    ensures Whereabouts(s, h, e) <==> H.Accounted(s.honeypots[h], e)
  {
    if e in s.honeypots[h].published {
      assert PublishedBy(s, h, e);
      var i: nat :| i < |s.delivery.stream| && s.delivery.stream[i] == Event(e);
      assert HasCopy(s, i, e);
    }
    if i: nat :| HasCopy(s, i, e) {
      assert s.delivery.stream[i] in s.delivery.stream;
      var g: nat :| PublishedBy(s, g, e);
      assert H.Inv(s.honeypots[g]);
      assert EmittedBy(s, g, e);
    }
  }

  function Ids(rows: seq<Row>): set<nat> {
    set r | 0 <= r < |rows| :: rows[r].event.id
  }

  lemma {:induction false} DistinctIds(rows: seq<Row>)
    requires forall q: nat, r: nat | q < r < |rows| :: rows[q].event.id != rows[r].event.id
    ensures |Ids(rows)| == |rows|
  {
    if rows != [] {
      var n := |rows| - 1;
      DistinctIds(rows[..n]);
      assert Ids(rows) == Ids(rows[..n]) + {rows[n].event.id};
    }
  }

  /** However often events are published, delivered and inserted again, there are never more rows than ids. */
  lemma NoMoreRowsThanEvents(n: nat, steps: seq<Step>)
    requires ValidRun(Init(n), steps)
    ensures |Run(Init(n), steps).delivery.rows| <= |Run(Init(n), steps).used|
  {
    InitOk(n);
    RunKeepsInv(Init(n), steps);
    var s := Run(Init(n), steps);
    DistinctIds(s.delivery.rows);
    forall r: nat | r < |s.delivery.rows|
      ensures s.delivery.rows[r].event.id in s.used
    {
      RowsAreEmitted(s, r);
    }
    SubsetSize(Ids(s.delivery.rows), s.used);
  }
}
