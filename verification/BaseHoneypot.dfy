/**
 `BaseHoneypot`, whose methods are sequential code over a buffer and a queue client: each call is
 shown to be a run of the interleaving machine, so the machine's theorems are about this code.
 Witness runs show what overlapping calls can lose.
 */
module BaseHoneypot {
  import opened Events
  import opened Sequences
  import opened EventQueue
  import opened Honeypot

  lemma {:induction false} RunAppend(s: State, first: seq<Step>, more: seq<Step>)
    requires ValidRun(s, first) && ValidRun(Run(s, first), more)
    ensures ValidRun(s, first + more) && Run(s, first + more) == Run(Run(s, first), more)
    decreases |first|
  {
    if first == [] {
      assert first + more == more;
    } else {
      RunAppend(Apply(s, first[0]), first[1..], more);
      assert (first + more)[1..] == first[1..] + more;
    }
  }

  lemma RunOne(s: State, step: Step)
    requires Enabled(s, step)
    ensures ValidRun(s, [step]) && Run(s, [step]) == Apply(s, step)
  {}

  // ----- One publish, attempt by attempt -----

  function Repeat(e: AttackEvent, n: nat): (r: seq<AttackEvent>)
    ensures |r| == n
  {
    seq(n, _ => e)
  }

  /** What an attempt awaits first. */
  function First(connected: bool): Phase {
    if connected then Sending else Connecting
  }

  /** The awaits of one attempt. */
  function AttemptSteps(tid: nat, x: Attempt, connected: bool): seq<Step> {
    if connected then [Try(tid, x.command)]
    else [Connected(tid, x.connect)] + (if x.connect.Ok? then [Try(tid, x.command)] else [])
  }

  function AfterAttempt(s: State, tid: nat, outcome: Net): State
    requires tid in s.tasks
  {
    var sent := Send(s, s.tasks[tid].Target(), outcome);
    if outcome.Ok? then Succeed(sent, tid) else Fail(sent, tid)
  }

  lemma Retask(tasks: map<nat, Task>, tid: nat, was: Task, now: Task)
    ensures tasks[tid := was][tid := now] == tasks[tid := now]
    ensures tasks[tid := was] - {tid} == tasks - {tid}
  {}

  lemma ProceedForgets(s: State, tid: nat, busy: Task, owned: Option<AttackEvent>)
    ensures Proceed(s.(tasks := s.tasks[tid := busy]), tid, owned) == Proceed(s, tid, owned)
  {}

  lemma PopForgets(s: State, tid: nat, busy: Task, peeked: AttackEvent, owned: Option<AttackEvent>)
    ensures Pop(s.(tasks := s.tasks[tid := busy]), tid, peeked, owned) == Pop(s, tid, peeked, owned)
  {
    Retask(s.tasks, tid, busy, busy);
    if s.buffer != [] {
      var popped := s.(buffer := s.buffer[1..], fates := s.fates + [if s.buffer[0] == peeked then Flushed else Mispopped]);
      ProceedForgets(popped, tid, busy, owned);
      if popped.buffer != [] {
        Retask(s.tasks, tid, busy, Flushing(popped.buffer[0], 0, owned, First(s.connected)));
      }
    }
  }

  /** An attempt's outcome depends neither on what the coroutine awaited nor, if it is the last, on its number. */
  lemma AttemptForgets(s: State, tid: nat, attempt: nat, phase: Phase, outcome: Net)
    requires tid in s.tasks
    requires attempt == s.tasks[tid].attempt || outcome.Ok?
    ensures AfterAttempt(s.(tasks := s.tasks[tid := s.tasks[tid].(attempt := attempt, phase := phase)]), tid, outcome) ==
            AfterAttempt(s, tid, outcome)
  {
    hide Pop, Proceed;
    var task, busy := s.tasks[tid], s.tasks[tid].(attempt := attempt, phase := phase);
    var sent := Send(s, task.Target(), outcome);
    Retask(s.tasks, tid, busy, task.(attempt := attempt + 1, phase := Sleeping));
    if task.Flushing? {
      PopForgets(sent, tid, busy, task.peeked, task.owned);
      ProceedForgets(sent.(connected := false), tid, busy, task.owned);
    }
  }

  lemma AttemptRun(s: State, tid: nat, x: Attempt, connected: bool)
    requires In(s, tid, First(connected)) && s.connected
    ensures ValidRun(s, AttemptSteps(tid, x, connected))
    ensures Run(s, AttemptSteps(tid, x, connected)) == AfterAttempt(s, tid, x.Outcome(connected))
  {
    hide Fail, Succeed;
    if connected {
      RunOne(s, Try(tid, x.command));
    } else {
      RunOne(s, Connected(tid, x.connect));
      if x.connect.Ok? {
        var joined := s.(tasks := s.tasks[tid := s.tasks[tid].(phase := Sending)]);
        RunOne(joined, Try(tid, x.command));
        RunAppend(s, [Connected(tid, x.connect)], [Try(tid, x.command)]);
        AttemptForgets(s, tid, s.tasks[tid].attempt, Sending, x.command);
      }
    }
  }

  /** The awaits of `n` attempts, with a sleep after each failed one. */
  function PublishSteps(tid: nat, net: nat -> Attempt, n: nat, connected: bool): seq<Step> {
    if n == 0 then []
    else if n == 1 then AttemptSteps(tid, net(0), connected)
    else PublishSteps(tid, net, n - 1, connected) + [Wake(tid)] + AttemptSteps(tid, net(n - 1), false)
  }

  /** A publish asleep after some unsuccessful attempts. */
  function Waiting(s: State, tid: nat, outcomes: seq<Net>): State
    requires tid in s.tasks
  {
    var task := s.tasks[tid];
    s.(published := s.published + Repeat(task.Target(), Effects(outcomes)),
       tasks := s.tasks[tid := task.(attempt := |outcomes|, phase := Sleeping)],
       connected := false)
  }

  /** The state in which the next attempt awaits something. */
  function Resumed(s: State, tid: nat, outcomes: seq<Net>): State
    requires tid in s.tasks
  {
    if outcomes == [] then s
    else
      Waiting(s, tid, outcomes).(
        tasks := s.tasks[tid := s.tasks[tid].(attempt := |outcomes|, phase := Connecting)], connected := true)
  }

  lemma EffectsStep(outcomes: seq<Net>, e: AttackEvent)
    requires outcomes != []
    ensures var n := |outcomes| - 1;
            Repeat(e, Effects(outcomes)) ==
            Repeat(e, Effects(outcomes[..n])) + (if outcomes[n].Refused? then [] else [e])
  {}

  lemma WakeUp(s: State, tid: nat, outcomes: seq<Net>)
    requires tid in s.tasks && outcomes != []
    ensures Enabled(Waiting(s, tid, outcomes), Wake(tid))
    ensures Apply(Waiting(s, tid, outcomes), Wake(tid)) == Resumed(s, tid, outcomes)
  {}

  lemma FailedAttempt(s: State, tid: nat, outcomes: seq<Net>)
    requires tid in s.tasks && s.tasks[tid].attempt == 0 && 0 < |outcomes| < MAX_RETRIES
    requires !outcomes[|outcomes| - 1].Ok?
    ensures AfterAttempt(Resumed(s, tid, outcomes[..|outcomes| - 1]), tid, outcomes[|outcomes| - 1]) ==
            Waiting(s, tid, outcomes)
  {
    EffectsStep(outcomes, s.tasks[tid].Target());
    var before := Resumed(s, tid, outcomes[..|outcomes| - 1]);
    var after := AfterAttempt(before, tid, outcomes[|outcomes| - 1]);
    assert after.tasks == Waiting(s, tid, outcomes).tasks;
    assert after.published == Waiting(s, tid, outcomes).published;
  }

  /** The machine follows a publish up to its attempt number `n`, counted from 0. */
  lemma {:induction false} PublishReaches(s: State, tid: nat, net: nat -> Attempt, outcomes: seq<Net>, connected: bool)
    requires In(s, tid, First(connected)) && s.connected && s.tasks[tid].attempt == 0
    requires 0 < |outcomes| <= MAX_RETRIES && Follows(outcomes, net, connected)
    requires forall i | 0 <= i < |outcomes| - 1 :: !outcomes[i].Ok?
    ensures var n := |outcomes| - 1;
            ValidRun(s, PublishSteps(tid, net, n + 1, connected)) &&
            Run(s, PublishSteps(tid, net, n + 1, connected)) == AfterAttempt(Resumed(s, tid, outcomes[..n]), tid, outcomes[n])
  {
    hide AfterAttempt, Resumed, Waiting, AttemptSteps, Enabled, Apply;
    var n := |outcomes| - 1;
    var first := outcomes[..n];
    if n == 0 {
      NotYet(s, tid);
      AttemptRun(s, tid, net(0), connected);
    } else {
      PublishReaches(s, tid, net, first, connected);
      FailedAttempt(s, tid, first);
      WakeUp(s, tid, first);
      RunOne(Waiting(s, tid, first), Wake(tid));
      ResumedIsReady(s, tid, first);
      AttemptRun(Resumed(s, tid, first), tid, net(n), false);
      var steps := PublishSteps(tid, net, n, connected);
      RunAppend(s, steps, [Wake(tid)]);
      RunAppend(s, steps + [Wake(tid)], AttemptSteps(tid, net(n), false));
    }
  }

  lemma NotYet(s: State, tid: nat)
    requires tid in s.tasks
    ensures Resumed(s, tid, []) == s
  {}

  lemma ResumedIsReady(s: State, tid: nat, outcomes: seq<Net>)
    requires tid in s.tasks && outcomes != []
    ensures In(Resumed(s, tid, outcomes), tid, First(false)) && Resumed(s, tid, outcomes).connected
  {}

  /** Where a coroutine stands once its `publish` has returned or raised. */
  function Finish(s: State, tid: nat, task: Task, success: bool): State {
    var idle := s.(connected := success);
    if success then
      if task.Publishing? then idle.(tasks := s.tasks - {tid}) else Pop(idle, tid, task.peeked, task.owned)
    else
      if task.Publishing? then Append(idle.(tasks := s.tasks - {tid}), task.event)
      else Proceed(idle, tid, task.owned)
  }

  lemma ResumedShape(s: State, tid: nat, outcomes: seq<Net>)
    requires tid in s.tasks && s.connected && s.tasks[tid].attempt == 0
    ensures tid in Resumed(s, tid, outcomes).tasks
    ensures var task, r := s.tasks[tid], Resumed(s, tid, outcomes);
            r == s.(published := s.published + Repeat(task.Target(), Effects(outcomes)),
                    tasks := s.tasks[tid := task.(attempt := |outcomes|, phase := r.tasks[tid].phase)])
  {}

  /** What the last attempt leaves in the stream. */
  lemma LastSend(s: State, tid: nat, outcomes: seq<Net>)
    requires tid in s.tasks && s.connected && s.tasks[tid].attempt == 0 && outcomes != []
    ensures var n, task := |outcomes| - 1, s.tasks[tid];
            tid in Resumed(s, tid, outcomes[..n]).tasks &&
            var phase := Resumed(s, tid, outcomes[..n]).tasks[tid].phase;
            Send(Resumed(s, tid, outcomes[..n]), task.Target(), outcomes[n]) ==
            s.(published := s.published + Repeat(task.Target(), Effects(outcomes)),
               tasks := s.tasks[tid := task.(attempt := n, phase := phase)])
  {
    hide Resumed, Repeat, Effects;
    var n, e := |outcomes| - 1, s.tasks[tid].Target();
    EffectsStep(outcomes, e);
    ResumedShape(s, tid, outcomes[..n]);
    var sent := if outcomes[n].Refused? then [] else [e];
    assert s.published + Repeat(e, Effects(outcomes[..n])) + sent ==
           s.published + (Repeat(e, Effects(outcomes[..n])) + sent);
  }

  /** The last attempt of a publish. */
  lemma LastAttemptEnds(s: State, tid: nat, outcomes: seq<Net>, success: bool)
    requires tid in s.tasks && s.connected && s.tasks[tid].attempt == 0 && PublishTrace(outcomes, success)
    ensures var n, task := |outcomes| - 1, s.tasks[tid];
            AfterAttempt(Resumed(s, tid, outcomes[..n]), tid, outcomes[n]) ==
            Finish(s.(published := s.published + Repeat(task.Target(), Effects(outcomes))), tid, task, success)
  {
    hide Pop, Proceed, Append, Effects;
    var n, task := |outcomes| - 1, s.tasks[tid];
    var before := Resumed(s, tid, outcomes[..n]);
    var busy := task.(attempt := n, phase := before.tasks[tid].phase);
    LastSend(s, tid, outcomes);
    ResumedTask(s, tid, outcomes[..n]);
    hide Send, Resumed;
    var full := s.(published := s.published + Repeat(task.Target(), Effects(outcomes)));
    Retask(s.tasks, tid, busy, busy);
    if task.Flushing? {
      PopForgets(full, tid, busy, task.peeked, task.owned);
      ProceedForgets(full.(connected := false), tid, busy, task.owned);
    }
  }

  lemma ResumedTask(s: State, tid: nat, outcomes: seq<Net>)
    requires tid in s.tasks && s.tasks[tid].attempt == 0
    ensures tid in Resumed(s, tid, outcomes).tasks
    ensures Resumed(s, tid, outcomes).tasks[tid].Target() == s.tasks[tid].Target()
  {}

  /** A whole `publish` call, as steps of the machine. */
  lemma PublishRun(s: State, tid: nat, net: nat -> Attempt, outcomes: seq<Net>, success: bool, connected: bool)
    requires In(s, tid, First(connected)) && s.connected && s.tasks[tid].attempt == 0
    requires PublishTrace(outcomes, success) && Follows(outcomes, net, connected)
    ensures ValidRun(s, PublishSteps(tid, net, |outcomes|, connected))
    ensures var task := s.tasks[tid];
            Run(s, PublishSteps(tid, net, |outcomes|, connected)) ==
            Finish(s.(published := s.published + Repeat(task.Target(), Effects(outcomes))), tid, task, success)
  {
    PublishReaches(s, tid, net, outcomes, connected);
    LastAttemptEnds(s, tid, outcomes, success);
  }

  lemma FinishKeepsPublished(s: State, tid: nat, task: Task, success: bool)
    ensures Finish(s, tid, task, success).published == s.published
  {}

  // ----- The hypotheses of the conservation theorem are needed -----

  const OUTAGE: seq<Net> := [Refused, Refused, Refused, Refused, Refused]

  function Down(): nat -> Attempt {
    _ => Attempt(Refused, Refused)
  }

  lemma RefusedHaveNoEffect(outcomes: seq<Net>)
    requires forall i | 0 <= i < |outcomes| :: outcomes[i].Refused?
    ensures Effects(outcomes) == 0
  {}

  /** The schedule of one `publish` during an outage. */
  function OutageSteps(tid: nat, connected: bool): seq<Step> {
    PublishSteps(tid, Down(), MAX_RETRIES, connected)
  }

  lemma OutageTries(s: State, tid: nat, connected: bool)
    requires In(s, tid, First(connected)) && s.connected && s.tasks[tid].attempt == 0
    ensures ValidRun(s, OutageSteps(tid, connected))
    ensures Run(s, OutageSteps(tid, connected)) == Finish(s, tid, s.tasks[tid], false)
  {
    hide Finish, Run, ValidRun, PublishSteps;
    PublishRun(s, tid, Down(), OUTAGE, false, connected);
    RefusedHaveNoEffect(OUTAGE);
    assert s.published + Repeat(s.tasks[tid].Target(), 0) == s.published;
  }

  /** The schedule of one `emit_event` during an outage. */
  function EmitDuringOutage(s: State, tid: nat, e: AttackEvent): seq<Step> {
    [Emit(tid, e)] +
    if s.buffer != [] then OutageSteps(tid, s.connected) + OutageSteps(tid, false) else OutageSteps(tid, s.connected)
  }

  lemma EmitBuffers(s: State, tid: nat, e: AttackEvent)
    requires s.tasks == map[] && e !in s.emitted
    ensures ValidRun(s, EmitDuringOutage(s, tid, e))
    ensures Run(s, EmitDuringOutage(s, tid, e)) == Append(s.(emitted := s.emitted + {e}, connected := false), e)
  {
    hide Run, ValidRun, OutageSteps;
    var step := Emit(tid, e);
    var begun := Apply(s, step);
    RunOne(s, step);
    OutageTries(begun, tid, s.connected);
    RunAppend(s, [step], OutageSteps(tid, s.connected));
    if s.buffer != [] {
      var flushed := Finish(begun, tid, begun.tasks[tid], false);
      OutageTries(flushed, tid, false);
      RunAppend(s, [step] + OutageSteps(tid, s.connected), OutageSteps(tid, false));
      assert flushed == s.(emitted := s.emitted + {e}, connected := true, tasks := map[tid := Publishing(e, 0, Connecting)]);
      assert [step] + (OutageSteps(tid, s.connected) + OutageSteps(tid, false)) ==
             [step] + OutageSteps(tid, s.connected) + OutageSteps(tid, false);
    }
  }

  function Set(events: seq<AttackEvent>): set<AttackEvent> {
    set e | e in events
  }

  /** The machine when an outage has left these events in the buffer. */
  function Filled(events: seq<AttackEvent>): State {
    State(events, map[], [], Set(events), events, [], {}, events == [])
  }

  // ----- A coroutine on its own keeps all conditions -----

  predicate StepOf(step: Step, tid: nat) {
    (step.Emit? || step.Timer? || step.Connected? || step.Try? || step.Wake?) && step.tid == tid
  }

  predicate StepsOf(steps: seq<Step>, tid: nat) {
    forall i | 0 <= i < |steps| :: StepOf(steps[i], tid)
  }

  predicate Solo(s: State, tid: nat) {
    forall t | t in s.tasks :: t == tid
  }

  lemma {:induction false} PublishStepsOf(tid: nat, net: nat -> Attempt, n: nat, connected: bool)
    ensures StepsOf(PublishSteps(tid, net, n, connected), tid)
  {
    if n > 1 {
      PublishStepsOf(tid, net, n - 1, connected);
    }
  }

  lemma SoloStep(s: State, step: Step, tid: nat, c: Condition)
    requires Solo(s, tid) && Enabled(s, step) && StepOf(step, tid)
    ensures Keeps(s, step, c)
    ensures Solo(Apply(s, step), tid)
  {}

  lemma {:induction false} SoloKeeps(s: State, steps: seq<Step>, tid: nat, c: Condition)
    requires Solo(s, tid) && ValidRun(s, steps) && StepsOf(steps, tid)
    ensures KeepsThroughout(s, steps, c)
    decreases |steps|
  {
    hide Solo, Keeps, Apply, Enabled, StepOf;
    if steps != [] {
      SoloStep(s, steps[0], tid, c);
      SoloKeeps(Apply(s, steps[0]), steps[1..], tid, c);
    }
  }

  lemma {:induction false} KeepsAppend(s: State, first: seq<Step>, more: seq<Step>, c: Condition)
    requires ValidRun(s, first) && ValidRun(Run(s, first), more)
    requires KeepsThroughout(s, first, c) && KeepsThroughout(Run(s, first), more, c)
    ensures ValidRun(s, first + more) && KeepsThroughout(s, first + more, c)
    decreases |first|
  {
    RunAppend(s, first, more);
    if first == [] {
      assert first + more == more;
    } else {
      KeepsAppend(Apply(s, first[0]), first[1..], more, c);
      assert (first + more)[1..] == first[1..] + more;
    }
  }

  // ----- Witness runs, each breaking one condition only -----

  /** A run from the start to `s` that keeps every condition but `c`. */
  ghost predicate Reaches(steps: seq<Step>, s: State, c: Condition) {
    ValidRun(INIT, steps) && Run(INIT, steps) == s && KeepsAllBut(steps, c)
  }

  ghost predicate KeepsAllBut(steps: seq<Step>, c: Condition)
    requires ValidRun(INIT, steps)
  {
    forall d: Condition | d != c :: KeepsThroughout(INIT, steps, d)
  }

  ghost predicate StepKeepsAllBut(s: State, step: Step, c: Condition)
    requires Enabled(s, step)
  {
    forall d: Condition | d != c :: Keeps(s, step, d)
  }

  /** More steps of a coroutine on its own. */
  lemma Prolong(steps: seq<Step>, s: State, more: seq<Step>, tid: nat, c: Condition)
    requires Reaches(steps, s, c) && ValidRun(s, more) && Solo(s, tid) && StepsOf(more, tid)
    ensures Reaches(steps + more, Run(s, more), c)
  {
    RunAppend(INIT, steps, more);
    forall d: Condition | d != c
      ensures KeepsThroughout(INIT, steps + more, d)
    {
      SoloKeeps(s, more, tid, d);
      KeepsAppend(INIT, steps, more, d);
    }
    hide Run, ValidRun, KeepsThroughout;
  }

  lemma Extend(steps: seq<Step>, step: Step, s: State, c: Condition) returns (longer: seq<Step>)
    requires Reaches(steps, s, c) && Enabled(s, step) && StepKeepsAllBut(s, step, c)
    ensures longer == steps + [step]
    ensures Reaches(longer, Apply(s, step), c)
  {
    RunOne(s, step);
    RunAppend(INIT, steps, [step]);
    longer := steps + [step];
    forall d: Condition | d != c
      ensures KeepsThroughout(INIT, longer, d)
    {
      assert Keeps(s, step, d);
      KeepsOne(s, step, d);
      KeepsAppend(INIT, steps, [step], d);
    }
    hide Run, ValidRun, KeepsThroughout;
  }

  lemma KeepsOne(s: State, step: Step, c: Condition)
    requires Enabled(s, step) && Keeps(s, step, c)
    ensures ValidRun(s, [step]) && KeepsThroughout(s, [step], c)
  {
    RunOne(s, step);
    assert [step][1..] == [];
  }

  lemma NoSteps(c: Condition)
    ensures Reaches([], INIT, c)
  {}

  lemma OutageStepsOf(s: State, tid: nat, e: AttackEvent)
    ensures StepsOf(EmitDuringOutage(s, tid, e), tid)
  {
    PublishStepsOf(tid, Down(), MAX_RETRIES, s.connected);
    PublishStepsOf(tid, Down(), MAX_RETRIES, false);
  }

  /** An outage at the start leaves every event in the buffer. */
  lemma {:induction false} FillBuffer(events: seq<AttackEvent>, c: Condition) returns (steps: seq<Step>)
    requires |events| <= MAX_BUFFER_SIZE
    requires Distinct(events)
    ensures Reaches(steps, Filled(events), c)
  {
    hide Reaches, EmitDuringOutage;
    if events == [] {
      steps := [];
      NoSteps(c);
      assert Set(events) == {} && Filled(events) == INIT;
    } else {
      var n := |events| - 1;
      steps := FillBuffer(events[..n], c);
      var s := Filled(events[..n]);
      EmitBuffers(s, 0, events[n]);
      OutageStepsOf(s, 0, events[n]);
      Prolong(steps, s, EmitDuringOutage(s, 0, events[n]), 0, c);
      steps := steps + EmitDuringOutage(s, 0, events[n]);
      assert events == events[..n] + [events[n]];
      assert Set(events) == Set(events[..n]) + {events[n]};
      assert Run(s, EmitDuringOutage(s, 0, events[n])) == Filled(events);
    }
  }

  /** Two `emit_event` calls that overlap over one buffered event: the second dies, and its event with it. */
  lemma OverlappingFlushersLose(a: AttackEvent, b: AttackEvent, c: AttackEvent) returns (steps: seq<Step>)
    requires a != b && a != c && b != c
    ensures ValidRun(INIT, steps) && Lost(Run(INIT, steps), c) && KeepsAllBut(steps, OneFlusher)
  {
    hide Run, ValidRun, Lost, KeepsAllBut;
    var s;
    steps, s := BothFlush(a, b, c);
    steps := Extend(steps, Try(1, Ok), s, OneFlusher);
    var popped := State([], map[1 := Publishing(b, 0, Sending), 2 := Flushing(a, 0, Some(c), Sending)], [a], {a, b, c},
                        [a], [Flushed], {}, true);
    assert Apply(s, Try(1, Ok)) == popped;
    steps := Extend(steps, Try(2, Ok), popped, OneFlusher);
    OverlapEnds(a, b, c, popped);
  }

  lemma BothFlush(a: AttackEvent, b: AttackEvent, c: AttackEvent) returns (steps: seq<Step>, s: State)
    requires a != b && a != c && b != c
    ensures Reaches(steps, s, OneFlusher)
    ensures s == State([a], map[1 := Flushing(a, 0, Some(b), Sending), 2 := Flushing(a, 0, Some(c), Sending)], [],
                       {a, b, c}, [a], [], {}, true)
  {
    hide Reaches;
    steps := FillBuffer([a], OneFlusher);
    var s0 := Filled([a]);
    steps := Extend(steps, Emit(1, b), s0, OneFlusher);
    var s1 := Apply(s0, Emit(1, b));
    steps := Extend(steps, Connected(1, Ok), s1, OneFlusher);
    var s2 := Apply(s1, Connected(1, Ok));
    steps := Extend(steps, Emit(2, c), s2, OneFlusher);
    s := Apply(s2, Emit(2, c));
  }

  lemma OverlapEnds(a: AttackEvent, b: AttackEvent, c: AttackEvent, s: State)
    requires a != b && a != c && b != c
    requires s == State([], map[1 := Publishing(b, 0, Sending), 2 := Flushing(a, 0, Some(c), Sending)], [a], {a, b, c},
                        [a], [Flushed], {}, true)
    ensures Lost(Apply(s, Try(2, Ok)), c)
  {}

  /**
   Two `emit_event` calls whose attempts fail in turn: the first reconnects, the second's failure drops
   the client under it, and resuming it hits an assertion that nobody catches.
   */
  lemma DroppedClientLoses(a: AttackEvent, b: AttackEvent) returns (steps: seq<Step>)
    requires a != b
    ensures ValidRun(INIT, steps) && Lost(Run(INIT, steps), a) && KeepsAllBut(steps, ClientKept)
    ensures forall step | step in steps :: !step.Disturb? && !step.Cancel?
  {
    hide Run, ValidRun, Lost, KeepsAllBut;
    var s;
    steps, s := Reconnecting(a, b);
    steps := Extend(steps, Try(2, Refused), s, ClientKept);
    var dropped := s.(connected := false, tasks := map[1 := Publishing(a, 1, Connecting), 2 := Publishing(b, 1, Sleeping)]);
    assert Apply(s, Try(2, Refused)) == dropped;
    steps := Extend(steps, Connected(1, Ok), dropped, ClientKept);
    DroppedEnds(a, b, dropped);
  }

  lemma Reconnecting(a: AttackEvent, b: AttackEvent) returns (steps: seq<Step>, s: State)
    requires a != b
    ensures Reaches(steps, s, ClientKept)
    ensures s == INIT.(emitted := {a, b}, tasks := map[1 := Publishing(a, 1, Connecting), 2 := Publishing(b, 0, Sending)])
    ensures forall step | step in steps :: !step.Disturb? && !step.Cancel?
  {
    hide Reaches;
    NoSteps(ClientKept);
    steps := Extend([], Emit(1, a), INIT, ClientKept);
    var s1 := Apply(INIT, Emit(1, a));
    steps := Extend(steps, Emit(2, b), s1, ClientKept);
    var s2 := Apply(s1, Emit(2, b));
    steps := Extend(steps, Try(1, Refused), s2, ClientKept);
    var s3 := Apply(s2, Try(1, Refused));
    steps := Extend(steps, Wake(1), s3, ClientKept);
    s := Apply(s3, Wake(1));
  }

  lemma DroppedEnds(a: AttackEvent, b: AttackEvent, s: State)
    requires a != b
    requires s == INIT.(emitted := {a, b}, connected := false,
                        tasks := map[1 := Publishing(a, 1, Connecting), 2 := Publishing(b, 1, Sleeping)])
    ensures Lost(Apply(s, Connected(1, Ok)), a)
  {}

  /** An `emit_event` cancelled while its XADD is under way and does not take effect. */
  lemma CancelledEmitLoses(a: AttackEvent) returns (steps: seq<Step>)
    ensures ValidRun(INIT, steps) && Lost(Run(INIT, steps), a) && KeepsAllBut(steps, NoEmitCancelled)
  {
    hide Run, ValidRun, KeepsAllBut;
    NoSteps(NoEmitCancelled);
    steps := Extend([], Emit(1, a), INIT, NoEmitCancelled);
    var s := INIT.(emitted := {a}, tasks := map[1 := Publishing(a, 0, Sending)]);
    assert Apply(INIT, Emit(1, a)) == s;
    steps := Extend(steps, Cancel(1, Refused), s, NoEmitCancelled);
    assert Apply(s, Cancel(1, Refused)).tasks == map[];
  }

  /** One flusher, and an append that overflows the full buffer during its await: the flusher pops the wrong event. */
  lemma OverflowDuringFlushLoses(events: seq<AttackEvent>, x: AttackEvent) returns (steps: seq<Step>)
    requires |events| == 10000 && x !in events
    requires Distinct(events)
    ensures ValidRun(INIT, steps) && Lost(Run(INIT, steps), events[1]) && KeepsAllBut(steps, NoOverflow)
    ensures Mispopped in Run(INIT, steps).fates
  {
    hide Run, ValidRun, KeepsAllBut;
    var s;
    steps, s := FlushAtLastAttempt(events, x);
    steps := Extend(steps, Try(0, Refused), s, NoOverflow);
    var overflowed := State(events[1..] + [x], map[1 := Flushing(events[0], 0, None, Sending)], [], s.emitted,
                            events + [x], [Evicted], {}, false);
    assert Apply(s, Try(0, Refused)) == overflowed;
    steps := Extend(steps, Try(1, Ok), overflowed, NoOverflow);
    OverflowEnds(events, x, overflowed);
  }

  /** A full buffer being flushed while a coroutine makes its last attempt to publish one more event. */
  lemma FlushAtLastAttempt(events: seq<AttackEvent>, x: AttackEvent) returns (steps: seq<Step>, s: State)
    requires |events| == MAX_BUFFER_SIZE && x !in events && Distinct(events)
    ensures Reaches(steps, s, NoOverflow)
    ensures s == Filled(events).(emitted := Set(events) + {x}, connected := true,
                                 tasks := map[0 := Publishing(x, 4, Sending), 1 := Flushing(events[0], 0, None, Sending)])
  {
    hide Reaches;
    var s3;
    steps, s3 := AlmostGivenUp(events, x);
    steps := Extend(steps, Timer(1), s3, NoOverflow);
    var s4 := Apply(s3, Timer(1));
    steps := Extend(steps, Connected(1, Ok), s4, NoOverflow);
    var s5 := Apply(s4, Connected(1, Ok));
    steps := Extend(steps, Wake(0), s5, NoOverflow);
    s := Apply(s5, Wake(0));
  }

  /** A full buffer, and a coroutine asleep before its last attempt to publish one more event. */
  lemma AlmostGivenUp(events: seq<AttackEvent>, x: AttackEvent) returns (steps: seq<Step>, s: State)
    requires |events| == MAX_BUFFER_SIZE && x !in events && Distinct(events)
    ensures Reaches(steps, s, NoOverflow)
    ensures s == Filled(events).(emitted := Set(events) + {x}, tasks := map[0 := Publishing(x, 4, Sleeping)])
  {
    hide Reaches, OutageSteps, PublishSteps, AfterAttempt, ValidRun, Run;
    steps := FillBuffer(events, NoOverflow);
    var s0 := Filled(events);
    steps := Extend(steps, Emit(0, x), s0, NoOverflow);
    var s1 := Apply(s0, Emit(0, x));
    OutageTries(s1, 0, false);
    OutageIsSteps();
    PublishStepsOf(0, Down(), MAX_RETRIES, false);
    Prolong(steps, s1, OutageSteps(0, false), 0, NoOverflow);
    steps := steps + OutageSteps(0, false);
    var s2 := Finish(s1, 0, s1.tasks[0], false);
    PublishReaches(s2, 0, Down(), OUTAGE[1..], false);
    FailedAttempt(s2, 0, OUTAGE[1..]);
    RefusedHaveNoEffect(OUTAGE[1..]);
    PublishStepsOf(0, Down(), 4, false);
    Prolong(steps, s2, PublishSteps(0, Down(), 4, false), 0, NoOverflow);
    steps := steps + PublishSteps(0, Down(), 4, false);
    s := Waiting(s2, 0, OUTAGE[1..]);
  }

  lemma OutageIsSteps()
    ensures OutageSteps(0, false) == PublishSteps(0, Down(), MAX_RETRIES, false)
  {}

  lemma OverflowEnds(events: seq<AttackEvent>, x: AttackEvent, s: State)
    requires |events| == MAX_BUFFER_SIZE && x !in events && Distinct(events)
    requires s == State(events[1..] + [x], map[1 := Flushing(events[0], 0, None, Sending)], [], Set(events) + {x},
                        events + [x], [Evicted], {}, false)
    ensures Lost(Apply(s, Try(1, Ok)), events[1])
    ensures Apply(s, Try(1, Ok)).fates == [Evicted, Mispopped]
  {}

  /** The stream entries of the events a honeypot has published since it had published `before`. */
  function Entries(events: seq<AttackEvent>): (entries: seq<Payload>)
    ensures |entries| == |events|
  {
    seq(|events|, i requires 0 <= i < |events| => Event(events[i]))
  }

  /** The network as one coroutine meets it: attempt by attempt, publish by publish. */
  type Network = nat -> nat -> Attempt

  class BaseHoneypot {
    const queue: EventQueue
    var buffer: seq<AttackEvent>
    /** The machine state this honeypot is in. */
    ghost var state: State

    ghost predicate Valid()
      reads this
    {
      Inv(state) && state.buffer == buffer
    }

    constructor (queue: EventQueue)
      ensures Valid() && state == INIT && buffer == [] && this.queue == queue
    {
      this.queue, buffer, state := queue, [], INIT;
    }

    /** `steps` takes the machine from one state to another, and the stream grows by what it published. */
    static ghost predicate IsRun(s: State, steps: seq<Step>, t: State, stream: seq<Payload>, grown: seq<Payload>) {
      ValidRun(s, steps) && Run(s, steps) == t &&
      s.published <= t.published &&
      grown == stream + Entries(t.published[|s.published|..])
    }

    /** Only what coroutine `tid` itself does inside `publish`. */
    static predicate OnlyTries(steps: seq<Step>, tid: nat) {
      forall i | 0 <= i < |steps| ::
        (steps[i].Try? || steps[i].Connected? || steps[i].Wake?) && steps[i].tid == tid
    }

    static lemma PublishOnlyTries(tid: nat, net: nat -> Attempt, n: nat, connected: bool)
      ensures OnlyTries(PublishSteps(tid, net, n, connected), tid)
    {}

    static lemma TriesJoin(a: seq<Step>, b: seq<Step>, tid: nat)
      requires OnlyTries(a, tid) && OnlyTries(b, tid)
      ensures OnlyTries(a + b, tid)
    {}

    static lemma NoTries(tid: nat)
      ensures OnlyTries([], tid)
    {}

    static lemma RunsJoin(s: State, first: seq<Step>, t: State, more: seq<Step>, u: State,
                          stream: seq<Payload>, mid: seq<Payload>, end: seq<Payload>)
      requires IsRun(s, first, t, stream, mid) && IsRun(t, more, u, mid, end)
      ensures IsRun(s, first + more, u, stream, end)
    {
      RunAppend(s, first, more);
      assert Entries(u.published[|s.published|..]) ==
             Entries(t.published[|s.published|..]) + Entries(u.published[|t.published|..]);
    }

    static lemma NoRun(s: State, stream: seq<Payload>)
      ensures IsRun(s, [], s, stream, stream)
    {}

    /** One `publish` awaited by coroutine `tid`, which is about to connect if there is no client. */
    method Send(event: AttackEvent, net: nat -> Attempt, ghost tid: nat) returns (ok: bool, ghost steps: seq<Step>)
      requires Valid() && state.connected && In(state, tid, First(queue.connected))
      requires state.tasks[tid].attempt == 0 && state.tasks[tid].Target() == event
      modifies this`state, queue`connected, queue.server
      ensures IsRun(old(state), steps, state, old(queue.server.stream), queue.server.stream) && OnlyTries(steps, tid)
      ensures Inv(state) && old(queue.server.stream) <= queue.server.stream
      ensures ok ==> Event(event) in queue.server.stream && event in state.published
      ensures state == Finish(old(state).(published := state.published), tid, old(state).tasks[tid], ok)
      ensures queue.connected == ok
    {
      hide Ledger, Ownership, Finish, Run, ValidRun, PublishSteps;
      ghost var connected := queue.connected;
      var entry, outcomes := queue.Publish(event, net);
      ok := entry.Some?;
      steps := PublishSteps(tid, net, |outcomes|, connected);
      PublishOnlyTries(tid, net, |outcomes|, connected);
      PublishRun(state, tid, net, outcomes, ok, connected);
      RunKeepsInv(state, steps);
      FinishKeepsPublished(state.(published := state.published + Repeat(event, Effects(outcomes))), tid, state.tasks[tid], ok);
      ghost var n := Effects(outcomes);
      state := Run(state, steps);
      assert state.published == old(state).published + Repeat(event, n);
      assert Entries(Repeat(event, n)) == Copies(event, n);
      assert state.published[|old(state).published|..] == Repeat(event, n);
      if ok {
        EffectsStep(outcomes, event);
        assert n >= 1;
        assert queue.server.stream[|old(queue.server.stream)|] == Event(event);
        assert state.published[|old(state).published|] == event;
      }
    }

    /** Every one of these events has an entry in the stream. */
    static ghost predicate AllIn(events: seq<AttackEvent>, stream: seq<Payload>) {
      forall i | 0 <= i < |events| :: Event(events[i]) in stream
    }

    static lemma AllInGrows(events: seq<AttackEvent>, event: AttackEvent, stream: seq<Payload>, grown: seq<Payload>)
      requires AllIn(events, stream) && stream <= grown
      ensures AllIn(events, grown)
      ensures Event(event) in grown ==> AllIn(events + [event], grown)
    {}

    static lemma AllInNone(stream: seq<Payload>)
      ensures AllIn([], stream)
    {}

    /** The coroutines once `tid` has stopped flushing. */
    static ghost function AfterFlush(tasks: map<nat, Task>, tid: nat, owned: Option<AttackEvent>, connected: bool)
      : (after: map<nat, Task>)
    {
      if owned.Some? then tasks[tid := Publishing(owned.value, 0, First(connected))] else tasks - {tid}
    }

    /** One round of the flush loop, when nobody else has touched the buffer meanwhile. */
    static lemma RoundEnds(s: State, tid: nat, owned: Option<AttackEvent>, phase: Phase, ok: bool)
      requires s.buffer != []
      ensures var next := Finish(s, tid, Flushing(s.buffer[0], 0, owned, phase), ok);
              next.buffer == (if ok then s.buffer[1..] else s.buffer) &&
              next.connected == (ok || owned.Some?) &&
              next.tasks == if ok && s.buffer[1..] != [] then s.tasks[tid := Flushing(s.buffer[1], 0, owned, Sending)]
                            else AfterFlush(s.tasks, tid, owned, ok)
    {}

    static lemma AgainRetask(tasks: map<nat, Task>, tid: nat, busy: Task, owned: Option<AttackEvent>, connected: bool)
      ensures AfterFlush(tasks[tid := busy], tid, owned, connected) == AfterFlush(tasks, tid, owned, connected)
    {}

    /**
     Publishes buffered events oldest first until one fails. Called by coroutine `tid`, which then
     goes on with its own event `owned`, if any.
     */
    method FlushBuffer(net: Network, ghost tid: nat, ghost owned: Option<AttackEvent>) returns (ghost steps: seq<Step>)
      requires Valid() && buffer != [] && tid in state.tasks && state.connected
      requires state.tasks[tid] == Flushing(buffer[0], 0, owned, First(queue.connected))
      modifies this, queue`connected, queue.server
      ensures Valid()
      ensures IsRun(old(state), steps, state, old(queue.server.stream), queue.server.stream) && OnlyTries(steps, tid)
      ensures state.tasks == AfterFlush(old(state).tasks, tid, owned, queue.connected)
      ensures state.connected == (queue.connected || owned.Some?)
      ensures Kept(old(buffer), buffer, None, queue.server.stream)
    {
      hide Ledger, Ownership, Run, ValidRun, IsRun, Finish, AllIn, OnlyTries, AfterFlush;
      steps := [];
      ghost var flushed, phase := 0, First(queue.connected);
      var going := true;
      var round := 0;
      NoRun(state, queue.server.stream);
      NoTries(tid);
      AllInNone(queue.server.stream);
      assert old(state).tasks[tid := state.tasks[tid]] == state.tasks;
      while going && buffer != []
        invariant Valid()
        invariant IsRun(old(state), steps, state, old(queue.server.stream), queue.server.stream)
        invariant OnlyTries(steps, tid)
        invariant flushed <= |old(buffer)| && buffer == old(buffer)[flushed..]
        invariant AllIn(old(buffer)[..flushed], queue.server.stream)
        invariant phase == First(queue.connected)
        invariant going && buffer != [] ==>
                    state.connected && state.tasks == old(state).tasks[tid := Flushing(buffer[0], 0, owned, phase)]
        invariant !(going && buffer != []) ==>
                    state.connected == (queue.connected || owned.Some?) &&
                    state.tasks == AfterFlush(old(state).tasks, tid, owned, queue.connected)
        decreases going, |buffer|
      {
        var event := buffer[0];
        ghost var mid, midStream := state, queue.server.stream;
        var ok, more := Send(event, net(round), tid);
        RoundEnds(mid.(published := state.published), tid, owned, phase, ok);
        RunsJoin(old(state), steps, mid, more, state, old(queue.server.stream), midStream, queue.server.stream);
        TriesJoin(steps, more, tid);
        AllInGrows(old(buffer)[..flushed], event, midStream, queue.server.stream);
        AgainRetask(old(state).tasks, tid, mid.tasks[tid], owned, ok);
        if ok && buffer[1..] != [] {
          Retask(old(state).tasks, tid, mid.tasks[tid], Flushing(buffer[1], 0, owned, Sending));
        }
        steps, phase := steps + more, First(queue.connected);
        round := round + 1;
        if ok {
          buffer := buffer[1..];
          flushed := flushed + 1;
          assert old(buffer)[..flushed] == old(buffer)[..flushed - 1] + [event];
        } else {
          going := false;
        }
      }
    }

    /** What the left end of the buffer lost is in the stream, and `last` was appended unless it is there too. */
    static ghost predicate Kept(before: seq<AttackEvent>, after: seq<AttackEvent>, last: Option<AttackEvent>,
                                stream: seq<Payload>) {
      exists k | 0 <= k <= |before| ::
        AllIn(before[..k], stream) &&
        match last
        case None => after == before[k..]
        case Some(e) =>
          (Event(e) in stream && after == before[k..]) || after == Bounded(before[k..], e)
    }

    /** deque.append on a deque of bounded length. */
    static function Bounded(buffer: seq<AttackEvent>, e: AttackEvent): seq<AttackEvent> {
      (if |buffer| == MAX_BUFFER_SIZE then buffer[1..] else buffer) + [e]
    }

    static lemma KeptFlush(before: seq<AttackEvent>, mid: seq<AttackEvent>, e: AttackEvent, after: seq<AttackEvent>,
                           stream: seq<Payload>, grown: seq<Payload>)
      requires Kept(before, mid, None, stream) && stream <= grown
      requires (Event(e) in grown && after == mid) || after == Bounded(mid, e)
      ensures Kept(before, after, Some(e), grown)
    {}

    static lemma KeptNothing(before: seq<AttackEvent>, stream: seq<Payload>)
      ensures Kept(before, before, None, stream)
    {
      assert before[0..] == before;
      assert AllIn(before[..0], stream);
    }

    /** How a coroutine starts, with or without an event of its own, given the client as it is. */
    static ghost function Opening(step: Step, connected: bool): seq<Step> {
      [Disturb(connected), step]
    }

    static lemma Opens(s: State, step: Step, connected: bool, stream: seq<Payload>) returns (next: State)
      requires Inv(s) && Enabled(s, step) && (step.Emit? || step.Timer?)
      ensures Inv(next) && next.buffer == s.buffer && IsRun(s, Opening(step, connected), next, stream, stream)
      ensures next.connected
      ensures var owned := if step.Emit? then Some(step.event) else None;
              next.tasks == s.tasks[step.tid := if s.buffer != [] then Flushing(s.buffer[0], 0, owned, First(connected))
                                                else Publishing(owned.value, 0, First(connected))]
    {
      var t := Apply(s, Disturb(connected));
      StillEnabled(s, step, connected);
      next := Apply(t, step);
      RunOne(s, Disturb(connected));
      RunOne(t, step);
      RunAppend(s, [Disturb(connected)], [step]);
      assert Opening(step, connected) == [Disturb(connected)] + [step];
      RunKeepsInv(s, Opening(step, connected));
      QuietStep(t, step);
      assert stream + [] == stream && next.published[|s.published|..] == [];
      hide Ledger, Ownership, Run, ValidRun;
    }

    static lemma StillEnabled(s: State, step: Step, connected: bool)
      requires Enabled(s, step) && (step.Emit? || step.Timer?)
      ensures Enabled(Apply(s, Disturb(connected)), step)
    {}

    static lemma PublishingEnds(s: State, tid: nat, event: AttackEvent, phase: Phase, ok: bool)
      ensures var next := Finish(s, tid, Publishing(event, 0, phase), ok);
              next.tasks == s.tasks - {tid} && next.connected == ok &&
              next.buffer == if ok then s.buffer else Bounded(s.buffer, event)
    {}

    /** One wake-up of the periodic flush loop. */
    method PeriodicFlush(net: Network, ghost tid: nat) returns (ghost steps: seq<Step>)
      requires Valid() && tid !in state.tasks
      modifies this, queue`connected, queue.server
      ensures Valid() && state.tasks == old(state).tasks
      ensures IsRun(old(state), steps, state, old(queue.server.stream), queue.server.stream)
      ensures if old(buffer) == [] then steps == []
              else |steps| >= 2 && steps[..2] == Opening(Timer(tid), old(queue.connected)) && OnlyTries(steps[2..], tid)
      ensures Kept(old(buffer), buffer, None, queue.server.stream)
    {
      hide Inv, Run, ValidRun, IsRun, AllIn, Kept, Apply, OnlyTries;
      steps := [];
      NoRun(state, queue.server.stream);
      KeptNothing(buffer, queue.server.stream);
      if buffer != [] {
        ghost var opening := Opening(Timer(tid), queue.connected);
        ghost var begun := Opens(state, Timer(tid), queue.connected, queue.server.stream);
        state := begun;
        ghost var more := FlushBuffer(net, tid, None);
        RunsJoin(old(state), opening, begun, more, state,
                 old(queue.server.stream), old(queue.server.stream), queue.server.stream);
        steps := opening + more;
        assert steps[..2] == opening && steps[2..] == more;
      }
    }

    /**
     Emits one event: the buffer is flushed first, and the event ends up in the stream or as the
     newest event of the buffer.
     */
    method EmitEvent(event: AttackEvent, net: Network, ghost tid: nat) returns (ghost steps: seq<Step>)
      requires Valid() && tid !in state.tasks && event !in state.emitted
      modifies this, queue`connected, queue.server
      ensures Valid() && state.tasks == old(state).tasks && state.connected == queue.connected
      ensures |steps| >= 2 && steps[..2] == Opening(Emit(tid, event), old(queue.connected)) && OnlyTries(steps[2..], tid)
      ensures IsRun(old(state), steps, state, old(queue.server.stream), queue.server.stream)
      ensures Kept(old(buffer), buffer, Some(event), queue.server.stream)
    {
      hide Inv, Run, ValidRun, IsRun, AllIn, Apply, Finish, Kept, Bounded, OnlyTries;
      ghost var opening := Opening(Emit(tid, event), queue.connected);
      ghost var begun := Opens(state, Emit(tid, event), queue.connected, queue.server.stream);
      state := begun;
      ghost var tries: seq<Step> := [];
      NoRun(begun, queue.server.stream);
      NoTries(tid);
      KeptNothing(buffer, queue.server.stream);
      if buffer != [] {
        tries := FlushBuffer(n => net(n + 1), tid, Some(event));
        AgainRetask(old(state).tasks, tid, begun.tasks[tid], Some(event), queue.connected);
      }
      ghost var mid, midBuffer, midStream, phase := state, buffer, queue.server.stream, First(queue.connected);
      assert mid.tasks == old(state).tasks[tid := Publishing(event, 0, phase)];
      var ok, sent := Send(event, net(0), tid);
      RunsJoin(begun, tries, mid, sent, state, old(queue.server.stream), midStream, queue.server.stream);
      TriesJoin(tries, sent, tid);
      tries := tries + sent;
      RunsJoin(old(state), opening, begun, tries, state,
               old(queue.server.stream), old(queue.server.stream), queue.server.stream);
      steps := opening + tries;
      assert steps[..2] == opening && steps[2..] == tries;
      PublishingEnds(mid.(published := state.published), tid, event, phase, ok);
      Retask(old(state).tasks, tid, mid.tasks[tid], mid.tasks[tid]);
      assert old(state).tasks - {tid} == old(state).tasks;
      if !ok {
        buffer := Bounded(buffer, event);
      }
      KeptFlush(old(buffer), midBuffer, event, buffer, midStream, queue.server.stream);
    }
  }
}
