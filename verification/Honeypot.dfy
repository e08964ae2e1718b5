/**
 The honeypot's bounded buffer as a step machine. Every await is a step boundary, so any number of
 `emit_event` calls and flushers interleave at each of them, as the event loop allows: while a
 coroutine connects, while its XADD is under way, and while it sleeps between two attempts.
 */
module Honeypot {
  import opened Events
  import opened EventQueue

  const MAX_BUFFER_SIZE := 10000

  /** What a coroutine inside `publish` is waiting for. */
  datatype Phase = Connecting | Sending | Sleeping

  /** A coroutine suspended inside `publish`; `owned` is the event an `emit_event` still has to publish. */
  datatype Task =
    | Publishing(event: AttackEvent, attempt: nat, phase: Phase)
    | Flushing(peeked: AttackEvent, attempt: nat, owned: Option<AttackEvent>, phase: Phase)
  {
    /** The event being sent. */
    function Target(): AttackEvent {
      if Publishing? then event else peeked
    }

    /** The event of the `emit_event` call this coroutine belongs to. */
    function Owned(): Option<AttackEvent> {
      if Publishing? then Some(event) else owned
    }

    predicate LastAttempt() {
      attempt + 1 >= MAX_RETRIES
    }
  }

  /** How an event left the left end of the buffer. */
  datatype Fate = Flushed | Evicted | Mispopped

  /**
   `published` logs the XADDs that took effect, `appended` everything ever put into the buffer, and
   `fates` how each event that left the buffer left it, in the same order. `aborted` holds the
   events of `emit_event` calls that died of an exception nobody catches, or were cancelled.
   `connected` says whether the queue's client is set; all coroutines share it.
   */
  datatype State = State(
    buffer: seq<AttackEvent>,
    tasks: map<nat, Task>,
    published: seq<AttackEvent>,
    emitted: set<AttackEvent>,
    appended: seq<AttackEvent>,
    fates: seq<Fate>,
    aborted: set<AttackEvent>,
    connected: bool)

  const INIT := State([], map[], [], {}, [], [], {}, true)

  /**
   `Connected` and `Try` resume a coroutine when its XGROUP CREATE or its XADD has ended, `Wake` when
   its sleep is over. `Cancel` cancels it at any await. `Disturb` is another user of the
   same queue setting or dropping the client.
   */
  datatype Step =
    | Emit(tid: nat, event: AttackEvent)
    | Timer(tid: nat)
    | Connected(tid: nat, net: Net)
    | Try(tid: nat, net: Net)
    | Wake(tid: nat)
    | Cancel(tid: nat, net: Net)
    | Disturb(connected: bool)

  /** deque.append with maxlen: a full buffer drops its oldest event. */
  function Append(s: State, e: AttackEvent): State {
    if |s.buffer| == MAX_BUFFER_SIZE then
      s.(buffer := s.buffer[1..] + [e], appended := s.appended + [e], fates := s.fates + [Evicted])
    else
      s.(buffer := s.buffer + [e], appended := s.appended + [e])
  }

  /** A new attempt: without a client connect first, which sets the client before awaiting anything. */
  function Begin(s: State, tid: nat, task: Task): State {
    s.(tasks := s.tasks[tid := task.(phase := if s.connected then Sending else Connecting)], connected := true)
  }

  /** The flush is over: the caller goes on to publish its own event, or ends. */
  function Proceed(s: State, tid: nat, owned: Option<AttackEvent>): State {
    if owned.Some? then Begin(s, tid, Publishing(owned.value, 0, Sending))
    else s.(tasks := s.tasks - {tid})
  }

  /** The head of the flush loop: peek at the oldest event, or stop. */
  function Loop(s: State, tid: nat, owned: Option<AttackEvent>): State {
    if s.buffer != [] then Begin(s, tid, Flushing(s.buffer[0], 0, owned, Sending))
    else Proceed(s, tid, owned)
  }

  /** An exception nobody catches ends the coroutine, and with it the call that owns an event. */
  function Die(s: State, tid: nat, owned: Option<AttackEvent>): State {
    s.(tasks := s.tasks - {tid}, aborted := s.aborted + (if owned.Some? then {owned.value} else {}))
  }

  /** popleft after a successful publish; an empty buffer raises IndexError. */
  function Pop(s: State, tid: nat, peeked: AttackEvent, owned: Option<AttackEvent>): State {
    if s.buffer == [] then Die(s, tid, owned)
    else
      var fate := if s.buffer[0] == peeked then Flushed else Mispopped;
      Loop(s.(buffer := s.buffer[1..], fates := s.fates + [fate]), tid, owned)
  }

  /** The XADD itself. */
  function Send(s: State, e: AttackEvent, net: Net): State {
    if net.Refused? then s else s.(published := s.published + [e])
  }

  /** `publish` returned. */
  function Succeed(s: State, tid: nat): State
    requires tid in s.tasks
  {
    var task := s.tasks[tid];
    if task.Publishing? then s.(tasks := s.tasks - {tid}) else Pop(s, tid, task.peeked, task.owned)
  }

  /** A connection error drops the shared client; the last one makes `publish` raise. */
  function Fail(s: State, tid: nat): State
    requires tid in s.tasks
  {
    var task := s.tasks[tid];
    var dropped := s.(connected := false);
    if !task.LastAttempt() then
      dropped.(tasks := s.tasks[tid := task.(attempt := task.attempt + 1, phase := Sleeping)])
    else if task.Publishing? then Append(dropped.(tasks := s.tasks - {tid}), task.event)
    else Proceed(dropped, tid, task.owned)
  }

  predicate In(s: State, tid: nat, phase: Phase) {
    tid in s.tasks && s.tasks[tid].phase == phase
  }

  predicate Enabled(s: State, step: Step) {
    match step
    case Emit(tid, event) => tid !in s.tasks && event !in s.emitted
    case Timer(tid) => tid !in s.tasks && s.buffer != []
    case Connected(tid, net) => In(s, tid, Connecting)
    case Try(tid, net) => In(s, tid, Sending)
    case Wake(tid) => In(s, tid, Sleeping)
    case Cancel(tid, net) => tid in s.tasks && (s.tasks[tid].phase.Sending? || net.Refused?)
    case Disturb(_) => true
  }

  function Apply(s: State, step: Step): State
    requires Enabled(s, step)
  {
    match step
    case Emit(tid, event) => Loop(s.(emitted := s.emitted + {event}), tid, Some(event))
    case Timer(tid) => Loop(s, tid, None)
    case Connected(tid, net) =>
      if !net.Ok? then Fail(s, tid)
      else if s.connected then s.(tasks := s.tasks[tid := s.tasks[tid].(phase := Sending)])
      else Die(s, tid, s.tasks[tid].Owned())
    case Try(tid, net) =>
      var sent := Send(s, s.tasks[tid].Target(), net);
      if net.Ok? then Succeed(sent, tid) else Fail(sent, tid)
    case Wake(tid) => Begin(s, tid, s.tasks[tid])
    case Cancel(tid, net) => Die(Send(s, s.tasks[tid].Target(), net), tid, s.tasks[tid].Owned())
    case Disturb(connected) => s.(connected := connected)
  }

  predicate ValidRun(s: State, steps: seq<Step>)
    decreases |steps|
  {
    steps == [] || (Enabled(s, steps[0]) && ValidRun(Apply(s, steps[0]), steps[1..]))
  }

  function Run(s: State, steps: seq<Step>): State
    requires ValidRun(s, steps)
    decreases |steps|
  {
    if steps == [] then s else Run(Apply(s, steps[0]), steps[1..])
  }

  // ----- Order and bound -----

  /**
   The buffer is the unremoved tail of everything appended, within its bound; a flushed event was
   published, and an evicted one had MAX_BUFFER_SIZE events appended after it.
   */
  ghost predicate Ledger(s: State) {
    |s.buffer| <= MAX_BUFFER_SIZE &&
    |s.fates| <= |s.appended| && s.buffer == s.appended[|s.fates|..] &&
    forall i | 0 <= i < |s.fates| ::
      (s.fates[i].Flushed? ==> s.appended[i] in s.published) &&
      (s.fates[i].Evicted? ==> i + MAX_BUFFER_SIZE < |s.appended|)
  }

  /** The stream and the buffer, with all that ever happened to it, are the same. */
  predicate SameEvents(s: State, t: State) {
    t.buffer == s.buffer && t.published == s.published && t.fates == s.fates && t.appended == s.appended
  }

  lemma LedgerFrame(s: State, t: State)
    requires Ledger(s) && SameEvents(s, t)
    ensures Ledger(t)
  {}

  lemma SameAfter(s: State, tid: nat, task: Task, owned: Option<AttackEvent>)
    ensures SameEvents(s, Begin(s, tid, task)) && SameEvents(s, Proceed(s, tid, owned))
    ensures SameEvents(s, Loop(s, tid, owned)) && SameEvents(s, Die(s, tid, owned))
  {}

  lemma SendKeepsLedger(s: State, e: AttackEvent, net: Net)
    requires Ledger(s)
    ensures Ledger(Send(s, e, net))
    ensures !net.Refused? ==> e in Send(s, e, net).published
  {}

  lemma AppendKeepsLedger(s: State, e: AttackEvent)
    requires Ledger(s)
    ensures Ledger(Append(s, e))
  {}

  lemma PopKeepsLedger(s: State, tid: nat, peeked: AttackEvent, owned: Option<AttackEvent>)
    requires Ledger(s) && peeked in s.published
    ensures Ledger(Pop(s, tid, peeked, owned))
  {}

  lemma FailKeepsLedger(s: State, tid: nat)
    requires Ledger(s) && tid in s.tasks
    ensures Ledger(Fail(s, tid))
  {
    var task, dropped := s.tasks[tid], s.(connected := false);
    if task.LastAttempt() && task.Publishing? {
      AppendKeepsLedger(dropped.(tasks := s.tasks - {tid}), task.event);
    } else {
      SameAfter(dropped, tid, task, task.Owned());
      LedgerFrame(s, Fail(s, tid));
    }
  }

  /** Steps that only move a coroutine or the client. */
  predicate Quiet(s: State, step: Step)
    requires Enabled(s, step)
  {
    step.Emit? || step.Timer? || step.Wake? || step.Disturb? || (step.Connected? && step.net.Ok?)
  }

  lemma QuietStep(s: State, step: Step)
    requires Enabled(s, step) && Quiet(s, step)
    ensures SameEvents(s, Apply(s, step))
  {}

  lemma DisturbIsQuiet(s: State, connected: bool)
    ensures Enabled(s, Disturb(connected)) && Apply(s, Disturb(connected)) == s.(connected := connected)
    ensures !Loses(s, Disturb(connected))
  {}

  lemma StepKeepsLedger(s: State, step: Step)
    requires Ledger(s) && Enabled(s, step)
    ensures Ledger(Apply(s, step))
  {
    hide Ledger, SameEvents, Fail, Pop, Proceed, Send;
    if Quiet(s, step) {
      QuietStep(s, step);
      LedgerFrame(s, Apply(s, step));
    } else if step.Connected? {
      FailKeepsLedger(s, step.tid);
    } else {
      var task := s.tasks[step.tid];
      var sent := Send(s, task.Target(), step.net);
      SendKeepsLedger(s, task.Target(), step.net);
      SentTasks(s, task.Target(), step.net);
      if step.Cancel? {
        SameAfter(sent, step.tid, task, task.Owned());
        LedgerFrame(sent, Apply(s, step));
      } else if !step.net.Ok? {
        FailKeepsLedger(sent, step.tid);
      } else if task.Flushing? {
        PopKeepsLedger(sent, step.tid, task.peeked, task.owned);
      } else {
        RemovedFrame(sent, step.tid);
        LedgerFrame(sent, Apply(s, step));
      }
    }
  }

  lemma SentTasks(s: State, e: AttackEvent, net: Net)
    ensures Send(s, e, net).tasks == s.tasks && Send(s, e, net).emitted == s.emitted
    ensures Send(s, e, net).connected == s.connected
  {}

  lemma RemovedFrame(s: State, tid: nat)
    ensures SameEvents(s, s.(tasks := s.tasks - {tid}))
  {}

  // ----- Whose event is whose -----

  /**
   Every emitted event has one owner at a time: a coroutine owns an event nobody else owns and
   nobody has buffered, an unstarted one nobody has published either; the buffer never held an
   event twice; and nothing circulates that was not emitted.
   */
  ghost predicate Ownership(s: State) {
    (forall t | t in s.tasks :: TaskOwns(s, s.tasks[t])) &&
    (forall t, u | t in s.tasks && u in s.tasks && t != u && s.tasks[t].Owned().Some? ::
       s.tasks[t].Owned() != s.tasks[u].Owned()) &&
    (forall i, j | 0 <= i < j < |s.appended| :: s.appended[i] != s.appended[j]) &&
    (forall e | e in s.appended || e in s.published :: e in s.emitted)
  }

  predicate TaskOwns(s: State, task: Task) {
    (task.Owned().Some? ==> task.Owned().value in s.emitted && task.Owned().value !in s.appended) &&
    (task.Flushing? ==>
       task.peeked in s.appended &&
       (task.owned.Some? ==> task.owned.value !in s.published))
  }

  /** The event is emitted and unbuffered, and no coroutine but `tid` owns it. */
  ghost predicate OwnedBy(s: State, tid: nat, owned: Option<AttackEvent>) {
    owned.Some? ==>
      owned.value in s.emitted && owned.value !in s.appended &&
      forall u | u in s.tasks && u != tid :: s.tasks[u].Owned() != owned
  }

  lemma OwnershipFrame(a: State, b: State)
    requires Ownership(a) && b.tasks == a.tasks && b.appended == a.appended
    requires b.published == a.published && b.emitted == a.emitted
    ensures Ownership(b)
  {}

  lemma TaskLeaves(s: State, tid: nat)
    requires Ownership(s)
    ensures Ownership(s.(tasks := s.tasks - {tid}))
    ensures tid in s.tasks ==> TaskOwns(s, s.tasks[tid]) && OwnedBy(s, tid, s.tasks[tid].Owned())
  {}

  /** A coroutine may take up a task whose claims hold and whose event nobody else owns. */
  lemma TaskJoins(s: State, tid: nat, task: Task)
    requires Ownership(s.(tasks := s.tasks - {tid}))
    requires TaskOwns(s, task) && OwnedBy(s, tid, task.Owned())
    ensures Ownership(s.(tasks := s.tasks[tid := task]))
    ensures Ownership(Begin(s, tid, task))
  {
    var without := s.(tasks := s.tasks - {tid});
    forall phase
      ensures Ownership(s.(tasks := s.tasks[tid := task.(phase := phase)]))
    {
      var next := s.(tasks := s.tasks[tid := task.(phase := phase)]);
      forall u | u in next.tasks
        ensures TaskOwns(next, next.tasks[u])
        ensures u != tid ==> u in without.tasks && next.tasks[u] == without.tasks[u]
      {
        if u != tid {
          assert TaskOwns(without, without.tasks[u]);
        }
      }
    }
    assert task.(phase := task.phase) == task;
    var phase := if s.connected then Sending else Connecting;
    OwnershipFrame(s.(tasks := s.tasks[tid := task.(phase := phase)]), Begin(s, tid, task));
  }

  lemma ProceedKeepsOwnership(s: State, tid: nat, owned: Option<AttackEvent>)
    requires Ownership(s.(tasks := s.tasks - {tid})) && OwnedBy(s, tid, owned)
    ensures Ownership(Proceed(s, tid, owned))
  {
    if owned.Some? {
      TaskJoins(s, tid, Publishing(owned.value, 0, Sending));
    }
  }

  lemma LoopKeepsOwnership(s: State, tid: nat, owned: Option<AttackEvent>)
    requires Ledger(s)
    requires Ownership(s.(tasks := s.tasks - {tid})) && OwnedBy(s, tid, owned)
    requires owned.Some? ==> owned.value !in s.published
    ensures Ownership(Loop(s, tid, owned))
  {
    if s.buffer != [] {
      assert s.buffer[0] == s.appended[|s.fates|];
      TaskJoins(s, tid, Flushing(s.buffer[0], 0, owned, Sending));
    } else {
      ProceedKeepsOwnership(s, tid, owned);
    }
  }

  lemma DieKeepsOwnership(s: State, tid: nat, owned: Option<AttackEvent>)
    requires Ownership(s.(tasks := s.tasks - {tid}))
    ensures Ownership(Die(s, tid, owned))
  {}

  /** What a coroutine sends is its own event or a buffered one, so nobody's claim breaks. */
  lemma SendKeepsOwnership(s: State, tid: nat, net: Net)
    requires Ownership(s) && tid in s.tasks
    ensures Ownership(Send(s, s.tasks[tid].Target(), net))
  {}

  lemma PopKeepsOwnership(s: State, tid: nat, peeked: AttackEvent, owned: Option<AttackEvent>)
    requires Ledger(s) && peeked in s.published
    requires Ownership(s.(tasks := s.tasks - {tid})) && OwnedBy(s, tid, owned)
    requires owned.Some? ==> owned.value !in s.published
    ensures Ownership(Pop(s, tid, peeked, owned))
  {
    if s.buffer == [] {
      DieKeepsOwnership(s, tid, owned);
    } else {
      var popped := s.(buffer := s.buffer[1..],
                       fates := s.fates + [if s.buffer[0] == peeked then Flushed else Mispopped]);
      assert s.buffer[0] == s.appended[|s.fates|];
      OwnershipFrame(s.(tasks := s.tasks - {tid}), popped.(tasks := s.tasks - {tid}));
      LoopKeepsOwnership(popped, tid, owned);
    }
  }

  lemma AppendKeepsOwnership(s: State, tid: nat, e: AttackEvent)
    requires Ledger(s) && Ownership(s) && tid !in s.tasks && OwnedBy(s, tid, Some(e))
    ensures Ownership(Append(s, e))
  {}

  lemma SucceedKeepsOwnership(s: State, tid: nat)
    requires Ledger(s) && Ownership(s) && tid in s.tasks && s.tasks[tid].Target() in s.published
    ensures Ownership(Succeed(s, tid))
  {
    TaskLeaves(s, tid);
    if s.tasks[tid].Flushing? {
      PopKeepsOwnership(s, tid, s.tasks[tid].peeked, s.tasks[tid].owned);
    }
  }

  lemma FailKeepsOwnership(s: State, tid: nat)
    requires Ledger(s) && Ownership(s) && tid in s.tasks
    ensures Ownership(Fail(s, tid))
  {
    hide Ledger, Ownership, Append, Proceed;
    var task, dropped := s.tasks[tid], s.(connected := false);
    TaskLeaves(s, tid);
    OwnershipFrame(s.(tasks := s.tasks - {tid}), dropped.(tasks := s.tasks - {tid}));
    if !task.LastAttempt() {
      TaskJoins(dropped, tid, task.(attempt := task.attempt + 1, phase := Sleeping));
    } else if task.Publishing? {
      LedgerFrame(s, dropped.(tasks := s.tasks - {tid}));
      AppendKeepsOwnership(dropped.(tasks := s.tasks - {tid}), tid, task.event);
    } else {
      ProceedKeepsOwnership(dropped, tid, task.owned);
    }
  }

  lemma StepKeepsOwnership(s: State, step: Step)
    requires Ledger(s) && Ownership(s) && Enabled(s, step)
    ensures Ownership(Apply(s, step))
  {
    hide Ledger, Ownership, Fail, Succeed, Loop, Proceed, Die, Send, Begin;
    match step
    case Emit(tid, event) =>
      EmitKeepsOwnership(s, tid, event);
    case Timer(tid) =>
      TaskLeaves(s, tid);
      LoopKeepsOwnership(s, tid, None);
    case Wake(tid) =>
      TaskLeaves(s, tid);
      TaskJoins(s, tid, s.tasks[tid]);
    case Disturb(connected) =>
      OwnershipFrame(s, Apply(s, step));
    case Connected(tid, net) =>
      TaskLeaves(s, tid);
      FailKeepsOwnership(s, tid);
      TaskJoins(s, tid, s.tasks[tid].(phase := Sending));
      DieKeepsOwnership(s, tid, s.tasks[tid].Owned());
    case Cancel(tid, net) =>
      var sent := Send(s, s.tasks[tid].Target(), net);
      SendKeepsOwnership(s, tid, net);
      SentTasks(s, s.tasks[tid].Target(), net);
      TaskLeaves(sent, tid);
      DieKeepsOwnership(sent, tid, s.tasks[tid].Owned());
    case Try(tid, net) =>
      var sent := Send(s, s.tasks[tid].Target(), net);
      SendKeepsOwnership(s, tid, net);
      SendKeepsLedger(s, s.tasks[tid].Target(), net);
      SentTasks(s, s.tasks[tid].Target(), net);
      if net.Ok? {
        SucceedKeepsOwnership(sent, tid);
      } else {
        FailKeepsOwnership(sent, tid);
      }
  }

  lemma EmitKeepsOwnership(s: State, tid: nat, event: AttackEvent)
    requires Ledger(s) && Ownership(s) && tid !in s.tasks && event !in s.emitted
    ensures Ownership(Loop(s.(emitted := s.emitted + {event}), tid, Some(event)))
  {
    var more := s.(emitted := s.emitted + {event});
    assert more.tasks - {tid} == s.tasks;
    assert forall t | t in s.tasks :: TaskOwns(s, s.tasks[t]) && s.tasks[t].Owned() != Some(event);
    LoopKeepsOwnership(more, tid, Some(event));
  }

  // ----- Exactly which steps lose an event -----

  ghost predicate InFlight(s: State, e: AttackEvent) {
    exists t | t in s.tasks :: Carries(s.tasks[t], e)
  }

  predicate Carries(task: Task, e: AttackEvent) {
    task.Target() == e || task.Owned() == Some(e)
  }

  ghost predicate Left(s: State, e: AttackEvent, fate: Fate) {
    exists i | 0 <= i < |s.fates| && i < |s.appended| :: s.fates[i] == fate && s.appended[i] == e
  }

  ghost predicate WasEvicted(s: State, e: AttackEvent) {
    Left(s, e, Evicted)
  }

  /** In the stream, in the buffer, or evicted as the oldest of a full buffer. */
  ghost predicate Settled(s: State, e: AttackEvent) {
    e in s.published || e in s.buffer || WasEvicted(s, e)
  }

  ghost predicate Accounted(s: State, e: AttackEvent) {
    Settled(s, e) || InFlight(s, e)
  }

  /** Some coroutine other than `tid` is in the middle of sending `e`. */
  ghost predicate SentByAnother(s: State, tid: nat, e: AttackEvent) {
    exists t | t in s.tasks && t != tid :: s.tasks[t].Target() == e
  }

  /**
   The steps that drop an event: popping, after a successful publish, an event that is neither the
   published one nor in the stream nor being sent by another; dying of an empty buffer with an
   event still to publish; resuming from a connect to find the shared client gone, or being cancelled,
   with an event nobody has published; and giving up on a peeked event that another flusher has popped unpublished.
   */
  ghost predicate Loses(s: State, step: Step)
    requires Enabled(s, step)
  {
    match step
    case Try(tid, net) =>
      if net.Ok? then s.tasks[tid].Flushing? && PopLoses(s, tid)
      else net.Refused? && GiveUpLoses(s, tid)
    case Connected(tid, net) =>
      if net.Ok? then !s.connected && DeathLoses(s, tid) else GiveUpLoses(s, tid)
    case Cancel(tid, net) =>
      if net.Refused? then DeathLoses(s, tid) else s.tasks[tid].Flushing? && s.tasks[tid].owned.Some?
    case _ => false
  }

  ghost predicate PopLoses(s: State, tid: nat)
    requires tid in s.tasks && s.tasks[tid].Flushing?
  {
    if s.buffer == [] then s.tasks[tid].owned.Some?
    else
      var head := s.buffer[0];
      head != s.tasks[tid].peeked && head !in s.published && !SentByAnother(s, tid, head)
  }

  /** Nobody has published the peeked event, but another flusher has popped it in place of its own. */
  ghost predicate AbandonLoses(s: State, tid: nat)
    requires tid in s.tasks && s.tasks[tid].Flushing?
  {
    var peeked := s.tasks[tid].peeked;
    Left(s, peeked, Mispopped) && peeked !in s.published && !SentByAnother(s, tid, peeked)
  }

  ghost predicate GiveUpLoses(s: State, tid: nat)
    requires tid in s.tasks
  {
    s.tasks[tid].LastAttempt() && s.tasks[tid].Flushing? && AbandonLoses(s, tid)
  }

  ghost predicate DeathLoses(s: State, tid: nat)
    requires tid in s.tasks
  {
    match s.tasks[tid]
    case Publishing(event, _, _) => event !in s.published
    case Flushing(_, _, owned, _) => owned.Some? || AbandonLoses(s, tid)
  }

  /** The step drops some event that was accounted for. */
  ghost predicate Drops(s: State, step: Step)
    requires Enabled(s, step)
  {
    !KeepsAll(s, Apply(s, step))
  }

  ghost predicate KeepsAll(s: State, next: State) {
    forall e | Accounted(s, e) :: Accounted(next, e)
  }

  lemma TaskStays(s: State, next: State, tid: nat, e: AttackEvent)
    requires forall t | t in s.tasks && t != tid :: t in next.tasks && next.tasks[t] == s.tasks[t]
    requires InFlight(s, e) && !(tid in s.tasks && Carries(s.tasks[tid], e))
    ensures InFlight(next, e)
  {}

  lemma EvictedStays(s: State, next: State, e: AttackEvent)
    requires s.fates <= next.fates && s.appended <= next.appended && |s.fates| <= |s.appended|
    requires WasEvicted(s, e)
    ensures WasEvicted(next, e)
  {}

  /** Steps that neither remove from the buffer nor drop what their coroutine carries keep everything. */
  lemma QuietKeepsAll(s: State, next: State, tid: nat)
    requires |s.fates| <= |s.appended| && s.fates == next.fates && s.appended <= next.appended
    requires s.published <= next.published && forall e | e in s.buffer :: e in next.buffer
    requires forall t | t in s.tasks && t != tid :: t in next.tasks && next.tasks[t] == s.tasks[t]
    requires tid in s.tasks ==> forall e | Carries(s.tasks[tid], e) :: Accounted(next, e)
    ensures KeepsAll(s, next)
  {}

  lemma LedgerLengths(s: State)
    requires Ledger(s)
    ensures |s.fates| <= |s.appended|
  {}

  /** An event still owned by a coroutine that has not published it is nowhere else. */
  lemma OwnedIsNowhereElse(s: State, tid: nat, e: AttackEvent)
    requires Ledger(s) && Ownership(s) && tid in s.tasks && s.tasks[tid].Owned() == Some(e)
    ensures e !in s.buffer && !WasEvicted(s, e)
    ensures forall t | t in s.tasks && t != tid :: !Carries(s.tasks[t], e)
  {}

  /** A peeked event is settled unless it was popped in place of another and is unpublished. */
  lemma PeekedSettledIff(s: State, tid: nat)
    requires Ledger(s) && Ownership(s) && tid in s.tasks && s.tasks[tid].Flushing?
    ensures var peeked := s.tasks[tid].peeked;
            Settled(s, peeked) <==> !(Left(s, peeked, Mispopped) && peeked !in s.published)
  {
    var peeked := s.tasks[tid].peeked;
    assert TaskOwns(s, s.tasks[tid]);
    var i :| 0 <= i < |s.appended| && s.appended[i] == peeked;
    if i >= |s.fates| {
      assert s.buffer[i - |s.fates|] == peeked;
    } else {
      assert Left(s, peeked, s.fates[i]);
    }
  }

  /** What remains of a coroutine that has stopped flushing: the event it owns, or nothing. */
  ghost predicate StoppedFlushing(s: State, tid: nat, next: State)
    requires tid in s.tasks && s.tasks[tid].Flushing?
  {
    SameEvents(s, next) &&
    (forall t | t != tid :: t in next.tasks <==> t in s.tasks) &&
    (forall t | t in s.tasks && t != tid :: next.tasks[t] == s.tasks[t]) &&
    if s.tasks[tid].owned.Some? then
      tid in next.tasks && next.tasks[tid].Publishing? && next.tasks[tid].event == s.tasks[tid].owned.value
    else tid !in next.tasks
  }

  lemma AbandonDropsIff(s: State, tid: nat, next: State)
    requires Ledger(s) && Ownership(s) && tid in s.tasks && s.tasks[tid].Flushing?
    requires StoppedFlushing(s, tid, next)
    ensures !KeepsAll(s, next) <==> AbandonLoses(s, tid)
  {
    var task, p := s.tasks[tid], s.tasks[tid].peeked;
    PeekedSettledIff(s, tid);
    LedgerLengths(s);
    assert TaskOwns(s, task) && Carries(task, p);
    hide Ledger;
    if AbandonLoses(s, tid) {
      Abandoned(s, tid, next);
    } else {
      if SentByAnother(s, tid, p) {
        var t :| t in s.tasks && t != tid && s.tasks[t].Target() == p;
        assert Carries(next.tasks[t], p);
      }
      hide Ownership, AbandonLoses;
      SettledFrame(s, next, p);
      if task.owned.Some? {
        assert Carries(next.tasks[tid], task.owned.value);
      }
      QuietKeepsAll(s, next, tid);
    }
  }

  lemma Abandoned(s: State, tid: nat, next: State)
    requires Ledger(s) && Ownership(s) && tid in s.tasks && s.tasks[tid].Flushing?
    requires StoppedFlushing(s, tid, next) && AbandonLoses(s, tid)
    ensures InFlight(s, s.tasks[tid].peeked) && !Accounted(next, s.tasks[tid].peeked)
  {
    var p := s.tasks[tid].peeked;
    PeekedSettledIff(s, tid);
    SettledFrame(s, next, p);
    assert Carries(s.tasks[tid], p);
    forall t | t in next.tasks
      ensures !Carries(next.tasks[t], p)
    {
      assert TaskOwns(s, s.tasks[if t == tid then tid else t]);
    }
  }

  lemma SettledFrame(s: State, t: State, e: AttackEvent)
    requires SameEvents(s, t)
    ensures Settled(s, e) <==> Settled(t, e)
  {}

  lemma DeathDropsIff(s: State, tid: nat, next: State)
    requires Ledger(s) && Ownership(s) && tid in s.tasks
    requires SameEvents(s, next) && next.tasks == s.tasks - {tid}
    ensures !KeepsAll(s, next) <==> DeathLoses(s, tid)
  {
    var task := s.tasks[tid];
    LedgerLengths(s);
    if task.Owned().Some? {
      var e := task.Owned().value;
      OwnedIsNowhereElse(s, tid, e);
      assert TaskOwns(s, task) && Carries(task, e) && InFlight(s, e);
      SettledFrame(s, next, e);
      if task.Flushing? || e !in s.published {
        assert Accounted(s, e) && !Accounted(next, e);
      } else {
        QuietKeepsAll(s, next, tid);
      }
    } else {
      AbandonDropsIff(s, tid, next);
    }
  }

  /** What was sent is being carried, so sending it changes no account. */
  lemma SendChangesNoAccount(s: State, tid: nat, net: Net)
    requires tid in s.tasks
    ensures forall e :: Accounted(s, e) <==> Accounted(Send(s, s.tasks[tid].Target(), net), e)
  {
    assert Carries(s.tasks[tid], s.tasks[tid].Target());
    var sent := Send(s, s.tasks[tid].Target(), net);
    forall e
      ensures Accounted(s, e) <==> Accounted(sent, e)
    {
      assert WasEvicted(s, e) <==> WasEvicted(sent, e);
      assert InFlight(s, e) <==> InFlight(sent, e);
      assert e in sent.published ==> e in s.published || InFlight(s, e);
    }
  }

  lemma HeadIsUnique(s: State)
    requires Ledger(s) && Ownership(s) && s.buffer != []
    ensures s.buffer[0] !in s.buffer[1..] && !WasEvicted(s, s.buffer[0]) && s.buffer[0] in s.appended
  {}

  /** The buffer's head and everything else, once a flushed publish has succeeded. */
  lemma PopDropsIff(s: State, tid: nat)
    requires Ledger(s) && Ownership(s) && tid in s.tasks && s.tasks[tid].Flushing?
    requires s.tasks[tid].peeked in s.published
    ensures !KeepsAll(s, Succeed(s, tid)) <==> PopLoses(s, tid)
  {
    var task, next := s.tasks[tid], Succeed(s, tid);
    if s.buffer == [] {
      DeathDropsIff(s, tid, next);
    } else {
      var head := s.buffer[0];
      HeadIsUnique(s);
      forall e | Accounted(s, e) && e != head
        ensures Accounted(next, e)
      {
        PopKeepsOthers(s, tid, e);
      }
      if PopLoses(s, tid) {
        HeadGone(s, tid);
      } else {
        HeadStays(s, tid);
      }
    }
  }

  lemma PopKeepsOthers(s: State, tid: nat, e: AttackEvent)
    requires Ledger(s) && tid in s.tasks && s.tasks[tid].Flushing? && s.buffer != []
    requires s.tasks[tid].peeked in s.published && Accounted(s, e) && e != s.buffer[0]
    ensures Accounted(Succeed(s, tid), e)
  {
    var next := Succeed(s, tid);
    if e in s.buffer {
      assert e in s.buffer[1..];
    } else if WasEvicted(s, e) {
      EvictedStays(s, next, e);
    } else if !Settled(s, e) {
      if Carries(s.tasks[tid], e) {
        assert e == s.tasks[tid].peeked || Carries(next.tasks[tid], e);
      } else {
        TaskStays(s, next, tid, e);
      }
    }
  }

  lemma HeadStays(s: State, tid: nat)
    requires tid in s.tasks && s.tasks[tid].Flushing? && s.buffer != [] && !PopLoses(s, tid)
    requires s.tasks[tid].peeked in s.published
    ensures Accounted(Succeed(s, tid), s.buffer[0])
  {
    var head, next := s.buffer[0], Succeed(s, tid);
    if SentByAnother(s, tid, head) {
      var t :| t in s.tasks && t != tid && s.tasks[t].Target() == head;
      assert Carries(next.tasks[t], head);
    }
  }

  lemma HeadUnsettled(s: State, tid: nat)
    requires Ledger(s) && Ownership(s) && tid in s.tasks && s.tasks[tid].Flushing? && s.buffer != []
    requires PopLoses(s, tid)
    ensures !Settled(Succeed(s, tid), s.buffer[0])
  {
    HeadIsUnique(s);
    hide Ownership, SentByAnother;
  }

  lemma NobodyCarriesHead(s: State, tid: nat, t: nat)
    requires Ledger(s) && Ownership(s) && tid in s.tasks && s.tasks[tid].Flushing? && s.buffer != []
    requires PopLoses(s, tid) && t in Succeed(s, tid).tasks
    ensures !Carries(Succeed(s, tid).tasks[t], s.buffer[0])
  {
    var head := s.buffer[0];
    HeadIsUnique(s);
    OwnersAreUnbuffered(s, head);
    hide Ledger, Ownership;
    if t == tid {
      assert |s.buffer| > 1 ==> s.buffer[1..][0] != head;
    } else {
      assert t in s.tasks && Succeed(s, tid).tasks[t] == s.tasks[t];
    }
  }

  lemma OwnersAreUnbuffered(s: State, e: AttackEvent)
    requires Ownership(s) && e in s.appended
    ensures forall t | t in s.tasks :: s.tasks[t].Owned() != Some(e)
  {}

  lemma HeadGone(s: State, tid: nat)
    requires Ledger(s) && Ownership(s) && tid in s.tasks && s.tasks[tid].Flushing? && s.buffer != []
    requires PopLoses(s, tid)
    ensures Accounted(s, s.buffer[0]) && !Accounted(Succeed(s, tid), s.buffer[0])
  {
    hide Ledger, Ownership, Succeed, PopLoses, Carries;
    HeadUnsettled(s, tid);
    forall t | t in Succeed(s, tid).tasks
      ensures !Carries(Succeed(s, tid).tasks[t], s.buffer[0])
    {
      NobodyCarriesHead(s, tid, t);
    }
  }

  lemma BufferedIsKeptOrEvicted(s: State, next: State, event: AttackEvent, e: AttackEvent)
    requires Ledger(s) && e in s.buffer
    requires SameEvents(Append(s, event), next)
    ensures e in next.buffer || WasEvicted(next, e)
  {
    if |s.buffer| == MAX_BUFFER_SIZE {
      assert s.buffer == [s.buffer[0]] + s.buffer[1..];
      if e == s.buffer[0] {
        assert next.fates[|s.fates|].Evicted? && next.appended[|s.fates|] == e;
      }
    }
  }

  /** Buffering an event after its last attempt keeps everything. */
  lemma AppendKeepsAll(s: State, tid: nat)
    requires Ledger(s) && tid in s.tasks && s.tasks[tid].Publishing? && s.tasks[tid].LastAttempt()
    ensures KeepsAll(s, Fail(s, tid))
  {
    var event, next := s.tasks[tid].event, Fail(s, tid);
    assert event in next.buffer;
    forall e | Accounted(s, e)
      ensures Accounted(next, e)
    {
      if e in s.buffer {
        BufferedIsKeptOrEvicted(s, next, event, e);
      } else if WasEvicted(s, e) {
        EvictedStays(s, next, e);
      } else if !Settled(s, e) && !Carries(s.tasks[tid], e) {
        TaskStays(s, next, tid, e);
      }
    }
  }

  lemma FailDropsIff(s: State, tid: nat)
    requires Ledger(s) && Ownership(s) && tid in s.tasks
    ensures !KeepsAll(s, Fail(s, tid)) <==> GiveUpLoses(s, tid)
  {
    hide Ownership, Ledger, AbandonLoses;
    var task, next := s.tasks[tid], Fail(s, tid);
    LedgerLengths(s);
    if !task.LastAttempt() {
      assert forall e | Carries(task, e) :: Carries(next.tasks[tid], e);
      QuietKeepsAll(s, next, tid);
    } else if task.Publishing? {
      AppendKeepsAll(s, tid);
    } else {
      AbandonDropsIff(s, tid, next);
    }
  }

  lemma EmitKeepsAll(s: State, tid: nat, owned: Option<AttackEvent>, emitted: set<AttackEvent>)
    requires Ledger(s) && tid !in s.tasks
    ensures KeepsAll(s, Loop(s.(emitted := emitted), tid, owned))
    ensures owned.Some? ==> InFlight(Loop(s.(emitted := emitted), tid, owned), owned.value)
  {
    var next := Loop(s.(emitted := emitted), tid, owned);
    QuietKeepsAll(s, next, tid);
    if owned.Some? {
      assert Carries(next.tasks[tid], owned.value);
    }
  }

  /** Moving a coroutine on to what it still carries keeps everything. */
  lemma MoveKeepsAll(s: State, tid: nat, phase: Phase, connected: bool)
    requires Ledger(s) && tid in s.tasks
    ensures KeepsAll(s, s.(tasks := s.tasks[tid := s.tasks[tid].(phase := phase)], connected := connected))
  {
    var next := s.(tasks := s.tasks[tid := s.tasks[tid].(phase := phase)], connected := connected);
    assert forall e | Carries(s.tasks[tid], e) :: Carries(next.tasks[tid], e);
    QuietKeepsAll(s, next, tid);
  }

  /** The end of an XADD, seen from the state in which it has taken effect. */
  lemma TryDropsIff(s: State, tid: nat, net: Net)
    requires Ledger(s) && Ownership(s) && Enabled(s, Try(tid, net))
    ensures Drops(s, Try(tid, net)) <==> Loses(s, Try(tid, net))
  {
    var task := s.tasks[tid];
    var sent := Send(s, task.Target(), net);
    SendChangesNoAccount(s, tid, net);
    SendKeepsLedger(s, task.Target(), net);
    SendKeepsOwnership(s, tid, net);
    assert KeepsAll(s, Apply(s, Try(tid, net))) <==> KeepsAll(sent, Apply(s, Try(tid, net)));
    hide Ledger, Ownership, KeepsAll, Fail, Succeed;
    if !net.Ok? {
      FailDropsIff(sent, tid);
    } else if task.Flushing? {
      PopDropsIff(sent, tid);
    } else {
      DeathDropsIff(sent, tid, Succeed(sent, tid)) by {
        assert Succeed(sent, tid) == sent.(tasks := s.tasks - {tid});
      }
    }
  }

  /**
   In every state the machine can reach, a step drops an event that was in flight, in the stream,
   in the buffer or evicted exactly when it is one of the losing steps.
   */
  lemma DropsIffLoses(s: State, step: Step)
    requires Ledger(s) && Ownership(s) && Enabled(s, step)
    ensures Drops(s, step) <==> Loses(s, step)
  {
    hide Ledger, Ownership, KeepsAll, Fail, Loop;
    match step
    case Emit(tid, event) =>
      EmitKeepsAll(s, tid, Some(event), s.emitted + {event});
    case Timer(tid) =>
      EmitKeepsAll(s, tid, None, s.emitted);
    case Wake(tid) =>
      MoveKeepsAll(s, tid, if s.connected then Sending else Connecting, true);
    case Disturb(connected) =>
      DisturbKeepsAll(s, connected);
    case Connected(tid, net) =>
      if !net.Ok? {
        FailDropsIff(s, tid);
      } else if s.connected {
        MoveKeepsAll(s, tid, Sending, s.connected);
      } else {
        DeathDropsIff(s, tid, Apply(s, step));
      }
    case Cancel(tid, net) =>
      CancelDropsIff(s, tid, net);
    case Try(tid, net) =>
      TryDropsIff(s, tid, net);
  }

  lemma DisturbKeepsAll(s: State, connected: bool)
    ensures KeepsAll(s, s.(connected := connected))
  {}

  lemma CancelDropsIff(s: State, tid: nat, net: Net)
    requires Ledger(s) && Ownership(s) && Enabled(s, Cancel(tid, net))
    ensures Drops(s, Cancel(tid, net)) <==> Loses(s, Cancel(tid, net))
  {
    var sent, next := Send(s, s.tasks[tid].Target(), net), Apply(s, Cancel(tid, net));
    SendChangesNoAccount(s, tid, net);
    SendKeepsLedger(s, s.tasks[tid].Target(), net);
    SendKeepsOwnership(s, tid, net);
    assert KeepsAll(s, next) <==> KeepsAll(sent, next);
    hide Ledger, Ownership, KeepsAll;
    DeathDropsIff(sent, tid, next);
  }

  // ----- Conservation under a hypothesis on the schedule -----

  predicate Flusher(s: State, tid: nat) {
    tid in s.tasks && s.tasks[tid].Flushing?
  }

  ghost predicate NobodyFlushes(s: State) {
    forall t :: !Flusher(s, t)
  }

  /** Nobody, or nobody but `tid`, is waiting for a connect. */
  ghost predicate NobodyConnects(s: State, except: Option<nat>) {
    forall t: nat | In(s, t, Connecting) :: except == Some(t)
  }

  /** What a schedule may be asked to keep. */
  datatype Condition = OneFlusher | NoOverflow | ClientKept | NoEmitCancelled

  predicate Fails(step: Step) {
    (step.Connected? || step.Try?) && !step.net.Ok?
  }

  /** Giving up on an event does not evict one while somebody flushes. */
  ghost predicate OverflowsNothing(s: State, tid: nat)
    requires tid in s.tasks
  {
    s.tasks[tid].Publishing? && s.tasks[tid].LastAttempt() && |s.buffer| == MAX_BUFFER_SIZE ==> NobodyFlushes(s)
  }

  /**
   No flush starts while another runs; no append overflows the buffer while one runs; nothing drops the
   shared client while somebody else connects; and no `emit_event` is cancelled.
   */
  ghost predicate Keeps(s: State, step: Step, c: Condition)
    requires Enabled(s, step)
  {
    match c
    case OneFlusher => (step.Timer? || (step.Emit? && s.buffer != [])) ==> NobodyFlushes(s)
    case NoOverflow => Fails(step) ==> OverflowsNothing(s, step.tid)
    case ClientKept =>
      (Fails(step) ==> NobodyConnects(s, Some(step.tid))) && (step == Disturb(false) ==> NobodyConnects(s, None))
    case NoEmitCancelled => step.Cancel? ==> s.tasks[step.tid].Owned().None?
  }

  ghost predicate Calm(s: State, step: Step)
    requires Enabled(s, step)
  {
    Keeps(s, step, OneFlusher) && Keeps(s, step, NoOverflow) && Keeps(s, step, ClientKept) && Keeps(s, step, NoEmitCancelled)
  }

  /** There is at most one flusher, and what it peeked at is still the head of the buffer. */
  ghost predicate HeadPeeked(s: State) {
    (forall t, u | Flusher(s, t) && Flusher(s, u) :: t == u) &&
    (forall t | Flusher(s, t) :: s.buffer != [] && s.buffer[0] == s.tasks[t].peeked)
  }

  /** Whoever waits for a connect will find the client it set. */
  ghost predicate ClientHeld(s: State) {
    forall t: nat | In(s, t, Connecting) :: s.connected
  }

  /** A step of `tid` keeps the head peeked if its own claim holds and other flushers see no change. */
  lemma HeadStaysPeeked(s: State, next: State, tid: nat)
    requires HeadPeeked(s)
    requires forall t | t != tid :: t in next.tasks <==> t in s.tasks
    requires forall t | t in s.tasks && t != tid :: next.tasks[t] == s.tasks[t]
    requires Flusher(next, tid) ==>
               next.buffer != [] && next.buffer[0] == next.tasks[tid].peeked && (Flusher(s, tid) || NobodyFlushes(s))
    requires Flusher(s, tid) || NobodyFlushes(s) || (s.buffer <= next.buffer)
    ensures HeadPeeked(next)
  {
    forall t | Flusher(next, t) && t != tid
      ensures Flusher(s, t)
    {}
  }

  lemma FailKeepsHeadPeeked(s: State, tid: nat)
    requires tid in s.tasks && HeadPeeked(s) && OverflowsNothing(s, tid)
    ensures HeadPeeked(Fail(s, tid))
  {
    assert Flusher(s, tid) <==> s.tasks[tid].Flushing?;
    HeadStaysPeeked(s, Fail(s, tid), tid);
  }

  lemma SucceedKeepsHeadPeeked(s: State, tid: nat)
    requires tid in s.tasks && HeadPeeked(s)
    ensures HeadPeeked(Succeed(s, tid))
  {
    assert Flusher(s, tid) <==> s.tasks[tid].Flushing?;
    HeadStaysPeeked(s, Succeed(s, tid), tid);
  }

  lemma LoopKeepsHeadPeeked(s: State, tid: nat, owned: Option<AttackEvent>)
    requires tid !in s.tasks && HeadPeeked(s) && (s.buffer != [] ==> NobodyFlushes(s))
    ensures HeadPeeked(Loop(s, tid, owned))
  {
    HeadStaysPeeked(s, Loop(s, tid, owned), tid);
  }

  lemma CalmKeepsHeadPeeked(s: State, step: Step)
    requires Enabled(s, step) && HeadPeeked(s) && Calm(s, step)
    ensures HeadPeeked(Apply(s, step))
  {
    hide HeadPeeked, Loop, Fail, Succeed, OverflowsNothing, NobodyFlushes;
    match step
    case Emit(tid, event) =>
      var more := s.(emitted := s.emitted + {event});
      PeekedFrame(s, more);
      LoopKeepsHeadPeeked(more, tid, Some(event));
    case Timer(tid) =>
      LoopKeepsHeadPeeked(s, tid, None);
    case Disturb(_) =>
      PeekedFrame(s, Apply(s, step));
    case Connected(tid, net) =>
      if net.Ok? {
        MoveKeepsHeadPeeked(s, tid, Apply(s, step));
      } else {
        FailKeepsHeadPeeked(s, tid);
      }
    case Wake(tid) =>
      MoveKeepsHeadPeeked(s, tid, Apply(s, step));
    case Cancel(tid, net) =>
      MoveKeepsHeadPeeked(s, tid, Apply(s, step));
    case Try(tid, net) =>
      var sent := Send(s, s.tasks[tid].Target(), net);
      PeekedFrame(s, sent);
      if net.Ok? {
        SucceedKeepsHeadPeeked(sent, tid);
      } else {
        OverflowFrame(s, sent, tid);
        FailKeepsHeadPeeked(sent, tid);
      }
  }

  lemma PeekedFrame(s: State, t: State)
    requires t.tasks == s.tasks && t.buffer == s.buffer
    ensures HeadPeeked(s) <==> HeadPeeked(t)
    ensures NobodyFlushes(s) <==> NobodyFlushes(t)
  {
    assert forall u :: Flusher(s, u) <==> Flusher(t, u);
  }

  lemma OverflowFrame(s: State, t: State, tid: nat)
    requires t.tasks == s.tasks && t.buffer == s.buffer && tid in s.tasks && OverflowsNothing(s, tid)
    ensures OverflowsNothing(t, tid)
  {
    PeekedFrame(s, t);
  }

  /** A coroutine that moves on to another await, or ends, leaves the buffer alone. */
  lemma MoveKeepsHeadPeeked(s: State, tid: nat, next: State)
    requires HeadPeeked(s) && tid in s.tasks && next.buffer == s.buffer
    requires next.tasks == s.tasks - {tid} || exists phase :: next.tasks == s.tasks[tid := s.tasks[tid].(phase := phase)]
    ensures HeadPeeked(next)
  {
    assert Flusher(s, tid) <==> s.tasks[tid].Flushing?;
    HeadStaysPeeked(s, next, tid);
  }

  lemma CalmKeepsClientHeld(s: State, step: Step)
    requires Enabled(s, step) && ClientHeld(s) && Calm(s, step)
    ensures ClientHeld(Apply(s, step))
  {
    var next := Apply(s, step);
    forall t: nat | In(next, t, Connecting)
      ensures next.connected
    {
      assert t in s.tasks && next.tasks[t] == s.tasks[t] ==> In(s, t, Connecting);
    }
  }

  lemma CalmNeverLoses(s: State, step: Step)
    requires Ledger(s) && Ownership(s) && Enabled(s, step) && HeadPeeked(s) && ClientHeld(s)
    requires Keeps(s, step, NoEmitCancelled)
    ensures !Loses(s, step)
  {
    if step.Connected? || step.Try? || step.Cancel? {
      assert s.tasks[step.tid].Flushing? ==> Flusher(s, step.tid);
      if s.tasks[step.tid].Flushing? {
        PeekedSettledIff(s, step.tid);
        assert s.tasks[step.tid].peeked in s.buffer;
      }
    }
  }

  /** What every reachable state satisfies. */
  ghost predicate Inv(s: State) {
    Ledger(s) && Ownership(s)
  }

  lemma {:induction false} RunKeepsInv(s: State, steps: seq<Step>)
    requires Inv(s) && ValidRun(s, steps)
    ensures Inv(Run(s, steps))
    decreases |steps|
  {
    hide Ledger, Ownership, Apply, Enabled;
    if steps != [] {
      StepKeepsLedger(s, steps[0]);
      StepKeepsOwnership(s, steps[0]);
      RunKeepsInv(Apply(s, steps[0]), steps[1..]);
    }
  }

  // ----- Whole runs -----

  ghost predicate Lossless(s: State, steps: seq<Step>)
    requires ValidRun(s, steps)
    decreases |steps|
  {
    steps == [] || (!Loses(s, steps[0]) && Lossless(Apply(s, steps[0]), steps[1..]))
  }

  ghost predicate AllAccounted(s: State) {
    forall e | e in s.emitted :: Accounted(s, e)
  }

  ghost predicate Lost(s: State, e: AttackEvent) {
    e in s.emitted && !Accounted(s, e)
  }

  lemma AccountedWasEmitted(s: State, e: AttackEvent)
    requires Inv(s) && Accounted(s, e)
    ensures e in s.emitted
  {}

  /** What the coroutine that takes this step carries. */
  predicate StepCarries(s: State, step: Step, e: AttackEvent)
    requires Enabled(s, step)
  {
    (step.Connected? || step.Try? || step.Cancel?) && Carries(s.tasks[step.tid], e)
  }

  lemma PopSettles(s: State, tid: nat, e: AttackEvent)
    requires Ledger(s) && tid in s.tasks && Settled(Succeed(s, tid), e)
    ensures Settled(s, e)
  {}

  lemma FailSettles(s: State, tid: nat, e: AttackEvent)
    requires Ledger(s) && tid in s.tasks && Settled(Fail(s, tid), e)
    ensures Settled(s, e) || Carries(s.tasks[tid], e)
  {}

  lemma SendSettles(s: State, tid: nat, net: Net, e: AttackEvent)
    requires tid in s.tasks && Settled(Send(s, s.tasks[tid].Target(), net), e)
    ensures Settled(s, e) || Carries(s.tasks[tid], e)
  {}

  /** The stream, the buffer and the evicted events take in nothing but what a coroutine carries. */
  lemma SettledComesFrom(s: State, step: Step, e: AttackEvent)
    requires Ledger(s) && Enabled(s, step) && Settled(Apply(s, step), e)
    ensures Settled(s, e) || StepCarries(s, step, e)
  {
    hide Ledger, Settled, SameEvents, Fail, Succeed, Proceed, Send, Carries;
    if Quiet(s, step) {
      QuietStep(s, step);
      SettledFrame(s, Apply(s, step), e);
    } else if step.Connected? {
      FailSettles(s, step.tid, e);
    } else {
      var target := s.tasks[step.tid].Target();
      var sent := Send(s, target, step.net);
      SendKeepsLedger(s, target, step.net);
      SentTasks(s, target, step.net);
      if step.Cancel? {
        SameAfter(sent, step.tid, s.tasks[step.tid], s.tasks[step.tid].Owned());
        SettledFrame(sent, Apply(s, step), e);
      } else if step.net.Ok? {
        PopSettles(sent, step.tid, e);
      } else {
        if !Carries(s.tasks[step.tid], e) {
          FailSettles(sent, step.tid, e);
        }
      }
      if Settled(sent, e) {
        SendSettles(s, step.tid, step.net, e);
      }
    }
  }

  lemma LoopCarries(s: State, tid: nat, owned: Option<AttackEvent>, t: nat, e: AttackEvent)
    requires t in Loop(s, tid, owned).tasks && Carries(Loop(s, tid, owned).tasks[t], e)
    ensures e in s.buffer || owned == Some(e) || (t in s.tasks && t != tid && Carries(s.tasks[t], e))
  {}

  lemma FailCarries(s: State, tid: nat, t: nat, e: AttackEvent)
    requires tid in s.tasks && t in Fail(s, tid).tasks && Carries(Fail(s, tid).tasks[t], e)
    ensures t in s.tasks && Carries(s.tasks[t], e)
  {}

  lemma SucceedCarries(s: State, tid: nat, t: nat, e: AttackEvent)
    requires tid in s.tasks && t in Succeed(s, tid).tasks && Carries(Succeed(s, tid).tasks[t], e)
    ensures e in s.buffer || (t in s.tasks && Carries(s.tasks[t], e))
  {}

  lemma InFlightComesFrom(s: State, step: Step, t: nat, e: AttackEvent)
    requires Enabled(s, step) && t in Apply(s, step).tasks && Carries(Apply(s, step).tasks[t], e)
    ensures (step.Emit? && step.event == e) || Settled(s, e) || (t in s.tasks && Carries(s.tasks[t], e))
  {
    hide Loop, Fail, Succeed;
    match step
    case Emit(tid, event) =>
      LoopCarries(s.(emitted := s.emitted + {event}), tid, Some(event), t, e);
    case Timer(tid) =>
      LoopCarries(s, tid, None, t, e);
    case Connected(tid, net) =>
      if !net.Ok? {
        FailCarries(s, tid, t, e);
      }
    case Try(tid, net) =>
      var sent := Send(s, s.tasks[tid].Target(), net);
      if net.Ok? {
        SucceedCarries(sent, tid, t, e);
      } else {
        FailCarries(sent, tid, t, e);
      }
    case _ =>
  }

  lemma NothingReappears(s: State, step: Step, e: AttackEvent)
    requires Inv(s) && Enabled(s, step) && Lost(s, e)
    ensures Lost(Apply(s, step), e)
  {
    hide Ledger, Ownership, Settled, Carries, Apply;
    var next := Apply(s, step);
    EmittedGrows(s, step);
    if Settled(next, e) {
      SettledComesFrom(s, step, e);
    } else if InFlight(next, e) {
      var t :| t in next.tasks && Carries(next.tasks[t], e);
      InFlightComesFrom(s, step, t, e);
    }
  }

  lemma EmittedGrows(s: State, step: Step)
    requires Enabled(s, step)
    ensures Apply(s, step).emitted == if step.Emit? then s.emitted + {step.event} else s.emitted
  {}

  lemma EndKeepsPublished(s: State, tid: nat)
    requires tid in s.tasks
    ensures Fail(s, tid).published == s.published && Succeed(s, tid).published == s.published
  {}

  /** The stream grows by what the XADD that took effect in the step sent, if any. */
  lemma PublishedGrows(s: State, step: Step)
    requires Enabled(s, step)
    ensures Apply(s, step).published ==
            s.published +
            (if (step.Try? || step.Cancel?) && !step.net.Refused? then [s.tasks[step.tid].Target()] else [])
  {
    hide Fail, Succeed;
    if Quiet(s, step) {
      QuietStep(s, step);
    } else {
      EndKeepsPublished(s, step.tid);
      if step.Try? || step.Cancel? {
        var sent := Send(s, s.tasks[step.tid].Target(), step.net);
        SentTasks(s, s.tasks[step.tid].Target(), step.net);
        EndKeepsPublished(sent, step.tid);
      }
    }
  }

  lemma StepKeepsAllAccounted(s: State, step: Step)
    requires Inv(s) && Enabled(s, step) && AllAccounted(s) && !Loses(s, step)
    ensures AllAccounted(Apply(s, step))
  {
    hide Ledger, Ownership, Accounted, Loses, Loop;
    DropsIffLoses(s, step);
    EmittedGrows(s, step);
    if step.Emit? {
      EmitKeepsAll(s, step.tid, Some(step.event), s.emitted + {step.event});
      InFlightIsAccounted(Apply(s, step), step.event);
    }
  }

  lemma InFlightIsAccounted(s: State, e: AttackEvent)
    requires InFlight(s, e)
    ensures Accounted(s, e)
  {}

  lemma {:induction false} LostForGood(s: State, steps: seq<Step>, e: AttackEvent)
    requires Inv(s) && ValidRun(s, steps) && Lost(s, e)
    ensures Lost(Run(s, steps), e)
    decreases |steps|
  {
    hide Ledger, Ownership, Accounted;
    if steps != [] {
      StepKeepsLedger(s, steps[0]);
      StepKeepsOwnership(s, steps[0]);
      NothingReappears(s, steps[0], e);
      LostForGood(Apply(s, steps[0]), steps[1..], e);
    }
  }

  lemma LosingStepLoses(s: State, step: Step) returns (e: AttackEvent)
    requires Inv(s) && Enabled(s, step) && Loses(s, step)
    ensures Lost(Apply(s, step), e)
  {
    DropsIffLoses(s, step);
    e :| Accounted(s, e) && !Accounted(Apply(s, step), e);
    AccountedWasEmitted(s, e);
    EmittedGrows(s, step);
  }

  /**
   The exact condition for conservation, for every run: each emitted event is in flight, in the
   stream, in the buffer, or was evicted from a full buffer, if and only if no step was a losing one.
   */
  lemma {:induction false} ConservesIffLossless(s: State, steps: seq<Step>)
    requires Inv(s) && AllAccounted(s) && ValidRun(s, steps)
    ensures AllAccounted(Run(s, steps)) <==> Lossless(s, steps)
    decreases |steps|
  {
    hide Ledger, Ownership, Accounted, Loses;
    if steps != [] {
      var next := Apply(s, steps[0]);
      StepKeepsLedger(s, steps[0]);
      StepKeepsOwnership(s, steps[0]);
      if Loses(s, steps[0]) {
        var e := LosingStepLoses(s, steps[0]);
        LostForGood(next, steps[1..], e);
      } else {
        StepKeepsAllAccounted(s, steps[0]);
        ConservesIffLossless(next, steps[1..]);
      }
    }
  }

  /** The condition holds at every step of a run. */
  ghost predicate KeepsThroughout(s: State, steps: seq<Step>, c: Condition)
    requires ValidRun(s, steps)
    decreases |steps|
  {
    steps == [] || (Keeps(s, steps[0], c) && KeepsThroughout(Apply(s, steps[0]), steps[1..], c))
  }

  ghost predicate CalmRun(s: State, steps: seq<Step>)
    requires ValidRun(s, steps)
  {
    forall c: Condition :: KeepsThroughout(s, steps, c)
  }

  lemma CalmRunUnfolds(s: State, steps: seq<Step>)
    requires ValidRun(s, steps) && CalmRun(s, steps) && steps != []
    ensures Calm(s, steps[0]) && CalmRun(Apply(s, steps[0]), steps[1..])
  {
    hide Keeps, Apply, Enabled;
    assert KeepsThroughout(s, steps, OneFlusher) && KeepsThroughout(s, steps, NoOverflow);
    assert KeepsThroughout(s, steps, ClientKept) && KeepsThroughout(s, steps, NoEmitCancelled);
    forall c: Condition
      ensures KeepsThroughout(Apply(s, steps[0]), steps[1..], c)
    {
      assert KeepsThroughout(s, steps, c);
    }
  }

  /** A calm schedule never loses. */
  lemma {:induction false} CalmIsLossless(s: State, steps: seq<Step>)
    requires Inv(s) && HeadPeeked(s) && ClientHeld(s) && ValidRun(s, steps) && CalmRun(s, steps)
    ensures Lossless(s, steps)
    decreases |steps|
  {
    hide Ledger, Ownership, HeadPeeked, ClientHeld, CalmRun, Keeps, Loses, Enabled, Apply;
    if steps != [] {
      CalmRunUnfolds(s, steps);
      CalmNeverLoses(s, steps[0]);
      CalmKeepsHeadPeeked(s, steps[0]);
      CalmKeepsClientHeld(s, steps[0]);
      StepKeepsLedger(s, steps[0]);
      StepKeepsOwnership(s, steps[0]);
      CalmIsLossless(Apply(s, steps[0]), steps[1..]);
    }
  }

  /**
   Conservation: in every run with at most one active flusher, no overflow during a flush, no client
   dropped under somebody's connect and no `emit_event` cancelled, each emitted event is in flight, in the stream, in the
   buffer, or was evicted from a full buffer.
   */
  lemma CalmRunsConserve(steps: seq<Step>)
    requires ValidRun(INIT, steps) && CalmRun(INIT, steps)
    ensures AllAccounted(Run(INIT, steps))
  {
    CalmIsLossless(INIT, steps);
    ConservesIffLossless(INIT, steps);
  }
}
