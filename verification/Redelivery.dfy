/**
 How often the workers classify an entry, and so how far the live window can run ahead of the table:
 every repeat is owed to another copy in the stream or to a loss of the group.
 */
module Redelivery {
  import opened Events
  import opened Sequences
  import opened Classifier
  import opened IPContextStore
  import opened EventQueue
  import opened Backfill
  import opened LiveBackfill
  import D = Delivery

  // ----- Classifications along a run -----

  /** The entries classified along a run, in order. */
  function Classified(s: D.State, steps: seq<D.Step>): seq<nat>
    requires D.ValidRun(s, steps)
    decreases |steps|
  {
    if steps == [] then []
    else
      (if steps[0].Label? then [s.workers[steps[0].w].batch[0]] else []) +
      Classified(D.Apply(s, steps[0]), steps[1..])
  }

  function Queue(work: D.Work): seq<nat> {
    if work.Ready? then work.batch else work.rest
  }

  /** No worker has an entry waiting twice. */
  ghost predicate QueuesOk(s: D.State) {
    forall w | w in s.workers :: Distinct(Queue(s.workers[w]))
  }

  /** The workers with entry `i` still waiting. */
  function Waiting(s: D.State, i: nat): set<nat> {
    set w | w in s.workers && i in Queue(s.workers[w])
  }

  predicate Labels(s: D.State, step: D.Step, i: nat)
    requires D.Enabled(s, step)
  {
    step.Label? && s.workers[step.w].batch[0] == i
  }

  lemma DeliveredDistinct(s: D.State, count: nat)
    requires s.group.Group? && s.group.cursor <= |s.stream|
    ensures Distinct(D.Delivered(s, count))
  {}

  lemma TailDistinct(s: seq<nat>)
    requires s != [] && Distinct(s)
    ensures Distinct(s[1..]) && s[0] !in s[1..]
    ensures forall x :: x in s <==> x == s[0] || x in s[1..]
  {}

  /** The queue of the worker that takes a step. */
  lemma OwnQueue(s: D.State, step: D.Step)
    requires D.Enabled(s, step) && (step.Read? || step.Discard? || step.Label? || step.Commit? || step.Ack?)
    ensures step.w in s.workers && step.w in D.Apply(s, step).workers
    ensures var before, after := Queue(s.workers[step.w]), Queue(D.Apply(s, step).workers[step.w]);
            after == before || after == [] ||
            (step.Read? && before == [] && !step.net.Refused? && after == D.Delivered(s, step.count)) ||
            ((step.Label? || step.Discard?) && before != [] && after == before[1..])
    ensures step.Label? ==>
              (s.workers[step.w].Ready? && s.workers[step.w].batch != [] &&
               Queue(D.Apply(s, step).workers[step.w]) == s.workers[step.w].batch[1..])
  {}

  lemma OtherQueues(s: D.State, step: D.Step, w: nat)
    requires D.Enabled(s, step)
    requires (step.Read? || step.Discard? || step.Label? || step.Commit? || step.Ack?) ==> step.w != w
    ensures w in D.Apply(s, step).workers ==>
              (w in s.workers && D.Apply(s, step).workers[w] == s.workers[w]) || Queue(D.Apply(s, step).workers[w]) == []
  {}

  lemma StepKeepsQueues(s: D.State, step: D.Step)
    requires QueuesOk(s) && D.Enabled(s, step)
    ensures QueuesOk(D.Apply(s, step))
  {
    hide D.Apply, D.Enabled;
    forall w | w in D.Apply(s, step).workers
      ensures Distinct(Queue(D.Apply(s, step).workers[w]))
    {
      if (step.Read? || step.Discard? || step.Label? || step.Commit? || step.Ack?) && step.w == w {
        OwnQueue(s, step);
        if Queue(s.workers[w]) != [] {
          TailDistinct(Queue(s.workers[w]));
        }
        if step.Read? {
          ReadFromGroup(s, step);
          DeliveredDistinct(s, step.count);
        }
      } else {
        OtherQueues(s, step, w);
      }
    }
  }

  lemma ReadFromGroup(s: D.State, step: D.Step)
    requires D.Enabled(s, step) && step.Read?
    ensures s.group.Group? && s.group.cursor <= |s.stream|
  {}

  /** An entry starts waiting only by a delivery, and each classification ends one wait. */
  lemma StepWaiting(s: D.State, step: D.Step, i: nat)
    requires QueuesOk(s) && D.Enabled(s, step)
    ensures |Waiting(D.Apply(s, step), i)| + (if Labels(s, step, i) then 1 else 0) <=
            |Waiting(s, i)| + (if D.Delivers(s, step, i) then 1 else 0)
  {
    hide D.Apply, D.Enabled, QueuesOk, Queue, D.Delivers;
    var next := D.Apply(s, step);
    forall w | w in Waiting(next, i)
      ensures w in Waiting(s, i) || (D.Delivers(s, step, i) && step.Read? && w == step.w)
      ensures Labels(s, step, i) ==> w != step.w
    {
      WaitsStill(s, step, i, w);
    }
    if Labels(s, step, i) {
      WasWaiting(s, step, i);
      SubsetSize(Waiting(next, i), Waiting(s, i) - {step.w});
    } else if D.Delivers(s, step, i) {
      IsRead(s, step, i);
      SubsetSize(Waiting(next, i), Waiting(s, i) + {step.w});
    } else {
      SubsetSize(Waiting(next, i), Waiting(s, i));
    }
  }

  lemma IsRead(s: D.State, step: D.Step, i: nat)
    requires D.Enabled(s, step) && D.Delivers(s, step, i)
    ensures step.Read?
  {}

  lemma WasWaiting(s: D.State, step: D.Step, i: nat)
    requires D.Enabled(s, step) && Labels(s, step, i)
    ensures step.w in Waiting(s, i)
    ensures !D.Delivers(s, step, i)
  {}

  lemma WaitsStill(s: D.State, step: D.Step, i: nat, w: nat)
    requires QueuesOk(s) && D.Enabled(s, step) && w in Waiting(D.Apply(s, step), i)
    ensures w in Waiting(s, i) || (D.Delivers(s, step, i) && step.Read? && w == step.w)
    ensures Labels(s, step, i) ==> w != step.w
  {
    hide D.Apply, D.Enabled;
    if (step.Read? || step.Discard? || step.Label? || step.Commit? || step.Ack?) && step.w == w {
      OwnQueue(s, step);
      if Queue(s.workers[w]) != [] {
        TailDistinct(Queue(s.workers[w]));
      }
    } else {
      OtherQueues(s, step, w);
    }
  }

  lemma {:induction false} ClassifiedAtMostDelivered(s: D.State, steps: seq<D.Step>, i: nat)
    requires QueuesOk(s) && D.ValidRun(s, steps)
    ensures multiset(Classified(s, steps))[i] <= D.Deliveries(s, steps, i) + |Waiting(s, i)|
    decreases |steps|
  {
    hide D.Apply, D.Enabled, QueuesOk, Waiting, D.Delivers;
    if steps != [] {
      StepKeepsQueues(s, steps[0]);
      StepWaiting(s, steps[0], i);
      ClassifiedAtMostDelivered(D.Apply(s, steps[0]), steps[1..], i);
    }
  }

  /** No entry is classified more often than the group was lost, plus once. */
  lemma ClassifiedPerEntry(steps: seq<D.Step>, i: nat)
    requires D.ValidRun(D.INIT, steps)
    ensures multiset(Classified(D.INIT, steps))[i] <= D.GroupLosses(steps) + 1
  {
    ClassifiedAtMostDelivered(D.INIT, steps, i);
    D.DeliveredOncePerGroup(D.INIT, steps, i);
  }

  // ----- The bound on repeats -----

  /** These arrivals are the classifications of this run; clocks and replies are their own. */
  ghost predicate ArrivalsOf(steps: seq<D.Step>, arrivals: seq<Arrival>)
    requires D.ValidRun(D.INIT, steps)
  {
    var entries, stream := Classified(D.INIT, steps), D.Run(D.INIT, steps).stream;
    |arrivals| == |entries| &&
    forall k | 0 <= k < |entries| :: IsEntry(stream, entries[k], arrivals[k].event)
  }

  predicate IsEntry(stream: seq<Payload>, i: nat, event: AttackEvent) {
    i < |stream| && stream[i] == Event(event)
  }

  /** The entries behind the arrivals counted for `ip` among the first `n`, in order. */
  function EntriesCounted(entries: seq<nat>, arrivals: seq<Arrival>, n: nat, ip: string): seq<nat>
    requires n <= |arrivals| == |entries|
  {
    if n == 0 then []
    else EntriesCounted(entries, arrivals, n - 1, ip) + (if Counts(arrivals[n - 1], ip) then [entries[n - 1]] else [])
  }

  lemma {:induction false} EntriesAreCalls(entries: seq<nat>, arrivals: seq<Arrival>, n: nat, ip: string)
    requires n <= |arrivals| == |entries|
    ensures |EntriesCounted(entries, arrivals, n, ip)| == |CallsOf(Effective(arrivals, n), ip)|
    ensures forall i :: multiset(EntriesCounted(entries, arrivals, n, ip))[i] <= multiset(entries[..n])[i]
  {
    hide CallsOf, Effective, Counts, Ports;
    if n > 0 {
      EntriesAreCalls(entries, arrivals, n - 1, ip);
      CallsStep(arrivals, n - 1, ip);
      assert entries[..n] == entries[..n - 1] + [entries[n - 1]];
    } else {
      NothingCounted(arrivals, ip);
    }
  }

  function Members(s: seq<nat>): set<nat> {
    set i | i in s
  }

  function Support(m: multiset<nat>): set<nat> {
    set i | i in m
  }

  lemma {:induction false} SizeBound(m: multiset<nat>, most: nat)
    requires forall i :: m[i] <= most
    ensures |m| <= |Support(m)| * most
    decreases |m|
  {
    if i :| i in m {
      var rest := m[i := 0];
      assert Support(rest) == Support(m) - {i};
      SizeBound(rest, most);
      assert |m| == |rest| + m[i];
      assert (|Support(m)| - 1) * most + most == |Support(m)| * most;
    }
  }

  lemma PrefixCounts(entries: seq<nat>, n: nat, i: nat)
    requires n <= |entries|
    ensures multiset(entries[..n])[i] <= multiset(entries)[i]
  {
    assert entries == entries[..n] + entries[n..];
  }

  lemma CountedPerEntry(steps: seq<D.Step>, arrivals: seq<Arrival>, n: nat, ip: string, i: nat)
    requires D.ValidRun(D.INIT, steps) && n <= |arrivals| == |Classified(D.INIT, steps)|
    ensures multiset(EntriesCounted(Classified(D.INIT, steps), arrivals, n, ip))[i] <= D.GroupLosses(steps) + 1
  {
    var entries := Classified(D.INIT, steps);
    EntriesAreCalls(entries, arrivals, n, ip);
    PrefixCounts(entries, n, i);
    ClassifiedPerEntry(steps, i);
    hide *;
  }

  /**
   The repeats among the arrivals of an IP number at most its classified entries, times one more than
   the losses of the group, less its distinct events.
   */
  lemma RepeatsBound(steps: seq<D.Step>, arrivals: seq<Arrival>, n: nat, ip: string)
    requires D.ValidRun(D.INIT, steps) && n <= |arrivals| == |Classified(D.INIT, steps)|
    ensures Repeats(arrivals, n, ip) + |IdsCounted(arrivals, n, ip)| <=
            |Members(EntriesCounted(Classified(D.INIT, steps), arrivals, n, ip))| * (D.GroupLosses(steps) + 1)
  {
    hide *;
    var counted := EntriesCounted(Classified(D.INIT, steps), arrivals, n, ip);
    CallsAreIdsAndRepeats(arrivals, n, ip);
    EntriesAreCalls(Classified(D.INIT, steps), arrivals, n, ip);
    forall i
      ensures multiset(counted)[i] <= D.GroupLosses(steps) + 1
    {
      CountedPerEntry(steps, arrivals, n, ip, i);
    }
    SizeBound(multiset(counted), D.GroupLosses(steps) + 1);
    SameMembers(counted);
  }

  lemma SameMembers(s: seq<nat>)
    ensures Support(multiset(s)) == Members(s) && |multiset(s)| == |s|
  {}

  // ----- When every event is delivered once -----

  /** No two entries of the stream carry one id. */
  ghost predicate SingleCopies(stream: seq<Payload>) {
    forall i, j, d, e | IsEntry(stream, i, d) && IsEntry(stream, j, e) && d.id == e.id :: i == j
  }

  lemma {:induction false} CountedEntry(entries: seq<nat>, arrivals: seq<Arrival>, n: nat, ip: string, k: nat)
    requires k < n <= |arrivals| == |entries| && Counts(arrivals[k], ip)
    ensures entries[k] in EntriesCounted(entries, arrivals, n, ip)
  {
    if k < n - 1 {
      CountedEntry(entries, arrivals, n - 1, ip, k);
    }
  }

  /** An id counted before came from the same entry. */
  lemma RepeatIsSameEntry(entries: seq<nat>, arrivals: seq<Arrival>, stream: seq<Payload>, n: nat, ip: string)
    requires n < |arrivals| == |entries| && SingleCopies(stream) && arrivals[n].event.id in IdsCounted(arrivals, n, ip)
    requires forall k | 0 <= k < |entries| :: IsEntry(stream, entries[k], arrivals[k].event)
    ensures entries[n] in EntriesCounted(entries, arrivals, n, ip)
  {
    var k :| 0 <= k < n && Counts(arrivals[k], ip) && arrivals[k].event.id == arrivals[n].event.id;
    assert IsEntry(stream, entries[k], arrivals[k].event) && IsEntry(stream, entries[n], arrivals[n].event);
    CountedEntry(entries, arrivals, n, ip, k);
  }

  lemma IsMember(entries: seq<nat>, arrivals: seq<Arrival>, n: nat, ip: string)
    requires n < |arrivals| == |entries|
    ensures var counted := EntriesCounted(entries, arrivals, n, ip);
            entries[n] in counted <==> entries[n] in Members(counted)
  {}

  lemma NoMembers(entries: seq<nat>, arrivals: seq<Arrival>, ip: string)
    requires |arrivals| == |entries|
    ensures Members(EntriesCounted(entries, arrivals, 0, ip)) == {}
  {}

  lemma MembersStep(entries: seq<nat>, arrivals: seq<Arrival>, n: nat, ip: string)
    requires n < |arrivals| == |entries|
    ensures Members(EntriesCounted(entries, arrivals, n + 1, ip)) ==
            Members(EntriesCounted(entries, arrivals, n, ip)) + (if Counts(arrivals[n], ip) then {entries[n]} else {})
  {}

  lemma {:induction false} EntriesHaveIds(entries: seq<nat>, arrivals: seq<Arrival>, stream: seq<Payload>, n: nat, ip: string)
    requires n <= |arrivals| == |entries| && SingleCopies(stream)
    requires forall k | 0 <= k < |entries| :: IsEntry(stream, entries[k], arrivals[k].event)
    ensures |Members(EntriesCounted(entries, arrivals, n, ip))| <= |IdsCounted(arrivals, n, ip)|
  {
    hide IdsCounted, Counts, EntriesCounted, IsEntry, SingleCopies, Members;
    NoMembers(entries, arrivals, ip);
    if n > 0 {
      EntriesHaveIds(entries, arrivals, stream, n - 1, ip);
      IdsStep(arrivals, n - 1, ip);
      MembersStep(entries, arrivals, n - 1, ip);
      IsMember(entries, arrivals, n - 1, ip);
      if arrivals[n - 1].event.id in IdsCounted(arrivals, n - 1, ip) {
        RepeatIsSameEntry(entries, arrivals, stream, n - 1, ip);
      }
    }
  }

  /** Without a lost group and without copies nothing is counted twice. */
  lemma DeliveredOnceNoRepeats(steps: seq<D.Step>, arrivals: seq<Arrival>, n: nat, ip: string)
    requires D.ValidRun(D.INIT, steps) && ArrivalsOf(steps, arrivals) && n <= |arrivals|
    requires D.GroupLosses(steps) == 0 && SingleCopies(D.Run(D.INIT, steps).stream)
    ensures Repeats(arrivals, n, ip) == 0
  {
    RepeatsBound(steps, arrivals, n, ip);
    EntriesHaveIds(Classified(D.INIT, steps), arrivals, D.Run(D.INIT, steps).stream, n, ip);
  }

  /** Then backfill ranks every event at least as high as its live label, for all rules. */
  lemma DeliveredOnceRanks(rules: DetectionRules, steps: seq<D.Step>, arrivals: seq<Arrival>, i: nat,
                           rows: Table, r: nat, window: real, inclusive: bool)
    requires D.ValidRun(D.INIT, steps) && ArrivalsOf(steps, arrivals)
    requires D.GroupLosses(steps) == 0 && SingleCopies(D.Run(D.INIT, steps).stream)
    requires Covers(rows, r, arrivals, i)
    ensures Rank(LiveLabel(rules, arrivals, i, window, inclusive).attackType) <=
            Rank(Labelled(rules, rows, r).attackType.value)
  {
    DeliveredOnceNoRepeats(steps, arrivals, i + 1, IpAt(arrivals, i));
    BackfillRanksAtLeastLive(rules, rows, r, arrivals, i, window, inclusive);
  }

  // ----- Copies do repeat -----

  lemma {:induction false} ClassifiedExtends(s: D.State, steps: seq<D.Step>, step: D.Step)
    requires D.ValidRun(s, steps) && D.Enabled(D.Run(s, steps), step)
    ensures D.ValidRun(s, steps + [step]) && D.Run(s, steps + [step]) == D.Apply(D.Run(s, steps), step)
    ensures Classified(s, steps + [step]) ==
            Classified(s, steps) + (if step.Label? then [D.Run(s, steps).workers[step.w].batch[0]] else [])
    decreases |steps|
  {
    D.Extend(s, steps, step);
    if steps != [] {
      ClassifiedExtends(D.Apply(s, steps[0]), steps[1..], step);
      assert (steps + [step])[1..] == steps[1..] + [step];
    } else {
      assert [step][1..] == [];
      assert Classified(D.Apply(s, step), []) == [];
    }
  }

  /** A run that has classified these entries so far, without a lost group. */
  ghost predicate Story(steps: seq<D.Step>, t: D.State, classified: seq<nat>) {
    D.ValidRun(D.INIT, steps) && D.Run(D.INIT, steps) == t && Classified(D.INIT, steps) == classified &&
    D.GroupLosses(steps) == 0
  }

  lemma {:induction false} LossesExtend(steps: seq<D.Step>, step: D.Step)
    requires !step.LoseGroup?
    ensures D.GroupLosses(steps + [step]) == D.GroupLosses(steps)
  {
    if steps != [] {
      LossesExtend(steps[1..], step);
      assert (steps + [step])[1..] == steps[1..] + [step];
    } else {
      assert [step][1..] == [];
    }
  }

  lemma Continue(steps: seq<D.Step>, t: D.State, classified: seq<nat>, step: D.Step)
    returns (longer: seq<D.Step>, next: D.State)
    requires Story(steps, t, classified) && D.Enabled(t, step) && !step.LoseGroup?
    ensures next == D.Apply(t, step)
    ensures Story(longer, next, classified + (if step.Label? then [t.workers[step.w].batch[0]] else []))
  {
    ClassifiedExtends(D.INIT, steps, step);
    LossesExtend(steps, step);
    longer, next := steps + [step], D.Apply(t, step);
  }

  /** Three entries, read by three workers. */
  lemma ThreeEntriesRead(first: Payload, second: Payload, third: Payload) returns (steps: seq<D.Step>, t: D.State)
    ensures Story(steps, t, [])
    ensures t.stream == [first, second, third]
    ensures t.workers == map[0 := D.Ready([0]), 1 := D.Ready([1]), 2 := D.Ready([2])]
  {
    hide Story;
    assert Story([], D.INIT, []) by { NoStory(); }
    steps, t := Continue([], D.INIT, [], D.Append(first));
    steps, t := Continue(steps, t, [], D.Append(second));
    steps, t := Continue(steps, t, [], D.Append(third));
    steps, t := Continue(steps, t, [], D.EnsureGroup);
    assert t.stream == [first, second, third] && t.group == Group(0, map[], {}) && t.workers == map[];
    for w := 0 to 3
      invariant Story(steps, t, [])
      invariant t.stream == [first, second, third] && t.group.Group? && t.group.cursor == w
      invariant t.workers == ReadyUpTo(w)
    {
      steps, t := Continue(steps, t, [], D.Start(w));
      ReadsOne(t, w);
      steps, t := Continue(steps, t, [], D.Read(w, 1, Ok));
    }
  }

  function ReadyUpTo(n: nat): map<nat, D.Work> {
    map w: nat | w < n :: D.Ready([w])
  }

  lemma ReadsOne(t: D.State, w: nat)
    requires t.group.Group? && t.group.cursor == w < |t.stream| && w in t.workers && t.workers[w] == D.Ready([])
    ensures D.Enabled(t, D.Read(w, 1, Ok))
    ensures var next := D.Apply(t, D.Read(w, 1, Ok));
            next.stream == t.stream && next.group.Group? && next.group.cursor == w + 1 &&
            next.workers == t.workers[w := D.Ready([w])]
  {
    assert D.Delivered(t, 1) == [w];
  }

  lemma NoStory()
    ensures Story([], D.INIT, [])
  {}

  /** An event appended twice, by a retry after one lost reply, is classified twice. */
  lemma DuplicateIsReachable(rules: DetectionRules, a: AttackEvent, b: AttackEvent) returns (steps: seq<D.Step>)
    ensures D.ValidRun(D.INIT, steps) && D.GroupLosses(steps) == 0 && ArrivalsOf(steps, DeliveredTwice(a, b))
  {
    var t;
    steps, t := ThreeEntriesRead(Event(a), Event(a), Event(b));
    hide Story;
    steps, t := Continue(steps, t, [], D.Label(0, rules, None));
    steps, t := Continue(steps, t, [0], D.Label(1, rules, None));
    steps, t := Continue(steps, t, [0, 1], D.Label(2, rules, None));
    StoryArrivals(steps, t, a, b);
  }

  lemma StoryArrivals(steps: seq<D.Step>, t: D.State, a: AttackEvent, b: AttackEvent)
    requires Story(steps, t, [0, 1, 2]) && t.stream == [Event(a), Event(a), Event(b)]
    ensures D.ValidRun(D.INIT, steps) && D.GroupLosses(steps) == 0 && ArrivalsOf(steps, DeliveredTwice(a, b))
  {}
}
