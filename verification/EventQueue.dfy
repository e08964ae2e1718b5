/** The Redis stream, its consumer group, and the queue client that publishes, reads and acks. */
module EventQueue {
  import opened Events

  const MAX_RETRIES := 5

  /** How a Redis command ended: done, done but the reply was lost, or never executed. */
  datatype Net = Ok | LostReply | Refused

  /** A stream entry: one of our events, or something `from_json_str` rejects. */
  datatype Payload = Event(event: AttackEvent) | Malformed

  /**
   The consumer group. Entries are named by their position in the stream; `cursor` is the
   last-delivered id, `pending` maps delivered entries to their consumer, and `acked` holds the
   entries removed from `pending`.
   */
  datatype Group = Missing | Group(cursor: nat, pending: map<nat, nat>, acked: set<nat>)

  /** XGROUP CREATE at id "0"; an existing group answers BUSYGROUP and stays. */
  function XgroupCreate(group: Group): Group {
    if group.Missing? then Group(0, map[], {}) else group
  }

  /** How many entries XREADGROUP with ">" delivers. */
  function Available(group: Group, length: nat, count: nat): nat
    requires group.Group? && group.cursor <= length
  {
    if length - group.cursor < count then length - group.cursor else count
  }

  function Range(lo: nat, hi: nat): (r: set<nat>)
    requires lo <= hi
    ensures forall i :: i in r <==> lo <= i < hi
    decreases hi - lo
  {
    if lo == hi then {} else Range(lo, hi - 1) + {hi - 1}
  }

  function Assign(entries: set<nat>, consumer: nat): map<nat, nat> {
    map i | i in entries :: consumer
  }

  /** XREADGROUP with ">": the next entries go to `consumer` and become pending. */
  function Xreadgroup(group: Group, length: nat, consumer: nat, count: nat): Group
    requires group.Group? && group.cursor <= length
  {
    var n := Available(group, length, count);
    Group(group.cursor + n,
          group.pending + Assign(Range(group.cursor, group.cursor + n), consumer),
          group.acked)
  }

  /** XACK: removes a pending entry, and has no effect on any other. */
  function Xack(group: Group, entry: nat): Group {
    if group.Group? && entry in group.pending
    then Group(group.cursor, group.pending - {entry}, group.acked + {entry})
    else group
  }

  /** Delivered entries are a prefix of the stream, each pending or acked but not both. */
  ghost predicate GroupInv(group: Group, length: nat) {
    group.Group? ==>
      group.cursor <= length &&
      (forall i: nat :: i < group.cursor <==> i in group.pending || i in group.acked) &&
      forall i: nat :: !(i in group.pending && i in group.acked)
  }

  lemma CommandsKeepGroupInv(group: Group, length: nat, consumer: nat, count: nat, entry: nat)
    requires GroupInv(group, length)
    ensures GroupInv(group, length + 1)
    ensures GroupInv(XgroupCreate(group), length)
    ensures GroupInv(Xack(group, entry), length)
    ensures group.Group? ==> GroupInv(Xreadgroup(group, length, consumer, count), length)
  {}

  /** What the commands do to one entry `i`, and to the position up to which the group has read. */
  lemma CommandsByEntry(group: Group, length: nat, consumer: nat, count: nat, entry: nat, i: nat)
    requires group.Group? && GroupInv(group, length)
    ensures XgroupCreate(group) == group && XgroupCreate(Missing) == Group(0, map[], {})
    ensures var read := Xreadgroup(group, length, consumer, count);
            read.cursor == (if group.cursor + count <= length then group.cursor + count else length) &&
            read.acked == group.acked &&
            (if group.cursor <= i < read.cursor then i in read.pending && read.pending[i] == consumer
             else if i in group.pending then i in read.pending && read.pending[i] == group.pending[i]
             else i !in read.pending)
    ensures var acked := Xack(group, entry);
            acked.cursor == group.cursor &&
            (i in acked.acked <==> i in group.acked || (i == entry && i in group.pending)) &&
            (i in acked.pending <==> i in group.pending && i != entry) &&
            (i in acked.pending ==> acked.pending[i] == group.pending[i])
  {}

  /** The entries of `n` copies of one event. */
  function Copies(event: AttackEvent, n: nat): (c: seq<Payload>)
    ensures |c| == n
  {
    seq(n, _ => Event(event))
  }

  /** How many of these commands took effect. */
  function Effects(outcomes: seq<Net>): (n: nat)
    ensures n <= |outcomes|
  {
    if outcomes == [] then 0
    else Effects(outcomes[..|outcomes| - 1]) + (if outcomes[|outcomes| - 1].Refused? then 0 else 1)
  }

  /** What a finished `publish` looks like from outside: it stops at the first success, or gives up after five. */
  ghost predicate PublishTrace(outcomes: seq<Net>, success: bool) {
    1 <= |outcomes| <= 5 &&
    (forall i | 0 <= i < |outcomes| - 1 :: !outcomes[i].Ok?) &&
    (success <==> outcomes[|outcomes| - 1].Ok?) &&
    (!success ==> |outcomes| == 5)
  }

  /** What the network does to the connect and to the command of one attempt. */
  datatype Attempt = Attempt(connect: Net, command: Net) {
    /** Whether the command reached the server, given whether the client was connected. */
    predicate Sent(connected: bool) {
      (connected || connect.Ok?) && !command.Refused?
    }

    /** How the attempt as a whole ends: a failed connect counts as a command never executed. */
    function Outcome(connected: bool): Net {
      if connected || connect.Ok? then command else Refused
    }

    /** The group as the command finds it: connecting creates a missing one. */
    function Found(connected: bool, group: Group): Group {
      if connected || connect.Refused? then group else XgroupCreate(group)
    }
  }

  /** The attempts end as the network has it; only the first can find a connection. */
  ghost predicate Follows(outcomes: seq<Net>, net: nat -> Attempt, connected: bool) {
    forall i | 0 <= i < |outcomes| :: outcomes[i] == net(i).Outcome(i == 0 && connected)
  }

  lemma NoCopies(event: AttackEvent)
    ensures Copies(event, Effects([])) == []
  {}

  lemma OneMoreCopy(event: AttackEvent, outcomes: seq<Net>, outcome: Net)
    ensures Copies(event, Effects(outcomes + [outcome])) ==
            Copies(event, Effects(outcomes)) + (if outcome.Refused? then [] else [Event(event)])
  {}

  /** The server, shared by every client. */
  class RedisServer {
    var stream: seq<Payload>
    var group: Group

    constructor ()
      ensures stream == [] && group == Missing
    {
      stream, group := [], Missing;
    }
  }

  /** `EventQueue`: one client of the server. */
  class EventQueue {
    const server: RedisServer
    var connected: bool

    constructor (server: RedisServer)
      ensures this.server == server && !connected
    {
      this.server, connected := server, false;
    }

    /** Connects and makes sure the group exists; returns whether it went through. */
    method Connect(net: Net) returns (ok: bool)
      modifies this`connected, server`group
      ensures ok == net.Ok? && connected
      ensures server.group == if net.Refused? then old(server.group) else XgroupCreate(old(server.group))
    {
      connected := true;
      if !net.Refused? {
        server.group := XgroupCreate(server.group);
      }
      ok := net.Ok?;
    }

    /** One attempt to publish: connect if needed, then XADD; any failure drops the connection. */
    method TryPublish(event: AttackEvent, net: Attempt) returns (outcome: Net)
      modifies this`connected, server
      ensures outcome == net.Outcome(old(connected)) && connected == outcome.Ok?
      ensures server.stream == if outcome.Refused? then old(server.stream) else old(server.stream) + [Event(event)]
      ensures server.group == net.Found(old(connected), old(server.group))
    {
      var ready := connected;
      if !ready {
        ready := Connect(net.connect);
      }
      outcome := if ready then net.command else Refused;
      if !outcome.Refused? {
        server.stream := server.stream + [Event(event)];
      }
      connected := outcome.Ok?;
    }

    /**
     Publishes with up to five attempts. The stream gains one copy of the event per XADD that took
     effect; `entry` is the last of them, and None stands for the ConnectionError. `outcomes` says
     how each attempt ended.
     */
    method Publish(event: AttackEvent, net: nat -> Attempt) returns (entry: Option<nat>, ghost outcomes: seq<Net>)
      modifies this`connected, server
      ensures PublishTrace(outcomes, entry.Some?)
      ensures Follows(outcomes, net, old(connected))
      ensures server.stream == old(server.stream) + Copies(event, Effects(outcomes))
      ensures entry.Some? ==> |server.stream| > |old(server.stream)| && entry.value == |server.stream| - 1
      ensures server.group == old(server.group) || server.group == XgroupCreate(old(server.group))
      ensures connected == entry.Some?
    {
      hide Effects, Copies;
      outcomes := [];
      NoCopies(event);
      for attempt := 0 to MAX_RETRIES
        invariant |outcomes| == attempt && forall i | 0 <= i < attempt :: !outcomes[i].Ok?
        invariant server.stream == old(server.stream) + Copies(event, Effects(outcomes))
        invariant server.group == old(server.group) || server.group == XgroupCreate(old(server.group))
        invariant connected == (attempt == 0 && old(connected))
        invariant Follows(outcomes, net, old(connected))
      {
        var outcome := TryPublish(event, net(attempt));
        OneMoreCopy(event, outcomes, outcome);
        outcomes := outcomes + [outcome];
        if outcome.Ok? {
          return Some(|server.stream| - 1), outcomes;
        }
      }
      entry := None;
    }

    /**
     One round of the consume loop: read up to `count` undelivered entries. A missing group is
     recreated at the start of the stream, by a command of its own, and the round yields nothing; a lost
     reply delivers the entries without yielding them. Any failure drops the connection.
     */
    method Poll(consumer: nat, count: nat, net: Attempt, recreate: Net) returns (batch: seq<nat>)
      requires GroupInv(server.group, |server.stream|)
      modifies this`connected, server`group
      ensures GroupInv(server.group, |server.stream|)
      ensures var found := net.Found(old(connected), old(server.group));
              GroupInv(found, |server.stream|) &&
              server.group == (if !net.Sent(old(connected)) then found
                               else if found.Group? then Xreadgroup(found, |server.stream|, consumer, count)
                               else if net.command.Ok? && !recreate.Refused? then XgroupCreate(found)
                               else found) &&
              connected == (net.Sent(old(connected)) && net.command.Ok? && (found.Group? || recreate.Ok?)) &&
              (if net.Sent(old(connected)) && net.command.Ok? && found.Group? then
                 |batch| == Available(found, |server.stream|, count) &&
                 forall k | 0 <= k < |batch| :: batch[k] == found.cursor + k
               else batch == [])
    {
      batch := [];
      CommandsKeepGroupInv(server.group, |server.stream|, consumer, count, 0);
      var ready := connected;
      if !ready {
        ready := Connect(net.connect);
      }
      if !ready || net.command.Refused? {
        connected := false;
        return;
      }
      CommandsKeepGroupInv(server.group, |server.stream|, consumer, count, 0);
      if server.group.Missing? {
        if net.command.Ok? && !recreate.Refused? {
          server.group := XgroupCreate(server.group);
        }
        connected := net.command.Ok? && recreate.Ok?;
        return;
      }
      var first, n := server.group.cursor, Available(server.group, |server.stream|, count);
      server.group := Xreadgroup(server.group, |server.stream|, consumer, count);
      if net.command.Ok? {
        batch := seq(n, k requires 0 <= k < n => first + k);
      }
      connected := net.command.Ok?;
    }

    /** Acks one entry; returns whether the reply arrived. */
    method Ack(entry: nat, net: Attempt) returns (ok: bool)
      modifies this`connected, server`group
      ensures var found := net.Found(old(connected), old(server.group));
              server.group == (if net.Sent(old(connected)) then Xack(found, entry) else found)
      ensures ok == (net.Sent(old(connected)) && net.command.Ok?)
    {
      ok := true;
      if !connected {
        ok := Connect(net.connect);
      }
      if ok {
        if !net.command.Refused? {
          server.group := Xack(server.group, entry);
        }
        ok := net.command.Ok?;
      }
    }
  }
}
