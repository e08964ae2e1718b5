/** One SSH connection: the callbacks asyncssh makes, and the events they hand to the honeypot. */
module Ssh {
  import opened Events
  import opened Classifier

  const LOGIN_ATTEMPT := "ssh_login_attempt"
  const CONNECTION := "ssh_connection"

  datatype Address = Address(ip: string, port: int)

  /** What a callback reads from its surroundings when it creates an event. */
  datatype Moment = Moment(id: nat, timestamp: int, clock: real)

  /** A callback; `version` is the client version if the connection object knows it. */
  datatype Callback =
    | Made(peer: Option<Address>, version: Option<string>)
    | BeginAuth(username: string)
    | Validate(username: string, password: string, version: Option<string>, moment: Moment)
    | Lost(loopRunning: bool, moment: Moment)

  // ----- What a history of callbacks says about the connection -----

  /** The history before its last callback. */
  function Past(history: seq<Callback>): (past: seq<Callback>)
    requires history != []
    ensures history == past + [history[|history| - 1]]
  {
    history[..|history| - 1]
  }

  function Attempts(history: seq<Callback>): nat {
    if history == [] then 0
    else Attempts(Past(history)) + (if history[|history| - 1].Validate? then 1 else 0)
  }

  /** The address of the last `connection_made` that knew one. */
  function Peer(history: seq<Callback>): Option<Address> {
    if history == [] then None
    else
      var c := history[|history| - 1];
      if c.Made? && c.peer.Some? then c.peer else Peer(Past(history))
  }

  /** The argument of the last `begin_auth`. */
  function Username(history: seq<Callback>): string {
    if history == [] then ""
    else
      var c := history[|history| - 1];
      if c.BeginAuth? then c.username else Username(Past(history))
  }

  predicate HasConnection(history: seq<Callback>) {
    exists c | c in history :: c.Made?
  }

  /** Known versions are remembered; a new connection object starts over. */
  function Version(history: seq<Callback>): string {
    if history == [] then ""
    else
      var c := history[|history| - 1];
      if c.Made? then (if c.version.Some? then c.version.value else "")
      else if c.Validate? && c.version.Some? && HasConnection(Past(history)) then c.version.value
      else Version(Past(history))
  }

  /** An event of this connection. */
  function EventOf(history: seq<Callback>, port: int, moment: Moment, eventType: string, data: map<string, Json>): AttackEvent {
    var source := if Peer(history).Some? then Peer(history).value else Address("0.0.0.0", 0);
    AttackEvent(moment.id, moment.timestamp, source.ip, source.port, port, "ssh", eventType, data)
  }

  /** The event of a login attempt that ends `history`. */
  function LoginEvent(history: seq<Callback>, start: real, port: int): AttackEvent
    requires history != [] && history[|history| - 1].Validate?
  {
    var c := history[|history| - 1];
    EventOf(history, port, c.moment, LOGIN_ATTEMPT,
            map["username" := Text(c.username),
                "password" := Text(c.password),
                "client_version" := Text(Version(history)),
                "connection_duration" := Number(c.moment.clock - start),
                "auth_success" := Bool(false)])
  }

  /** The event of a connection that ends with `history`. */
  function ConnectionEvent(history: seq<Callback>, start: real, port: int): AttackEvent
    requires history != [] && history[|history| - 1].Lost?
  {
    var moment := history[|history| - 1].moment;
    EventOf(history, port, moment, CONNECTION,
            map["client_version" := Text(Version(history)),
                "connection_duration" := Number(moment.clock - start),
                "auth_attempts" := Number(0.0),
                "connection_username" := Text(Username(history))])
  }

  /** The events handed over during a history, in order. */
  function Emitted(history: seq<Callback>, start: real, port: int): seq<AttackEvent> {
    if history == [] then []
    else
      var c := history[|history| - 1];
      Emitted(Past(history), start, port) +
      (if c.Validate? then [LoginEvent(history, start, port)]
       else if c.Lost? && c.loopRunning && Attempts(history) == 0 then [ConnectionEvent(history, start, port)]
       else [])
  }

  /** One more callback. */
  lemma OneMore(history: seq<Callback>, c: Callback, start: real, port: int)
    ensures var more := history + [c];
            Attempts(more) == Attempts(history) + (if c.Validate? then 1 else 0) &&
            Peer(more) == (if c.Made? && c.peer.Some? then c.peer else Peer(history)) &&
            Username(more) == (if c.BeginAuth? then c.username else Username(history)) &&
            HasConnection(more) == (c.Made? || HasConnection(history)) &&
            Version(more) == (if c.Made? then (if c.version.Some? then c.version.value else "")
                              else if c.Validate? && c.version.Some? && HasConnection(history) then c.version.value
                              else Version(history))
    ensures var more := history + [c];
            Emitted(more, start, port) ==
            Emitted(history, start, port) +
            (if c.Validate? then [LoginEvent(more, start, port)]
             else if c.Lost? && c.loopRunning && Attempts(more) == 0 then [ConnectionEvent(more, start, port)]
             else [])
  {}

  // ----- The server object -----

  class SSHHoneypotServer {
    const port: int
    const connStart: real
    var attempts: nat
    var peerAddr: Option<Address>
    var clientVersion: string
    var connected: bool
    var username: string
    /** The arguments of the `emit_event` calls. */
    var emitted: seq<AttackEvent>
    ghost var history: seq<Callback>

    ghost predicate Valid()
      reads this
    {
      attempts == Attempts(history) && peerAddr == Peer(history) && username == Username(history) &&
      clientVersion == Version(history) && connected == HasConnection(history) &&
      emitted == Emitted(history, connStart, port)
    }

    constructor (port: int, connStart: real)
      ensures Valid() && history == [] && this.port == port && this.connStart == connStart
    {
      this.port, this.connStart := port, connStart;
      attempts, peerAddr, clientVersion, connected, username, emitted, history := 0, None, "", false, "", [], [];
    }

    function SourceIp(): string
      reads this
    {
      if peerAddr.Some? then peerAddr.value.ip else "0.0.0.0"
    }

    function SourcePort(): int
      reads this
    {
      if peerAddr.Some? then peerAddr.value.port else 0
    }

    method ConnectionMade(peer: Option<Address>, version: Option<string>)
      requires Valid()
      modifies this
      ensures Valid() && history == old(history) + [Made(peer, version)]
    {
      hide Attempts, Peer, Username, HasConnection, Version, Emitted;
      OneMore(history, Made(peer, version), connStart, port);
      history := history + [Made(peer, version)];
      connected := true;
      if peer.Some? {
        peerAddr := peer;
      }
      clientVersion := if version.Some? then version.value else "";
    }

    method BeginAuthentication(username: string) returns (required: bool)
      requires Valid()
      modifies this
      ensures Valid() && history == old(history) + [BeginAuth(username)] && required
    {
      hide Attempts, Peer, Username, HasConnection, Version, Emitted;
      OneMore(history, BeginAuth(username), connStart, port);
      history := history + [BeginAuth(username)];
      this.username := username;
      required := true;
    }

    method ValidatePassword(username: string, password: string, version: Option<string>, moment: Moment)
      returns (accepted: bool)
      requires Valid()
      modifies this
      ensures Valid() && history == old(history) + [Validate(username, password, version, moment)] && !accepted
    {
      hide Attempts, Peer, Username, HasConnection, Version, Emitted;
      OneMore(history, Validate(username, password, version, moment), connStart, port);
      history := history + [Validate(username, password, version, moment)];
      attempts := attempts + 1;
      if connected && version.Some? {
        clientVersion := version.value;
      }
      var data := map["username" := Text(username), "password" := Text(password),
                      "client_version" := Text(clientVersion),
                      "connection_duration" := Number(moment.clock - connStart),
                      "auth_success" := Bool(false)];
      emitted := emitted +
        [AttackEvent(moment.id, moment.timestamp, SourceIp(), SourcePort(), port, "ssh", LOGIN_ATTEMPT, data)];
      accepted := false;
    }

    method ConnectionLost(loopRunning: bool, moment: Moment)
      requires Valid()
      modifies this
      ensures Valid() && history == old(history) + [Lost(loopRunning, moment)]
    {
      hide Attempts, Peer, Username, HasConnection, Version, Emitted;
      OneMore(history, Lost(loopRunning, moment), connStart, port);
      history := history + [Lost(loopRunning, moment)];
      if attempts != 0 {
        return;
      }
      var data := map["client_version" := Text(clientVersion),
                      "connection_duration" := Number(moment.clock - connStart),
                      "auth_attempts" := Number(0.0),
                      "connection_username" := Text(username)];
      if !loopRunning {
        return;
      }
      emitted := emitted +
        [AttackEvent(moment.id, moment.timestamp, SourceIp(), SourcePort(), port, "ssh", CONNECTION, data)];
    }
  }

  // ----- Accounting over whole connections -----

  /** A history whose only `connection_lost` is its last callback. */
  ghost predicate Complete(history: seq<Callback>) {
    history != [] && history[|history| - 1].Lost? &&
    forall i | 0 <= i < |history| - 1 :: !history[i].Lost?
  }

  /** Before the connection is lost there is one login attempt per call, and nothing else. */
  lemma {:induction false} OpenConnection(history: seq<Callback>, start: real, port: int)
    requires forall i | 0 <= i < |history| :: !history[i].Lost?
    ensures |Emitted(history, start, port)| == Attempts(history)
    ensures forall e | e in Emitted(history, start, port) :: e.eventType == LOGIN_ATTEMPT
  {
    if history != [] {
      OpenConnection(Past(history), start, port);
    }
  }

  /**
   Every complete connection is observed: one login attempt per `validate_password`, or else exactly
   one connection event, which only a missing event loop can suppress.
   */
  lemma ConnectionIsAccountedFor(history: seq<Callback>, start: real, port: int)
    requires Complete(history)
    ensures var events := Emitted(history, start, port);
            var n := Attempts(history);
            if n > 0 then |events| == n && forall e | e in events :: e.eventType == LOGIN_ATTEMPT
            else if history[|history| - 1].loopRunning then
              |events| == 1 && TellsOf(events[0], history[|history| - 1].moment, history, port, "ssh_connection") &&
              events[0].rawData ==
                map["client_version" := Text(Version(history)),
                    "connection_duration" := Number(history[|history| - 1].moment.clock - start),
                    "auth_attempts" := Number(0.0), "connection_username" := Text(Username(history))]
            else events == []
  {
    OpenConnection(Past(history), start, port);
  }

  /** The address reported is that of the last callback that knew one; without any it is the placeholder. */
  lemma {:induction false} PeerIsLast(history: seq<Callback>, i: nat)
    requires i <= |history| && forall j | i <= j < |history| :: !(history[j].Made? && history[j].peer.Some?)
    ensures i > 0 && history[i - 1].Made? && history[i - 1].peer.Some? ==> Peer(history) == history[i - 1].peer
    ensures i == 0 ==> Peer(history) == None
  {
    if i < |history| {
      PeerIsLast(Past(history), i);
    }
  }

  /** The user name reported is that of the last `begin_auth`. */
  lemma {:induction false} UsernameIsLast(history: seq<Callback>, i: nat)
    requires i <= |history| && forall j | i <= j < |history| :: !history[j].BeginAuth?
    ensures i > 0 && history[i - 1].BeginAuth? ==> Username(history) == history[i - 1].username
    ensures i == 0 ==> Username(history) == ""
  {
    if i < |history| {
      UsernameIsLast(Past(history), i);
    }
  }

  /** A callback that sets the reported version: a new connection, or a login attempt on one that knows it. */
  predicate SetsVersion(history: seq<Callback>, i: nat)
    requires i < |history|
  {
    history[i].Made? || (history[i].Validate? && history[i].version.Some? && HasConnection(history[..i]))
  }

  /** The version reported is the one set last. */
  lemma {:induction false} VersionIsLast(history: seq<Callback>, i: nat)
    requires i <= |history| && forall j: nat | i <= j < |history| :: !SetsVersion(history, j)
    ensures i > 0 && SetsVersion(history, i - 1) ==>
              Version(history) == if history[i - 1].version.Some? then history[i - 1].version.value else ""
    ensures i == 0 ==> Version(history) == ""
  {
    if history != [] {
      var n := |history| - 1;
      assert history[..n] == Past(history);
      if i <= n {
        forall j: nat | j < n
          ensures SetsVersion(Past(history), j) == SetsVersion(history, j)
        {
          assert Past(history)[..j] == history[..j];
        }
        assert !SetsVersion(history, n);
        VersionIsLast(Past(history), i);
      }
    }
  }

  /** What an event says about where, when and how the attacker connected. */
  ghost predicate TellsOf(e: AttackEvent, moment: Moment, history: seq<Callback>, port: int, eventType: string) {
    e.id == moment.id && e.timestamp == moment.timestamp && e.protocol == "ssh" && e.eventType == eventType &&
    e.destinationPort == port &&
    match Peer(history)
    case Some(peer) => e.sourceIp == peer.ip && e.sourcePort == peer.port
    case None => e.sourceIp == "0.0.0.0" && e.sourcePort == 0
  }

  /** The k-th login attempt, counted over the history alone. */
  lemma {:induction false} EveryAttemptIsRecorded(history: seq<Callback>, start: real, port: int, i: nat)
    requires i < |history| && history[i].Validate?
    requires forall j | 0 <= j < i :: !history[j].Lost?
    ensures Attempts(history[..i]) < |Emitted(history, start, port)|
    ensures Emitted(history, start, port)[Attempts(history[..i])] == LoginEvent(history[..i + 1], start, port)
    ensures var e, c := Emitted(history, start, port)[Attempts(history[..i])], history[i];
            TellsOf(e, c.moment, history[..i + 1], port, "ssh_login_attempt") &&
            e.rawData == map["username" := Text(c.username), "password" := Text(c.password),
                             "client_version" := Text(Version(history[..i + 1])),
                             "connection_duration" := Number(c.moment.clock - start), "auth_success" := Bool(false)]
  {
    if i + 1 < |history| {
      EveryAttemptIsRecorded(Past(history), start, port, i);
      assert Past(history)[..i] == history[..i] && Past(history)[..i + 1] == history[..i + 1];
    } else {
      assert history[..i + 1] == history && history[..i] == Past(history);
      OpenConnection(Past(history), start, port);
    }
  }

  /** A login attempt is a credential attack exactly when a listed user name or password was tried. */
  lemma LoginIsCredentialAttackIff(history: seq<Callback>, start: real, port: int, rules: DetectionRules, context: IPContext)
    requires history != [] && history[|history| - 1].Validate?
    ensures var c := history[|history| - 1];
            Classify(rules, LoginEvent(history, start, port), context).attackType == CREDENTIAL_ATTACK
            <==> c.username in rules.usernames || c.password in rules.passwords
  {}

  /**
   A connection without attempts is never taken for a credential attack or a command injection,
   whatever the rules and whatever user name was offered.
   */
  lemma ConnectionIsNoCredentialAttack(history: seq<Callback>, start: real, port: int, rules: DetectionRules, context: IPContext)
    requires history != [] && history[|history| - 1].Lost?
    ensures Classify(rules, ConnectionEvent(history, start, port), context).attackType in {BRUTE_FORCE, PORT_SCAN, SUSPICIOUS}
  {}
}
