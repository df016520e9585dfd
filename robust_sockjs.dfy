/**
 * The server side of robust reconnection (lib/proxy/robust-sockjs.js): a
 * registry of robust connections keyed by the id the client puts in the
 * URL, each wrapping the SockJS connection currently behind it, replaying
 * unacknowledged messages after a reconnect and withholding close events
 * for a grace period.
 */
module RobustSockJs {
  import opened Common
  import opened MessageUtils
  import MB = MessageBuffer
  import MR = MessageReceiver
  import PathParams
  import ErrorCode

  // ---------------------------------------------------------------------
  // getInfo
  // ---------------------------------------------------------------------

  /** What `getInfo` returns: falsy for a plain connection, else the id and whether it resumes. */
  datatype Info = NotRobust | Robust(id: string, existing: bool)

  /** JavaScript truthiness of `params[name]`: present and non-empty. */
  predicate Truthy(params: map<string, string>, name: string)
  {
    name in params && params[name] != ""
  }

  /** `getInfo` on the extracted parameters: `n` (new) wins over `o` (open). */
  function InfoOf(params: map<string, string>): (r: Info)
    ensures r.Robust? <==> Truthy(params, "n") || Truthy(params, "o")
    ensures r.Robust? ==> r.existing == !Truthy(params, "n")
    ensures r.Robust? ==> r.id == (if r.existing then params["o"] else params["n"])
  {
    if Truthy(params, "n") then Robust(params["n"], false)
    else if Truthy(params, "o") then Robust(params["o"], true)
    else NotRobust
  }

  /** `getInfo(conn)`: an `extractParams` failure propagates. */
  function GetInfo(url: string): Result<Info>
  {
    match PathParams.ExtractedParams(url)
    case Err(e) => Err(e)
    case Ok(params) => Ok(InfoOf(params))
  }

  // ---------------------------------------------------------------------
  // The underlying SockJS connection, as seen through its frames
  // ---------------------------------------------------------------------

  /** What the server puts on a SockJS connection. */
  datatype Frame = Sent(data: string) | Closed(code: int, reason: string)

  /** Events a robust connection emits to the application. */
  datatype Event = Data(payload: string) | End | Close

  /** The frames of writing `msgs` one by one. */
  function Sends(msgs: seq<string>): (r: seq<Frame>)
    ensures |r| == |msgs| && forall i :: 0 <= i < |msgs| ==> r[i] == Sent(msgs[i])
  {
    if msgs == [] then [] else Sends(msgs[..|msgs| - 1]) + [Sent(msgs[|msgs| - 1])]
  }

  /** A SockJS connection: its URL, its ready state and the frames written to it. */
  class SockConn {
    const url: string
    var readyState: int
    var frames: seq<Frame>

    constructor (url: string, readyState: int)
      ensures this.url == url && this.readyState == readyState && frames == []
    {
      this.url := url;
      this.readyState := readyState;
      frames := [];
    }

    /** `conn.write` */
    method Write(data: string)
      modifies this
      ensures frames == old(frames) + [Sent(data)] && readyState == old(readyState)
    {
      frames := frames + [Sent(data)];
    }

    /** `conn.close` */
    method Close(code: int, reason: string)
      modifies this
      ensures frames == old(frames) + [Closed(code, reason)] && readyState == old(readyState)
    {
      frames := frames + [Closed(code, reason)];
    }
  }

  /** `while (msgs.length) conn.write(msgs.shift())` */
  method SendAll(conn: SockConn, msgs: seq<string>)
    modifies conn
    ensures conn.frames == old(conn.frames) + Sends(msgs) && conn.readyState == old(conn.readyState)
  {
    var i := 0;
    while i < |msgs|
      invariant 0 <= i <= |msgs|
      invariant conn.frames == old(conn.frames) + Sends(msgs[..i]) && conn.readyState == old(conn.readyState)
    {
      assert msgs[..i + 1][..i] == msgs[..i];
      conn.Write(msgs[i]);
      i := i + 1;
    }
    assert msgs[..i] == msgs;
  }

  // ---------------------------------------------------------------------
  // RobustConn
  // ---------------------------------------------------------------------

  /** The reason a protocol violation closes the connection with. */
  function ProtocolReason(error: string): string
  {
    "Protocol error handling message: Error: " + error
  }

  /** What the data handler did with one incoming message. */
  datatype DataOutcome =
    | Acked(discarded: nat)
    | Continued(fromId: nat)
    | Delivered(data: string)
    | ProtocolError(error: string)

  class RobustConn {
    const id: string
    /** No data has been received yet, so a new connection with this id may take over. */
    var nascent: bool
    const buffer: MB.MessageBuffer
    const receiver: MR.MessageReceiver
    /** After a resume, outgoing messages are only buffered until the peer's CONTINUE. */
    var expectContinue: bool
    /** `_conn`: the SockJS connection currently behind this one. */
    var conn: SockConn
    /** `_readyState`, exposed as `readyState`. */
    var readyState: int
    /** `_withheld.events`: the close/end events held back. */
    var withheld: seq<Event>
    /** `_withheld.timer` is truthy. */
    var timerSet: bool
    /** The withheld-events timer is scheduled and has neither fired nor been cleared. */
    var timerPending: bool
    /** Every event emitted to the application, in order. */
    var emitted: seq<Event>
    ghost var Repr: set<object>

    ghost predicate Valid()
      reads this, Repr
    {
      this in Repr && buffer in Repr && receiver in Repr && conn in Repr
      && buffer.Valid()
      && (nascent ==> buffer.startIndex == 0)
    }

    /** `new RobustConn(conn, id)`: nascent, with an empty buffer, wired to `conn`. */
    constructor (conn: SockConn, id: string)
      ensures Valid() && fresh(Repr - {conn}) && Repr == {this, buffer, receiver, conn}
      ensures this.id == id && this.conn == conn && readyState == conn.readyState
      ensures nascent && !expectContinue && withheld == [] && !timerSet && !timerPending && emitted == []
      ensures buffer.messages == [] && buffer.startIndex == 0 && buffer.messageId == 0
      ensures receiver.pendingMsgId == 0
    {
      this.id := id;
      nascent := true;
      buffer := new MB.MessageBuffer();
      receiver := new MR.MessageReceiver();
      expectContinue := false;
      this.conn := conn;
      readyState := conn.readyState;
      withheld := [];
      timerSet := false;
      timerPending := false;
      emitted := [];
      Repr := {this, buffer, receiver, conn};
    }

    /** `close`: closes the current connection. */
    method Close(code: int, reason: string)
      requires Valid()
      modifies conn
      ensures conn.frames == old(conn.frames) + [Closed(code, reason)]
    {
      conn.Close(code, reason);
    }

    /**
     * `write`: the message is always tagged and buffered; it is sent only
     * when no CONTINUE is awaited and the current connection is open.
     */
    method Write(msg: string)
      requires Valid()
      modifies buffer, conn
      ensures Valid()
      ensures buffer.messages == old(buffer.messages) + [MB.Tagged(old(buffer.messageId), msg)]
      ensures buffer.messageId == old(buffer.messageId) + 1 && buffer.startIndex == old(buffer.startIndex)
      ensures conn.frames == if !expectContinue && conn.readyState == 1
                             then old(conn.frames) + [Sent(MB.Tagged(old(buffer.messageId), msg))]
                             else old(conn.frames)
    {
      var tagged := buffer.Write(msg);
      if expectContinue {
      } else if conn.readyState == 1 {
        conn.Write(tagged);
      }
    }

    /**
     * `set(newConn, resume)` on a connection that already has one: the old
     * connection is retired and withheld events dropped; a resume sends
     * CONTINUE and waits for the peer's, otherwise (allowed only while
     * nascent) every buffered message is resent on the new connection.
     */
    method Set(newConn: SockConn, resume: bool) returns (r: Result<()>)
      requires Valid() && newConn !in Repr
      modifies this, conn, newConn
      ensures Valid() && Repr == old(Repr) + {newConn}
      ensures old(conn).frames == old(conn.frames) + [Closed(ErrorCode.RETIRED, "Connection was retired by new connection")]
      ensures withheld == [] && !timerSet && !timerPending
      ensures nascent == old(nascent) && readyState == old(readyState) && emitted == old(emitted)
      ensures resume ==>
                r == Ok(()) && conn == newConn && expectContinue
                && newConn.frames == old(newConn.frames) + [Sent(receiver.Continue())]
      ensures !resume && nascent ==>
                r == Ok(()) && conn == newConn && expectContinue == old(expectContinue)
                && newConn.frames == old(newConn.frames) + Sends(buffer.messages)
      ensures !resume && !nascent ==>
                r == Err("AssertionError: set(conn,false) was called on a mature RobustConn")
                && conn == old(conn) && expectContinue == old(expectContinue)
                && newConn.frames == old(newConn.frames)
    {
      Retire();
      Repr := Repr + {newConn};
      if resume {
        newConn.Write(receiver.Continue());
        expectContinue := true;
      } else {
        if !nascent {
          return Err("AssertionError: set(conn,false) was called on a mature RobustConn");
        }
        ResendFromStart(newConn);
      }
      conn := newConn;
      r := Ok(());
    }

    /** The first half of `set`: close the stale connection and forget withheld events. */
    method Retire()
      requires Valid()
      modifies this, conn
      ensures Valid() && Repr == old(Repr) && conn == old(conn)
      ensures conn.frames == old(conn.frames) + [Closed(ErrorCode.RETIRED, "Connection was retired by new connection")]
      ensures withheld == [] && !timerSet && !timerPending
      ensures nascent == old(nascent) && expectContinue == old(expectContinue)
      ensures readyState == old(readyState) && emitted == old(emitted)
    {
      conn.Close(ErrorCode.RETIRED, "Connection was retired by new connection");
      withheld := [];
      timerSet := false;
      timerPending := false;
    }

    /** A nascent connection resends `getMessagesFrom(0)`, which is the whole buffer. */
    method ResendFromStart(newConn: SockConn)
      requires Valid() && nascent
      modifies newConn
      ensures newConn.frames == old(newConn.frames) + Sends(buffer.messages)
    {
      var msgs := buffer.MessagesFrom(0);
      assert msgs.value == buffer.messages;
      SendAll(newConn, msgs.value);
    }

    /**
     * The handler for a 'data' event on the current connection. The
     * connection is no longer nascent. An ACK discards acknowledged
     * messages; while a CONTINUE is awaited only CONTINUE is accepted and
     * it replays the messages the peer missed; anything else must carry an
     * id tag and its data is emitted. Any error closes the connection
     * with BAD_PROTOCOL.
     */
    method OnData(msg: string) returns (outcome: DataOutcome)
      requires Valid()
      modifies this, buffer, receiver, conn
      ensures Valid() && !nascent && Repr == old(Repr) && conn == old(conn) && Unwired()
      ensures buffer.messageId == old(buffer.messageId)
      ensures outcome.ProtocolError? ==>
                conn.frames == old(conn.frames) + [Closed(ErrorCode.BAD_PROTOCOL, ProtocolReason(outcome.error))]
                && emitted == old(emitted)
      ensures ParseAck(msg).Some? ==>
                var a := ParseAck(msg).value;
                expectContinue == old(expectContinue)
                && if old(buffer.startIndex) <= a <= old(buffer.messageId)
                   then outcome == Acked(a - old(buffer.startIndex)) && buffer.startIndex == a
                        && conn.frames == old(conn.frames) && emitted == old(emitted)
                   else outcome == ProtocolError(MB.DiscardError(a, old(buffer.startIndex)))
      ensures ParseAck(msg).None? && old(expectContinue) && ParseContinue(msg).None? ==>
                outcome == ProtocolError("Robust protocol error: Expected CONTINUE message") && expectContinue
      ensures ParseAck(msg).None? && old(expectContinue) && ParseContinue(msg).Some? ==>
                var c := ParseContinue(msg).value;
                !expectContinue
                && if old(buffer.startIndex) <= c <= old(buffer.messageId)
                   then outcome == Continued(c) && buffer.startIndex == c && emitted == old(emitted)
                        && conn.frames == old(conn.frames) + Sends(old(buffer.messages)[c - old(buffer.startIndex)..])
                   else outcome == ProtocolError(MB.DiscardError(c, old(buffer.startIndex)))
      ensures ParseAck(msg).None? && !old(expectContinue) ==>
                var m := MR.MatchIdPrefix(msg);
                !expectContinue
                && if m.Some?
                   then outcome == Delivered(m.value.data) && receiver.pendingMsgId == m.value.id + 1
                        && emitted == old(emitted) + [Data(m.value.data)] && conn.frames == old(conn.frames)
                   else outcome == ProtocolError("Invalid robust-message, no msg-id found")
    {
      nascent := false;
      var discarded := buffer.HandleAck(msg);
      if discarded.Err? {
        outcome := ProtocolError(discarded.error);
        conn.Close(ErrorCode.BAD_PROTOCOL, ProtocolReason(outcome.error));
      } else if discarded.value >= 0 {
        outcome := Acked(discarded.value);
      } else {
        outcome := OnPayload(msg);
      }
    }

    /** The fields the data handler leaves alone. */
    twostate predicate Unwired()
      reads this
    {
      readyState == old(readyState) && withheld == old(withheld)
      && timerSet == old(timerSet) && timerPending == old(timerPending)
    }

    /** The data handler for a message that is not an ACK. */
    method OnPayload(msg: string) returns (outcome: DataOutcome)
      requires Valid() && !nascent
      modifies this, buffer, receiver, conn
      ensures Valid() && !nascent && Repr == old(Repr) && conn == old(conn) && Unwired()
      ensures buffer.messageId == old(buffer.messageId)
      ensures outcome.ProtocolError? ==>
                conn.frames == old(conn.frames) + [Closed(ErrorCode.BAD_PROTOCOL, ProtocolReason(outcome.error))]
                && emitted == old(emitted)
      ensures old(expectContinue) && ParseContinue(msg).None? ==>
                outcome == ProtocolError("Robust protocol error: Expected CONTINUE message") && expectContinue
      ensures old(expectContinue) && ParseContinue(msg).Some? ==>
                var c := ParseContinue(msg).value;
                !expectContinue
                && if old(buffer.startIndex) <= c <= old(buffer.messageId)
                   then outcome == Continued(c) && buffer.startIndex == c && emitted == old(emitted)
                        && conn.frames == old(conn.frames) + Sends(old(buffer.messages)[c - old(buffer.startIndex)..])
                   else outcome == ProtocolError(MB.DiscardError(c, old(buffer.startIndex)))
      ensures !old(expectContinue) ==>
                var m := MR.MatchIdPrefix(msg);
                !expectContinue
                && if m.Some?
                   then outcome == Delivered(m.value.data) && receiver.pendingMsgId == m.value.id + 1
                        && emitted == old(emitted) + [Data(m.value.data)] && conn.frames == old(conn.frames)
                   else outcome == ProtocolError("Invalid robust-message, no msg-id found")
    {
      if expectContinue {
        var continueId := ParseContinue(msg);
        if continueId.None? {
          outcome := ProtocolError("Robust protocol error: Expected CONTINUE message");
        } else {
          expectContinue := false;
          outcome := Replay(continueId.value);
          if outcome.Continued? {
            return;
          }
        }
      } else {
        var data := receiver.Receive(msg);
        if data.Err? {
          outcome := ProtocolError(data.error);
        } else {
          emitted := emitted + [Data(data.value)];
          return Delivered(data.value);
        }
      }
      conn.Close(ErrorCode.BAD_PROTOCOL, ProtocolReason(outcome.error));
    }

    /**
     * After the peer's CONTINUE c: discard what it has seen and resend the
     * rest, or fail as `discard` does.
     */
    method Replay(c: nat) returns (outcome: DataOutcome)
      requires Valid()
      modifies buffer, conn
      ensures buffer.Valid() && buffer.messageId == old(buffer.messageId)
      ensures buffer.startIndex == old(buffer.startIndex) || buffer.startIndex == c
      ensures if old(buffer.startIndex) <= c <= old(buffer.messageId)
              then outcome == Continued(c) && buffer.startIndex == c
                   && conn.frames == old(conn.frames) + Sends(old(buffer.messages)[c - old(buffer.startIndex)..])
              else outcome == ProtocolError(MB.DiscardError(c, old(buffer.startIndex)))
                   && conn.frames == old(conn.frames) && buffer.startIndex == old(buffer.startIndex)
    {
      var d := buffer.Discard(c);
      if d.Err? {
        return ProtocolError(d.error);
      }
      var msgs := buffer.MessagesFrom(c);
      assert msgs.value == buffer.messages;
      SendAll(conn, msgs.value);
      outcome := Continued(c);
    }

    /**
     * An 'end' or 'close' event on the current connection is withheld; the
     * first one arms the timer that will pass them on.
     */
    method OnClose(event: Event)
      requires Valid() && !event.Data?
      modifies this
      ensures Valid() && Repr == old(Repr) && conn == old(conn) && nascent == old(nascent)
      ensures withheld == old(withheld) + [event] && emitted == old(emitted) && readyState == old(readyState)
      ensures timerSet && timerPending == (old(timerPending) || !old(timerSet))
      ensures expectContinue == old(expectContinue)
    {
      withheld := withheld + [event];
      if !timerSet {
        timerSet := true;
        timerPending := true;
      }
    }

    /**
     * The body of the withheld-events timer on this connection: pop and
     * emit each withheld event, then mark the connection closed.
     */
    method EmitWithheld()
      requires Valid() && timerPending
      modifies this
      ensures Valid() && Repr == old(Repr) && conn == old(conn) && nascent == old(nascent)
      ensures emitted == old(emitted) + Reversed(old(withheld)) && withheld == []
      ensures readyState == 3 && !timerPending && timerSet == old(timerSet)
      ensures expectContinue == old(expectContinue)
    {
      timerPending := false;
      while |withheld| > 0
        invariant emitted + Reversed(withheld) == old(emitted) + Reversed(old(withheld))
        invariant Valid() && Repr == old(Repr) && conn == old(conn) && nascent == old(nascent)
        invariant !timerPending && timerSet == old(timerSet) && expectContinue == old(expectContinue)
        decreases |withheld|
      {
        var evt := withheld[|withheld| - 1];
        withheld := withheld[..|withheld| - 1];
        emitted := emitted + [evt];
      }
      readyState := 3;
    }

    /** The receiver's ACK timer: send ACK of the next expected id if the connection is open. */
    method OnAckTimeout()
      requires Valid()
      modifies conn
      ensures conn.frames == if conn.readyState == 1 then old(conn.frames) + [Sent(receiver.Ack())] else old(conn.frames)
      ensures ParseAck(receiver.Ack()) == Some(receiver.pendingMsgId)
    {
      if conn.readyState == 1 {
        conn.Write(receiver.Ack());
      }
    }
  }

  /** The events in the order the timer pops them: last withheld first. */
  function Reversed(events: seq<Event>): (r: seq<Event>)
    ensures |r| == |events| && forall i :: 0 <= i < |events| ==> r[i] == events[|events| - 1 - i]
  {
    if events == [] then [] else [events[|events| - 1]] + Reversed(events[..|events| - 1])
  }

  // ---------------------------------------------------------------------
  // The registry and robustify
  // ---------------------------------------------------------------------

  /** What `robustify` returns: the connection itself, nothing, or a new robust connection. */
  datatype Robustified = Plain(conn: SockConn) | Absorbed | Fresh(robust: RobustConn)

  /** The branches of `robustify`. */
  datatype Action = PassThrough | Resume | RestartNascent | Collision | UnknownSession | Register

  /**
   * The decision table of `robustify`, given what `getInfo` found and, when
   * the id is in the table, whether that entry is still nascent.
   */
  function Decide(info: Info, entry: Option<bool>): Action
  {
    if info.NotRobust? || info.id == "none" then PassThrough
    else if entry.Some? then
      if info.existing then Resume
      else if entry.value then RestartNascent
      else Collision
    else if info.existing then UnknownSession
    else Register
  }

  /** Only a new id with `n=` registers; every other branch leaves the table alone. */
  lemma DecideRegistersOnlyNewIds(info: Info, entry: Option<bool>)
    ensures Decide(info, entry) == Register <==> info.Robust? && info.id != "none" && !info.existing && entry.None?
    ensures Decide(info, entry) in {Resume, RestartNascent, Collision} ==> entry.Some?
    ensures Decide(info, entry) == PassThrough <==> info.NotRobust? || info.id == "none"
  {
  }

  class Registry {
    /** `_timeout`, in milliseconds. */
    const timeout: int
    /** `_connections` */
    var connections: map<string, RobustConn>
    ghost var Repr: set<object>

    ghost predicate Valid()
      reads this, Repr
    {
      this in Repr
      && (forall id :: id in connections ==> EntryValid(id))
      && (forall i, j :: i in connections && j in connections && i != j ==>
            connections[i].Repr !! connections[j].Repr)
    }

    ghost predicate EntryValid(id: string)
      reads this, Repr
      requires id in connections
    {
      var rc := connections[id];
      rc in Repr && rc.Repr <= Repr && this !in rc.Repr && rc.Valid() && rc.id == id
    }

    /** `new RobustSockJSRegistry(timeout)`: a falsy timeout means 15 seconds. */
    constructor (seconds: Option<int>)
      ensures Valid() && fresh(Repr)
      ensures connections == map[]
      ensures timeout == if seconds.None? || seconds.value == 0 then 15000 else seconds.value * 1000
    {
      timeout := if seconds.None? || seconds.value == 0 then 15000 else seconds.value * 1000;
      connections := map[];
      Repr := {this};
    }

    /** The table entry `info` names: whether it is nascent, if there is one. */
    function EntryFor(info: Info): Option<bool>
      reads this, Repr
      requires Valid()
    {
      if info.Robust? && info.id in connections then Some(connections[info.id].nascent) else None
    }

    /**
     * `robustify(conn)`: a plain connection is returned unchanged; a new id
     * is registered and its robust connection returned; otherwise the
     * connection is handed to the existing entry or closed, and nothing is
     * returned. An `extractParams` error propagates and changes nothing.
     */
    method Robustify(conn: SockConn) returns (r: Result<Robustified>)
      requires Valid() && conn !in Repr
      modifies Repr, conn
      ensures Valid() && Repr >= old(Repr) && fresh(Repr - old(Repr) - {conn})
      ensures GetInfo(conn.url).Err? ==>
                r == Err(GetInfo(conn.url).error) && connections == old(connections) && conn.frames == old(conn.frames)
      ensures GetInfo(conn.url).Ok? ==> r.Ok? && Routed(conn, GetInfo(conn.url).value, r.value)
      ensures var info := GetInfo(conn.url);
              info.Ok? && info.value.Robust? && info.value.id in old(connections) ==>
                unchanged(old(Repr) - old(connections[info.value.id].Repr) - {this})
      ensures var info := GetInfo(conn.url);
              !(info.Ok? && info.value.Robust? && info.value.id in old(connections)) ==> unchanged(old(Repr) - {this})
    {
      var params := PathParams.ExtractParams(conn.url);
      if params.Err? {
        return Err(params.error);
      }
      var routed := Route(conn, InfoOf(params.value));
      r := Ok(routed);
    }

    /** The outcome of `robustify` once `getInfo` has succeeded, branch by branch. */
    twostate predicate Routed(conn: SockConn, info: Info, new r: Robustified)
      requires old(Valid()) && Valid() && old(Repr) <= Repr
      reads this, Repr, conn
    {
      var action := Decide(info, old(EntryFor(info)));
      (action == PassThrough ==>
         r == Plain(conn) && connections == old(connections) && conn.frames == old(conn.frames))
      && (action == Resume ==>
            r == Absorbed && connections == old(connections) && info.id in connections
            && Handed(connections[info.id], old(connections[info.id].conn), conn, true))
      && (action == RestartNascent ==>
            r == Absorbed && connections == old(connections) && info.id in connections
            && Handed(connections[info.id], old(connections[info.id].conn), conn, false))
      && (action == Collision ==>
            r == Absorbed && connections == old(connections)
            && conn.frames == old(conn.frames)
                 + [Closed(ErrorCode.BAD_IDENTIFIER, "Unable to open connection (RobustSockJS collision)")])
      && (action == UnknownSession ==>
            r == Absorbed && connections == old(connections)
            && conn.frames == old(conn.frames)
                 + [Closed(ErrorCode.BAD_IDENTIFIER, "Your session could not be resumed on the server.")])
      && (action == Register ==>
            r.Fresh? && info.Robust? && connections == old(connections)[info.id := r.robust]
            && r.robust in Repr && fresh(r.robust) && r.robust.nascent && r.robust.conn == conn
            && r.robust.id == info.id && conn.frames == old(conn.frames))
    }

    /** The decision table of `robustify` applied to the registry. */
    method Route(conn: SockConn, info: Info) returns (r: Robustified)
      requires Valid() && conn !in Repr
      modifies Repr, conn
      ensures Valid() && Repr >= old(Repr) && fresh(Repr - old(Repr) - {conn}) && Routed(conn, info, r)
      ensures info.Robust? && info.id in old(connections) ==>
                unchanged(old(Repr) - old(connections[info.id].Repr) - {this})
      ensures !(info.Robust? && info.id in old(connections)) ==> unchanged(old(Repr) - {this})
    {
      if info.NotRobust? || info.id == "none" {
        return Plain(conn);
      }
      if info.id in connections && (info.existing || connections[info.id].nascent) {
        r := Reconnect(conn, info);
      } else if info.id in connections {
        r := Collide(conn, info);
      } else {
        r := RouteNew(conn, info);
      }
    }

    /** An id already in the table, on a resume or a nascent restart: the entry takes the transport. */
    method Reconnect(conn: SockConn, info: Info) returns (r: Robustified)
      requires Valid() && conn !in Repr && info.Robust? && info.id != "none" && info.id in connections
      requires info.existing || connections[info.id].nascent
      modifies Repr, conn
      ensures Valid() && Repr == old(Repr) + {conn} && Routed(conn, info, r)
      ensures unchanged(old(Repr) - old(connections[info.id].Repr) - {this})
    {
      var rc := connections[info.id];
      ghost var stale := rc.conn;
      assert Decide(info, EntryFor(info)) == if info.existing then Resume else RestartNascent;
      Handover(info.id, rc, conn, info.existing);
      assert connections[info.id] == rc && Handed(rc, stale, conn, info.existing);
      return Absorbed;
    }

    /** A new session whose id a mature entry holds: the transport is closed. */
    method Collide(conn: SockConn, info: Info) returns (r: Robustified)
      requires Valid() && conn !in Repr && info.Robust? && info.id != "none" && info.id in connections
      requires !info.existing && !connections[info.id].nascent
      modifies conn
      ensures Routed(conn, info, r)
    {
      conn.Close(ErrorCode.BAD_IDENTIFIER, "Unable to open connection (RobustSockJS collision)");
      return Absorbed;
    }

    /** An id not in the table: a new session registers, a resume is refused. */
    method RouteNew(conn: SockConn, info: Info) returns (r: Robustified)
      requires Valid() && conn !in Repr && info.Robust? && info.id != "none" && info.id !in connections
      modifies this, conn
      ensures Valid() && Repr >= old(Repr) && fresh(Repr - old(Repr) - {conn}) && Routed(conn, info, r)
      ensures unchanged(old(Repr) - {this})
    {
      if info.existing {
        conn.Close(ErrorCode.BAD_IDENTIFIER, "Your session could not be resumed on the server.");
        return Absorbed;
      } else {
        var rc := AddEntry(info.id, conn);
        return Fresh(rc);
      }
    }

    /** `connections[id] = new RobustConn(conn, id)` for an id not in the table. */
    method AddEntry(id: string, conn: SockConn) returns (rc: RobustConn)
      requires Valid() && conn !in Repr && id !in connections
      modifies this
      ensures Valid() && Repr >= old(Repr) && fresh(Repr - old(Repr) - {conn}) && rc in Repr && fresh(rc)
      ensures connections == old(connections)[id := rc]
      ensures rc.nascent && rc.conn == conn && rc.id == id && conn.frames == old(conn.frames)
    {
      rc := new RobustConn(conn, id);
      connections := connections[id := rc];
      Repr := Repr + rc.Repr;
    }

    /**
     * What `set(conn, resume)` did to a robust connection that accepted the
     * new transport: the stale transport got the RETIRED close, the
     * withheld events and their timer are gone, and the new transport got
     * CONTINUE on a resume or the whole buffer on a nascent restart.
     */
    twostate predicate Handed(rc: RobustConn, stale: SockConn, conn: SockConn, resume: bool)
      reads rc, rc.buffer, rc.receiver, stale, conn
    {
      rc.conn == conn && rc.nascent == old(rc.nascent)
      && rc.readyState == old(rc.readyState) && rc.emitted == old(rc.emitted)
      && rc.withheld == [] && !rc.timerSet && !rc.timerPending
      && stale == old(rc.conn)
      && stale.frames == old(stale.frames) + [Closed(ErrorCode.RETIRED, "Connection was retired by new connection")]
      && (resume ==> rc.expectContinue && conn.frames == old(conn.frames) + [Sent(rc.receiver.Continue())])
      && (!resume ==>
            rc.expectContinue == old(rc.expectContinue) && conn.frames == old(conn.frames) + Sends(rc.buffer.messages))
    }

    /** `connections[id].set(conn, resume)`, keeping the registry valid. */
    method Handover(id: string, rc: RobustConn, conn: SockConn, resume: bool)
      requires Valid() && conn !in Repr
      requires id in connections && connections[id] == rc
      requires resume || rc.nascent
      modifies this, rc, rc.conn, conn
      ensures Valid() && Repr == old(Repr) + {conn} && connections == old(connections)
      ensures Handed(rc, old(rc.conn), conn, resume) && unchanged(old(Repr) - old(rc.Repr) - {this})
    {
      var r := rc.Set(conn, resume);
      Repr := Repr + {conn};
      HandoverKeepsValid(id, rc, conn);
    }

    /** The other entries are untouched and `rc` took `conn` into its footprint, so the table stays valid. */
    twostate lemma HandoverKeepsValid(id: string, new rc: RobustConn, new conn: SockConn)
      requires old(Valid()) && id in old(connections) && old(connections[id]) == rc && conn !in old(Repr)
      requires connections == old(connections) && Repr == old(Repr) + {conn}
      requires rc.Valid() && rc.Repr == old(rc.Repr) + {conn}
      requires unchanged(old(Repr) - old(rc.Repr) - {this})
      ensures Valid()
    {
      forall i | i in connections
        ensures EntryValid(i)
      {
        if i != id {
          var o := connections[i];
          assert o in o.Repr;
          assert old(o.Repr) !! old(rc.Repr);
          assert o.Repr == old(o.Repr);
        }
      }
      forall i, j | i in connections && j in connections && i != j
        ensures connections[i].Repr !! connections[j].Repr
      {
        var a, b := connections[i], connections[j];
        if i != id && j != id {
          assert a in a.Repr && b in b.Repr;
          assert a.Repr == old(a.Repr) && b.Repr == old(b.Repr);
        } else if i == id {
          assert b in b.Repr && b.Repr == old(b.Repr);
        } else {
          assert a in a.Repr && a.Repr == old(a.Repr);
        }
      }
    }

    /**
     * The withheld-events timer of `rc` fires: the withheld events are
     * emitted, last first, the entry is deleted and the robust connection
     * is closed for good.
     */
    method FireWithheldTimer(rc: RobustConn)
      requires Valid() && rc.id in connections && connections[rc.id] == rc && rc.timerPending
      modifies this, rc
      ensures Valid() && Repr == old(Repr)
      ensures connections == old(connections) - {rc.id}
      ensures rc.emitted == old(rc.emitted) + Reversed(old(rc.withheld)) && rc.withheld == []
      ensures rc.readyState == 3 && !rc.timerPending && rc.timerSet == old(rc.timerSet)
    {
      rc.EmitWithheld();
      connections := connections - {rc.id};
    }
  }

  // ---------------------------------------------------------------------
  // The robustify cases of test/robust-sockjs.js
  // ---------------------------------------------------------------------

  /** The URLs SockJS connects robust sessions on: `/__sockjs__/<key>=<id>/`. */
  function SockJsUrl(key: char, id: string): string
  {
    "/__sockjs__/" + [key] + "=" + id + "/"
  }

  lemma SockJsUrlParams(key: char, id: string)
    requires IsAsciiLetter(key) && AllWordChars(id)
    ensures PathParams.ExtractedParams(SockJsUrl(key, id)) == Ok(map[[key] := id])
  {
    var c := [key] + "=" + id;
    SockJsUrlChunks(key, id);
    var chunks := ["", "__sockjs__", c, ""];
    PathParams.LettersThenEqualsIsParam([key], id);
    assert !PathParams.IsParamChunk("__sockjs__");
    assert PathParams.LastParamEnd(chunks, 4) == 3;
    assert PathParams.RunStart(chunks, 3) == 2;
    assert PathParams.UrlPartsOf(SockJsUrl(key, id)).value.params == [c];
    PathParams.ChunkMatches(([key], id));
    assert PathParams.ParamsToMap([c]) == Ok(map[[key] := id]) by {
      assert [c][..0] == [];
    }
  }

  lemma SockJsUrlChunks(key: char, id: string)
    requires IsAsciiLetter(key) && AllWordChars(id)
    ensures '?' !in SockJsUrl(key, id)
    ensures Split(SockJsUrl(key, id), '/') == ["", "__sockjs__", [key] + "=" + id, ""]
  {
    var c := [key] + "=" + id;
    ParamChunkChars(key, id);
    var t1 := c + "/" + "";
    assert Split(t1, '/') == [c, ""] by {
      SplitNoSeparator(c, '/');
      SplitNoSeparator("", '/');
      SplitConcat(c, "", '/');
    }
    var t2 := "__sockjs__" + "/" + t1;
    assert Split(t2, '/') == ["__sockjs__", c, ""] by {
      SplitNoSeparator("__sockjs__", '/');
      SplitConcat("__sockjs__", t1, '/');
    }
    var t3 := "" + "/" + t2;
    assert Split(t3, '/') == ["", "__sockjs__", c, ""] by {
      SplitNoSeparator("", '/');
      SplitConcat("", t2, '/');
    }
    assert SockJsUrl(key, id) == t3;
  }

  lemma ParamChunkChars(key: char, id: string)
    requires IsAsciiLetter(key) && AllWordChars(id)
    ensures '/' !in [key] + "=" + id && '?' !in [key] + "=" + id
  {
    var c := [key] + "=" + id;
    forall i | 0 <= i < |c| ensures c[i] != '/' && c[i] != '?' {
      if i >= 2 { assert c[i] == id[i - 2] && IsWordChar(id[i - 2]); }
    }
  }

  /** `getInfo` of such a URL: `n=` asks for a new session, `o=` resumes one. */
  lemma GetInfoOfSockJsUrl(key: char, id: string)
    requires (key == 'n' || key == 'o') && id != "" && AllWordChars(id)
    ensures GetInfo(SockJsUrl(key, id)) == Ok(Robust(id, key == 'o'))
  {
    SockJsUrlParams(key, id);
  }

  /** The ids in the table after `robustify` with `info` on a table holding `keys`. */
  function KeysAfter(keys: set<string>, info: Info): set<string>
  {
    if info.Robust? && info.id != "none" && !info.existing && info.id !in keys then keys + {info.id} else keys
  }

  /**
   * `KeysAfter` agrees with the decision table: only a registration adds an
   * id, and no action removes one.
   */
  lemma KeysAfterFollowsDecide(keys: set<string>, info: Info, entry: Option<bool>)
    requires entry.Some? <==> info.Robust? && info.id in keys
    ensures Decide(info, entry) == Register ==> info.Robust? && KeysAfter(keys, info) == keys + {info.id}
    ensures Decide(info, entry) != Register ==> KeysAfter(keys, info) == keys
  {
  }

  /**
   * The sequence of test/robust-sockjs.js: a fresh `n=` id registers; a
   * second `n=` for it, an `o=` resume of it, and an `o=` for an unknown id
   * all leave the table with exactly that one entry.
   */
  lemma FourCasesKeepOneEntry(id: string, unknown: string)
    requires id != "" && AllWordChars(id) && unknown != "" && AllWordChars(unknown)
    requires id != unknown && id != "none"
    ensures GetInfo(SockJsUrl('n', id)) == Ok(Robust(id, false))
    ensures GetInfo(SockJsUrl('o', id)) == Ok(Robust(id, true))
    ensures GetInfo(SockJsUrl('o', unknown)) == Ok(Robust(unknown, true))
    ensures var k1 := KeysAfter({}, Robust(id, false));
            var k2 := KeysAfter(k1, Robust(id, false));
            var k3 := KeysAfter(k2, Robust(id, true));
            var k4 := KeysAfter(k3, Robust(unknown, true));
            k1 == k2 == k3 == k4 == {id} && |k4| == 1
  {
    GetInfoOfSockJsUrl('n', id);
    GetInfoOfSockJsUrl('o', id);
    GetInfoOfSockJsUrl('o', unknown);
    var k1 := KeysAfter({}, Robust(id, false));
    assert k1 == {id};
    assert KeysAfter(k1, Robust(id, false)) == {id};
    assert KeysAfter(k1, Robust(id, true)) == {id};
    assert KeysAfter(k1, Robust(unknown, true)) == {id};
  }
}
