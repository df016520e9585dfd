/**
 * `multiplex-client.js`: the browser end of the multiplexed SockJS
 * connection. `MultiplexClient.open` hands out channels with ids "0", "1",
 * ...; a channel opened while the connection is still connecting waits in
 * `_pendingChannels`; work deferred with `setTimeout(..., 0)` waits in a
 * FIFO task queue that the environment runs. The connection is closed when
 * the last channel has been removed.
 */
module ClientMultiplex {
  import opened Common
  import opened MultiplexFraming

  /** The client's `parseMultiplexData` also rejects an `o` frame with an empty URL. */
  function ParseClientData(msg: string, json: string -> Option<CloseInfo>): (r: Option<Packet>)
  {
    var p := ParseMultiplexData(msg, json);
    if p.Some? && p.value.OpenPacket? && p.value.url == "" then None else p
  }

  /** The client parser agrees with the server's except on an empty `o` URL. */
  lemma ClientParseFormat(id: string, data: string, url: string, info: CloseInfo, json: string -> Option<CloseInfo>)
    requires |id| >= 1 && AllDigits(id)
    requires json(CloseJson(info)) == Some(info)
    ensures ParseClientData(FormatMessage(id, data), json) == Some(MsgPacket(id, data))
    ensures ParseClientData(FormatOpenEvent(id, url), json) == if url == "" then None else Some(OpenPacket(id, url))
    ensures ParseClientData(FormatCloseEvent(id, info), json) == Some(ClosePacket(id, info))
  {
    ParseFormat(id, data, url, info, json);
  }

  // ---------------------------------------------------------------------
  // The life of one channel: opening from the deferred task
  // ---------------------------------------------------------------------

  /** What the connection records: each `send`, and `close`. */
  datatype ConnLog = SendLog(data: string) | CloseLog

  /** A channel's `readyState` and the connection's record. */
  datatype ChannelState = ChannelState(readyState: int, sent: seq<ConnLog>)

  /** `close(code, reason)` on a channel whose connection is open. */
  function CloseOnOpenConn(s: ChannelState, id: string, info: CloseInfo): ChannelState
  {
    if s.readyState >= 2 then s else ChannelState(3, s.sent + [SendLog(FormatCloseEvent(id, info))])
  }

  /** The callback `open` schedules when the connection is open, as written: `channel._open()` unconditionally. */
  function DeferredOpenAsWritten(s: ChannelState, id: string, url: string): ChannelState
  {
    ChannelState(1, s.sent + [SendLog(FormatOpenEvent(id, url))])
  }

  /** The same task with the `readyState === 0` check the pending-channel path makes. */
  function DeferredOpen(s: ChannelState, id: string, url: string): ChannelState
  {
    if s.readyState == 0 then ChannelState(1, s.sent + [SendLog(FormatOpenEvent(id, url))]) else s
  }

  /**
   * As written, a channel closed before its deferred open runs is opened
   * again: its close frame goes out before its open frame and it ends at
   * `readyState` 1.
   */
  lemma ClosedChannelReopened(id: string, url: string, info: CloseInfo)
    ensures var s := DeferredOpenAsWritten(CloseOnOpenConn(ChannelState(0, []), id, info), id, url);
            s.readyState == 1 && s.sent == [SendLog(FormatCloseEvent(id, info)), SendLog(FormatOpenEvent(id, url))]
  {
  }

  /** With the check, a closed channel stays closed and sends nothing more. */
  lemma ClosedChannelStaysClosed(s: ChannelState, id: string, url: string)
    requires s.readyState != 0
    ensures DeferredOpen(s, id, url) == s
  {
  }

  /** With the check, closing before the deferred open leaves only the close frame. */
  lemma CloseBeforeDeferredOpen(id: string, url: string, info: CloseInfo)
    ensures var s := DeferredOpen(CloseOnOpenConn(ChannelState(0, []), id, info), id, url);
            s.readyState == 3 && s.sent == [SendLog(FormatCloseEvent(id, info))]
  {
  }

  // ---------------------------------------------------------------------
  // Connection, channels and the client
  // ---------------------------------------------------------------------

  /** The SockJS client connection, as far as the multiplexer uses it. */
  class ClientConn {
    var readyState: int
    var log: seq<ConnLog>

    constructor ()
      ensures readyState == 0 && log == []
    {
      readyState := 0;
      log := [];
    }

    method Send(data: string)
      modifies this
      ensures log == old(log) + [SendLog(data)] && readyState == old(readyState)
    {
      log := log + [SendLog(data)];
    }

    /** `close()`: the connection is closed and the `close` event is delivered separately. */
    method Close()
      modifies this
      ensures log == old(log) + [CloseLog] && readyState == 3
    {
      log := log + [CloseLog];
      readyState := 3;
    }

    /** The connection finishes connecting. */
    method Connected()
      modifies this
      ensures log == old(log) && readyState == 1
    {
      readyState := 1;
    }
  }

  /** The event passed to a channel's `onclose`. */
  datatype CloseEvent =
    | CloseCall(code: Option<int>, reason: Option<string>)
    | ConnectionLost

  /** What a channel reports to its user through `onopen`, `onmessage` and `onclose`. */
  datatype ChannelEvent = OpenedEv | MessageEv(data: string) | ClosedEv(e: CloseEvent)

  /** A `setTimeout(..., 0)` callback waiting to run. */
  datatype Task =
    | OpenTask(ch: ClientChannel)
    | CloseTask(ch: ClientChannel)
    | RemoveTask(ch: ClientChannel, e: CloseEvent)

  /** `MultiplexClientChannel` */
  class ClientChannel {
    const owner: MultiplexClient
    const id: string
    /** The value of `_nextId` the id was made from. */
    ghost const num: nat
    const conn: ClientConn
    const url: string
    var readyState: int
    var events: seq<ChannelEvent>

    constructor (owner: MultiplexClient, num: nat, conn: ClientConn, url: string)
      ensures this.owner == owner && this.num == num && this.id == NatToDecimal(num)
      ensures this.conn == conn && this.url == url && readyState == 0 && events == []
    {
      this.owner := owner;
      this.id := NatToDecimal(num);
      this.num := num;
      this.conn := conn;
      this.url := url;
      readyState := 0;
      events := [];
    }

    /**
     * `_open`: the open frame goes out and `onopen` fires, whatever the
     * channel's state. Only from `readyState` 0 does the client's invariant
     * survive: reopening a closed channel leaves a destroyed channel open.
     */
    method Open()
      requires owner.Valid() && this in owner.all
      modifies this, conn
      ensures old(readyState) == 0 ==> owner.Valid()
      ensures readyState == 1 && events == old(events) + [OpenedEv]
      ensures conn.log == old(conn.log) + [SendLog(FormatOpenEvent(id, url))]
      ensures conn.readyState == old(conn.readyState)
    {
      readyState := 1;
      conn.Send(FormatOpenEvent(id, url));
      events := events + [OpenedEv];
    }

    /** `send`: an error before the channel opens, a frame while open, nothing once closed. */
    method Send(data: string) returns (r: Result<()>)
      modifies conn
      ensures readyState == 0 ==> r == Err("Invalid state: can't send when readyState is 0") && conn.log == old(conn.log)
      ensures readyState == 1 ==> r == Ok(()) && conn.log == old(conn.log) + [SendLog(FormatMessage(id, data))]
      ensures readyState != 0 && readyState != 1 ==> r == Ok(()) && conn.log == old(conn.log)
      ensures conn.readyState == old(conn.readyState)
    {
      if readyState == 0 {
        return Err("Invalid state: can't send when readyState is 0");
      }
      if readyState == 1 {
        conn.Send(FormatMessage(id, data));
      }
      return Ok(());
    }

    /**
     * `close(code, reason)`: nothing once closing or closed; otherwise a
     * close frame if the connection is open, then `_destroy`.
     */
    method Close(code: Option<int>, reason: Option<string>)
      requires owner.Valid() && this in owner.all
      modifies this, conn, owner
      ensures owner.Valid() && events == old(events) && conn.readyState == old(conn.readyState)
      ensures old(readyState) >= 2 ==>
                readyState == old(readyState) && conn.log == old(conn.log) && owner.tasks == old(owner.tasks)
      ensures old(readyState) < 2 ==>
                readyState == 3 && owner.tasks == old(owner.tasks) + [RemoveTask(this, CloseCall(code, reason))]
                && conn.log == old(conn.log)
                     + (if old(conn.readyState) == 1 then [SendLog(FormatCloseEvent(id, CloseInfo(code, reason)))] else [])
      ensures owner.channels == old(owner.channels) && owner.channelCount == old(owner.channelCount)
      ensures owner.nextId == old(owner.nextId) && owner.pending == old(owner.pending) && owner.all == old(owner.all)
      ensures owner.closeNotifications == old(owner.closeNotifications)
    {
      if readyState >= 2 {
        return;
      }
      if conn.readyState == 1 {
        conn.Send(FormatCloseEvent(id, CloseInfo(code, reason)));
      }
      Destroy(CloseCall(code, reason));
    }

    /** `_destroy(e)`: the first time only, mark closed and defer the removal and `onclose`. */
    method Destroy(e: CloseEvent)
      requires owner.Valid() && this in owner.all
      modifies this, owner
      ensures owner.Valid() && readyState == 3 && events == old(events)
      ensures old(readyState) == 3 ==> owner.tasks == old(owner.tasks)
      ensures old(readyState) != 3 ==> owner.tasks == old(owner.tasks) + [RemoveTask(this, e)]
      ensures owner.channels == old(owner.channels) && owner.channelCount == old(owner.channelCount)
      ensures owner.nextId == old(owner.nextId) && owner.pending == old(owner.pending) && owner.all == old(owner.all)
      ensures owner.closeNotifications == old(owner.closeNotifications)
    {
      if readyState != 3 {
        readyState := 3;
        owner.tasks := owner.tasks + [RemoveTask(this, e)];
      }
    }
  }

  /** Every channel's id was made from a value of `_nextId` below `next`. */
  ghost predicate Numbered(chs: set<ClientChannel>, next: nat)
  {
    forall ch :: ch in chs ==> ch.id == NatToDecimal(ch.num) && ch.num < next
  }

  lemma NumberedAdd(chs: set<ClientChannel>, next: nat, ch: ClientChannel)
    requires Numbered(chs, next) && ch.id == NatToDecimal(ch.num) && ch.num == next
    ensures Numbered(chs + {ch}, next + 1)
  {
  }

  /** What one `onmessage` did. */
  datatype MessageOutcome = Invalid | NotFound | ClosedAll | Delivered | Ignored

  class MultiplexClient {
    const conn: ClientConn
    /** `_channels`, by id. */
    var channels: map<string, ClientChannel>
    var channelCount: int
    var nextId: nat
    var pending: seq<ClientChannel>
    /** The deferred callbacks, oldest first. */
    var tasks: seq<Task>
    /** How many times the `onclose` listeners were run. */
    var closeNotifications: nat

    /** Every channel this client has created. */
    ghost var all: set<ClientChannel>

    /**
     * The count is the size of the table; every channel the client created
     * is its table entry or is destroyed; every deferred removal is for a
     * destroyed table entry, at most one per id.
     */
    ghost predicate Valid()
      reads this, all`readyState
    {
      channelCount == |channels|
      && Numbered(all, nextId)
      && (forall ch :: ch in all ==>
            ch.owner == this && ch.conn == conn
            && ((ch.id in channels && channels[ch.id] == ch) || ch.readyState == 3))
      && (forall id :: id in channels ==> channels[id] in all && channels[id].id == id)
      && (forall k :: 0 <= k < |tasks| ==> tasks[k].ch in all)
      && (forall k :: 0 <= k < |tasks| && tasks[k].RemoveTask? ==>
            tasks[k].ch.id in channels && channels[tasks[k].ch.id] == tasks[k].ch && tasks[k].ch.readyState == 3)
      && (forall k, l :: 0 <= k < l < |tasks| && tasks[k].RemoveTask? && tasks[l].RemoveTask? ==>
            tasks[k].ch.id != tasks[l].ch.id)
      && (forall k :: 0 <= k < |pending| ==> pending[k] in all)
      && (forall k, l :: 0 <= k < l < |pending| ==> pending[k] != pending[l])
    }

    constructor (conn: ClientConn)
      ensures Valid() && this.conn == conn && channels == map[] && channelCount == 0 && nextId == 0 && all == {}
      ensures pending == [] && tasks == [] && closeNotifications == 0
    {
      this.conn := conn;
      channels := map[];
      channelCount := 0;
      nextId := 0;
      pending := [];
      tasks := [];
      closeNotifications := 0;
      all := {};
    }

    /**
     * `open(url)`: the next id, one more channel; the channel waits for
     * the connection, opens on the next tick, or is closed on the next tick.
     */
    method Open(url: string) returns (ch: ClientChannel)
      requires Valid()
      modifies this
      ensures Valid() && fresh(ch)
      ensures ch.id == NatToDecimal(old(nextId)) && ch.url == url && ch.readyState == 0 && ch.events == []
      ensures ch.owner == this && ch.conn == conn && all == old(all) + {ch}
      ensures nextId == old(nextId) + 1 && channelCount == old(channelCount) + 1
      ensures old(NatToDecimal(nextId)) !in old(channels) && channels == old(channels)[ch.id := ch]
      ensures conn.readyState == 0 ==> pending == old(pending) + [ch] && tasks == old(tasks)
      ensures conn.readyState == 1 ==> pending == old(pending) && tasks == old(tasks) + [OpenTask(ch)]
      ensures conn.readyState != 0 && conn.readyState != 1 ==>
                pending == old(pending) && tasks == old(tasks) + [CloseTask(ch)]
      ensures closeNotifications == old(closeNotifications)
    {
      ch := AddChannel(url);
      if conn.readyState == 0 {
        assert forall k :: 0 <= k < |pending| ==> pending[k] in old(all);
        AddPending(ch);
      } else if conn.readyState == 1 {
        Defer(OpenTask(ch));
      } else {
        Defer(CloseTask(ch));
      }
    }

    /** `_pendingChannels.push(channel)` */
    method AddPending(ch: ClientChannel)
      requires Valid() && ch in all && forall k :: 0 <= k < |pending| ==> pending[k] != ch
      modifies this
      ensures Valid() && pending == old(pending) + [ch]
      ensures channels == old(channels) && channelCount == old(channelCount) && nextId == old(nextId)
      ensures tasks == old(tasks) && all == old(all) && closeNotifications == old(closeNotifications)
    {
      pending := pending + [ch];
    }

    /** `setTimeout(..., 0)` of opening or closing a channel. */
    method Defer(t: Task)
      requires Valid() && t.ch in all && !t.RemoveTask?
      modifies this
      ensures Valid() && tasks == old(tasks) + [t]
      ensures channels == old(channels) && channelCount == old(channelCount) && nextId == old(nextId)
      ensures pending == old(pending) && all == old(all) && closeNotifications == old(closeNotifications)
    {
      tasks := tasks + [t];
    }

    /** The first half of `open`: a channel under the next id, counted. */
    method AddChannel(url: string) returns (ch: ClientChannel)
      requires Valid()
      modifies this
      ensures Valid() && fresh(ch)
      ensures ch.id == NatToDecimal(old(nextId)) && ch.url == url && ch.readyState == 0 && ch.events == []
      ensures ch.owner == this && ch.conn == conn && all == old(all) + {ch}
      ensures nextId == old(nextId) + 1 && channelCount == old(channelCount) + 1
      ensures old(NatToDecimal(nextId)) !in old(channels) && channels == old(channels)[ch.id := ch]
      ensures pending == old(pending) && tasks == old(tasks) && closeNotifications == old(closeNotifications)
    {
      ch := new ClientChannel(this, nextId, conn, url);
      Register(ch);
    }

    /** `_channels[id] = channel` and `_channelCount++` for a new channel made from `_nextId++`. */
    method Register(ch: ClientChannel)
      requires Valid() && ch !in all && ch.owner == this && ch.conn == conn
      requires ch.num == nextId && ch.id == NatToDecimal(nextId) && ch.readyState == 0
      modifies this
      ensures Valid() && all == old(all) + {ch}
      ensures nextId == old(nextId) + 1 && channelCount == old(channelCount) + 1
      ensures ch.id !in old(channels) && channels == old(channels)[ch.id := ch]
      ensures pending == old(pending) && tasks == old(tasks) && closeNotifications == old(closeNotifications)
    {
      FreshId();
      NumberedAdd(all, nextId, ch);
      nextId := nextId + 1;
      channels := channels[ch.id := ch];
      channelCount := channelCount + 1;
      all := all + {ch};
    }

    /** The id `open` is about to use is not taken. */
    lemma FreshId()
      requires Valid()
      ensures NatToDecimal(nextId) !in channels
    {
      if NatToDecimal(nextId) in channels {
        var ch := channels[NatToDecimal(nextId)];
        NatToDecimalInjective(ch.num, nextId);
      }
    }

    /** `removeChannel(id)`: one channel fewer; the connection closes with the last one. */
    method RemoveChannel(id: string)
      requires Valid() && id in channels && channels[id].readyState == 3
      requires forall k :: 0 <= k < |tasks| && tasks[k].RemoveTask? ==> tasks[k].ch.id != id
      modifies this, conn
      ensures Valid() && channels == old(channels) - {id} && channelCount == old(channelCount) - 1
      ensures channelCount == 0 && old(conn.readyState) < 2 ==>
                conn.log == old(conn.log) + [CloseLog] && conn.readyState == 3
      ensures !(channelCount == 0 && old(conn.readyState) < 2) ==> conn.log == old(conn.log) && conn.readyState == old(conn.readyState)
      ensures tasks == old(tasks) && pending == old(pending) && nextId == old(nextId) && all == old(all)
      ensures closeNotifications == old(closeNotifications)
    {
      channels := channels - {id};
      channelCount := channelCount - 1;
      if channelCount == 0 && conn.readyState < 2 {
        conn.Close();
      }
    }

    /** Run the oldest deferred callback. */
    method RunTask()
      requires Valid() && tasks != []
      modifies this, conn, tasks[0].ch
      ensures Valid() && nextId == old(nextId) && pending == old(pending) && all == old(all)
      ensures closeNotifications == old(closeNotifications)
      ensures old(tasks[0]).OpenTask? ==>
                var ch := old(tasks[0]).ch;
                channels == old(channels) && tasks == old(tasks[1..])
                && ChannelState(ch.readyState, conn.log) ==
                     DeferredOpen(ChannelState(old(ch.readyState), old(conn.log)), ch.id, ch.url)
      ensures old(tasks[0]).CloseTask? ==>
                var ch := old(tasks[0]).ch;
                channels == old(channels)
                && (old(ch.readyState) >= 2 ==> tasks == old(tasks[1..]) && conn.log == old(conn.log))
                && (old(ch.readyState) < 2 ==>
                      ch.readyState == 3 && tasks == old(tasks[1..]) + [RemoveTask(ch, CloseCall(None, None))]
                      && conn.log == old(conn.log)
                           + (if old(conn.readyState) == 1 then [SendLog(FormatCloseEvent(ch.id, CloseInfo(None, None)))] else []))
      ensures old(tasks[0]).RemoveTask? ==>
                var ch := old(tasks[0]).ch;
                tasks == old(tasks[1..])
                && channels == old(channels) - {ch.id} && channelCount == old(channelCount) - 1
                && ch.events == old(ch.events) + [ClosedEv(old(tasks[0]).e)]
                && (channelCount == 0 && old(conn.readyState) < 2 ==> conn.log == old(conn.log) + [CloseLog])
                && (!(channelCount == 0 && old(conn.readyState) < 2) ==> conn.log == old(conn.log))
    {
      var task := tasks[0];
      PopTask();
      match task {
        case OpenTask(ch) =>
          if ch.readyState == 0 {
            ch.Open();
          }
        case CloseTask(ch) =>
          ch.Close(None, None);
        case RemoveTask(ch, e) =>
          RunRemoval(ch, e);
      }
    }

    /** A deferred removal: `removeChannel(id)`, then the channel's `onclose(e)`. */
    method RunRemoval(ch: ClientChannel, e: CloseEvent)
      requires Valid() && ch in all && ch.id in channels && channels[ch.id] == ch && ch.readyState == 3
      requires forall k :: 0 <= k < |tasks| && tasks[k].RemoveTask? ==> tasks[k].ch.id != ch.id
      modifies this, conn, ch
      ensures Valid() && channels == old(channels) - {ch.id} && channelCount == old(channelCount) - 1
      ensures ch.events == old(ch.events) + [ClosedEv(e)]
      ensures channelCount == 0 && old(conn.readyState) < 2 ==> conn.log == old(conn.log) + [CloseLog]
      ensures !(channelCount == 0 && old(conn.readyState) < 2) ==> conn.log == old(conn.log)
      ensures tasks == old(tasks) && pending == old(pending) && nextId == old(nextId) && all == old(all)
      ensures closeNotifications == old(closeNotifications)
    {
      RemoveChannel(ch.id);
      ch.events := ch.events + [ClosedEv(e)];
    }

    /** Take the oldest task off the queue. */
    method PopTask()
      requires Valid() && tasks != []
      modifies this
      ensures Valid() && tasks == old(tasks[1..]) && channels == old(channels) && channelCount == old(channelCount)
      ensures nextId == old(nextId) && pending == old(pending) && all == old(all)
      ensures closeNotifications == old(closeNotifications)
      ensures old(tasks[0]).ch in all
      ensures old(tasks[0]).RemoveTask? ==>
                var ch := old(tasks[0]).ch;
                ch.id in channels && channels[ch.id] == ch && ch.readyState == 3
                && forall k :: 0 <= k < |tasks| && tasks[k].RemoveTask? ==> tasks[k].ch.id != ch.id
    {
      ghost var t := tasks;
      tasks := tasks[1..];
      assert forall k :: 0 <= k < |tasks| ==> tasks[k] == t[k + 1];
    }

    /** The opening frames the pending channels still at `readyState` 0 send, in order. */
    ghost function PendingOpens(chs: seq<ClientChannel>): seq<ConnLog>
      reads set k | 0 <= k < |chs| :: chs[k]
    {
      if chs == [] then []
      else
        var ch := chs[|chs| - 1];
        PendingOpens(chs[..|chs| - 1])
          + (if ch.readyState == 0 then [SendLog(FormatOpenEvent(ch.id, ch.url))] else [])
    }

    /** One turn of the `onopen` loop: shift a pending channel and open it unless it was closed. */
    method OpenNextPending()
      requires Valid() && pending != []
      modifies this, conn, pending[0]
      ensures Valid() && pending == old(pending[1..]) && channels == old(channels) && tasks == old(tasks)
      ensures var ch := old(pending[0]);
              ChannelState(ch.readyState, conn.log) ==
                DeferredOpen(ChannelState(old(ch.readyState), old(conn.log)), ch.id, ch.url)
      ensures conn.readyState == old(conn.readyState) && nextId == old(nextId) && all == old(all)
      ensures closeNotifications == old(closeNotifications)
    {
      var ch := pending[0];
      pending := pending[1..];
      if ch.readyState == 0 {
        ch.Open();
      }
    }

    /** `onopen`: every pending channel still waiting is opened, in the order it was opened. */
    method OnConnOpen()
      requires Valid()
      modifies this, conn, all
      ensures Valid() && pending == [] && channels == old(channels) && tasks == old(tasks) && all == old(all)
      ensures conn.log == old(conn.log) + old(PendingOpens(pending))
      ensures conn.readyState == old(conn.readyState)
    {
      ghost var p0 := pending;
      ghost var i := 0;
      while pending != []
        invariant Valid() && 0 <= i <= |p0| && pending == p0[i..]
        invariant channels == old(channels) && tasks == old(tasks) && conn.readyState == old(conn.readyState)
        invariant all == old(all)
        invariant conn.log == old(conn.log) + old(PendingOpens(p0[..i]))
        invariant forall j :: i <= j < |p0| ==> p0[j].readyState == old(p0[j].readyState)
        decreases |pending|
      {
        assert p0[..i + 1][..i] == p0[..i];
        OpenNextPending();
        i := i + 1;
      }
      assert p0[..i] == p0;
    }

    /** The ids of the removals a sequence of tasks defers. */
    ghost function RemovalIds(ts: seq<Task>): set<string>
    {
      set k | 0 <= k < |ts| && ts[k].RemoveTask? :: ts[k].ch.id
    }

    lemma RemovalIdsAppend(a: seq<Task>, b: seq<Task>)
      ensures RemovalIds(a + b) == RemovalIds(a) + RemovalIds(b)
    {
      var ab := a + b;
      forall id | id in RemovalIds(ab) ensures id in RemovalIds(a) + RemovalIds(b) {
        var k :| 0 <= k < |ab| && ab[k].RemoveTask? && ab[k].ch.id == id;
        if k >= |a| { assert b[k - |a|] == ab[k]; }
      }
      forall id | id in RemovalIds(a) ensures id in RemovalIds(ab) {
        var k :| 0 <= k < |a| && a[k].RemoveTask? && a[k].ch.id == id;
        assert ab[k] == a[k];
      }
      forall id | id in RemovalIds(b) ensures id in RemovalIds(ab) {
        var k :| 0 <= k < |b| && b[k].RemoveTask? && b[k].ch.id == id;
        assert ab[k + |a|] == b[k];
      }
    }

    lemma RemovalIdsOfStep(ts: seq<Task>, ch: ClientChannel, added: bool)
      requires ts == if added then [RemoveTask(ch, ConnectionLost)] else []
      ensures RemovalIds(ts) == if added then {ch.id} else {}
    {
      if added {
        assert ts[0].ch.id in RemovalIds(ts);
      }
    }

    /** The ids, among those no longer `remaining`, of channels that were not yet closed. */
    ghost function ClosedSince(state0: map<string, int>, remaining: set<string>): set<string>
    {
      set id | id in state0 && id !in remaining && state0[id] != 3
    }

    lemma ClosedSinceStep(state0: map<string, int>, remaining: set<string>, k: string)
      requires k in remaining && k in state0
      ensures ClosedSince(state0, remaining - {k}) ==
                ClosedSince(state0, remaining) + if state0[k] != 3 then {k} else {}
    {
    }

    /** `_destroy(e)` of the table entry `k`, as the connection's `onclose` does. */
    method DestroyEntry(k: string)
      requires Valid() && k in channels
      modifies this, channels[k]
      ensures Valid() && channels == old(channels) && pending == old(pending) && all == old(all)
      ensures closeNotifications == old(closeNotifications)
      ensures channels[k].readyState == 3
      ensures tasks == old(tasks)
                + if old(channels[k].readyState) != 3 then [RemoveTask(channels[k], ConnectionLost)] else []
      ensures forall id :: id in channels && id != k ==> channels[id].readyState == old(channels[id].readyState)
    {
      var ch := channels[k];
      assert ch in all && ch.owner == this;
      ch.Destroy(ConnectionLost);
    }

    /**
     * Progress of the connection's `onclose` loop: the entries outside
     * `remaining` are closed, the others keep their state from `state0`,
     * and `added`, what was queued so far, holds one removal for each entry that
     * was open and is no longer remaining.
     */
    ghost predicate Closing(remaining: set<string>, state0: map<string, int>, added: seq<Task>)
      reads this, channels.Values
    {
      remaining <= channels.Keys
      && (forall id :: id in channels && id !in remaining ==> channels[id].readyState == 3)
      && (forall id :: id in remaining ==> id in state0 && channels[id].readyState == state0[id])
      && (forall k :: 0 <= k < |added| ==> added[k].RemoveTask? && added[k].e == ConnectionLost)
      && RemovalIds(added) == ClosedSince(state0, remaining)
    }

    lemma AppendAssoc(a: seq<Task>, b: seq<Task>, c: seq<Task>)
      ensures (a + b) + c == a + (b + c)
    {
    }

    /** One turn of the `onclose` loop: destroy the entry `k`. */
    method CloseStep(k: string, ghost remaining: set<string>, ghost state0: map<string, int>, ghost added: seq<Task>)
        returns (ghost step: seq<Task>)
      requires Valid() && k in remaining && Closing(remaining, state0, added)
      modifies this, channels[k]
      ensures Valid() && channels == old(channels) && pending == old(pending) && all == old(all)
      ensures closeNotifications == old(closeNotifications)
      ensures tasks == old(tasks) + step
      ensures Closing(remaining - {k}, state0, added + step)
    {
      ghost var ch := channels[k];
      step := if state0[k] != 3 then [RemoveTask(ch, ConnectionLost)] else [];
      DestroyEntry(k);
      RemovalIdsAppend(added, step);
      RemovalIdsOfStep(step, ch, state0[k] != 3);
      ClosedSinceStep(state0, remaining, k);
    }

    /**
     * `onclose` of the connection: every channel in the table is destroyed
     * (deferring one removal for each not already closed), then the
     * `onclose` listeners run.
     */
    method OnConnClose()
      requires Valid()
      modifies this, channels.Values
      ensures Valid() && channels == old(channels) && pending == old(pending) && all == old(all)
      ensures closeNotifications == old(closeNotifications) + 1
      ensures forall id :: id in channels ==> channels[id].readyState == 3
      ensures |tasks| >= |old(tasks)| && tasks[..|old(tasks)|] == old(tasks)
      ensures forall k :: |old(tasks)| <= k < |tasks| ==> tasks[k].RemoveTask? && tasks[k].e == ConnectionLost
      ensures RemovalIds(tasks[|old(tasks)|..]) == set id | id in old(channels) && old(channels[id].readyState) != 3
    {
      var remaining := channels.Keys;
      ghost var added: seq<Task> := [];
      ghost var tasks0 := tasks;
      ghost var state0 := map id | id in channels :: channels[id].readyState;
      assert ClosedSince(state0, remaining) == {};
      while remaining != {}
        invariant Valid() && channels == old(channels) && pending == old(pending)
        invariant closeNotifications == old(closeNotifications) && all == old(all)
        invariant tasks == tasks0 + added
        invariant Closing(remaining, state0, added)
        decreases remaining
      {
        var k :| k in remaining;
        var step := CloseStep(k, remaining, state0, added);
        AppendAssoc(tasks0, added, step);
        added := added + step;
        remaining := remaining - {k};
      }
      assert tasks[|old(tasks)|..] == added;
      assert ClosedSince(state0, {}) == set id | id in old(channels) && old(channels[id].readyState) != 3;
      assert forall id :: id in channels ==> channels[id].readyState == 3;
      NotifyClosed();
    }

    /** The connection's `onclose` listeners run once more. */
    method NotifyClosed()
      requires Valid()
      modifies this
      ensures Valid() && closeNotifications == old(closeNotifications) + 1
      ensures channels == old(channels) && tasks == old(tasks) && pending == old(pending) && all == old(all)
      ensures channelCount == old(channelCount) && nextId == old(nextId)
      ensures forall id :: id in channels ==> channels[id].readyState == old(channels[id].readyState)
    {
      closeNotifications := closeNotifications + 1;
    }

    /**
     * `onmessage`: an unparsable frame closes the connection; a frame for an
     * unknown id is dropped; `c` closes the whole connection; `m` reaches the
     * channel's `onmessage`.
     */
    method OnMessage(msg: string, json: string -> Option<CloseInfo>) returns (outcome: MessageOutcome)
      requires Valid()
      modifies this, conn, channels.Values
      ensures Valid() && channels == old(channels) && tasks == old(tasks) && pending == old(pending) && all == old(all)
      ensures var p := ParseClientData(msg, json);
              if p.None? then outcome == Invalid && conn.log == old(conn.log) + [CloseLog]
              else if p.value.Id() !in channels then outcome == NotFound && conn.log == old(conn.log)
              else if p.value.ClosePacket? then outcome == ClosedAll && conn.log == old(conn.log) + [CloseLog]
              else if p.value.MsgPacket? then
                outcome == Delivered && conn.log == old(conn.log)
                && channels[p.value.id].events == old(channels[p.value.id].events) + [MessageEv(p.value.data)]
              else outcome == Ignored && conn.log == old(conn.log)
      ensures forall id :: id in channels && (ParseClientData(msg, json).None? || id != ParseClientData(msg, json).value.Id()) ==>
                channels[id].events == old(channels[id].events)
    {
      var p := ParseClientData(msg, json);
      if p.None? {
        conn.Close();
        return Invalid;
      }
      var id := p.value.Id();
      if id !in channels {
        return NotFound;
      }
      var ch := channels[id];
      match p.value {
        case ClosePacket(_, _) =>
          conn.Close();
          return ClosedAll;
        case MsgPacket(_, data) =>
          ch.events := ch.events + [MessageEv(data)];
          return Delivered;
        case OpenPacket(_, _) =>
          return Ignored;
      }
    }
  }
}
