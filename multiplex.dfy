/**
 * `lib/proxy/multiplex.js`: the server end of the multiplexed SockJS
 * connection. A `MultiplexSocket` reads frames from one physical connection,
 * opens a `MultiplexChannel` for each `o` frame with an unused id, passes `m`
 * payloads to the channel and destroys it on `c`; when the physical
 * connection closes, every channel is destroyed and the table emptied.
 */
module Multiplex {
  import opened Common
  import opened MultiplexFraming

  // ---------------------------------------------------------------------
  // The channel URL: conn.url, or path.join of its non-SockJS part and the
  // relative URL of the `o` frame
  // ---------------------------------------------------------------------

  /** One segment of Node's `path.posix.normalize`: skip `""` and `.`, let `..` pop. */
  function NormalizeStep(acc: seq<string>, seg: string, allowAboveRoot: bool): seq<string>
  {
    if seg == "" || seg == "." then acc
    else if seg == ".." then
      if |acc| > 0 && acc[|acc| - 1] != ".." then acc[..|acc| - 1]
      else if allowAboveRoot then acc + [".."]
      else acc
    else acc + [seg]
  }

  function NormalizeSegments(segs: seq<string>, allowAboveRoot: bool): seq<string>
  {
    if segs == [] then []
    else NormalizeStep(NormalizeSegments(segs[..|segs| - 1], allowAboveRoot), segs[|segs| - 1], allowAboveRoot)
  }

  /** `path.posix.normalize(p)`: never empty; an absolute path stays absolute, a trailing slash stays. */
  function Normalize(p: string): (r: string)
    ensures r != ""
    ensures p != "" && p[0] == '/' ==> r[0] == '/'
    ensures p != "" && p[|p| - 1] == '/' ==> r[|r| - 1] == '/'
  {
    if p == "" then "."
    else
      var isAbsolute := p[0] == '/';
      var trailing := p[|p| - 1] == '/';
      var segs := NormalizeSegments(Split(p, '/'), !isAbsolute);
      NormalizedSegmentsNonEmpty(Split(p, '/'), !isAbsolute);
      assert segs != [] ==> segs[0] in segs;
      if segs == [] then (if isAbsolute then "/" else if trailing then "./" else ".")
      else
        var body := Join(segs, '/') + (if trailing then "/" else "");
        if isAbsolute then "/" + body else body
  }

  /** Normalizing keeps no empty segment. */
  lemma {:induction false} NormalizedSegmentsNonEmpty(segs: seq<string>, allowAboveRoot: bool)
    ensures forall seg :: seg in NormalizeSegments(segs, allowAboveRoot) ==> seg != ""
  {
    if segs != [] {
      var init := segs[..|segs| - 1];
      NormalizedSegmentsNonEmpty(init, allowAboveRoot);
      var prev := NormalizeSegments(init, allowAboveRoot);
      var last := segs[|segs| - 1];
      forall seg | seg in NormalizeStep(prev, last, allowAboveRoot)
        ensures seg != ""
      {
        if last == "" || last == "." {
          assert seg in prev;
        } else if last == ".." && |prev| > 0 && prev[|prev| - 1] != ".." {
          assert seg in prev[..|prev| - 1];
          assert seg in prev;
        } else if seg !in prev {
          assert seg == last;
        }
      }
    }
  }

  /** `path.join(a, b)` of Node's posix path module: empty parts are dropped. */
  function PathJoin(a: string, b: string): (r: string)
    ensures r != ""
    ensures a != "" && a[0] == '/' ==> r[0] == '/'
    ensures a == "" && b != "" && b[0] == '/' ==> r[0] == '/'
  {
    if a == "" && b == "" then "."
    else Normalize(if a == "" then b else if b == "" then a else a + "/" + b)
  }

  const SOCKJS_MARK: string := "/__sockjs__/"

  /** Where `/\/__sockjs__\/.*$/` matches: the mark, then no line terminator up to the end. */
  predicate SockJsTailAt(url: string, i: nat)
  {
    i + |SOCKJS_MARK| <= |url| && url[i..i + |SOCKJS_MARK|] == SOCKJS_MARK
    && NoLineTerminator(url[i + |SOCKJS_MARK|..])
  }

  function FirstSockJsTail(url: string, i: nat): (r: Option<nat>)
    requires i <= |url|
    ensures r.Some? ==> i <= r.value <= |url| && SockJsTailAt(url, r.value)
    decreases |url| - i
  {
    if SockJsTailAt(url, i) then Some(i)
    else if i == |url| then None
    else FirstSockJsTail(url, i + 1)
  }

  /** `url.replace(/\/__sockjs__\/.*$/, "/")` */
  function StripSockJs(url: string): string
  {
    var m := FirstSockJsTail(url, 0);
    if m.Some? then url[..m.value] + "/" else url
  }

  /** The `url` a channel opened by `payload` gets. */
  function ChannelUrl(connUrl: string, payload: string): string
  {
    if payload == "" then connUrl else PathJoin(StripSockJs(connUrl), payload)
  }

  predicate CleanSegment(seg: string)
  {
    seg != "" && seg != "." && seg != ".." && '/' !in seg
  }

  lemma {:induction false} SegmentsClean(segs: seq<string>)
    requires forall i :: 0 <= i < |segs| ==> '/' !in segs[i]
    ensures forall seg :: seg in NormalizeSegments(segs, false) ==> CleanSegment(seg)
  {
    if segs != [] {
      var init := segs[..|segs| - 1];
      assert forall i :: 0 <= i < |init| ==> init[i] == segs[i];
      SegmentsClean(init);
      var prev := NormalizeSegments(init, false);
      var last := segs[|segs| - 1];
      assert '/' !in last;
      var r := NormalizeSegments(segs, false);
      assert r == NormalizeStep(prev, last, false);
      forall seg | seg in r ensures CleanSegment(seg) {
        if last == ".." && |prev| > 0 && prev[|prev| - 1] != ".." {
          assert seg in prev[..|prev| - 1];
        } else if seg !in prev {
          assert seg == last;
        }
      }
    }
  }

  /**
   * An absolute path normalizes to an absolute path none of whose
   * segments is `.` or `..`: a channel URL cannot climb above the root.
   */
  lemma NormalizeAbsolute(p: string)
    requires p != "" && p[0] == '/'
    ensures var r := Normalize(p);
            r != "" && r[0] == '/'
            && forall seg :: seg in Split(r, '/') ==> seg != "." && seg != ".."
  {
    var segs := NormalizeSegments(Split(p, '/'), false);
    SegmentsClean(Split(p, '/'));
    var r := Normalize(p);
    var trailing := p[|p| - 1] == '/';
    if segs == [] {
      assert r == "" + ['/'] + "";
      SplitConcat("", "", '/');
    } else {
      forall i | 0 <= i < |segs| ensures '/' !in segs[i] {
        assert CleanSegment(segs[i]) by { assert segs[i] in segs; }
      }
      assert r == "/" + (Join(segs, '/') + (if trailing then "/" else ""));
      SplitRooted(segs, trailing);
    }
  }

  /** Splitting a rooted join gives back the segments, after the empty one before the root. */
  lemma SplitRooted(segs: seq<string>, trailing: bool)
    requires segs != [] && forall i :: 0 <= i < |segs| ==> '/' !in segs[i]
    ensures Split("/" + (Join(segs, '/') + (if trailing then "/" else "")), '/')
            == [""] + segs + (if trailing then [""] else [])
  {
    var j := Join(segs, '/');
    SplitJoin(segs, '/');
    if trailing {
      SplitRootedTrailing(j);
    } else {
      SplitRootedPlain(j);
    }
  }

  lemma SplitRootedPlain(j: string)
    ensures Split("/" + (j + ""), '/') == [""] + Split(j, '/')
  {
    assert "/" + (j + "") == "" + ['/'] + j;
    SplitConcat("", j, '/');
  }

  lemma SplitRootedTrailing(j: string)
    ensures Split("/" + (j + "/"), '/') == [""] + Split(j, '/') + [""]
  {
    assert "/" + (j + "/") == "" + ['/'] + (j + ['/'] + "");
    SplitConcat(j, "", '/');
    SplitConcat("", j + ['/'] + "", '/');
  }

  /** The channel URL of a relative `o` payload on an absolute connection URL stays absolute and clean. */
  lemma ChannelUrlAbsolute(connUrl: string, payload: string)
    requires payload != "" && connUrl != "" && connUrl[0] == '/'
    ensures var r := ChannelUrl(connUrl, payload);
            r != "" && r[0] == '/' && forall seg :: seg in Split(r, '/') ==> seg != "." && seg != ".."
  {
    var base := StripSockJs(connUrl);
    assert base != "" && base[0] == '/';
    NormalizeAbsolute(base + "/" + payload);
  }

  /** Everything from the first `/__sockjs__/` on is replaced by `/`. */
  lemma StripSockJsTail(base: string, rest: string)
    requires '_' !in base && NoLineTerminator(rest)
    ensures StripSockJs(base + SOCKJS_MARK + rest) == base + "/"
  {
    var url := base + SOCKJS_MARK + rest;
    assert url[|base|..|base| + |SOCKJS_MARK|] == SOCKJS_MARK;
    assert url[|base| + |SOCKJS_MARK|..] == rest;
    NoMarkInBase(base, rest, 0);
    assert url[..|base|] == base;
  }

  lemma {:induction false} NoMarkInBase(base: string, rest: string, i: nat)
    requires '_' !in base && NoLineTerminator(rest) && i <= |base|
    ensures FirstSockJsTail(base + SOCKJS_MARK + rest, i) == Some(|base|)
    decreases |base| - i
  {
    var url := base + SOCKJS_MARK + rest;
    if i < |base| {
      assert url[i + 1] == if i + 1 < |base| then base[i + 1] else '/';
      assert !SockJsTailAt(url, i) by {
        assert SOCKJS_MARK[1] == '_';
      }
      NoMarkInBase(base, rest, i + 1);
    } else {
      assert url[|base|..|base| + |SOCKJS_MARK|] == SOCKJS_MARK;
      assert url[|base| + |SOCKJS_MARK|..] == rest;
    }
  }

  // ---------------------------------------------------------------------
  // Connections and channels
  // ---------------------------------------------------------------------

  /** The physical SockJS server connection, as far as the multiplexer uses it. */
  class SockConn {
    const url: string
    var readyState: int
    /** Every `write`, in order. */
    var frames: seq<string>
    /** How many times `close()` was called. */
    var closeCalls: nat

    constructor (url: string, readyState: int)
      ensures this.url == url && this.readyState == readyState && frames == [] && closeCalls == 0
    {
      this.url := url;
      this.readyState := readyState;
      frames := [];
      closeCalls := 0;
    }

    method Write(data: string)
      modifies this
      ensures frames == old(frames) + [data]
      ensures readyState == old(readyState) && closeCalls == old(closeCalls)
    {
      frames := frames + [data];
    }

    method Close()
      modifies this
      ensures closeCalls == old(closeCalls) + 1
      ensures readyState == old(readyState) && frames == old(frames)
    {
      closeCalls := closeCalls + 1;
    }
  }

  /** What a channel emits to its user. */
  datatype ChannelEvent = Data(payload: string) | Closed(info: CloseInfo)

  /** `MultiplexChannel`: a logical connection carried on `conn` under `id`. */
  class MultiplexChannel {
    const id: string
    const conn: SockConn
    const url: string
    var readyState: int
    var events: seq<ChannelEvent>

    /** The constructor copies `readyState` from the connection and asserts it is 1. */
    constructor (id: string, conn: SockConn, url: string)
      requires conn.readyState == 1
      ensures this.id == id && this.conn == conn && this.url == url
      ensures readyState == 1 && events == []
    {
      this.id := id;
      this.conn := conn;
      this.url := url;
      readyState := conn.readyState;
      events := [];
    }

    /** `write`: framed as `id|m|message`, and only while the channel is open. */
    method Write(message: string)
      modifies conn
      ensures readyState == 1 ==> conn.frames == old(conn.frames) + [FormatMessage(id, message)]
      ensures readyState != 1 ==> conn.frames == old(conn.frames)
      ensures conn.readyState == old(conn.readyState) && conn.closeCalls == old(conn.closeCalls)
    {
      if readyState == 1 {
        conn.Write(FormatMessage(id, message));
      }
    }

    /** `close`: a close frame is sent only if both the channel and the connection are open. */
    method Close(info: CloseInfo)
      modifies this, conn
      ensures readyState == 3 && events == old(events) + [Closed(info)]
      ensures old(readyState) == 1 && old(conn.readyState) == 1 ==>
                conn.frames == old(conn.frames) + [FormatCloseEvent(id, info)]
      ensures !(old(readyState) == 1 && old(conn.readyState) == 1) ==> conn.frames == old(conn.frames)
      ensures conn.readyState == old(conn.readyState) && conn.closeCalls == old(conn.closeCalls)
    {
      if readyState == 1 && conn.readyState == 1 {
        conn.Write(FormatCloseEvent(id, info));
      }
      Destroy(info);
    }

    /** `end()` is `close()` with neither code nor reason. */
    method End()
      modifies this, conn
      ensures readyState == 3 && events == old(events) + [Closed(CloseInfo(None, None))]
      ensures old(readyState) == 1 && old(conn.readyState) == 1 ==>
                conn.frames == old(conn.frames) + [FormatCloseEvent(id, CloseInfo(None, None))]
      ensures !(old(readyState) == 1 && old(conn.readyState) == 1) ==> conn.frames == old(conn.frames)
    {
      Close(CloseInfo(None, None));
    }

    /** `_destroy`: closed without telling the client; the close event fires every time. */
    method Destroy(info: CloseInfo)
      modifies this
      ensures readyState == 3 && events == old(events) + [Closed(info)]
    {
      readyState := 3;
      events := events + [Closed(info)];
    }
  }

  /** What one `data` event on the physical connection did. */
  datatype DataOutcome =
    | Invalid
    | Opened(channel: MultiplexChannel)
    | OpenAsserted
    | Ignored
    | Delivered

  class MultiplexSocket {
    const conn: SockConn
    /** `$channels`, by channel id. */
    var channels: map<string, MultiplexChannel>
    /** The channels passed to `connection` listeners, in order. */
    var connected: seq<MultiplexChannel>

    /** Each channel sits under its own id on this socket's connection, so no channel is listed twice. */
    ghost predicate Valid()
      reads this, channels.Values
    {
      forall id :: id in channels ==> channels[id].id == id && channels[id].conn == conn
    }

    constructor (conn: SockConn)
      ensures Valid() && this.conn == conn && channels == map[] && connected == []
    {
      this.conn := conn;
      channels := map[];
      connected := [];
    }

    /**
     * A `data` event: an unparsable frame closes the physical connection;
     * `o` for an unused id opens a channel; `c` and `m` act on an existing
     * channel only; anything else is ignored.
     */
    method OnData(msg: string, json: string -> Option<CloseInfo>) returns (outcome: DataOutcome)
      requires Valid()
      modifies this, conn, channels.Values
      ensures Valid() && conn.readyState == old(conn.readyState)
      ensures var p := ParseMultiplexData(msg, json);
              p.None? ==>
                outcome == Invalid && conn.closeCalls == old(conn.closeCalls) + 1
                && channels == old(channels) && connected == old(connected)
      ensures var p := ParseMultiplexData(msg, json);
              p.Some? && p.value.Id() !in old(channels) ==>
                if p.value.OpenPacket? && old(conn.readyState) == 1 then
                  outcome.Opened? && fresh(outcome.channel)
                  && channels == old(channels)[p.value.id := outcome.channel]
                  && connected == old(connected) + [outcome.channel]
                  && outcome.channel.url == ChannelUrl(conn.url, p.value.url)
                  && outcome.channel.readyState == 1 && outcome.channel.events == []
                else
                  outcome == (if p.value.OpenPacket? then OpenAsserted else Ignored)
                  && channels == old(channels) && connected == old(connected)
      ensures var p := ParseMultiplexData(msg, json);
              p.Some? && p.value.Id() in old(channels) ==>
                var ch := old(channels)[p.value.Id()];
                outcome == Delivered && channels == old(channels) && connected == old(connected)
                && (p.value.ClosePacket? ==> ch.readyState == 3 && ch.events == old(ch.events) + [Closed(p.value.info)])
                && (p.value.MsgPacket? ==> ch.readyState == old(ch.readyState) && ch.events == old(ch.events) + [Data(p.value.data)])
                && (p.value.OpenPacket? ==> ch.readyState == old(ch.readyState) && ch.events == old(ch.events))
      ensures forall id :: id in old(channels) && (ParseMultiplexData(msg, json).None? || id != ParseMultiplexData(msg, json).value.Id()) ==>
                old(channels)[id].readyState == old(channels[id].readyState)
                && old(channels)[id].events == old(channels[id].events)
      ensures ParseMultiplexData(msg, json).Some? ==> conn.frames == old(conn.frames) && conn.closeCalls == old(conn.closeCalls)
    {
      var p := ParseMultiplexData(msg, json);
      if p.None? {
        conn.Close();
        return Invalid;
      }
      var id := p.value.Id();
      if id !in channels {
        if p.value.OpenPacket? {
          if conn.readyState != 1 {
            return OpenAsserted;
          }
          var ch := new MultiplexChannel(id, conn, ChannelUrl(conn.url, p.value.url));
          channels := channels[id := ch];
          connected := connected + [ch];
          return Opened(ch);
        }
        return Ignored;
      }
      var ch := channels[id];
      match p.value {
        case ClosePacket(_, info) => ch.Destroy(info);
        case MsgPacket(_, data) => ch.events := ch.events + [Data(data)];
        case OpenPacket(_, _) =>
      }
      return Delivered;
    }

    /** The physical connection closed: every channel is destroyed and the table emptied. */
    method OnClose()
      requires Valid()
      modifies this, channels.Values
      ensures Valid() && channels == map[] && connected == old(connected)
      ensures forall id :: id in old(channels) ==>
                old(channels)[id].readyState == 3
                && old(channels)[id].events == old(channels[id].events) + [Closed(CloseInfo(None, None))]
    {
      var remaining := channels.Keys;
      while remaining != {}
        invariant remaining <= channels.Keys && channels == old(channels) && connected == old(connected)
        invariant forall id :: id in channels && id !in remaining ==>
                    channels[id].readyState == 3
                    && channels[id].events == old(channels[id].events) + [Closed(CloseInfo(None, None))]
        invariant forall id :: id in remaining ==>
                    channels[id].readyState == old(channels[id].readyState)
                    && channels[id].events == old(channels[id].events)
        decreases remaining
      {
        var k :| k in remaining;
        channels[k].Destroy(CloseInfo(None, None));
        remaining := remaining - {k};
      }
      channels := map[];
    }
  }
}
