/**
 * The multiplex wire format shared by the server (`lib/proxy/multiplex.js`)
 * and the browser client (`multiplex-client.js`): every frame on the one
 * physical SockJS connection is `channelId|method|payload`, where the method
 * is `m` (a channel message), `o` (open a channel on a URL) or `c` (close a
 * channel, with a JSON `{code, reason}` payload).
 */
module MultiplexFraming {
  import opened Common

  datatype Kind = M | O | C

  function KindChar(k: Kind): char
  {
    match k
    case M => 'm'
    case O => 'o'
    case C => 'c'
  }

  /** The three capture groups of `/^(\d+)\|(m|o|c)\|([\s\S]*)$/m`. */
  datatype RawMatch = RawMatch(id: string, kind: Kind, payload: string)

  /** `payload.code` and `payload.reason` of a parsed close payload, or of a close call. */
  datatype CloseInfo = CloseInfo(code: Option<int>, reason: Option<string>)

  /** A frame after `parseMultiplexData`: the `c` payload has been through `JSON.parse`. */
  datatype Packet =
    | MsgPacket(id: string, data: string)
    | OpenPacket(id: string, url: string)
    | ClosePacket(id: string, info: CloseInfo)
  {
    function Id(): string
    {
      match this
      case MsgPacket(id, _) => id
      case OpenPacket(id, _) => id
      case ClosePacket(id, _) => id
    }
  }

  function Frame(id: string, k: Kind, payload: string): string
  {
    id + "|" + [KindChar(k)] + "|" + payload
  }

  /** `formatMessage(id, message)`: a frame whose match gives back the id and the message. */
  function FormatMessage(id: string, message: string): (r: string)
    ensures |id| >= 1 && AllDigits(id) ==> FirstMatch(r, 0) == Some(RawMatch(id, M, message))
  {
    if |id| >= 1 && AllDigits(id) then MatchAtFrame(id, M, message); Frame(id, M, message) else Frame(id, M, message)
  }

  /** `formatOpenEvent(id, url)`: a frame whose match gives back the id and the URL. */
  function FormatOpenEvent(id: string, url: string): (r: string)
    ensures |id| >= 1 && AllDigits(id) ==> FirstMatch(r, 0) == Some(RawMatch(id, O, url))
  {
    if |id| >= 1 && AllDigits(id) then MatchAtFrame(id, O, url); Frame(id, O, url) else Frame(id, O, url)
  }

  /** `formatCloseEvent(id, code, reason)`: the payload is `JSON.stringify({code, reason})`. */
  function FormatCloseEvent(id: string, info: CloseInfo): (r: string)
    ensures |id| >= 1 && AllDigits(id) ==> FirstMatch(r, 0) == Some(RawMatch(id, C, CloseJson(info)))
  {
    if |id| >= 1 && AllDigits(id) then MatchAtFrame(id, C, CloseJson(info)); Frame(id, C, CloseJson(info)) else Frame(id, C, CloseJson(info))
  }

  // ---------------------------------------------------------------------
  // JSON.stringify({code: code, reason: reason})
  // ---------------------------------------------------------------------

  function HexDigitLower(d: nat): char
    requires d < 16
  {
    "0123456789abcdef"[d]
  }

  /** How `JSON.stringify` writes one character inside a string literal. */
  function JsonEscapeChar(c: char): string
  {
    if c == '"' then "\\\""
    else if c == '\\' then "\\\\"
    else if c == '\U{0008}' then "\\b"
    else if c == '\U{000C}' then "\\f"
    else if c == '\n' then "\\n"
    else if c == '\r' then "\\r"
    else if c == '\t' then "\\t"
    else if c < ' ' then "\\u00" + [HexDigitLower(c as int / 16), HexDigitLower(c as int % 16)]
    else [c]
  }

  function JsonEscape(s: string): string
  {
    if s == [] then "" else JsonEscapeChar(s[0]) + JsonEscape(s[1..])
  }

  function JsonQuote(s: string): string
  {
    "\"" + JsonEscape(s) + "\""
  }

  function IntToJson(i: int): string
  {
    if i < 0 then "-" + NatToDecimal(-i) else NatToDecimal(i)
  }

  /** Undefined members are omitted, as `JSON.stringify` does. */
  function CloseJson(info: CloseInfo): string
  {
    var code := if info.code.Some? then "\"code\":" + IntToJson(info.code.value) else "";
    var reason := if info.reason.Some? then "\"reason\":" + JsonQuote(info.reason.value) else "";
    var sep := if info.code.Some? && info.reason.Some? then "," else "";
    "{" + code + sep + reason + "}"
  }

  function HexValue(c: char): (r: Option<nat>)
    ensures r.Some? ==> r.value < 16
  {
    if '0' <= c <= '9' then Some(c as int - '0' as int)
    else if 'a' <= c <= 'f' then Some(c as int - 'a' as int + 10)
    else if 'A' <= c <= 'F' then Some(c as int - 'A' as int + 10)
    else None
  }

  /** The code unit that four hexadecimal digits (as in `\uXXXX`) stand for. */
  function HexCode(h: string): (r: Option<nat>)
    requires |h| == 4
    ensures r.Some? ==> r.value < 0x10000
  {
    if HexValue(h[0]).Some? && HexValue(h[1]).Some? && HexValue(h[2]).Some? && HexValue(h[3]).Some? then
      var hi := (HexValue(h[0]).value * 16 + HexValue(h[1]).value) * 16 + HexValue(h[2]).value;
      assert hi < 0x1000;
      Some(hi * 16 + HexValue(h[3]).value)
    else None
  }

  /** The character a two-character escape `\e` stands for. */
  function ShortEscape(e: char): Option<char>
  {
    if e == '"' then Some('"') else if e == '\\' then Some('\\') else if e == '/' then Some('/')
    else if e == 'b' then Some('\U{0008}') else if e == 'f' then Some('\U{000C}') else if e == 'n' then Some('\n')
    else if e == 'r' then Some('\r') else if e == 't' then Some('\t') else None
  }

  function Prepend(c: char, rest: Option<string>): Option<string>
  {
    if rest.Some? then Some([c] + rest.value) else None
  }

  /**
   * Reads back the escapes `JsonEscape` writes (the part of `JSON.parse`
   * that decodes a string literal's body); a lone surrogate escape is
   * refused, as Dafny's `char` cannot hold one.
   */
  function JsonUnescape(s: string): Option<string>
    decreases |s|
  {
    if s == [] then Some("")
    else if s[0] == '"' then None
    else if s[0] != '\\' then Prepend(s[0], JsonUnescape(s[1..]))
    else if |s| < 2 then None
    else if ShortEscape(s[1]).Some? then Prepend(ShortEscape(s[1]).value, JsonUnescape(s[2..]))
    else if s[1] == 'u' && |s| >= 6 && HexCode(s[2..6]).Some?
            && (HexCode(s[2..6]).value < 0xD800 || 0xE000 <= HexCode(s[2..6]).value) then
      Prepend(HexCode(s[2..6]).value as char, JsonUnescape(s[6..]))
    else None
  }

  lemma HexDigitLowerValue(d: nat)
    requires d < 16
    ensures HexValue(HexDigitLower(d)) == Some(d)
  {
    if d < 8 {
      if d == 0 {} else if d == 1 {} else if d == 2 {} else if d == 3 {}
      else if d == 4 {} else if d == 5 {} else if d == 6 {} else {}
    } else {
      if d == 8 {} else if d == 9 {} else if d == 10 {} else if d == 11 {}
      else if d == 12 {} else if d == 13 {} else if d == 14 {} else {}
    }
  }

  lemma UnescapeChar(c: char, rest: string)
    ensures JsonUnescape(JsonEscapeChar(c) + rest) == Prepend(c, JsonUnescape(rest))
  {
    if c == '"' || c == '\\' || c == '\U{0008}' || c == '\U{000C}' || c == '\n' || c == '\r' || c == '\t' {
      UnescapeShort(c, rest);
    } else if c < ' ' {
      UnescapeHex(c, rest);
    } else {
      var t := JsonEscapeChar(c) + rest;
      assert t[1..] == rest;
    }
  }

  lemma ShortEscapeInverse(c: char)
    requires c == '"' || c == '\\' || c == '\U{0008}' || c == '\U{000C}' || c == '\n' || c == '\r' || c == '\t'
    ensures |JsonEscapeChar(c)| == 2 && JsonEscapeChar(c)[0] == '\\' && ShortEscape(JsonEscapeChar(c)[1]) == Some(c)
  {
  }

  lemma UnescapeShort(c: char, rest: string)
    requires c == '"' || c == '\\' || c == '\U{0008}' || c == '\U{000C}' || c == '\n' || c == '\r' || c == '\t'
    ensures JsonUnescape(JsonEscapeChar(c) + rest) == Prepend(c, JsonUnescape(rest))
  {
    var t := JsonEscapeChar(c) + rest;
    ShortEscapeInverse(c);
    assert t[0] == '\\' && ShortEscape(t[1]) == Some(c);
    assert t[2..] == rest;
  }

  /** The `\u00XX` escape of a control character reads back as that character. */
  lemma HexEscapeCode(c: char)
    requires c < ' '
    ensures var h := JsonEscapeChar(c);
      c != '\U{0008}' && c != '\U{000C}' && c != '\n' && c != '\r' && c != '\t' ==>
        |h| == 6 && h[0] == '\\' && h[1] == 'u' && HexCode(h[2..6]) == Some(c as int)
  {
    var hi, lo := c as int / 16, c as int % 16;
    HexDigitLowerValue(hi);
    HexDigitLowerValue(lo);
    var h4 := "00" + [HexDigitLower(hi), HexDigitLower(lo)];
    assert HexCode(h4) == Some(((0 * 16 + 0) * 16 + hi) * 16 + lo);
    assert hi * 16 + lo == c as int;
  }

  lemma UnescapeHex(c: char, rest: string)
    requires c < ' ' && c != '\U{0008}' && c != '\U{000C}' && c != '\n' && c != '\r' && c != '\t'
    ensures JsonUnescape(JsonEscapeChar(c) + rest) == Prepend(c, JsonUnescape(rest))
  {
    var h := JsonEscapeChar(c);
    var t := h + rest;
    HexEscapeCode(c);
    assert t[0] == '\\' && t[1] == 'u' && ShortEscape(t[1]) == None;
    assert t[2..6] == h[2..6];
    assert t[6..] == rest;
  }

  /** What `JSON.stringify` writes inside the quotes reads back as the original string. */
  lemma {:induction false} UnescapeEscape(s: string)
    ensures JsonUnescape(JsonEscape(s)) == Some(s)
  {
    if s != [] {
      UnescapeEscape(s[1..]);
      UnescapeChar(s[0], JsonEscape(s[1..]));
      assert JsonEscape(s) == JsonEscapeChar(s[0]) + JsonEscape(s[1..]);
      assert s == [s[0]] + s[1..];
    }
  }

  // ---------------------------------------------------------------------
  // parseMultiplexData
  // ---------------------------------------------------------------------

  /** The length of the run of decimal digits starting at `i`. */
  function DigitRun(s: string, i: nat): (n: nat)
    requires i <= |s|
    ensures i + n <= |s| && AllDigits(s[i..i + n])
    ensures i + n < |s| ==> !IsDigit(s[i + n])
    decreases |s| - i
  {
    if i < |s| && IsDigit(s[i]) then
      var n := DigitRun(s, i + 1);
      assert s[i..i + 1 + n] == [s[i]] + s[i + 1..i + 1 + n];
      1 + n
    else 0
  }

  function KindOf(c: char): Option<Kind>
  {
    if c == 'm' then Some(M) else if c == 'o' then Some(O) else if c == 'c' then Some(C) else None
  }

  /** The pattern tried at position `i`, after `^` has matched there. */
  function MatchAt(s: string, i: nat): Option<RawMatch>
    requires i <= |s|
  {
    var n := DigitRun(s, i);
    var j := i + n;
    if n >= 1 && j + 3 <= |s| && s[j] == '|' && KindOf(s[j + 1]).Some? && s[j + 2] == '|' then
      Some(RawMatch(s[i..j], KindOf(s[j + 1]).value, s[j + 3..]))
    else None
  }

  /** Where `^` matches under the `m` flag: the start and just after each line terminator. */
  predicate LineStart(s: string, i: nat)
  {
    i == 0 || (0 < i <= |s| && IsLineTerminator(s[i - 1]))
  }

  /** `exec` returns the leftmost match. */
  function FirstMatch(s: string, i: nat): (r: Option<RawMatch>)
    requires i <= |s|
    decreases |s| - i
  {
    if LineStart(s, i) && MatchAt(s, i).Some? then MatchAt(s, i)
    else if i == |s| then None
    else FirstMatch(s, i + 1)
  }

  /**
   * `parseMultiplexData` on the server: `m` and `o` are returned as they
   * are; a `c` payload must pass `json` (the `JSON.parse` of the runtime,
   * read as `{code, reason}`) or the frame is rejected.
   */
  function ParseMultiplexData(msg: string, json: string -> Option<CloseInfo>): (r: Option<Packet>)
    ensures r.Some? ==> |r.value.Id()| >= 1 && AllDigits(r.value.Id())
    ensures r.Some? && r.value.ClosePacket? ==> FirstMatch(msg, 0).Some? && json(FirstMatch(msg, 0).value.payload) == Some(r.value.info)
  {
    FirstMatchShape(msg);
    var m := FirstMatch(msg, 0);
    if m.None? then None
    else match m.value.kind
      case M => Some(MsgPacket(m.value.id, m.value.payload))
      case O => Some(OpenPacket(m.value.id, m.value.payload))
      case C => if json(m.value.payload).Some? then Some(ClosePacket(m.value.id, json(m.value.payload).value)) else None
  }

  lemma {:induction false} FirstMatchFound(s: string, i: nat)
    requires i <= |s|
    ensures FirstMatch(s, i).Some? ==>
              exists k :: i <= k <= |s| && LineStart(s, k) && MatchAt(s, k) == FirstMatch(s, i)
    decreases |s| - i
  {
    if LineStart(s, i) && MatchAt(s, i).Some? {
    } else if i < |s| {
      FirstMatchFound(s, i + 1);
    }
  }

  lemma MatchAtShape(s: string, k: nat)
    requires k <= |s| && MatchAt(s, k).Some?
    ensures var m := MatchAt(s, k).value;
            |m.id| >= 1 && AllDigits(m.id) && s[k..] == Frame(m.id, m.kind, m.payload)
  {
    var m := MatchAt(s, k).value;
    var j := k + DigitRun(s, k);
    assert s[k..] == s[k..j] + "|" + [s[j + 1]] + "|" + s[j + 3..];
  }

  /**
   * A frame is accepted only if some line of it starts with
   * `<digits>|<m|o|c>|`, and the match carries exactly what follows.
   */
  lemma FirstMatchShape(msg: string)
    ensures var m := FirstMatch(msg, 0);
            m.Some? ==> |m.value.id| >= 1 && AllDigits(m.value.id)
                        && exists k :: 0 <= k <= |msg| && LineStart(msg, k)
                                       && msg[k..] == Frame(m.value.id, m.value.kind, m.value.payload)
  {
    if FirstMatch(msg, 0).Some? {
      FirstMatchFound(msg, 0);
      var k :| 0 <= k <= |msg| && LineStart(msg, k) && MatchAt(msg, k) == FirstMatch(msg, 0);
      MatchAtShape(msg, k);
    }
  }

  lemma MatchAtFrame(id: string, k: Kind, payload: string)
    requires |id| >= 1 && AllDigits(id)
    ensures MatchAt(Frame(id, k, payload), 0) == Some(RawMatch(id, k, payload))
  {
    var s := Frame(id, k, payload);
    DigitRunOfPrefix(s, id);
    assert s[..|id|] == id;
    assert s[|id| + 3..] == payload;
  }

  lemma {:induction false} DigitRunOfPrefix(s: string, id: string)
    requires AllDigits(id) && |id| < |s| && s[..|id|] == id && !IsDigit(s[|id|])
    ensures DigitRun(s, 0) == |id|
  {
    DigitRunFrom(s, |id|, 0);
  }

  lemma {:induction false} DigitRunFrom(s: string, n: nat, i: nat)
    requires i <= n < |s| && AllDigits(s[i..n]) && !IsDigit(s[n])
    ensures DigitRun(s, i) == n - i
    decreases n - i
  {
    if i < n {
      assert s[i..n][0] == s[i];
      assert s[i + 1..n] == s[i..n][1..];
      DigitRunFrom(s, n, i + 1);
    }
  }

  /** A formatted frame parses back to its parts: the server's round trip. */
  lemma ParseFormat(id: string, data: string, url: string, info: CloseInfo, json: string -> Option<CloseInfo>)
    requires |id| >= 1 && AllDigits(id)
    requires json(CloseJson(info)) == Some(info)
    ensures ParseMultiplexData(FormatMessage(id, data), json) == Some(MsgPacket(id, data))
    ensures ParseMultiplexData(FormatOpenEvent(id, url), json) == Some(OpenPacket(id, url))
    ensures ParseMultiplexData(FormatCloseEvent(id, info), json) == Some(ClosePacket(id, info))
  {
    MatchAtFrame(id, M, data);
    MatchAtFrame(id, O, url);
    MatchAtFrame(id, C, CloseJson(info));
  }

  /** A close frame whose payload `JSON.parse` rejects is dropped as a whole. */
  lemma BadCloseJsonRejected(id: string, text: string, json: string -> Option<CloseInfo>)
    requires |id| >= 1 && AllDigits(id) && json(text).None?
    ensures ParseMultiplexData(Frame(id, C, text), json).None?
  {
    MatchAtFrame(id, C, text);
  }

  /** A frame with no `|` at all is rejected. */
  lemma NoBarRejected(msg: string, json: string -> Option<CloseInfo>)
    requires '|' !in msg
    ensures ParseMultiplexData(msg, json).None?
  {
    FirstMatchFound(msg, 0);
  }

  /**
   * Because of the `m` flag, `^` also matches after a line break: a frame
   * is found on a later line when the first line is not one.
   */
  lemma LaterLineAccepted(junk: string, id: string, data: string, json: string -> Option<CloseInfo>)
    requires junk != [] && !IsDigit(junk[0]) && NoLineTerminator(junk)
    requires |id| >= 1 && AllDigits(id)
    ensures ParseMultiplexData(junk + "\n" + FormatMessage(id, data), json) == Some(MsgPacket(id, data))
  {
    var f := FormatMessage(id, data);
    var s := junk + "\n" + f;
    var start := |junk| + 1;
    assert s[start..] == f;
    MatchAtFrame(id, M, data);
    assert MatchAt(s, start) == MatchAt(f, 0) by {
      MatchAtShifted(junk + "\n", f);
    }
    assert DigitRun(s, 0) == 0;
    NoMatchBefore(s, junk, 1);
  }

  lemma {:induction false} NoMatchBefore(s: string, junk: string, i: nat)
    requires |junk| < |s| && s[..|junk|] == junk && s[|junk|] == '\n' && NoLineTerminator(junk)
    requires 1 <= i <= |junk| + 1
    requires MatchAt(s, |junk| + 1).Some?
    ensures FirstMatch(s, i) == MatchAt(s, |junk| + 1)
    decreases |junk| + 1 - i
  {
    if i <= |junk| {
      assert s[i - 1] == junk[i - 1];
      NoMatchBefore(s, junk, i + 1);
    }
  }

  lemma MatchAtShifted(p: string, f: string)
    ensures MatchAt(p + f, |p|) == MatchAt(f, 0)
  {
    var s := p + f;
    DigitRunShifted(p, f, 0);
    var n := DigitRun(f, 0);
    if MatchAt(f, 0).Some? {
      assert s[|p|..|p| + n] == f[..n];
      assert s[|p| + n + 3..] == f[n + 3..];
    }
  }

  lemma {:induction false} DigitRunShifted(p: string, f: string, i: nat)
    requires i <= |f|
    ensures DigitRun(p + f, |p| + i) == DigitRun(f, i)
    decreases |f| - i
  {
    if i < |f| {
      assert (p + f)[|p| + i] == f[i];
      DigitRunShifted(p, f, i + 1);
    }
  }
}
