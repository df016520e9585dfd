/**
 * Message ids of the robust-reconnect protocol (shiny-server-js
 * common/message-utils.js). Ids are written as upper-case hexadecimal
 * without leading zeros; a data message is tagged "ID#data", and the control
 * messages are "ACK ID" and "CONTINUE ID". Ids are unbounded naturals.
 */
module MessageUtils {
  import opened Common

  /** `[\dA-F]` */
  predicate IsUpperHex(c: char)
  {
    IsDigit(c) || ('A' <= c <= 'F')
  }

  predicate AllUpperHex(s: string)
  {
    forall i :: 0 <= i < |s| ==> IsUpperHex(s[i])
  }

  function HexDigit(d: nat): (c: char)
    requires d < 16
    ensures IsUpperHex(c)
  {
    "0123456789ABCDEF"[d]
  }

  function HexDigitValue(c: char): (v: nat)
    requires IsUpperHex(c)
    ensures v < 16
  {
    if IsDigit(c) then c as int - '0' as int else c as int - 'A' as int + 10
  }

  /** `parseInt(str, 16)` on a string of upper-case hex digits. */
  function ParseId(s: string): nat
    requires AllUpperHex(s)
  {
    if s == [] then 0 else 16 * ParseId(s[..|s| - 1]) + HexDigitValue(s[|s| - 1])
  }

  /** `id.toString(16).toUpperCase()` */
  function FormatId(n: nat): (s: string)
    ensures |s| >= 1 && AllUpperHex(s)
    ensures |s| > 1 ==> s[0] != '0'
    decreases n
  {
    if n < 16 then [HexDigit(n)] else FormatId(n / 16) + [HexDigit(n % 16)]
  }

  lemma {:induction false} ParseFormatId(n: nat)
    ensures ParseId(FormatId(n)) == n
    decreases n
  {
    if n >= 16 {
      ParseFormatId(n / 16);
      var s := FormatId(n);
      assert s[..|s| - 1] == FormatId(n / 16);
    }
  }

  /** Length of the longest prefix of `s` made of upper-case hex digits. */
  function HexPrefixLength(s: string): (k: nat)
    ensures k <= |s|
    ensures AllUpperHex(s[..k])
    ensures k < |s| ==> !IsUpperHex(s[k])
  {
    if s == [] || !IsUpperHex(s[0]) then 0
    else
      var k := HexPrefixLength(s[1..]);
      assert s[..k + 1] == [s[0]] + s[1..][..k];
      k + 1
  }

  datatype Tag = Tag(id: nat, data: string)

  /** `val` is `<hex>#<data>` with the '#' at index k, as /^([\dA-F]+)#(.*)$/ demands. */
  predicate TaggedAt(val: string, k: int)
  {
    0 < k < |val| && AllUpperHex(val[..k]) && val[k] == '#' && NoLineTerminator(val[k + 1..])
  }

  /** `parseTag`: the id and data of "ID#data", or null. */
  function ParseTag(val: string): (r: Option<Tag>)
    ensures r.Some? <==> exists k :: TaggedAt(val, k)
    ensures forall k :: TaggedAt(val, k) ==>
              r == Some(Tag(ParseId(val[..k]), val[k + 1..]))
  {
    var k := HexPrefixLength(val);
    TaggedOnlyAtHexEnd(val);
    if TaggedAt(val, k) then Some(Tag(ParseId(val[..k]), val[k + 1..])) else None
  }

  /** The '#' of a tag can only follow the whole leading run of hex digits. */
  lemma TaggedOnlyAtHexEnd(val: string)
    ensures forall j :: TaggedAt(val, j) ==> j == HexPrefixLength(val)
  {
    var k := HexPrefixLength(val);
    forall j | TaggedAt(val, j) ensures j == k {
    }
  }

  lemma ParseTagOfWrite(n: nat, data: string)
    requires NoLineTerminator(data)
    ensures ParseTag(FormatId(n) + "#" + data) == Some(Tag(n, data))
  {
    var s := FormatId(n) + "#" + data;
    var k := |FormatId(n)|;
    assert s[..k] == FormatId(n);
    assert s[k + 1..] == data;
    assert TaggedAt(s, k);
    ParseFormatId(n);
  }

  /** `/^<keyword> ([\dA-F]+)$/`: the id that follows `keyword`, or null. */
  function ParseControl(keyword: string, val: string): (r: Option<nat>)
    ensures r.Some? <==> (|val| > |keyword| && val[..|keyword|] == keyword
                          && AllUpperHex(val[|keyword|..]))
    ensures r.Some? ==> r.value == ParseId(val[|keyword|..])
  {
    if |val| > |keyword| && val[..|keyword|] == keyword && AllUpperHex(val[|keyword|..]) then
      Some(ParseId(val[|keyword|..]))
    else
      None
  }

  /** `parseACK` */
  function ParseAck(val: string): (r: Option<nat>)
    ensures r.Some? <==> (|val| > 4 && val[..4] == "ACK " && AllUpperHex(val[4..]))
    ensures r.Some? ==> r.value == ParseId(val[4..])
  {
    ParseControl("ACK ", val)
  }

  /** `parseCONTINUE` */
  function ParseContinue(val: string): (r: Option<nat>)
    ensures r.Some? <==> (|val| > 9 && val[..9] == "CONTINUE " && AllUpperHex(val[9..]))
    ensures r.Some? ==> r.value == ParseId(val[9..])
  {
    ParseControl("CONTINUE ", val)
  }

  lemma ParseAckOfFormat(n: nat)
    ensures ParseAck("ACK " + FormatId(n)) == Some(n)
  {
    var s := "ACK " + FormatId(n);
    assert s[..4] == "ACK " && s[4..] == FormatId(n);
    ParseFormatId(n);
  }

  lemma ParseContinueOfFormat(n: nat)
    ensures ParseContinue("CONTINUE " + FormatId(n)) == Some(n)
  {
    var s := "CONTINUE " + FormatId(n);
    assert s[..9] == "CONTINUE " && s[9..] == FormatId(n);
    ParseFormatId(n);
  }

  /** A character that is neither a hex digit nor '#', with no '#' before it, rules out a tag. */
  lemma NotTaggedBefore(val: string, i: nat)
    requires i < |val| && !IsUpperHex(val[i]) && val[i] != '#'
    requires forall j :: 0 <= j < i ==> val[j] != '#'
    ensures forall k :: !TaggedAt(val, k)
  {
    forall k ensures !TaggedAt(val, k) {
      if i < k < |val| {
        assert val[..k][i] == val[i];
      }
    }
  }

  /** An ACK never parses as a CONTINUE, nor the reverse, nor either as tagged data. */
  lemma ControlMessagesAreDisjoint(val: string)
    ensures ParseAck(val).Some? ==> ParseContinue(val).None? && ParseTag(val).None?
    ensures ParseContinue(val).Some? ==> ParseTag(val).None?
  {
    if ParseAck(val).Some? {
      assert val[..4][0] == 'A' && val[..4][1] == 'C' && val[..4][2] == 'K';
      NotTaggedBefore(val, 2);
    }
    if ParseContinue(val).Some? {
      assert val[..9][0] == 'C' && val[..9][1] == 'O';
      NotTaggedBefore(val, 1);
    }
  }
}
