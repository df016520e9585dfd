/**
 * The receiving side of the robust-reconnect protocol (shiny-server-js
 * common/message-receiver.js): strips the id tag from each incoming message
 * and remembers the id the peer should resume from.
 */
module MessageReceiver {
  import opened Common
  import opened MessageUtils

  /**
   * `/^([\dA-F]+)#/` (no end anchor, so the data may hold line terminators):
   * the id and the rest of the message, or None.
   */
  function MatchIdPrefix(msg: string): (r: Option<Tag>)
    ensures r.Some? <==> exists k :: 0 < k < |msg| && AllUpperHex(msg[..k]) && msg[k] == '#'
    ensures forall k :: 0 < k < |msg| && AllUpperHex(msg[..k]) && msg[k] == '#' ==>
              r == Some(Tag(ParseId(msg[..k]), msg[k + 1..]))
  {
    var k := HexPrefixLength(msg);
    HexRunEndsAtPrefixLength(msg);
    if 0 < k < |msg| && msg[k] == '#' then Some(Tag(ParseId(msg[..k]), msg[k + 1..])) else None
  }

  lemma HexRunEndsAtPrefixLength(msg: string)
    ensures forall k :: 0 < k < |msg| && AllUpperHex(msg[..k]) && msg[k] == '#' ==>
              k == HexPrefixLength(msg)
  {
    var n := HexPrefixLength(msg);
    forall k | 0 < k < |msg| && AllUpperHex(msg[..k]) && msg[k] == '#' ensures k == n {
    }
  }

  class MessageReceiver {
    /** `_pendingMsgId`: one past the id of the last message received. */
    var pendingMsgId: nat

    constructor ()
      ensures pendingMsgId == 0
    {
      pendingMsgId := 0;
    }

    /** `nextId` */
    function NextId(): nat
      reads this
    {
      pendingMsgId
    }

    /**
     * `receive`: a message without a leading "ID#" throws and changes
     * nothing; otherwise the next id becomes ID + 1 and the data after the
     * tag is returned.
     */
    method Receive(msg: string) returns (r: Result<string>)
      modifies this
      ensures MatchIdPrefix(msg).None? ==>
                r == Err("Invalid robust-message, no msg-id found") && unchanged(this)
      ensures MatchIdPrefix(msg).Some? ==>
                r == Ok(MatchIdPrefix(msg).value.data)
                && pendingMsgId == MatchIdPrefix(msg).value.id + 1
    {
      var m := MatchIdPrefix(msg);
      if m.None? {
        return Err("Invalid robust-message, no msg-id found");
      }
      pendingMsgId := m.value.id + 1;
      r := Ok(m.value.data);
    }

    /** `ACK`: acknowledges every message before the next id. */
    function Ack(): (s: string)
      reads this
      ensures ParseAck(s) == Some(NextId())
    {
      ParseAckOfFormat(pendingMsgId);
      "ACK " + FormatId(pendingMsgId)
    }

    /** `CONTINUE`: asks the peer to resume from the next id. */
    function Continue(): (s: string)
      reads this
      ensures ParseContinue(s) == Some(NextId())
    {
      ParseContinueOfFormat(pendingMsgId);
      "CONTINUE " + FormatId(pendingMsgId)
    }
  }

  /** Receiving a message written as `Tagged(id, data)` yields `data` exactly, even with newlines. */
  lemma {:induction false} ReceiveOfWrite(id: nat, data: string)
    ensures MatchIdPrefix(FormatId(id) + "#" + data) == Some(Tag(id, data))
  {
    var s := FormatId(id) + "#" + data;
    var k := |FormatId(id)|;
    assert s[..k] == FormatId(id);
    assert s[k + 1..] == data;
    ParseFormatId(id);
  }
}
