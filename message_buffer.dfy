/**
 * The sender side of the robust-reconnect protocol (shiny-server-js
 * common/message-buffer.js): every outgoing message is tagged with the next
 * id and kept until the peer acknowledges it, so that it can be replayed
 * after a reconnect.
 */
module MessageBuffer {
  import opened Common
  import opened MessageUtils

  /** The wire form of the message with id `id`. */
  function Tagged(id: nat, msg: string): string
  {
    FormatId(id) + "#" + msg
  }

  /** The wire forms of `payloads[from..]`, each tagged with its index in `payloads`. */
  function TaggedFrom(payloads: seq<string>, from: nat): (r: seq<string>)
    requires from <= |payloads|
    ensures |r| == |payloads| - from
    ensures forall i :: 0 <= i < |r| ==> r[i] == Tagged(from + i, payloads[from + i])
    decreases |payloads| - from
  {
    if from == |payloads| then [] else [Tagged(from, payloads[from])] + TaggedFrom(payloads, from + 1)
  }

  /** The error `discard(nextId)` throws for an id outside [startIndex, startIndex + |messages|]. */
  function DiscardError(nextId: nat, startIndex: nat): string
  {
    if nextId < startIndex then "Discard position id too small" else "Discard position id too big"
  }

  class MessageBuffer {
    /** `_messages`: the tagged messages not yet acknowledged. */
    var messages: seq<string>
    /** `_startIndex`: the id of `messages[0]`. */
    var startIndex: nat
    /** `_messageId`: the id the next write will use. */
    var messageId: nat
    /** Every payload ever written, in order; the payload with id i is `written[i]`. */
    ghost var written: seq<string>

    /** The buffer holds exactly the tagged messages from `startIndex` on. */
    ghost predicate Valid()
      reads this
    {
      startIndex + |messages| == messageId
      && |written| == messageId
      && messages == TaggedFrom(written, startIndex)
    }

    constructor ()
      ensures Valid()
      ensures messages == [] && startIndex == 0 && messageId == 0 && written == []
    {
      messages := [];
      startIndex := 0;
      messageId := 0;
      written := [];
    }

    /** `nextId` */
    function NextId(): (n: nat)
      reads this
      requires Valid()
      ensures n == startIndex + |messages|
    {
      messageId
    }

    /** `write`: tag `msg` with the next id, keep it and return the tagged form. */
    method Write(msg: string) returns (tagged: string)
      requires Valid()
      modifies this
      ensures Valid()
      ensures tagged == Tagged(old(messageId), msg)
      ensures messages == old(messages) + [tagged]
      ensures messageId == old(messageId) + 1 && startIndex == old(startIndex)
      ensures written == old(written) + [msg]
    {
      tagged := Tagged(messageId, msg);
      messages := messages + [tagged];
      written := written + [msg];
      messageId := messageId + 1;
      TaggedFromSnoc(old(written), startIndex, msg);
    }

    /**
     * `discard`: drop the messages whose ids are below `nextId` and return how
     * many were dropped; an id outside [startIndex, NextId()] throws.
     */
    method Discard(nextId: nat) returns (r: Result<nat>)
      requires Valid()
      modifies this
      ensures Valid() && messageId == old(messageId) && written == old(written)
      ensures nextId < old(startIndex) ==>
                r == Err("Discard position id too small") && unchanged(this)
      ensures nextId > old(startIndex) + |old(messages)| ==>
                r == Err("Discard position id too big") && unchanged(this)
      ensures old(startIndex) <= nextId <= old(startIndex) + |old(messages)| ==>
                r == Ok(nextId - old(startIndex))
                && messages == old(messages)[nextId - old(startIndex)..]
                && startIndex == nextId
    {
      var keepIdx := nextId - startIndex;
      if keepIdx < 0 {
        return Err("Discard position id too small");
      }
      if keepIdx > |messages| {
        return Err("Discard position id too big");
      }
      TaggedFromSuffix(written, startIndex, keepIdx);
      messages := messages[keepIdx..];
      startIndex := nextId;
      r := Ok(keepIdx);
    }

    /** `handleACK`: -1 for anything that is not an ACK, otherwise `discard` of its id. */
    method HandleAck(msg: string) returns (r: Result<int>)
      requires Valid()
      modifies this
      ensures Valid() && messageId == old(messageId) && written == old(written)
      ensures ParseAck(msg).None? ==> r == Ok(-1) && unchanged(this)
      ensures ParseAck(msg).Some? && old(startIndex) <= ParseAck(msg).value <= old(messageId) ==>
                r == Ok(ParseAck(msg).value - old(startIndex)) && startIndex == ParseAck(msg).value
      ensures ParseAck(msg).Some? && !(old(startIndex) <= ParseAck(msg).value <= old(messageId)) ==>
                r == Err(DiscardError(ParseAck(msg).value, old(startIndex))) && unchanged(this)
    {
      var ackId := ParseAck(msg);
      if ackId.None? {
        return Ok(-1);
      }
      var d := Discard(ackId.value);
      r := match d
        case Ok(n) => Ok(n)
        case Err(e) => Err(e);
    }

    /**
     * `getMessagesFrom`: the kept messages from id `startId` on; an id
     * outside [startIndex, NextId()] throws.
     */
    function MessagesFrom(startId: int): (r: Result<seq<string>>)
      reads this
      requires Valid()
      ensures startId < startIndex ==> r == Err("Message buffer underrun detected")
      ensures startId > messageId ==> r == Err("Message id larger than expected")
      ensures startIndex <= startId <= messageId ==>
                r.Ok? && |r.value| == messageId - startId
                && forall i :: 0 <= i < |r.value| ==>
                     r.value[i] == Tagged(startId + i, written[startId + i])
    {
      var from := startId - startIndex;
      if from < 0 then Err("Message buffer underrun detected")
      else if from > |messages| then Err("Message id larger than expected")
      else Ok(messages[from..])
    }
  }

  lemma {:induction false} TaggedFromSuffix(payloads: seq<string>, from: nat, k: nat)
    requires from + k <= |payloads|
    ensures TaggedFrom(payloads, from)[k..] == TaggedFrom(payloads, from + k)
  {
    var a := TaggedFrom(payloads, from)[k..];
    var b := TaggedFrom(payloads, from + k);
    assert |a| == |b|;
    forall i | 0 <= i < |a| ensures a[i] == b[i] { }
  }

  /** Writing one more payload adds its wire form at the end. */
  lemma TaggedFromSnoc(payloads: seq<string>, from: nat, msg: string)
    requires from <= |payloads|
    ensures TaggedFrom(payloads + [msg], from) == TaggedFrom(payloads, from) + [Tagged(|payloads|, msg)]
  {
    var a := TaggedFrom(payloads + [msg], from);
    var b := TaggedFrom(payloads, from) + [Tagged(|payloads|, msg)];
    assert |a| == |b|;
    forall i | 0 <= i < |a| ensures a[i] == b[i] {
      assert (payloads + [msg])[from + i] == if from + i < |payloads| then payloads[from + i] else msg;
    }
  }

  /** The 11th message written (id 10, the first with a letter id) is sent as "A#k". */
  lemma EleventhMessage(b: MessageBuffer)
    requires b.Valid() && b.messageId == 10
    ensures Tagged(b.NextId(), "k") == "A#k"
  {
    assert FormatId(10) == "A";
  }
}
