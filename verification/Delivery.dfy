/** Messages from one node's memory to another's: printed, framed, received and read. */
module Delivery {
  import opened Text
  import opened Frame
  import opened Options
  import MakProtocol
  import MakCodec
  import LakProtocol
  import LakCodec

  /** Texts that `char` and byte represent alike, without a terminator inside. */
  predicate Plain(s: string) {
    forall i :: 0 <= i < |s| ==> 0 < s[i] as int < 128
  }

  function ByteOf(c: char): Byte
    requires 0 < c as int < 128
  {
    c as int
  }

  function Bytes(s: string): seq<Byte>
    requires Plain(s)
  {
    seq(|s|, i requires 0 <= i < |s| => ByteOf(s[i]))
  }

  function Chars(bytes: seq<Byte>): string {
    seq(|bytes|, i requires 0 <= i < |bytes| => bytes[i] as char)
  }

  lemma CharsOfBytes(s: string)
    requires Plain(s)
    ensures Chars(Bytes(s)) == s && 0 !in Bytes(s)
  {
  }

  lemma PlainPrint(n: int)
    ensures Plain(Print(n))
  {
    var s := Print(n);
    forall i | 0 <= i < |s| ensures 0 < s[i] as int < 128 {
      assert s[i] in s;
      assert IsDigit(s[i]) || s[i] == '-';
    }
  }

  lemma PlainPair(s: string, t: string)
    requires Plain(s) && Plain(t)
    ensures Plain(s + " " + t)
  {
  }

  lemma MakTextIsPlain(m: MakProtocol.Message)
    ensures Plain(MakCodec.Encode(m))
  {
    PlainPrint(MakCodec.Kind(m));
    if m.Request? {
      PlainPrint(m.key.from);
      PlainPrint(m.key.seqno);
      PlainPair(Print(m.key.from), Print(m.key.seqno));
      PlainPair(Print(MakCodec.Kind(m)), Print(m.key.from) + " " + Print(m.key.seqno));
    } else {
      PlainPrint(m.from);
      PlainPair(Print(MakCodec.Kind(m)), Print(m.from));
    }
  }

  lemma RequestTextIsPlain(from: int, to: int, seqno: int)
    ensures Plain(LakCodec.EncodeEntry(LakProtocol.Req(from, to, seqno)))
  {
    PlainPrint(LakCodec.REQUEST);
    PlainPrint(from);
    PlainPrint(to);
    PlainPrint(seqno);
    PlainPair(Print(to), Print(seqno));
    PlainPair(Print(from), Print(to) + " " + Print(seqno));
  }

  lemma RelayTextIsPlain(from: int, to: int, seqno: int, relay: int)
    ensures Plain(LakCodec.EncodeEntry(LakProtocol.Rly(from, to, seqno, relay)))
  {
    PlainPrint(LakCodec.RELAY);
    PlainPrint(from);
    PlainPrint(to);
    PlainPrint(seqno);
    PlainPrint(relay);
    PlainPair(Print(seqno), Print(relay));
    PlainPair(Print(to), Print(seqno) + " " + Print(relay));
    PlainPair(Print(from), Print(to) + " " + (Print(seqno) + " " + Print(relay)));
  }

  lemma LakTextIsPlain(m: LakProtocol.Mail)
    ensures Plain(LakCodec.Encode(m))
  {
    match m
    case Order(Req(from, to, seqno)) => RequestTextIsPlain(from, to, seqno);
    case Order(Rly(from, to, seqno, relay)) => RelayTextIsPlain(from, to, seqno, relay);
    case _ =>
      PlainPrint(LakCodec.ShortKind(m));
      PlainPrint(m.from);
      PlainPrint(m.to);
      PlainPair(Print(m.from), Print(m.to));
  }

  /** The frame that `from` sends to `to` with `text`, when `junk` follows the text in memory. */
  predicate Fits(from: nat, to: nat, time: nat, text: string, junk: seq<Byte>) {
    && from < 256 && to < 45 && time < Power(TIME_SIZE)
    && |text| <= TEXT_ROOM <= |text| + 1 + |junk|
  }

  function Sent(from: nat, to: nat, time: nat, text: string, junk: seq<Byte>): (frame: seq<Byte>)
    requires Fits(from, to, time, text, junk) && Plain(text)
    ensures |frame| == FRAME_SIZE
  {
    SizeOfLowBytes(time, TIME_SIZE);
    FrameOf(from, to, time, Bytes(text) + [0] + junk)
  }

  /** The text that the receiver of node `id` hands to it. */
  function Received(frame: seq<Byte>, id: int): Option<string>
    requires |frame| == FRAME_SIZE
  {
    var handed := Handed(frame, id);
    if handed.None? then None else Some(Chars(handed.value))
  }

  lemma TextReceived(from: nat, to: nat, time: nat, text: string, junk: seq<Byte>, id: int)
    requires Fits(from, to, time, text, junk) && Plain(text)
    ensures Received(Sent(from, to, time, text, junk), id) == if id == to then Some(text) else None
  {
    CharsOfBytes(text);
    NodeToNode(from, to, time, Bytes(text), junk, id);
  }

  /** Every Maekawa message that fits the frame is understood by its addressee as it was meant, and
      reaches no other node. */
  lemma MakMessageArrives(
      m: MakProtocol.Message, from: nat, to: nat, time: nat, junk: seq<Byte>, id: int, unset: int)
    requires Fits(from, to, time, MakCodec.Encode(m), junk)
    ensures Plain(MakCodec.Encode(m))
    ensures var text := Received(Sent(from, to, time, MakCodec.Encode(m), junk), id);
            if id == to then text.Some? && MakCodec.Meaning(MakCodec.Decode(text.value, unset)) == {m}
            else text.None?
  {
    MakTextIsPlain(m);
    TextReceived(from, to, time, MakCodec.Encode(m), junk, id);
    MakCodec.RoundTrip(m, unset);
  }

  /** And so is every message of the token algorithm but the TOKEN. */
  lemma LakMessageArrives(
      m: LakProtocol.Mail, from: nat, to: nat, time: nat, junk: seq<Byte>, id: int, unset: int)
    requires Fits(from, to, time, LakCodec.Encode(m), junk)
    ensures Plain(LakCodec.Encode(m))
    ensures var text := Received(Sent(from, to, time, LakCodec.Encode(m), junk), id);
            if id == to then text.Some? && LakCodec.Meaning(LakCodec.Decode(text.value, unset)) == Some(m)
            else text.None?
  {
    LakTextIsPlain(m);
    TextReceived(from, to, time, LakCodec.Encode(m), junk, id);
    LakCodec.RoundTrip(m, unset);
  }
}
