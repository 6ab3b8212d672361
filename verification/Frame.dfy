/** The binary frame around every text: one byte each for receiver and sender, eight for the
    time, and the text, which is copied together with whatever follows it in memory. */
module Frame {
  import opened Options

  type Byte = x: int | 0 <= x < 256

  const FRAME_SIZE := 1024
  const TIME_SIZE := 8
  const HEADER := 10
  const TEXT_ROOM := 1014

  // ----- bytes

  /** The first `size` bytes of a number in memory, lowest first. */
  function LowBytes(n: nat, size: nat): seq<Byte> {
    if size == 0 then [] else [n % 256] + LowBytes(n / 256, size - 1)
  }

  function Value(bytes: seq<Byte>): nat {
    if bytes == [] then 0 else bytes[0] + 256 * Value(bytes[1..])
  }

  function Power(size: nat): nat {
    if size == 0 then 1 else 256 * Power(size - 1)
  }

  lemma {:induction false} ValueOfLowBytes(n: nat, size: nat)
    requires n < Power(size)
    ensures |LowBytes(n, size)| == size && Value(LowBytes(n, size)) == n
  {
    if size > 0 {
      ValueOfLowBytes(n / 256, size - 1);
      assert LowBytes(n, size)[1..] == LowBytes(n / 256, size - 1);
    }
  }

  lemma {:induction false} SizeOfLowBytes(n: nat, size: nat)
    ensures |LowBytes(n, size)| == size
  {
    if size > 0 {
      SizeOfLowBytes(n / 256, size - 1);
    }
  }

  /** The bytes before the first zero. */
  function CString(bytes: seq<Byte>): seq<Byte> {
    if bytes == [] || bytes[0] == 0 then [] else [bytes[0]] + CString(bytes[1..])
  }

  lemma {:induction false} CStringOf(text: seq<Byte>, after: seq<Byte>)
    requires 0 !in text && (after == [] || after[0] == 0)
    ensures CString(text + after) == text
  {
    if text == [] {
      assert text + after == after;
    } else {
      assert (text + after)[1..] == text[1..] + after;
      CStringOf(text[1..], after);
    }
  }

  // ----- frames

  /** `memory` is what can be read from where the text starts. */
  function FrameOf(from: nat, to: nat, time: nat, memory: seq<Byte>): seq<Byte>
    requires |memory| >= TEXT_ROOM
  {
    [to % 256, from % 256] + LowBytes(time, TIME_SIZE) + memory[..TEXT_ROOM]
  }

  function Zeros(n: nat): seq<Byte> { seq(n, _ => 0) }

  datatype Arrival = StartSignal | EndSignal | Message(to: Byte, from: Byte, time: nat, text: seq<Byte>)

  const START: seq<Byte> := [83, 84, 65, 82, 84]
  const END: seq<Byte> := [69, 78, 68]

  /** What the receiver makes of the bytes it has read. */
  function Decode(frame: seq<Byte>): Arrival
    requires |frame| == FRAME_SIZE
  {
    if CString(frame) == START then StartSignal
    else if CString(frame) == END then EndSignal
    else Message(frame[0], frame[1], Value(frame[2..HEADER]), CString(frame[HEADER..] + Zeros(HEADER)))
  }

  /** The text that node `id` gets to handle: only its own. */
  function Handed(frame: seq<Byte>, id: int): Option<seq<Byte>>
    requires |frame| == FRAME_SIZE
  {
    var arrival := Decode(frame);
    if arrival.Message? && arrival.to == id then Some(arrival.text) else None
  }

  // ----- the programs

  /** `memcpy`. */
  method Copy(dst: array<Byte>, at: nat, src: seq<Byte>)
    requires at + |src| <= dst.Length
    modifies dst
    ensures dst[..] == old(dst[..at]) + src + old(dst[at + |src|..])
  {
    for i := 0 to |src|
      invariant dst[..at] == old(dst[..at]) && dst[at..at + i] == src[..i]
      invariant dst[at + i..] == old(dst[at + i..])
    {
      dst[at + i] := src[i];
    }
    assert src[..|src|] == src;
  }

  method Send(from: nat, to: nat, time: nat, memory: seq<Byte>) returns (buff: array<Byte>)
    requires |memory| >= TEXT_ROOM
    ensures fresh(buff) && buff[..] == FrameOf(from, to, time, memory)
  {
    buff := new Byte[FRAME_SIZE](_ => 0);
    SizeOfLowBytes(time, TIME_SIZE);
    Copy(buff, 0, [to % 256]);
    Copy(buff, 1, [from % 256]);
    Copy(buff, 2, LowBytes(time, TIME_SIZE));
    Copy(buff, HEADER, memory[..TEXT_ROOM]);
  }

  lemma {:induction false} CStringIs(bytes: seq<Byte>, literal: seq<Byte>)
    requires 0 !in literal && |literal| < |bytes|
    ensures CString(bytes) == literal <==> bytes[..|literal|] == literal && bytes[|literal|] == 0
  {
    if literal == [] {
    } else if bytes[0] == literal[0] {
      CStringIs(bytes[1..], literal[1..]);
      assert literal == [literal[0]] + literal[1..];
      assert bytes[1..][..|literal| - 1] == bytes[..|literal|][1..];
      assert bytes[..|literal|] == [bytes[0]] + bytes[1..][..|literal| - 1];
    } else {
      assert bytes[..|literal|][0] == bytes[0];
    }
  }

  /** `strcmp(literal, message) == 0`. */
  method SameString(literal: seq<Byte>, message: array<Byte>) returns (same: bool)
    requires 0 !in literal && |literal| < message.Length
    ensures same <==> CString(message[..]) == literal
  {
    CStringIs(message[..], literal);
    for i := 0 to |literal|
      invariant message[..i] == literal[..i]
    {
      if message[i] != literal[i] {
        assert message[..|literal|][i] != literal[i];
        return false;
      }
    }
    same := message[|literal|] == 0;
  }

  /** `string(buff)`. */
  method ReadString(buff: array<Byte>) returns (text: seq<Byte>)
    requires buff.Length > 0 && buff[buff.Length - 1] == 0
    ensures text == CString(buff[..])
  {
    text := [];
    var i := 0;
    assert buff[0..] == buff[..];
    while buff[i] != 0
      invariant i < buff.Length && CString(buff[..]) == text + CString(buff[i..])
      decreases buff.Length - i
    {
      assert buff[i..][1..] == buff[i + 1..];
      text := text + [buff[i]];
      i := i + 1;
    }
  }

  method Receive(message: array<Byte>) returns (arrival: Arrival)
    requires message.Length == FRAME_SIZE
    ensures arrival == Decode(message[..])
  {
    var isStart := SameString(START, message);
    if isStart {
      return StartSignal;
    }
    var isEnd := SameString(END, message);
    if isEnd {
      return EndSignal;
    }
    var time: nat := 0;
    for i := TIME_SIZE downto 0
      invariant time == Value(message[2 + i..HEADER])
    {
      assert message[2 + i..HEADER][1..] == message[2 + i + 1..HEADER];
      time := message[2 + i] + 256 * time;
    }
    var buff := new Byte[FRAME_SIZE](_ => 0);
    assert buff[TEXT_ROOM..] == Zeros(HEADER);
    Copy(buff, 0, message[HEADER..]);
    assert buff[..] == message[HEADER..] + Zeros(HEADER);
    var text := ReadString(buff);
    arrival := Message(message[0], message[1], time, text);
  }

  /** The receiver of node `id`: signals are noted, and a text is handed on if it is for the node. */
  method Accept(message: array<Byte>, id: int) returns (arrival: Arrival, handed: Option<seq<Byte>>)
    requires message.Length == FRAME_SIZE
    ensures arrival == Decode(message[..]) && handed == Handed(message[..], id)
  {
    arrival := Receive(message);
    handed := None;
    if arrival.Message? {
      if arrival.to == id {
        handed := Some(arrival.text);
      }
    }
  }

  // ----- what arrives

  lemma FrameParts(from: nat, to: nat, time: nat, memory: seq<Byte>)
    requires |memory| >= TEXT_ROOM
    ensures var frame := FrameOf(from, to, time, memory);
            && |frame| == FRAME_SIZE && frame[0] == to % 256 && frame[1] == from % 256
            && frame[2..HEADER] == LowBytes(time, TIME_SIZE) && frame[HEADER..] == memory[..TEXT_ROOM]
  {
    SizeOfLowBytes(time, TIME_SIZE);
  }

  lemma TimeBytes(time: nat)
    ensures var bytes := LowBytes(time, TIME_SIZE);
            && |bytes| == TIME_SIZE
            && bytes[0] == time % 256 && bytes[1] == time / 256 % 256
            && bytes[2] == time / 256 / 256 % 256 && bytes[3] == time / 256 / 256 / 256 % 256
  {
    SizeOfLowBytes(time, TIME_SIZE);
    var b1 := time / 256;
    var b2 := b1 / 256;
    assert LowBytes(time, TIME_SIZE)[1..] == LowBytes(b1, 7);
    assert LowBytes(b1, 7)[1..] == LowBytes(b2, 6);
    assert LowBytes(b2, 6)[1..] == LowBytes(b2 / 256, 5);
  }

  /** The header that spells a control word. */
  predicate SpellsStart(from: nat, to: nat, time: nat) {
    && to % 256 == 83 && from % 256 == 84
    && time % 256 == 65 && time / 256 % 256 == 82 && time / 256 / 256 % 256 == 84
    && time / 256 / 256 / 256 % 256 == 0
  }

  predicate SpellsEnd(from: nat, to: nat, time: nat) {
    && to % 256 == 69 && from % 256 == 78
    && time % 256 == 68 && time / 256 % 256 == 0
  }

  /** A frame is taken for a control word exactly when its header spells one, whatever its text. */
  lemma TakenForControlIff(from: nat, to: nat, time: nat, memory: seq<Byte>)
    requires |memory| >= TEXT_ROOM
    ensures |FrameOf(from, to, time, memory)| == FRAME_SIZE
    ensures Decode(FrameOf(from, to, time, memory)) == StartSignal <==> SpellsStart(from, to, time)
    ensures Decode(FrameOf(from, to, time, memory)) == EndSignal <==> SpellsEnd(from, to, time)
  {
    var frame := FrameOf(from, to, time, memory);
    FrameParts(from, to, time, memory);
    TimeBytes(time);
    HeaderBytes(frame);
    CStringIs(frame, START);
    CStringIs(frame, END);
  }

  lemma HeaderBytes(frame: seq<Byte>)
    requires |frame| == FRAME_SIZE
    ensures var bytes := frame[2..HEADER];
            && (frame[..|START|] == START && frame[|START|] == 0 <==>
                frame[0] == 83 && frame[1] == 84 && bytes[0] == 65 && bytes[1] == 82 && bytes[2] == 84 && bytes[3] == 0)
            && (frame[..|END|] == END && frame[|END|] == 0 <==>
                frame[0] == 69 && frame[1] == 78 && bytes[0] == 68 && bytes[1] == 0)
  {
    assert frame[..5] == [frame[0], frame[1], frame[2], frame[3], frame[4]];
    assert frame[..3] == [frame[0], frame[1], frame[2]];
  }

  /** What is copied of a text: at most as much as there is room for. */
  function Fitting(text: seq<Byte>): seq<Byte> {
    if |text| <= TEXT_ROOM then text else text[..TEXT_ROOM]
  }

  /** Every other frame arrives as it was sent, whatever followed the text in the sender's
      memory; only the low bytes of the ids and the text's first 1014 bytes travel. */
  lemma FrameArrives(from: nat, to: nat, time: nat, text: seq<Byte>, junk: seq<Byte>)
    requires time < Power(TIME_SIZE) && 0 !in text && |text| + 1 + |junk| >= TEXT_ROOM
    requires !SpellsStart(from, to, time) && !SpellsEnd(from, to, time)
    ensures |FrameOf(from, to, time, text + [0] + junk)| == FRAME_SIZE
    ensures Decode(FrameOf(from, to, time, text + [0] + junk)) ==
            Message(to % 256, from % 256, time, Fitting(text))
  {
    var memory := text + [0] + junk;
    TakenForControlIff(from, to, time, memory);
    FrameParts(from, to, time, memory);
    ValueOfLowBytes(time, TIME_SIZE);
    TextArrives(text, junk);
  }

  lemma TextArrives(text: seq<Byte>, junk: seq<Byte>)
    requires 0 !in text && |text| + 1 + |junk| >= TEXT_ROOM
    ensures CString((text + [0] + junk)[..TEXT_ROOM] + Zeros(HEADER)) == Fitting(text)
  {
    var room := (text + [0] + junk)[..TEXT_ROOM] + Zeros(HEADER);
    var fit := Fitting(text);
    assert room == fit + room[|fit|..];
    CStringOf(fit, room[|fit|..]);
  }

  /** The nodes' ids are far from the letters of the control words, so every text
      that fits is handed to its addressee as it was sent, and to no other node. */
  lemma NodeToNode(from: nat, to: nat, time: nat, text: seq<Byte>, junk: seq<Byte>, id: int)
    requires from < 256 && to < 45
    requires time < Power(TIME_SIZE) && 0 !in text && |text| <= TEXT_ROOM <= |text| + 1 + |junk|
    ensures |FrameOf(from, to, time, text + [0] + junk)| == FRAME_SIZE
    ensures Decode(FrameOf(from, to, time, text + [0] + junk)) == Message(to, from, time, text)
    ensures Handed(FrameOf(from, to, time, text + [0] + junk), id) == if id == to then Some(text) else None
  {
    FrameArrives(from, to, time, text, junk);
  }
}
