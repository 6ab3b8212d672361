/** The text form of the Maekawa messages. A reception is a text; decoding it and dispatching
    on its type must do what the structured message means. */
module MakCodec {
  import opened Priority
  import opened MakProtocol
  import opened Text

  // MessageType, in declaration order
  const REQUEST := 0
  const RELEASE := 1
  const LOCKED := 6
  const FAILED := 7
  const INQUIRE := 8
  const RELINQUISH := 9

  /** The fields that `string_message` fills in; `seqno` stays what it was for short messages. */
  datatype Wire = Wire(kind: int, from: int, seqno: int)

  function Kind(m: Message): int {
    match m
    case Request(_) => REQUEST
    case Release(_) => RELEASE
    case Lock(_) => LOCKED
    case Fail(_) => FAILED
    case Inquire(_) => INQUIRE
    case Relinquish(_) => RELINQUISH
  }

  function Encode(m: Message): string {
    if m.Request? then
      Print(Kind(m)) + " " + (Print(m.key.from) + " " + Print(m.key.seqno))
    else
      Print(Kind(m)) + " " + Print(m.from)
  }

  function Decode(text: string, unset: int): Wire {
    var kind := Atoi(Head(text));
    var body := Rest(text);
    if kind == REQUEST then Wire(kind, Atoi(Head(body)), Atoi(Rest(body)))
    else Wire(kind, Atoi(Head(body)), unset)
  }

  /** What a decoded message asks for; other types are reported and ignored. */
  function Meaning(w: Wire): set<Message> {
    if w.kind == REQUEST then {Request(Key(w.seqno, w.from))}
    else if w.kind == RELEASE then {Release(w.from)}
    else if w.kind == LOCKED then {Lock(w.from)}
    else if w.kind == FAILED then {Fail(w.from)}
    else if w.kind == INQUIRE then {Inquire(w.from)}
    else if w.kind == RELINQUISH then {Relinquish(w.from)}
    else {}
  }

  /** Every message survives the wire, whatever the uninitialised fields hold. */
  lemma RoundTrip(m: Message, unset: int)
    ensures Meaning(Decode(Encode(m), unset)) == {m}
    ensures Decode(Encode(m), unset).seqno == if m.Request? then m.key.seqno else unset
  {
    if m.Request? {
      FirstField(Kind(m), Print(m.key.from) + " " + Print(m.key.seqno));
      FirstField(m.key.from, Print(m.key.seqno));
      AtoiPrint(m.key.seqno);
    } else {
      FirstField(Kind(m), Print(m.from));
      FirstField(m.from, "");
    }
  }

  /** The texts, with the numbers of `MessageType` in front. */
  lemma Texts(from: int, k: int)
    ensures Encode(Request(Key(k, from))) == "0 " + (Print(from) + " " + Print(k))
    ensures Encode(Release(from)) == "1 " + Print(from)
    ensures Encode(Lock(from)) == "6 " + Print(from)
    ensures Encode(Fail(from)) == "7 " + Print(from)
    ensures Encode(Inquire(from)) == "8 " + Print(from)
    ensures Encode(Relinquish(from)) == "9 " + Print(from)
  {
    Digit(0);
    Digit(1);
    Digit(6);
    Digit(7);
    Digit(8);
    Digit(9);
  }

  lemma Digit(d: nat)
    requires d <= 9
    ensures Print(d) + " " == ["0123456789"[d], ' ']
  {
    Decimal(0, d);
  }

  /** Different messages have different texts. */
  lemma Injective(a: Message, b: Message)
    requires Encode(a) == Encode(b)
    ensures a == b
  {
    RoundTrip(a, 0);
    RoundTrip(b, 0);
    assert a in {b};
  }
}
