/** The text form of the token algorithm's messages. Reading a TOKEN is a loop that does not
    always end; this module says for every text whether it does and what it reads. */
module LakCodec {
  import opened Priority
  import opened LakProtocol
  import opened Text
  import opened TextLoop
  import opened Options

  // MessageType, in declaration order
  const REQUEST := 0
  const RELEASE := 1
  const RECEIVE := 2
  const ACK := 3
  const RELAY := 4
  const TOKEN := 5

  // ----- flat messages

  /** The fields that `string_message` fills in; the others keep their unset value. */
  datatype Wire = Wire(kind: int, from: int, to: int, seqno: int, relay: int)

  function EncodeEntry(e: Entry): string {
    match e
    case Req(from, to, seqno) =>
      Print(REQUEST) + " " + (Print(from) + " " + (Print(to) + " " + Print(seqno)))
    case Rly(from, to, seqno, relay) =>
      Print(RELAY) + " " + (Print(from) + " " + (Print(to) + " " + (Print(seqno) + " " + Print(relay))))
  }

  function ShortKind(m: Mail): int
    requires !m.Order?
  {
    match m
    case Release(_, _) => RELEASE
    case Ack(_, _) => ACK
    case Receive(_, _) => RECEIVE
  }

  function Encode(m: Mail): string {
    if m.Order? then EncodeEntry(m.entry)
    else Print(ShortKind(m)) + " " + (Print(m.from) + " " + Print(m.to))
  }

  function Decode(text: string, unset: int): Wire {
    var kind := Atoi(Head(text));
    var s1 := Rest(text);
    var s2 := Rest(s1);
    var s3 := Rest(s2);
    if kind == REQUEST then
      Wire(kind, Atoi(Head(s1)), Atoi(Head(s2)), Atoi(s3), unset)
    else if kind == RELAY then
      Wire(kind, Atoi(Head(s1)), Atoi(Head(s2)), Atoi(Head(s3)), Atoi(Rest(s3)))
    else
      Wire(kind, Atoi(Head(s1)), Atoi(s2), unset, unset)
  }

  /** What a decoded message other than a TOKEN asks for, if its type is known. */
  function Meaning(w: Wire): Option<Mail> {
    if w.kind == REQUEST then Some(Order(Req(w.from, w.to, w.seqno)))
    else if w.kind == RELEASE then Some(Release(w.from, w.to))
    else if w.kind == ACK then Some(Ack(w.from, w.to))
    else if w.kind == RECEIVE then Some(Receive(w.from, w.to))
    else if w.kind == RELAY then Some(Order(Rly(w.from, w.to, w.seqno, w.relay)))
    else None
  }

  lemma RequestRoundTrip(e: Entry, unset: int)
    requires e.Req?
    ensures Decode(EncodeEntry(e), unset) == Wire(REQUEST, e.from, e.to, e.seqno, unset)
  {
    var s2 := Print(e.to) + " " + Print(e.seqno);
    var s1 := Print(e.from) + " " + s2;
    FirstField(REQUEST, s1);
    FirstField(e.from, s2);
    FirstField(e.to, Print(e.seqno));
    AtoiPrint(e.seqno);
  }

  lemma RelayRoundTrip(e: Entry, unset: int)
    requires e.Rly?
    ensures Decode(EncodeEntry(e), unset) == Wire(RELAY, e.from, e.to, e.seqno, e.relay)
  {
    var s3 := Print(e.seqno) + " " + Print(e.relay);
    var s2 := Print(e.to) + " " + s3;
    var s1 := Print(e.from) + " " + s2;
    FirstField(RELAY, s1);
    FirstField(e.from, s2);
    FirstField(e.to, s3);
    FirstField(e.seqno, Print(e.relay));
    AtoiPrint(e.relay);
  }

  lemma ShortRoundTrip(m: Mail, unset: int)
    requires !m.Order?
    ensures Decode(Encode(m), unset) == Wire(ShortKind(m), m.from, m.to, unset, unset)
  {
    FirstField(ShortKind(m), Print(m.from) + " " + Print(m.to));
    FirstField(m.from, Print(m.to));
    AtoiPrint(m.to);
  }

  /** The texts, with the numbers of `MessageType` in front. */
  lemma FlatTexts(from: int, to: int, k: int, relay: int)
    ensures Encode(Order(Req(from, to, k))) == "0 " + (Print(from) + " " + (Print(to) + " " + Print(k)))
    ensures Encode(Release(from, to)) == "1 " + (Print(from) + " " + Print(to))
    ensures Encode(Receive(from, to)) == "2 " + (Print(from) + " " + Print(to))
    ensures Encode(Ack(from, to)) == "3 " + (Print(from) + " " + Print(to))
    ensures Encode(Order(Rly(from, to, k, relay))) ==
            "4 " + (Print(from) + " " + (Print(to) + " " + (Print(k) + " " + Print(relay))))
  {
    Digit(0);
    Digit(1);
    Digit(2);
    Digit(3);
    Digit(4);
  }

  lemma Digit(d: nat)
    requires d <= 9
    ensures Print(d) + " " == ["0123456789"[d], ' ']
  {
    Decimal(0, d);
  }

  /** Decoding the text of `m` gives back what `m` asks for. */
  predicate Survives(m: Mail, unset: int) {
    Meaning(Decode(Encode(m), unset)) == Some(m)
  }

  /** What the text is taken for decides whether the message survives. */
  lemma SurvivesAs(m: Mail, text: string, w: Wire, unset: int)
    requires text == Encode(m) && w == Decode(text, unset) && Meaning(w) == Some(m)
    ensures Survives(m, unset)
  {
  }

  lemma RequestSurvives(e: Entry, unset: int)
    requires e.Req?
    ensures Survives(Order(e), unset)
  {
    RequestRoundTrip(e, unset);
  }

  lemma RelayMeaning(e: Entry)
    requires e.Rly?
    ensures Meaning(Wire(RELAY, e.from, e.to, e.seqno, e.relay)) == Some(Order(e))
  {
  }

  lemma RelaySurvives(e: Entry, unset: int)
    requires e.Rly?
    ensures Survives(Order(e), unset)
  {
    RelayRoundTrip(e, unset);
    RelayMeaning(e);
    SurvivesAs(Order(e), EncodeEntry(e), Wire(RELAY, e.from, e.to, e.seqno, e.relay), unset);
  }

  lemma ShortSurvives(m: Mail, unset: int)
    requires !m.Order?
    ensures Survives(m, unset)
  {
    ShortRoundTrip(m, unset);
  }

  /** Every message but the TOKEN survives the wire. */
  lemma RoundTrip(m: Mail, unset: int)
    ensures Survives(m, unset)
  {
    match m
    case Order(e) =>
      if e.Req? {
        RequestSurvives(e, unset);
      } else {
        RelaySurvives(e, unset);
      }
    case _ =>
      ShortSurvives(m, unset);
  }

  // ----- reading the list of a TOKEN

  datatype Parsed = Parsed(kind: int, from: int, to: int, seqno: int)

  /** One pass of the loop body: the entry it reads and the text it leaves. */
  function ReadEntry(s: string): (Parsed, string) {
    var kind := Atoi(Head(s));
    var s1 := Rest(s);
    var s2 := Rest(s1);
    var s3 := Rest(s2);
    var s4 := Rest(s3);
    if kind == RELAY then
      (Parsed(kind, Atoi(Head(s1)), Atoi(Head(s2)), Atoi(Head(s4))), Rest(s4))
    else
      (Parsed(kind, Atoi(Head(s1)), Atoi(Head(s2)), Atoi(Head(s3))), s4)
  }

  function ListBody(): Body<Parsed> {
    s => ReadEntry(s)
  }

  lemma ListBodyConsumes()
    ensures Consuming(ListBody())
  {
    forall s ensures if ' ' in s then |ReadEntry(s).1| < |s| else ReadEntry(s).1 == s {
      PassShrinks(s);
    }
  }

  lemma PassShrinks(s: string)
    ensures ' ' in s ==> |ReadEntry(s).1| < |s|
    ensures ' ' !in s ==> ReadEntry(s).1 == s
  {
    var s1 := Rest(s);
    var s2 := Rest(s1);
    var s3 := Rest(s2);
    var s4 := Rest(s3);
    RestShrinks(s);
    RestShrinks(s1);
    RestShrinks(s2);
    RestShrinks(s3);
    RestShrinks(s4);
  }

  // ----- printed tokens

  function Texts(es: seq<Entry>): seq<string> {
    seq(|es|, i requires 0 <= i < |es| => EncodeEntry(es[i]))
  }

  /** Each entry is printed after a space. */
  function Tail(es: seq<Entry>): string {
    if es == [] then "" else " " + Join(Texts(es))
  }

  function EncodeToken(from: int, to: int, es: seq<Entry>): string {
    Print(TOKEN) + " " + (Print(from) + " " + (Print(to) + Tail(es)))
  }

  /** A TOKEN without entries, and with one entry more. */
  lemma TokenTexts(from: int, to: int, es: seq<Entry>, e: Entry)
    ensures EncodeToken(from, to, []) == "5 " + (Print(from) + " " + Print(to))
    ensures EncodeToken(from, to, es + [e]) == EncodeToken(from, to, es) + (" " + EncodeEntry(e))
  {
    EmptyTokenText(from, to);
    TailMore(es, e);
    TokenTextMore(from, to, es, es + [e], " " + EncodeEntry(e));
  }

  lemma EmptyTokenText(from: int, to: int)
    ensures EncodeToken(from, to, []) == "5 " + (Print(from) + " " + Print(to))
  {
    Digit(5);
    assert Print(to) + Tail([]) == Print(to);
  }

  lemma TokenTextMore(from: int, to: int, es: seq<Entry>, longer: seq<Entry>, more: string)
    requires Tail(longer) == Tail(es) + more
    ensures EncodeToken(from, to, longer) == EncodeToken(from, to, es) + more
  {
    Regroup(Print(TOKEN) + " ", Print(from) + " ", Print(to), Tail(es), more);
  }

  lemma TailMore(es: seq<Entry>, e: Entry)
    ensures Tail(es + [e]) == Tail(es) + (" " + EncodeEntry(e))
  {
    assert Texts(es + [e]) == Texts(es) + [EncodeEntry(e)];
    JoinMore(Texts(es), EncodeEntry(e));
    if es != [] {
      Regroup("", "", " ", Join(Texts(es)), " " + EncodeEntry(e));
    }
  }

  lemma Regroup(a: string, b: string, c: string, d: string, more: string)
    ensures a + (b + (c + (d + more))) == a + (b + (c + d)) + more
  {
  }

  /** What is left for the loop after the three header fields. */
  function TokenBody(text: string): string {
    Rest(Rest(Rest(text)))
  }

  function LastField(e: Entry): int {
    if e.Rly? then e.relay else e.seqno
  }

  /** The number printed last. */
  function LastNumber(to: int, es: seq<Entry>): int {
    if es == [] then to else LastField(es[|es| - 1])
  }

  /** How an entry comes back: a relayed request has lost its number to the relay's id. */
  function ComesBack(e: Entry): Parsed {
    match e
    case Req(from, to, seqno) => Parsed(REQUEST, from, to, seqno)
    case Rly(from, to, _, relay) => Parsed(RELAY, from, to, relay)
  }

  function AllComeBack(es: seq<Entry>): seq<Parsed> {
    seq(|es|, i requires 0 <= i < |es| => ComesBack(es[i]))
  }

  /** An entry followed by more text after a space. */
  lemma ReadThenMore(e: Entry, more: string)
    ensures ReadEntry(EncodeEntry(e) + (" " + more)) == (ComesBack(e), more)
  {
    match e
    case Req(from, to, seqno) =>
      var s3 := Print(seqno) + " " + more;
      var s2 := Print(to) + " " + s3;
      var s1 := Print(from) + " " + s2;
      assert EncodeEntry(e) + (" " + more) == Print(REQUEST) + " " + s1;
      FirstField(REQUEST, s1);
      FirstField(from, s2);
      FirstField(to, s3);
      FirstField(seqno, more);
    case Rly(from, to, seqno, relay) =>
      var s4 := Print(relay) + " " + more;
      var s3 := Print(seqno) + " " + s4;
      var s2 := Print(to) + " " + s3;
      var s1 := Print(from) + " " + s2;
      assert EncodeEntry(e) + (" " + more) == Print(RELAY) + " " + s1;
      FirstField(RELAY, s1);
      FirstField(from, s2);
      FirstField(to, s3);
      FirstField(seqno, s4);
      FirstField(relay, more);
  }

  /** The last entry: its last number is read but stays in the text. */
  lemma ReadLast(e: Entry)
    ensures ReadEntry(EncodeEntry(e)) == (ComesBack(e), Print(LastField(e)))
    ensures ' ' in EncodeEntry(e) && |EncodeEntry(e)| > 1
  {
    match e
    case Req(from, to, seqno) =>
      var s2 := Print(to) + " " + Print(seqno);
      var s1 := Print(from) + " " + s2;
      FirstField(REQUEST, s1);
      FirstField(from, s2);
      FirstField(to, Print(seqno));
      FirstField(seqno, "");
    case Rly(from, to, seqno, relay) =>
      var s3 := Print(seqno) + " " + Print(relay);
      var s2 := Print(to) + " " + s3;
      var s1 := Print(from) + " " + s2;
      FirstField(RELAY, s1);
      FirstField(from, s2);
      FirstField(to, s3);
      FirstField(seqno, Print(relay));
      FirstField(relay, "");
  }

  /** `body` reads every printed entry. */
  ghost predicate ReadsEntries(body: Body<Parsed>) {
    forall e :: Reads(body, EncodeEntry(e), ComesBack(e), Print(LastField(e)))
  }

  lemma ListBodyReads()
    ensures ReadsEntries(ListBody())
  {
    forall e ensures Reads(ListBody(), EncodeEntry(e), ComesBack(e), Print(LastField(e))) {
      forall more ensures ReadEntry(EncodeEntry(e) + (" " + more)) == (ComesBack(e), more) {
        ReadThenMore(e, more);
      }
      ReadLast(e);
      PassShrinks(EncodeEntry(e));
    }
  }

  /** The number that is left over: it ends the loop only if it has one digit. */
  lemma LastLeft(body: Body<Parsed>, n: int)
    requires Consuming(body)
    ensures Parse(body, Print(n)) == if 0 <= n <= 9 then Some([]) else None
  {
    OneCharacter(n);
  }

  function LastNumbers(es: seq<Entry>): seq<string> {
    seq(|es|, i requires 0 <= i < |es| => Print(LastField(es[i])))
  }

  lemma ReadsEach(body: Body<Parsed>, es: seq<Entry>)
    requires ReadsEntries(body)
    ensures forall i :: 0 <= i < |es| ==> Reads(body, Texts(es)[i], AllComeBack(es)[i], LastNumbers(es)[i])
  {
    forall i | 0 <= i < |es| ensures Reads(body, Texts(es)[i], AllComeBack(es)[i], LastNumbers(es)[i]) {
      assert Reads(body, EncodeEntry(es[i]), ComesBack(es[i]), Print(LastField(es[i])));
    }
  }

  lemma ParseEntries(body: Body<Parsed>, es: seq<Entry>, texts: seq<string>, lefts: seq<string>)
    requires ReadsEntries(body) && es != [] && texts == Texts(es) && lefts == LastNumbers(es)
    ensures Parse(body, Join(texts)) == Prefixed(AllComeBack(es), Parse(body, lefts[|lefts| - 1]))
  {
    ReadsEach(body, es);
    ParseJoined(body, texts, AllComeBack(es), lefts);
  }

  lemma BodyOfToken(from: int, to: int, es: seq<Entry>)
    ensures TokenBody(EncodeToken(from, to, es)) == if es == [] then Print(to) else Join(Texts(es))
  {
    FirstField(TOKEN, Print(from) + " " + (Print(to) + Tail(es)));
    FirstField(from, Print(to) + Tail(es));
    if es == [] {
      assert Print(to) + Tail(es) == Print(to);
      FirstField(to, "");
    } else {
      assert Print(to) + Tail(es) == Print(to) + " " + Join(Texts(es));
      FirstField(to, Join(Texts(es)));
    }
  }

  lemma ParsePrintedEntries(es: seq<Entry>)
    requires es != []
    ensures Parse(ListBody(), Join(Texts(es))) ==
            Prefixed(AllComeBack(es), Parse(ListBody(), LastNumbers(es)[|es| - 1]))
  {
    ListBodyReads();
    ParsePrinted(ListBody(), es);
  }

  lemma ParsePrinted(body: Body<Parsed>, es: seq<Entry>)
    requires es != [] && ReadsEntries(body)
    ensures Parse(body, Join(Texts(es))) == Prefixed(AllComeBack(es), Parse(body, LastNumbers(es)[|es| - 1]))
  {
    ParseEntries(body, es, Texts(es), LastNumbers(es));
  }

  lemma LastOfNumbers(es: seq<Entry>)
    requires es != []
    ensures LastNumbers(es)[|es| - 1] == Print(LastField(es[|es| - 1]))
  {
  }

  /** What the loop makes of a printed list; `whole` is the text it starts from. */
  lemma ParsePrintedList(body: Body<Parsed>, to: int, es: seq<Entry>, whole: string)
    requires Consuming(body)
    requires Parse(body, whole) == Prefixed(AllComeBack(es), Parse(body, Print(LastNumber(to, es))))
    ensures Parse(body, whole) == if 0 <= LastNumber(to, es) <= 9 then Some(AllComeBack(es)) else None
  {
    LastLeft(body, LastNumber(to, es));
    PrefixedNone(AllComeBack(es));
  }

  lemma PrefixedEmpty(rest: Option<seq<Parsed>>)
    ensures Prefixed(AllComeBack([]), rest) == rest
  {
    assert AllComeBack([]) == [];
    if rest.Some? {
      assert [] + rest.value == rest.value;
    }
  }

  lemma ParseToken(body: Body<Parsed>, from: int, to: int, es: seq<Entry>)
    requires es != [] ==>
               Parse(body, Join(Texts(es))) == Prefixed(AllComeBack(es), Parse(body, LastNumbers(es)[|es| - 1]))
    ensures Parse(body, TokenBody(EncodeToken(from, to, es))) ==
            Prefixed(AllComeBack(es), Parse(body, Print(LastNumber(to, es))))
  {
    BodyOfToken(from, to, es);
    if es == [] {
      PrefixedEmpty(Parse(body, Print(to)));
    } else {
      LastOfNumbers(es);
    }
  }

  lemma ParsedToken(from: int, to: int, es: seq<Entry>)
    ensures Parse(ListBody(), TokenBody(EncodeToken(from, to, es))) ==
            if 0 <= LastNumber(to, es) <= 9 then Some(AllComeBack(es)) else None
  {
    ListBodyConsumes();
    if es != [] {
      ParsePrintedEntries(es);
    }
    ParseToken(ListBody(), from, to, es);
    ParsePrintedList(ListBody(), to, es, TokenBody(EncodeToken(from, to, es)));
  }

  /** Reading a printed TOKEN ends if and only if the last number in it has one digit. Then all
      entries come back in order, requests exactly and relayed requests with their number
      replaced by the relay's id. */
  lemma TokenStopsIffOneDigit(from: int, to: int, es: seq<Entry>)
    ensures var body := TokenBody(EncodeToken(from, to, es));
            && (Stops(ListBody(), body) <==> 0 <= LastNumber(to, es) <= 9)
            && (0 <= LastNumber(to, es) <= 9 ==> Parse(ListBody(), body) == Some(AllComeBack(es)))
  {
    ListBodyConsumes();
    ParsedToken(from, to, es);
    StopsIffParsed(ListBody(), TokenBody(EncodeToken(from, to, es)));
  }

  // ----- the list as a set

  function ParsedKey(p: Parsed): Key {
    Key(p.seqno, p.from)
  }

  /** `req_list.insert` in reading order. */
  function InsertAll(ps: seq<Parsed>): map<Key, Parsed> {
    if ps == [] then map[] else
    var before := InsertAll(ps[..|ps| - 1]);
    var p := ps[|ps| - 1];
    if ParsedKey(p) in before then before else before[ParsedKey(p) := p]
  }

  /** Iteration order. */
  function Sorted(list: TokenList): seq<Entry>
    decreases |list|
  {
    if list == map[] then [] else
    assert list.Keys != {};
    var k := First(list.Keys);
    [list[k]] + Sorted(list - {k})
  }

  lemma {:induction false} InsertedFirst(p: Parsed, ps: seq<Parsed>)
    ensures InsertAll([p] + ps) == InsertAll(ps)[ParsedKey(p) := p]
    decreases |ps|
  {
    var all := [p] + ps;
    if ps == [] {
      assert all[..|all| - 1] == [];
    } else {
      assert all[..|all| - 1] == [p] + ps[..|ps| - 1];
      InsertedFirst(p, ps[..|ps| - 1]);
    }
  }

  /** A list of requests, each stored under its own key, comes back as it was sent. */
  lemma {:induction false} RequestListComesBack(list: TokenList)
    requires forall k :: k in list ==> list[k].Req? && list[k].AsKey() == k
    ensures InsertAll(AllComeBack(Sorted(list))) == map k | k in list :: ComesBack(list[k])
    decreases |list|
  {
    if list != map[] {
      assert list.Keys != {};
      var k := First(list.Keys);
      var rest := list - {k};
      RequestListComesBack(rest);
      assert AllComeBack(Sorted(list)) == [ComesBack(list[k])] + AllComeBack(Sorted(rest));
      InsertedFirst(ComesBack(list[k]), AllComeBack(Sorted(rest)));
    }
  }

  lemma InsertOneMore(read: seq<Parsed>, p: Parsed)
    ensures InsertAll(read + [p]) ==
            if ParsedKey(p) in InsertAll(read) then InsertAll(read) else InsertAll(read)[ParsedKey(p) := p]
  {
    assert (read + [p])[..|read + [p]| - 1] == read;
  }

  /** The loop of `string_message`. The original goes on for ever where this one reports None:
      the text has no space left and every further pass would leave it as it is. */
  method ReadList(text: string) returns (list: Option<map<Key, Parsed>>)
    ensures list.Some? <==> Stops(ListBody(), text)
    ensures var parsed := Parse(ListBody(), text);
            list == if parsed.Some? then Some(InsertAll(parsed.value)) else None
  {
    ListBodyConsumes();
    ParseIsTheLoop(ListBody(), text);
    list := RunLoop(text, ListBody());
  }

  method RunLoop(text: string, body: Body<Parsed>) returns (list: Option<map<Key, Parsed>>)
    requires Consuming(body)
    ensures var parsed := Parse(body, text);
            list == if parsed.Some? then Some(InsertAll(parsed.value)) else None
  {
    var msg := text;
    var reqs: map<Key, Parsed> := map[];
    ghost var read: seq<Parsed> := [];
    while |msg| > 1
      invariant reqs == InsertAll(read)
      invariant Progress(body, text, read, msg)
      decreases |msg|
    {
      if ' ' !in msg {
        ProgressEnd(body, text, read, msg);
        return None;
      }
      var (entry, left) := body(msg);
      InsertOneMore(read, entry);
      ProgressStep(body, text, read, msg);
      if ParsedKey(entry) !in reqs {
        reqs := reqs[ParsedKey(entry) := entry];
      }
      read := read + [entry];
      msg := left;
    }
    ProgressEnd(body, text, read, msg);
    list := Some(reqs);
  }

  // ----- the whole of string_message

  datatype Reading =
    | Flat(wire: Wire)
    | TokenMessage(from: int, to: int, list: map<Key, Parsed>)
    | Endless

  function ReadingOf(text: string, unset: int): Reading {
    if Atoi(Head(text)) != TOKEN then Flat(Decode(text, unset))
    else
      var parsed := Parse(ListBody(), TokenBody(text));
      if parsed.None? then Endless
      else TokenMessage(Atoi(Head(Rest(text))), Atoi(Head(Rest(Rest(text)))), InsertAll(parsed.value))
  }

  method StringMessage(text: string, unset: int) returns (reading: Reading)
    ensures reading == ReadingOf(text, unset)
  {
    var msgstr := text;
    var kind := Atoi(Head(msgstr));
    msgstr := Rest(msgstr);
    if kind == TOKEN {
      var from := Atoi(Head(msgstr));
      msgstr := Rest(msgstr);
      var to := Atoi(Head(msgstr));
      msgstr := Rest(msgstr);
      var list := ReadList(msgstr);
      return if list.Some? then TokenMessage(from, to, list.value) else Endless;
    }
    var wire := ReadFlat(kind, msgstr, unset);
    reading := Flat(wire);
  }

  method ReadFlat(kind: int, body: string, unset: int) returns (wire: Wire)
    ensures kind == REQUEST ==>
              wire == Wire(kind, Atoi(Head(body)), Atoi(Head(Rest(body))), Atoi(Rest(Rest(body))), unset)
    ensures kind == RELAY ==>
              wire == Wire(kind, Atoi(Head(body)), Atoi(Head(Rest(body))), Atoi(Head(Rest(Rest(body)))),
                           Atoi(Rest(Rest(Rest(body)))))
    ensures kind != REQUEST && kind != RELAY ==> wire == Wire(kind, Atoi(Head(body)), Atoi(Rest(body)), unset, unset)
  {
    var msgstr := body;
    var from := Atoi(Head(msgstr));
    msgstr := Rest(msgstr);
    var to, seqno, relay := 0, unset, unset;
    if kind == REQUEST {
      to := Atoi(Head(msgstr));
      msgstr := Rest(msgstr);
      seqno := Atoi(msgstr);
    } else if kind == RELAY {
      to := Atoi(Head(msgstr));
      msgstr := Rest(msgstr);
      seqno := Atoi(Head(msgstr));
      msgstr := Rest(msgstr);
      relay := Atoi(msgstr);
    } else {
      to := Atoi(msgstr);
    }
    wire := Wire(kind, from, to, seqno, relay);
  }

  lemma HeaderOfToken(from: int, to: int, es: seq<Entry>)
    ensures var text := EncodeToken(from, to, es);
            Atoi(Head(text)) == TOKEN && Atoi(Head(Rest(text))) == from && Atoi(Head(Rest(Rest(text)))) == to
  {
    FirstField(TOKEN, Print(from) + " " + (Print(to) + Tail(es)));
    FirstField(from, Print(to) + Tail(es));
    if es == [] {
      assert Print(to) + Tail(es) == Print(to);
      FirstField(to, "");
    } else {
      assert Print(to) + Tail(es) == Print(to) + " " + Join(Texts(es));
      FirstField(to, Join(Texts(es)));
    }
  }

  lemma ReadingOfToken(text: string, unset: int, from: int, to: int, parsed: Option<seq<Parsed>>)
    requires Atoi(Head(text)) == TOKEN && Atoi(Head(Rest(text))) == from && Atoi(Head(Rest(Rest(text)))) == to
    requires Parse(ListBody(), TokenBody(text)) == parsed
    ensures ReadingOf(text, unset) == if parsed.None? then Endless else TokenMessage(from, to, InsertAll(parsed.value))
  {
  }

  /** What a printed TOKEN is read as: without end, or with the same header and with the entries
      inserted as they come back. */
  lemma TokenReading(from: int, to: int, es: seq<Entry>, unset: int)
    ensures ReadingOf(EncodeToken(from, to, es), unset) ==
            if 0 <= LastNumber(to, es) <= 9 then TokenMessage(from, to, InsertAll(AllComeBack(es))) else Endless
  {
    var text := EncodeToken(from, to, es);
    HeaderOfToken(from, to, es);
    ParsedToken(from, to, es);
    ReadingOfToken(text, unset, from, to, Parse(ListBody(), TokenBody(text)));
  }

  /** A TOKEN with a list of requests is read back exactly if the last number is one digit, and
      otherwise not at all. */
  lemma RequestTokenSurvives(from: int, to: int, list: TokenList, unset: int)
    requires forall k :: k in list ==> list[k].Req? && list[k].AsKey() == k
    ensures ReadingOf(EncodeToken(from, to, Sorted(list)), unset) ==
            if 0 <= LastNumber(to, Sorted(list)) <= 9
            then TokenMessage(from, to, map k | k in list :: ComesBack(list[k])) else Endless
  {
    RequestListComesBack(list);
    TokenReading(from, to, Sorted(list), unset);
  }

  /** The entries as the handlers see them; which relay a relayed request came through is lost. */
  function AsEntries(list: map<Key, Parsed>, unset: int): TokenList {
    map k | k in list ::
      if list[k].kind == RELAY then Rly(list[k].from, list[k].to, list[k].seqno, unset)
      else Req(list[k].from, list[k].to, list[k].seqno)
  }

  /** A TOKEN whose list of requests survives is the TOKEN that was sent. */
  lemma RequestTokenIsTheSame(t: Token, unset: int)
    requires forall k :: k in t.reqs ==> t.reqs[k].Req? && t.reqs[k].AsKey() == k
    requires 0 <= LastNumber(t.to, Sorted(t.reqs)) <= 9
    ensures var r := ReadingOf(EncodeToken(t.from, t.to, Sorted(t.reqs)), unset);
            r.TokenMessage? && Token(r.from, r.to, AsEntries(r.list, unset)) == t
  {
    RequestTokenSurvives(t.from, t.to, t.reqs, unset);
    SameRequests(t.reqs, unset);
  }

  lemma SameRequests(list: TokenList, unset: int)
    requires forall k :: k in list ==> list[k].Req?
    ensures AsEntries(map k | k in list :: ComesBack(list[k]), unset) == list
  {
  }
}
