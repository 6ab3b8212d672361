/** What a voting node owes to its past: from the mere list of what has happened to it (requests
    issued, messages received, sections finished) it is stated what it has numbered, which answers
    count, whether it is inside, who is still to get a vote back, who is in its queue and what it
    sends next. */
module MakHistory {
  import opened Priority
  import opened MakProtocol
  import opened Options

  datatype Event = Issued | Got(msg: Message, unset: int) | Finished

  // ----- histories

  predicate Defined(n: Node, e: Event) {
    match e
    case Issued => true
    case Got(m, _) => CanReceive(n, m)
    case Finished => n.waiting != {}
  }

  function Effect(n: Node, e: Event): Outcome
    requires Defined(n, e)
  {
    match e
    case Issued => SendRequest(n)
    case Got(m, unset) => Receive(n, m, unset)
    case Finished => Leave(n)
  }

  function Init(h: seq<Event>): seq<Event>
    requires h != []
  {
    h[..|h| - 1]
  }

  function Last(h: seq<Event>): Event
    requires h != []
  {
    h[|h| - 1]
  }

  /** No event of `h` is undefined when it happens. */
  predicate Possible(n: Node, h: seq<Event>)
    decreases |h|, 0
  {
    h == [] || (Possible(n, Init(h)) && Defined(State(n, Init(h)), Last(h)))
  }

  /** The node after `h`. */
  function State(n: Node, h: seq<Event>): Node
    requires Possible(n, h)
    decreases |h|, 1
  {
    if h == [] then n else Effect(State(n, Init(h)), Last(h)).node
  }

  function Sent(n: Node, h: seq<Event>): multiset<Packet>
    requires Possible(n, h)
    decreases |h|
  {
    if h == [] then multiset{} else Sent(n, Init(h)) + Effect(State(n, Init(h)), Last(h)).sent
  }

  lemma OneMore(n: Node, h: seq<Event>, e: Event)
    requires Possible(n, h) && Defined(State(n, h), e)
    ensures Possible(n, h + [e]) && State(n, h + [e]) == Effect(State(n, h), e).node
    ensures Sent(n, h + [e]) == Sent(n, h) + Effect(State(n, h), e).sent
  {
    assert Init(h + [e]) == h && Last(h + [e]) == e;
  }

  // ----- what the list of events alone says

  function TimesIssued(h: seq<Event>): nat
    decreases |h|
  {
    if h == [] then 0 else TimesIssued(Init(h)) + if Last(h).Issued? then 1 else 0
  }

  /** The last answer of `a` since the last section was finished. */
  function LastAnswer(h: seq<Event>, a: int): Option<Answer>
    decreases |h|
  {
    if h == [] || Last(h).Finished? then None
    else if Last(h).Got? && Last(h).msg == Lock(a) then Some(LOCK)
    else if Last(h).Got? && Last(h).msg == Fail(a) then Some(FAIL)
    else LastAnswer(Init(h), a)
  }

  /** All who have answered since the last section was finished. */
  function Answerers(h: seq<Event>): set<int>
    decreases |h|
  {
    if h == [] || Last(h).Finished? then {}
    else Answerers(Init(h)) +
         if Last(h).Got? && (Last(h).msg.Lock? || Last(h).msg.Fail?) then {Last(h).msg.from} else {}
  }

  predicate Refused(h: seq<Event>) {
    exists a :: a in Answerers(h) && LastAnswer(h, a) == Some(FAIL)
  }

  /** A LOCK since the last section was finished has found enough answers and no refusal. */
  predicate Inside(quorum: set<int>, h: seq<Event>)
    decreases |h|
  {
    h != [] && !Last(h).Finished? &&
    (Inside(quorum, Init(h)) ||
     (Last(h).Got? && Last(h).msg.Lock? && |Answerers(h)| == |quorum| - 1 && !Refused(h)))
  }

  /** The inquiries, by what stood in their unassigned field and by inquirer, that came when the node
      was neither inside nor refused, unless it has since been refused or finished a section. */
  function Owed(quorum: set<int>, h: seq<Event>): set<Key>
    decreases |h|
  {
    if h == [] || Last(h).Finished? || (Last(h).Got? && Last(h).msg.Fail?) then {}
    else Owed(quorum, Init(h)) +
         if Last(h).Got? && Last(h).msg.Inquire? && !Inside(quorum, Init(h)) && !Refused(Init(h))
         then {Key(Last(h).unset, Last(h).msg.from)} else {}
  }

  // ----- and what the node makes of it

  lemma {:induction false} Numbers(id: int, quorum: set<int>, h: seq<Event>)
    requires Possible(NewNode(id, quorum), h)
    ensures var n := State(NewNode(id, quorum), h);
            n.id == id && n.quorum == quorum && n.nextSeq == 1 + TimesIssued(h)
    decreases |h|
  {
    if h != [] {
      Numbers(id, quorum, Init(h));
      EffectKeeps(State(NewNode(id, quorum), Init(h)), Last(h));
    }
  }

  lemma EffectKeeps(n: Node, e: Event)
    requires Defined(n, e)
    ensures var after := Effect(n, e).node;
            after.id == n.id && after.quorum == n.quorum && after.nextSeq == n.nextSeq + if e.Issued? then 1 else 0
  {
  }

  ghost predicate AnswersMatch(n: Node, h: seq<Event>) {
    n.responses.Keys == Answerers(h) && forall a :: a in n.responses ==> LastAnswer(h, a) == Some(n.responses[a])
  }

  lemma ReceptionKeepsRest(n: Node, m: Message, unset: int)
    requires CanReceive(n, m)
    ensures !m.Lock? && !m.Fail? ==> Receive(n, m, unset).node.responses == n.responses
    ensures !m.Fail? && !m.Inquire? ==> Receive(n, m, unset).node.inquiries == n.inquiries
  {
    match m
    case Request(k) => RequestKeepsRest(n, k);
    case Release(from) => ReleaseKeepsRest(n, from);
    case Lock(from) => AnswerRecorded(n, from);
    case _ =>
  }

  lemma RequestKeepsRest(n: Node, k: Key)
    ensures var after := ReceiveRequest(n, k).node;
            after.responses == n.responses && after.inquiries == n.inquiries
  {
  }

  lemma ReleaseKeepsRest(n: Node, from: int)
    ensures var after := ReceiveRelease(n, from).node;
            after.responses == n.responses && after.inquiries == n.inquiries
  {
  }

  lemma AnswerRecorded(n: Node, from: int)
    ensures ReceiveLocked(n, from).node.responses == n.responses[from := LOCK]
    ensures ReceiveLocked(n, from).node.inquiries == n.inquiries
    ensures ReceiveFailed(n, from).node.responses == n.responses[from := FAIL]
    ensures ReceiveFailed(n, from).node.inquiries == {}
  {
  }

  /** What an event makes of the answers on record. */
  lemma ResponsesAfter(n: Node, e: Event)
    requires Defined(n, e)
    ensures Effect(n, e).node.responses ==
            if e.Finished? then map[]
            else if e.Got? && e.msg.Lock? then n.responses[e.msg.from := LOCK]
            else if e.Got? && e.msg.Fail? then n.responses[e.msg.from := FAIL]
            else n.responses
  {
    match e
    case Got(Lock(from), _) => AnswerRecorded(n, from);
    case Got(Fail(from), _) => AnswerRecorded(n, from);
    case Got(m, unset) => ReceptionKeepsRest(n, m, unset);
    case Issued =>
    case Finished =>
  }

  lemma AnswersStep(n: Node, h: seq<Event>)
    requires h != [] && AnswersMatch(n, Init(h)) && Defined(n, Last(h))
    ensures AnswersMatch(Effect(n, Last(h)).node, h)
  {
    ResponsesAfter(n, Last(h));
    AnswersGrow(n, h, Effect(n, Last(h)).node.responses);
  }

  lemma AnswersGrow(n: Node, h: seq<Event>, after: map<int, Answer>)
    requires h != [] && AnswersMatch(n, Init(h))
    requires var e := Last(h);
             after == if e.Finished? then map[]
                      else if e.Got? && e.msg.Lock? then n.responses[e.msg.from := LOCK]
                      else if e.Got? && e.msg.Fail? then n.responses[e.msg.from := FAIL]
                      else n.responses
    ensures after.Keys == Answerers(h) && forall a :: a in after ==> LastAnswer(h, a) == Some(after[a])
  {
  }

  /** The answers on record are the last ones since the last section. */
  lemma {:induction false} Answers(n: Node, h: seq<Event>)
    requires n.responses == map[] && Possible(n, h)
    ensures AnswersMatch(State(n, h), h)
    decreases |h|
  {
    if h != [] {
      Answers(n, Init(h));
      AnswersStep(State(n, Init(h)), h);
    }
  }

  lemma RefusalsMatch(n: Node, h: seq<Event>)
    requires AnswersMatch(n, h)
    ensures n.HasRefusal() <==> Refused(h)
  {
    if n.HasRefusal() {
      var a :| a in n.responses && n.responses[a] == FAIL;
      assert a in Answerers(h) && LastAnswer(h, a) == Some(FAIL);
    }
  }

  lemma InsideStep(n: Node, h: seq<Event>)
    requires h != [] && AnswersMatch(n, Init(h)) && Defined(n, Last(h))
    requires n.inCS <==> Inside(n.quorum, Init(h))
    ensures Effect(n, Last(h)).node.inCS <==> Inside(n.quorum, h)
  {
    AnswersStep(n, h);
    var after := Effect(n, Last(h)).node;
    RefusalsMatch(after, h);
    assert |after.responses| == |after.responses.Keys|;
    if Last(h).Got? && Last(h).msg.Lock? {
      LockStep(n, Last(h).msg.from);
    }
  }

  lemma LockStep(n: Node, from: int)
    ensures var after := ReceiveLocked(n, from).node;
            after.inCS <==> n.inCS || (|after.responses| == |n.quorum| - 1 && !after.HasRefusal())
  {
  }

  /** A node is inside exactly when its events say so. */
  lemma {:induction false} InsideMatches(n: Node, h: seq<Event>)
    requires n.responses == map[] && !n.inCS && Possible(n, h)
    ensures State(n, h).inCS <==> Inside(n.quorum, h)
    ensures State(n, h).quorum == n.quorum
    decreases |h|
  {
    if h != [] {
      InsideMatches(n, Init(h));
      Answers(n, Init(h));
      InsideStep(State(n, Init(h)), h);
      EffectKeeps(State(n, Init(h)), Last(h));
    }
  }

  lemma InquirySaved(n: Node, from: int, unset: int)
    ensures ReceiveInquiry(n, from, unset).node.inquiries ==
            n.inquiries + if !n.inCS && !n.HasRefusal() then {Key(unset, from)} else {}
  {
  }

  /** What an event makes of the saved inquiries. */
  lemma InquiriesAfter(n: Node, e: Event)
    requires Defined(n, e)
    ensures Effect(n, e).node.inquiries ==
            if e.Finished? || (e.Got? && e.msg.Fail?) then {}
            else if e.Got? && e.msg.Inquire? && !n.inCS && !n.HasRefusal()
            then n.inquiries + {Key(e.unset, e.msg.from)} else n.inquiries
  {
    match e
    case Got(Inquire(from), unset) => InquirySaved(n, from, unset);
    case Got(Fail(from), _) => AnswerRecorded(n, from);
    case Got(m, unset) => ReceptionKeepsRest(n, m, unset);
    case Issued =>
    case Finished =>
  }

  lemma DebtsStep(n: Node, h: seq<Event>)
    requires h != [] && Defined(n, Last(h)) && AnswersMatch(n, Init(h))
    requires n.inCS <==> Inside(n.quorum, Init(h))
    requires n.inquiries == Owed(n.quorum, Init(h))
    ensures Effect(n, Last(h)).node.inquiries == Owed(n.quorum, h)
  {
    RefusalsMatch(n, Init(h));
    InquiriesAfter(n, Last(h));
    OwedMore(n.quorum, h, n.inCS, n.HasRefusal());
  }

  lemma OwedMore(quorum: set<int>, h: seq<Event>, inside: bool, refused: bool)
    requires h != [] && (inside <==> Inside(quorum, Init(h))) && (refused <==> Refused(Init(h)))
    ensures var e := Last(h);
            Owed(quorum, h) ==
            if e.Finished? || (e.Got? && e.msg.Fail?) then {}
            else if e.Got? && e.msg.Inquire? && !inside && !refused
            then Owed(quorum, Init(h)) + {Key(e.unset, e.msg.from)} else Owed(quorum, Init(h))
  {
  }

  lemma {:induction false} Debts(n: Node, h: seq<Event>)
    requires n.responses == map[] && !n.inCS && n.inquiries == {} && Possible(n, h)
    ensures State(n, h).inquiries == Owed(n.quorum, h)
    decreases |h|
  {
    if h != [] {
      Debts(n, Init(h));
      Answers(n, Init(h));
      InsideMatches(n, Init(h));
      EffectKeeps(State(n, Init(h)), Last(h));
      DebtsStep(State(n, Init(h)), h);
    }
  }

  /** Votes given back, from the events alone: the next refusal sends one RELINQUISH for every inquiry
      owed, and an inquiry is answered at once by one if and only if the node has been refused and
      is not inside. Nothing else sends a RELINQUISH. */
  lemma GivesBack(n: Node, h: seq<Event>, m: Message, unset: int, b: int)
    requires n.responses == map[] && !n.inCS && n.inquiries == {} && Possible(n, h)
    requires CanReceive(State(n, h), m)
    ensures Receive(State(n, h), m, unset).sent[Packet(b, Relinquish(State(n, h).id))] ==
              if m.Fail? then |SentBy(Owed(n.quorum, h), b)|
              else if m == Inquire(b) && Refused(h) && !Inside(n.quorum, h) then 1 else 0
  {
    Answers(n, h);
    InsideMatches(n, h);
    Debts(n, h);
    RefusalsMatch(State(n, h), h);
    GivenBack(State(n, h), m, unset, b);
  }

  lemma GivenBack(n: Node, m: Message, unset: int, b: int)
    requires CanReceive(n, m)
    ensures Receive(n, m, unset).sent[Packet(b, Relinquish(n.id))] ==
              if m.Fail? then |SentBy(n.inquiries, b)|
              else if m == Inquire(b) && n.HasRefusal() && !n.inCS then 1 else 0
  {
    match m
    case Fail(_) => RelinquishesCount(n.id, n.inquiries, Packet(b, Relinquish(n.id)));
    case Inquire(from) => InquiryAnswer(n, from, unset, b);
    case _ => NotGivenBack(n, m, unset, b);
  }

  /** Saved inquiries stay until a refusal or the end of a section. */
  lemma {:induction false} DebtsStay(n: Node, h: seq<Event>)
    requires Possible(n, h)
    requires forall e :: e in h ==> !e.Finished? && !(e.Got? && e.msg.Fail?)
    ensures n.inquiries <= State(n, h).inquiries
    decreases |h|
  {
    if h != [] {
      assert Last(h) in h;
      DebtsStay(n, Init(h));
      InquiriesAfter(State(n, Init(h)), Last(h));
    }
  }

  lemma InquiryAnswer(n: Node, from: int, unset: int, to: int)
    ensures ReceiveInquiry(n, from, unset).sent[Packet(to, Relinquish(n.id))] ==
            if to == from && !n.inCS && n.HasRefusal() then 1 else 0
  {
  }

  lemma NotGivenBack(n: Node, m: Message, unset: int, to: int)
    requires CanReceive(n, m) && !m.Fail? && !m.Inquire?
    ensures Packet(to, Relinquish(n.id)) !in Receive(n, m, unset).sent
  {
  }
}
