/** `LAKNode`: the handlers and the main loop, updating the node's fields in place. */
module LakNode {
  import opened Priority
  import opened ControlLog
  import opened Iteration
  import opened LakProtocol
  import opened LakTimed
  import opened Options
  import opened Sums
  import LakCodec
  import LakLoop

  /** One letter to each of the members. */
  function Letters(members: set<int>, letter: int -> Mail): multiset<Mail> {
    multiset(set q | q in members :: letter(q))
  }

  lemma LetterMore(quorum: set<int>, rest: set<int>, to: int, id: int, letter: int -> Mail)
    requires to in rest && rest <= quorum && forall a, b :: letter(a) == letter(b) ==> a == b
    ensures Letters(quorum - (rest - {to}) - {id}, letter) ==
            Letters(quorum - rest - {id}, letter) + if to != id then multiset{letter(to)} else multiset{}
  {
    var done := quorum - rest - {id};
    var more := quorum - (rest - {to}) - {id};
    if to != id {
      assert more == done + {to};
      assert (set q | q in more :: letter(q)) == (set q | q in done :: letter(q)) + {letter(to)};
    } else {
      assert more == done;
    }
  }

  lemma SameLetters(members: set<int>, letter: int -> Mail, all: set<Mail>)
    requires forall m :: m in all <==> exists q :: q in members && m == letter(q)
    ensures Letters(members, letter) == multiset(all)
  {
    assert all == set q | q in members :: letter(q);
  }

  lemma OneLess(rest: set<int>, to: int, id: int)
    requires to in rest
    ensures |rest - {id}| == |rest - {to} - {id}| + if to != id then 1 else 0
  {
    if to != id {
      assert rest - {id} == rest - {to} - {id} + {to};
    } else {
      assert rest - {id} == rest - {to} - {id};
    }
  }

  lemma CopiesMore(k: nat, m: multiset<Mail>)
    ensures Copies(k + 1, m) == m + Copies(k, m)
  {
  }

  class LAKNode {
    const nodeId: int
    const quorumSet: set<int>
    const settings: Settings

    var nextSeq: int
    var tokenHolder: int
    var hasToken: bool
    var isInCS: bool
    var tokenList: TokenList
    var timer: nat
    var csTimer: nat
    var numReq: nat

    // what has been handed to the network
    var tokensOut: multiset<Token>
    var mailOut: multiset<Mail>
    var control: seq<Stamped>

    /** Construction followed by `init`, with the quorum already read. */
    constructor (nodeId: int, quorumSet: set<int>, settings: Settings)
      ensures this.nodeId == nodeId && this.quorumSet == quorumSet && this.settings == settings
      ensures Snapshot() == Device(NewNode(nodeId, quorumSet), 0, 0, 0, [], multiset{}, multiset{})
    {
      this.nodeId, this.quorumSet, this.settings := nodeId, quorumSet, settings;
      nextSeq, isInCS, tokenList, timer, csTimer, numReq := 1, false, map[], 0, 0, 0;
      tokensOut, mailOut, control := multiset{}, multiset{}, [];
      if StartsWithOne(quorumSet) {
        tokenHolder := 1;
        if nodeId == 1 {
          hasToken := true;
        } else {
          hasToken := false;
        }
      } else {
        tokenHolder := UNKNOWN;
        hasToken := false;
      }
    }

    function State(): Node
      reads this
    {
      Node(nodeId, quorumSet, nextSeq, tokenHolder, hasToken, isInCS, tokenList)
    }

    function Snapshot(): Device
      reads this
    {
      Device(State(), timer, csTimer, numReq, control, tokensOut, mailOut)
    }

    /** This call did exactly `o`; entering restarts the countdown and is logged. */
    twostate predicate Performed(o: Outcome)
      reads this
    {
      && State() == o.node
      && tokensOut == old(tokensOut) + o.tokens
      && mailOut == old(mailOut) + o.mail
      && control == old(control) + (if o.entered then [Stamped(timer, AccessCS)] else [])
      && timer == old(timer) && numReq == old(numReq)
      && csTimer == if o.entered then settings.csTime else old(csTimer)
    }

    // ----- actions

    method Send(m: Mail)
      modifies this`mailOut
      ensures mailOut == old(mailOut) + multiset{m}
    {
      mailOut := mailOut + multiset{m};
    }

    method SendControl(what: Control)
      modifies this`control
      ensures control == old(control) + [Stamped(timer, what)]
    {
      control := control + [Stamped(timer, what)];
    }

    method SendToken(to: int)
      modifies this`tokensOut, this`tokenHolder, this`hasToken, this`tokenList
      ensures State() == PassToken(old(State()), to).node
      ensures tokensOut == old(tokensOut) + PassToken(old(State()), to).tokens
    {
      tokensOut := tokensOut + multiset{Token(nodeId, to, tokenList)};
      tokenHolder := to;
      hasToken := false;
      tokenList := map[];
    }

    /** The loop over `quorum_set` that skips the node itself. */
    method SendToOthers(letter: int -> Mail)
      requires forall a, b :: letter(a) == letter(b) ==> a == b
      modifies this`mailOut
      ensures mailOut == old(mailOut) + Letters(quorumSet - {nodeId}, letter)
    {
      var rest := quorumSet;
      while rest != {}
        invariant rest <= quorumSet
        invariant mailOut == old(mailOut) + Letters(quorumSet - rest - {nodeId}, letter)
        decreases |rest|
      {
        HasElement(rest);
        var to :| to in rest;
        LetterMore(quorumSet, rest, to, nodeId, letter);
        if to != nodeId {
          Send(letter(to));
        }
        rest := rest - {to};
      }
      assert quorumSet - rest == quorumSet;
    }

    method SendRelease()
      modifies this`mailOut
      ensures mailOut == old(mailOut) + Releases(State())
    {
      SendToOthers(q => Release(nodeId, q));
      SameLetters(quorumSet - {nodeId}, q => Release(nodeId, q),
                  set q | q in quorumSet - {nodeId} :: Release(nodeId, q));
    }

    method SendReceive()
      modifies this`mailOut
      ensures mailOut == old(mailOut) + multiset(set q | q in quorumSet - {nodeId} :: Receive(nodeId, q))
    {
      SendToOthers(q => Receive(nodeId, q));
      SameLetters(quorumSet - {nodeId}, q => Receive(nodeId, q),
                  set q | q in quorumSet - {nodeId} :: Receive(nodeId, q));
    }

    /** `send_receive` inside the loop over the quorum. */
    method SendReceives()
      modifies this`mailOut
      ensures mailOut == old(mailOut) + Receives(State())
    {
      ghost var one := multiset(set q | q in quorumSet - {nodeId} :: Receive(nodeId, q));
      ghost var all := Receives(State());
      var rest := quorumSet;
      while rest != {}
        invariant rest <= quorumSet
        invariant mailOut + Copies(|rest - {nodeId}|, one) == old(mailOut) + all
        decreases |rest|
      {
        HasElement(rest);
        var to :| to in rest;
        OneLess(rest, to, nodeId);
        if to != nodeId {
          CopiesMore(|rest - {to} - {nodeId}|, one);
          SendReceive();
        }
        rest := rest - {to};
      }
    }

    method AccessCriticalSection()
      modifies this
      ensures Performed(Enter(old(State())))
    {
      isInCS := true;
      csTimer := settings.csTime;
      SendControl(AccessCS);
    }

    method PassOn(to: int)
      modifies this
      ensures Performed(PassAndRelease(old(State()), to))
    {
      SendToken(to);
      SendRelease();
      assert Releases(State()) == Releases(old(State()));
    }

    // ----- handlers

    method SendRequest()
      modifies this
      ensures Performed(LakProtocol.SendRequest(old(State())))
    {
      if hasToken {
        AccessCriticalSection();
      } else {
        AskForToken();
      }
    }

    method AskForToken()
      requires !hasToken
      modifies this`nextSeq, this`mailOut, this`hasToken, this`isInCS
      ensures State() == LakProtocol.SendRequest(old(State())).node
      ensures mailOut == old(mailOut) + LakProtocol.SendRequest(old(State())).mail
    {
      var number := nextSeq;
      nextSeq := nextSeq + 1;
      SendNumbered(number);
      hasToken := false;
      isInCS := false;
    }

    /** To the known holder alone, if it is a member, and else to all other members. */
    method SendNumbered(number: int)
      requires !hasToken
      modifies this`mailOut
      ensures mailOut == old(mailOut) + LakProtocol.SendRequest(State().(nextSeq := number)).mail
    {
      if tokenHolder in quorumSet {
        Send(Order(Req(nodeId, tokenHolder, number)));
        assert (set q | q in {tokenHolder} :: Order(Req(nodeId, q, number))) ==
               {Order(Req(nodeId, tokenHolder, number))};
      } else {
        SendToOthers(q => Order(Req(nodeId, q, number)));
        SameLetters(quorumSet - {nodeId}, q => Order(Req(nodeId, q, number)),
                    set q | q in quorumSet - {nodeId} :: Order(Req(nodeId, q, number)));
      }
    }

    /** `seq = ++msg.seq`, if the request is ahead. */
    method SeeRequest(e: Entry) returns (seen: Entry)
      requires e.Req?
      modifies this`nextSeq
      ensures seen == Seen(old(State()), e) && State() == Synced(old(State()), e)
    {
      seen := e;
      if nextSeq < seen.seqno {
        seen := Req(e.from, e.to, e.seqno + 1);
        nextSeq := seen.seqno;
      }
    }

    method ReceiveRequest(e: Entry)
      requires e.Req?
      modifies this
      ensures Performed(LakProtocol.ReceiveRequest(old(State()), e))
    {
      var seen := SeeRequest(e);
      if hasToken {
        tokenList := Insert(tokenList, seen);
        if !isInCS {
          PassOn(e.from);
        }
      } else {
        if tokenHolder == UNKNOWN {
          Send(Ack(nodeId, e.from));
        } else {
          Send(Order(Rly(e.from, tokenHolder, seen.seqno, nodeId)));
        }
      }
    }

    method KeepToken()
      modifies this`hasToken, this`tokenHolder, this`mailOut
      ensures State() == TakeToken(old(State()))
      ensures mailOut == old(mailOut) + Receives(old(State()))
    {
      hasToken := true;
      tokenHolder := nodeId;
      SendReceives();
      assert Receives(State()) == Receives(old(State()));
    }

    method ReceiveToken(t: Token)
      modifies this
      ensures Performed(LakProtocol.ReceiveToken(old(State()), t))
    {
      if t.reqs == map[] {
        KeepToken();
        return;
      }
      assert t.reqs.Keys != {};
      if First(t.reqs.Keys).from != nodeId {
        SendToken(t.from);
      } else {
        KeepToken();
        AccessCriticalSection();
      }
    }

    method ReceiveReceive(from: int)
      modifies this
      ensures forall to :: Performed(ReceiveMail(old(State()), Receive(from, to)))
    {
      tokenHolder := from;
    }

    method ReceiveRelease()
      modifies this
      ensures forall from, to :: Performed(ReceiveMail(old(State()), Release(from, to)))
    {
      if tokenHolder != nodeId {
        tokenHolder := UNKNOWN;
      }
    }

    method ReceiveRelay(e: Entry)
      requires e.Rly?
      modifies this
      ensures Performed(LakProtocol.ReceiveRelay(old(State()), e))
    {
      if nextSeq < e.seqno {
        nextSeq := e.seqno;
      }
      if tokenHolder != 0 {
        if isInCS {
          tokenList := Insert(tokenList, e);
        } else {
          PassOn(e.relay);
        }
      }
    }

    method FinishCriticalSection()
      modifies this
      ensures Snapshot() == Become(Log(old(Snapshot()), FinishCS), Leave(old(State())), settings)
    {
      SendControl(FinishCS);
      if tokenList != map[] {
        assert tokenList.Keys != {};
        PassOn(First(tokenList.Keys).from);
      }
      isInCS := false;
    }

    method ReceiveMessage(m: Mail)
      modifies this
      ensures Performed(ReceiveMail(old(State()), m))
    {
      match m
      case Order(e) =>
        if e.Req? {
          ReceiveRequest(e);
        } else {
          ReceiveRelay(e);
        }
      case Release(_, _) => ReceiveRelease();
      case Ack(_, _) =>
      case Receive(from, _) => ReceiveReceive(from);
    }

    /** `receive_message`: false when decoding a TOKEN goes on for ever; a text of an unknown type
        is ignored. `unset` stands for the fields that decoding leaves unset. */
    method ReceiveText(text: string, unset: int) returns (ends: bool)
      modifies this
      ensures var events := EventsOf(Incoming(text, unset));
              && ends == events.Some?
              && (ends ==> Snapshot() == Handle(old(Snapshot()), settings, events.value))
    {
      var reading := LakCodec.StringMessage(text, unset);
      match reading
      case Endless => ends := false;
      case TokenMessage(from, to, list) =>
        ghost var before := Snapshot();
        var token := Token(from, to, LakCodec.AsEntries(list, unset));
        ReceiveToken(token);
        Became(before, LakProtocol.ReceiveToken(before.node, token), settings, Snapshot());
        ends := true;
      case Flat(wire) =>
        Dispatch(wire);
        ends := true;
    }

    method Dispatch(w: LakCodec.Wire)
      modifies this
      ensures match LakCodec.Meaning(w)
              case None => Snapshot() == old(Snapshot())
              case Some(m) => Performed(ReceiveMail(old(State()), m))
    {
      if w.kind == LakCodec.REQUEST {
        ReceiveMessage(Order(Req(w.from, w.to, w.seqno)));
      } else if w.kind == LakCodec.RELEASE {
        ReceiveMessage(Release(w.from, w.to));
      } else if w.kind == LakCodec.ACK {
        ReceiveMessage(Ack(w.from, w.to));
      } else if w.kind == LakCodec.RECEIVE {
        ReceiveMessage(Receive(w.from, w.to));
      } else if w.kind == LakCodec.RELAY {
        ReceiveMessage(Order(Rly(w.from, w.to, w.seqno, w.relay)));
      }
    }

    // ----- the main loop

    /** Handles the queued texts; false when one of them is a TOKEN that is never read to its end. */
    method HandleArrivals(arrivals: seq<Incoming>) returns (ok: bool)
      modifies this
      ensures var handled := HandleAll(old(Snapshot()), settings, arrivals);
              ok == handled.Some? && (ok ==> Snapshot() == handled.value)
    {
      var j := 0;
      while j < |arrivals|
        invariant 0 <= j <= |arrivals|
        invariant HandleAll(old(Snapshot()), settings, arrivals) == HandleAll(Snapshot(), settings, arrivals[j..])
      {
        assert arrivals[j..][0] == arrivals[j] && arrivals[j..][1..] == arrivals[j + 1..];
        ok := ReceiveText(arrivals[j].text, arrivals[j].unset);
        if !ok {
          return;
        }
        j := j + 1;
      }
      ok := true;
    }

    method CountDownSection()
      modifies this
      ensures Snapshot() == CountDown(old(Snapshot()), settings)
    {
      if csTimer == 0 && isInCS {
        FinishCriticalSection();
      } else if csTimer > 0 {
        csTimer := csTimer - 1;
      }
    }

    method CountRequest()
      modifies this`numReq, this`control
      ensures Snapshot() == Counted(old(Snapshot()))
    {
      numReq := numReq + 1;
      SendControl(RequestCS);
    }

    method AskIfScheduled()
      modifies this
      ensures Snapshot() == LakTimed.AskIfScheduled(old(Snapshot()), settings)
    {
      if timer in settings.schedule {
        CountRequest();
        ghost var asking := Snapshot();
        SendRequest();
        Became(asking, LakProtocol.SendRequest(asking.node), settings, Snapshot());
      }
    }

    method OneRound(arrivals: seq<Incoming>) returns (ok: bool)
      modifies this
      ensures var result := Round(old(Snapshot()), settings, arrivals);
              ok == result.Some? && (ok ==> Snapshot() == result.value)
    {
      ok := HandleArrivals(arrivals);
      if ok {
        FinishRound();
      }
    }

    /** What a round does after the arrivals. */
    method FinishRound()
      modifies this
      ensures Snapshot() == RestOfRound(old(Snapshot()), settings)
    {
      timer := timer + 1;
      CountDownSection();
      AskIfScheduled();
    }

    /** Runs until the clock stops; false when a TOKEN is met on the way that is never read to its end. */
    method Run(arrivals: nat -> seq<Incoming>) returns (ok: bool)
      modifies this
      ensures var result := Rounds(old(Snapshot()).(timer := 0, csTimer := 0), settings, arrivals, LAST_TICK);
              ok == result.Some? && (ok ==> Snapshot() == result.value && timer == 60000)
      ensures ok && old(control) == [] ==>
                && numReq == old(numReq) + |ScheduledUpTo(settings.schedule, LAST_TICK)|
                && ControlCount(Controls(control)) == |ScheduledUpTo(settings.schedule, LAST_TICK)|
    {
      timer, csTimer := 0, 0;
      ghost var start := Snapshot();
      while timer < LAST_TICK
        invariant timer <= LAST_TICK
        invariant Rounds(start, settings, arrivals, timer) == Some(Snapshot())
        decreases LAST_TICK - timer
      {
        ghost var t := timer;
        ghost var before := Snapshot();
        ok := OneRound(arrivals(timer));
        RoundsGoOn(start, settings, arrivals, t, before, LAST_TICK);
        if !ok {
          return;
        }
      }
      if start.control == [] {
        LakLoop.EntriesAreLogged(start, settings, arrivals, LAST_TICK, Snapshot());
      }
      ok := true;
    }
  }
}
