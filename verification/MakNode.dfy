/** `MAKNode`: the handlers and the main loop, updating the node's fields in place. */
module MakNode {
  import opened Priority
  import opened ControlLog
  import opened MakProtocol
  import opened MakTimed
  import opened Iteration
  import opened Options
  import MakCodec
  import MakDuties
  import MakLoop
  import Text
  import opened Sums

  lemma PassedOne(quorum: set<int>, rest: set<int>, to: int, id: int)
    requires to in rest && rest <= quorum
    ensures to != id ==> to in quorum - (rest - {to}) - {id}
    ensures to != id ==> quorum - (rest - {to}) - {id} - {to} == quorum - rest - {id}
    ensures to == id ==> quorum - (rest - {to}) - {id} == quorum - rest - {id}
    ensures |quorum - (rest - {to}) - {id}| == |quorum - rest - {id}| + if to != id then 1 else 0
  {
    var after := quorum - (rest - {to}) - {id};
    if to != id {
      assert after == quorum - rest - {id} + {to};
    } else {
      assert after == quorum - rest - {id};
    }
  }

  lemma Fewer(a: set<int>, b: set<int>)
    requires a < b
    ensures |a| < |b|
  {
    assert b == a + (b - a);
  }

  lemma OneRequestMore(log: seq<Stamped>, at: nat, n: nat)
    ensures log + Stamp(at, RequestCopies(n)) + Stamp(at, [RequestCS]) == log + Stamp(at, RequestCopies(n + 1))
  {
  }

  lemma StampConcat(at: nat, a: seq<Control>, b: seq<Control>)
    ensures Stamp(at, a + b) == Stamp(at, a) + Stamp(at, b)
  {
  }

  class MAKNode {
    const nodeId: int
    const quorumSet: set<int>
    const settings: Settings

    var nextSeq: int
    var isLocked: bool
    var isInCS: bool
    var lockedFor: Key
    var responseMap: map<int, Answer>
    var waitingQueue: set<Key>
    var inquiryList: set<Key>
    var timer: nat
    var csTimer: nat
    var numReq: nat

    // what has been handed to the network
    var outbox: multiset<Packet>
    var control: seq<Stamped>

    constructor (nodeId: int, quorumSet: set<int>, settings: Settings)
      ensures this.nodeId == nodeId && this.quorumSet == quorumSet && this.settings == settings
      ensures State() == NewNode(nodeId, quorumSet)
      ensures Snapshot() == Device(NewNode(nodeId, quorumSet), 0, 0, 0, [], multiset{})
    {
      this.nodeId, this.quorumSet, this.settings := nodeId, quorumSet, settings;
      nextSeq, isLocked, isInCS, lockedFor := 1, false, false, NOBODY;
      responseMap, waitingQueue, inquiryList := map[], {}, {};
      timer, csTimer, numReq, outbox, control := 0, 0, 0, multiset{}, [];
    }

    function State(): Node
      reads this
    {
      Node(nodeId, quorumSet, nextSeq, isLocked, lockedFor, responseMap, waitingQueue, inquiryList, isInCS)
    }

    function Snapshot(): Device
      reads this
    {
      Device(State(), timer, csTimer, numReq, control, outbox)
    }

    /** This call did exactly `o`; entering starts the countdown. */
    twostate predicate Performed(o: Outcome)
      reads this
    {
      && State() == o.node
      && outbox == old(outbox) + o.sent
      && control == old(control) + Stamp(timer, o.control)
      && timer == old(timer) && numReq == old(numReq)
      && csTimer == if o.node.inCS && !old(isInCS) then settings.csTime else old(csTimer)
    }

    // ----- sending

    method Send(to: int, m: Message)
      modifies this`outbox
      ensures outbox == old(outbox) + multiset{Packet(to, m)}
    {
      outbox := outbox + multiset{Packet(to, m)};
    }

    method SendControl(what: Control)
      modifies this`control
      ensures control == old(control) + Stamp(timer, [what])
    {
      control := control + [Stamped(timer, what)];
      assert Stamp(timer, [what]) == [Stamped(timer, what)];
    }

    /** The loop over `quorum_set` that skips the node itself. */
    method SendToOthers(m: Message)
      modifies this`outbox
      ensures outbox == old(outbox) + ToOthers(State(), m)
    {
      var rest := quorumSet;
      while rest != {}
        invariant rest <= quorumSet
        invariant outbox == old(outbox) + Broadcast(quorumSet - rest - {nodeId}, m)
        decreases |rest|
      {
        HasElement(rest);
        var to :| to in rest;
        PassedOne(quorumSet, rest, to, nodeId);
        if to != nodeId {
          BroadcastOne(quorumSet - (rest - {to}) - {nodeId}, m, to);
          Send(to, m);
        }
        rest := rest - {to};
      }
      assert quorumSet - rest == quorumSet;
    }

    method SendRequestTo(to: int, k: Key)
      modifies this`outbox, this`control
      ensures outbox == old(outbox) + multiset{Packet(to, Request(k))}
      ensures control == old(control) + Stamp(timer, [RequestCS])
    {
      SendControl(RequestCS);
      Send(to, Request(k));
    }

    ghost function Reached(rest: set<int>): set<int> {
      quorumSet - rest - {nodeId}
    }

    /** One round of the loop over `quorum_set` with a request. */
    method SendRequestToNext(k: Key, rest: set<int>) returns (left: set<int>)
      requires rest != {} && rest <= quorumSet
      modifies this`outbox, this`control
      ensures left < rest
      ensures forall before :: old(outbox) == before + Broadcast(Reached(rest), Request(k)) ==>
                                 outbox == before + Broadcast(Reached(left), Request(k))
      ensures forall log :: old(control) == log + Stamp(timer, RequestCopies(|Reached(rest)|)) ==>
                              control == log + Stamp(timer, RequestCopies(|Reached(left)|))
    {
      HasElement(rest);
      var to :| to in rest;
      left := rest - {to};
      PassedOne(quorumSet, rest, to, nodeId);
      if to != nodeId {
        BroadcastOne(Reached(left), Request(k), to);
        forall log: seq<Stamped>
          ensures log + Stamp(timer, RequestCopies(|Reached(rest)|)) + Stamp(timer, [RequestCS])
               == log + Stamp(timer, RequestCopies(|Reached(left)|))
        {
          OneRequestMore(log, timer, |Reached(rest)|);
        }
        SendRequestTo(to, k);
      }
    }

    /** The same loop for a request, which also logs each recipient. */
    method SendRequestToOthers(k: Key)
      modifies this`outbox, this`control
      ensures outbox == old(outbox) + ToOthers(State(), Request(k))
      ensures control == old(control) + Stamp(timer, RequestLog(State()))
    {
      var rest := quorumSet;
      assert Reached(quorumSet) == {};
      while rest != {}
        invariant rest <= quorumSet
        invariant outbox == old(outbox) + Broadcast(Reached(rest), Request(k))
        invariant control == old(control) + Stamp(timer, RequestCopies(|Reached(rest)|))
        decreases |rest|
      {
        var left := SendRequestToNext(k, rest);
        Fewer(left, rest);
        rest := left;
      }
      assert Reached({}) == quorumSet - {nodeId};
    }

    // ----- handlers

    method EnqueueOwn() returns (k: Key)
      modifies this`nextSeq, this`waitingQueue, this`lockedFor, this`isLocked
      ensures k == Key(old(nextSeq), nodeId)
      ensures State() == MakProtocol.SendRequest(old(State())).node
    {
      k := Key(nextSeq, nodeId);
      nextSeq := nextSeq + 1;
      waitingQueue := waitingQueue + {k};
      lockedFor, isLocked := k, true;
    }

    method SendRequest()
      modifies this
      ensures Performed(MakProtocol.SendRequest(old(State())))
    {
      var k := EnqueueOwn();
      SendRequestToOthers(k);
    }

    method ReceiveRequest(k: Key)
      modifies this
      ensures Performed(MakProtocol.ReceiveRequest(old(State()), k))
    {
      waitingQueue := waitingQueue + {k};
      if isLocked {
        var first := First(waitingQueue);
        if first.from == k.from && first.seqno == k.seqno {
          if lockedFor.from != nodeId {
            Send(lockedFor.from, Inquire(nodeId));
          } else {
            lockedFor := k;
            Send(k.from, Lock(nodeId));
          }
        } else {
          Send(k.from, Fail(nodeId));
        }
      } else {
        isLocked := true;
        lockedFor := k;
        Send(k.from, Lock(nodeId));
      }
    }

    method AccessCriticalSection()
      modifies this
      ensures Performed(Enter(old(State())))
    {
      if isInCS {
        return;
      }
      isInCS := true;
      csTimer := settings.csTime;
      SendControl(AccessCS);
    }

    /** The scan of `response_map` for a FAIL. */
    method AnyRefusal() returns (found: bool)
      ensures found == State().HasRefusal()
    {
      var rest := responseMap.Keys;
      found := false;
      while rest != {}
        invariant rest <= responseMap.Keys
        invariant forall a :: a in responseMap.Keys - rest ==> responseMap[a] != FAIL
        decreases |rest|
      {
        HasElement(rest);
        var a :| a in rest;
        if responseMap[a] == FAIL {
          return true;
        }
        rest := rest - {a};
      }
    }

    method ReceiveLocked(from: int)
      modifies this
      ensures Performed(MakProtocol.ReceiveLocked(old(State()), from))
    {
      responseMap := responseMap[from := LOCK];
      if |responseMap| == |quorumSet| - 1 {
        var refused := AnyRefusal();
        if refused {
          return;
        }
        AccessCriticalSection();
      }
    }

    method ReceiveInquiry(from: int, unset: int)
      modifies this
      ensures Performed(MakProtocol.ReceiveInquiry(old(State()), from, unset))
    {
      if isInCS {
        return;
      }
      var refused := AnyRefusal();
      if refused {
        Send(from, Relinquish(nodeId));
        return;
      }
      inquiryList := inquiryList + {Key(unset, from)};
    }

    /** The loop over `inquiry_list`. */
    method AnswerInquiries(ghost relinquishes: multiset<Packet>)
      requires relinquishes == Relinquishes(nodeId, inquiryList)
      modifies this`outbox
      ensures outbox == old(outbox) + relinquishes
    {
      var rest := inquiryList;
      while rest != {}
        invariant rest <= inquiryList
        invariant outbox + Relinquishes(nodeId, rest) == old(outbox) + Relinquishes(nodeId, inquiryList)
        decreases |rest|
      {
        var k := First(rest);
        Send(k.from, Relinquish(nodeId));
        rest := rest - {k};
      }
    }

    method ReceiveFailed(from: int)
      modifies this
      ensures Performed(MakProtocol.ReceiveFailed(old(State()), from))
    {
      ghost var relinquishes := Relinquishes(nodeId, inquiryList);
      responseMap := responseMap[from := FAIL];
      AnswerInquiries(relinquishes);
      inquiryList := {};
      assert control == old(control) + Stamp(timer, []);
    }

    method ReceiveRelinquish()
      requires waitingQueue != {}
      modifies this
      ensures Performed(MakProtocol.ReceiveRelinquish(old(State())))
    {
      var first := First(waitingQueue);
      lockedFor := first;
      isLocked := true;
      Send(first.from, Lock(nodeId));
    }

    /** The scan of the queue from `begin()` that erases the first entry of `from`. */
    method EraseFrom(from: int)
      modifies this`waitingQueue
      ensures waitingQueue == EraseFirstFrom(old(waitingQueue), from)
    {
      var rest := waitingQueue;
      while rest != {}
        invariant rest <= waitingQueue == old(waitingQueue)
        invariant SentBy(waitingQueue, from) == SentBy(rest, from)
        decreases |rest|
      {
        var k := First(rest);
        if k.from == from {
          FirstIsUnique(SentBy(waitingQueue, from), k);
          assert k in SentBy(waitingQueue, from);
          waitingQueue := waitingQueue - {k};
          return;
        }
        rest := rest - {k};
      }
    }

    method ReceiveRelease(from: int)
      modifies this
      ensures Performed(MakProtocol.ReceiveRelease(old(State()), from))
    {
      EraseFrom(from);
      if waitingQueue == {} {
        isLocked := false;
        lockedFor := NOBODY;
      } else {
        var first := First(waitingQueue);
        lockedFor := first;
        if first.from != nodeId {
          Send(first.from, Lock(nodeId));
        }
      }
    }

    /** The vote goes to the first request left in the queue: the node's own is sent out
        again, another node's is answered. */
    method VoteForFirst()
      requires waitingQueue != {}
      modifies this`isLocked, this`lockedFor, this`outbox, this`control
      ensures isLocked && lockedFor == First(waitingQueue)
      ensures lockedFor.from == nodeId ==>
                && outbox == old(outbox) + ToOthers(old(State()), Request(lockedFor))
                && control == old(control) + Stamp(timer, RequestLog(old(State())))
      ensures lockedFor.from != nodeId ==>
                && outbox == old(outbox) + multiset{Packet(lockedFor.from, Lock(nodeId))}
                && control == old(control)
    {
      var first := First(waitingQueue);
      isLocked := true;
      lockedFor := first;
      if first.from == nodeId {
        SendRequestToOthers(first);
      } else {
        Send(first.from, Lock(nodeId));
      }
    }

    method ResetFields()
      requires waitingQueue != {}
      modifies this`isLocked, this`responseMap, this`inquiryList, this`lockedFor, this`waitingQueue, this`isInCS
      ensures State() == Reset(old(State()))
    {
      isLocked := false;
      responseMap := map[];
      inquiryList := {};
      lockedFor := NOBODY;
      waitingQueue := waitingQueue - {First(waitingQueue)};
      isInCS := false;
    }

    method CloseSection()
      requires waitingQueue != {}
      modifies this
      ensures State() == Reset(old(State()))
      ensures outbox == old(outbox) + ToOthers(old(State()), Release(nodeId))
      ensures control == old(control) + Stamp(timer, [FinishCS])
      ensures timer == old(timer) && numReq == old(numReq) && csTimer == old(csTimer)
    {
      SendControl(FinishCS);
      ResetFields();
      SendToOthers(Release(nodeId));
    }

    method FinishCriticalSection()
      requires waitingQueue != {}
      modifies this
      ensures Performed(Leave(old(State())))
    {
      CloseSection();
      if waitingQueue != {} {
        StampConcat(timer, [FinishCS], RequestLog(State()));
        VoteForFirst();
      }
    }

    method Receive(m: Message, unset: int)
      requires CanReceive(State(), m)
      modifies this
      ensures Performed(MakProtocol.Receive(old(State()), m, unset))
    {
      match m
      case Request(k) => ReceiveRequest(k);
      case Release(from) => ReceiveRelease(from);
      case Lock(from) => ReceiveLocked(from);
      case Fail(from) => ReceiveFailed(from);
      case Inquire(from) => ReceiveInquiry(from, unset);
      case Relinquish(_) => ReceiveRelinquish();
    }

    // ----- texts

    method StringMessage(text: string, unset: int) returns (w: MakCodec.Wire)
      ensures w == MakCodec.Decode(text, unset)
    {
      var rest := text;
      var kind := Text.Atoi(Text.Head(rest));
      rest := Text.Rest(rest);
      var from, number := 0, unset;
      if kind == MakCodec.REQUEST {
        from := Text.Atoi(Text.Head(rest));
        rest := Text.Rest(rest);
        number := Text.Atoi(rest);
      } else {
        from := Text.Atoi(Text.Head(rest));
      }
      w := MakCodec.Wire(kind, from, number);
    }

    /** `receive_message`: a text is decoded and dispatched on its type; a text of another type is
        ignored. `unset` stands for the fields that decoding leaves unset. */
    method ReceiveMessage(text: string, unset: int)
      requires forall m :: m in MakCodec.Meaning(MakCodec.Decode(text, unset)) ==> CanReceive(State(), m)
      modifies this
      ensures forall m :: m in MakCodec.Meaning(MakCodec.Decode(text, unset)) ==>
                            Performed(MakProtocol.Receive(old(State()), m, MakCodec.Decode(text, unset).seqno))
      ensures MakCodec.Meaning(MakCodec.Decode(text, unset)) == {} ==>
                Performed(Outcome(old(State()), multiset{}, []))
    {
      var w := StringMessage(text, unset);
      if w.kind == MakCodec.REQUEST {
        assert Request(Key(w.seqno, w.from)) in MakCodec.Meaning(w);
        ReceiveRequest(Key(w.seqno, w.from));
      } else if w.kind == MakCodec.RELEASE {
        assert Release(w.from) in MakCodec.Meaning(w);
        ReceiveRelease(w.from);
      } else if w.kind == MakCodec.LOCKED {
        assert Lock(w.from) in MakCodec.Meaning(w);
        ReceiveLocked(w.from);
      } else if w.kind == MakCodec.FAILED {
        assert Fail(w.from) in MakCodec.Meaning(w);
        ReceiveFailed(w.from);
      } else if w.kind == MakCodec.INQUIRE {
        assert Inquire(w.from) in MakCodec.Meaning(w);
        ReceiveInquiry(w.from, w.seqno);
      } else if w.kind == MakCodec.RELINQUISH {
        assert Relinquish(w.from) in MakCodec.Meaning(w);
        ReceiveRelinquish();
      }
    }

    /** The text of `m` has the effect of `m`. */
    method ReceiveText(text: string, unset: int, ghost m: Message)
      requires text == MakCodec.Encode(m) && CanReceive(State(), m)
      modifies this
      ensures Performed(MakProtocol.Receive(old(State()), m, unset))
    {
      MakCodec.RoundTrip(m, unset);
      assert m in MakCodec.Meaning(MakCodec.Decode(text, unset));
      ReceiveMessage(text, unset);
    }

    // ----- the main loop

    /** Handles the queued messages; false when one of them is undefined. */
    method HandleArrivals(arrivals: seq<Arrival>) returns (ok: bool)
      modifies this
      ensures var handled := HandleAll(old(Snapshot()), settings, arrivals);
              ok == handled.Some? && (ok ==> Snapshot() == handled.value)
    {
      var j := 0;
      while j < |arrivals|
        invariant 0 <= j <= |arrivals|
        invariant HandleAll(old(Snapshot()), settings, arrivals) == HandleAll(Snapshot(), settings, arrivals[j..])
      {
        var a := arrivals[j];
        assert arrivals[j..][0] == a && arrivals[j..][1..] == arrivals[j + 1..];
        if a.msg.Relinquish? && waitingQueue == {} {
          return false;
        }
        label before:
        Receive(a.msg, a.unset);
        assert Snapshot() == Handle(old@before(Snapshot()), settings, a);
        j := j + 1;
      }
      ok := true;
    }

    /** The countdown of the critical section; false when finishing is undefined. */
    method CountDownSection() returns (ok: bool)
      modifies this
      ensures var counted := CountDown(old(Snapshot()));
              ok == counted.Some? && (ok ==> Snapshot() == counted.value)
    {
      if csTimer == 0 && isInCS {
        if waitingQueue == {} {
          return false;
        }
        FinishCriticalSection();
      } else if csTimer > 0 {
        csTimer := csTimer - 1;
      }
      ok := true;
    }

    method IssueIfScheduled()
      modifies this
      ensures Snapshot() == AskIfScheduled(old(Snapshot()), settings)
    {
      if timer in settings.schedule {
        numReq := numReq + 1;
        label counted:
        SendRequest();
        assert State() == MakProtocol.SendRequest(old(State())).node;
      }
    }

    method OneRound(arrivals: seq<Arrival>) returns (ok: bool)
      modifies this
      ensures var result := Round(old(Snapshot()), settings, arrivals);
              ok == result.Some? && (ok ==> Snapshot() == result.value)
    {
      ok := HandleArrivals(arrivals);
      if ok {
        ok := FinishRound();
      }
    }

    /** What a round does after the arrivals. */
    method FinishRound() returns (ok: bool)
      modifies this
      ensures var result := RestOfRound(old(Snapshot()), settings);
              ok == result.Some? && (ok ==> Snapshot() == result.value)
    {
      timer := timer + 1;
      ok := CountDownSection();
      if ok {
        IssueIfScheduled();
      }
    }

    /** Runs until the clock stops; false when an undefined operation is met on the way. */
    method Run(arrivals: nat -> seq<Arrival>) returns (ok: bool)
      modifies this
      ensures var result := Rounds(old(Snapshot()).(timer := 0, csTimer := 0), settings, arrivals, LAST_TICK);
              ok == result.Some? && (ok ==> Snapshot() == result.value && timer == 60000)
      ensures ok && old(control) == [] && old(outbox) == multiset{} ==>
                && MakLoop.AllAsked(old(Snapshot()), settings, LAST_TICK, Snapshot())
                && ControlCount(Controls(control)) == MakDuties.RequestCount(outbox)
    {
      ghost var first := Snapshot();
      timer, csTimer := 0, 0;
      ghost var start := Snapshot();
      while timer < LAST_TICK
        invariant timer <= LAST_TICK
        invariant Rounds(start, settings, arrivals, timer) == Some(Snapshot())
        decreases LAST_TICK - timer
      {
        ghost var t := timer;
        ghost var before := Snapshot();
        ok := OneRound(arrivals(timer));
        RoundsGoOn(start, settings, arrivals, t, before, LAST_TICK);
        if !ok {
          return;
        }
      }
      if first.control == [] && first.sent == multiset{} {
        MakLoop.ResetKeepsSchedule(first, settings, arrivals, LAST_TICK, Snapshot());
      }
      ok := true;
    }
  }
}
