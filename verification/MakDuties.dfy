/** What a voting node must do at each event, told from its queue and its vote: which requests are
    queued afterwards, whose turn it is, and how often each packet is sent. */
module MakDuties {
  import opened Priority
  import opened ControlLog
  import opened MakProtocol
  import opened MakHistory
  import opened Options
  import opened Sums

  predicate IsOther(n: Node, q: int) { q in n.quorum && q != n.id }

  // ----- the queue

  /** `e` takes `k` out of the queue: a RELEASE the sender's first request, finishing the first of all. */
  predicate Removes(e: Event, queue: set<Key>, k: Key) {
    match e
    case Got(Release(from), _) => IsFirst(SentBy(queue, from), k)
    case Finished => IsFirst(queue, k)
    case _ => false
  }

  predicate Adds(n: Node, e: Event, k: Key) {
    match e
    case Got(Request(key), _) => k == key
    case Issued => k == Key(n.nextSeq, n.id)
    case _ => false
  }

  lemma FirstIsTheFirst(s: set<Key>, k: Key)
    requires s != {}
    ensures IsFirst(s, k) <==> k == First(s)
  {
    if IsFirst(s, k) {
      FirstIsUnique(s, k);
    }
  }

  lemma ErasedIsFirst(queue: set<Key>, from: int, k: Key)
    ensures k in EraseFirstFrom(queue, from) <==> k in queue && !IsFirst(SentBy(queue, from), k)
  {
    if SentBy(queue, from) != {} {
      FirstIsTheFirst(SentBy(queue, from), k);
    }
  }

  /** The queue after an event, exactly. */
  lemma QueueStep(n: Node, e: Event, k: Key)
    requires Defined(n, e)
    ensures k in Effect(n, e).node.waiting <==> (k in n.waiting && !Removes(e, n.waiting, k)) || Adds(n, e, k)
  {
    match e
    case Got(Release(from), _) => ErasedIsFirst(n.waiting, from, k);
    case Got(Request(key), _) =>
    case Got(m, unset) => QueueUntouched(n, m, unset);
    case Issued =>
    case Finished => FirstIsTheFirst(n.waiting, k);
  }

  lemma QueueUntouched(n: Node, m: Message, unset: int)
    requires CanReceive(n, m) && !m.Request? && !m.Release?
    ensures Receive(n, m, unset).node.waiting == n.waiting
  {
  }

  /** A queued request stays until its sender releases or the node finishes a section. */
  lemma {:induction false} StaysQueued(n: Node, h: seq<Event>, k: Key)
    requires Possible(n, h) && k in n.waiting
    requires forall e :: e in h ==> !e.Finished? && !(e.Got? && e.msg == Release(k.from))
    ensures k in State(n, h).waiting
    decreases |h|
  {
    if h != [] {
      assert Last(h) in h;
      StaysQueued(n, Init(h), k);
      QueueStep(State(n, Init(h)), Last(h), k);
    }
  }

  /** Every queued request has been received or issued. */
  lemma {:induction false} QueuedWasAsked(id: int, quorum: set<int>, h: seq<Event>, k: Key)
    requires Possible(NewNode(id, quorum), h) && k in State(NewNode(id, quorum), h).waiting
    ensures (k.from == id && 1 <= k.seqno <= TimesIssued(h)) || exists e :: e in h && e.Got? && e.msg == Request(k)
    decreases |h|
  {
    if h != [] {
      var before := State(NewNode(id, quorum), Init(h));
      Numbers(id, quorum, Init(h));
      QueueStep(before, Last(h), k);
      if k in before.waiting {
        QueuedWasAsked(id, quorum, Init(h), k);
      } else {
        assert Last(h) in h;
      }
    }
  }

  // ----- issuing and answering requests

  lemma IssueSends(n: Node, p: Packet)
    ensures Effect(n, Issued).sent[p] == One(p.msg == Request(Key(n.nextSeq, n.id)) && IsOther(n, p.to))
    ensures Effect(n, Issued).control == RequestCopies(|n.quorum - {n.id}|)
    ensures var after := Effect(n, Issued).node; after.isLocked && after.lockedFor == Key(n.nextSeq, n.id)
  {
    BroadcastCount(n.quorum - {n.id}, Request(Key(n.nextSeq, n.id)), p);
  }

  /** `k` goes before all other requests of the queue. */
  predicate GoesFirst(queue: set<Key>, k: Key) {
    forall other :: other in queue ==> other == k || Before(k, other)
  }

  /** A request is answered once: granted by a free node, granted over the node's own request if it
      goes first, refused if it does not, and else followed by an inquiry to whoever has the vote. */
  lemma RequestAnswered(n: Node, k: Key, unset: int)
    ensures var o := Effect(n, Got(Request(k), unset));
            var grants := !n.isLocked || (GoesFirst(n.waiting, k) && n.lockedFor.from == n.id);
            && (grants ==> o.sent == multiset{Packet(k.from, Lock(n.id))} && o.node.isLocked && o.node.lockedFor == k)
            && (!grants ==> o.node.isLocked == n.isLocked && o.node.lockedFor == n.lockedFor)
            && (!grants && !GoesFirst(n.waiting, k) ==> o.sent == multiset{Packet(k.from, Fail(n.id))})
            && (!grants && GoesFirst(n.waiting, k) ==> o.sent == multiset{Packet(n.lockedFor.from, Inquire(n.id))})
  {
    FirstIsTheFirst(n.waiting + {k}, k);
    assert IsFirst(n.waiting + {k}, k) <==> GoesFirst(n.waiting, k);
  }

  /** An answer or an inquiry leaves the vote where it is and sends nothing but RELINQUISHes. */
  lemma AnswerKeepsVote(n: Node, m: Message, unset: int, p: Packet)
    requires m.Lock? || m.Fail? || m.Inquire?
    ensures var o := Effect(n, Got(m, unset));
            && o.node.isLocked == n.isLocked && o.node.lockedFor == n.lockedFor
            && (p in o.sent ==> p.msg == Relinquish(n.id))
  {
    if m.Fail? {
      RelinquishesCount(n.id, n.inquiries, p);
    }
  }

  // ----- serving the next request

  /** The first of the requests that are left, if any is. */
  ghost predicate NextIs(left: set<Key>, next: Option<Key>) {
    if next.None? then left == {} else IsFirst(left, next.value)
  }

  /** The vote goes to the request whose turn it is. */
  predicate VotesFor(n: Node, next: Option<Key>) {
    if next.None? then !n.isLocked && n.lockedFor == NOBODY else n.isLocked && n.lockedFor == next.value
  }

  /** After a RELEASE the first request left gets the vote, and a LOCK unless it is the node's own. */
  lemma ReleaseServes(n: Node, from: int, unset: int, next: Option<Key>)
    requires VoteFollows(n)
    requires NextIs(Effect(n, Got(Release(from), unset)).node.waiting, next)
    ensures var o := Effect(n, Got(Release(from), unset));
            && VotesFor(o.node, next)
            && o.sent == (if next.Some? && next.value.from != n.id then multiset{Packet(next.value.from, Lock(n.id))}
                          else multiset{})
  {
    var left := EraseFirstFrom(n.waiting, from);
    if left != {} {
      FirstIsTheFirst(left, next.value);
    }
  }

  /** A node with requests has given its vote. */
  predicate VoteFollows(n: Node) { n.waiting != {} ==> n.isLocked }

  /** A RELINQUISH gives the vote to the first request of the queue. */
  lemma RelinquishServes(n: Node, from: int, unset: int, k: Key)
    requires IsFirst(n.waiting, k)
    ensures var o := Effect(n, Got(Relinquish(from), unset));
            VotesFor(o.node, Some(k)) && o.sent == multiset{Packet(k.from, Lock(n.id))}
  {
    FirstIsTheFirst(n.waiting, k);
  }

  /** Finishing a section: one RELEASE to every other member; the next request of the node's own is
      sent out to all of them, with one control message each; another node's next request gets a
      LOCK; and nothing else is sent. */
  lemma FinishServes(n: Node, next: Option<Key>, p: Packet)
    requires n.waiting != {} && NextIs(Effect(n, Finished).node.waiting, next)
    ensures VotesFor(Effect(n, Finished).node, next) && !Effect(n, Finished).node.inCS
    ensures Effect(n, Finished).sent[p] ==
            One(p.msg == Release(n.id) && IsOther(n, p.to))
            + One(next.Some? && next.value.from == n.id && p.msg == Request(next.value) && IsOther(n, p.to))
            + One(next.Some? && next.value.from != n.id && p == Packet(next.value.from, Lock(n.id)))
    ensures Effect(n, Finished).control == [FinishCS] +
            if next.Some? && next.value.from == n.id then RequestCopies(|n.quorum - {n.id}|) else []
  {
    BroadcastCount(n.quorum - {n.id}, Release(n.id), p);
    var left := n.waiting - {First(n.waiting)};
    if left != {} {
      FirstIsTheFirst(left, next.value);
      BroadcastCount(n.quorum - {n.id}, Request(next.value), p);
    }
  }

  // ----- one control message per REQUEST

  ghost function RequestCount(sent: multiset<Packet>): nat
    decreases |sent|
  {
    if sent == multiset{} then 0 else
    var p :| p in sent;
    One(p.msg.Request?) + RequestCount(sent - multiset{p})
  }

  lemma {:induction false} CountWithout(sent: multiset<Packet>, q: Packet)
    requires q in sent
    ensures RequestCount(sent) == One(q.msg.Request?) + RequestCount(sent - multiset{q})
    decreases |sent|
  {
    var p :| p in sent && RequestCount(sent) == One(p.msg.Request?) + RequestCount(sent - multiset{p});
    if p != q {
      CountWithout(sent - multiset{p}, q);
      CountWithout(sent - multiset{q}, p);
      assert sent - multiset{p} - multiset{q} == sent - multiset{q} - multiset{p};
    }
  }

  lemma {:induction false} CountsAdd(a: multiset<Packet>, b: multiset<Packet>)
    ensures RequestCount(a + b) == RequestCount(a) + RequestCount(b)
    decreases |b|
  {
    if b == multiset{} {
      assert a + b == a;
    } else {
      var p :| p in b;
      CountWithout(b, p);
      CountWithout(a + b, p);
      assert a + b - multiset{p} == a + (b - multiset{p});
      CountsAdd(a, b - multiset{p});
    }
  }

  lemma {:induction false} NoRequests(sent: multiset<Packet>)
    requires forall p :: p in sent ==> !p.msg.Request?
    ensures RequestCount(sent) == 0
    decreases |sent|
  {
    if sent != multiset{} {
      var p :| p in sent;
      CountWithout(sent, p);
      NoRequests(sent - multiset{p});
    }
  }

  lemma {:induction false} BroadcastRequests(members: set<int>, m: Message)
    ensures RequestCount(Broadcast(members, m)) == if m.Request? then |members| else 0
    decreases |members|
  {
    if members == {} {
      assert Broadcast(members, m) == multiset{};
    } else {
      HasElement(members);
      var q :| q in members;
      BroadcastOne(members, m, q);
      BroadcastRequests(members - {q}, m);
      CountWithout(Broadcast(members, m), Packet(q, m));
      assert Broadcast(members, m) - multiset{Packet(q, m)} == Broadcast(members - {q}, m);
    }
  }

  lemma ReceptionSendsNoRequest(n: Node, m: Message, unset: int, p: Packet)
    requires CanReceive(n, m) && p in Receive(n, m, unset).sent
    ensures !p.msg.Request?
  {
    if m.Fail? {
      RelinquishesCount(n.id, n.inquiries, p);
    }
  }

  /** Every event logs exactly one request control message per REQUEST it sends. */
  lemma ControlPerRequest(n: Node, e: Event)
    requires Defined(n, e)
    ensures RequestCount(Effect(n, e).sent) == ControlCount(Effect(n, e).control)
  {
    match e
    case Issued =>
      BroadcastRequests(n.quorum - {n.id}, Request(Key(n.nextSeq, n.id)));
      CopiesCount(|n.quorum - {n.id}|);
    case Got(m, unset) =>
      forall p | p in Receive(n, m, unset).sent ensures !p.msg.Request? {
        ReceptionSendsNoRequest(n, m, unset, p);
      }
      NoRequests(Receive(n, m, unset).sent);
      ReceptionLogsNoRequest(n, m, unset);
    case Finished =>
      FinishCounts(n);
  }

  lemma ReceptionLogsNoRequest(n: Node, m: Message, unset: int)
    requires CanReceive(n, m)
    ensures ControlCount(Receive(n, m, unset).control) == 0
  {
    assert Receive(n, m, unset).control == [] || Receive(n, m, unset).control == [AccessCS];
    assert [AccessCS][..0] == [];
  }

  lemma FinishCounts(n: Node)
    requires n.waiting != {}
    ensures RequestCount(Leave(n).sent) == ControlCount(Leave(n).control)
  {
    var others := n.quorum - {n.id};
    var left := n.waiting - {First(n.waiting)};
    BroadcastRequests(others, Release(n.id));
    assert [FinishCS][..0] == [] && ControlCount([FinishCS]) == 0;
    if left != {} {
      var next := First(left);
      if next.from == n.id {
        BroadcastRequests(others, Request(next));
        CountsAdd(Broadcast(others, Release(n.id)), Broadcast(others, Request(next)));
        CopiesCount(|others|);
        ControlsAdd([FinishCS], RequestCopies(|others|));
      } else {
        NoRequests(multiset{Packet(next.from, Lock(n.id))});
        CountsAdd(Broadcast(others, Release(n.id)), multiset{Packet(next.from, Lock(n.id))});
      }
    }
  }
}
