/** The Maekawa-style voting node as a pure transition function: what each handler of
    `MAKNode` does to the node's state, what it puts on the network and which control
    messages it logs. Class `MakNode.MAKNode` is verified against these functions. */
module MakProtocol {
  import opened Priority
  import opened ControlLog

  datatype Answer = LOCK | FAIL

  datatype Message =
    | Request(key: Key)
    | Release(from: int)
    | Lock(from: int)
    | Fail(from: int)
    | Inquire(from: int)
    | Relinquish(from: int)
  {
    function Sender(): int {
      if Request? then key.from else from
    }
  }

  datatype Packet = Packet(to: int, msg: Message)

  /** `locked_for == (-1, -1)`: this arbiter's vote is not given. */
  const NOBODY: Key := Key(-1, -1)

  datatype Node = Node(
    id: int,
    quorum: set<int>,
    nextSeq: int,
    isLocked: bool,
    lockedFor: Key,
    responses: map<int, Answer>,
    waiting: set<Key>,
    inquiries: set<Key>,
    inCS: bool)
  {
    predicate HasRefusal() {
      exists a :: a in responses && responses[a] == FAIL
    }
  }

  function NewNode(id: int, quorum: set<int>): Node {
    Node(id, quorum, 1, false, NOBODY, map[], {}, {}, false)
  }

  datatype Outcome = Outcome(node: Node, sent: multiset<Packet>, control: seq<Control>)

  /** One copy of a message to each of the members. */
  function Broadcast(members: set<int>, m: Message): multiset<Packet> {
    multiset(set q | q in members :: Packet(q, m))
  }

  lemma BroadcastCount(members: set<int>, m: Message, p: Packet)
    ensures Broadcast(members, m)[p] == if p.msg == m && p.to in members then 1 else 0
  {
    var ps := set q | q in members :: Packet(q, m);
    assert p in ps <==> p.msg == m && p.to in members by {
      if p.msg == m && p.to in members {
        assert p == Packet(p.to, m);
      }
    }
  }

  lemma BroadcastOne(members: set<int>, m: Message, to: int)
    requires to in members
    ensures Broadcast(members, m) == Broadcast(members - {to}, m) + multiset{Packet(to, m)}
  {
    var all := set q | q in members :: Packet(q, m);
    var others := set q | q in members - {to} :: Packet(q, m);
    assert all == others + {Packet(to, m)} && Packet(to, m) !in others;
  }

  function ToOthers(n: Node, m: Message): multiset<Packet> {
    Broadcast(n.quorum - {n.id}, m)
  }

  /** One RequestCS control message per recipient of a request. */
  function RequestLog(n: Node): seq<Control> {
    RequestCopies(|n.quorum - {n.id}|)
  }

  /** One RELINQUISH for every recorded inquiry, repeated inquirers included. */
  function Relinquishes(id: int, inquiries: set<Key>): multiset<Packet>
    decreases |inquiries|
  {
    if inquiries == {} then multiset{} else
    var k := First(inquiries);
    multiset{Packet(k.from, Relinquish(id))} + Relinquishes(id, inquiries - {k})
  }

  lemma {:induction false} RelinquishesCount(id: int, inquiries: set<Key>, p: Packet)
    ensures Relinquishes(id, inquiries)[p] ==
            if p.msg == Relinquish(id) then |SentBy(inquiries, p.to)| else 0
    decreases |inquiries|
  {
    if inquiries == {} {
      assert SentBy(inquiries, p.to) == {};
    } else {
      var k := First(inquiries);
      RelinquishesCount(id, inquiries - {k}, p);
      if k.from == p.to {
        assert SentBy(inquiries, p.to) == SentBy(inquiries - {k}, p.to) + {k};
      } else {
        assert SentBy(inquiries, p.to) == SentBy(inquiries - {k}, p.to);
      }
    }
  }

  // ----- handlers

  function SendRequest(n: Node): Outcome {
    var k := Key(n.nextSeq, n.id);
    Outcome(
      n.(nextSeq := n.nextSeq + 1, waiting := n.waiting + {k}, lockedFor := k, isLocked := true),
      ToOthers(n, Request(k)),
      RequestLog(n))
  }

  function ReceiveRequest(n: Node, k: Key): Outcome {
    var queued := n.(waiting := n.waiting + {k});
    if !n.isLocked then
      Outcome(queued.(isLocked := true, lockedFor := k), multiset{Packet(k.from, Lock(n.id))}, [])
    else if First(queued.waiting) != k then
      Outcome(queued, multiset{Packet(k.from, Fail(n.id))}, [])
    else if n.lockedFor.from != n.id then
      Outcome(queued, multiset{Packet(n.lockedFor.from, Inquire(n.id))}, [])
    else
      Outcome(queued.(lockedFor := k), multiset{Packet(k.from, Lock(n.id))}, [])
  }

  function Enter(n: Node): Outcome {
    if n.inCS then Outcome(n, multiset{}, [])
    else Outcome(n.(inCS := true), multiset{}, [AccessCS])
  }

  function ReceiveLocked(n: Node, from: int): Outcome {
    var answered := n.(responses := n.responses[from := LOCK]);
    if |answered.responses| == |n.quorum| - 1 && !answered.HasRefusal() then Enter(answered)
    else Outcome(answered, multiset{}, [])
  }

  /** `unset` is the value of the INQUIRE message's `seq` field, which no code assigns. */
  function ReceiveInquiry(n: Node, from: int, unset: int): Outcome {
    if n.inCS then Outcome(n, multiset{}, [])
    else if n.HasRefusal() then Outcome(n, multiset{Packet(from, Relinquish(n.id))}, [])
    else Outcome(n.(inquiries := n.inquiries + {Key(unset, from)}), multiset{}, [])
  }

  function ReceiveFailed(n: Node, from: int): Outcome {
    Outcome(
      n.(responses := n.responses[from := FAIL], inquiries := {}),
      Relinquishes(n.id, n.inquiries),
      [])
  }

  /** Reads `*begin()`, so it is defined only on a non-empty queue. */
  function ReceiveRelinquish(n: Node): Outcome
    requires n.waiting != {}
  {
    var first := First(n.waiting);
    Outcome(n.(lockedFor := first, isLocked := true), multiset{Packet(first.from, Lock(n.id))}, [])
  }

  function ReceiveRelease(n: Node, from: int): Outcome {
    var left := EraseFirstFrom(n.waiting, from);
    if left == {} then
      Outcome(n.(waiting := left, isLocked := false, lockedFor := NOBODY), multiset{}, [])
    else
      var first := First(left);
      Outcome(
        n.(waiting := left, lockedFor := first),
        if first.from != n.id then multiset{Packet(first.from, Lock(n.id))} else multiset{},
        [])
  }

  /** Erases `begin()`, so it is defined only on a non-empty queue. */
  function Reset(n: Node): Node
    requires n.waiting != {}
  {
    n.(isLocked := false, lockedFor := NOBODY, responses := map[], inquiries := {},
       waiting := n.waiting - {First(n.waiting)}, inCS := false)
  }

  function Leave(n: Node): Outcome
    requires n.waiting != {}
  {
    var reset := Reset(n);
    var releases := ToOthers(n, Release(n.id));
    if reset.waiting == {} then
      Outcome(reset, releases, [FinishCS])
    else
      var first := First(reset.waiting);
      var voted := reset.(isLocked := true, lockedFor := first);
      if first.from == n.id then
        Outcome(voted, releases + ToOthers(n, Request(first)), [FinishCS] + RequestLog(n))
      else
        Outcome(voted, releases + multiset{Packet(first.from, Lock(n.id))}, [FinishCS])
  }

  /** The only undefined reception: a RELINQUISH on an empty queue. */
  predicate CanReceive(n: Node, m: Message) {
    m.Relinquish? ==> n.waiting != {}
  }

  function Receive(n: Node, m: Message, unset: int): Outcome
    requires CanReceive(n, m)
  {
    match m
    case Request(k) => ReceiveRequest(n, k)
    case Release(from) => ReceiveRelease(n, from)
    case Lock(from) => ReceiveLocked(n, from)
    case Fail(from) => ReceiveFailed(n, from)
    case Inquire(from) => ReceiveInquiry(n, from, unset)
    case Relinquish(_) => ReceiveRelinquish(n)
  }
}
