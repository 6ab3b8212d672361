/** All nodes of one run of the Maekawa algorithm together with the network: a bag of packets
    that may be delivered in any order or lost, and is never duplicated. */
module MakSystem {
  import opened Priority
  import opened MakProtocol

  type Quorums = map<int, set<int>>

  datatype System = System(nodes: map<int, Node>, net: multiset<Packet>)

  datatype Action =
    | Ask(id: int)                           // the schedule makes a node call send_request
    | Deliver(packet: Packet, unset: int)    // `unset` stands for uninitialised message fields
    | Finish(id: int)                        // a node in its critical section calls finishCS
    | Lose(packet: Packet)

  function Start(quorums: Quorums): System {
    System(map i | i in quorums :: NewNode(i, quorums[i]), multiset{})
  }

  predicate Enabled(s: System, a: Action) {
    match a
    case Ask(i) => i in s.nodes
    case Deliver(p, _) => p in s.net && (p.to in s.nodes ==> CanReceive(s.nodes[p.to], p.msg))
    case Finish(i) => i in s.nodes && s.nodes[i].inCS && s.nodes[i].waiting != {}
    case Lose(p) => p in s.net
  }

  function Apply(s: System, o: Outcome): System {
    System(s.nodes[o.node.id := o.node], s.net + o.sent)
  }

  function Next(s: System, a: Action): System
    requires Enabled(s, a)
  {
    match a
    case Ask(i) => Apply(s, SendRequest(s.nodes[i]))
    case Deliver(p, unset) =>
      var taken := s.(net := s.net - multiset{p});
      if p.to in s.nodes then Apply(taken, Receive(s.nodes[p.to], p.msg, unset)) else taken
    case Finish(i) => Apply(s, Leave(s.nodes[i]))
    case Lose(p) => s.(net := s.net - multiset{p})
  }

  predicate Feasible(s: System, acts: seq<Action>)
    decreases |acts|
  {
    acts == [] || (Enabled(s, acts[0]) && Feasible(Next(s, acts[0]), acts[1..]))
  }

  function After(s: System, acts: seq<Action>): System
    requires Feasible(s, acts)
    decreases |acts|
  {
    if acts == [] then s else After(Next(s, acts[0]), acts[1..])
  }

  lemma {:induction false} Concatenate(s: System, first: seq<Action>, second: seq<Action>)
    requires Feasible(s, first) && Feasible(After(s, first), second)
    ensures Feasible(s, first + second)
    ensures After(s, first + second) == After(After(s, first), second)
    decreases |first|
  {
    if first == [] {
      assert first + second == second;
    } else {
      var both := first + second;
      assert both[0] == first[0] && both[1..] == first[1..] + second;
      Concatenate(Next(s, first[0]), first[1..], second);
    }
  }

  // ----- the invariant of every run

  ghost predicate OwnMember(quorums: Quorums) {
    forall i :: i in quorums ==> i in quorums[i]
  }

  function Seqs(s: System): map<int, int> {
    map i | i in s.nodes :: s.nodes[i].nextSeq
  }

  /** `k` is the key of a request that its sender issued and that is addressed to `arbiter`. */
  ghost predicate Addressed(quorums: Quorums, seqs: map<int, int>, k: Key, arbiter: int) {
    k.from in quorums && k.from in seqs && arbiter in quorums[k.from] && 1 <= k.seqno < seqs[k.from]
  }

  /** The three places that record whether the vote is given agree with one another. */
  ghost predicate VoteAgrees(n: Node) {
    && (n.isLocked <==> n.waiting != {})
    && (n.isLocked <==> n.lockedFor != NOBODY)
    && (n.isLocked ==> n.lockedFor in n.waiting)
  }

  ghost predicate NodeOk(quorums: Quorums, seqs: map<int, int>, n: Node) {
    && n.id in quorums && n.id in seqs
    && n.quorum == quorums[n.id]
    && 1 <= n.nextSeq == seqs[n.id]
    && VoteAgrees(n)
    && n.responses.Keys <= n.quorum
    && (forall k :: k in n.waiting ==> Addressed(quorums, seqs, k, n.id))
    && (forall k :: k in n.inquiries ==> k.from in n.quorum)
  }

  ghost predicate PacketOk(quorums: Quorums, seqs: map<int, int>, p: Packet) {
    match p.msg
    case Request(k) => p.to != k.from && Addressed(quorums, seqs, k, p.to)
    case Release(from) => p.to != from && from in quorums && p.to in quorums[from]
    case Lock(from) => p.to in quorums && from in quorums[p.to]
    case Fail(from) => p.to != from && p.to in quorums && from in quorums[p.to]
    case Inquire(from) => p.to != from && p.to in quorums && from in quorums[p.to]
    case Relinquish(from) => from in quorums && p.to in quorums[from]
  }

  ghost predicate Inv(quorums: Quorums, s: System) {
    && s.nodes.Keys == quorums.Keys
    && (forall i :: i in s.nodes ==> s.nodes[i].id == i && NodeOk(quorums, Seqs(s), s.nodes[i]))
    && (forall p :: p in s.net ==> PacketOk(quorums, Seqs(s), p))
  }

  ghost predicate OutcomeOk(quorums: Quorums, seqs: map<int, int>, n: Node, o: Outcome) {
    && o.node.id == n.id
    && NodeOk(quorums, seqs, o.node)
    && (forall p :: p in o.sent ==> PacketOk(quorums, seqs, p))
  }

  lemma ReceiveRequestOk(quorums: Quorums, seqs: map<int, int>, n: Node, k: Key)
    requires OwnMember(quorums) && NodeOk(quorums, seqs, n)
    requires PacketOk(quorums, seqs, Packet(n.id, Request(k)))
    ensures OutcomeOk(quorums, seqs, n, ReceiveRequest(n, k))
  {
    var o := ReceiveRequest(n, k);
    assert k in o.node.waiting;
    assert VoteAgrees(o.node);
  }

  lemma ReceiveReleaseOk(quorums: Quorums, seqs: map<int, int>, n: Node, from: int)
    requires OwnMember(quorums) && NodeOk(quorums, seqs, n)
    ensures OutcomeOk(quorums, seqs, n, ReceiveRelease(n, from))
  {
    var o := ReceiveRelease(n, from);
    assert o.node.waiting <= n.waiting;
    if o.node.waiting != {} {
      assert First(o.node.waiting) in n.waiting;
    }
    assert VoteAgrees(o.node);
  }

  lemma ReceiveFailedOk(quorums: Quorums, seqs: map<int, int>, n: Node, from: int)
    requires NodeOk(quorums, seqs, n) && from in n.quorum
    ensures OutcomeOk(quorums, seqs, n, ReceiveFailed(n, from))
  {
    forall p | p in Relinquishes(n.id, n.inquiries) ensures PacketOk(quorums, seqs, p) {
      RelinquishesCount(n.id, n.inquiries, p);
      assert SentBy(n.inquiries, p.to) != {};
      var k :| k in SentBy(n.inquiries, p.to);
    }
  }

  lemma ReceiveRelinquishOk(quorums: Quorums, seqs: map<int, int>, n: Node)
    requires NodeOk(quorums, seqs, n) && n.waiting != {}
    ensures OutcomeOk(quorums, seqs, n, ReceiveRelinquish(n))
  {
    assert First(n.waiting) in n.waiting;
  }

  lemma ReceiveOk(quorums: Quorums, seqs: map<int, int>, n: Node, m: Message, unset: int)
    requires OwnMember(quorums) && NodeOk(quorums, seqs, n)
    requires PacketOk(quorums, seqs, Packet(n.id, m)) && CanReceive(n, m)
    ensures OutcomeOk(quorums, seqs, n, Receive(n, m, unset))
  {
    match m
    case Request(k) => ReceiveRequestOk(quorums, seqs, n, k);
    case Release(from) => ReceiveReleaseOk(quorums, seqs, n, from);
    case Lock(from) =>
    case Fail(from) => ReceiveFailedOk(quorums, seqs, n, from);
    case Inquire(from) =>
    case Relinquish(from) => ReceiveRelinquishOk(quorums, seqs, n);
  }

  lemma ToOthersOk(quorums: Quorums, seqs: map<int, int>, n: Node, m: Message)
    requires NodeOk(quorums, seqs, n)
    requires m == Release(n.id) || (m.Request? && m.key.from == n.id && 1 <= m.key.seqno < n.nextSeq)
    ensures forall p :: p in ToOthers(n, m) ==> PacketOk(quorums, seqs, p)
  {
    forall p | p in ToOthers(n, m) ensures PacketOk(quorums, seqs, p) {
      BroadcastCount(n.quorum - {n.id}, m, p);
    }
  }

  lemma LeaveOk(quorums: Quorums, seqs: map<int, int>, n: Node)
    requires OwnMember(quorums) && NodeOk(quorums, seqs, n) && n.waiting != {}
    ensures OutcomeOk(quorums, seqs, n, Leave(n))
  {
    ToOthersOk(quorums, seqs, n, Release(n.id));
    var left := n.waiting - {First(n.waiting)};
    if left != {} {
      var first := First(left);
      assert first in n.waiting;
      if first.from == n.id {
        ToOthersOk(quorums, seqs, n, Request(first));
        var voted := Leave(n).node;
        assert ToOthers(n, Request(first)) == Leave(n).sent - ToOthers(n, Release(n.id));
      }
    }
  }

  lemma SendRequestOk(quorums: Quorums, seqs: map<int, int>, n: Node)
    requires OwnMember(quorums) && NodeOk(quorums, seqs, n)
    ensures OutcomeOk(quorums, seqs[n.id := n.nextSeq + 1], n, SendRequest(n))
  {
    var seqs' := seqs[n.id := n.nextSeq + 1];
    var n' := SendRequest(n).node;
    assert NodeOk(quorums, seqs', n');
    forall p | p in SendRequest(n).sent ensures PacketOk(quorums, seqs', p) {
      BroadcastCount(n.quorum - {n.id}, Request(Key(n.nextSeq, n.id)), p);
    }
  }

  /** Whatever is well addressed stays so while sequence numbers grow. */
  ghost predicate Grows(seqs: map<int, int>, later: map<int, int>) {
    seqs.Keys <= later.Keys && forall i :: i in seqs ==> seqs[i] <= later[i]
  }

  lemma ApplyKeepsInv(quorums: Quorums, s: System, o: Outcome)
    requires Inv(quorums, s) && o.node.id in s.nodes
    requires Grows(Seqs(s), Seqs(Apply(s, o)))
    requires NodeOk(quorums, Seqs(Apply(s, o)), o.node)
    requires forall p :: p in o.sent ==> PacketOk(quorums, Seqs(Apply(s, o)), p)
    ensures Inv(quorums, Apply(s, o))
  {
    var t := Apply(s, o);
    assert t.nodes.Keys == quorums.Keys;
    forall i | i in t.nodes ensures t.nodes[i].id == i && NodeOk(quorums, Seqs(t), t.nodes[i]) {
      if i != o.node.id {
        assert t.nodes[i] == s.nodes[i];
      }
    }
    forall p | p in t.net ensures PacketOk(quorums, Seqs(t), p) {
      assert p in s.net || p in o.sent;
    }
  }

  lemma DeliverKeepsInv(quorums: Quorums, s: System, p: Packet, unset: int)
    requires OwnMember(quorums) && Inv(quorums, s) && Enabled(s, Deliver(p, unset))
    ensures Inv(quorums, Next(s, Deliver(p, unset)))
  {
    var taken := s.(net := s.net - multiset{p});
    LossKeepsInv(quorums, s, p);
    if p.to in s.nodes {
      ReceiveOk(quorums, Seqs(s), s.nodes[p.to], p.msg, unset);
      assert Seqs(Next(s, Deliver(p, unset))) == Seqs(s);
      ApplyKeepsInv(quorums, taken, Receive(s.nodes[p.to], p.msg, unset));
    }
  }

  lemma AskKeepsInv(quorums: Quorums, s: System, i: int)
    requires OwnMember(quorums) && Inv(quorums, s) && i in s.nodes
    ensures Inv(quorums, Apply(s, SendRequest(s.nodes[i])))
  {
    SendRequestOk(quorums, Seqs(s), s.nodes[i]);
    assert Seqs(Apply(s, SendRequest(s.nodes[i]))) == Seqs(s)[i := s.nodes[i].nextSeq + 1];
    ApplyKeepsInv(quorums, s, SendRequest(s.nodes[i]));
  }

  lemma FinishKeepsInv(quorums: Quorums, s: System, i: int)
    requires OwnMember(quorums) && Inv(quorums, s) && i in s.nodes && s.nodes[i].waiting != {}
    ensures Inv(quorums, Apply(s, Leave(s.nodes[i])))
  {
    LeaveOk(quorums, Seqs(s), s.nodes[i]);
    assert Seqs(Apply(s, Leave(s.nodes[i]))) == Seqs(s);
    ApplyKeepsInv(quorums, s, Leave(s.nodes[i]));
  }

  lemma LossKeepsInv(quorums: Quorums, s: System, p: Packet)
    requires Inv(quorums, s)
    ensures Inv(quorums, s.(net := s.net - multiset{p}))
    ensures Seqs(s.(net := s.net - multiset{p})) == Seqs(s)
  {
    var t := s.(net := s.net - multiset{p});
    assert Seqs(t) == Seqs(s);
    forall q | q in t.net ensures PacketOk(quorums, Seqs(t), q) {
      assert q in s.net;
    }
  }

  lemma NextKeepsInv(quorums: Quorums, s: System, a: Action)
    requires OwnMember(quorums) && Inv(quorums, s) && Enabled(s, a)
    ensures Inv(quorums, Next(s, a))
  {
    match a
    case Ask(i) => AskKeepsInv(quorums, s, i);
    case Deliver(p, unset) => DeliverKeepsInv(quorums, s, p, unset);
    case Finish(i) => FinishKeepsInv(quorums, s, i);
    case Lose(p) => LossKeepsInv(quorums, s, p);
  }

  lemma StartInv(quorums: Quorums)
    ensures Inv(quorums, Start(quorums))
  {
  }

  lemma {:induction false} RunKeepsInv(quorums: Quorums, s: System, acts: seq<Action>)
    requires OwnMember(quorums) && Inv(quorums, s) && Feasible(s, acts)
    ensures Inv(quorums, After(s, acts))
    decreases |acts|
  {
    if acts != [] {
      NextKeepsInv(quorums, s, acts[0]);
      RunKeepsInv(quorums, Next(s, acts[0]), acts[1..]);
    }
  }
}
