/** The votes of one arbiter: where they are, and how each handler changes what is out and what the
    arbiter has recorded. */
module MakSafety {
  import opened Priority
  import opened MakProtocol
  import opened MakSystem
  import opened Sums

  // ----- runs in which no node grants its own request by message

  /** A RELINQUISH makes an arbiter whose own request is first send a LOCK to itself. */
  predicate SelfGrant(s: System, a: Action)
    requires Enabled(s, a)
  {
    a.Deliver? && a.packet.msg.Relinquish? && a.packet.to in s.nodes &&
    First(s.nodes[a.packet.to].waiting).from == a.packet.to
  }

  ghost predicate NoSelfVotes(s: System) {
    && (forall i :: i in s.nodes ==> i !in s.nodes[i].responses)
    && (forall p :: p in s.net ==> p.msg != Lock(p.to))
  }

  lemma ReceiveGrantsOthers(n: Node, m: Message, unset: int, p: Packet)
    requires CanReceive(n, m) && (m.Relinquish? ==> First(n.waiting).from != n.id)
    requires m.Request? ==> m.key.from != n.id
    requires p in Receive(n, m, unset).sent
    ensures p.msg != Lock(p.to)
  {
    if m.Fail? {
      RelinquishesCount(n.id, n.inquiries, p);
    }
  }

  lemma ReceiveRecordsOthers(n: Node, m: Message, unset: int)
    requires CanReceive(n, m) && n.id !in n.responses
    requires m.Lock? || m.Fail? ==> m.from != n.id
    ensures n.id !in Receive(n, m, unset).node.responses
  {
  }

  lemma ApplyKeepsNoSelfVotes(s: System, o: Outcome)
    requires NoSelfVotes(s) && o.node.id in s.nodes && o.node.id !in o.node.responses
    requires forall p :: p in o.sent ==> p.msg != Lock(p.to)
    ensures NoSelfVotes(Apply(s, o))
  {
    forall p | p in Apply(s, o).net ensures p.msg != Lock(p.to) {
      assert p in s.net || p in o.sent;
    }
  }

  lemma DeliverKeepsNoSelfVotes(quorums: Quorums, s: System, q: Packet, unset: int)
    requires Inv(quorums, s) && NoSelfVotes(s) && q.to in s.nodes
    requires Enabled(s, Deliver(q, unset)) && !SelfGrant(s, Deliver(q, unset))
    ensures NoSelfVotes(Next(s, Deliver(q, unset)))
  {
    var taken := s.(net := s.net - multiset{q});
    var n := s.nodes[q.to];
    var o := Receive(n, q.msg, unset);
    assert PacketOk(quorums, Seqs(s), q);
    forall p | p in o.sent ensures p.msg != Lock(p.to) {
      ReceiveGrantsOthers(n, q.msg, unset, p);
    }
    ReceiveRecordsOthers(n, q.msg, unset);
    ReceiveKeepsId(n, q.msg, unset);
    ApplyKeepsNoSelfVotes(taken, o);
  }

  lemma NextKeepsNoSelfVotes(quorums: Quorums, s: System, a: Action)
    requires Inv(quorums, s) && NoSelfVotes(s) && Enabled(s, a) && !SelfGrant(s, a)
    ensures NoSelfVotes(Next(s, a))
  {
    match a
    case Ask(i) => AskKeepsNoSelfVotes(s, i);
    case Deliver(q, unset) =>
      if q.to in s.nodes {
        DeliverKeepsNoSelfVotes(quorums, s, q, unset);
      }
    case Finish(i) => FinishKeepsNoSelfVotes(s, i);
    case Lose(_) =>
  }

  lemma AskKeepsNoSelfVotes(s: System, i: int)
    requires NoSelfVotes(s) && i in s.nodes && s.nodes[i].id == i
    ensures NoSelfVotes(Apply(s, SendRequest(s.nodes[i])))
  {
    var o := SendRequest(s.nodes[i]);
    forall p | p in o.sent ensures p.msg != Lock(p.to) {
      SendRequestSender(s.nodes[i], p);
    }
    ApplyKeepsNoSelfVotes(s, o);
  }

  lemma FinishKeepsNoSelfVotes(s: System, i: int)
    requires NoSelfVotes(s) && i in s.nodes && s.nodes[i].id == i && s.nodes[i].waiting != {}
    ensures NoSelfVotes(Apply(s, Leave(s.nodes[i])))
  {
    var o := Leave(s.nodes[i]);
    forall p | p in o.sent ensures p.msg != Lock(p.to) {
      LeaveSends(s.nodes[i], p);
    }
    ApplyKeepsNoSelfVotes(s, o);
  }

  /** The vote that a node leaving its critical section passes on, if its queue's next request
      is another node's. */
  ghost function GrantOnLeaving(n: Node): set<Packet>
    requires n.waiting != {}
  {
    var left := n.waiting - {First(n.waiting)};
    if left != {} && First(left).from != n.id then {Packet(First(left).from, Lock(n.id))} else {}
  }

  lemma LeaveSends(n: Node, p: Packet)
    requires n.waiting != {}
    ensures p.msg.Lock? ==> Leave(n).sent[p] == (if p in GrantOnLeaving(n) then 1 else 0)
    ensures p.msg.Release? ==>
              Leave(n).sent[p] == (if p.msg == Release(n.id) && p.to in n.quorum - {n.id} then 1 else 0)
  {
    BroadcastCount(n.quorum - {n.id}, Release(n.id), p);
    var left := n.waiting - {First(n.waiting)};
    if left != {} {
      BroadcastCount(n.quorum - {n.id}, Request(First(left)), p);
    }
  }

  // ----- the potential of one arbiter

  /** The nodes that ask `b` for its vote. */
  ghost function Clients(quorums: Quorums, b: int): set<int> {
    set x | x in quorums && x != b && b in quorums[x]
  }

  predicate HoldsVote(n: Node, b: int) {
    n.inCS || (b in n.responses && n.responses[b] == LOCK)
  }

  function HoldingOf(n: Node, b: int): int {
    if HoldsVote(n, b) then 1 else 0
  }

  /** Votes of `b` that are with `x`, on their way to it or on their way back. */
  ghost function VotesAt(s: System, b: int, x: int): nat {
    s.net[Packet(x, Lock(b))] + s.net[Packet(b, Release(x))] +
    if x in s.nodes then HoldingOf(s.nodes[x], b) else 0
  }

  ghost function VotesOut(quorums: Quorums, s: System, b: int): int {
    Sum(x => VotesAt(s, b, x), Clients(quorums, b))
  }

  /** 1 when `b` has recorded that its vote is with another node. */
  ghost function VoteRecorded(s: System, b: int): nat {
    if b in s.nodes && s.nodes[b].isLocked && s.nodes[b].lockedFor.from != b then 1 else 0
  }

  /** `b` forgets or overwrites a vote that it has given to another node. */
  ghost predicate Abandons(s: System, a: Action, b: int) {
    VoteRecorded(s, b) == 1 &&
    (a == Ask(b) || a == Finish(b) || (a.Deliver? && a.packet.to == b && a.packet.msg.Relinquish?))
  }

  ghost function Abandoned(s: System, acts: seq<Action>, b: int): nat
    requires Feasible(s, acts)
    decreases |acts|
  {
    if acts == [] then 0 else
    (if Abandons(s, acts[0], b) then 1 else 0) + Abandoned(Next(s, acts[0]), acts[1..], b)
  }

  /** Delivered or lost, this packet carries a vote of `b` to or from one of its clients. */
  predicate CarriesVote(p: Packet, b: int) {
    (p.to != b && p.msg == Lock(b)) || (p.to == b && p.msg.Release?)
  }

  function Carrier(p: Packet): int {
    if p.msg.Release? then p.msg.from else p.to
  }

  lemma CarrierIsClient(quorums: Quorums, s: System, p: Packet, b: int)
    requires Inv(quorums, s) && p in s.net && CarriesVote(p, b)
    ensures Carrier(p) in Clients(quorums, b)
  {
    assert PacketOk(quorums, Seqs(s), p);
  }

  lemma TakeEffect(quorums: Quorums, s: System, p: Packet, b: int)
    requires p in s.net && (CarriesVote(p, b) ==> Carrier(p) in Clients(quorums, b))
    ensures VotesOut(quorums, s.(net := s.net - multiset{p}), b)
            == VotesOut(quorums, s, b) - (if CarriesVote(p, b) then 1 else 0)
  {
    var t := s.(net := s.net - multiset{p});
    var f := x => VotesAt(s, b, x);
    var g := x => VotesAt(t, b, x);
    var cs := Clients(quorums, b);
    forall x | x in cs ensures g(x) == f(x) - if CarriesVote(p, b) && Carrier(p) == x then 1 else 0 {
      TakenFrom(s, p, b, x);
    }
    if CarriesVote(p, b) {
      ChangeAt(f, g, cs, Carrier(p));
    } else {
      SameSum(f, g, cs);
    }
  }

  /** The effect of a delivery or a loss on one client. */
  lemma TakenFrom(s: System, p: Packet, b: int, x: int)
    requires p in s.net && x != b
    ensures VotesAt(s.(net := s.net - multiset{p}), b, x)
            == VotesAt(s, b, x) - if CarriesVote(p, b) && Carrier(p) == x then 1 else 0
  {
  }

  lemma TakeKeepsVotes(quorums: Quorums, s: System, p: Packet, b: int)
    requires Inv(quorums, s) && p in s.net
    ensures VotesOut(quorums, s.(net := s.net - multiset{p}), b) <= VotesOut(quorums, s, b)
  {
    if CarriesVote(p, b) {
      CarrierIsClient(quorums, s, p, b);
    }
    TakeEffect(quorums, s, p, b);
  }

  /** What a handler at `b` itself does: only its LOCK counts. */
  lemma ArbiterEffect(quorums: Quorums, s: System, o: Outcome, b: int, granted: set<int>)
    requires b in s.nodes && o.node.id == b
    requires granted <= Clients(quorums, b) && |granted| <= 1
    requires forall x :: x != b ==> o.sent[Packet(x, Lock(b))] == if x in granted then 1 else 0
    requires forall x :: x != b ==> Packet(b, Release(x)) !in o.sent
    ensures VotesOut(quorums, Apply(s, o), b) == VotesOut(quorums, s, b) + |granted|
  {
    var t := Apply(s, o);
    var f := x => VotesAt(s, b, x);
    var g := x => VotesAt(t, b, x);
    var cs := Clients(quorums, b);
    forall x | x in cs ensures g(x) == f(x) + if x in granted then 1 else 0 {
    }
    if y :| y in granted {
      assert |granted - {y}| == 0;
      assert forall x :: x in granted ==> x == y || x in granted - {y};
      ChangeAt(f, g, cs, y);
    } else {
      SameSum(f, g, cs);
    }
  }

  /** What a handler at another node `d` does: only its own holding and its RELEASE count. */
  lemma ClientEffect(quorums: Quorums, s: System, o: Outcome, b: int, d: int)
    requires d in s.nodes && o.node.id == d && d != b
    requires forall p :: p in o.sent ==> p.msg.Sender() == d
    ensures VotesOut(quorums, Apply(s, o), b) == VotesOut(quorums, s, b) +
            if d in Clients(quorums, b)
            then HoldingOf(o.node, b) - HoldingOf(s.nodes[d], b) + o.sent[Packet(b, Release(d))]
            else 0
  {
    var t := Apply(s, o);
    var f := x => VotesAt(s, b, x);
    var g := x => VotesAt(t, b, x);
    var cs := Clients(quorums, b);
    forall x | x in cs && x != d ensures f(x) == g(x) {
      assert Packet(x, Lock(b)).msg.Sender() != d;
      assert Packet(b, Release(x)).msg.Sender() != d;
    }
    if d in cs {
      assert Packet(d, Lock(b)).msg.Sender() != d;
      ChangeAt(f, g, cs, d);
    } else {
      SameSum(f, g, cs);
    }
  }

  lemma ReceiveSender(n: Node, m: Message, unset: int, p: Packet)
    requires CanReceive(n, m) && p in Receive(n, m, unset).sent
    ensures p.msg.Sender() == n.id && !p.msg.Release?
  {
    match m
    case Fail(from) => FailSender(n, from, p);
    case Request(k) => RequestSender(n, k, p);
    case Release(from) => ReleaseSender(n, from, p);
    case _ =>
  }

  lemma FailSender(n: Node, from: int, p: Packet)
    requires p in ReceiveFailed(n, from).sent
    ensures p.msg.Sender() == n.id && !p.msg.Release?
  {
    RelinquishesCount(n.id, n.inquiries, p);
  }

  lemma RequestSender(n: Node, k: Key, p: Packet)
    requires p in ReceiveRequest(n, k).sent
    ensures p.msg.Sender() == n.id && !p.msg.Release?
  {
  }

  lemma ReleaseSender(n: Node, from: int, p: Packet)
    requires p in ReceiveRelease(n, from).sent
    ensures p.msg.Sender() == n.id && !p.msg.Release?
  {
  }

  lemma SendRequestSender(n: Node, p: Packet)
    requires p in SendRequest(n).sent
    ensures p.msg.Request? && p.msg.Sender() == n.id
  {
    BroadcastCount(n.quorum - {n.id}, Request(Key(n.nextSeq, n.id)), p);
  }

  lemma LeaveSender(n: Node, p: Packet)
    requires n.waiting != {} && p in Leave(n).sent
    ensures p.msg.Sender() == n.id
  {
    BroadcastCount(n.quorum - {n.id}, Release(n.id), p);
    var left := n.waiting - {First(n.waiting)};
    if left != {} && First(left).from == n.id {
      BroadcastCount(n.quorum - {n.id}, Request(First(left)), p);
    }
  }

  /** The node that `b` votes for when it handles `m`. */
  ghost function GrantedBy(n: Node, m: Message): set<int>
    requires CanReceive(n, m)
  {
    match m
    case Request(k) =>
      if !n.isLocked || (First(n.waiting + {k}) == k && n.lockedFor.from == n.id) then {k.from} else {}
    case Release(from) =>
      var left := EraseFirstFrom(n.waiting, from);
      if left != {} && First(left).from != n.id then {First(left).from} else {}
    case Relinquish(_) => {First(n.waiting).from}
    case _ => {}
  }

  lemma ReceiveLocks(n: Node, m: Message, unset: int, x: int)
    requires CanReceive(n, m)
    ensures Receive(n, m, unset).sent[Packet(x, Lock(n.id))] == if x in GrantedBy(n, m) then 1 else 0
  {
    match m
    case Fail(_) => RelinquishesCount(n.id, n.inquiries, Packet(x, Lock(n.id)));
    case Request(k) => RequestLocks(n, k, x);
    case Release(from) => ReleaseLocks(n, from, x);
    case _ =>
  }

  lemma RequestLocks(n: Node, k: Key, x: int)
    ensures ReceiveRequest(n, k).sent[Packet(x, Lock(n.id))] == if x in GrantedBy(n, Request(k)) then 1 else 0
  {
  }

  lemma ReleaseLocks(n: Node, from: int, x: int)
    ensures ReceiveRelease(n, from).sent[Packet(x, Lock(n.id))] == if x in GrantedBy(n, Release(from)) then 1 else 0
  {
  }

  /** The potential of an arbiter, from its own state and the votes out. */
  ghost function Potential(quorums: Quorums, s: System, b: int): int {
    VotesOut(quorums, s, b) - VoteRecorded(s, b)
  }

  ghost function Recorded(n: Node): nat {
    if n.isLocked && n.lockedFor.from != n.id then 1 else 0
  }

  /** The arbiter's own bookkeeping of a reception: a vote more or less is recorded. */
  lemma ArbiterRecords(n: Node, m: Message, unset: int)
    requires CanReceive(n, m) && VoteAgrees(n)
    requires m.Request? ==> m.key.from != n.id
    requires m.Relinquish? ==> First(n.waiting).from != n.id
    ensures var change := |GrantedBy(n, m)| - Recorded(Receive(n, m, unset).node) + Recorded(n);
            && change <= (if m.Release? then 1 else 0) + (if m.Relinquish? then Recorded(n) else 0)
            && (m.Relinquish? ==> change == Recorded(n))
  {
  }

  lemma GrantedAreClients(quorums: Quorums, s: System, p: Packet, b: int)
    requires Inv(quorums, s) && b in s.nodes && p.to == b && p in s.net
    requires CanReceive(s.nodes[b], p.msg)
    requires p.msg.Relinquish? ==> First(s.nodes[b].waiting).from != b
    ensures GrantedBy(s.nodes[b], p.msg) <= Clients(quorums, b)
  {
    assert PacketOk(quorums, Seqs(s), p);
    assert NodeOk(quorums, Seqs(s), s.nodes[b]);
    var n := s.nodes[b];
    forall k | k in n.waiting ensures k.from in quorums && b in quorums[k.from] {
      assert Addressed(quorums, Seqs(s), k, b);
    }
  }

  lemma ArbiterSends(n: Node, m: Message, unset: int)
    requires CanReceive(n, m)
    ensures forall x :: Receive(n, m, unset).sent[Packet(x, Lock(n.id))] == if x in GrantedBy(n, m) then 1 else 0
    ensures forall x, to :: Packet(to, Release(x)) !in Receive(n, m, unset).sent
  {
    var o := Receive(n, m, unset);
    forall x ensures o.sent[Packet(x, Lock(n.id))] == if x in GrantedBy(n, m) then 1 else 0 {
      ReceiveLocks(n, m, unset, x);
    }
    forall x, to ensures Packet(to, Release(x)) !in o.sent {
      if Packet(to, Release(x)) in o.sent {
        ReceiveSender(n, m, unset, Packet(to, Release(x)));
      }
    }
  }

  lemma ArbiterVotes(quorums: Quorums, s: System, p: Packet, unset: int, b: int)
    requires Inv(quorums, s) && b in s.nodes && p.to == b
    requires Enabled(s, Deliver(p, unset)) && !SelfGrant(s, Deliver(p, unset))
    ensures VotesOut(quorums, Next(s, Deliver(p, unset)), b) == VotesOut(quorums, s, b)
            + |GrantedBy(s.nodes[b], p.msg)| - if p.msg.Release? then 1 else 0
  {
    var n := s.nodes[b];
    var taken := s.(net := s.net - multiset{p});
    if CarriesVote(p, b) {
      CarrierIsClient(quorums, s, p, b);
    }
    TakeEffect(quorums, s, p, b);
    ArbiterSends(n, p.msg, unset);
    ReceiveKeepsId(n, p.msg, unset);
    GrantedAreClients(quorums, s, p, b);
    ArbiterEffect(quorums, taken, Receive(n, p.msg, unset), b, GrantedBy(n, p.msg));
  }

  lemma ArbiterReceives(quorums: Quorums, s: System, p: Packet, unset: int, b: int)
    requires Inv(quorums, s) && b in s.nodes && p.to == b
    requires Enabled(s, Deliver(p, unset)) && !SelfGrant(s, Deliver(p, unset))
    ensures var abandons := Abandons(s, Deliver(p, unset), b);
            var change := Potential(quorums, Next(s, Deliver(p, unset)), b) - Potential(quorums, s, b);
            if abandons then change == 1 else change <= 0
  {
    var n := s.nodes[b];
    ArbiterVotes(quorums, s, p, unset, b);
    assert PacketOk(quorums, Seqs(s), p);
    assert NodeOk(quorums, Seqs(s), n);
    ArbiterRecords(n, p.msg, unset);
    ReceiveKeepsId(n, p.msg, unset);
  }

  lemma ReceiveKeepsId(n: Node, m: Message, unset: int)
    requires CanReceive(n, m)
    ensures Receive(n, m, unset).node.id == n.id
  {
  }

  /** A reception makes a node hold a vote of `b` only if it brings that vote. */
  lemma ClientHolds(n: Node, m: Message, unset: int, b: int)
    requires CanReceive(n, m)
    requires m.Lock? && !n.inCS && ReceiveLocked(n, m.from).node.inCS ==>
               b in ReceiveLocked(n, m.from).node.responses
    ensures HoldingOf(Receive(n, m, unset).node, b) <= HoldingOf(n, b) + if m == Lock(b) then 1 else 0
  {
  }

  /** Only a LOCK lets a node enter, and only when as many answers as there are other quorum
      members have been recorded, all of them LOCKs. */
  lemma EntryNeedsLocks(n: Node, m: Message, unset: int)
    requires CanReceive(n, m) && !n.inCS && Receive(n, m, unset).node.inCS
    ensures m.Lock? && |Receive(n, m, unset).node.responses| == |n.quorum| - 1
    ensures forall a :: a in Receive(n, m, unset).node.responses ==>
                          Receive(n, m, unset).node.responses[a] == LOCK
  {
    var o := Receive(n, m, unset).node;
    assert m.Lock?;
    forall a | a in o.responses ensures o.responses[a] == LOCK {
      assert !o.HasRefusal();
    }
  }

  /** Entry condition. When no node votes for itself by message, a LOCK that lets a node enter
      completes a set of responses that holds a LOCK of every other member of its quorum. */
  lemma EveryOtherMemberVoted(quorums: Quorums, s: System, p: Packet, unset: int)
    requires OwnMember(quorums) && Inv(quorums, s) && NoSelfVotes(s)
    requires Enabled(s, Deliver(p, unset)) && p.to in s.nodes && !SelfGrant(s, Deliver(p, unset))
    requires !s.nodes[p.to].inCS && Next(s, Deliver(p, unset)).nodes[p.to].inCS
    ensures var n := Next(s, Deliver(p, unset)).nodes[p.to];
            p.msg.Lock? && n.responses == map m | m in n.quorum && m != p.to :: LOCK
  {
    var before := s.nodes[p.to];
    var n := Receive(before, p.msg, unset).node;
    ReceiveKeepsId(before, p.msg, unset);
    EntryNeedsLocks(before, p.msg, unset);
    assert PacketOk(quorums, Seqs(s), p) && NodeOk(quorums, Seqs(s), before);
    var others := n.quorum - {p.to};
    assert n.responses.Keys <= others;
    assert |n.responses.Keys| == |others|;
    SameSizeSubset(n.responses.Keys, others);
    var expected := map m | m in n.quorum && m != p.to :: LOCK;
    assert expected.Keys == others;
    assert n.responses == expected;
  }

  lemma SameSizeSubset(small: set<int>, big: set<int>)
    requires small <= big && |small| == |big|
    ensures small == big
  {
    assert |big - small| == |big| - |small|;
  }

  lemma AskerVotes(quorums: Quorums, s: System, i: int, b: int)
    requires Inv(quorums, s) && b in s.nodes && i in s.nodes
    ensures VotesOut(quorums, Next(s, Ask(i)), b) == VotesOut(quorums, s, b)
  {
    var o := SendRequest(s.nodes[i]);
    forall p | p in o.sent ensures p.msg.Request? && p.msg.Sender() == i {
      SendRequestSender(s.nodes[i], p);
    }
    if i == b {
      ArbiterEffect(quorums, s, o, b, {});
    } else {
      ClientEffect(quorums, s, o, b, i);
    }
  }

  lemma LeaverAsArbiter(quorums: Quorums, s: System, b: int)
    requires Inv(quorums, s) && Enabled(s, Finish(b))
    ensures Potential(quorums, Next(s, Finish(b)), b) == Potential(quorums, s, b) + VoteRecorded(s, b)
  {
    var n := s.nodes[b];
    var o := Leave(n);
    var left := n.waiting - {First(n.waiting)};
    var granted := if left != {} && First(left).from != b then {First(left).from} else {};
    forall x | x != b
      ensures o.sent[Packet(x, Lock(b))] == if x in granted then 1 else 0
      ensures Packet(b, Release(x)) !in o.sent
    {
      LeaveSends(n, Packet(x, Lock(b)));
      LeaveSends(n, Packet(b, Release(x)));
    }
    forall x | x in granted ensures x in Clients(quorums, b) {
      assert First(left) in n.waiting;
      assert NodeOk(quorums, Seqs(s), n);
      assert Addressed(quorums, Seqs(s), First(left), b);
    }
    ArbiterEffect(quorums, s, o, b, granted);
  }

  lemma LeaverAsClient(quorums: Quorums, s: System, i: int, b: int)
    requires Inv(quorums, s) && b in s.nodes && Enabled(s, Finish(i)) && i != b
    ensures Potential(quorums, Next(s, Finish(i)), b) == Potential(quorums, s, b)
  {
    var n := s.nodes[i];
    assert NodeOk(quorums, Seqs(s), n);
    forall p | p in Leave(n).sent ensures p.msg.Sender() == i {
      LeaveSender(n, p);
    }
    LeaveSends(n, Packet(b, Release(i)));
    ClientEffect(quorums, s, Leave(n), b, i);
  }

  // ----- theorems about whole runs

  lemma StartVotes(quorums: Quorums, b: int)
    ensures Inv(quorums, Start(quorums)) && NoSelfVotes(Start(quorums))
    ensures VotesOut(quorums, Start(quorums), b) == 0 == VoteRecorded(Start(quorums), b)
  {
    SameSum(x => VotesAt(Start(quorums), b, x), x => 0, Clients(quorums, b));
    ZeroSum(Clients(quorums, b));
  }

  lemma {:induction false} ZeroSum(xs: set<int>)
    ensures Sum(x => 0, xs) == 0
    decreases |xs|
  {
    if x :| x in xs {
      TakeOut(x => 0, xs, x);
      ZeroSum(xs - {x});
    }
  }

  ghost function InCS(s: System): set<int> {
    set i | i in s.nodes && s.nodes[i].inCS
  }
}
