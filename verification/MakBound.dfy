/** The bound on an arbiter's votes over all runs, with nothing excluded: every node that is inside
    beyond the first is paid for by a vote that was abandoned or by a node that granted its own
    request by message. */
module MakBound {
  import opened Priority
  import opened MakProtocol
  import opened MakSystem
  import opened MakSafety
  import opened Sums

  /** The node counts its own LOCK among the answers and has not entered yet. */
  function SelfHeld(n: Node): nat {
    if n.id in n.responses && !n.inCS then 1 else 0
  }

  /** LOCKs of `d` to itself that are under way or counted. */
  ghost function SelfAt(s: System, d: int): nat {
    s.net[Packet(d, Lock(d))] + if d in s.nodes then SelfHeld(s.nodes[d]) else 0
  }

  ghost function SelfOut(quorums: Quorums, s: System): int {
    Sum(d => SelfAt(s, d), quorums.Keys)
  }

  /** What the votes of `b` may still be used for, over what `b` knows of. */
  ghost function Charge(quorums: Quorums, s: System, b: int): int {
    Potential(quorums, s, b) + SelfOut(quorums, s)
  }

  ghost function SelfGrants(s: System, acts: seq<Action>): nat
    requires Feasible(s, acts)
    decreases |acts|
  {
    if acts == [] then 0 else
    (if SelfGrant(s, acts[0]) then 1 else 0) + SelfGrants(Next(s, acts[0]), acts[1..])
  }

  // ----- own votes

  lemma SelfChange(quorums: Quorums, s: System, t: System, d: int)
    requires d in quorums && forall x :: x in quorums && x != d ==> SelfAt(t, x) == SelfAt(s, x)
    ensures SelfOut(quorums, t) == SelfOut(quorums, s) + SelfAt(t, d) - SelfAt(s, d)
  {
    ChangeAt(x => SelfAt(s, x), x => SelfAt(t, x), quorums.Keys, d);
  }

  lemma SelfTaken(quorums: Quorums, s: System, p: Packet)
    requires p in s.net && (p.msg == Lock(p.to) ==> p.to in quorums)
    ensures SelfOut(quorums, s.(net := s.net - multiset{p}))
            == SelfOut(quorums, s) - if p.msg == Lock(p.to) then 1 else 0
  {
    var t := s.(net := s.net - multiset{p});
    if p.msg == Lock(p.to) {
      SelfChange(quorums, s, t, p.to);
    } else {
      SameSum(x => SelfAt(s, x), x => SelfAt(t, x), quorums.Keys);
    }
  }

  /** What a handler at `d` does to them. */
  lemma SelfApplied(quorums: Quorums, s: System, o: Outcome, d: int)
    requires d in s.nodes && d in quorums && o.node.id == d && s.nodes[d].id == d
    requires forall p :: p in o.sent ==> p.msg.Sender() == d
    ensures SelfOut(quorums, Apply(s, o)) == SelfOut(quorums, s)
            + SelfHeld(o.node) - SelfHeld(s.nodes[d]) + o.sent[Packet(d, Lock(d))]
  {
    var t := Apply(s, o);
    forall x | x in quorums && x != d ensures SelfAt(t, x) == SelfAt(s, x) {
      assert Packet(x, Lock(x)).msg.Sender() != d;
    }
    SelfChange(quorums, s, t, d);
  }

  // ----- one reception

  /** Entering without the vote of a member is paid with the node's own. */
  lemma EntryIsPaid(n: Node, m: Message, unset: int, b: int)
    requires CanReceive(n, m) && !n.inCS && Receive(n, m, unset).node.inCS
    requires b != n.id && b in n.quorum && n.id in n.quorum && n.responses.Keys <= n.quorum
    requires m.Lock? ==> m.from in n.quorum
    ensures m.Lock?
    ensures n.id in n.responses || m.from == n.id || (b in n.responses && n.responses[b] == LOCK) || m.from == b
  {
    EntryNeedsLocks(n, m, unset);
    var after := Receive(n, m, unset).node.responses;
    if n.id !in after {
      SameSizeSubset(after.Keys, n.quorum - {n.id});
      assert b in after && after[b] == LOCK;
    }
  }

  lemma SelfSent(n: Node, m: Message, unset: int)
    requires CanReceive(n, m) && (m.Request? ==> m.key.from != n.id)
    ensures Receive(n, m, unset).sent[Packet(n.id, Lock(n.id))] == One(m.Relinquish? && First(n.waiting).from == n.id)
  {
    ReceiveLocks(n, m, unset, n.id);
  }

  lemma SelfHeldChange(n: Node, m: Message, unset: int)
    requires CanReceive(n, m) && (m.Fail? ==> m.from != n.id)
    ensures SelfHeld(Receive(n, m, unset).node) <= SelfHeld(n) + One(m == Lock(n.id))
    ensures !n.inCS && Receive(n, m, unset).node.inCS ==> SelfHeld(Receive(n, m, unset).node) == 0
  {
  }

  /** What a client holds of `b` and of itself grows only by what it is given or grants itself. */
  lemma ClientCharge(n: Node, m: Message, unset: int, b: int)
    requires CanReceive(n, m) && b != n.id && b in n.quorum && n.id in n.quorum && n.responses.Keys <= n.quorum
    requires m.Lock? ==> m.from in n.quorum
    requires m.Fail? ==> m.from != n.id
    ensures var after := Receive(n, m, unset).node;
            HoldingOf(after, b) + SelfHeld(after) <=
            HoldingOf(n, b) + SelfHeld(n) + One(m == Lock(b)) + One(m == Lock(n.id))
  {
    SelfHeldChange(n, m, unset);
    if !n.inCS && Receive(n, m, unset).node.inCS {
      EntryIsPaid(n, m, unset, b);
    } else {
      ClientHolds(n, m, unset, b);
    }
  }

  // ----- one step

  /** What any reception at `d` does to own votes. */
  lemma SelfDelivered(quorums: Quorums, s: System, p: Packet, unset: int)
    requires OwnMember(quorums) && Inv(quorums, s) && p.to in s.nodes && Enabled(s, Deliver(p, unset))
    ensures var n := s.nodes[p.to];
            var after := Receive(n, p.msg, unset).node;
            SelfOut(quorums, Next(s, Deliver(p, unset))) == SelfOut(quorums, s)
            + SelfHeld(after) - SelfHeld(n) - One(p.msg == Lock(p.to)) + One(SelfGrant(s, Deliver(p, unset)))
  {
    var n := s.nodes[p.to];
    var o := Receive(n, p.msg, unset);
    assert PacketOk(quorums, Seqs(s), p) && NodeOk(quorums, Seqs(s), n);
    SelfTaken(quorums, s, p);
    forall r | r in o.sent ensures r.msg.Sender() == p.to {
      ReceiveSender(n, p.msg, unset, r);
    }
    ReceiveKeepsId(n, p.msg, unset);
    SelfApplied(quorums, s.(net := s.net - multiset{p}), o, p.to);
    SelfSent(n, p.msg, unset);
  }

  /** What any reception at another node does to the votes of `b`. */
  lemma VotesDelivered(quorums: Quorums, s: System, p: Packet, unset: int, b: int)
    requires Inv(quorums, s) && b in s.nodes && p.to in s.nodes && p.to != b && Enabled(s, Deliver(p, unset))
    ensures var n := s.nodes[p.to];
            VotesOut(quorums, Next(s, Deliver(p, unset)), b) == VotesOut(quorums, s, b) +
            if p.to in Clients(quorums, b)
            then HoldingOf(Receive(n, p.msg, unset).node, b) - HoldingOf(n, b) - One(p.msg == Lock(b))
            else 0
  {
    var n := s.nodes[p.to];
    var o := Receive(n, p.msg, unset);
    if CarriesVote(p, b) {
      CarrierIsClient(quorums, s, p, b);
    }
    TakeEffect(quorums, s, p, b);
    forall r | r in o.sent ensures r.msg.Sender() == p.to && !r.msg.Release? {
      ReceiveSender(n, p.msg, unset, r);
    }
    ReceiveKeepsId(n, p.msg, unset);
    ClientEffect(quorums, s.(net := s.net - multiset{p}), o, b, p.to);
  }

  lemma ClientDelivery(quorums: Quorums, s: System, p: Packet, unset: int, b: int)
    requires OwnMember(quorums) && Inv(quorums, s) && b in s.nodes
    requires p.to in s.nodes && p.to != b && Enabled(s, Deliver(p, unset))
    ensures VotesOut(quorums, Next(s, Deliver(p, unset)), b) + SelfOut(quorums, Next(s, Deliver(p, unset)))
            <= VotesOut(quorums, s, b) + SelfOut(quorums, s) + One(SelfGrant(s, Deliver(p, unset)))
  {
    var n := s.nodes[p.to];
    assert PacketOk(quorums, Seqs(s), p) && NodeOk(quorums, Seqs(s), n);
    SelfDelivered(quorums, s, p, unset);
    VotesDelivered(quorums, s, p, unset, b);
    SelfHeldChange(n, p.msg, unset);
    if p.to in Clients(quorums, b) {
      ClientCharge(n, p.msg, unset, b);
    }
  }

  /** A self-grant of `b`: its vote is with nobody else any more. */
  lemma OwnGrant(quorums: Quorums, s: System, p: Packet, unset: int, b: int)
    requires Inv(quorums, s) && b in s.nodes && p.to == b
    requires Enabled(s, Deliver(p, unset)) && SelfGrant(s, Deliver(p, unset))
    ensures Potential(quorums, Next(s, Deliver(p, unset)), b) == Potential(quorums, s, b) + VoteRecorded(s, b)
  {
    var n := s.nodes[b];
    var o := Receive(n, p.msg, unset);
    TakeEffect(quorums, s, p, b);
    ArbiterSends(n, p.msg, unset);
    ReceiveKeepsId(n, p.msg, unset);
    ArbiterEffect(quorums, s.(net := s.net - multiset{p}), o, b, {});
    assert VoteRecorded(Next(s, Deliver(p, unset)), b) == 0;
  }

  lemma ArbiterDelivery(quorums: Quorums, s: System, p: Packet, unset: int, b: int)
    requires OwnMember(quorums) && Inv(quorums, s) && b in s.nodes && p.to == b && Enabled(s, Deliver(p, unset))
    ensures Charge(quorums, Next(s, Deliver(p, unset)), b) <= Charge(quorums, s, b)
            + One(Abandons(s, Deliver(p, unset), b)) + One(SelfGrant(s, Deliver(p, unset)))
  {
    var n := s.nodes[b];
    assert PacketOk(quorums, Seqs(s), p);
    SelfDelivered(quorums, s, p, unset);
    SelfHeldChange(n, p.msg, unset);
    if SelfGrant(s, Deliver(p, unset)) {
      OwnGrant(quorums, s, p, unset, b);
    } else {
      ArbiterReceives(quorums, s, p, unset, b);
    }
  }

  lemma AskCharge(quorums: Quorums, s: System, i: int, b: int)
    requires Inv(quorums, s) && b in s.nodes && i in s.nodes
    ensures Charge(quorums, Next(s, Ask(i)), b) <= Charge(quorums, s, b) + One(Abandons(s, Ask(i), b))
  {
    AskerVotes(quorums, s, i, b);
    var o := SendRequest(s.nodes[i]);
    forall p | p in o.sent ensures p.msg.Sender() == i && p.msg.Request? {
      SendRequestSender(s.nodes[i], p);
    }
    SelfApplied(quorums, s, o, i);
  }

  lemma FinishCharge(quorums: Quorums, s: System, i: int, b: int)
    requires Inv(quorums, s) && b in s.nodes && Enabled(s, Finish(i))
    ensures Charge(quorums, Next(s, Finish(i)), b) <= Charge(quorums, s, b) + One(Abandons(s, Finish(i), b))
  {
    var n := s.nodes[i];
    var o := Leave(n);
    forall p | p in o.sent ensures p.msg.Sender() == i {
      LeaveSender(n, p);
    }
    LeaveSends(n, Packet(i, Lock(i)));
    SelfApplied(quorums, s, o, i);
    if i == b {
      LeaverAsArbiter(quorums, s, b);
    } else {
      LeaverAsClient(quorums, s, i, b);
    }
  }

  lemma LoseCharge(quorums: Quorums, s: System, p: Packet, b: int)
    requires Inv(quorums, s) && b in s.nodes && p in s.net
    ensures Charge(quorums, s.(net := s.net - multiset{p}), b) <= Charge(quorums, s, b)
  {
    assert PacketOk(quorums, Seqs(s), p);
    TakeKeepsVotes(quorums, s, p, b);
    SelfTaken(quorums, s, p);
  }

  /** Every step, whatever it is. */
  lemma NextKeepsCharge(quorums: Quorums, s: System, a: Action, b: int)
    requires OwnMember(quorums) && Inv(quorums, s) && b in s.nodes && Enabled(s, a)
    ensures Charge(quorums, Next(s, a), b) <= Charge(quorums, s, b) + One(Abandons(s, a, b)) + One(SelfGrant(s, a))
  {
    match a
    case Ask(i) => AskCharge(quorums, s, i, b);
    case Deliver(p, unset) =>
      if p.to == b {
        ArbiterDelivery(quorums, s, p, unset, b);
      } else if p.to in s.nodes {
        ClientDelivery(quorums, s, p, unset, b);
        ReceiveKeepsId(s.nodes[p.to], p.msg, unset);
        assert VoteRecorded(Next(s, a), b) == VoteRecorded(s, b);
      } else {
        LoseCharge(quorums, s, p, b);
      }
    case Finish(i) => FinishCharge(quorums, s, i, b);
    case Lose(p) => LoseCharge(quorums, s, p, b);
  }

  /** `a` lets a client of `b` enter without a LOCK of `b`. */
  ghost predicate EntersWithout(quorums: Quorums, s: System, a: Action, b: int)
    requires Enabled(s, a)
  {
    a.Deliver? && a.packet.to in Clients(quorums, b) && a.packet.to in s.nodes &&
    var n := s.nodes[a.packet.to];
    var after := Receive(n, a.packet.msg, a.unset).node;
    !n.inCS && after.inCS && !(b in after.responses && after.responses[b] == LOCK)
  }

  /** The receiver has an answer of its own on record. */
  predicate CountsItself(s: System, a: Action)
    requires Enabled(s, a)
  {
    a.Deliver? && a.packet.to in s.nodes &&
    a.packet.to in Receive(s.nodes[a.packet.to], a.packet.msg, a.unset).node.responses
  }

  lemma WithoutMeansOwnVote(quorums: Quorums, s: System, a: Action, b: int)
    requires OwnMember(quorums) && Inv(quorums, s) && Enabled(s, a) && EntersWithout(quorums, s, a, b)
    ensures CountsItself(s, a)
  {
    var p := a.packet;
    assert PacketOk(quorums, Seqs(s), p) && NodeOk(quorums, Seqs(s), s.nodes[p.to]);
    EntryIsPaid(s.nodes[p.to], p.msg, a.unset, b);
  }

  /** A client holds more than it is given only by entering without a LOCK of `b`. */
  lemma ClientHoldsExactly(n: Node, m: Message, unset: int, b: int)
    requires CanReceive(n, m)
    ensures var after := Receive(n, m, unset).node;
            var unpaid := !n.inCS && after.inCS && !(b in after.responses && after.responses[b] == LOCK);
            HoldingOf(after, b) <= HoldingOf(n, b) + One(m == Lock(b)) + One(unpaid)
  {
  }

  lemma DeliveryChangesVotes(quorums: Quorums, s: System, p: Packet, unset: int, b: int)
    requires OwnMember(quorums) && Inv(quorums, s) && b in s.nodes && Enabled(s, Deliver(p, unset))
    ensures var a := Deliver(p, unset);
            var change := Potential(quorums, Next(s, a), b) - Potential(quorums, s, b);
            if Abandons(s, a, b) then change == 1 else change <= One(EntersWithout(quorums, s, a, b))
  {
    var a := Deliver(p, unset);
    if p.to == b {
      if SelfGrant(s, a) {
        OwnGrant(quorums, s, p, unset, b);
      } else {
        ArbiterReceives(quorums, s, p, unset, b);
      }
    } else if p.to in s.nodes {
      VotesDelivered(quorums, s, p, unset, b);
      ReceiveKeepsId(s.nodes[p.to], p.msg, unset);
      ClientHoldsExactly(s.nodes[p.to], p.msg, unset, b);
      assert VoteRecorded(Next(s, a), b) == VoteRecorded(s, b);
    } else {
      TakeKeepsVotes(quorums, s, p, b);
    }
  }

  /** Every step again, now exactly where it matters: abandoning a vote raises votes out less votes
      recorded by one, and nothing else raises them but a client that enters without a LOCK of `b`,
      on a LOCK it has sent to itself. */
  lemma NextChangesVotes(quorums: Quorums, s: System, a: Action, b: int)
    requires OwnMember(quorums) && Inv(quorums, s) && b in s.nodes && Enabled(s, a)
    ensures var change := Potential(quorums, Next(s, a), b) - Potential(quorums, s, b);
            if Abandons(s, a, b) then change == 1 else change <= One(EntersWithout(quorums, s, a, b))
    ensures EntersWithout(quorums, s, a, b) ==> CountsItself(s, a)
  {
    if EntersWithout(quorums, s, a, b) {
      WithoutMeansOwnVote(quorums, s, a, b);
    }
    StepChangesVotes(quorums, s, a, b);
  }

  lemma StepChangesVotes(quorums: Quorums, s: System, a: Action, b: int)
    requires OwnMember(quorums) && Inv(quorums, s) && b in s.nodes && Enabled(s, a)
    ensures var change := Potential(quorums, Next(s, a), b) - Potential(quorums, s, b);
            if Abandons(s, a, b) then change == 1 else change <= One(EntersWithout(quorums, s, a, b))
  {
    match a
    case Ask(i) => AskerVotes(quorums, s, i, b);
    case Deliver(p, unset) => DeliveryChangesVotes(quorums, s, p, unset, b);
    case Finish(i) =>
      if i == b {
        LeaverAsArbiter(quorums, s, b);
      } else {
        LeaverAsClient(quorums, s, i, b);
      }
    case Lose(p) => TakeKeepsVotes(quorums, s, p, b);
  }

  lemma {:induction false} RunKeepsCharge(quorums: Quorums, s: System, acts: seq<Action>, b: int)
    requires OwnMember(quorums) && Inv(quorums, s) && b in s.nodes && Feasible(s, acts)
    ensures Inv(quorums, After(s, acts))
    ensures Charge(quorums, After(s, acts), b)
            <= Charge(quorums, s, b) + Abandoned(s, acts, b) + SelfGrants(s, acts)
    decreases |acts|
  {
    if acts != [] {
      NextKeepsInv(quorums, s, acts[0]);
      NextKeepsCharge(quorums, s, acts[0], b);
      RunKeepsCharge(quorums, Next(s, acts[0]), acts[1..], b);
    }
  }

  lemma StartCharge(quorums: Quorums, b: int)
    ensures Charge(quorums, Start(quorums), b) == 0
  {
    StartVotes(quorums, b);
    SameSum(x => SelfAt(Start(quorums), x), x => 0, quorums.Keys);
    ZeroSum(quorums.Keys);
  }

  /** In every run whatever, the votes of an arbiter that are out, and so the nodes inside that
      ask for its vote, are at most the one it records, those it has abandoned, and one for every
      node that granted its own request by message. */
  lemma EveryRunIsBounded(quorums: Quorums, acts: seq<Action>, b: int)
    requires OwnMember(quorums) && b in quorums && Feasible(Start(quorums), acts)
    ensures var t := After(Start(quorums), acts);
            && VotesOut(quorums, t, b)
               <= VoteRecorded(t, b) + Abandoned(Start(quorums), acts, b) + SelfGrants(Start(quorums), acts)
            && |InCS(t) * Clients(quorums, b)| <= VotesOut(quorums, t, b)
  {
    StartInv(quorums);
    StartCharge(quorums, b);
    RunKeepsCharge(quorums, Start(quorums), acts, b);
    var t := After(Start(quorums), acts);
    CountBelowSum(x => VotesAt(t, b, x), Clients(quorums, b), InCS(t) * Clients(quorums, b));
    CountBelowSum(x => SelfAt(t, x), quorums.Keys, {});
  }
}
