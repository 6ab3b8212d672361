/** What an arbiter that issues no requests knows about its vote, and what every node can rely
    on, at every moment of every run. */
module MakArbiter {
  import opened Priority
  import opened MakProtocol
  import opened MakSystem
  import opened MakSafety
  import opened MakExclusion

  /** At most one client of `b` has its vote: on the way to it, with it, or on the way back; and
      that client is the one `b` is locked for. */
  ghost predicate VoteIsWhereRecorded(quorums: Quorums, s: System, b: int) {
    forall x :: x in Clients(quorums, b) ==> VoteOnlyIfLockedFor(s, b, x)
  }

  ghost predicate VoteOnlyIfLockedFor(s: System, b: int, x: int) {
    && VotesAt(s, b, x) <= 1
    && (VotesAt(s, b, x) == 1 ==> b in s.nodes && s.nodes[b].isLocked && s.nodes[b].lockedFor.from == x)
  }

  // ----- the effect of one step on one client

  lemma ClientStep(s: System, o: Outcome, b: int, d: int, x: int)
    requires d in s.nodes && o.node.id == d && d != b && x != b
    requires forall p :: p in o.sent ==> p.msg.Sender() == d
    ensures VotesAt(Apply(s, o), b, x) == VotesAt(s, b, x) +
            if x == d then HoldingOf(o.node, b) - HoldingOf(s.nodes[d], b) + o.sent[Packet(b, Release(d))] else 0
  {
    assert Packet(x, Lock(b)).msg.Sender() != d;
    if x != d {
      assert Packet(b, Release(x)).msg.Sender() != d;
    }
  }

  lemma ArbiterStep(s: System, o: Outcome, b: int, granted: set<int>, x: int)
    requires b in s.nodes && o.node.id == b && x != b
    requires o.sent[Packet(x, Lock(b))] == if x in granted then 1 else 0
    requires Packet(b, Release(x)) !in o.sent
    ensures VotesAt(Apply(s, o), b, x) == VotesAt(s, b, x) + if x in granted then 1 else 0
  {
  }

  // ----- steps elsewhere

  lemma ClientReceivesVote(quorums: Quorums, s: System, p: Packet, unset: int, b: int, x: int)
    requires OwnMember(quorums) && Inv(quorums, s) && NoSelfVotes(s)
    requires b in s.nodes && p.to in s.nodes && p.to != b && x in Clients(quorums, b)
    requires Enabled(s, Deliver(p, unset)) && !SelfGrant(s, Deliver(p, unset))
    ensures VotesAt(Next(s, Deliver(p, unset)), b, x) <= VotesAt(s, b, x)
  {
    var d := p.to;
    var n := s.nodes[d];
    var o := Receive(n, p.msg, unset);
    TakenFrom(s, p, b, x);
    forall r | r in o.sent ensures r.msg.Sender() == d && !r.msg.Release? {
      ReceiveSender(n, p.msg, unset, r);
    }
    ReceiveKeepsId(n, p.msg, unset);
    ClientStep(s.(net := s.net - multiset{p}), o, b, d, x);
    if x == d {
      HoldsWhatItIsGiven(quorums, s, p, unset, b);
    }
  }

  lemma HoldsWhatItIsGiven(quorums: Quorums, s: System, p: Packet, unset: int, b: int)
    requires OwnMember(quorums) && Inv(quorums, s) && NoSelfVotes(s)
    requires b in s.nodes && p.to in s.nodes && p.to in Clients(quorums, b)
    requires Enabled(s, Deliver(p, unset)) && !SelfGrant(s, Deliver(p, unset))
    ensures HoldingOf(Receive(s.nodes[p.to], p.msg, unset).node, b)
            <= HoldingOf(s.nodes[p.to], b) + if p.msg == Lock(b) then 1 else 0
  {
    var n := s.nodes[p.to];
    ReceiveKeepsId(n, p.msg, unset);
    if p.msg.Lock? && !n.inCS && Receive(n, p.msg, unset).node.inCS {
      EveryOtherMemberVoted(quorums, s, p, unset);
    }
    ClientHolds(n, p.msg, unset, b);
  }

  lemma ClientLeaves(quorums: Quorums, s: System, i: int, b: int, x: int)
    requires Inv(quorums, s) && b in s.nodes && Enabled(s, Finish(i)) && i != b && x != b
    ensures VotesAt(Next(s, Finish(i)), b, x) <= VotesAt(s, b, x)
  {
    var n := s.nodes[i];
    assert NodeOk(quorums, Seqs(s), n);
    forall p | p in Leave(n).sent ensures p.msg.Sender() == i {
      LeaveSender(n, p);
    }
    LeaveSends(n, Packet(b, Release(i)));
    ClientStep(s, Leave(n), b, i, x);
  }

  lemma ClientAsks(s: System, i: int, b: int, x: int)
    requires i in s.nodes && s.nodes[i].id == i && i != b && x != b
    ensures VotesAt(Next(s, Ask(i)), b, x) == VotesAt(s, b, x)
  {
    var o := SendRequest(s.nodes[i]);
    forall p | p in o.sent ensures p.msg.Request? && p.msg.Sender() == i {
      SendRequestSender(s.nodes[i], p);
    }
    ClientStep(s, o, b, i, x);
  }

  predicate Elsewhere(a: Action, b: int) {
    match a
    case Ask(i) => i != b
    case Deliver(p, _) => p.to != b
    case Finish(i) => i != b
    case Lose(_) => true
  }

  lemma ElsewhereKeepsNode(quorums: Quorums, s: System, a: Action, b: int)
    requires Inv(quorums, s) && b in s.nodes && Enabled(s, a) && Elsewhere(a, b)
    ensures b in Next(s, a).nodes && Next(s, a).nodes[b] == s.nodes[b]
  {
    if a.Deliver? && a.packet.to in s.nodes {
      ReceiveKeepsId(s.nodes[a.packet.to], a.packet.msg, a.unset);
    }
  }

  /** Nothing that happens at another node makes more votes of `b`. */
  lemma ElsewhereMakesNoVote(quorums: Quorums, s: System, a: Action, b: int, x: int)
    requires OwnMember(quorums) && Inv(quorums, s) && NoSelfVotes(s)
    requires b in s.nodes && x in Clients(quorums, b)
    requires Enabled(s, a) && !SelfGrant(s, a) && Elsewhere(a, b)
    ensures VotesAt(Next(s, a), b, x) <= VotesAt(s, b, x)
    ensures b in Next(s, a).nodes && Next(s, a).nodes[b] == s.nodes[b]
  {
    ElsewhereKeepsNode(quorums, s, a, b);
    match a
    case Ask(i) =>
      ClientAsks(s, i, b, x);
    case Deliver(p, unset) =>
      if p.to in s.nodes {
        ClientReceivesVote(quorums, s, p, unset, b, x);
      } else {
        TakenFrom(s, p, b, x);
      }
    case Finish(i) =>
      ClientLeaves(quorums, s, i, b, x);
    case Lose(p) =>
      TakenFrom(s, p, b, x);
  }

  // ----- receptions at the arbiter

  lemma QuietQueue(quorums: Quorums, s: System, b: int)
    requires Inv(quorums, s) && Quiet(s, b)
    ensures s.nodes[b].id == b && VoteAgrees(s.nodes[b])
    ensures s.nodes[b].isLocked ==> s.nodes[b].lockedFor.from != b
  {
    NoKeyFromQuiet(quorums, s, b);
    assert NodeOk(quorums, Seqs(s), s.nodes[b]);
  }

  /** How a reception changes what the arbiter records; only a RELEASE makes it forget. */
  lemma WhatIsRecorded(n: Node, m: Message, unset: int)
    requires CanReceive(n, m) && VoteAgrees(n) && !m.Relinquish? && (n.isLocked ==> n.lockedFor.from != n.id)
    ensures var after := Receive(n, m, unset).node;
            && (GrantedBy(n, m) == {} && !m.Release? ==>
                  after.isLocked == n.isLocked && after.lockedFor == n.lockedFor)
            && (forall x :: x in GrantedBy(n, m) ==>
                  after.isLocked && after.lockedFor.from == x && (!n.isLocked || m.Release?))
  {
  }

  lemma ArbiterReceivesAbout(quorums: Quorums, s: System, p: Packet, unset: int, b: int, x: int)
    requires Inv(quorums, s) && b in s.nodes && p.to == b && x != b
    requires Enabled(s, Deliver(p, unset))
    ensures VotesAt(Next(s, Deliver(p, unset)), b, x) == VotesAt(s, b, x)
            + (if x in GrantedBy(s.nodes[b], p.msg) then 1 else 0) - (if p.msg == Release(x) then 1 else 0)
  {
    var n := s.nodes[b];
    ArbiterSends(n, p.msg, unset);
    ReceiveKeepsId(n, p.msg, unset);
    TakenFrom(s, p, b, x);
    ArbiterStep(s.(net := s.net - multiset{p}), Receive(n, p.msg, unset), b, GrantedBy(n, p.msg), x);
  }

  /** A RELEASE that arrives is the vote coming back, so its sender is who `b` is locked for. */
  lemma ReleaseIsTheVote(quorums: Quorums, s: System, p: Packet, b: int, x: int)
    requires Inv(quorums, s) && VoteIsWhereRecorded(quorums, s, b)
    requires p in s.net && p.to == b && p.msg.Release? && x in Clients(quorums, b)
    ensures p.msg.from != x ==> VotesAt(s, b, x) == 0
    ensures p.msg.from == x ==> VotesAt(s, b, x) == 1
  {
    var f := p.msg.from;
    CarrierIsClient(quorums, s, p, b);
    assert s.net[Packet(b, Release(f))] >= 1;
    assert VoteOnlyIfLockedFor(s, b, f) && VoteOnlyIfLockedFor(s, b, x);
  }

  lemma ArbiterKeepsVote(quorums: Quorums, s: System, p: Packet, unset: int, b: int, x: int)
    requires Inv(quorums, s) && Quiet(s, b) && VoteIsWhereRecorded(quorums, s, b) && x in Clients(quorums, b)
    requires p.to == b && !p.msg.Relinquish? && Enabled(s, Deliver(p, unset))
    ensures VoteOnlyIfLockedFor(Next(s, Deliver(p, unset)), b, x)
  {
    var n := s.nodes[b];
    QuietQueue(quorums, s, b);
    ReceiveKeepsId(n, p.msg, unset);
    ArbiterReceivesAbout(quorums, s, p, unset, b, x);
    WhatIsRecorded(n, p.msg, unset);
    assert VoteOnlyIfLockedFor(s, b, x);
    if p.msg.Release? {
      ReleaseIsTheVote(quorums, s, p, b, x);
    }
  }

  lemma NextKeepsArbiter(quorums: Quorums, s: System, a: Action, b: int)
    requires OwnMember(quorums) && Inv(quorums, s) && NoSelfVotes(s)
    requires Quiet(s, b) && VoteIsWhereRecorded(quorums, s, b)
    requires Enabled(s, a) && a != Ask(b) && (a.Deliver? ==> !a.packet.msg.Relinquish?)
    ensures VoteIsWhereRecorded(quorums, Next(s, a), b)
  {
    forall x | x in Clients(quorums, b) ensures VoteOnlyIfLockedFor(Next(s, a), b, x) {
      if Elsewhere(a, b) {
        ElsewhereMakesNoVote(quorums, s, a, b, x);
        assert VoteOnlyIfLockedFor(s, b, x);
      } else {
        ArbiterKeepsVote(quorums, s, a.packet, a.unset, b, x);
      }
    }
  }

  lemma {:induction false} RunKeepsArbiter(
      quorums: Quorums, s: System, acts: seq<Action>, requesters: set<int>, b: int)
    requires OwnMember(quorums) && Inv(quorums, s) && NoSelfVotes(s)
    requires Quiet(s, b) && VoteIsWhereRecorded(quorums, s, b) && b !in requesters
    requires Feasible(s, acts) && Within(acts, requesters)
    ensures VoteIsWhereRecorded(quorums, After(s, acts), b)
    decreases |acts|
  {
    if acts != [] {
      assert Permitted(acts[0], requesters);
      NextKeepsInv(quorums, s, acts[0]);
      NextKeepsNoSelfVotes(quorums, s, acts[0]);
      NextKeepsQuiet(quorums, s, acts[0], b);
      NextKeepsArbiter(quorums, s, acts[0], b);
      assert Within(acts[1..], requesters);
      RunKeepsArbiter(quorums, Next(s, acts[0]), acts[1..], requesters, b);
    }
  }

  // ----- at every moment of every run

  /** The arbiter's invariant: in every RELINQUISH-free run, a node that issues no requests has
      its vote with at most one client, counted over both directions of the network and the
      client itself, and none but the one it is locked for. */
  lemma ArbiterInvariant(quorums: Quorums, acts: seq<Action>, requesters: set<int>, b: int, x: int)
    requires OwnMember(quorums) && b in quorums && b !in requesters
    requires x in quorums && x != b && b in quorums[x]
    requires Feasible(Start(quorums), acts) && Within(acts, requesters)
    ensures VoteOnlyIfLockedFor(After(Start(quorums), acts), b, x)
  {
    StartVotes(quorums, b);
    RunKeepsArbiter(quorums, Start(quorums), acts, requesters, b);
  }

  /** What holds of one node: its records of its vote agree, its queue holds only requests sent to
      it, with numbers that their senders have used, and only quorum members have answered it. */
  ghost predicate NodeAgrees(quorums: Quorums, t: System, d: int)
    requires d in t.nodes
  {
    var n := t.nodes[d];
    && d in quorums && n.quorum == quorums[d] && n.responses.Keys <= n.quorum
    && VoteAgrees(n)
    && forall k :: k in n.waiting ==> Addressed(quorums, Seqs(t), k, d)
  }

  /** At every moment of every run all nodes agree in this way, and every request on its way goes
      to another member of its sender's quorum. */
  lemma EveryRunAgrees(quorums: Quorums, acts: seq<Action>)
    requires OwnMember(quorums) && Feasible(Start(quorums), acts)
    ensures var t := After(Start(quorums), acts);
            && (forall d :: d in t.nodes ==> NodeAgrees(quorums, t, d))
            && (forall p :: p in t.net && p.msg.Request? ==>
                              p.to != p.msg.key.from && Addressed(quorums, Seqs(t), p.msg.key, p.to))
  {
    StartInv(quorums);
    RunKeepsInv(quorums, Start(quorums), acts);
    AllAgree(quorums, After(Start(quorums), acts));
  }

  lemma AllAgree(quorums: Quorums, t: System)
    requires Inv(quorums, t)
    ensures forall d :: d in t.nodes ==> NodeAgrees(quorums, t, d)
    ensures forall p :: p in t.net && p.msg.Request? ==>
                          p.to != p.msg.key.from && Addressed(quorums, Seqs(t), p.msg.key, p.to)
  {
    forall d | d in t.nodes ensures NodeAgrees(quorums, t, d) {
      assert NodeOk(quorums, Seqs(t), t.nodes[d]);
    }
    forall p | p in t.net && p.msg.Request?
      ensures p.to != p.msg.key.from && Addressed(quorums, Seqs(t), p.msg.key, p.to)
    {
      assert PacketOk(quorums, Seqs(t), p);
    }
  }

  // ----- inquiries

  /** A node keeps an inquiry waiting only while nobody has refused it. */
  predicate Unrefused(n: Node) {
    n.inquiries != {} ==> !n.HasRefusal()
  }

  lemma ReceiveKeepsUnrefused(n: Node, m: Message, unset: int)
    requires CanReceive(n, m) && Unrefused(n)
    ensures Unrefused(Receive(n, m, unset).node)
  {
    if m.Lock? {
      assert Receive(n, m, unset).node.responses == n.responses[m.from := LOCK];
    }
  }

  lemma NextKeepsUnrefused(s: System, a: Action, i: int)
    requires Enabled(s, a) && (forall j :: j in s.nodes ==> s.nodes[j].id == j && Unrefused(s.nodes[j]))
    requires i in Next(s, a).nodes
    ensures i in s.nodes && Next(s, a).nodes[i].id == i && Unrefused(Next(s, a).nodes[i])
  {
    if a.Deliver? && a.packet.to in s.nodes {
      ReceiveKeepsUnrefused(s.nodes[a.packet.to], a.packet.msg, a.unset);
      ReceiveKeepsId(s.nodes[a.packet.to], a.packet.msg, a.unset);
    }
  }

  lemma {:induction false} RunKeepsUnrefused(s: System, acts: seq<Action>)
    requires Feasible(s, acts) && (forall j :: j in s.nodes ==> s.nodes[j].id == j && Unrefused(s.nodes[j]))
    ensures forall j :: j in After(s, acts).nodes ==> Unrefused(After(s, acts).nodes[j])
    decreases |acts|
  {
    if acts != [] {
      forall i | i in Next(s, acts[0]).nodes
        ensures Next(s, acts[0]).nodes[i].id == i && Unrefused(Next(s, acts[0]).nodes[i])
      {
        NextKeepsUnrefused(s, acts[0], i);
      }
      RunKeepsUnrefused(Next(s, acts[0]), acts[1..]);
    }
  }

  /** In every run an inquiry waits only at nodes that no recorded answer refuses. */
  lemma WaitingMeansUnrefused(quorums: Quorums, acts: seq<Action>, i: int)
    requires Feasible(Start(quorums), acts) && i in After(Start(quorums), acts).nodes
    ensures Unrefused(After(Start(quorums), acts).nodes[i])
  {
    RunKeepsUnrefused(Start(quorums), acts);
  }

  // ----- entering

  /** Delivering `p` lets its addressee enter. */
  predicate Enters(s: System, p: Packet, unset: int) {
    && Enabled(s, Deliver(p, unset)) && p.to in s.nodes && !s.nodes[p.to].inCS
    && Receive(s.nodes[p.to], p.msg, unset).node.inCS
  }

  /** As many LOCK answers as there are other members. */
  predicate EnoughLocks(n: Node) {
    |n.responses| == |n.quorum| - 1 && forall a :: a in n.responses ==> n.responses[a] == LOCK
  }

  predicate EveryOtherLocked(n: Node) {
    n.responses == map m | m in n.quorum && m != n.id :: LOCK
  }

  lemma ReceiveKeepsQuorum(n: Node, m: Message, unset: int)
    requires CanReceive(n, m)
    ensures Receive(n, m, unset).node.quorum == n.quorum
  {
  }

  lemma EntryWithoutOwnVote(n: Node, m: Message, unset: int)
    requires CanReceive(n, m) && !n.inCS && Receive(n, m, unset).node.inCS
    requires n.id in n.quorum && n.responses.Keys <= n.quorum && (m.Lock? ==> m.from in n.quorum)
    requires n.id !in Receive(n, m, unset).node.responses
    ensures EveryOtherLocked(Receive(n, m, unset).node)
  {
    var after := Receive(n, m, unset).node;
    EntryNeedsLocks(n, m, unset);
    ReceiveKeepsId(n, m, unset);
    ReceiveKeepsQuorum(n, m, unset);
    SameSizeSubset(after.responses.Keys, n.quorum - {n.id});
    var expected := map q | q in n.quorum && q != n.id :: LOCK;
    assert expected.Keys == n.quorum - {n.id};
  }

  ghost predicate RelinquishFree(acts: seq<Action>) {
    forall k :: 0 <= k < |acts| ==> acts[k].Deliver? ==> !acts[k].packet.msg.Relinquish?
  }

  lemma {:induction false} RelinquishFreeRun(quorums: Quorums, s: System, acts: seq<Action>)
    requires OwnMember(quorums) && Inv(quorums, s) && NoSelfVotes(s) && Feasible(s, acts) && RelinquishFree(acts)
    ensures NoSelfVotes(After(s, acts))
    decreases |acts|
  {
    if acts != [] {
      assert acts[0].Deliver? ==> !acts[0].packet.msg.Relinquish?;
      NextKeepsInv(quorums, s, acts[0]);
      NextKeepsNoSelfVotes(quorums, s, acts[0]);
      assert RelinquishFree(acts[1..]);
      RelinquishFreeRun(quorums, Next(s, acts[0]), acts[1..]);
    }
  }

  /** Entering. After every run, what lets a node enter is a LOCK that completes as many LOCK
      answers as its quorum has other members. Unless one of them is its own, sent by itself to
      itself, these are the answers of all other members; and in a run without RELINQUISH they
      always are. */
  lemma EveryEntry(quorums: Quorums, acts: seq<Action>, p: Packet, unset: int)
    requires OwnMember(quorums) && Feasible(Start(quorums), acts)
    requires Enters(After(Start(quorums), acts), p, unset)
    ensures var n := Receive(After(Start(quorums), acts).nodes[p.to], p.msg, unset).node;
            && p.msg.Lock? && EnoughLocks(n)
            && (p.to !in n.responses ==> EveryOtherLocked(n))
            && (RelinquishFree(acts) ==> EveryOtherLocked(n))
  {
    var s := After(Start(quorums), acts);
    StartInv(quorums);
    RunKeepsInv(quorums, Start(quorums), acts);
    EntryAnswers(quorums, s, p, unset);
    if RelinquishFree(acts) {
      StartVotes(quorums, p.to);
      RelinquishFreeRun(quorums, Start(quorums), acts);
      ReceiveRecordsOthers(s.nodes[p.to], p.msg, unset);
    }
  }

  lemma EntryAnswers(quorums: Quorums, s: System, p: Packet, unset: int)
    requires OwnMember(quorums) && Inv(quorums, s) && Enters(s, p, unset)
    ensures var n := Receive(s.nodes[p.to], p.msg, unset).node;
            p.msg.Lock? && EnoughLocks(n) && (p.to !in n.responses ==> EveryOtherLocked(n))
  {
    ReceiveKeepsQuorum(s.nodes[p.to], p.msg, unset);
    EntryNeedsLocks(s.nodes[p.to], p.msg, unset);
    assert NodeOk(quorums, Seqs(s), s.nodes[p.to]) && PacketOk(quorums, Seqs(s), p);
    if p.to !in Receive(s.nodes[p.to], p.msg, unset).node.responses {
      EntryWithoutOwnVote(s.nodes[p.to], p.msg, unset);
    }
  }
}
