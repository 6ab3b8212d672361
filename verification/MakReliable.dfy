/** When does the Maekawa-style algorithm exclude in runs without RELINQUISH? The exact condition on
    quorums and requesters, with nothing asked of either but that nodes are in their own quorums. */
module MakReliable {
  import opened Priority
  import opened MakProtocol
  import opened MakSystem
  import opened MakSafety
  import opened MakExclusion
  import opened MakArbiter
  import opened MakRelinquish
  import opened Sums

  // ----- an arbiter that is alone in its quorum

  /** `b` has asked, and its first request stays in its queue; `x` and `y` have one vote of `b` at
      most between them. */
  ghost predicate Blocked(s: System, b: int, x: int, y: int) {
    && b in s.nodes && !s.nodes[b].inCS && Key(1, b) in s.nodes[b].waiting
    && VotesAt(s, b, x) + VotesAt(s, b, y) <= 1
  }

  /** `b` has not asked and records whose vote it is, or it has asked. */
  ghost predicate HoldsBack(quorums: Quorums, s: System, b: int, x: int, y: int) {
    || (Quiet(s, b) && VoteIsWhereRecorded(quorums, s, b))
    || Blocked(s, b, x, y)
  }

  lemma OneOfTwo(quorums: Quorums, s: System, b: int, x: int, y: int)
    requires VoteIsWhereRecorded(quorums, s, b) && x in Clients(quorums, b) && y in Clients(quorums, b) && x != y
    ensures VotesAt(s, b, x) + VotesAt(s, b, y) <= 1
  {
    assert VoteOnlyIfLockedFor(s, b, x) && VoteOnlyIfLockedFor(s, b, y);
  }

  lemma OwnAsk(quorums: Quorums, s: System, b: int, x: int)
    requires Inv(quorums, s) && b in s.nodes && x != b
    ensures VotesAt(Next(s, Ask(b)), b, x) == VotesAt(s, b, x)
  {
    var o := SendRequest(s.nodes[b]);
    forall p | p in o.sent ensures p.msg.Request? {
      SendRequestSender(s.nodes[b], p);
    }
    ArbiterStep(s, o, b, {}, x);
  }

  /** The first request of `b` goes before those of all larger ids, so no vote goes there. */
  lemma FirstIsSmaller(quorums: Quorums, seqs: map<int, int>, b: int, waiting: set<Key>, x: int)
    requires Key(1, b) in waiting && b < x
    requires forall k :: k in waiting ==> Addressed(quorums, seqs, k, b)
    ensures First(waiting).from != x
  {
    var k := First(waiting);
    assert k == Key(1, b) || Before(k, Key(1, b));
    assert Addressed(quorums, seqs, k, b);
  }

  lemma GrantsPassBy(quorums: Quorums, s: System, p: Packet, b: int, x: int)
    requires Inv(quorums, s) && b in s.nodes && Key(1, b) in s.nodes[b].waiting && b < x
    requires p in s.net && p.to == b && !p.msg.Relinquish?
    ensures x !in GrantedBy(s.nodes[b], p.msg)
  {
    var n := s.nodes[b];
    assert NodeOk(quorums, Seqs(s), n) && PacketOk(quorums, Seqs(s), p);
    match p.msg
    case Request(k) =>
      FirstIsSmaller(quorums, Seqs(s), b, n.waiting + {k}, x);
    case Release(from) =>
      FirstIsSmaller(quorums, Seqs(s), b, EraseFirstFrom(n.waiting, from), x);
    case _ =>
  }

  lemma KeepsOwnRequest(quorums: Quorums, s: System, p: Packet, unset: int, b: int)
    requires Inv(quorums, s) && b in s.nodes && Key(1, b) in s.nodes[b].waiting
    requires p in s.net && p.to == b && CanReceive(s.nodes[b], p.msg)
    ensures Key(1, b) in Receive(s.nodes[b], p.msg, unset).node.waiting
  {
    assert PacketOk(quorums, Seqs(s), p);
    QueueKeeps(s.nodes[b], p.msg, unset, Key(1, b));
  }

  /** Only a RELEASE of its sender takes a request out of a queue. */
  lemma QueueKeeps(n: Node, m: Message, unset: int, k: Key)
    requires CanReceive(n, m) && k in n.waiting && (m.Release? ==> m.from != k.from)
    ensures k in Receive(n, m, unset).node.waiting
  {
    if m.Release? && SentBy(n.waiting, m.from) != {} {
      assert First(SentBy(n.waiting, m.from)) in SentBy(n.waiting, m.from);
    }
  }

  lemma BlockedReceives(quorums: Quorums, s: System, p: Packet, unset: int, b: int, x: int, y: int)
    requires Inv(quorums, s) && Blocked(s, b, x, y) && b < x && b < y && b in quorums && |quorums[b]| < 2
    requires p.to == b && !p.msg.Relinquish? && Enabled(s, Deliver(p, unset))
    ensures Blocked(Next(s, Deliver(p, unset)), b, x, y)
  {
    assert NodeOk(quorums, Seqs(s), s.nodes[b]);
    ReceiveKeepsId(s.nodes[b], p.msg, unset);
    KeepsOwnRequest(quorums, s, p, unset, b);
    AloneDoesNotEnter(s.nodes[b], p.msg, unset);
    GrantsPassBy(quorums, s, p, b, x);
    GrantsPassBy(quorums, s, p, b, y);
    ArbiterReceivesAbout(quorums, s, p, unset, b, x);
    ArbiterReceivesAbout(quorums, s, p, unset, b, y);
  }

  /** Two clients of `b` with larger ids. */
  ghost predicate Behind(quorums: Quorums, b: int, x: int, y: int) {
    b in quorums && |quorums[b]| < 2 && x in Clients(quorums, b) && y in Clients(quorums, b) && b < x < y
  }

  lemma NextKeepsBlocked(quorums: Quorums, s: System, a: Action, b: int, x: int, y: int)
    requires OwnMember(quorums) && Inv(quorums, s) && NoSelfVotes(s) && Behind(quorums, b, x, y)
    requires Blocked(s, b, x, y) && Enabled(s, a) && (a.Deliver? ==> !a.packet.msg.Relinquish?)
    ensures Blocked(Next(s, a), b, x, y)
  {
    if Elsewhere(a, b) {
      ElsewhereMakesNoVote(quorums, s, a, b, x);
      ElsewhereMakesNoVote(quorums, s, a, b, y);
    } else if a.Ask? {
      OwnAsk(quorums, s, b, x);
      OwnAsk(quorums, s, b, y);
    } else {
      BlockedReceives(quorums, s, a.packet, a.unset, b, x, y);
    }
  }

  lemma NextKeepsHeldBack(quorums: Quorums, s: System, a: Action, b: int, x: int, y: int)
    requires OwnMember(quorums) && Inv(quorums, s) && NoSelfVotes(s) && Behind(quorums, b, x, y)
    requires HoldsBack(quorums, s, b, x, y) && Enabled(s, a) && (a.Deliver? ==> !a.packet.msg.Relinquish?)
    ensures HoldsBack(quorums, Next(s, a), b, x, y)
  {
    if Blocked(s, b, x, y) {
      NextKeepsBlocked(quorums, s, a, b, x, y);
    } else if a == Ask(b) {
      OneOfTwo(quorums, s, b, x, y);
      OwnAsk(quorums, s, b, x);
      OwnAsk(quorums, s, b, y);
      assert s.nodes[b].id == b;
      assert Blocked(Next(s, a), b, x, y);
    } else {
      NextKeepsQuiet(quorums, s, a, b);
      NextKeepsArbiter(quorums, s, a, b);
    }
  }

  lemma NoGrantToItself(s: System, a: Action, requesters: set<int>)
    requires Enabled(s, a) && Permitted(a, requesters)
    ensures !SelfGrant(s, a)
  {
  }

  lemma {:induction false} RunHoldsBack(
      quorums: Quorums, s: System, acts: seq<Action>, requesters: set<int>, b: int, x: int, y: int)
    requires OwnMember(quorums) && Inv(quorums, s) && NoSelfVotes(s) && Behind(quorums, b, x, y)
    requires HoldsBack(quorums, s, b, x, y) && Feasible(s, acts) && Within(acts, requesters)
    ensures HoldsBack(quorums, After(s, acts), b, x, y)
    decreases |acts|
  {
    if acts != [] {
      assert Permitted(acts[0], requesters);
      NoGrantToItself(s, acts[0], requesters);
      NextKeepsInv(quorums, s, acts[0]);
      NextKeepsNoSelfVotes(quorums, s, acts[0]);
      NextKeepsHeldBack(quorums, s, acts[0], b, x, y);
      assert Within(acts[1..], requesters);
      RunHoldsBack(quorums, Next(s, acts[0]), acts[1..], requesters, b, x, y);
    }
  }

  /** So it keeps apart any two requesters with larger ids, although it may ask itself. */
  lemma AloneArbiterExcludes(quorums: Quorums, acts: seq<Action>, requesters: set<int>, b: int, x: int, y: int)
    requires OwnMember(quorums) && Behind(quorums, b, x, y)
    requires Feasible(Start(quorums), acts) && Within(acts, requesters)
    ensures !({x, y} <= InCS(After(Start(quorums), acts)))
  {
    StartVotes(quorums, b);
    var t := After(Start(quorums), acts);
    RunHoldsBack(quorums, Start(quorums), acts, requesters, b, x, y);
    if !Blocked(t, b, x, y) {
      OneOfTwo(quorums, t, b, x, y);
    }
    assert VotesAt(t, b, x) + VotesAt(t, b, y) <= 1;
  }

  // ----- the theorem

  /** Every two requesters that can enter at all share a reliable member. */
  ghost predicate ShareReliable(quorums: Quorums, requesters: set<int>)
    requires Closed(quorums) && requesters <= quorums.Keys
  {
    forall x, y :: x in Able(quorums, requesters) && y in Able(quorums, requesters) && x < y ==>
      exists b :: b in quorums[x] && b in quorums[y] && Reliable(quorums, requesters, b, x)
  }

  lemma ReliableExcludes(quorums: Quorums, acts: seq<Action>, requesters: set<int>, b: int, x: int, y: int)
    requires OwnMember(quorums) && Closed(quorums) && requesters <= quorums.Keys
    requires Feasible(Start(quorums), acts) && Within(acts, requesters)
    requires x in Able(quorums, requesters) && y in Able(quorums, requesters) && x < y
    requires b in quorums[x] && b in quorums[y] && Reliable(quorums, requesters, b, x)
    ensures !({x, y} <= InCS(After(Start(quorums), acts)))
  {
    if b !in requesters {
      SharedArbiterExcludes(quorums, acts, requesters, b, x, y);
    } else {
      AloneArbiterExcludes(quorums, acts, requesters, b, x, y);
    }
  }

  lemma WithinIsAskedBy(acts: seq<Action>, requesters: set<int>)
    requires Within(acts, requesters)
    ensures AskedBy(acts, requesters)
  {
    forall k | 0 <= k < |acts| ensures acts[k].Ask? ==> acts[k].id in requesters {
      assert Permitted(acts[k], requesters);
    }
  }

  lemma ShareReliableSuffices(quorums: Quorums, requesters: set<int>, acts: seq<Action>)
    requires OwnMember(quorums) && Closed(quorums)
    requires requesters <= quorums.Keys && ShareReliable(quorums, requesters)
    requires Feasible(Start(quorums), acts) && Within(acts, requesters)
    ensures |InCS(After(Start(quorums), acts))| <= 1
  {
    var cs := InCS(After(Start(quorums), acts));
    if |cs| >= 2 {
      var x, y := TwoOf(cs);
      NeverBoth(quorums, requesters, acts, x, y);
    }
  }

  lemma NeverBoth(quorums: Quorums, requesters: set<int>, acts: seq<Action>, x: int, y: int)
    requires OwnMember(quorums) && Closed(quorums)
    requires requesters <= quorums.Keys && ShareReliable(quorums, requesters) && x < y
    requires Feasible(Start(quorums), acts) && Within(acts, requesters)
    ensures !({x, y} <= InCS(After(Start(quorums), acts)))
  {
    WithinIsAskedBy(acts, requesters);
    OnlyAbleEnter(quorums, requesters, acts);
    if {x, y} <= InCS(After(Start(quorums), acts)) {
      var b :| b in quorums[x] && b in quorums[y] && Reliable(quorums, requesters, b, x);
      ReliableExcludes(quorums, acts, requesters, b, x, y);
    }
  }

  /** The main theorem. With requests from `requesters` only, all RELINQUISH-free runs, whatever is
      delayed, reordered or lost, keep at most one node in its critical section if and only if
      every two requesters that can enter at all share a member that issues no requests, or that
      is alone in its quorum and has a smaller id than both. */
  lemma ExclusionIffReliablyShared(quorums: Quorums, requesters: set<int>)
    requires OwnMember(quorums) && Closed(quorums) && requesters <= quorums.Keys
    ensures (forall acts :: Feasible(Start(quorums), acts) && Within(acts, requesters) ==>
                              |InCS(After(Start(quorums), acts))| <= 1)
            <==> ShareReliable(quorums, requesters)
  {
    if ShareReliable(quorums, requesters) {
      forall acts | Feasible(Start(quorums), acts) && Within(acts, requesters)
        ensures |InCS(After(Start(quorums), acts))| <= 1
      {
        ShareReliableSuffices(quorums, requesters, acts);
      }
    } else {
      var x, y :| x in Able(quorums, requesters) && y in Able(quorums, requesters) && x < y &&
                  !(exists b :: b in quorums[x] && b in quorums[y] && Reliable(quorums, requesters, b, x));
      var acts := TwoInside(quorums, requesters, x, y);
      Smaller({x, y}, InCS(After(Start(quorums), acts)));
    }
  }

  lemma OutsideIsReliable(quorums: Quorums, requesters: set<int>)
    requires Closed(quorums) && requesters <= quorums.Keys && ShareOutside(quorums, requesters)
    ensures ShareReliable(quorums, requesters)
  {
    forall x, y | x in Able(quorums, requesters) && y in Able(quorums, requesters) && x < y
      ensures exists b :: b in quorums[x] && b in quorums[y] && Reliable(quorums, requesters, b, x)
    {
      var b :| b in quorums[x] && b in quorums[y] && b !in requesters;
      assert Reliable(quorums, requesters, b, x);
    }
  }

  lemma ShareOutsideSuffices(quorums: Quorums, requesters: set<int>, acts: seq<Action>)
    requires OwnMember(quorums) && Closed(quorums)
    requires requesters <= quorums.Keys && ShareOutside(quorums, requesters)
    requires Feasible(Start(quorums), acts) && Within(acts, requesters)
    ensures |InCS(After(Start(quorums), acts))| <= 1
  {
    OutsideIsReliable(quorums, requesters);
    ShareReliableSuffices(quorums, requesters, acts);
  }

  /** When every requester has another quorum member, none is alone in its quorum: then every two
      must share a member that is not a requester. */
  lemma ExclusionIffSharedOutside(quorums: Quorums, requesters: set<int>)
    requires OwnMember(quorums) && Closed(quorums) && requesters <= quorums.Keys
    requires forall i :: i in requesters ==> |quorums[i]| >= 2
    ensures (forall acts :: Feasible(Start(quorums), acts) && Within(acts, requesters) ==>
                              |InCS(After(Start(quorums), acts))| <= 1)
            <==> ShareOutside(quorums, requesters)
  {
    ExclusionIffReliablyShared(quorums, requesters);
    if ShareReliable(quorums, requesters) {
      forall x, y | x in requesters && y in requesters && x != y
        ensures exists b :: b in quorums[x] && b in quorums[y] && b !in requesters
      {
        var low, high := if x < y then x else y, if x < y then y else x;
        var b :| b in quorums[low] && b in quorums[high] && Reliable(quorums, requesters, b, low);
        assert b in quorums[x] && b in quorums[y];
      }
    }
    if ShareOutside(quorums, requesters) {
      OutsideIsReliable(quorums, requesters);
    }
  }
}
