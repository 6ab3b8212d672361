/** Two halves of the exclusion theorem for runs without RELINQUISH: an arbiter that issues no
    requests keeps its clients apart, and when no shared member is reliable there is a run that
    lets two nodes in. */
module MakExclusion {
  import opened Priority
  import opened MakProtocol
  import opened MakSystem
  import opened MakSafety
  import opened MakBound
  import opened Sums

  /** Only nodes of `requesters` issue requests, and no RELINQUISH is processed. */
  ghost predicate Within(acts: seq<Action>, requesters: set<int>) {
    forall k :: 0 <= k < |acts| ==> Permitted(acts[k], requesters)
  }

  predicate Permitted(a: Action, requesters: set<int>) {
    && (a.Ask? ==> a.id in requesters)
    && (a.Deliver? ==> !a.packet.msg.Relinquish?)
  }

  lemma WithinConcat(a: seq<Action>, b: seq<Action>, ra: set<int>, rb: set<int>, requesters: set<int>)
    requires Within(a, ra) && Within(b, rb) && ra <= requesters && rb <= requesters
    ensures Within(a + b, requesters)
  {
    forall k | 0 <= k < |a + b| ensures Permitted((a + b)[k], requesters) {
      assert (a + b)[k] == if k < |a| then a[k] else b[k - |a|];
    }
  }

  lemma WithinMore(acts: seq<Action>, few: set<int>, many: set<int>)
    requires Within(acts, few) && few <= many
    ensures Within(acts, many)
  {
    forall k | 0 <= k < |acts| ensures Permitted(acts[k], many) {
      assert Permitted(acts[k], few);
    }
  }

  ghost predicate ShareOutside(quorums: Quorums, requesters: set<int>)
    requires requesters <= quorums.Keys
  {
    forall x, y :: x in requesters && y in requesters && x != y ==>
      exists b :: b in quorums[x] && b in quorums[y] && b !in requesters
  }

  /** Every quorum member is a node of the system. */
  ghost predicate Closed(quorums: Quorums) {
    forall i :: i in quorums ==> quorums[i] <= quorums.Keys
  }

  // ----- the condition suffices

  /** A node that has issued no request: nobody votes for it. */
  ghost predicate Quiet(s: System, b: int) {
    && b in s.nodes && s.nodes[b].nextSeq == 1 && !s.nodes[b].inCS
    && forall p :: p in s.net && p.to == b ==> !p.msg.Lock?
  }

  lemma LocksGoToRequesters(n: Node, m: Message, unset: int, p: Packet, b: int)
    requires CanReceive(n, m) && p in Receive(n, m, unset).sent && p.msg.Lock?
    requires m.Request? ==> m.key.from != b
    requires forall k :: k in n.waiting ==> k.from != b
    ensures p.to != b
  {
    match m
    case Release(from) =>
      assert First(EraseFirstFrom(n.waiting, from)) in n.waiting;
    case Fail(_) =>
      RelinquishesCount(n.id, n.inquiries, p);
    case _ =>
  }

  lemma NoKeyFromQuiet(quorums: Quorums, s: System, b: int)
    requires Inv(quorums, s) && Quiet(s, b)
    ensures forall i, k :: i in s.nodes && k in s.nodes[i].waiting ==> k.from != b
    ensures forall p :: p in s.net && p.msg.Request? ==> p.msg.key.from != b
  {
    forall i, k | i in s.nodes && k in s.nodes[i].waiting ensures k.from != b {
      assert NodeOk(quorums, Seqs(s), s.nodes[i]);
      assert Addressed(quorums, Seqs(s), k, i);
    }
    forall p | p in s.net && p.msg.Request? ensures p.msg.key.from != b {
      assert PacketOk(quorums, Seqs(s), p);
    }
  }

  lemma ReceiveStaysOut(n: Node, m: Message, unset: int)
    requires CanReceive(n, m) && !n.inCS && !m.Lock?
    ensures !Receive(n, m, unset).node.inCS && Receive(n, m, unset).node.nextSeq == n.nextSeq
  {
  }

  lemma ReceiveKeepsSeq(n: Node, m: Message, unset: int)
    requires CanReceive(n, m)
    ensures Receive(n, m, unset).node.nextSeq == n.nextSeq
  {
  }

  lemma DeliverKeepsQuiet(quorums: Quorums, s: System, p: Packet, unset: int, b: int)
    requires Inv(quorums, s) && Quiet(s, b) && Enabled(s, Deliver(p, unset)) && p.to in s.nodes
    ensures Quiet(Next(s, Deliver(p, unset)), b)
  {
    var n := s.nodes[p.to];
    var o := Receive(n, p.msg, unset);
    NoKeyFromQuiet(quorums, s, b);
    forall r | r in o.sent && r.msg.Lock? ensures r.to != b {
      LocksGoToRequesters(n, p.msg, unset, r, b);
    }
    ReceiveKeepsId(n, p.msg, unset);
    ReceiveKeepsSeq(n, p.msg, unset);
    if p.to == b {
      ReceiveStaysOut(n, p.msg, unset);
    }
  }

  lemma FinishKeepsQuiet(quorums: Quorums, s: System, i: int, b: int)
    requires Inv(quorums, s) && Quiet(s, b) && Enabled(s, Finish(i))
    ensures Quiet(Next(s, Finish(i)), b)
  {
    var n := s.nodes[i];
    NoKeyFromQuiet(quorums, s, b);
    forall p | p in Leave(n).sent && p.msg.Lock? ensures p.to != b {
      LeaveSends(n, p);
      assert First(n.waiting - {First(n.waiting)}) in n.waiting;
    }
  }

  lemma NextKeepsQuiet(quorums: Quorums, s: System, a: Action, b: int)
    requires Inv(quorums, s) && Quiet(s, b) && Enabled(s, a) && a != Ask(b)
    ensures Quiet(Next(s, a), b)
    ensures !Abandons(s, a, b) || (a.Deliver? && a.packet.msg.Relinquish?)
  {
    match a
    case Ask(i) =>
      forall p | p in SendRequest(s.nodes[i]).sent ensures p.msg.Request? {
        SendRequestSender(s.nodes[i], p);
      }
    case Deliver(p, unset) =>
      if p.to in s.nodes {
        DeliverKeepsQuiet(quorums, s, p, unset, b);
      }
    case Finish(i) =>
      FinishKeepsQuiet(quorums, s, i, b);
    case Lose(_) =>
  }

  lemma {:induction false} QuietRun(quorums: Quorums, s: System, acts: seq<Action>, requesters: set<int>, b: int)
    requires OwnMember(quorums) && Inv(quorums, s) && Quiet(s, b) && b !in requesters
    requires Feasible(s, acts) && Within(acts, requesters)
    ensures Quiet(After(s, acts), b)
    ensures SelfGrants(s, acts) == 0 && Abandoned(s, acts, b) == 0
    decreases |acts|
  {
    if acts != [] {
      NextKeepsInv(quorums, s, acts[0]);
      NextKeepsQuiet(quorums, s, acts[0], b);
      assert Within(acts[1..], requesters);
      QuietRun(quorums, Next(s, acts[0]), acts[1..], requesters, b);
    }
  }

  lemma QuietArbiterIsBounded(quorums: Quorums, acts: seq<Action>, requesters: set<int>, b: int)
    requires OwnMember(quorums) && Feasible(Start(quorums), acts) && Within(acts, requesters)
    requires b in quorums && b !in requesters
    ensures |InCS(After(Start(quorums), acts)) * Clients(quorums, b)| <= 1
  {
    StartInv(quorums);
    QuietRun(quorums, Start(quorums), acts, requesters, b);
    EveryRunIsBounded(quorums, acts, b);
  }

  lemma PairOfClients(quorums: Quorums, t: System, b: int, x: int, y: int)
    requires {x, y} <= InCS(t) && {x, y} <= Clients(quorums, b) && x != y
    ensures |InCS(t) * Clients(quorums, b)| >= 2
  {
    Smaller({x, y}, InCS(t) * Clients(quorums, b));
  }

  /** In a RELINQUISH-free run, two nodes that share an arbiter which issues no requests are
      never in their critical sections together. */
  lemma SharedArbiterExcludes(
      quorums: Quorums, acts: seq<Action>, requesters: set<int>, b: int, x: int, y: int)
    requires OwnMember(quorums) && Feasible(Start(quorums), acts) && Within(acts, requesters)
    requires b in quorums && b !in requesters && x != y && {x, y} <= requesters <= quorums.Keys
    requires b in quorums[x] && b in quorums[y]
    ensures !({x, y} <= InCS(After(Start(quorums), acts)))
  {
    var t := After(Start(quorums), acts);
    QuietArbiterIsBounded(quorums, acts, requesters, b);
    if {x, y} <= InCS(t) {
      assert x in Clients(quorums, b) && y in Clients(quorums, b);
      PairOfClients(quorums, t, b, x, y);
    }
  }

  // ----- the condition is needed

  function Voted(n: Node, k: Key): Node {
    n.(waiting := n.waiting + {k}, isLocked := true, lockedFor := k)
  }

  /** `n` answers the request `k` with its vote. */
  predicate Votes(n: Node, k: Key) {
    !n.isLocked || (n.lockedFor.from == n.id && First(n.waiting + {k}) == k)
  }

  function AllLocks(members: set<int>): map<int, Answer> {
    map m | m in members :: LOCK
  }

  function Others(s: System, y: int): set<int>
    requires y in s.nodes
  {
    s.nodes[y].quorum - {y}
  }

  ghost predicate Ids(s: System) {
    forall i :: i in s.nodes ==> s.nodes[i].id == i
  }

  /** `y` waits for the votes of `todo` on its request `k`; everybody in `todo` will vote. */
  ghost predicate Collecting(s: System, y: int, k: Key, todo: set<int>, rest: multiset<Packet>) {
    && Ids(s) && y in s.nodes && k.from == y && y in s.nodes[y].quorum
    && !s.nodes[y].inCS
    && todo <= Others(s, y) <= s.nodes.Keys
    && s.nodes[y].responses == AllLocks(Others(s, y) - todo)
    && (forall d :: d in todo ==> Votes(s.nodes[d], k))
    && s.net == rest + Broadcast(todo, Request(k))
  }

  function Collected(s: System, y: int, k: Key, todo: set<int>, rest: multiset<Packet>): System
    requires y in s.nodes
  {
    System(
      map i | i in s.nodes ::
        if i == y then s.nodes[y].(responses := AllLocks(Others(s, y)), inCS := true)
        else if i in todo then Voted(s.nodes[i], k)
        else s.nodes[i],
      rest)
  }

  /** Taking one copy of a broadcast off the network. */
  lemma TakeOne(m: Message, todo: set<int>, d: int, rest: multiset<Packet>)
    requires d in todo
    ensures rest + Broadcast(todo, m) - multiset{Packet(d, m)} == rest + Broadcast(todo - {d}, m)
    ensures Packet(d, m) in Broadcast(todo, m)
  {
    BroadcastOne(todo, m, d);
  }

  lemma MemberVotes(s: System, y: int, k: Key, todo: set<int>, rest: multiset<Packet>, d: int)
    requires Collecting(s, y, k, todo, rest) && d in todo
    ensures Enabled(s, Deliver(Packet(d, Request(k)), 0))
    ensures Next(s, Deliver(Packet(d, Request(k)), 0)) ==
            System(s.nodes[d := Voted(s.nodes[d], k)],
                   rest + Broadcast(todo - {d}, Request(k)) + multiset{Packet(y, Lock(d))})
  {
    TakeOne(Request(k), todo, d, rest);
    assert ReceiveRequest(s.nodes[d], k).node == Voted(s.nodes[d], k);
  }

  lemma LastVote(quorum: set<int>, id: int, todo: set<int>, d: int)
    requires d in todo && todo <= quorum - {id} && id in quorum
    ensures |quorum - {id} - (todo - {d})| == |quorum| - 1 <==> todo == {d}
  {
    var others := quorum - {id};
    assert quorum == others + {id};
    assert |quorum| == |others| + 1;
    if todo == {d} {
      assert others - (todo - {d}) == others;
    } else {
      assert todo - {d} != {};
      HasElement(todo - {d});
      var e :| e in todo - {d};
      Smaller(others - (todo - {d}), others - {e});
    }
  }

  /** A LOCK arrives: the receiver enters exactly when it was the last vote missing. */
  lemma VoteArrives(n: Node, others: set<int>, todo: set<int>, d: int)
    requires d in todo && todo <= others == n.quorum - {n.id} && n.id in n.quorum && !n.inCS
    requires n.responses == AllLocks(others - todo)
    ensures ReceiveLocked(n, d).node ==
            n.(responses := AllLocks(others - (todo - {d})), inCS := todo == {d})
    ensures ReceiveLocked(n, d).sent == multiset{}
  {
    var answered := n.responses[d := LOCK];
    assert answered == AllLocks(others - (todo - {d}));
    assert answered.Keys == others - (todo - {d});
    assert |answered| == |answered.Keys|;
    LastVote(n.quorum, n.id, todo, d);
    assert !n.(responses := answered).HasRefusal();
  }

  function OneVoteLess(s: System, y: int, k: Key, todo: set<int>, rest: multiset<Packet>, d: int): System
    requires y in s.nodes && d in s.nodes
  {
    System(
      s.nodes[d := Voted(s.nodes[d], k)]
             [y := s.nodes[y].(responses := AllLocks(Others(s, y) - (todo - {d})), inCS := todo == {d})],
      rest + Broadcast(todo - {d}, Request(k)))
  }

  function VoteOf(y: int, k: Key, d: int): seq<Action> {
    [Deliver(Packet(d, Request(k)), 0), Deliver(Packet(y, Lock(d)), 0)]
  }

  /** One member votes and its vote arrives. */
  lemma CollectOne(s: System, y: int, k: Key, todo: set<int>, rest: multiset<Packet>, d: int)
    requires Collecting(s, y, k, todo, rest) && d in todo
    ensures Feasible(s, VoteOf(y, k, d))
    ensures After(s, VoteOf(y, k, d)) == OneVoteLess(s, y, k, todo, rest, d)
  {
    MemberVotes(s, y, k, todo, rest, d);
    VoteArrives(s.nodes[y], Others(s, y), todo, d);
    var after := s.nodes[y].(responses := AllLocks(Others(s, y) - (todo - {d})), inCS := todo == {d});
    LockArrives(s.nodes[d := Voted(s.nodes[d], k)], rest + Broadcast(todo - {d}, Request(k)), y, d, after);
    TwoSteps(s, Deliver(Packet(d, Request(k)), 0), Deliver(Packet(y, Lock(d)), 0));
  }

  lemma LockArrives(nodes: map<int, Node>, net: multiset<Packet>, y: int, d: int, after: Node)
    requires y in nodes && nodes[y].id == y
    requires ReceiveLocked(nodes[y], d).node == after && ReceiveLocked(nodes[y], d).sent == multiset{}
    ensures var s, a := System(nodes, net + multiset{Packet(y, Lock(d))}), Deliver(Packet(y, Lock(d)), 0);
            Enabled(s, a) && Next(s, a) == System(nodes[y := after], net)
  {
    assert net + multiset{Packet(y, Lock(d))} - multiset{Packet(y, Lock(d))} == net;
  }

  lemma OneStep(s: System, a: Action)
    requires Enabled(s, a)
    ensures Feasible(s, [a]) && After(s, [a]) == Next(s, a)
  {
    var t := Next(s, a);
    assert [a][1..] == [];
    assert Feasible(t, []) && After(t, []) == t;
  }

  lemma TwoSteps(s: System, a0: Action, a1: Action)
    requires Enabled(s, a0) && Enabled(Next(s, a0), a1)
    ensures Feasible(s, [a0, a1]) && After(s, [a0, a1]) == Next(Next(s, a0), a1)
  {
    OneStep(s, a0);
    OneStep(Next(s, a0), a1);
    Concatenate(s, [a0], [a1]);
    assert [a0] + [a1] == [a0, a1];
  }

  lemma CollectedAgain(s: System, y: int, k: Key, todo: set<int>, rest: multiset<Packet>, d: int)
    requires Collecting(s, y, k, todo, rest) && d in todo
    ensures todo == {d} ==> OneVoteLess(s, y, k, todo, rest, d) == Collected(s, y, k, todo, rest)
    ensures todo != {d} ==>
              && Collecting(OneVoteLess(s, y, k, todo, rest, d), y, k, todo - {d}, rest)
              && Collected(OneVoteLess(s, y, k, todo, rest, d), y, k, todo - {d}, rest)
                 == Collected(s, y, k, todo, rest)
  {
    var t := OneVoteLess(s, y, k, todo, rest, d);
    assert t.nodes.Keys == s.nodes.Keys;
    if todo == {d} {
      assert todo - {d} == {};
      assert Others(s, y) - {} == Others(s, y);
      assert t.nodes == Collected(s, y, k, todo, rest).nodes;
    } else {
      assert Others(t, y) == Others(s, y);
      assert Collected(t, y, k, todo - {d}, rest).nodes == Collected(s, y, k, todo, rest).nodes;
    }
  }

  lemma CollectOneThen(
      s: System, y: int, k: Key, todo: set<int>, rest: multiset<Packet>, d: int, more: seq<Action>)
    requires Collecting(s, y, k, todo, rest) && d in todo && Within(more, {})
    requires Feasible(OneVoteLess(s, y, k, todo, rest, d), more)
    ensures Within(VoteOf(y, k, d) + more, {}) && Feasible(s, VoteOf(y, k, d) + more)
    ensures After(s, VoteOf(y, k, d) + more) == After(OneVoteLess(s, y, k, todo, rest, d), more)
  {
    CollectOne(s, y, k, todo, rest, d);
    Concatenate(s, VoteOf(y, k, d), more);
    WithinConcat(VoteOf(y, k, d), more, {}, {}, {});
  }

  /** `y` collects all the votes it waits for and enters. */
  lemma {:induction false} Collect(s: System, y: int, k: Key, todo: set<int>, rest: multiset<Packet>)
    returns (acts: seq<Action>)
    requires Collecting(s, y, k, todo, rest) && todo != {}
    ensures Feasible(s, acts) && After(s, acts) == Collected(s, y, k, todo, rest) && Within(acts, {})
    decreases |todo|
  {
    HasElement(todo);
    var d :| d in todo;
    CollectedAgain(s, y, k, todo, rest, d);
    var more := [];
    if todo != {d} {
      assert todo - {d} != {};
      more := Collect(OneVoteLess(s, y, k, todo, rest, d), y, k, todo - {d}, rest);
    }
    CollectOneThen(s, y, k, todo, rest, d, more);
    acts := VoteOf(y, k, d) + more;
  }

  /** `y` issues a request, collects every vote and enters. */
  lemma Acquire(s: System, y: int) returns (acts: seq<Action>)
    requires Ids(s) && y in s.nodes && y in s.nodes[y].quorum
    requires Others(s, y) <= s.nodes.Keys && Others(s, y) != {}
    requires s.nodes[y].responses == map[] && !s.nodes[y].inCS
    requires forall d :: d in Others(s, y) ==> Votes(s.nodes[d], Key(s.nodes[y].nextSeq, y))
    ensures Feasible(s, acts) && Within(acts, {y})
    ensures After(s, acts) == Acquired(s, y)
  {
    var k := Key(s.nodes[y].nextSeq, y);
    var t := Next(s, Ask(y));
    assert s.nodes[y].quorum - {s.nodes[y].id} == Others(s, y);
    assert Others(t, y) == Others(s, y);
    assert AllLocks({}) == map[];
    var collect := Collect(t, y, k, Others(t, y), s.net);
    acts := [Ask(y)] + collect;
    assert acts[1..] == collect;
    assert Collected(t, y, k, Others(t, y), s.net).nodes == Acquired(s, y).nodes;
  }

  function Acquired(s: System, y: int): System
    requires y in s.nodes
  {
    var k := Key(s.nodes[y].nextSeq, y);
    System(
      map i | i in s.nodes ::
        if i == y then
          SendRequest(s.nodes[y]).node.(responses := AllLocks(Others(s, y)), inCS := true)
        else if i in Others(s, y) then Voted(s.nodes[i], k)
        else s.nodes[i],
      s.net)
  }

  // ----- giving the votes back

  ghost predicate Returning(s: System, y: int, k: Key, todo: set<int>, rest: multiset<Packet>) {
    && Ids(s) && k.from == y && y !in todo && todo <= s.nodes.Keys
    && (forall d :: d in todo ==> s.nodes[d].waiting == {k})
    && s.net == rest + Broadcast(todo, Release(y))
  }

  function Freed(n: Node): Node {
    n.(waiting := {}, isLocked := false, lockedFor := NOBODY)
  }

  function Returned(s: System, todo: set<int>, rest: multiset<Packet>): System {
    System(map i | i in s.nodes :: if i in todo then Freed(s.nodes[i]) else s.nodes[i], rest)
  }

  lemma ReturnOne(s: System, y: int, k: Key, todo: set<int>, rest: multiset<Packet>, d: int)
    requires Returning(s, y, k, todo, rest) && d in todo
    ensures Enabled(s, Deliver(Packet(d, Release(y)), 0))
    ensures var t := Next(s, Deliver(Packet(d, Release(y)), 0));
            && Returning(t, y, k, todo - {d}, rest)
            && Returned(t, todo - {d}, rest) == Returned(s, todo, rest)
  {
    TakeOne(Release(y), todo, d, rest);
    FreedByRelease(s.nodes[d], y, k);
    var t := Next(s, Deliver(Packet(d, Release(y)), 0));
    assert t == System(s.nodes[d := Freed(s.nodes[d])], rest + Broadcast(todo - {d}, Release(y)));
    assert Returned(t, todo - {d}, rest).nodes == Returned(s, todo, rest).nodes;
  }

  lemma FreedByRelease(n: Node, y: int, k: Key)
    requires n.waiting == {k} && k.from == y
    ensures ReceiveRelease(n, y).node == Freed(n) && ReceiveRelease(n, y).sent == multiset{}
  {
    assert SentBy(n.waiting, y) == {k};
    assert EraseFirstFrom(n.waiting, y) == {};
  }

  lemma Prepend(s: System, a: Action, more: seq<Action>)
    requires Enabled(s, a) && Feasible(Next(s, a), more)
    ensures Feasible(s, [a] + more) && After(s, [a] + more) == After(Next(s, a), more)
  {
    assert ([a] + more)[1..] == more;
  }

  lemma ReturnOneThen(
      s: System, y: int, k: Key, todo: set<int>, rest: multiset<Packet>, d: int, more: seq<Action>)
    requires Returning(s, y, k, todo, rest) && d in todo && Within(more, {})
    requires Enabled(s, Deliver(Packet(d, Release(y)), 0))
    requires Feasible(Next(s, Deliver(Packet(d, Release(y)), 0)), more)
    ensures var a := Deliver(Packet(d, Release(y)), 0);
            && Feasible(s, [a] + more) && Within([a] + more, {})
            && After(s, [a] + more) == After(Next(s, a), more)
  {
    var a := Deliver(Packet(d, Release(y)), 0);
    Prepend(s, a, more);
    WithinConcat([a], more, {}, {}, {});
  }

  lemma {:induction false} ReturnAll(s: System, y: int, k: Key, todo: set<int>, rest: multiset<Packet>)
    returns (acts: seq<Action>)
    requires Returning(s, y, k, todo, rest)
    ensures Feasible(s, acts) && After(s, acts) == Returned(s, todo, rest) && Within(acts, {})
    decreases |todo|
  {
    if todo == {} {
      acts := [];
      assert Returned(s, todo, rest).nodes == s.nodes;
      assert s.net == rest;
    } else {
      HasElement(todo);
      var d :| d in todo;
      ReturnOne(s, y, k, todo, rest, d);
      var more := ReturnAll(Next(s, Deliver(Packet(d, Release(y)), 0)), y, k, todo - {d}, rest);
      ReturnOneThen(s, y, k, todo, rest, d, more);
      acts := [Deliver(Packet(d, Release(y)), 0)] + more;
    }
  }

  // ----- one node going through its critical section while everybody rests

  function Resting(quorums: Quorums, seqs: map<int, int>): System {
    System(map i | i in quorums && i in seqs :: NewNode(i, quorums[i]).(nextSeq := seqs[i]), multiset{})
  }

  lemma LeaveAlone(s: System, y: int)
    requires Ids(s) && y in s.nodes && s.nodes[y].inCS
    requires s.nodes[y].waiting == {Key(s.nodes[y].nextSeq - 1, y)}
    ensures Enabled(s, Finish(y))
    ensures Next(s, Finish(y)) ==
            System(s.nodes[y := Freed(s.nodes[y]).(responses := map[], inquiries := {}, inCS := false)],
                   s.net + Broadcast(Others(s, y), Release(y)))
  {
    var n := s.nodes[y];
    var k := Key(n.nextSeq - 1, y);
    assert First(n.waiting) == k;
    assert n.waiting - {k} == {};
  }

  ghost predicate Ready(quorums: Quorums, y: int) {
    y in quorums && y in quorums[y] && |quorums[y]| >= 2
  }

  lemma HasOthers(s: set<int>, y: int)
    requires |s| >= 2
    ensures s - {y} != {}
  {
    if s - {y} == {} {
      Smaller(s, {y});
    }
  }

  lemma BusyNodes(quorums: Quorums, seqs: map<int, int>, y: int)
    requires Closed(quorums) && seqs.Keys == quorums.Keys && Ready(quorums, y)
    ensures var s := Resting(quorums, seqs);
            var busy := Acquired(s, y);
            && Others(s, y) == quorums[y] - {y} == Others(busy, y)
            && busy.nodes[y].waiting == {Key(seqs[y], y)}
            && (forall d :: d in quorums[y] - {y} ==> busy.nodes[d].waiting == {Key(seqs[y], y)})
  {
    assert {} + {Key(seqs[y], y)} == {Key(seqs[y], y)};
  }

  lemma LeftBehind(quorums: Quorums, seqs: map<int, int>, y: int)
    requires Closed(quorums) && seqs.Keys == quorums.Keys && Ready(quorums, y)
    ensures var busy := Acquired(Resting(quorums, seqs), y);
            && Enabled(busy, Finish(y))
            && Returning(Next(busy, Finish(y)), y, Key(seqs[y], y), quorums[y] - {y}, multiset{})
            && Returned(Next(busy, Finish(y)), quorums[y] - {y}, multiset{})
               == Resting(quorums, seqs[y := seqs[y] + 1])
  {
    var s := Resting(quorums, seqs);
    var busy := Acquired(s, y);
    BusyNodes(quorums, seqs, y);
    LeaveAlone(busy, y);
    var left := Next(busy, Finish(y));
    assert left.net == multiset{} + Broadcast(quorums[y] - {y}, Release(y));
    RestsAgain(quorums, seqs, y, left);
  }

  lemma RestsAgain(quorums: Quorums, seqs: map<int, int>, y: int, left: System)
    requires Closed(quorums) && seqs.Keys == quorums.Keys && Ready(quorums, y)
    requires var busy := Acquired(Resting(quorums, seqs), y);
             left.nodes == busy.nodes[y := Freed(busy.nodes[y]).(responses := map[], inquiries := {}, inCS := false)]
    ensures Returned(left, quorums[y] - {y}, multiset{}) == Resting(quorums, seqs[y := seqs[y] + 1])
  {
    var t := Returned(left, quorums[y] - {y}, multiset{});
    var goal := Resting(quorums, seqs[y := seqs[y] + 1]);
    forall i | i in t.nodes ensures i in goal.nodes && t.nodes[i] == goal.nodes[i] {
    }
    assert t.nodes == goal.nodes;
  }

  lemma FinishThenReturn(busy: System, y: int, k: Key, todo: set<int>) returns (acts: seq<Action>)
    requires Enabled(busy, Finish(y)) && Returning(Next(busy, Finish(y)), y, k, todo, multiset{})
    ensures Feasible(busy, acts) && Within(acts, {})
    ensures After(busy, acts) == Returned(Next(busy, Finish(y)), todo, multiset{})
  {
    var back := ReturnAll(Next(busy, Finish(y)), y, k, todo, multiset{});
    Prepend(busy, Finish(y), back);
    WithinConcat([Finish(y)], back, {}, {}, {});
    acts := [Finish(y)] + back;
  }

  lemma LeaveAndReturn(quorums: Quorums, seqs: map<int, int>, y: int) returns (acts: seq<Action>)
    requires Closed(quorums) && seqs.Keys == quorums.Keys && Ready(quorums, y)
    ensures var busy := Acquired(Resting(quorums, seqs), y);
            Feasible(busy, acts) && After(busy, acts) == Resting(quorums, seqs[y := seqs[y] + 1])
    ensures Within(acts, {})
  {
    LeftBehind(quorums, seqs, y);
    acts := FinishThenReturn(Acquired(Resting(quorums, seqs), y), y, Key(seqs[y], y), quorums[y] - {y});
  }

  lemma SoloCycle(quorums: Quorums, seqs: map<int, int>, y: int) returns (acts: seq<Action>)
    requires Closed(quorums) && seqs.Keys == quorums.Keys && Ready(quorums, y)
    ensures Feasible(Resting(quorums, seqs), acts) && Within(acts, {y})
    ensures After(Resting(quorums, seqs), acts) == Resting(quorums, seqs[y := seqs[y] + 1])
  {
    var s := Resting(quorums, seqs);
    HasOthers(quorums[y], y);
    var enter := Acquire(s, y);
    var leave := LeaveAndReturn(quorums, seqs, y);
    Concatenate(s, enter, leave);
    WithinConcat(enter, leave, {y}, {}, {y});
    acts := enter + leave;
  }

  /** Each node of `bs` goes through one critical section, one after the other. */
  lemma {:induction false} WarmUp(quorums: Quorums, seqs: map<int, int>, bs: set<int>) returns (acts: seq<Action>)
    requires Closed(quorums) && seqs.Keys == quorums.Keys
    requires forall b :: b in bs ==> Ready(quorums, b)
    ensures Feasible(Resting(quorums, seqs), acts) && Within(acts, bs)
    ensures After(Resting(quorums, seqs), acts) == Resting(quorums, Bumped(seqs, bs))
    decreases |bs|
  {
    if bs == {} {
      acts := [];
      assert Bumped(seqs, bs) == seqs;
    } else {
      HasElement(bs);
      var b :| b in bs;
      var solo := SoloCycle(quorums, seqs, b);
      var more := WarmUp(quorums, seqs[b := seqs[b] + 1], bs - {b});
      assert Bumped(seqs[b := seqs[b] + 1], bs - {b}) == Bumped(seqs, bs);
      Concatenate(Resting(quorums, seqs), solo, more);
      WithinConcat(solo, more, {b}, bs - {b}, bs);
      acts := solo + more;
    }
  }

  function Bumped(seqs: map<int, int>, bs: set<int>): map<int, int> {
    map i | i in seqs :: if i in bs then seqs[i] + 1 else seqs[i]
  }

  // ----- a run with two nodes in their critical sections

  function AskedNode(n: Node): Node {
    SendRequest(n).node
  }

  function AskedNodes(nodes: map<int, Node>, bs: set<int>): map<int, Node> {
    map i | i in nodes :: if i in bs then AskedNode(nodes[i]) else nodes[i]
  }

  lemma AskOne(s: System, bs: set<int>, b: int)
    requires Ids(s) && b in bs && b in s.nodes
    ensures Enabled(s, Ask(b)) && Ids(Next(s, Ask(b))) && Next(s, Ask(b)).nodes.Keys == s.nodes.Keys
    ensures AskedNodes(Next(s, Ask(b)).nodes, bs - {b}) == AskedNodes(s.nodes, bs)
  {
    assert Next(s, Ask(b)).nodes == s.nodes[b := AskedNode(s.nodes[b])];
  }

  lemma {:induction false} AskAll(s: System, bs: set<int>) returns (acts: seq<Action>)
    requires Ids(s) && bs <= s.nodes.Keys
    ensures Feasible(s, acts) && Within(acts, bs)
    ensures After(s, acts).nodes == AskedNodes(s.nodes, bs)
    decreases |bs|
  {
    if bs == {} {
      acts := [];
      assert AskedNodes(s.nodes, bs) == s.nodes;
    } else {
      HasElement(bs);
      var b :| b in bs;
      AskOne(s, bs, b);
      var more := AskAll(Next(s, Ask(b)), bs - {b});
      AskOneThen(s, bs, b, more);
      acts := [Ask(b)] + more;
    }
  }

  lemma AskOneThen(s: System, bs: set<int>, b: int, more: seq<Action>)
    requires b in bs && Enabled(s, Ask(b)) && Feasible(Next(s, Ask(b)), more) && Within(more, bs - {b})
    ensures Feasible(s, [Ask(b)] + more) && Within([Ask(b)] + more, bs)
    ensures After(s, [Ask(b)] + more) == After(Next(s, Ask(b)), more)
  {
    Prepend(s, Ask(b), more);
    WithinConcat([Ask(b)], more, {b}, bs - {b}, bs);
  }

  /** `y` is in its critical section and every shared member has just asked for itself. */
  function Overwritten(quorums: Quorums, seqs: map<int, int>, y: int, shared: set<int>): map<int, Node>
    requires y in quorums && y in seqs
  {
    AskedNodes(Acquired(Resting(quorums, seqs), y).nodes, shared)
  }

  lemma FirstOfTwo(k: Key, other: Key)
    requires Before(k, other)
    ensures First({other} + {k}) == k
  {
    FirstIsUnique({other} + {k}, k);
  }

  lemma FirstOfThree(k: Key, other: Key, third: Key)
    requires Before(k, other) && Before(k, third)
    ensures First({other} + {third} + {k}) == k
  {
    FirstIsUnique({other} + {third} + {k}, k);
  }

  /** So every member votes for the earlier request of `x` as well. */
  lemma MemberVotesAgain(quorums: Quorums, seqs: map<int, int>, x: int, y: int, shared: set<int>, d: int)
    requires Closed(quorums) && seqs.Keys == quorums.Keys && Ready(quorums, x) && Ready(quorums, y)
    requires x < y && seqs[x] == 1 && seqs[y] == 1
    requires shared == quorums[x] * quorums[y] - {x, y}
    requires forall b :: b in shared ==> Before(Key(1, x), Key(seqs[b], b))
    requires d in quorums[x] && d != x
    ensures Votes(Overwritten(quorums, seqs, y, shared)[d], Key(1, x))
  {
    var s := Resting(quorums, seqs);
    assert Others(s, y) == quorums[y] - {y};
    var n := Overwritten(quorums, seqs, y, shared)[d];
    if d == y {
      assert n.waiting == {} + {Key(1, y)} && {} + {Key(1, y)} == {Key(1, y)};
      FirstOfTwo(Key(1, x), Key(1, y));
    } else if d in shared {
      assert n.waiting == {} + {Key(1, y)} + {Key(seqs[d], d)} && {} + {Key(1, y)} == {Key(1, y)};
      FirstOfThree(Key(1, x), Key(1, y), Key(seqs[d], d));
    } else {
      assert d !in quorums[y];
    }
  }

  lemma EverybodyVotes(quorums: Quorums, seqs: map<int, int>, x: int, y: int, shared: set<int>, s: System)
    requires Closed(quorums) && seqs.Keys == quorums.Keys && Ready(quorums, x) && Ready(quorums, y)
    requires x < y && seqs[x] == 1 && seqs[y] == 1
    requires shared == quorums[x] * quorums[y] - {x, y}
    requires forall b :: b in shared ==> Before(Key(1, x), Key(seqs[b], b))
    requires s.nodes == Overwritten(quorums, seqs, y, shared)
    ensures Ids(s) && x in s.nodes && s.nodes[x].nextSeq == 1 && s.nodes[x].responses == map[] && !s.nodes[x].inCS
    ensures s.nodes[x].quorum == quorums[x] <= s.nodes.Keys
    ensures y in s.nodes && s.nodes[y].inCS
    ensures forall d :: d in quorums[x] - {x} ==> Votes(s.nodes[d], Key(1, x))
  {
    forall d | d in quorums[x] - {x} ensures Votes(s.nodes[d], Key(1, x)) {
      MemberVotesAgain(quorums, seqs, x, y, shared, d);
    }
  }

  lemma StaysInside(s: System, x: int, y: int)
    requires x in s.nodes && y in s.nodes && s.nodes[y].inCS
    ensures {x, y} <= InCS(Acquired(s, x))
  {
  }

  /** From the moment `y` is inside: the shared members ask, then `x` acquires. */
  lemma SecondEntry(quorums: Quorums, seqs: map<int, int>, x: int, y: int, shared: set<int>)
    returns (acts: seq<Action>)
    requires Closed(quorums) && seqs.Keys == quorums.Keys && Ready(quorums, x) && Ready(quorums, y)
    requires x < y && seqs[x] == 1 && seqs[y] == 1
    requires shared == quorums[x] * quorums[y] - {x, y}
    requires forall b :: b in shared ==> Before(Key(1, x), Key(seqs[b], b))
    ensures var s := Acquired(Resting(quorums, seqs), y);
            Feasible(s, acts) && {x, y} <= InCS(After(s, acts))
    ensures Within(acts, shared + {x})
  {
    var s := Acquired(Resting(quorums, seqs), y);
    var ask := AskAll(s, shared);
    var t := After(s, ask);
    EverybodyVotes(quorums, seqs, x, y, shared, t);
    HasOthers(quorums[x], x);
    var enter := Acquire(t, x);
    Concatenate(s, ask, enter);
    WithinConcat(ask, enter, shared, {x}, shared + {x});
    StaysInside(t, x, y);
    acts := ask + enter;
  }

  lemma BothEntries(quorums: Quorums, seqs: map<int, int>, x: int, y: int, shared: set<int>)
    returns (acts: seq<Action>)
    requires Closed(quorums) && seqs.Keys == quorums.Keys && Ready(quorums, x) && Ready(quorums, y)
    requires x < y && seqs[x] == 1 && seqs[y] == 1
    requires shared == quorums[x] * quorums[y] - {x, y}
    requires forall b :: b in shared ==> Before(Key(1, x), Key(seqs[b], b))
    ensures Feasible(Resting(quorums, seqs), acts)
    ensures {x, y} <= InCS(After(Resting(quorums, seqs), acts)) && Within(acts, shared + {x, y})
  {
    HasOthers(quorums[y], y);
    var first := Acquire(Resting(quorums, seqs), y);
    var second := SecondEntry(quorums, seqs, x, y, shared);
    Concatenate(Resting(quorums, seqs), first, second);
    WithinConcat(first, second, {y}, shared + {x}, shared + {x, y});
    acts := first + second;
  }

  /** What keeps the votes of `b` apart for requesters from `x` on: it issues no request, or it is
      alone in its quorum, so that a request of its own stays in its queue for ever, and has a
      smaller id. */
  predicate Reliable(quorums: Quorums, requesters: set<int>, b: int, x: int)
    requires b in quorums
  {
    b !in requesters || (|quorums[b]| < 2 && b < x)
  }

  function Ones(quorums: Quorums): map<int, int> {
    map i | i in quorums :: 1
  }

  lemma StartRests(quorums: Quorums)
    ensures Start(quorums) == Resting(quorums, Ones(quorums))
  {
    assert Start(quorums).nodes == Resting(quorums, Ones(quorums)).nodes;
  }

  /** Shared members that can enter, and so finish a critical section first. */
  function Finishers(quorums: Quorums, shared: set<int>): set<int>
    requires shared <= quorums.Keys
  {
    set b | b in shared && |quorums[b]| >= 2
  }

  lemma AskLater(quorums: Quorums, shared: set<int>, x: int, b: int)
    requires shared <= quorums.Keys && b in shared && (|quorums[b]| < 2 ==> x < b)
    ensures Before(Key(1, x), Key(Bumped(Ones(quorums), Finishers(quorums, shared))[b], b))
  {
  }

  /** From the start: shared members that can enter do so once, then `y` enters, then `x`. */
  lemma WarmUpAndEnter(quorums: Quorums, x: int, y: int, shared: set<int>) returns (acts: seq<Action>)
    requires OwnMember(quorums) && Closed(quorums) && Ready(quorums, x) && Ready(quorums, y) && x < y
    requires shared == quorums[x] * quorums[y] - {x, y}
    requires forall b :: b in shared && |quorums[b]| < 2 ==> x < b
    ensures Feasible(Start(quorums), acts) && Within(acts, shared + {x, y})
    ensures {x, y} <= InCS(After(Start(quorums), acts))
  {
    StartRests(quorums);
    var ones, able := Ones(quorums), Finishers(quorums, shared);
    var warm := WarmUp(quorums, ones, able);
    forall b | b in shared ensures Before(Key(1, x), Key(Bumped(ones, able)[b], b)) {
      AskLater(quorums, shared, x, b);
    }
    var enter := BothEntries(quorums, Bumped(ones, able), x, y, shared);
    Concatenate(Start(quorums), warm, enter);
    WithinConcat(warm, enter, able, shared + {x, y}, shared + {x, y});
    acts := warm + enter;
  }

  /** Every shared member that can first completes a critical section of its own, so that its next
      request is later than the first ones of `x` and `y`; the others have larger ids. */
  lemma TwoInside(quorums: Quorums, requesters: set<int>, x: int, y: int) returns (acts: seq<Action>)
    requires OwnMember(quorums) && Closed(quorums) && requesters <= quorums.Keys
    requires x in requesters && y in requesters && x < y && |quorums[x]| >= 2 && |quorums[y]| >= 2
    requires forall b :: b in quorums[x] && b in quorums[y] ==> !Reliable(quorums, requesters, b, x)
    ensures Feasible(Start(quorums), acts) && Within(acts, requesters)
    ensures {x, y} <= InCS(After(Start(quorums), acts))
  {
    var shared := quorums[x] * quorums[y] - {x, y};
    forall b | b in shared ensures b in requesters && (|quorums[b]| < 2 ==> x < b) {
      assert !Reliable(quorums, requesters, b, x);
    }
    acts := WarmUpAndEnter(quorums, x, y, shared);
    WithinMore(acts, shared + {x, y}, requesters);
  }
}
