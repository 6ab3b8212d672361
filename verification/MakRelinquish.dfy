/** What RELINQUISH does to exclusion. A node that gives back its votes keeps them on record, and a
    vote still on its way counts even after it was given back. So once RELINQUISH is processed,
    quorums no longer help: two nodes that can enter at all can be inside together. */
module MakRelinquish {
  import opened Priority
  import opened MakProtocol
  import opened MakSystem
  import opened MakSafety
  import opened MakExclusion
  import opened Sums

  /** Only nodes of `requesters` issue requests. */
  ghost predicate AskedBy(acts: seq<Action>, requesters: set<int>) {
    forall k :: 0 <= k < |acts| ==> acts[k].Ask? ==> acts[k].id in requesters
  }

  /** No packet is lost, either. */
  ghost predicate Orderly(acts: seq<Action>, requesters: set<int>) {
    forall k :: 0 <= k < |acts| ==> !acts[k].Lose? && (acts[k].Ask? ==> acts[k].id in requesters)
  }

  lemma Together(s: System, first: seq<Action>, second: seq<Action>, requesters: set<int>)
    requires Feasible(s, first) && Feasible(After(s, first), second)
    requires Orderly(first, requesters) && Orderly(second, requesters)
    ensures Feasible(s, first + second) && Orderly(first + second, requesters)
    ensures After(s, first + second) == After(After(s, first), second)
  {
    Concatenate(s, first, second);
    forall k | 0 <= k < |first + second|
      ensures var a := (first + second)[k]; !a.Lose? && (a.Ask? ==> a.id in requesters)
    {
      assert (first + second)[k] == if k < |first| then first[k] else second[k - |first|];
    }
  }

  // ----- polling the members

  /** `z` would give its votes back. */
  predicate Gives(s: System, z: int) {
    z in s.nodes && !s.nodes[z].inCS && s.nodes[z].HasRefusal()
  }

  /** `d` will vote for `k`: at once, or after `z` has given its vote back. */
  predicate WillVote(s: System, d: int, k: Key, z: int)
    requires d in s.nodes
  {
    var n := s.nodes[d];
    || Votes(n, k)
    || (d != z && n.isLocked && n.lockedFor.from == z && z != d && First(n.waiting + {k}) == k && Gives(s, z))
  }

  ghost predicate Polling(s: System, k: Key, z: int, todo: set<int>) {
    && Ids(s) && todo <= s.nodes.Keys && k.from !in todo
    && (forall d :: d in todo ==> Packet(d, Request(k)) in s.net && WillVote(s, d, k, z))
  }

  /** `s` after the members of `done` have voted for `k`: the votes are on their way, and no packet
      but the requests is gone. */
  ghost predicate Polled(s: System, t: System, k: Key, done: set<int>) {
    && t.nodes.Keys == s.nodes.Keys
    && (forall i :: i in s.nodes ==> t.nodes[i] == if i in done then Voted(s.nodes[i], k) else s.nodes[i])
    && (forall d :: d in done ==> Packet(k.from, Lock(d)) in t.net)
    && (forall p :: p in s.net && (p.msg == Request(k) ==> p.to !in done) ==> p in t.net)
  }

  lemma VotesAtOnce(s: System, k: Key, z: int, todo: set<int>, d: int)
    requires Polling(s, k, z, todo) && d in todo && Votes(s.nodes[d], k)
    ensures var acts := [Deliver(Packet(d, Request(k)), 0)];
            Feasible(s, acts) && Polled(s, After(s, acts), k, {d})
  {
    OneStep(s, Deliver(Packet(d, Request(k)), 0));
    var n := s.nodes[d];
    assert ReceiveRequest(n, k).node == Voted(n, k);
    assert ReceiveRequest(n, k).sent == multiset{Packet(k.from, Lock(d))};
  }

  function Queued(n: Node, k: Key): Node {
    n.(waiting := n.waiting + {k})
  }

  predicate Moves(s: System, a: Action, nodes: map<int, Node>, net: multiset<Packet>) {
    Enabled(s, a) && Next(s, a) == System(nodes, net)
  }

  lemma Inquires(s: System, k: Key, z: int, d: int)
    requires Ids(s) && d in s.nodes && d != z && Packet(d, Request(k)) in s.net
    requires s.nodes[d].isLocked && s.nodes[d].lockedFor.from == z && First(s.nodes[d].waiting + {k}) == k
    ensures Moves(s, Deliver(Packet(d, Request(k)), 0), s.nodes[d := Queued(s.nodes[d], k)],
                  s.net - multiset{Packet(d, Request(k))} + multiset{Packet(z, Inquire(d))})
  {
  }

  lemma Answers(s: System, z: int, d: int)
    requires Ids(s) && Gives(s, z) && Packet(z, Inquire(d)) in s.net
    ensures Moves(s, Deliver(Packet(z, Inquire(d)), 0), s.nodes,
                  s.net - multiset{Packet(z, Inquire(d))} + multiset{Packet(d, Relinquish(z))})
  {
    assert s.nodes[z := s.nodes[z]] == s.nodes;
  }

  lemma VotesForFirst(s: System, k: Key, z: int, d: int)
    requires Ids(s) && d in s.nodes && Packet(d, Relinquish(z)) in s.net
    requires s.nodes[d].waiting != {} && First(s.nodes[d].waiting) == k
    ensures Moves(s, Deliver(Packet(d, Relinquish(z)), 0),
                  s.nodes[d := s.nodes[d].(lockedFor := k, isLocked := true)],
                  s.net - multiset{Packet(d, Relinquish(z))} + multiset{Packet(k.from, Lock(d))})
  {
  }

  function GiveBack(k: Key, z: int, d: int): seq<Action> {
    [Deliver(Packet(d, Request(k)), 0), Deliver(Packet(z, Inquire(d)), 0), Deliver(Packet(d, Relinquish(z)), 0)]
  }

  lemma ThreeMoves(s: System, a: Action, b: Action, c: Action)
    requires Enabled(s, a) && Enabled(Next(s, a), b) && Enabled(Next(Next(s, a), b), c)
    ensures Feasible(s, [a, b, c]) && After(s, [a, b, c]) == Next(Next(Next(s, a), b), c)
  {
    TwoSteps(Next(s, a), b, c);
    Prepend(s, a, [b, c]);
    assert [a] + [b, c] == [a, b, c];
  }

  lemma VotesAfterGiving(s: System, k: Key, z: int, todo: set<int>, d: int)
    requires Polling(s, k, z, todo) && d in todo && !Votes(s.nodes[d], k)
    ensures Feasible(s, GiveBack(k, z, d)) && Polled(s, After(s, GiveBack(k, z, d)), k, {d})
  {
    var request, inquire, relinquish := Packet(d, Request(k)), Packet(z, Inquire(d)), Packet(d, Relinquish(z));
    var queued := s.nodes[d := Queued(s.nodes[d], k)];
    Inquires(s, k, z, d);
    var net := s.net - multiset{request};
    Answers(System(queued, net + multiset{inquire}), z, d);
    assert net + multiset{inquire} - multiset{inquire} + multiset{relinquish} == net + multiset{relinquish};
    VotesForFirst(System(queued, net + multiset{relinquish}), k, z, d);
    ThreeMoves(s, Deliver(request, 0), Deliver(inquire, 0), Deliver(relinquish, 0));
    assert net + multiset{relinquish} - multiset{relinquish} == net;
    VotedAfterGiving(s, k, d, After(s, GiveBack(k, z, d)));
  }

  lemma VotedAfterGiving(s: System, k: Key, d: int, t: System)
    requires d in s.nodes
    requires t.nodes ==
             s.nodes[d := Queued(s.nodes[d], k)][d := Queued(s.nodes[d], k).(lockedFor := k, isLocked := true)]
    requires t.net == s.net - multiset{Packet(d, Request(k))} + multiset{Packet(k.from, Lock(d))}
    ensures Polled(s, t, k, {d})
  {
  }

  lemma PollOne(s: System, k: Key, z: int, todo: set<int>, d: int) returns (acts: seq<Action>)
    requires Polling(s, k, z, todo) && d in todo
    ensures Feasible(s, acts) && Orderly(acts, {}) && Polled(s, After(s, acts), k, {d})
  {
    if Votes(s.nodes[d], k) {
      VotesAtOnce(s, k, z, todo, d);
      acts := [Deliver(Packet(d, Request(k)), 0)];
    } else {
      VotesAfterGiving(s, k, z, todo, d);
      acts := GiveBack(k, z, d);
    }
  }

  lemma PollingGoesOn(s: System, t: System, k: Key, z: int, todo: set<int>, d: int)
    requires Polling(s, k, z, todo) && d in todo && Polled(s, t, k, {d})
    ensures Polling(t, k, z, todo - {d})
  {
    forall e | e in todo - {d} ensures Packet(e, Request(k)) in t.net && WillVote(t, e, k, z) {
      assert t.nodes[e] == s.nodes[e];
      assert Gives(s, z) ==> Gives(t, z) by {
        if Gives(s, z) {
          assert t.nodes[z].responses == s.nodes[z].responses;
        }
      }
    }
  }

  lemma PolledTogether(s: System, t: System, u: System, k: Key, todo: set<int>, d: int)
    requires Polled(s, t, k, {d}) && Polled(t, u, k, todo - {d}) && d in todo
    ensures Polled(s, u, k, todo)
  {
    forall e | e in todo ensures Packet(k.from, Lock(e)) in u.net {
      assert e == d || e in todo - {d};
    }
  }

  /** All members of `todo` vote for `k`. */
  lemma {:induction false} Poll(s: System, k: Key, z: int, todo: set<int>) returns (acts: seq<Action>)
    requires Polling(s, k, z, todo)
    ensures Feasible(s, acts) && Orderly(acts, {}) && Polled(s, After(s, acts), k, todo)
    decreases |todo|
  {
    if todo == {} {
      acts := [];
    } else {
      HasElement(todo);
      var d :| d in todo;
      var one := PollOne(s, k, z, todo, d);
      var t := After(s, one);
      PollingGoesOn(s, t, k, z, todo, d);
      var more := Poll(t, k, z, todo - {d});
      Together(s, one, more, {});
      PolledTogether(s, t, After(t, more), k, todo, d);
      acts := one + more;
    }
  }

  // ----- votes arriving

  /** `y` has the LOCKs of all other members but those of `todo`, which are on their way. */
  ghost predicate Awaiting(s: System, y: int, todo: set<int>) {
    && Ids(s) && y in s.nodes && y in s.nodes[y].quorum && todo <= Others(s, y)
    && s.nodes[y].responses.Keys <= Others(s, y)
    && (forall d :: d in Others(s, y) - todo ==> d in s.nodes[y].responses && s.nodes[y].responses[d] == LOCK)
    && (forall d :: d in todo ==> Packet(y, Lock(d)) in s.net)
  }

  /** `t` is `s` but for what `y` has received. */
  ghost predicate Received(s: System, t: System, y: int) {
    && t.nodes.Keys == s.nodes.Keys
    && Ids(t)
    && (forall i :: i in s.nodes && i != y ==> t.nodes[i] == s.nodes[i])
    && (forall p :: p in s.net && p.to != y ==> p in t.net)
  }

  lemma VoteCounts(n: Node, todo: set<int>, d: int)
    requires d in todo && n.id in n.quorum && todo <= n.quorum - {n.id}
    requires n.responses.Keys <= n.quorum - {n.id}
    requires forall e :: e in n.quorum - {n.id} - todo ==> e in n.responses && n.responses[e] == LOCK
    ensures var after := ReceiveLocked(n, d).node;
            && after == n.(responses := n.responses[d := LOCK], inCS := after.inCS)
            && (todo == {d} ==> after.inCS) && ReceiveLocked(n, d).sent == multiset{}
  {
    var answered := n.(responses := n.responses[d := LOCK]);
    if todo == {d} {
      forall e | e in n.quorum - {n.id} ensures e in answered.responses && answered.responses[e] == LOCK {
        assert e != d ==> e in n.quorum - {n.id} - todo;
      }
      assert answered.responses.Keys == n.quorum - {n.id};
      assert |answered.responses| == |answered.responses.Keys|;
      assert n.quorum == n.quorum - {n.id} + {n.id};
      assert !answered.HasRefusal();
    }
  }

  lemma ReceiveVote(s: System, y: int, todo: set<int>, d: int)
    requires Awaiting(s, y, todo) && d in todo
    ensures var a := Deliver(Packet(y, Lock(d)), 0);
            && Enabled(s, a) && Awaiting(Next(s, a), y, todo - {d}) && Received(s, Next(s, a), y)
            && (todo == {d} ==> Next(s, a).nodes[y].inCS)
  {
    VoteCounts(s.nodes[y], todo, d);
  }

  lemma {:induction false} ReceiveVotes(s: System, y: int, todo: set<int>) returns (acts: seq<Action>)
    requires Awaiting(s, y, todo) && todo != {}
    ensures Feasible(s, acts) && Orderly(acts, {}) && Received(s, After(s, acts), y)
    ensures y in After(s, acts).nodes && After(s, acts).nodes[y].inCS
    decreases |todo|
  {
    HasElement(todo);
    var d :| d in todo;
    var a := Deliver(Packet(y, Lock(d)), 0);
    ReceiveVote(s, y, todo, d);
    OneStep(s, a);
    acts := [a];
    if todo != {d} {
      assert todo - {d} != {};
      var more := ReceiveVotes(Next(s, a), y, todo - {d});
      OneVoteMore(s, y, a, more);
      acts := [a] + more;
    }
  }

  lemma OneVoteMore(s: System, y: int, a: Action, more: seq<Action>)
    requires Feasible(s, [a]) && Orderly([a], {}) && Received(s, After(s, [a]), y)
    requires Feasible(After(s, [a]), more) && Orderly(more, {})
    requires Received(After(s, [a]), After(After(s, [a]), more), y)
    ensures Feasible(s, [a] + more) && Orderly([a] + more, {}) && After(s, [a] + more) == After(After(s, [a]), more)
    ensures Received(s, After(s, [a] + more), y)
  {
    Together(s, [a], more, {});
  }

  // ----- the run: `z` has all votes on their way and a refusal on record, `x` takes the votes away

  ghost predicate TwoNodes(quorums: Quorums, x: int, z: int) {
    Closed(quorums) && Ready(quorums, x) && Ready(quorums, z) && x < z
  }

  /** Node `z` after asking twice. */
  function Twice(quorum: set<int>, z: int): Node {
    NewNode(z, quorum).(nextSeq := 3, isLocked := true, lockedFor := Key(2, z), waiting := {Key(1, z), Key(2, z)})
  }

  ghost predicate AskedTwice(s: System, quorums: Quorums, z: int) {
    && s.nodes.Keys == quorums.Keys && z in quorums
    && (forall i :: i in quorums ==> s.nodes[i] == if i == z then Twice(quorums[z], z) else NewNode(i, quorums[i]))
    && (forall d :: d in quorums[z] - {z} ==>
          Packet(d, Request(Key(1, z))) in s.net && Packet(d, Request(Key(2, z))) in s.net)
  }

  lemma AskOut(s: System, x: int)
    requires Ids(s) && x in s.nodes
    ensures var k := Key(s.nodes[x].nextSeq, x);
            && Moves(s, Ask(x), s.nodes[x := SendRequest(s.nodes[x]).node], s.net + Broadcast(Others(s, x), Request(k)))
            && (forall d :: d in Others(s, x) ==> Packet(d, Request(k)) in Next(s, Ask(x)).net)
  {
    var k := Key(s.nodes[x].nextSeq, x);
    forall d | d in Others(s, x) ensures Packet(d, Request(k)) in Next(s, Ask(x)).net {
      BroadcastCount(Others(s, x), Request(k), Packet(d, Request(k)));
    }
  }

  lemma AskTwice(quorums: Quorums, z: int)
    requires z in quorums
    ensures var acts := [Ask(z), Ask(z)];
            && Feasible(Start(quorums), acts) && AskedTwice(After(Start(quorums), acts), quorums, z)
  {
    var s := Start(quorums);
    AskOut(s, z);
    var t := Next(s, Ask(z));
    AskOut(t, z);
    TwoSteps(s, Ask(z), Ask(z));
    assert {} + {Key(1, z)} + {Key(2, z)} == {Key(1, z), Key(2, z)};
    TwiceAsked(quorums, z, Next(t, Ask(z)));
  }

  lemma TwiceAsked(quorums: Quorums, z: int, u: System)
    requires z in quorums && u.nodes == Start(quorums).nodes[z := Twice(quorums[z], z)]
    requires forall d :: d in quorums[z] - {z} ==>
                           Packet(d, Request(Key(1, z))) in u.net && Packet(d, Request(Key(2, z))) in u.net
    ensures AskedTwice(u, quorums, z)
  {
  }

  /** Another node after the first request of `z`. */
  function Member(quorums: Quorums, z: int, i: int): Node
    requires i in quorums && z in quorums
  {
    if i in quorums[z] then Voted(NewNode(i, quorums[i]), Key(1, z)) else NewNode(i, quorums[i])
  }

  /** All members have voted for the first request, and the second is still on its way. */
  ghost predicate VotesUnderWay(s: System, quorums: Quorums, z: int) {
    && s.nodes.Keys == quorums.Keys && z in quorums
    && (forall i :: i in quorums ==> s.nodes[i] == if i == z then Twice(quorums[z], z) else Member(quorums, z, i))
    && (forall d :: d in quorums[z] - {z} ==> Packet(z, Lock(d)) in s.net && Packet(d, Request(Key(2, z))) in s.net)
  }

  lemma GetVotes(s: System, quorums: Quorums, z: int) returns (acts: seq<Action>)
    requires AskedTwice(s, quorums, z) && Closed(quorums)
    ensures Feasible(s, acts) && Orderly(acts, {}) && VotesUnderWay(After(s, acts), quorums, z)
  {
    acts := Poll(s, Key(1, z), z, quorums[z] - {z});
  }

  /** `b` has refused the second request, and `z` knows. */
  ghost predicate RefusedBy(s: System, quorums: Quorums, z: int, b: int) {
    && s.nodes.Keys == quorums.Keys && z in quorums && b in quorums[z] - {z}
    && s.nodes[z] == Twice(quorums[z], z).(responses := map[b := FAIL])
    && (forall i :: i in quorums && i != z ==>
          s.nodes[i] == if i == b then Queued(Member(quorums, z, b), Key(2, z)) else Member(quorums, z, i))
    && (forall d :: d in quorums[z] - {z} ==> Packet(z, Lock(d)) in s.net)
  }

  lemma Refuses(n: Node, k: Key, later: Key)
    requires n.waiting == {k} && n.isLocked && Before(k, later)
    ensures ReceiveRequest(n, later).node == Queued(n, later)
    ensures ReceiveRequest(n, later).sent == multiset{Packet(later.from, Fail(n.id))}
  {
    FirstIsUnique({k} + {later}, k);
  }

  lemma GetRefused(s: System, quorums: Quorums, z: int, b: int)
    requires VotesUnderWay(s, quorums, z) && Closed(quorums) && b in quorums[z] - {z}
    ensures var acts := [Deliver(Packet(b, Request(Key(2, z))), 0), Deliver(Packet(z, Fail(b)), 0)];
            Feasible(s, acts) && RefusedBy(After(s, acts), quorums, z, b)
  {
    var request, refusal := Packet(b, Request(Key(2, z))), Packet(z, Fail(b));
    var n := s.nodes[b];
    assert {} + {Key(1, z)} == {Key(1, z)};
    Refuses(n, Key(1, z), Key(2, z));
    var t := Next(s, Deliver(request, 0));
    assert t == System(s.nodes[b := Queued(n, Key(2, z))], s.net - multiset{request} + multiset{refusal});
    var u := Next(t, Deliver(refusal, 0));
    assert u.nodes == t.nodes[z := t.nodes[z].(responses := map[b := FAIL])];
    assert u.net == t.net - multiset{refusal};
    TwoSteps(s, Deliver(request, 0), Deliver(refusal, 0));
  }

  /** `x` has asked; every member will vote for it, if need be after `z` has given the vote back. */
  ghost predicate Contended(s: System, quorums: Quorums, x: int, z: int) {
    && s.nodes.Keys == quorums.Keys && x in quorums && z in quorums && x != z && Ids(s)
    && s.nodes[x].quorum == quorums[x] && s.nodes[x].responses == map[]
    && s.nodes[z].quorum == quorums[z] && s.nodes[z].responses.Keys <= quorums[z] - {z}
    && (forall d :: d in quorums[z] - {z} ==> Packet(z, Lock(d)) in s.net)
    && Polling(s, Key(1, x), z, quorums[x] - {x})
  }

  /** A member with the requests of `z` puts the first one of `x` before them. */
  lemma EarlierFirst(waiting: set<Key>, x: int, z: int)
    requires x < z && waiting <= {Key(1, z), Key(2, z)}
    ensures First(waiting + {Key(1, x)}) == Key(1, x)
  {
    FirstIsUnique(waiting + {Key(1, x)}, Key(1, x));
  }

  lemma RefusedGives(s: System, quorums: Quorums, z: int, b: int, t: System, x: int)
    requires RefusedBy(s, quorums, z, b) && x in quorums && x != z
    requires t.nodes == s.nodes[x := SendRequest(s.nodes[x]).node]
    ensures Gives(t, z)
  {
    assert t.nodes[z].responses[b] == FAIL;
  }

  lemma MemberWillVote(s: System, t: System, quorums: Quorums, x: int, z: int, b: int, d: int)
    requires TwoNodes(quorums, x, z) && RefusedBy(s, quorums, z, b) && d in quorums[x] - {x}
    requires t.nodes == s.nodes[x := SendRequest(s.nodes[x]).node] && Gives(t, z)
    ensures WillVote(t, d, Key(1, x), z)
  {
    var n := t.nodes[d];
    assert n == s.nodes[d];
    if d == z || d in quorums[z] {
      EarlierFirst(n.waiting, x, z);
    }
  }

  /** `t` is `s` after `x` has asked. */
  ghost predicate Asks(s: System, t: System, x: int) {
    && x in s.nodes && t.nodes == s.nodes[x := SendRequest(s.nodes[x]).node] && s.net <= t.net
    && (forall d :: d in Others(s, x) ==> Packet(d, Request(Key(s.nodes[x].nextSeq, x))) in t.net)
  }

  lemma AskStep(s: System, x: int)
    requires Ids(s) && x in s.nodes
    ensures Feasible(s, [Ask(x)]) && Asks(s, After(s, [Ask(x)]), x)
  {
    AskOut(s, x);
    OneStep(s, Ask(x));
  }

  lemma RefusedFacts(s: System, quorums: Quorums, x: int, z: int, b: int)
    requires TwoNodes(quorums, x, z) && RefusedBy(s, quorums, z, b)
    ensures Ids(s) && s.nodes[x].nextSeq == 1 && s.nodes[x].quorum == quorums[x] && s.nodes[x].responses == map[]
    ensures s.nodes[z].quorum == quorums[z] && s.nodes[z].responses.Keys <= quorums[z] - {z}
  {
  }

  lemma AllWillVote(s: System, t: System, quorums: Quorums, x: int, z: int, b: int)
    requires TwoNodes(quorums, x, z) && RefusedBy(s, quorums, z, b) && Asks(s, t, x)
    ensures Polling(t, Key(1, x), z, quorums[x] - {x})
  {
    RefusedFacts(s, quorums, x, z, b);
    RefusedGives(s, quorums, z, b, t, x);
    forall d | d in quorums[x] - {x} ensures WillVote(t, d, Key(1, x), z) {
      MemberWillVote(s, t, quorums, x, z, b, d);
    }
  }

  lemma LocksStay(s: System, t: System, quorums: Quorums, z: int, b: int)
    requires RefusedBy(s, quorums, z, b) && s.net <= t.net
    ensures forall d :: d in quorums[z] - {z} ==> Packet(z, Lock(d)) in t.net
  {
    forall d | d in quorums[z] - {z} ensures Packet(z, Lock(d)) in t.net {
      assert Packet(z, Lock(d)) in s.net;
    }
  }

  lemma Contend(s: System, quorums: Quorums, x: int, z: int, b: int)
    requires TwoNodes(quorums, x, z) && RefusedBy(s, quorums, z, b)
    ensures Feasible(s, [Ask(x)]) && Contended(After(s, [Ask(x)]), quorums, x, z)
  {
    RefusedFacts(s, quorums, x, z, b);
    AskStep(s, x);
    var t := After(s, [Ask(x)]);
    AllWillVote(s, t, quorums, x, z, b);
    LocksStay(s, t, quorums, z, b);
    Contends(s, t, quorums, x, z);
  }

  lemma Contends(s: System, t: System, quorums: Quorums, x: int, z: int)
    requires x != z && s.nodes.Keys == quorums.Keys && x in quorums && z in quorums && Asks(s, t, x) && Ids(s)
    requires s.nodes[x].quorum == quorums[x] && s.nodes[x].responses == map[]
    requires s.nodes[z].quorum == quorums[z] && s.nodes[z].responses.Keys <= quorums[z] - {z}
    requires forall d :: d in quorums[z] - {z} ==> Packet(z, Lock(d)) in t.net
    requires Polling(t, Key(1, x), z, quorums[x] - {x})
    ensures Contended(t, quorums, x, z)
  {
  }

  lemma FirstAwaits(s: System, t: System, quorums: Quorums, x: int, z: int)
    requires TwoNodes(quorums, x, z) && Contended(s, quorums, x, z)
    requires Polled(s, t, Key(1, x), quorums[x] - {x})
    ensures Awaiting(t, x, quorums[x] - {x}) && Awaiting(t, z, quorums[z] - {z})
  {
    assert t.nodes[x] == s.nodes[x];
    assert t.nodes[z].responses == s.nodes[z].responses && t.nodes[z].quorum == quorums[z];
    forall d | d in quorums[z] - {z} ensures Packet(z, Lock(d)) in t.net {
      assert Packet(z, Lock(d)) in s.net;
    }
  }

  lemma SecondAwaits(t: System, u: System, x: int, z: int, todo: set<int>)
    requires Awaiting(t, z, todo) && Received(t, u, x) && x != z && Ids(u)
    ensures Awaiting(u, z, todo)
  {
    assert u.nodes[z] == t.nodes[z];
    forall d | d in todo ensures Packet(z, Lock(d)) in u.net {
      assert Packet(z, Lock(d)) in t.net;
    }
  }

  lemma EnterBoth(s: System, quorums: Quorums, x: int, z: int) returns (acts: seq<Action>)
    requires TwoNodes(quorums, x, z) && Contended(s, quorums, x, z)
    ensures Feasible(s, acts) && Orderly(acts, {}) && {x, z} <= InCS(After(s, acts))
  {
    var poll := Poll(s, Key(1, x), z, quorums[x] - {x});
    var t := After(s, poll);
    FirstAwaits(s, t, quorums, x, z);
    var more := EnterAfterPoll(t, quorums, x, z);
    Together(s, poll, more, {});
    acts := poll + more;
  }

  lemma EnterAfterPoll(t: System, quorums: Quorums, x: int, z: int) returns (acts: seq<Action>)
    requires TwoNodes(quorums, x, z)
    requires Awaiting(t, x, quorums[x] - {x}) && Awaiting(t, z, quorums[z] - {z})
    ensures Feasible(t, acts) && Orderly(acts, {}) && {x, z} <= InCS(After(t, acts))
  {
    HasOthers(quorums[x], x);
    HasOthers(quorums[z], z);
    var first := ReceiveVotes(t, x, quorums[x] - {x});
    var u := After(t, first);
    SecondAwaits(t, u, x, z, quorums[z] - {z});
    var second := ReceiveVotes(u, z, quorums[z] - {z});
    Together(t, first, second, {});
    acts := first + second;
  }

  lemma Loosen(acts: seq<Action>, few: set<int>, many: set<int>)
    requires Orderly(acts, few) && few <= many
    ensures Orderly(acts, many)
  {
  }

  lemma GetReady(quorums: Quorums, z: int) returns (acts: seq<Action>)
    requires Closed(quorums) && z in quorums
    ensures Feasible(Start(quorums), acts) && Orderly(acts, {z})
    ensures VotesUnderWay(After(Start(quorums), acts), quorums, z)
  {
    var ask := [Ask(z), Ask(z)];
    AskTwice(quorums, z);
    var votes := GetVotes(After(Start(quorums), ask), quorums, z);
    Loosen(votes, {}, {z});
    Together(Start(quorums), ask, votes, {z});
    acts := ask + votes;
  }

  lemma Clash(s: System, quorums: Quorums, x: int, z: int, b: int) returns (acts: seq<Action>)
    requires TwoNodes(quorums, x, z) && RefusedBy(s, quorums, z, b)
    ensures Feasible(s, acts) && Orderly(acts, {x}) && {x, z} <= InCS(After(s, acts))
  {
    Contend(s, quorums, x, z, b);
    var enter := EnterBoth(After(s, [Ask(x)]), quorums, x, z);
    Loosen(enter, {}, {x});
    Together(s, [Ask(x)], enter, {x});
    acts := [Ask(x)] + enter;
  }

  lemma RefuseAndClash(s: System, quorums: Quorums, x: int, z: int) returns (acts: seq<Action>)
    requires TwoNodes(quorums, x, z) && VotesUnderWay(s, quorums, z)
    ensures Feasible(s, acts) && Orderly(acts, {x}) && {x, z} <= InCS(After(s, acts))
  {
    HasOthers(quorums[z], z);
    HasElement(quorums[z] - {z});
    var b :| b in quorums[z] - {z};
    var refusal := [Deliver(Packet(b, Request(Key(2, z))), 0), Deliver(Packet(z, Fail(b)), 0)];
    GetRefused(s, quorums, z, b);
    var clash := Clash(After(s, refusal), quorums, x, z, b);
    Together(s, refusal, clash, {x});
    acts := refusal + clash;
  }

  /** Any two nodes that can enter at all can be inside together, whatever their quorums are, when
      they alone ask and nothing is lost. */
  lemma TwoEnter(quorums: Quorums, x: int, z: int) returns (acts: seq<Action>)
    requires TwoNodes(quorums, x, z)
    ensures Feasible(Start(quorums), acts) && Orderly(acts, {x, z}) && {x, z} <= InCS(After(Start(quorums), acts))
  {
    var ready := GetReady(quorums, z);
    var clash := RefuseAndClash(After(Start(quorums), ready), quorums, x, z);
    Loosen(ready, {z}, {x, z});
    Loosen(clash, {x}, {x, z});
    Together(Start(quorums), ready, clash, {x, z});
    acts := ready + clash;
  }

  // ----- who can enter at all

  /** Requesters with another quorum member; entering takes a LOCK from another node. */
  function Able(quorums: Quorums, requesters: set<int>): set<int>
    requires requesters <= quorums.Keys
  {
    set x | x in requesters && |quorums[x]| >= 2
  }

  lemma {:induction false} NeverAsksNeverEnters(
      quorums: Quorums, s: System, acts: seq<Action>, requesters: set<int>, b: int)
    requires OwnMember(quorums) && Inv(quorums, s) && Quiet(s, b) && b !in requesters
    requires Feasible(s, acts) && AskedBy(acts, requesters)
    ensures b !in InCS(After(s, acts))
    decreases |acts|
  {
    if acts != [] {
      assert acts[0].Ask? ==> acts[0].id in requesters;
      NextKeepsInv(quorums, s, acts[0]);
      NextKeepsQuiet(quorums, s, acts[0], b);
      assert AskedBy(acts[1..], requesters);
      NeverAsksNeverEnters(quorums, Next(s, acts[0]), acts[1..], requesters, b);
    }
  }

  lemma AloneStaysOut(quorums: Quorums, s: System, a: Action, b: int)
    requires Inv(quorums, s) && b in quorums && |quorums[b]| < 2 && Enabled(s, a)
    requires b in s.nodes && !s.nodes[b].inCS
    ensures b in Next(s, a).nodes && !Next(s, a).nodes[b].inCS
  {
    if a.Deliver? && a.packet.to == b {
      assert NodeOk(quorums, Seqs(s), s.nodes[b]);
      AloneDoesNotEnter(s.nodes[b], a.packet.msg, a.unset);
      ReceiveKeepsId(s.nodes[b], a.packet.msg, a.unset);
    } else if a.Deliver? && a.packet.to in s.nodes {
      ReceiveKeepsId(s.nodes[a.packet.to], a.packet.msg, a.unset);
    }
  }

  lemma AloneDoesNotEnter(n: Node, m: Message, unset: int)
    requires CanReceive(n, m) && !n.inCS && |n.quorum| < 2
    ensures !Receive(n, m, unset).node.inCS
  {
    if m.Lock? {
      var responses := n.responses[m.from := LOCK];
      Smaller({m.from}, responses.Keys);
      assert |responses| == |responses.Keys|;
    }
  }

  lemma {:induction false} AloneNeverEnters(quorums: Quorums, s: System, acts: seq<Action>, b: int)
    requires OwnMember(quorums) && Inv(quorums, s) && b in quorums && |quorums[b]| < 2
    requires b in s.nodes && !s.nodes[b].inCS && Feasible(s, acts)
    ensures b !in InCS(After(s, acts))
    decreases |acts|
  {
    if acts != [] {
      NextKeepsInv(quorums, s, acts[0]);
      AloneStaysOut(quorums, s, acts[0], b);
      AloneNeverEnters(quorums, Next(s, acts[0]), acts[1..], b);
    }
  }

  lemma OnlyAbleEnter(quorums: Quorums, requesters: set<int>, acts: seq<Action>)
    requires OwnMember(quorums) && requesters <= quorums.Keys
    requires Feasible(Start(quorums), acts) && AskedBy(acts, requesters)
    ensures InCS(After(Start(quorums), acts)) <= Able(quorums, requesters)
  {
    StartInv(quorums);
    RunKeepsInv(quorums, Start(quorums), acts);
    forall i | i in InCS(After(Start(quorums), acts)) ensures i in Able(quorums, requesters) {
      if i !in requesters {
        NeverAsksNeverEnters(quorums, Start(quorums), acts, requesters, i);
      } else if |quorums[i]| < 2 {
        AloneNeverEnters(quorums, Start(quorums), acts, i);
      }
    }
  }

  lemma TwoOf(s: set<int>) returns (x: int, z: int)
    requires |s| >= 2
    ensures x in s && z in s && x < z
  {
    HasElement(s);
    var a :| a in s;
    HasOthers(s, a);
    HasElement(s - {a});
    var b :| b in s - {a};
    x, z := if a < b then a else b, if a < b then b else a;
  }

  /** With RELINQUISH, quorums do not help. Over all runs, whatever the quorums are, requesters
      exclude one another if and only if at most one of them can enter at all. */
  lemma ExclusionIffOneRequester(quorums: Quorums, requesters: set<int>)
    requires OwnMember(quorums) && Closed(quorums) && requesters <= quorums.Keys
    ensures (forall acts :: Feasible(Start(quorums), acts) && AskedBy(acts, requesters) ==>
                              |InCS(After(Start(quorums), acts))| <= 1)
            <==> |Able(quorums, requesters)| <= 1
  {
    if |Able(quorums, requesters)| <= 1 {
      forall acts | Feasible(Start(quorums), acts) && AskedBy(acts, requesters)
        ensures |InCS(After(Start(quorums), acts))| <= 1
      {
        OnlyAbleEnter(quorums, requesters, acts);
        Smaller(InCS(After(Start(quorums), acts)), Able(quorums, requesters));
      }
    } else {
      var x, z := TwoOf(Able(quorums, requesters));
      var acts := TwoEnter(quorums, x, z);
      Smaller({x, z}, InCS(After(Start(quorums), acts)));
      assert AskedBy(acts, requesters);
    }
  }
}
