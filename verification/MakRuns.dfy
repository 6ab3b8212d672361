/** Every voting node of every run goes through a history, so what is stated of all histories holds of
    it at every moment. */
module MakRuns {
  import opened Priority
  import opened MakProtocol
  import opened MakSystem
  import opened MakSafety
  import opened MakExclusion
  import opened MakHistory
  import opened MakDuties
  import opened Options
  import opened Sums

  /** What happens to node `i` in a run. */
  function Local(acts: seq<Action>, i: int): seq<Event>
    decreases |acts|
  {
    if acts == [] then [] else Local(acts[..|acts| - 1], i) + LocalEvent(acts[|acts| - 1], i)
  }

  function LocalEvent(a: Action, i: int): seq<Event> {
    match a
    case Ask(j) => if j == i then [Issued] else []
    case Deliver(p, unset) => if p.to == i then [Got(p.msg, unset)] else []
    case Finish(j) => if j == i then [Finished] else []
    case Lose(_) => []
  }

  lemma {:induction false} LastStep(s: System, acts: seq<Action>)
    requires Feasible(s, acts) && acts != []
    ensures var most, a := acts[..|acts| - 1], acts[|acts| - 1];
            && Feasible(s, most) && Enabled(After(s, most), a)
            && After(s, acts) == Next(After(s, most), a)
    decreases |acts|
  {
    if |acts| > 1 {
      LastStep(Next(s, acts[0]), acts[1..]);
      assert acts[1..][..|acts| - 2] == acts[..|acts| - 1][1..];
    } else {
      assert acts[..0] == [] && acts[1..] == [];
    }
  }

  lemma StepKeepsIds(s: System, a: Action)
    requires Ids(s) && Enabled(s, a)
    ensures Ids(Next(s, a)) && Next(s, a).nodes.Keys == s.nodes.Keys
  {
    if a.Deliver? && a.packet.to in s.nodes {
      ReceiveKeepsId(s.nodes[a.packet.to], a.packet.msg, a.unset);
    }
  }

  /** One step is one event of the node it is at, with what is sent going to the network. */
  lemma StepIsEvent(s: System, a: Action, i: int)
    requires Ids(s) && Enabled(s, a) && i in s.nodes
    ensures var h := LocalEvent(a, i);
            && (h == [] ==> Next(s, a).nodes[i] == s.nodes[i])
            && (h != [] ==> Defined(s.nodes[i], h[0]) && Next(s, a).nodes[i] == Effect(s.nodes[i], h[0]).node
                            && Effect(s.nodes[i], h[0]).sent <= Next(s, a).net)
  {
    if a.Deliver? && a.packet.to in s.nodes {
      ReceiveKeepsId(s.nodes[a.packet.to], a.packet.msg, a.unset);
    }
  }

  /** At every moment of every run each node is what its history makes of it. */
  lemma {:induction false} RunIsHistory(s: System, acts: seq<Action>, i: int)
    requires Ids(s) && Feasible(s, acts) && i in s.nodes
    ensures Ids(After(s, acts)) && i in After(s, acts).nodes
    ensures Possible(s.nodes[i], Local(acts, i)) && After(s, acts).nodes[i] == State(s.nodes[i], Local(acts, i))
    decreases |acts|
  {
    if acts != [] {
      var most, a := acts[..|acts| - 1], acts[|acts| - 1];
      LastStep(s, acts);
      RunIsHistory(s, most, i);
      StepKeepsIds(After(s, most), a);
      StepIsEvent(After(s, most), a, i);
      var h := LocalEvent(a, i);
      if h == [] {
        assert Local(most, i) + h == Local(most, i);
      } else {
        assert h == [h[0]];
        OneMore(s.nodes[i], Local(most, i), h[0]);
      }
    }
  }

  /** In every run, from what has been delivered to it: which answers a node has on record, whether
      it is inside, and its next number. */
  lemma EveryRunRemembers(quorums: Quorums, acts: seq<Action>, i: int)
    requires Feasible(Start(quorums), acts) && i in quorums
    ensures i in After(Start(quorums), acts).nodes
    ensures var n, h := After(Start(quorums), acts).nodes[i], Local(acts, i);
            && n.nextSeq == 1 + TimesIssued(h)
            && AnswersMatch(n, h)
            && (n.inCS <==> Inside(quorums[i], h))
  {
    var n := NewNode(i, quorums[i]);
    RunIsHistory(Start(quorums), acts, i);
    Numbers(i, quorums[i], Local(acts, i));
    Answers(n, Local(acts, i));
    InsideMatches(n, Local(acts, i));
  }

  /** In every run, from deliveries alone: RELINQUISHes go to `b` exactly with the first FAIL after
      INQUIREs of `b` that came when the node was neither inside nor refused, one for each, unless it
      finished a section in between; or at once, if the INQUIRE finds it refused and not inside. */
  lemma VotesGivenBack(quorums: Quorums, acts: seq<Action>, i: int, m: Message, unset: int, b: int)
    requires Feasible(Start(quorums), acts) && i in After(Start(quorums), acts).nodes
    requires CanReceive(After(Start(quorums), acts).nodes[i], m)
    ensures i in quorums
    ensures var h := Local(acts, i);
            Receive(After(Start(quorums), acts).nodes[i], m, unset).sent[Packet(b, Relinquish(i))] ==
              if m.Fail? then |SentBy(Owed(quorums[i], h), b)|
              else if m == Inquire(b) && Refused(h) && !Inside(quorums[i], h) then 1 else 0
  {
    NodesStay(Start(quorums), acts);
    RunIsHistory(Start(quorums), acts, i);
    GivesBack(NewNode(i, quorums[i]), Local(acts, i), m, unset, b);
  }

  /** In every run: when an INQUIRE of `b` reaches a node that is neither inside nor refused, the next
      FAIL that reaches it before it finishes a section puts a RELINQUISH for `b` on the network. */
  lemma NextRefusalGivesBack(quorums: Quorums, acts: seq<Action>, more: seq<Action>, i: int, b: int, unset: int,
      f: int, other: int)
    requires Feasible(Start(quorums), acts) && i in quorums
    requires !Inside(quorums[i], Local(acts, i)) && !Refused(Local(acts, i))
    requires var s := After(Start(quorums), acts);
             var inquiry, refusal := Deliver(Packet(i, Inquire(b)), unset), Deliver(Packet(i, Fail(f)), other);
             && Enabled(s, inquiry) && Feasible(Next(s, inquiry), more)
             && Enabled(After(Next(s, inquiry), more), refusal)
    requires forall x :: x in more ==> x != Finish(i) && !(x.Deliver? && x.packet.to == i && x.packet.msg.Fail?)
    ensures var t := After(Next(After(Start(quorums), acts), Deliver(Packet(i, Inquire(b)), unset)), more);
            Packet(b, Relinquish(i)) in Next(t, Deliver(Packet(i, Fail(f)), other)).net
  {
    var s := After(Start(quorums), acts);
    var inquiry := Deliver(Packet(i, Inquire(b)), unset);
    InquiryWaits(quorums, acts, i, b, unset);
    StaysWaiting(Next(s, inquiry), more, i, Key(unset, b));
    RefusalPays(After(Next(s, inquiry), more), i, Key(unset, b), f, other);
  }

  lemma InquiryWaits(quorums: Quorums, acts: seq<Action>, i: int, b: int, unset: int)
    requires Feasible(Start(quorums), acts) && i in quorums
    requires !Inside(quorums[i], Local(acts, i)) && !Refused(Local(acts, i))
    requires Enabled(After(Start(quorums), acts), Deliver(Packet(i, Inquire(b)), unset))
    ensures var t := Next(After(Start(quorums), acts), Deliver(Packet(i, Inquire(b)), unset));
            Ids(t) && i in t.nodes && Key(unset, b) in t.nodes[i].inquiries
  {
    var s := After(Start(quorums), acts);
    EveryRunRemembers(quorums, acts, i);
    RefusalsMatch(s.nodes[i], Local(acts, i));
    RunIsHistory(Start(quorums), acts, i);
    InquiryIsSaved(s, i, b, unset);
  }

  lemma InquiryIsSaved(s: System, i: int, b: int, unset: int)
    requires Ids(s) && i in s.nodes && !s.nodes[i].inCS && !s.nodes[i].HasRefusal()
    requires Enabled(s, Deliver(Packet(i, Inquire(b)), unset))
    ensures var t := Next(s, Deliver(Packet(i, Inquire(b)), unset));
            Ids(t) && i in t.nodes && Key(unset, b) in t.nodes[i].inquiries
  {
    StepKeepsIds(s, Deliver(Packet(i, Inquire(b)), unset));
    StepIsEvent(s, Deliver(Packet(i, Inquire(b)), unset), i);
    InquirySaved(s.nodes[i], b, unset);
  }

  lemma StaysWaiting(s: System, more: seq<Action>, i: int, inquiry: Key)
    requires Ids(s) && i in s.nodes && inquiry in s.nodes[i].inquiries && Feasible(s, more)
    requires forall x :: x in more ==> x != Finish(i) && !(x.Deliver? && x.packet.to == i && x.packet.msg.Fail?)
    ensures var t := After(s, more);
            Ids(t) && i in t.nodes && inquiry in t.nodes[i].inquiries
  {
    RunIsHistory(s, more, i);
    LocalHasNoRefusal(more, i);
    DebtsStay(s.nodes[i], Local(more, i));
  }

  lemma RefusalPays(t: System, i: int, inquiry: Key, f: int, unset: int)
    requires Ids(t) && i in t.nodes && inquiry in t.nodes[i].inquiries
    requires Enabled(t, Deliver(Packet(i, Fail(f)), unset))
    ensures Packet(inquiry.from, Relinquish(i)) in Next(t, Deliver(Packet(i, Fail(f)), unset)).net
  {
    assert inquiry in SentBy(t.nodes[i].inquiries, inquiry.from);
    GivenBack(t.nodes[i], Fail(f), unset, inquiry.from);
    StepIsEvent(t, Deliver(Packet(i, Fail(f)), unset), i);
  }

  lemma {:induction false} LocalHasNoRefusal(acts: seq<Action>, i: int)
    requires forall x :: x in acts ==> x != Finish(i) && !(x.Deliver? && x.packet.to == i && x.packet.msg.Fail?)
    ensures forall e :: e in Local(acts, i) ==> !e.Finished? && !(e.Got? && e.msg.Fail?)
    decreases |acts|
  {
    if acts != [] {
      var most, a := acts[..|acts| - 1], acts[|acts| - 1];
      assert a in acts && forall x :: x in most ==> x in acts;
      LocalHasNoRefusal(most, i);
      assert Local(acts, i) == Local(most, i) + LocalEvent(a, i);
    }
  }

  lemma {:induction false} NodesStay(s: System, acts: seq<Action>)
    requires Ids(s) && Feasible(s, acts)
    ensures After(s, acts).nodes.Keys == s.nodes.Keys
    decreases |acts|
  {
    if acts != [] {
      StepKeepsIds(s, acts[0]);
      NodesStay(Next(s, acts[0]), acts[1..]);
    }
  }

  /** In every run, a request that has reached a node stays in its queue until its sender releases
      or the node finishes a section. */
  lemma RequestStaysQueued(quorums: Quorums, acts: seq<Action>, more: seq<Action>, k: Key, b: int, unset: int)
    requires Feasible(Start(quorums), acts) && b in quorums
    requires var s := After(Start(quorums), acts);
             var a := Deliver(Packet(b, Request(k)), unset);
             Enabled(s, a) && Feasible(Next(s, a), more)
    requires forall x :: x in more ==> x != Finish(b) && !(x.Deliver? && x.packet == Packet(b, Release(k.from)))
    ensures var t := After(Next(After(Start(quorums), acts), Deliver(Packet(b, Request(k)), unset)), more);
            b in t.nodes && k in t.nodes[b].waiting
  {
    var s := After(Start(quorums), acts);
    var a := Deliver(Packet(b, Request(k)), unset);
    RunIsHistory(Start(quorums), acts, b);
    StepKeepsIds(s, a);
    StepIsEvent(s, a, b);
    QueueStep(s.nodes[b], Got(Request(k), unset), k);
    RunIsHistory(Next(s, a), more, b);
    LocalHasNone(more, b, k.from);
    StaysQueued(Next(s, a).nodes[b], Local(more, b), k);
  }

  lemma {:induction false} LocalHasNone(acts: seq<Action>, b: int, from: int)
    requires forall x :: x in acts ==> x != Finish(b) && !(x.Deliver? && x.packet == Packet(b, Release(from)))
    ensures forall e :: e in Local(acts, b) ==> !e.Finished? && !(e.Got? && e.msg == Release(from))
    decreases |acts|
  {
    if acts != [] {
      var most, a := acts[..|acts| - 1], acts[|acts| - 1];
      assert a in acts && forall x :: x in most ==> x in acts;
      LocalHasNone(most, b, from);
      assert Local(acts, b) == Local(most, b) + LocalEvent(a, b);
    }
  }

  /** In every run, after a RELEASE the first request left at the arbiter has the vote, and a LOCK is under
      way to its sender, unless it is the arbiter's own. */
  lemma ReleaseIsServed(quorums: Quorums, acts: seq<Action>, b: int, from: int, unset: int, next: Key)
    requires OwnMember(quorums) && Feasible(Start(quorums), acts) && b in quorums
    requires Enabled(After(Start(quorums), acts), Deliver(Packet(b, Release(from)), unset))
    requires var t := Next(After(Start(quorums), acts), Deliver(Packet(b, Release(from)), unset));
             b in t.nodes && IsFirst(t.nodes[b].waiting, next)
    ensures var t := Next(After(Start(quorums), acts), Deliver(Packet(b, Release(from)), unset));
            && VotesFor(t.nodes[b], Some(next))
            && (next.from != b ==> Packet(next.from, Lock(b)) in t.net)
  {
    var s := After(Start(quorums), acts);
    StartInv(quorums);
    RunKeepsInv(quorums, Start(quorums), acts);
    RunIsHistory(Start(quorums), acts, b);
    assert NodeOk(quorums, Seqs(s), s.nodes[b]);
    StepIsEvent(s, Deliver(Packet(b, Release(from)), unset), b);
    ReleaseServes(s.nodes[b], from, unset, Some(next));
  }

  /** After a node has finished its section, the next request of its queue is served on the network:
      its own is under way to all other members, another node's is answered by a LOCK. */
  lemma NextIsServed(quorums: Quorums, acts: seq<Action>, i: int, next: Key)
    requires Feasible(Start(quorums), acts) && Enabled(After(Start(quorums), acts), Finish(i)) && i in quorums
    requires IsFirst(Next(After(Start(quorums), acts), Finish(i)).nodes[i].waiting, next)
    ensures var t := Next(After(Start(quorums), acts), Finish(i));
            && (next.from == i ==> forall q :: q in quorums[i] && q != i ==> Packet(q, Request(next)) in t.net)
            && (next.from != i ==> Packet(next.from, Lock(i)) in t.net)
            && (forall q :: q in quorums[i] && q != i ==> Packet(q, Release(i)) in t.net)
  {
    var s := After(Start(quorums), acts);
    RunIsHistory(Start(quorums), acts, i);
    InsideMatches(NewNode(i, quorums[i]), Local(acts, i));
    var t := Next(s, Finish(i));
    StepIsEvent(s, Finish(i), i);
    forall q | q in quorums[i] && q != i
      ensures Packet(q, Release(i)) in t.net && (next.from == i ==> Packet(q, Request(next)) in t.net)
    {
      FinishServes(s.nodes[i], Some(next), Packet(q, Release(i)));
      FinishServes(s.nodes[i], Some(next), Packet(q, Request(next)));
    }
    FinishServes(s.nodes[i], Some(next), Packet(next.from, Lock(i)));
  }
}
