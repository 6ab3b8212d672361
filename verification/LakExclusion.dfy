/** When does the token algorithm keep at most one node in its critical section over all runs?
    Exactly when the first holder's token can never leave it. */
module LakExclusion {
  import opened Priority
  import opened LakProtocol
  import opened LakSystem
  import opened LakSafety
  import opened LakStray
  import opened Sums

  /** No other node has node 1 in its quorum. */
  ghost predicate Alone(quorums: Quorums) {
    forall j :: j in quorums && j != 1 ==> 1 !in quorums[j]
  }

  ghost predicate ResignedNode(n: Node) {
    && n.list == map[]
    && (if n.id == 1 then n.hasToken
        else n.holder == UNKNOWN && !n.hasToken && !n.inCS && 1 !in n.quorum && UNKNOWN !in n.quorum)
  }

  ghost predicate ResignedMail(m: Mail) {
    m.Ack? || (m.Order? && m.entry.Req? && m.entry.to != 1)
  }

  /** The token rests at node 1 and nobody knows where it is. */
  ghost predicate Resigned(s: System) {
    && s.tokens == multiset{}
    && (forall i :: i in s.nodes ==> s.nodes[i].id == i && ResignedNode(s.nodes[i]))
    && (forall m :: m in s.mail ==> ResignedMail(m))
  }

  lemma AskResigned(n: Node)
    requires ResignedNode(n)
    ensures var o := SendRequest(n);
            && o.node.id == n.id && ResignedNode(o.node) && o.tokens == multiset{}
            && forall m :: m in o.mail ==> ResignedMail(m)
  {
  }

  lemma MailResigned(n: Node, m: Mail)
    requires ResignedNode(n) && ResignedMail(m) && m.Addressee() == n.id
    ensures var o := ReceiveMail(n, m);
            && o.node.id == n.id && ResignedNode(o.node) && o.tokens == multiset{}
            && forall letter :: letter in o.mail ==> ResignedMail(letter)
  {
  }

  lemma ApplyResigned(s: System, i: int, o: Outcome)
    requires Resigned(s) && i in s.nodes && o.node.id == i && ResignedNode(o.node)
    requires o.tokens == multiset{} && forall m :: m in o.mail ==> ResignedMail(m)
    ensures Resigned(Apply(s, i, o))
  {
    forall m | m in Apply(s, i, o).mail ensures ResignedMail(m) {
      assert m in s.mail || m in o.mail;
    }
  }

  lemma NextResigned(s: System, a: Action)
    requires Resigned(s) && Enabled(s, a)
    ensures Resigned(Next(s, a))
  {
    match a
    case Ask(i) =>
      AskResigned(s.nodes[i]);
      ApplyResigned(s, i, SendRequest(s.nodes[i]));
    case DeliverMail(m) =>
      var taken := s.(mail := s.mail - multiset{m});
      assert Resigned(taken);
      if m.Addressee() in s.nodes {
        MailResigned(s.nodes[m.Addressee()], m);
        ApplyResigned(taken, m.Addressee(), ReceiveMail(s.nodes[m.Addressee()], m));
      }
    case Finish(i) =>
      ApplyResigned(s, i, Leave(s.nodes[i]));
    case LoseMail(_) =>
    case _ =>
  }

  lemma {:induction false} RunResigned(s: System, acts: seq<Action>)
    requires Resigned(s) && Feasible(s, acts)
    ensures Resigned(After(s, acts))
    decreases |acts|
  {
    if acts != [] {
      NextResigned(s, acts[0]);
      RunResigned(Next(s, acts[0]), acts[1..]);
    }
  }

  /** Exactly: with node 1 in its own quorum, all runs of the token algorithm keep at most one
      node in its critical section if and only if no other node has node 1 in its quorum, and
      then no other node can ever enter. */
  lemma ExclusionIffAlone(quorums: Quorums)
    requires Closed(quorums) && 1 in quorums && 1 in quorums[1]
    ensures (forall acts :: Feasible(Start(quorums), acts) ==> |InCS(After(Start(quorums), acts))| <= 1)
            <==> Alone(quorums)
    ensures Alone(quorums) ==>
              forall acts :: Feasible(Start(quorums), acts) ==> InCS(After(Start(quorums), acts)) <= {1}
  {
    if Alone(quorums) {
      assert Resigned(Start(quorums));
      forall acts | Feasible(Start(quorums), acts)
        ensures InCS(After(Start(quorums), acts)) <= {1}
        ensures |InCS(After(Start(quorums), acts))| <= 1
      {
        RunResigned(Start(quorums), acts);
        var t := After(Start(quorums), acts);
        forall i | i in InCS(t) ensures i in {1} {
          assert ResignedNode(t.nodes[i]);
        }
        Smaller(InCS(t), {1});
      }
    } else {
      var j :| j in quorums && j != 1 && 1 in quorums[j];
      assert Neighbour(quorums, j);
      OneStrayDefeatsExclusion(quorums, j);
      var acts := FirstTwo(j) + (Detour(j) + Arrivals(j));
      Smaller({1, j}, InCS(After(Start(quorums), acts)));
    }
  }
}
