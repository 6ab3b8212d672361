/** Every token node of every run goes through a history, so at every moment it is what `LakHistory`
    says and every step sends what `LakDuties` says. In runs without stray RELAYs this makes the
    waiting requests travel with the one token. */
module LakRuns {
  import opened Priority
  import opened LakProtocol
  import opened LakReading
  import opened LakSystem
  import opened LakSafety
  import opened LakHistory
  import opened LakDuties
  import opened Options
  import opened Sums

  /** What happens to node `i` in a run; a TOKEN that it never finishes reading does not. */
  function Local(acts: seq<Action>, i: int): seq<Event>
    decreases |acts|
  {
    if acts == [] then [] else Local(acts[..|acts| - 1], i) + LocalEvent(acts[|acts| - 1], i)
  }

  function LocalEvent(a: Action, i: int): seq<Event> {
    match a
    case Ask(j) => if j == i then [Asked] else []
    case DeliverMail(m) => if m.Addressee() == i then [Letter(m)] else []
    case DeliverToken(t, unset) => if t.to == i && Readable(t) then [Arrival(AsRead(t, unset))] else []
    case Finish(j) => if j == i then [Left] else []
    case LoseToken(_) => []
    case LoseMail(_) => []
  }

  /** What an action takes off the network. */
  function TakenToken(a: Action): multiset<Token> {
    if a.DeliverToken? || a.LoseToken? then multiset{a.token} else multiset{}
  }

  function TakenMail(a: Action): multiset<Mail> {
    if a.DeliverMail? || a.LoseMail? then multiset{a.letter} else multiset{}
  }

  lemma {:induction false} LastStep(s: System, acts: seq<Action>)
    requires Feasible(s, acts) && acts != []
    ensures var most, a := acts[..|acts| - 1], acts[|acts| - 1];
            && Feasible(s, most) && Enabled(After(s, most), a)
            && After(s, acts) == Next(After(s, most), a)
    decreases |acts|
  {
    if |acts| > 1 {
      LastStep(Next(s, acts[0]), acts[1..]);
      assert acts[1..][..|acts| - 2] == acts[..|acts| - 1][1..];
    } else {
      assert acts[..0] == [] && acts[1..] == [];
    }
  }

  /** One step is one event of the node it is at, with what is sent going to the network. */
  lemma StepIsEvent(s: System, a: Action, i: int)
    requires IdsOk(s) && Enabled(s, a) && i in s.nodes
    ensures var h := LocalEvent(a, i);
            && i in Next(s, a).nodes
            && (h == [] ==> Next(s, a).nodes[i] == s.nodes[i])
            && (h != [] ==> h == [h[0]] && Next(s, a).nodes[i] == Effect(s.nodes[i], h[0]).node)
  {
    match a
    case DeliverMail(m) =>
      assert MailOk(s.nodes.Keys, m);
      MailIsEvent(s, m, i);
    case DeliverToken(t, unset) =>
      assert TokenOk(s.nodes.Keys, t);
      TokenIsEvent(s, t, unset, i);
    case _ =>
      OwnIsEvent(s, a, i);
  }

  lemma AppliedAt(s: System, j: int, o: Outcome, i: int)
    requires j in s.nodes && i in s.nodes
    ensures i in Apply(s, j, o).nodes && Apply(s, j, o).nodes[i] == if i == j then o.node else s.nodes[i]
  {
  }

  lemma MailIsEvent(s: System, m: Mail, i: int)
    requires Enabled(s, DeliverMail(m)) && i in s.nodes && m.Addressee() in s.nodes
    ensures var t := Next(s, DeliverMail(m));
            && i in t.nodes
            && t.nodes[i] == if m.Addressee() == i then Effect(s.nodes[i], Letter(m)).node else s.nodes[i]
  {
    var j := m.Addressee();
    AppliedAt(s.(mail := s.mail - multiset{m}), j, ReceiveMail(s.nodes[j], m), i);
  }

  lemma TokenIsEvent(s: System, t: Token, unset: int, i: int)
    requires Enabled(s, DeliverToken(t, unset)) && i in s.nodes && t.to in s.nodes
    ensures var u := Next(s, DeliverToken(t, unset));
            && i in u.nodes
            && u.nodes[i] == if t.to == i && Readable(t) then Effect(s.nodes[i], Arrival(AsRead(t, unset))).node
                             else s.nodes[i]
  {
    if Readable(t) {
      AppliedAt(s.(tokens := s.tokens - multiset{t}), t.to, ReceiveToken(s.nodes[t.to], AsRead(t, unset)), i);
    }
  }

  lemma OwnIsEvent(s: System, a: Action, i: int)
    requires Enabled(s, a) && i in s.nodes && !a.DeliverMail? && !a.DeliverToken?
    ensures var h := LocalEvent(a, i);
            && i in Next(s, a).nodes
            && (h == [] ==> Next(s, a).nodes[i] == s.nodes[i])
            && (h != [] ==> h == [h[0]] && Next(s, a).nodes[i] == Effect(s.nodes[i], h[0]).node)
  {
  }

  /** Without what `a` takes. */
  function Gone(s: System, a: Action): System {
    s.(tokens := s.tokens - TakenToken(a), mail := s.mail - TakenMail(a))
  }

  lemma GoneIs(s: System, a: Action)
    ensures a.DeliverMail? ==> Gone(s, a) == s.(mail := s.mail - multiset{a.letter})
    ensures a.DeliverToken? ==> Gone(s, a) == s.(tokens := s.tokens - multiset{a.token})
    ensures a.Ask? || a.Finish? ==> Gone(s, a) == s
  {
    assert s.tokens - multiset{} == s.tokens && s.mail - multiset{} == s.mail;
  }

  /** `t` is `s` after `o` at node `i`, without what `a` takes. */
  ghost predicate Performed(s: System, a: Action, i: int, o: Outcome, t: System) {
    t == Apply(Gone(s, a), i, o)
  }

  lemma MailPerforms(s: System, m: Mail, o: Outcome)
    requires Enabled(s, DeliverMail(m)) && m.Addressee() in s.nodes && o == ReceiveMail(s.nodes[m.Addressee()], m)
    ensures Performed(s, DeliverMail(m), m.Addressee(), o, Next(s, DeliverMail(m)))
  {
    GoneIs(s, DeliverMail(m));
  }

  lemma TokenPerforms(s: System, t: Token, unset: int, o: Outcome)
    requires Enabled(s, DeliverToken(t, unset)) && t.to in s.nodes && Readable(t)
    requires o == ReceiveToken(s.nodes[t.to], AsRead(t, unset))
    ensures Performed(s, DeliverToken(t, unset), t.to, o, Next(s, DeliverToken(t, unset)))
  {
    GoneIs(s, DeliverToken(t, unset));
  }

  lemma AskPerforms(s: System, i: int, o: Outcome)
    requires Enabled(s, Ask(i)) && o == SendRequest(s.nodes[i])
    ensures Performed(s, Ask(i), i, o, Next(s, Ask(i)))
  {
    GoneIs(s, Ask(i));
  }

  lemma FinishPerforms(s: System, i: int, o: Outcome)
    requires Enabled(s, Finish(i)) && o == Leave(s.nodes[i])
    ensures Performed(s, Finish(i), i, o, Next(s, Finish(i)))
  {
    GoneIs(s, Finish(i));
  }

  lemma StepPerforms(s: System, a: Action, i: int, e: Event, o: Outcome)
    requires Enabled(s, a) && i in s.nodes && LocalEvent(a, i) == [e] && o == Effect(s.nodes[i], e)
    ensures Performed(s, a, i, o, Next(s, a))
  {
    match a
    case DeliverMail(m) => MailPerforms(s, m, o);
    case DeliverToken(t, unset) => TokenPerforms(s, t, unset, o);
    case Ask(_) => AskPerforms(s, i, o);
    case Finish(_) => FinishPerforms(s, i, o);
    case LoseToken(_) =>
    case LoseMail(_) =>
  }

  lemma HolderIsNotZero(s: System, i: int)
    requires IdsOk(s) && i in s.nodes
    ensures s.nodes[i].holder != 0
  {
    assert NodeOk(s.nodes.Keys, s.nodes[i]);
  }

  /** At every moment of every run each node is what its history makes of it. */
  lemma {:induction false} RunIsHistory(s: System, acts: seq<Action>, i: int)
    requires IdsOk(s) && Feasible(s, acts) && i in s.nodes
    ensures IdsOk(After(s, acts)) && i in After(s, acts).nodes
    ensures NeverZero(s.nodes[i], Local(acts, i)) && After(s, acts).nodes[i] == State(s.nodes[i], Local(acts, i))
    decreases |acts|
  {
    if acts != [] {
      var most, a := acts[..|acts| - 1], acts[|acts| - 1];
      LastStep(s, acts);
      RunIsHistory(s, most, i);
      HolderIsNotZero(After(s, most), i);
      NextKeepsIds(After(s, most), a);
      StepIsEvent(After(s, most), a, i);
      HistoryGrows(s.nodes[i], Local(most, i), LocalEvent(a, i));
    }
  }

  lemma HistoryGrows(n: Node, h: seq<Event>, more: seq<Event>)
    requires more == [] || more == [more[0]]
    ensures more == [] ==> h + more == h
    ensures more != [] ==> State(n, h + more) == Effect(State(n, h), more[0]).node
    ensures more != [] && NeverZero(n, h) && State(n, h).holder != 0 ==> NeverZero(n, h + more)
  {
    if more != [] {
      assert Init(h + more) == h && Last(h + more) == more[0];
    }
  }

  /** In every run, told from what has been delivered to it alone: a node's number, where it believes
      the token is, whether it has it, whether it is inside, and the requests that wait with it. */
  lemma EveryRunRemembers(quorums: Quorums, acts: seq<Action>, i: int)
    requires Closed(quorums) && Feasible(Start(quorums), acts) && i in quorums
    ensures i in After(Start(quorums), acts).nodes
    ensures Matches(NewNode(i, quorums[i]), Local(acts, i), After(Start(quorums), acts).nodes[i])
  {
    StartIds(quorums);
    RunIsHistory(Start(quorums), acts, i);
    EveryHistory(NewNode(i, quorums[i]), Local(acts, i));
  }

  /** The step `a` adds to the network the token and the letters that are due at `e` after `h`. */
  ghost predicate SendsWhatIsDue(n: Node, h: seq<Event>, s: System, a: Action, e: Event, m: Mail)
    requires Enabled(s, a)
  {
    && Next(s, a).tokens == s.tokens - TakenToken(a) + TokenDue(n, h, e)
    && Next(s, a).mail[m] == (s.mail - TakenMail(a))[m] + LettersDue(n, h, e, m)
  }

  /** In every run, what a step puts on the network, exactly. */
  lemma EveryStepSends(quorums: Quorums, acts: seq<Action>, a: Action, i: int, e: Event, m: Mail)
    requires Closed(quorums) && Feasible(Start(quorums), acts) && i in quorums
    requires Enabled(After(Start(quorums), acts), a) && LocalEvent(a, i) == [e]
    ensures SendsWhatIsDue(NewNode(i, quorums[i]), Local(acts, i), After(Start(quorums), acts), a, e, m)
  {
    StartIds(quorums);
    RunIsHistory(Start(quorums), acts, i);
    var s := After(Start(quorums), acts);
    HolderIsNotZero(s, i);
    EveryHistory(NewNode(i, quorums[i]), Local(acts, i));
    StepSendsDue(NewNode(i, quorums[i]), Local(acts, i), s, a, i, e, m);
  }

  lemma StepSendsDue(n: Node, h: seq<Event>, s: System, a: Action, i: int, e: Event, m: Mail)
    requires Enabled(s, a) && i in s.nodes && LocalEvent(a, i) == [e]
    requires Matches(n, h, s.nodes[i]) && s.nodes[i].holder != 0
    ensures SendsWhatIsDue(n, h, s, a, e, m)
  {
    var o := Effect(s.nodes[i], e);
    StepPerforms(s, a, i, e, o);
    PerformedSends(s, a, i, o, Next(s, a), m);
    EventSends(n, h, s.nodes[i], e, m);
  }

  lemma PerformedSends(s: System, a: Action, i: int, o: Outcome, t: System, m: Mail)
    requires Performed(s, a, i, o, t)
    ensures t.tokens == s.tokens - TakenToken(a) + o.tokens
    ensures t.mail[m] == (s.mail - TakenMail(a))[m] + o.mail[m]
  {
  }

  // ----- asking

  /** In every run, asking without the token sends one request, with the next number, to the holder
      the node was last told of, if that is a member, and else to every other member. */
  lemma AskReaches(quorums: Quorums, acts: seq<Action>, i: int, q: int)
    requires Closed(quorums) && Feasible(Start(quorums), acts) && i in quorums
    requires Enabled(After(Start(quorums), acts), Ask(i)) && !HasIt(NewNode(i, quorums[i]), Local(acts, i))
    ensures var s, n, h := After(Start(quorums), acts), NewNode(i, quorums[i]), Local(acts, i);
            var request := Order(Req(i, q, Number(n, h)));
            Next(s, Ask(i)).mail[request] == s.mail[request] + One(IsAsked(n, h, q))
  {
    var n, h := NewNode(i, quorums[i]), Local(acts, i);
    EveryStepSends(quorums, acts, Ask(i), i, Asked, Order(Req(i, q, Number(n, h))));
  }

  /** In every run, a request that comes to a node without the token is acknowledged if the node has
      forgotten where the token is, and else relayed to where it was last told it is. */
  lemma RequestIsAnswered(quorums: Quorums, acts: seq<Action>, i: int, e: Entry)
    requires Closed(quorums) && Feasible(Start(quorums), acts) && i in quorums && e.Req? && e.to == i
    requires Enabled(After(Start(quorums), acts), DeliverMail(Order(e)))
    requires !HasIt(NewNode(i, quorums[i]), Local(acts, i))
    ensures var s, n, h := After(Start(quorums), acts), NewNode(i, quorums[i]), Local(acts, i);
            var t := Next(s, DeliverMail(Order(e)));
            var relayed := Order(Rly(e.from, Believes(n, h), Kept(n, h, e).seqno, i));
            && t.mail[Ack(i, e.from)] == s.mail[Ack(i, e.from)] + One(Believes(n, h) == UNKNOWN)
            && t.mail[relayed] == s.mail[relayed] + One(Believes(n, h) != UNKNOWN)
  {
    var n, h := NewNode(i, quorums[i]), Local(acts, i);
    EveryStepSends(quorums, acts, DeliverMail(Order(e)), i, Letter(Order(e)), Ack(i, e.from));
    EveryStepSends(quorums, acts, DeliverMail(Order(e)), i, Letter(Order(e)),
                   Order(Rly(e.from, Believes(n, h), Kept(n, h, e).seqno, i)));
    AnswerDue(n, h, e);
    OtherMailStays(After(Start(quorums), acts), e);
  }

  lemma AnswerDue(n: Node, h: seq<Event>, e: Entry)
    requires e.Req? && !HasIt(n, h)
    ensures var relayed := Order(Rly(e.from, Believes(n, h), Kept(n, h, e).seqno, n.id));
            && LettersDue(n, h, Letter(Order(e)), Ack(n.id, e.from)) == One(Believes(n, h) == UNKNOWN)
            && LettersDue(n, h, Letter(Order(e)), relayed) == One(Believes(n, h) != UNKNOWN)
  {
  }

  lemma OtherMailStays(s: System, e: Entry)
    requires e.Req?
    ensures forall m: Mail :: !m.Order? || m.entry.Rly? ==> (s.mail - TakenMail(DeliverMail(Order(e))))[m] == s.mail[m]
  {
  }

  // ----- leaving, in runs without stray RELAYs

  lemma InsideHasIt(s: System, i: int)
    requires Disciplined(s) && i in s.nodes && s.nodes[i].inCS
    ensures s.nodes[i].hasToken && s.tokens == multiset{}
  {
    assert i in Holding(s);
    assert |Holding(s)| >= 1;
  }

  /** Leaving with requests waiting, in a stray-free run: the only token is under way, with all requests
      that have come since the node entered, to the sender of the first of them; the node has
      neither token nor list any more; and each other member is sent one RELEASE, and nothing else
      is sent. Without requests waiting the token stays and nothing is sent. */
  lemma FinishPassesTheList(quorums: Quorums, acts: seq<Action>, i: int, m: Mail)
    requires Closed(quorums) && Feasible(Start(quorums), acts) && Strays(Start(quorums), acts) == 0
    requires Enabled(After(Start(quorums), acts), Finish(i))
    ensures i in quorums
    ensures var s, t := After(Start(quorums), acts), Next(After(Start(quorums), acts), Finish(i));
            var n, list := NewNode(i, quorums[i]), Listed(NewNode(i, quorums[i]), Local(acts, i));
            && !t.nodes[i].inCS && t.nodes[i].list == map[] && (t.nodes[i].hasToken <==> list == map[])
            && t.tokens == (if list == map[] then multiset{} else multiset{Token(i, First(list.Keys).from, list)})
            && t.mail[m] == s.mail[m] + One(list != map[] && m.Release? && m.from == i && IsOther(n, m.to))
  {
    StrayFreeExclusion(quorums, acts);
    StartIds(quorums);
    RunKeepsIds(Start(quorums), acts);
    var s, n, h := After(Start(quorums), acts), NewNode(i, quorums[i]), Local(acts, i);
    EveryRunRemembers(quorums, acts, i);
    EveryStepSends(quorums, acts, Finish(i), i, Left, m);
    LeftSends(n, h, m);
    InsideHasIt(s, i);
    StepIsEvent(s, Finish(i), i);
    LeavingNode(s.nodes[i]);
    NothingTaken(s, Finish(i), m);
  }

  lemma LeftSends(n: Node, h: seq<Event>, m: Mail)
    ensures var list := Listed(n, h);
            && TokenDue(n, h, Left) ==
               (if list == map[] then multiset{} else multiset{Token(n.id, First(list.Keys).from, list)})
            && LettersDue(n, h, Left, m) == One(list != map[] && m.Release? && m.from == n.id && IsOther(n, m.to))
  {
  }

  lemma NothingTaken(s: System, a: Action, m: Mail)
    requires TakenToken(a) == multiset{} && TakenMail(a) == multiset{}
    ensures (s.mail - TakenMail(a))[m] == s.mail[m]
    ensures s.tokens == multiset{} ==> forall more :: s.tokens - TakenToken(a) + more == more
  {
  }

  lemma LeavingNode(n: Node)
    ensures var after := Effect(n, Left).node;
            && !after.inCS && after.list == map[] && (n.hasToken ==> (after.hasToken <==> n.list == map[]))
  {
  }

  // ----- a request that comes inside

  /** The key under which a request is kept. */
  function KeptKey(n: Node, h: seq<Event>, e: Entry): Key { Kept(n, h, e).AsKey() }

  lemma ComesInside(n: Node, h: seq<Event>, s: Node, e: Event)
    requires Matches(n, h, s) && Request(e) && s.inCS && s.hasToken
    ensures var after := Effect(s, e).node;
            after.inCS && KeptKey(n, h, e.mail.entry) in after.list
  {
    RequestMatches(n, h + [e], s) by {
      assert Init(h + [e]) == h && Last(h + [e]) == e;
    }
    assert Init(h + [e]) == h && Last(h + [e]) == e;
  }

  lemma StaysInside(n: Node, e: Event, k: Key)
    requires n.inCS && n.hasToken && k in n.list && n.holder != 0 && !e.Left? && !e.Arrival?
    ensures var after := Effect(n, e).node;
            after.inCS && k in after.list && after.list[k] == n.list[k]
  {
  }

  lemma StepKeepsEntry(s: System, a: Action, i: int, k: Key)
    requires IdsOk(s) && Disciplined(s) && Enabled(s, a) && a != Finish(i)
    requires i in s.nodes && s.nodes[i].inCS && k in s.nodes[i].list
    ensures var t := Next(s, a);
            i in t.nodes && t.nodes[i].inCS && k in t.nodes[i].list && t.nodes[i].list[k] == s.nodes[i].list[k]
  {
    InsideHasIt(s, i);
    HolderIsNotZero(s, i);
    StepIsEvent(s, a, i);
    if LocalEvent(a, i) != [] {
      StaysInside(s.nodes[i], LocalEvent(a, i)[0], k);
    }
  }

  lemma {:induction false} RunKeepsEntry(s: System, acts: seq<Action>, i: int, k: Key)
    requires IdsOk(s) && Disciplined(s) && Feasible(s, acts) && Strays(s, acts) == 0 && Finish(i) !in acts
    requires i in s.nodes && s.nodes[i].inCS && k in s.nodes[i].list
    ensures var t := After(s, acts);
            && IdsOk(t) && Disciplined(t)
            && i in t.nodes && t.nodes[i].inCS && k in t.nodes[i].list && t.nodes[i].list[k] == s.nodes[i].list[k]
    decreases |acts|
  {
    if acts != [] {
      StepKeepsEntry(s, acts[0], i, k);
      NextKeepsIds(s, acts[0]);
      NextKeepsDiscipline(s, acts[0]);
      RunKeepsEntry(Next(s, acts[0]), acts[1..], i, k);
    }
  }

  /** The only token is under way from `i`, carries an entry under `k`, and goes to the first in its list. */
  ghost predicate CarriedFrom(s: System, i: int, k: Key) {
    exists list: TokenList :: k in list && s.tokens == multiset{Token(i, First(list.Keys).from, list)}
  }

  /** A request that reaches a node inside waits there until the node leaves, and then travels with the
      token: in stray-free runs, whatever else happens in between. */
  lemma RequestTravels(quorums: Quorums, acts: seq<Action>, more: seq<Action>, i: int, e: Entry)
    requires Closed(quorums) && Feasible(Start(quorums), acts) && Strays(Start(quorums), acts) == 0
    requires i in quorums && Inside(NewNode(i, quorums[i]), Local(acts, i)) && e.Req? && e.to == i
    requires var s, a := After(Start(quorums), acts), DeliverMail(Order(e));
             && Enabled(s, a) && Feasible(Next(s, a), more) && Strays(Next(s, a), more) == 0
             && Finish(i) !in more && Enabled(After(Next(s, a), more), Finish(i))
    ensures var t := After(Next(After(Start(quorums), acts), DeliverMail(Order(e))), more);
            CarriedFrom(Next(t, Finish(i)), i, KeptKey(NewNode(i, quorums[i]), Local(acts, i), e))
  {
    var s, a := After(Start(quorums), acts), DeliverMail(Order(e));
    var k := KeptKey(NewNode(i, quorums[i]), Local(acts, i), e);
    StrayFreeExclusion(quorums, acts);
    EveryRunRemembers(quorums, acts, i);
    InsideHasIt(s, i);
    ComesInside(NewNode(i, quorums[i]), Local(acts, i), s.nodes[i], Letter(Order(e)));
    StepIsEvent(s, a, i);
    NextKeepsIds(s, a);
    NextKeepsDiscipline(s, a);
    RunKeepsEntry(Next(s, a), more, i, k);
    LeavesWith(After(Next(s, a), more), i, k);
  }

  lemma LeavesWith(s: System, i: int, k: Key)
    requires IdsOk(s) && Disciplined(s) && Enabled(s, Finish(i)) && k in s.nodes[i].list
    ensures CarriedFrom(Next(s, Finish(i)), i, k)
  {
    InsideHasIt(s, i);
    var list := s.nodes[i].list;
    assert Next(s, Finish(i)).tokens == multiset{Token(i, First(list.Keys).from, list)};
  }

  // ----- words over whole runs

  /** Everything a run has put on the network, by the node it is at. */
  lemma WordsOfEveryRun(quorums: Quorums, acts: seq<Action>, i: int, q: int)
    requires Closed(quorums) && Feasible(Start(quorums), acts) && i in quorums && IsOther(NewNode(i, quorums[i]), q)
    ensures var n, h := NewNode(i, quorums[i]), Local(acts, i);
            && SentMail(n, h)[Release(i, q)] == TimesPassed(n, h)
            && SentMail(n, h)[Receive(i, q)] == TimesTaken(n, h) * (|quorums[i] - {i}|)
            && forall k :: SentMail(n, h)[Order(Req(i, q, k))] <= One(1 <= k < Number(n, h))
  {
    var n, h := NewNode(i, quorums[i]), Local(acts, i);
    StartIds(quorums);
    RunIsHistory(Start(quorums), acts, i);
    WordsAddUp(n, h, q);
    forall k ensures SentMail(n, h)[Order(Req(i, q, k))] <= One(1 <= k < Number(n, h)) {
      NumbersAreUsedOnce(n, h, q, k);
    }
  }
}
