/** How many tokens there can be, over every run of the token algorithm. */
module LakSafety {
  import opened Priority
  import opened LakProtocol
  import opened LakReading
  import opened LakSystem
  import opened Sums

  // ----- every run: strays are the only source of tokens

  ghost function InCS(s: System): set<int> {
    set i | i in s.nodes && s.nodes[i].inCS
  }

  predicate Counts(n: Node) {
    n.hasToken || n.inCS
  }

  ghost function Counted(s: System): set<int> {
    set i | i in s.nodes && Counts(s.nodes[i])
  }

  /** Tokens in flight and nodes that hold one or behave as if they did. */
  ghost function Potential(s: System): int {
    |Counted(s)| + |s.tokens|
  }

  lemma ApplyCounts(s: System, i: int, o: Outcome)
    requires i in s.nodes
    ensures Potential(Apply(s, i, o)) == Potential(s) + |o.tokens|
            + (if Counts(o.node) then 1 else 0) - (if Counts(s.nodes[i]) then 1 else 0)
  {
    var t := Apply(s, i, o);
    assert Counted(t) - {i} == Counted(s) - {i};
    assert |Counted(t) - {i}| == |Counted(t)| - if Counts(o.node) then 1 else 0;
    assert |Counted(s) - {i}| == |Counted(s)| - if Counts(s.nodes[i]) then 1 else 0;
  }

  predicate StrayAt(n: Node, m: Mail) {
    m.Order? && m.entry.Rly? && !n.hasToken && !n.inCS && n.holder != 0
  }

  lemma MailBalance(n: Node, m: Mail)
    ensures var o := ReceiveMail(n, m);
            var change := |o.tokens| + (if Counts(o.node) then 1 else 0) - (if Counts(n) then 1 else 0);
            if StrayAt(n, m) then change == 1 else change <= 0
  {
  }

  lemma TokenBalance(n: Node, t: Token)
    ensures var o := ReceiveToken(n, t);
            |o.tokens| + (if Counts(o.node) then 1 else 0) - (if Counts(n) then 1 else 0) <= 1
  {
  }

  /** One step never raises the potential, except that a stray RELAY raises it by exactly one. */
  lemma NextKeepsPotential(s: System, a: Action)
    requires Enabled(s, a)
    ensures var change := Potential(Next(s, a)) - Potential(s);
            if Stray(s, a) then change == 1 else change <= 0
  {
    match a
    case Ask(i) =>
      ApplyCounts(s, i, SendRequest(s.nodes[i]));
    case DeliverToken(t, unset) =>
      TokenGone(s, t);
      if t.to in s.nodes {
        TokenPotential(s, t, unset);
      }
    case DeliverMail(m) =>
      MailPotential(s, m);
    case Finish(i) =>
      ApplyCounts(s, i, Leave(s.nodes[i]));
    case LoseToken(t) =>
      TokenGone(s, t);
    case LoseMail(m) =>
      SameNodes(s, s.(mail := s.mail - multiset{m}));
  }

  lemma SameNodes(s: System, t: System)
    requires t.nodes == s.nodes
    ensures Counted(t) == Counted(s)
  {
  }

  lemma TokenGone(s: System, t: Token)
    requires t in s.tokens
    ensures Potential(s.(tokens := s.tokens - multiset{t})) == Potential(s) - 1
  {
    SameNodes(s, s.(tokens := s.tokens - multiset{t}));
  }

  lemma TokenPotential(s: System, t: Token, unset: int)
    requires Enabled(s, DeliverToken(t, unset)) && t.to in s.nodes
    ensures Potential(Next(s, DeliverToken(t, unset))) <= Potential(s)
  {
    var taken := s.(tokens := s.tokens - multiset{t});
    TokenGone(s, t);
    if Readable(t) {
      TokenBalance(s.nodes[t.to], AsRead(t, unset));
      ApplyCounts(taken, t.to, ReceiveToken(s.nodes[t.to], AsRead(t, unset)));
    } else {
      SameNodes(taken, taken.(stuck := s.stuck + {t.to}));
    }
  }

  lemma MailPotential(s: System, m: Mail)
    requires Enabled(s, DeliverMail(m))
    ensures var change := Potential(Next(s, DeliverMail(m))) - Potential(s);
            if Stray(s, DeliverMail(m)) then change == 1 else change <= 0
  {
    var taken := s.(mail := s.mail - multiset{m});
    SameNodes(s, taken);
    if m.Addressee() in s.nodes {
      MailBalance(s.nodes[m.Addressee()], m);
      ApplyCounts(taken, m.Addressee(), ReceiveMail(s.nodes[m.Addressee()], m));
    }
  }

  lemma {:induction false} RunKeepsPotential(s: System, acts: seq<Action>)
    requires Feasible(s, acts)
    ensures Potential(After(s, acts)) <= Potential(s) + Strays(s, acts)
    decreases |acts|
  {
    if acts != [] {
      NextKeepsPotential(s, acts[0]);
      RunKeepsPotential(Next(s, acts[0]), acts[1..]);
    }
  }

  lemma StartPotential(quorums: Quorums)
    ensures Potential(Start(quorums)) ==
            if 1 in quorums && StartsWithOne(quorums[1]) then 1 else 0
  {
    var s := Start(quorums);
    if 1 in quorums && StartsWithOne(quorums[1]) {
      assert Counted(s) == {1};
    } else {
      assert Counted(s) == {};
    }
  }

  /** At every moment of every run, whatever the lists carry, the nodes in their critical
      sections are at most one more than the stray RELAYs delivered so far. */
  lemma InsideBoundedByStrays(quorums: Quorums, acts: seq<Action>)
    requires Feasible(Start(quorums), acts)
    ensures |InCS(After(Start(quorums), acts))| <= 1 + Strays(Start(quorums), acts)
  {
    StartPotential(quorums);
    RunKeepsPotential(Start(quorums), acts);
    var t := After(Start(quorums), acts);
    forall i | i in InCS(t) ensures i in Counted(t) {
      assert Counts(t.nodes[i]);
    }
    Smaller(InCS(t), Counted(t));
  }

  // ----- ids: the token is only ever addressed to nodes

  ghost predicate Closed(quorums: Quorums) {
    forall i :: i in quorums ==> 1 <= i && quorums[i] <= quorums.Keys
  }

  ghost predicate EntryOk(ids: set<int>, e: Entry) {
    e.from in ids && e.to in ids && (e.Rly? ==> e.relay in ids)
  }

  ghost predicate ListOk(ids: set<int>, list: TokenList) {
    forall k :: k in list ==> list[k].AsKey().from == k.from && EntryOk(ids, list[k])
  }

  ghost predicate MailOk(ids: set<int>, m: Mail) {
    if m.Order? then EntryOk(ids, m.entry) else m.from in ids && m.to in ids
  }

  ghost predicate TokenOk(ids: set<int>, t: Token) {
    t.from in ids && t.to in ids && ListOk(ids, t.reqs)
  }

  ghost predicate NodeOk(ids: set<int>, n: Node) {
    && n.id in ids && n.quorum <= ids
    && (n.holder == UNKNOWN || n.holder in ids)
    && ListOk(ids, n.list)
  }

  ghost predicate OutcomeOk(ids: set<int>, n: Node, o: Outcome) {
    && o.node.id == n.id && NodeOk(ids, o.node)
    && (forall t :: t in o.tokens ==> TokenOk(ids, t))
    && (forall m :: m in o.mail ==> MailOk(ids, m))
  }

  /** Every sender, addressee, relay and recorded holder is a node, so no recorded holder is 0. */
  ghost predicate IdsOk(s: System) {
    && (forall i :: i in s.nodes ==> 1 <= i && s.nodes[i].id == i && NodeOk(s.nodes.Keys, s.nodes[i]))
    && (forall t :: t in s.tokens ==> TokenOk(s.nodes.Keys, t))
    && (forall m :: m in s.mail ==> MailOk(s.nodes.Keys, m))
  }

  lemma {:induction false} InCopies(k: nat, m: multiset<Mail>, letter: Mail)
    requires letter in Copies(k, m)
    ensures letter in m
  {
    if letter !in m {
      InCopies(k - 1, m, letter);
    }
  }

  lemma InReceives(n: Node, letter: Mail)
    requires letter in Receives(n)
    ensures exists q :: q in n.quorum && letter == Receive(n.id, q)
  {
    var all := set q | q in n.quorum - {n.id} :: Receive(n.id, q);
    InCopies(|n.quorum - {n.id}|, multiset(all), letter);
    assert letter in all;
  }

  lemma PassOk(ids: set<int>, n: Node, to: int)
    requires NodeOk(ids, n) && to in ids
    ensures OutcomeOk(ids, n, PassAndRelease(n, to)) && OutcomeOk(ids, n, PassToken(n, to))
  {
  }

  lemma ReceiveTokenOk(ids: set<int>, n: Node, t: Token)
    requires NodeOk(ids, n) && t.from in ids
    ensures OutcomeOk(ids, n, ReceiveToken(n, t))
  {
    PassOk(ids, n, t.from);
    forall m | m in Receives(n) ensures MailOk(ids, m) {
      InReceives(n, m);
    }
  }

  lemma InsertOk(ids: set<int>, list: TokenList, e: Entry)
    requires ListOk(ids, list) && EntryOk(ids, e)
    ensures ListOk(ids, Insert(list, e))
  {
  }

  lemma ReceiveRequestOk(ids: set<int>, n: Node, e: Entry)
    requires NodeOk(ids, n) && EntryOk(ids, e) && e.Req?
    ensures OutcomeOk(ids, n, ReceiveRequest(n, e))
  {
    InsertOk(ids, n.list, Seen(n, e));
    PassOk(ids, Synced(n, e).(list := Insert(n.list, Seen(n, e))), e.from);
  }

  lemma ReceiveRelayOk(ids: set<int>, n: Node, e: Entry)
    requires NodeOk(ids, n) && EntryOk(ids, e) && e.Rly?
    ensures OutcomeOk(ids, n, ReceiveRelay(n, e))
  {
    InsertOk(ids, n.list, e);
    PassOk(ids, Synced(n, e), e.relay);
  }

  lemma ReceiveMailOk(ids: set<int>, n: Node, m: Mail)
    requires NodeOk(ids, n) && MailOk(ids, m)
    ensures OutcomeOk(ids, n, ReceiveMail(n, m))
  {
    if m.Order? {
      if m.entry.Req? {
        ReceiveRequestOk(ids, n, m.entry);
      } else {
        ReceiveRelayOk(ids, n, m.entry);
      }
    }
  }

  lemma LeaveOk(ids: set<int>, n: Node)
    requires NodeOk(ids, n)
    ensures OutcomeOk(ids, n, Leave(n))
  {
    if n.list != map[] {
      assert n.list.Keys != {};
      var k := First(n.list.Keys);
      assert k in n.list;
      PassOk(ids, n, k.from);
    }
  }

  lemma ApplyKeepsIds(s: System, i: int, o: Outcome)
    requires IdsOk(s) && i in s.nodes && OutcomeOk(s.nodes.Keys, s.nodes[i], o)
    ensures IdsOk(Apply(s, i, o)) && Apply(s, i, o).nodes.Keys == s.nodes.Keys
  {
    var t := Apply(s, i, o);
    assert t.nodes.Keys == s.nodes.Keys;
    forall x | x in t.tokens ensures TokenOk(t.nodes.Keys, x) {
      assert x in s.tokens || x in o.tokens;
    }
    forall m | m in t.mail ensures MailOk(t.nodes.Keys, m) {
      assert m in s.mail || m in o.mail;
    }
  }

  lemma SendRequestOk(ids: set<int>, n: Node)
    requires NodeOk(ids, n)
    ensures OutcomeOk(ids, n, SendRequest(n))
  {
    forall m | m in SendRequest(n).mail ensures MailOk(ids, m) {
      assert exists q :: q in n.quorum && m == Order(Req(n.id, q, n.nextSeq));
    }
  }

  lemma TokenDeliveryKeepsIds(s: System, t: Token, unset: int)
    requires IdsOk(s) && Enabled(s, DeliverToken(t, unset))
    ensures IdsOk(Next(s, DeliverToken(t, unset)))
    ensures Next(s, DeliverToken(t, unset)).nodes.Keys == s.nodes.Keys
  {
    var taken := s.(tokens := s.tokens - multiset{t});
    assert IdsOk(taken);
    assert TokenOk(s.nodes.Keys, t);
    if Readable(t) {
      ReceiveTokenOk(s.nodes.Keys, s.nodes[t.to], AsRead(t, unset));
      ApplyKeepsIds(taken, t.to, ReceiveToken(s.nodes[t.to], AsRead(t, unset)));
    }
  }

  lemma MailDeliveryKeepsIds(s: System, m: Mail)
    requires IdsOk(s) && Enabled(s, DeliverMail(m))
    ensures IdsOk(Next(s, DeliverMail(m))) && Next(s, DeliverMail(m)).nodes.Keys == s.nodes.Keys
  {
    var taken := s.(mail := s.mail - multiset{m});
    assert IdsOk(taken);
    assert MailOk(s.nodes.Keys, m);
    ReceiveMailOk(s.nodes.Keys, s.nodes[m.Addressee()], m);
    ApplyKeepsIds(taken, m.Addressee(), ReceiveMail(s.nodes[m.Addressee()], m));
  }

  lemma NextKeepsIds(s: System, a: Action)
    requires IdsOk(s) && Enabled(s, a)
    ensures IdsOk(Next(s, a)) && Next(s, a).nodes.Keys == s.nodes.Keys
  {
    match a
    case Ask(i) =>
      SendRequestOk(s.nodes.Keys, s.nodes[i]);
      ApplyKeepsIds(s, i, SendRequest(s.nodes[i]));
    case DeliverToken(t, unset) =>
      TokenDeliveryKeepsIds(s, t, unset);
    case DeliverMail(m) =>
      MailDeliveryKeepsIds(s, m);
    case Finish(i) =>
      LeaveOk(s.nodes.Keys, s.nodes[i]);
      ApplyKeepsIds(s, i, Leave(s.nodes[i]));
    case LoseToken(_) =>
    case LoseMail(_) =>
  }

  lemma {:induction false} RunKeepsIds(s: System, acts: seq<Action>)
    requires IdsOk(s) && Feasible(s, acts)
    ensures IdsOk(After(s, acts)) && After(s, acts).nodes.Keys == s.nodes.Keys
    decreases |acts|
  {
    if acts != [] {
      NextKeepsIds(s, acts[0]);
      RunKeepsIds(Next(s, acts[0]), acts[1..]);
    }
  }

  lemma StartIds(quorums: Quorums)
    requires Closed(quorums)
    ensures IdsOk(Start(quorums))
  {
  }

  // ----- runs without stray RELAYs: one token, one list

  ghost function Holding(s: System): set<int> {
    set i | i in s.nodes && s.nodes[i].hasToken
  }

  /** Tokens held and in flight. */
  ghost function TokenCount(s: System): nat {
    |Holding(s)| + |s.tokens|
  }

  /** The list of a token in flight is empty or begins with its addressee's own request. */
  predicate WellAddressed(t: Token) {
    t.reqs != map[] ==> First(t.reqs.Keys).from == t.to
  }

  ghost predicate Disciplined(s: System) {
    && (forall i :: i in s.nodes && s.nodes[i].inCS ==> s.nodes[i].hasToken)
    && (forall i :: i in s.nodes && s.nodes[i].list != map[] ==> s.nodes[i].inCS)
    && (forall t :: t in s.tokens ==> WellAddressed(t))
    && TokenCount(s) <= 1
  }

  lemma ApplyTokens(s: System, i: int, o: Outcome)
    requires i in s.nodes
    ensures TokenCount(Apply(s, i, o)) == TokenCount(s) + |o.tokens|
            + (if o.node.hasToken then 1 else 0) - (if s.nodes[i].hasToken then 1 else 0)
  {
    var t := Apply(s, i, o);
    assert Holding(t) - {i} == Holding(s) - {i};
    assert |Holding(t) - {i}| == |Holding(t)| - if o.node.hasToken then 1 else 0;
    assert |Holding(s) - {i}| == |Holding(s)| - if s.nodes[i].hasToken then 1 else 0;
  }

  /** A node together with what it sends is disciplined. */
  ghost predicate DisciplinedOutcome(o: Outcome) {
    && (o.node.inCS ==> o.node.hasToken)
    && (o.node.list != map[] ==> o.node.inCS)
    && (forall t :: t in o.tokens ==> WellAddressed(t))
  }

  lemma ApplyKeepsDiscipline(s: System, i: int, o: Outcome)
    requires Disciplined(s) && i in s.nodes && DisciplinedOutcome(o)
    requires TokenCount(Apply(s, i, o)) <= 1
    ensures Disciplined(Apply(s, i, o))
  {
    forall t | t in Apply(s, i, o).tokens ensures WellAddressed(t) {
      assert t in s.tokens || t in o.tokens;
    }
  }

  lemma SingleEntry(e: Entry)
    ensures First(Insert(map[], e).Keys) == e.AsKey()
  {
    assert Insert(map[], e).Keys == {e.AsKey()};
  }

  predicate DisciplinedNode(n: Node) {
    (n.inCS ==> n.hasToken) && (n.list != map[] ==> n.inCS)
  }

  lemma RequestDisciplined(n: Node, e: Entry)
    requires DisciplinedNode(n) && e.Req?
    ensures var o := ReceiveRequest(n, e);
            && DisciplinedOutcome(o)
            && |o.tokens| + (if o.node.hasToken then 1 else 0) == if n.hasToken then 1 else 0
  {
    SingleEntry(Seen(n, e));
  }

  lemma MailDisciplined(n: Node, m: Mail)
    requires DisciplinedNode(n) && !StrayAt(n, m)
    ensures var o := ReceiveMail(n, m);
            && DisciplinedOutcome(o)
            && |o.tokens| + (if o.node.hasToken then 1 else 0) == if n.hasToken then 1 else 0
  {
    if m.Order? && m.entry.Req? {
      RequestDisciplined(n, m.entry);
    }
  }

  lemma MailKeepsDiscipline(s: System, m: Mail)
    requires Disciplined(s) && Enabled(s, DeliverMail(m)) && m.Addressee() in s.nodes
    requires !Stray(s, DeliverMail(m))
    ensures Disciplined(Next(s, DeliverMail(m)))
    ensures TokenCount(Next(s, DeliverMail(m))) == TokenCount(s)
  {
    var taken := s.(mail := s.mail - multiset{m});
    var i := m.Addressee();
    var o := ReceiveMail(s.nodes[i], m);
    assert Holding(taken) == Holding(s);
    assert Disciplined(taken);
    MailDisciplined(s.nodes[i], m);
    ApplyTokens(taken, i, o);
    ApplyKeepsDiscipline(taken, i, o);
  }

  lemma TokenIsAlone(s: System, t: Token, i: int)
    requires TokenCount(s) <= 1 && t in s.tokens && i in s.nodes
    ensures !s.nodes[i].hasToken && |s.tokens - multiset{t}| == 0
  {
    assert |s.tokens| >= 1;
    assert |Holding(s)| == 0;
    assert i !in Holding(s);
  }

  /** The addressee of a token takes it or sends it back, by the list it has read. */
  lemma TokenDisciplined(n: Node, t: Token)
    requires DisciplinedNode(n) && !n.hasToken
    ensures var o := ReceiveToken(n, t);
            && DisciplinedOutcome(o)
            && |o.tokens| + (if o.node.hasToken then 1 else 0) == 1
            && (o.node.hasToken <==> t.reqs == map[] || First(t.reqs.Keys).from == n.id)
  {
  }

  lemma TokenKeepsDiscipline(s: System, t: Token, unset: int)
    requires Disciplined(s) && Enabled(s, DeliverToken(t, unset))
    requires t.to in s.nodes && s.nodes[t.to].id == t.to && Readable(t)
    ensures Disciplined(Next(s, DeliverToken(t, unset)))
    ensures TokenCount(Next(s, DeliverToken(t, unset))) == TokenCount(s)
    ensures Next(s, DeliverToken(t, unset)).nodes[t.to].hasToken <==> !Bounces(t, unset)
  {
    var taken := s.(tokens := s.tokens - multiset{t});
    var n := s.nodes[t.to];
    var o := ReceiveToken(n, AsRead(t, unset));
    assert Holding(taken) == Holding(s);
    TokenIsAlone(s, t, t.to);
    assert Disciplined(taken);
    TokenDisciplined(n, AsRead(t, unset));
    ApplyTokens(taken, t.to, o);
    ApplyKeepsDiscipline(taken, t.to, o);
  }

  lemma UnreadKeepsDiscipline(s: System, t: Token, unset: int)
    requires Disciplined(s) && Enabled(s, DeliverToken(t, unset)) && !Readable(t)
    ensures Disciplined(Next(s, DeliverToken(t, unset)))
  {
    var u := Next(s, DeliverToken(t, unset));
    assert Holding(u) == Holding(s) && |u.tokens| == |s.tokens| - 1;
  }

  /** A token is lost under way or by an addressee that never stops reading it. */
  predicate IsLoss(a: Action) {
    a.LoseToken? || (a.DeliverToken? && !Readable(a.token))
  }

  lemma FinishKeepsDiscipline(s: System, i: int)
    requires Disciplined(s) && Enabled(s, Finish(i))
    ensures Disciplined(Next(s, Finish(i))) && TokenCount(Next(s, Finish(i))) == TokenCount(s)
  {
    var o := Leave(s.nodes[i]);
    ApplyTokens(s, i, o);
    ApplyKeepsDiscipline(s, i, o);
  }

  lemma AskKeepsDiscipline(s: System, i: int)
    requires Disciplined(s) && Enabled(s, Ask(i))
    ensures Disciplined(Next(s, Ask(i))) && TokenCount(Next(s, Ask(i))) == TokenCount(s)
  {
    var o := SendRequest(s.nodes[i]);
    ApplyTokens(s, i, o);
    ApplyKeepsDiscipline(s, i, o);
  }

  /** A step that is not a stray RELAY keeps the discipline and, unless it loses the token,
      the number of tokens. */
  lemma NextKeepsDiscipline(s: System, a: Action)
    requires IdsOk(s) && Disciplined(s) && Enabled(s, a) && !Stray(s, a)
    ensures Disciplined(Next(s, a))
    ensures !IsLoss(a) ==> TokenCount(Next(s, a)) == TokenCount(s)
  {
    match a
    case Ask(i) =>
      AskKeepsDiscipline(s, i);
    case DeliverToken(t, unset) =>
      TokenStepKeepsDiscipline(s, t, unset);
    case DeliverMail(m) =>
      assert MailOk(s.nodes.Keys, m);
      MailKeepsDiscipline(s, m);
    case Finish(i) =>
      FinishKeepsDiscipline(s, i);
    case LoseToken(t) =>
      LossKeepsDiscipline(s, s.(tokens := s.tokens - multiset{t}));
    case LoseMail(m) =>
      LossKeepsDiscipline(s, s.(mail := s.mail - multiset{m}));
  }

  lemma TokenStepKeepsDiscipline(s: System, t: Token, unset: int)
    requires IdsOk(s) && Disciplined(s) && Enabled(s, DeliverToken(t, unset))
    ensures Disciplined(Next(s, DeliverToken(t, unset)))
    ensures Readable(t) ==> TokenCount(Next(s, DeliverToken(t, unset))) == TokenCount(s)
  {
    assert TokenOk(s.nodes.Keys, t);
    if Readable(t) {
      TokenKeepsDiscipline(s, t, unset);
    } else {
      UnreadKeepsDiscipline(s, t, unset);
    }
  }

  lemma LossKeepsDiscipline(s: System, u: System)
    requires Disciplined(s) && u.nodes == s.nodes && u.tokens <= s.tokens
    ensures Disciplined(u) && (u.tokens == s.tokens ==> TokenCount(u) == TokenCount(s))
  {
    assert Holding(u) == Holding(s);
    assert s.tokens == u.tokens + (s.tokens - u.tokens);
  }

  /** A stray RELAY makes a second token. */
  lemma StrayAddsToken(s: System, a: Action)
    requires Disciplined(s) && Enabled(s, a) && Stray(s, a)
    ensures TokenCount(Next(s, a)) == TokenCount(s) + 1
  {
    var m := a.letter;
    var taken := s.(mail := s.mail - multiset{m});
    assert Holding(taken) == Holding(s);
    ApplyTokens(taken, m.Addressee(), ReceiveMail(s.nodes[m.Addressee()], m));
  }

  ghost predicate LossFree(acts: seq<Action>) {
    forall k :: 0 <= k < |acts| ==> !IsLoss(acts[k])
  }

  lemma {:induction false} StrayFreeRun(s: System, acts: seq<Action>)
    requires IdsOk(s) && Disciplined(s) && Feasible(s, acts) && Strays(s, acts) == 0
    ensures Disciplined(After(s, acts))
    ensures LossFree(acts) ==> TokenCount(After(s, acts)) == TokenCount(s)
    decreases |acts|
  {
    if acts != [] {
      NextKeepsIds(s, acts[0]);
      NextKeepsDiscipline(s, acts[0]);
      assert LossFree(acts) ==> LossFree(acts[1..]);
      StrayFreeRun(Next(s, acts[0]), acts[1..]);
    }
  }

  lemma StartDisciplined(quorums: Quorums)
    ensures Disciplined(Start(quorums))
    ensures TokenCount(Start(quorums)) == if 1 in quorums && StartsWithOne(quorums[1]) then 1 else 0
  {
    var s := Start(quorums);
    if 1 in quorums && StartsWithOne(quorums[1]) {
      assert Holding(s) == {1};
    } else {
      assert Holding(s) == {};
    }
  }

  /** Stray-free runs: at most one node is in its critical section, it holds the token, lists are
      kept only there, every list in flight is empty or was sent with a request of the addressee
      first, and without loss the token count of the start is conserved. */
  lemma StrayFreeExclusion(quorums: Quorums, acts: seq<Action>)
    requires Closed(quorums) && Feasible(Start(quorums), acts) && Strays(Start(quorums), acts) == 0
    ensures var t := After(Start(quorums), acts);
            && Disciplined(t) && IdsOk(t)
            && |InCS(t)| <= 1 && InCS(t) <= Holding(t)
            && (LossFree(acts) ==> TokenCount(t) == TokenCount(Start(quorums)))
  {
    StartIds(quorums);
    StartDisciplined(quorums);
    RunKeepsIds(Start(quorums), acts);
    StrayFreeRun(Start(quorums), acts);
    var t := After(Start(quorums), acts);
    Smaller(InCS(t), Holding(t));
  }

  /** What becomes of a token that arrives in a stray-free run: its addressee sends an empty one back to
      the sender if and only if another node's entry comes, as it is read, before all entries of the
      addressee; otherwise it keeps the token, and enters unless the list is empty. */
  lemma ArrivalOfToken(quorums: Quorums, acts: seq<Action>, t: Token, unset: int)
    requires Closed(quorums) && Feasible(Start(quorums), acts) && Strays(Start(quorums), acts) == 0
    requires Enabled(After(Start(quorums), acts), DeliverToken(t, unset)) && Readable(t)
    ensures var s := Next(After(Start(quorums), acts), DeliverToken(t, unset));
            && t.to in s.nodes
            && (s.nodes[t.to].hasToken <==> !Overtaken(t))
            && (s.nodes[t.to].inCS <==> t.reqs != map[] && !Overtaken(t))
            && s.tokens == if Overtaken(t) then multiset{Token(t.to, t.from, map[])} else multiset{}
  {
    StrayFreeExclusion(quorums, acts);
    var s := After(Start(quorums), acts);
    assert TokenOk(s.nodes.Keys, t);
    TokenKeepsDiscipline(s, t, unset);
    TokenIsAlone(s, t, t.to);
    BounceIff(t, unset);
    EmptyAsRead(t, unset);
    BouncedToken(s.nodes[t.to], AsRead(t, unset));
  }

  lemma BouncedToken(n: Node, t: Token)
    requires DisciplinedNode(n) && !n.hasToken
    ensures ReceiveToken(n, t).tokens ==
            if t.reqs != map[] && First(t.reqs.Keys).from != n.id then multiset{Token(n.id, t.from, map[])}
            else multiset{}
    ensures ReceiveToken(n, t).node.inCS <==> t.reqs != map[] && First(t.reqs.Keys).from == n.id
  {
  }

  // ----- exactly the strays break conservation

  /** There is one token in the first state and after every action. */
  ghost predicate AlwaysOneToken(s: System, acts: seq<Action>)
    requires Feasible(s, acts)
    decreases |acts|
  {
    TokenCount(s) == 1 && (acts == [] || AlwaysOneToken(Next(s, acts[0]), acts[1..]))
  }

  lemma {:induction false} OneTokenIffNoStray(s: System, acts: seq<Action>)
    requires IdsOk(s) && Disciplined(s) && TokenCount(s) == 1
    requires Feasible(s, acts) && LossFree(acts)
    ensures AlwaysOneToken(s, acts) <==> Strays(s, acts) == 0
    decreases |acts|
  {
    if acts != [] {
      if Stray(s, acts[0]) {
        StrayAddsToken(s, acts[0]);
      } else {
        NextKeepsIds(s, acts[0]);
        NextKeepsDiscipline(s, acts[0]);
        OneTokenIffNoStray(Next(s, acts[0]), acts[1..]);
      }
    }
  }

  /** Conservation, exactly: a run from `init` that loses no token, under way or to endless reading,
      always has one token if and only if it delivers no stray RELAY. */
  lemma ConservationIffNoStray(quorums: Quorums, acts: seq<Action>)
    requires Closed(quorums) && 1 in quorums && 1 in quorums[1]
    requires Feasible(Start(quorums), acts) && LossFree(acts)
    ensures AlwaysOneToken(Start(quorums), acts) <==> Strays(Start(quorums), acts) == 0
  {
    StartIds(quorums);
    StartDisciplined(quorums);
    OneTokenIffNoStray(Start(quorums), acts);
  }
}
