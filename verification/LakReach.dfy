/** Who can get the token at all? Exactly which nodes can enter their critical sections when nobody
    else asks: those that know the first holder, and those with a member that does and to which
    a TOKEN without requests can be read. */
module LakReach {
  import opened Priority
  import opened LakProtocol
  import opened LakCodec
  import opened LakReading
  import opened LakSystem
  import opened LakSafety
  import opened LakStray

  ghost predicate OnlyAsks(acts: seq<Action>, j: int) {
    forall a :: a in acts && a.Ask? ==> a.id == j
  }

  /** A run that loses no token, delivers no stray RELAY and in which only `j` asks. */
  ghost predicate Smooth(s: System, acts: seq<Action>, j: int) {
    Feasible(s, acts) && LossFree(acts) && Strays(s, acts) == 0 && OnlyAsks(acts, j)
  }

  /** The members of `j` that can tell where the token is. */
  ghost predicate Guide(quorums: Quorums, j: int, m: int) {
    j in quorums && m in quorums && m in quorums[j] && m != j && StartsWithOne(quorums[m])
  }

  ghost predicate Served(quorums: Quorums, j: int) {
    j in quorums && (StartsWithOne(quorums[j]) || exists m :: Guide(quorums, j, m) && m <= 9)
  }

  // ----- going on by one action

  lemma GoOn(s: System, acts: seq<Action>, j: int, a: Action)
    requires Smooth(s, acts, j) && Enabled(After(s, acts), a)
    requires !Stray(After(s, acts), a) && !IsLoss(a) && (a.Ask? ==> a.id == j)
    ensures Smooth(s, acts + [a], j) && After(s, acts + [a]) == Next(After(s, acts), a)
  {
    var t := After(s, acts);
    OneAction(t, a, []);
    assert [a] + [] == [a];
    Concatenate(s, acts, [a]);
    StraysAddUp(s, acts, [a]);
    forall k | 0 <= k < |acts + [a]| ensures !IsLoss((acts + [a])[k]) {
      assert k < |acts| ==> (acts + [a])[k] == acts[k];
    }
  }

  lemma AskGoesOn(s: System, acts: seq<Action>, j: int)
    requires Smooth(s, acts, j) && j in After(s, acts).nodes && j !in After(s, acts).stuck
    ensures Smooth(s, acts + [Ask(j)], j)
    ensures var t := After(s, acts);
            After(s, acts + [Ask(j)]) == Apply(t, j, SendRequest(t.nodes[j]))
  {
    GoOn(s, acts, j, Ask(j));
  }

  /** A letter that is no RELAY to a node without the token. */
  lemma MailGoesOn(s: System, acts: seq<Action>, j: int, m: Mail)
    requires Smooth(s, acts, j) && m in After(s, acts).mail
    requires m.Addressee() in After(s, acts).nodes && m.Addressee() !in After(s, acts).stuck
    requires m.Order? && m.entry.Rly? ==> After(s, acts).nodes[m.Addressee()].hasToken
    ensures Smooth(s, acts + [DeliverMail(m)], j)
    ensures var t := After(s, acts);
            After(s, acts + [DeliverMail(m)]) ==
            Apply(t.(mail := t.mail - multiset{m}), m.Addressee(), ReceiveMail(t.nodes[m.Addressee()], m))
  {
    GoOn(s, acts, j, DeliverMail(m));
  }

  lemma TokenGoesOn(s: System, acts: seq<Action>, j: int, t: Token)
    requires Smooth(s, acts, j) && t in After(s, acts).tokens
    requires t.to in After(s, acts).nodes && t.to !in After(s, acts).stuck
    requires Readable(t) && AsRead(t, 0) == t
    ensures Smooth(s, acts + [DeliverToken(t, 0)], j)
    ensures var u := After(s, acts);
            After(s, acts + [DeliverToken(t, 0)]) ==
            Apply(u.(tokens := u.tokens - multiset{t}), t.to, ReceiveToken(u.nodes[t.to], t))
  {
    GoOn(s, acts, j, DeliverToken(t, 0));
  }

  // ----- which tokens are read as they are sent

  lemma NoRequestsRead(from: int, to: int)
    requires 0 <= to <= 9
    ensures var t := Token(from, to, map[]); Readable(t) && AsRead(t, 0) == t
  {
    RequestsReadTheSame(Token(from, to, map[]), 0);
  }

  function Single(e: Entry): TokenList { map[e.AsKey() := e] }

  lemma OneRequestRead(from: int, to: int, e: Entry)
    requires e.Req? && 0 <= e.seqno <= 9
    ensures var t := Token(from, to, Single(e)); Readable(t) && AsRead(t, 0) == t
  {
    var list := Single(e);
    assert list.Keys == {e.AsKey()} && list - {e.AsKey()} == map[];
    FirstIsUnique(list.Keys, e.AsKey());
    assert Sorted(list) == [e];
    RequestsReadTheSame(Token(from, to, list), 0);
  }

  /** The token with its own request lets a node in. */
  lemma OwnTokenEnters(n: Node, from: int, e: Entry)
    requires e.Req? && e.from == n.id
    ensures ReceiveToken(n, Token(from, n.id, Single(e))).node.inCS
  {
    assert Single(e).Keys == {e.AsKey()};
    FirstIsUnique(Single(e).Keys, e.AsKey());
    assert e.AsKey() in Single(e) && Single(e) != map[];
  }

  /** The last action of each way in. */
  lemma TokenLetsIn(s: System, acts: seq<Action>, j: int, from: int, e: Entry) returns (all: seq<Action>)
    requires Smooth(s, acts, j) && j in After(s, acts).nodes && After(s, acts).nodes[j].id == j
    requires After(s, acts).stuck == {}
    requires e.Req? && e.from == j && 0 <= e.seqno <= 9 && Token(from, j, Single(e)) in After(s, acts).tokens
    ensures Smooth(s, all, j) && j in InCS(After(s, all))
  {
    var t := Token(from, j, Single(e));
    OneRequestRead(from, j, e);
    TokenGoesOn(s, acts, j, t);
    OwnTokenEnters(After(s, acts).nodes[j], from, e);
    all := acts + [DeliverToken(t, 0)];
  }

  // ----- a node that knows the first holder

  lemma HolderEnters(quorums: Quorums) returns (acts: seq<Action>)
    requires 1 in quorums && StartsWithOne(quorums[1])
    ensures Smooth(Start(quorums), acts, 1) && 1 in InCS(After(Start(quorums), acts))
  {
    var s := Start(quorums);
    assert Smooth(s, [], 1);
    AskGoesOn(s, [], 1);
    acts := [] + [Ask(1)];
  }

  lemma KnowingEnters(quorums: Quorums, j: int) returns (acts: seq<Action>)
    requires Neighbour(quorums, j)
    ensures Smooth(Start(quorums), acts, j) && j in InCS(After(Start(quorums), acts))
  {
    var s := Start(quorums);
    SendToken(quorums, j);
    assert Smooth(s, FirstTwo(j), j);
    assert Single(Req(j, 1, 1)) == Listed(j);
    acts := TokenLetsIn(s, FirstTwo(j), j, 1, Req(j, 1, 1));
  }

  // ----- a node with a member that knows the first holder

  /** `j` does not know where the token is, and its member `m` does. */
  ghost predicate Guided(quorums: Quorums, j: int, m: int) {
    && Closed(quorums) && 1 in quorums && StartsWithOne(quorums[1])
    && Guide(quorums, j, m) && !StartsWithOne(quorums[j])
  }

  lemma AllDifferent(quorums: Quorums, j: int, m: int)
    requires Guided(quorums, j, m)
    ensures 1 !in quorums[j] && j != 1 && m != 1 && UNKNOWN !in quorums[j]
  {
  }

  /** The three nodes that take part, and nobody stuck. */
  ghost predicate Scene(s: System, one: Node, guide: Node, asker: Node) {
    && s.stuck == {} && one.id in s.nodes && guide.id in s.nodes && asker.id in s.nodes
    && s.nodes[one.id] == one && s.nodes[guide.id] == guide && s.nodes[asker.id] == asker
  }

  lemma Asked(quorums: Quorums, j: int, m: int) returns (acts: seq<Action>)
    requires Guided(quorums, j, m)
    ensures Smooth(Start(quorums), acts, j)
    ensures var t := After(Start(quorums), acts);
            && Scene(t, NewNode(1, quorums[1]), NewNode(m, quorums[m]), NewNode(j, quorums[j]).(nextSeq := 2))
            && Order(Req(j, m, 1)) in t.mail
  {
    var s := Start(quorums);
    AllDifferent(quorums, j, m);
    assert Smooth(s, [], j);
    AskGoesOn(s, [], j);
    InRequests(s.nodes[j], quorums[j] - {j}, m);
    acts := [] + [Ask(j)];
  }

  lemma Relayed(quorums: Quorums, j: int, m: int) returns (acts: seq<Action>)
    requires Guided(quorums, j, m)
    ensures Smooth(Start(quorums), acts, j)
    ensures var t := After(Start(quorums), acts);
            && Scene(t, NewNode(1, quorums[1]), NewNode(m, quorums[m]), NewNode(j, quorums[j]).(nextSeq := 2))
            && Order(Rly(j, 1, 1, m)) in t.mail
  {
    AllDifferent(quorums, j, m);
    var before := Asked(quorums, j, m);
    var letter := Order(Req(j, m, 1));
    MailGoesOn(Start(quorums), before, j, letter);
    assert ReceiveMail(NewNode(m, quorums[m]), letter).mail == multiset{Order(Rly(j, 1, 1, m))};
    acts := before + [DeliverMail(letter)];
  }

  lemma SentToGuide(quorums: Quorums, j: int, m: int) returns (acts: seq<Action>)
    requires Guided(quorums, j, m)
    ensures Smooth(Start(quorums), acts, j)
    ensures var t := After(Start(quorums), acts);
            && Scene(t, NewNode(1, quorums[1]).(holder := m, hasToken := false), NewNode(m, quorums[m]),
                     NewNode(j, quorums[j]).(nextSeq := 2))
            && Token(1, m, map[]) in t.tokens
  {
    AllDifferent(quorums, j, m);
    var before := Relayed(quorums, j, m);
    var letter := Order(Rly(j, 1, 1, m));
    MailGoesOn(Start(quorums), before, j, letter);
    acts := before + [DeliverMail(letter)];
  }

  lemma {:induction false} InAllCopies(k: nat, m: multiset<Mail>, letter: Mail)
    requires k > 0 && letter in m
    ensures letter in Copies(k, m)
  {
  }

  lemma TellsMember(n: Node, q: int)
    requires q in n.quorum && q != n.id
    ensures Receive(n.id, q) in Receives(n)
  {
    var all := set x | x in n.quorum - {n.id} :: Receive(n.id, x);
    assert q in n.quorum - {n.id};
    assert Receive(n.id, q) in all;
    InAllCopies(|n.quorum - {n.id}|, multiset(all), Receive(n.id, q));
  }

  lemma GuideHasIt(quorums: Quorums, j: int, m: int) returns (acts: seq<Action>)
    requires Guided(quorums, j, m) && m <= 9
    ensures Smooth(Start(quorums), acts, j)
    ensures var t := After(Start(quorums), acts);
            && Scene(t, NewNode(1, quorums[1]).(holder := m, hasToken := false),
                     NewNode(m, quorums[m]).(holder := m, hasToken := true), NewNode(j, quorums[j]).(nextSeq := 2))
            && (j in quorums[m] ==> Receive(m, j) in t.mail)
  {
    AllDifferent(quorums, j, m);
    var before := SentToGuide(quorums, j, m);
    NoRequestsRead(1, m);
    TokenGoesOn(Start(quorums), before, j, Token(1, m, map[]));
    if j in quorums[m] {
      TellsMember(NewNode(m, quorums[m]), j);
    }
    acts := before + [DeliverToken(Token(1, m, map[]), 0)];
  }

  /** Told of the new holder or not, `j` asks again, and its request reaches the holder. */
  lemma AskedAgain(quorums: Quorums, j: int, m: int, told: bool) returns (acts: seq<Action>)
    requires Guided(quorums, j, m) && m <= 9 && (told ==> j in quorums[m])
    ensures Smooth(Start(quorums), acts, j)
    ensures var t := After(Start(quorums), acts);
            && Scene(t, NewNode(1, quorums[1]).(holder := m, hasToken := false),
                     NewNode(m, quorums[m]).(holder := m, hasToken := true),
                     NewNode(j, quorums[j]).(nextSeq := 3, holder := if told then m else UNKNOWN))
            && Order(Req(j, m, 2)) in t.mail
  {
    AllDifferent(quorums, j, m);
    var before := GuideHasIt(quorums, j, m);
    if told {
      MailGoesOn(Start(quorums), before, j, Receive(m, j));
      before := before + [DeliverMail(Receive(m, j))];
    }
    AskGoesOn(Start(quorums), before, j);
    var asker := After(Start(quorums), before).nodes[j];
    InRequests(asker, if told then {m} else quorums[j] - {j}, m);
    acts := before + [Ask(j)];
  }

  lemma GuidePasses(n: Node, j: int)
    requires n.hasToken && !n.inCS && n.list == map[] && n.nextSeq == 1
    ensures Token(n.id, j, Single(Req(j, n.id, 3))) in ReceiveMail(n, Order(Req(j, n.id, 2))).tokens
  {
  }

  /** The way through a guide: the broadcast request, the RELAY, the empty TOKEN, the RECEIVE, the
      second request and the TOKEN that answers it. */
  lemma GuidedEnters(quorums: Quorums, j: int, m: int, told: bool) returns (acts: seq<Action>)
    requires Guided(quorums, j, m) && m <= 9 && (told ==> j in quorums[m])
    ensures Smooth(Start(quorums), acts, j) && j in InCS(After(Start(quorums), acts))
  {
    AllDifferent(quorums, j, m);
    var before := AskedAgain(quorums, j, m, told);
    var letter := Order(Req(j, m, 2));
    MailGoesOn(Start(quorums), before, j, letter);
    GuidePasses(NewNode(m, quorums[m]).(holder := m, hasToken := true), j);
    acts := TokenLetsIn(Start(quorums), before + [DeliverMail(letter)], j, m, Req(j, m, 3));
  }

  // ----- nobody else gets in

  ghost predicate UnservedNode(quorums: Quorums, i: int, n: Node) {
    && n.id == i && i in quorums && n.quorum == quorums[i] && !n.inCS && n.list == map[]
    && (i != 1 ==> !n.hasToken && (n.holder == UNKNOWN || (n.holder == 1 && StartsWithOne(n.quorum))))
  }

  ghost predicate UnservedMail(quorums: Quorums, j: int, m: Mail) {
    match m
    case Order(Req(from, to, _)) => from == j && j in quorums && to in quorums[j] && to != j
    case Order(Rly(_, to, _, relay)) => to == 1 && Guide(quorums, j, relay)
    case Receive(_, _) => false
    case _ => true
  }

  /** Whatever is under way to a guide of `j` is a TOKEN that is never read. */
  ghost predicate Unserved(quorums: Quorums, j: int, s: System) {
    && (forall i :: i in s.nodes ==> UnservedNode(quorums, i, s.nodes[i]))
    && (forall t :: t in s.tokens ==> t.reqs == map[] && Guide(quorums, j, t.to))
    && (forall m :: m in s.mail ==> UnservedMail(quorums, j, m))
  }

  ghost predicate UnservedOutcome(quorums: Quorums, j: int, i: int, o: Outcome) {
    && UnservedNode(quorums, i, o.node)
    && (forall t :: t in o.tokens ==> t.reqs == map[] && Guide(quorums, j, t.to))
    && (forall m :: m in o.mail ==> UnservedMail(quorums, j, m))
  }

  lemma ApplyUnserved(quorums: Quorums, j: int, s: System, i: int, o: Outcome)
    requires Unserved(quorums, j, s) && i in s.nodes && UnservedOutcome(quorums, j, i, o)
    ensures Unserved(quorums, j, Apply(s, i, o))
  {
    forall t | t in Apply(s, i, o).tokens ensures t.reqs == map[] && Guide(quorums, j, t.to) {
      assert t in s.tokens || t in o.tokens;
    }
    forall m | m in Apply(s, i, o).mail ensures UnservedMail(quorums, j, m) {
      assert m in s.mail || m in o.mail;
    }
  }

  lemma AskUnserved(quorums: Quorums, j: int, n: Node)
    requires Closed(quorums) && j in quorums && !StartsWithOne(quorums[j]) && j != 1 && UnservedNode(quorums, j, n)
    ensures UnservedOutcome(quorums, j, j, SendRequest(n))
  {
    assert UNKNOWN !in n.quorum;
  }

  lemma MailUnserved(quorums: Quorums, j: int, n: Node, m: Mail)
    requires Closed(quorums) && 1 in quorums && j in quorums && !StartsWithOne(quorums[j])
    requires UnservedNode(quorums, n.id, n) && UnservedMail(quorums, j, m) && m.Addressee() == n.id
    ensures UnservedOutcome(quorums, j, n.id, ReceiveMail(n, m))
  {
    if m.Order? && m.entry.Req? {
      assert n.id != 1;
    }
  }

  lemma TokenUnserved(quorums: Quorums, j: int, t: Token)
    requires t.reqs == map[] && Guide(quorums, j, t.to) && Closed(quorums) && !Served(quorums, j)
    ensures !Readable(t)
  {
  }

  lemma NextUnserved(quorums: Quorums, j: int, s: System, a: Action)
    requires Closed(quorums) && 1 in quorums && 1 in quorums[1] && j in quorums && !Served(quorums, j)
    requires Unserved(quorums, j, s) && Enabled(s, a) && (a.Ask? ==> a.id == j)
    ensures Unserved(quorums, j, Next(s, a))
  {
    match a
    case Ask(_) =>
      AskUnserved(quorums, j, s.nodes[j]);
      ApplyUnserved(quorums, j, s, j, SendRequest(s.nodes[j]));
    case DeliverToken(t, unset) =>
      TokenUnserved(quorums, j, t);
    case DeliverMail(m) =>
      var taken := s.(mail := s.mail - multiset{m});
      assert Unserved(quorums, j, taken);
      if m.Addressee() in s.nodes {
        MailUnserved(quorums, j, s.nodes[m.Addressee()], m);
        ApplyUnserved(quorums, j, taken, m.Addressee(), ReceiveMail(s.nodes[m.Addressee()], m));
      }
    case _ =>
  }

  lemma {:induction false} RunUnserved(quorums: Quorums, j: int, s: System, acts: seq<Action>)
    requires Closed(quorums) && 1 in quorums && 1 in quorums[1] && j in quorums && !Served(quorums, j)
    requires Unserved(quorums, j, s) && Feasible(s, acts) && OnlyAsks(acts, j)
    ensures Unserved(quorums, j, After(s, acts))
    decreases |acts|
  {
    if acts != [] {
      NextUnserved(quorums, j, s, acts[0]);
      RunUnserved(quorums, j, Next(s, acts[0]), acts[1..]);
    }
  }

  // ----- exactly who gets in

  lemma ServedEnters(quorums: Quorums, j: int) returns (acts: seq<Action>)
    requires Closed(quorums) && 1 in quorums && 1 in quorums[1] && Served(quorums, j)
    ensures Smooth(Start(quorums), acts, j) && j in InCS(After(Start(quorums), acts))
  {
    if j == 1 {
      acts := HolderEnters(quorums);
    } else if StartsWithOne(quorums[j]) {
      acts := KnowingEnters(quorums, j);
    } else {
      var m :| Guide(quorums, j, m) && m <= 9;
      acts := GuidedEnters(quorums, j, m, j in quorums[m]);
    }
  }

  ghost predicate GetsIn(quorums: Quorums, j: int, acts: seq<Action>) {
    Feasible(Start(quorums), acts) && OnlyAsks(acts, j) && j in InCS(After(Start(quorums), acts))
  }

  /** Exactly which nodes can ever enter when nobody else asks, in any runs at all: those with node 1 in
      their quorums, and those with a member whose id has one digit and which has node 1 in its
      quorum. They can in a run that loses no token and delivers no stray RELAY. */
  lemma CanEnterAloneIff(quorums: Quorums, j: int)
    requires Closed(quorums) && 1 in quorums && 1 in quorums[1] && j in quorums
    ensures (exists acts :: GetsIn(quorums, j, acts)) <==> Served(quorums, j)
    ensures Served(quorums, j) ==>
              exists acts :: Smooth(Start(quorums), acts, j) && j in InCS(After(Start(quorums), acts))
  {
    if Served(quorums, j) {
      var acts := ServedEnters(quorums, j);
      assert GetsIn(quorums, j, acts);
    } else {
      forall acts | Feasible(Start(quorums), acts) && OnlyAsks(acts, j)
        ensures j !in InCS(After(Start(quorums), acts))
      {
        StaysOut(quorums, j, acts);
      }
    }
  }

  lemma StaysOut(quorums: Quorums, j: int, acts: seq<Action>)
    requires Closed(quorums) && 1 in quorums && 1 in quorums[1] && j in quorums && !Served(quorums, j)
    requires Feasible(Start(quorums), acts) && OnlyAsks(acts, j)
    ensures j !in InCS(After(Start(quorums), acts))
  {
    RunUnserved(quorums, j, Start(quorums), acts);
    var t := After(Start(quorums), acts);
    assert j in t.nodes ==> UnservedNode(quorums, j, t.nodes[j]);
  }
}
