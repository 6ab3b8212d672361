/** A run that delivers one stray RELAY and ends with two nodes in their critical sections:
    the bound of `LakSafety.InsideBoundedByStrays` is reached. */
module LakStray {
  import opened Priority
  import opened LakProtocol
  import opened LakCodec
  import opened LakReading
  import opened LakSystem
  import opened LakSafety

  /** Node 1 starts with the token and `j` starts by asking node 1 for it. */
  ghost predicate Neighbour(quorums: Quorums, j: int) {
    && 1 in quorums && StartsWithOne(quorums[1])
    && j in quorums && j >= 2 && StartsWithOne(quorums[j])
  }

  function FirstTwo(j: int): seq<Action> {
    [Ask(j), DeliverMail(Order(Req(j, 1, 1)))]
  }

  /** `j` asks again before the token arrives; node 1 relays the request back to `j`, which
      takes it for a request and sends a second token. */
  function Detour(j: int): seq<Action> {
    [Ask(j), DeliverMail(Order(Req(j, 1, 2))), DeliverMail(Order(Rly(j, j, 3, 1)))]
  }

  function Listed(j: int): TokenList {
    map[Key(1, j) := Req(j, 1, 1)]
  }

  function Arrivals(j: int): seq<Action> {
    [DeliverToken(Token(1, j, Listed(j)), 0), DeliverToken(Token(j, 1, map[]), 0), Ask(1)]
  }

  ghost predicate TokenOnItsWay(s: System, quorums: Quorums, j: int)
    requires Neighbour(quorums, j)
  {
    && 1 in s.nodes && j in s.nodes && s.stuck == {}
    && s.nodes[1] == NewNode(1, quorums[1]).(holder := j, hasToken := false)
    && s.nodes[j] == NewNode(j, quorums[j]).(nextSeq := 2)
    && Token(1, j, Listed(j)) in s.tokens
  }

  lemma OneAction(s: System, a: Action, more: seq<Action>)
    requires Enabled(s, a) && Feasible(Next(s, a), more)
    ensures Feasible(s, [a] + more) && After(s, [a] + more) == After(Next(s, a), more)
    ensures Strays(s, [a] + more) == (if Stray(s, a) then 1 else 0) + Strays(Next(s, a), more)
  {
    assert ([a] + more)[1..] == more;
  }

  lemma TwoActions(s: System, a: Action, b: Action)
    requires Enabled(s, a) && Enabled(Next(s, a), b)
    ensures Feasible(s, [a, b]) && After(s, [a, b]) == Next(Next(s, a), b)
    ensures Strays(s, [a, b]) == (if Stray(s, a) then 1 else 0) + if Stray(Next(s, a), b) then 1 else 0
  {
    OneAction(Next(s, a), b, []);
    OneAction(s, a, [b]);
    assert [b] + [] == [b] && [a] + [b] == [a, b];
  }

  lemma ThreeActions(s: System, a: Action, b: Action, c: Action)
    requires Enabled(s, a) && Enabled(Next(s, a), b) && Enabled(Next(Next(s, a), b), c)
    ensures Feasible(s, [a, b, c]) && After(s, [a, b, c]) == Next(Next(Next(s, a), b), c)
    ensures Strays(s, [a, b, c]) == (if Stray(s, a) then 1 else 0) + (if Stray(Next(s, a), b) then 1 else 0)
            + if Stray(Next(Next(s, a), b), c) then 1 else 0
  {
    TwoActions(Next(s, a), b, c);
    OneAction(s, a, [b, c]);
    assert [a] + [b, c] == [a, b, c];
  }

  lemma InRequests(n: Node, to: set<int>, q: int)
    requires q in to
    ensures Order(Req(n.id, q, n.nextSeq)) in Requests(n, to)
  {
    assert Order(Req(n.id, q, n.nextSeq)) in (set x | x in to :: Order(Req(n.id, x, n.nextSeq)));
  }

  lemma SendToken(quorums: Quorums, j: int)
    requires Neighbour(quorums, j)
    ensures var s := Start(quorums);
            && Feasible(s, FirstTwo(j)) && Strays(s, FirstTwo(j)) == 0
            && TokenOnItsWay(After(s, FirstTwo(j)), quorums, j)
  {
    var s := Start(quorums);
    var a0, a1 := Ask(j), DeliverMail(Order(Req(j, 1, 1)));
    InRequests(s.nodes[j], {1}, 1);
    var s1 := Next(s, a0);
    assert Insert(map[], Req(j, 1, 1)) == Listed(j);
    var s2 := Next(s1, a1);
    assert TokenOnItsWay(s2, quorums, j);
    TwoActions(s, a0, a1);
  }

  ghost predicate TwoTokens(s: System, quorums: Quorums, j: int)
    requires Neighbour(quorums, j)
  {
    && 1 in s.nodes && j in s.nodes && s.stuck == {}
    && s.nodes[1] == NewNode(1, quorums[1]).(nextSeq := 3, holder := j, hasToken := false)
    && s.nodes[j] == NewNode(j, quorums[j]).(nextSeq := 3)
    && Token(1, j, Listed(j)) in s.tokens && Token(j, 1, map[]) in s.tokens
  }

  /** The second request of `j` reaches node 1 when the token has left. */
  lemma RelayedBack(quorums: Quorums, s: System, j: int)
    requires Neighbour(quorums, j) && TokenOnItsWay(s, quorums, j)
    ensures Order(Req(j, 1, 2)) in Next(s, Ask(j)).mail
    ensures var t := Next(Next(s, Ask(j)), DeliverMail(Order(Req(j, 1, 2))));
            && 1 in t.nodes && j in t.nodes && t.stuck == {}
            && t.nodes[1] == NewNode(1, quorums[1]).(nextSeq := 3, holder := j, hasToken := false)
            && t.nodes[j] == NewNode(j, quorums[j]).(nextSeq := 3)
            && Token(1, j, Listed(j)) in t.tokens
            && Order(Rly(j, j, 3, 1)) in t.mail
  {
    InRequests(s.nodes[j], {1}, 1);
    var s1 := Next(s, Ask(j));
    assert ReceiveRequest(s1.nodes[1], Req(j, 1, 2)).mail == multiset{Order(Rly(j, j, 3, 1))};
  }

  lemma RelayMints(quorums: Quorums, s: System, j: int)
    requires Neighbour(quorums, j) && 1 in s.nodes && j in s.nodes && s.stuck == {}
    requires s.nodes[1] == NewNode(1, quorums[1]).(nextSeq := 3, holder := j, hasToken := false)
    requires s.nodes[j] == NewNode(j, quorums[j]).(nextSeq := 3)
    requires Token(1, j, Listed(j)) in s.tokens && Order(Rly(j, j, 3, 1)) in s.mail
    ensures Stray(s, DeliverMail(Order(Rly(j, j, 3, 1))))
    ensures TwoTokens(Next(s, DeliverMail(Order(Rly(j, j, 3, 1)))), quorums, j)
  {
  }

  lemma MintToken(quorums: Quorums, s: System, j: int)
    requires Neighbour(quorums, j) && TokenOnItsWay(s, quorums, j)
    ensures Feasible(s, Detour(j)) && Strays(s, Detour(j)) == 1
    ensures TwoTokens(After(s, Detour(j)), quorums, j)
  {
    var a0, a1, a2 := Ask(j), DeliverMail(Order(Req(j, 1, 2))), DeliverMail(Order(Rly(j, j, 3, 1)));
    RelayedBack(quorums, s, j);
    var s2 := Next(Next(s, a0), a1);
    RelayMints(quorums, s2, j);
    ThreeActions(s, a0, a1, a2);
  }

  /** Both tokens are read as they are sent: their last numbers have one digit. */
  lemma BothAreRead(j: int, unset: int)
    ensures var t := Token(1, j, Listed(j)); Readable(t) && AsRead(t, unset) == t
    ensures var t := Token(j, 1, map[]); Readable(t) && AsRead(t, unset) == t
  {
    var list := Listed(j);
    assert list.Keys == {Key(1, j)} && list - {Key(1, j)} == map[];
    FirstIsUnique(list.Keys, Key(1, j));
    assert Sorted(list) == [Req(j, 1, 1)];
    RequestsReadTheSame(Token(1, j, list), unset);
    RequestsReadTheSame(Token(j, 1, map[]), unset);
  }

  /** The token that carries the request of `j` lets it in. */
  lemma FirstArrives(quorums: Quorums, s: System, j: int)
    requires Neighbour(quorums, j) && TwoTokens(s, quorums, j)
    ensures var t := Next(s, DeliverToken(Token(1, j, Listed(j)), 0));
            && t.nodes.Keys == s.nodes.Keys && t.stuck == {} && t.nodes[j].inCS && t.nodes[1] == s.nodes[1]
            && Token(j, 1, map[]) in t.tokens
  {
    BothAreRead(j, 0);
    assert Listed(j).Keys == {Key(1, j)};
    assert Key(1, j) in Listed(j) && Listed(j) != map[];
    assert Token(1, j, Listed(j)) != Token(j, 1, map[]);
  }

  /** The token with the empty list is kept, and the next request of node 1 lets it in. */
  lemma SecondArrives(s: System, j: int)
    requires 1 in s.nodes && j in s.nodes && j != 1 && s.nodes[j].inCS && s.stuck == {}
    requires Token(j, 1, map[]) in s.tokens
    ensures var acts := [DeliverToken(Token(j, 1, map[]), 0), Ask(1)];
            Feasible(s, acts) && Strays(s, acts) == 0 && InCS(After(s, acts)) >= {1, j}
  {
    var a1, a2 := DeliverToken(Token(j, 1, map[]), 0), Ask(1);
    BothAreRead(j, 0);
    var s2 := Next(s, a1);
    assert s2.nodes[1].hasToken && s2.nodes[j] == s.nodes[j];
    var s3 := Next(s2, a2);
    TwoActions(s, a1, a2);
  }

  lemma BothEnter(quorums: Quorums, s: System, j: int)
    requires Neighbour(quorums, j) && TwoTokens(s, quorums, j)
    ensures Feasible(s, Arrivals(j)) && Strays(s, Arrivals(j)) == 0
    ensures InCS(After(s, Arrivals(j))) >= {1, j}
  {
    var a0 := DeliverToken(Token(1, j, Listed(j)), 0);
    FirstArrives(quorums, s, j);
    ThenSecondArrives(s, a0, j);
    assert [a0] + [DeliverToken(Token(j, 1, map[]), 0), Ask(1)] == Arrivals(j);
  }

  lemma ThenSecondArrives(s: System, a: Action, j: int)
    requires Enabled(s, a) && !Stray(s, a)
    requires var t := Next(s, a);
             && 1 in t.nodes && j in t.nodes && j != 1 && t.nodes[j].inCS && t.stuck == {}
             && Token(j, 1, map[]) in t.tokens
    ensures var acts := [a] + [DeliverToken(Token(j, 1, map[]), 0), Ask(1)];
            Feasible(s, acts) && Strays(s, acts) == 0 && InCS(After(s, acts)) >= {1, j}
  {
    SecondArrives(Next(s, a), j);
    OneAction(s, a, [DeliverToken(Token(j, 1, map[]), 0), Ask(1)]);
  }

  lemma SecondHalf(quorums: Quorums, s: System, j: int)
    requires Neighbour(quorums, j) && TokenOnItsWay(s, quorums, j)
    ensures var acts := Detour(j) + Arrivals(j);
            Feasible(s, acts) && Strays(s, acts) == 1 && InCS(After(s, acts)) >= {1, j}
  {
    MintToken(quorums, s, j);
    BothEnter(quorums, After(s, Detour(j)), j);
    Concatenate(s, Detour(j), Arrivals(j));
    StraysAddUp(s, Detour(j), Arrivals(j));
  }

  lemma NothingLost(j: int)
    ensures LossFree(FirstTwo(j) + (Detour(j) + Arrivals(j)))
  {
    BothAreRead(j, 0);
    assert !IsLoss(Arrivals(j)[0]) && !IsLoss(Arrivals(j)[1]);
  }

  /** In every system where node 1 holds the token at first and some other node knows it, one
      stray RELAY in a loss-free run puts both in their critical sections. */
  lemma OneStrayDefeatsExclusion(quorums: Quorums, j: int)
    requires Neighbour(quorums, j)
    ensures var acts := FirstTwo(j) + (Detour(j) + Arrivals(j));
            && Feasible(Start(quorums), acts) && LossFree(acts)
            && Strays(Start(quorums), acts) == 1
            && InCS(After(Start(quorums), acts)) >= {1, j}
  {
    var s := Start(quorums);
    NothingLost(j);
    SendToken(quorums, j);
    var s1 := After(s, FirstTwo(j));
    SecondHalf(quorums, s1, j);
    Concatenate(s, FirstTwo(j), Detour(j) + Arrivals(j));
    StraysAddUp(s, FirstTwo(j), Detour(j) + Arrivals(j));
  }
}
