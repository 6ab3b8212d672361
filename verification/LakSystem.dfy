/** All nodes of one run of the token algorithm together with the network: tokens and mail in
    flight may be delivered in any order or lost, and are never duplicated. A TOKEN is delivered as
    its text is read, which need not be as it was sent; all other messages survive their texts. */
module LakSystem {
  import opened Priority
  import opened LakProtocol
  import opened LakReading

  type Quorums = map<int, set<int>>

  /** `stuck` are the nodes that are reading a TOKEN without end. */
  datatype System = System(nodes: map<int, Node>, tokens: multiset<Token>, mail: multiset<Mail>, stuck: set<int>)

  datatype Action =
    | Ask(id: int)
    | DeliverToken(token: Token, unset: int)    // `unset` stands for uninitialised fields
    | DeliverMail(letter: Mail)
    | Finish(id: int)
    | LoseToken(token: Token)
    | LoseMail(letter: Mail)

  function Start(quorums: Quorums): System {
    System(map i | i in quorums :: NewNode(i, quorums[i]), multiset{}, multiset{}, {})
  }

  predicate Enabled(s: System, a: Action) {
    match a
    case Ask(i) => i in s.nodes && i !in s.stuck
    case DeliverToken(t, _) => t in s.tokens && t.to !in s.stuck
    case DeliverMail(m) => m in s.mail && m.Addressee() !in s.stuck
    case Finish(i) => i in s.nodes && i !in s.stuck && s.nodes[i].inCS
    case LoseToken(t) => t in s.tokens
    case LoseMail(m) => m in s.mail
  }

  function Apply(s: System, i: int, o: Outcome): System {
    s.(nodes := s.nodes[i := o.node], tokens := s.tokens + o.tokens, mail := s.mail + o.mail)
  }

  function Next(s: System, a: Action): System
    requires Enabled(s, a)
  {
    match a
    case Ask(i) => Apply(s, i, SendRequest(s.nodes[i]))
    case DeliverToken(t, unset) =>
      var taken := s.(tokens := s.tokens - multiset{t});
      if t.to !in s.nodes then taken
      else if Readable(t) then Apply(taken, t.to, ReceiveToken(s.nodes[t.to], AsRead(t, unset)))
      else taken.(stuck := s.stuck + {t.to})
    case DeliverMail(m) =>
      var taken := s.(mail := s.mail - multiset{m});
      var to := m.Addressee();
      if to in s.nodes then Apply(taken, to, ReceiveMail(s.nodes[to], m)) else taken
    case Finish(i) => Apply(s, i, Leave(s.nodes[i]))
    case LoseToken(t) => s.(tokens := s.tokens - multiset{t})
    case LoseMail(m) => s.(mail := s.mail - multiset{m})
  }

  predicate Feasible(s: System, acts: seq<Action>)
    decreases |acts|
  {
    acts == [] || (Enabled(s, acts[0]) && Feasible(Next(s, acts[0]), acts[1..]))
  }

  function After(s: System, acts: seq<Action>): System
    requires Feasible(s, acts)
    decreases |acts|
  {
    if acts == [] then s else After(Next(s, acts[0]), acts[1..])
  }

  lemma {:induction false} Concatenate(s: System, first: seq<Action>, second: seq<Action>)
    requires Feasible(s, first) && Feasible(After(s, first), second)
    ensures Feasible(s, first + second)
    ensures After(s, first + second) == After(After(s, first), second)
    decreases |first|
  {
    if first == [] {
      assert first + second == second;
    } else {
      var both := first + second;
      assert both[0] == first[0] && both[1..] == first[1..] + second;
      var t := Next(s, first[0]);
      assert After(s, first) == After(t, first[1..]);
      Concatenate(t, first[1..], second);
    }
  }

  /** A RELAY that reaches a node which neither holds the token nor is in its critical section;
      the node nevertheless sends a token. */
  predicate Stray(s: System, a: Action) {
    a.DeliverMail? && a.letter.Order? && a.letter.entry.Rly? &&
    var to := a.letter.Addressee();
    to in s.nodes && !s.nodes[to].hasToken && !s.nodes[to].inCS && s.nodes[to].holder != 0
  }

  ghost function Strays(s: System, acts: seq<Action>): nat
    requires Feasible(s, acts)
    decreases |acts|
  {
    if acts == [] then 0
    else (if Stray(s, acts[0]) then 1 else 0) + Strays(Next(s, acts[0]), acts[1..])
  }

  lemma {:induction false} StraysAddUp(s: System, first: seq<Action>, second: seq<Action>)
    requires Feasible(s, first) && Feasible(After(s, first), second) && Feasible(s, first + second)
    ensures Strays(s, first + second) == Strays(s, first) + Strays(After(s, first), second)
    decreases |first|
  {
    if first == [] {
      assert first + second == second;
    } else {
      var both := first + second;
      assert both[0] == first[0] && both[1..] == first[1..] + second;
      StraysAddUp(Next(s, first[0]), first[1..], second);
    }
  }
}
