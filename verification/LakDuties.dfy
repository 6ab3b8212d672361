/** What a token node sends, told from its history: how often each letter, and which token. */
module LakDuties {
  import opened Priority
  import opened LakProtocol
  import opened LakHistory
  import opened Options
  import opened Sums

  /** The list that a token sent at `e` carries. */
  function Carried(n: Node, h: seq<Event>, e: Event): TokenList {
    if Request(e) then WithEntry(Listed(n, h), Kept(n, h, e.mail.entry)) else Listed(n, h)
  }

  function TokenDue(n: Node, h: seq<Event>, e: Event): multiset<Token> {
    match Sends(n, h, e)
    case None => multiset{}
    case Some(to) => multiset{Token(n.id, to, Carried(n, h, e))}
  }

  /** The token goes on to another request and not just back. */
  predicate Passes(n: Node, h: seq<Event>, e: Event) {
    Sends(n, h, e).Some? && !e.Arrival?
  }

  predicate Takes(n: Node, h: seq<Event>, e: Event) {
    e.Arrival? && Sends(n, h, e).None?
  }

  /** Whom a request is addressed to: the known holder alone, or all other members. */
  predicate IsAsked(n: Node, h: seq<Event>, q: int) {
    if Believes(n, h) in n.quorum then q == Believes(n, h) else IsOther(n, q)
  }

  /** How many letters `m` are sent at `e`: one RELEASE to each other member when the token is passed
      on; as many RECEIVEs to each as there are other members when it is taken; one request to each
      that is asked; and a request that comes to a node without the token is acknowledged, or
      relayed to where the node believes the token is. */
  function LettersDue(n: Node, h: seq<Event>, e: Event, m: Mail): nat {
    match m
    case Release(from, to) => One(from == n.id && IsOther(n, to) && Passes(n, h, e))
    case Receive(from, to) =>
      if from == n.id && IsOther(n, to) && Takes(n, h, e) then |n.quorum - {n.id}| else 0
    case Ack(from, to) =>
      One(from == n.id && Request(e) && to == e.mail.entry.from && !HasIt(n, h) && Believes(n, h) == UNKNOWN)
    case Order(Req(from, to, k)) =>
      One(from == n.id && e.Asked? && !HasIt(n, h) && k == Number(n, h) && IsAsked(n, h, to))
    case Order(Rly(from, to, k, relay)) =>
      One(relay == n.id && Request(e) && !HasIt(n, h) && Believes(n, h) != UNKNOWN
          && from == e.mail.entry.from && to == Believes(n, h) && k == Kept(n, h, e.mail.entry).seqno)
  }

  predicate Accesses(n: Node, h: seq<Event>, e: Event) {
    (e.Asked? && HasIt(n, h)) || (e.Arrival? && e.token.reqs != map[] && !ForAnother(n.id, e.token.reqs))
  }

  // ----- counting letters

  lemma ReleaseCount(n: Node, m: Mail)
    ensures Releases(n)[m] == One(m.Release? && m.from == n.id && IsOther(n, m.to))
  {
    var all := set q | q in n.quorum - {n.id} :: Release(n.id, q);
    if m.Release? && m.from == n.id && IsOther(n, m.to) {
      assert m == Release(n.id, m.to) && m.to in n.quorum - {n.id};
    }
    assert m in all <==> m.Release? && m.from == n.id && IsOther(n, m.to);
  }

  lemma {:induction false} CopiesCount(k: nat, m: multiset<Mail>, letter: Mail)
    ensures Copies(k, m)[letter] == k * m[letter]
  {
    if k > 0 {
      CopiesCount(k - 1, m, letter);
      assert k * m[letter] == (k - 1) * m[letter] + m[letter];
    }
  }

  lemma ReceiveCount(n: Node, m: Mail)
    ensures Receives(n)[m] == if m.Receive? && m.from == n.id && IsOther(n, m.to) then |n.quorum - {n.id}| else 0
  {
    var all := set q | q in n.quorum - {n.id} :: Receive(n.id, q);
    CopiesCount(|n.quorum - {n.id}|, multiset(all), m);
    if m.Receive? && m.from == n.id && IsOther(n, m.to) {
      assert m == Receive(n.id, m.to) && m.to in n.quorum - {n.id};
    }
    assert m in all <==> m.Receive? && m.from == n.id && IsOther(n, m.to);
  }

  lemma RequestCount(n: Node, to: set<int>, m: Mail)
    ensures Requests(n, to)[m] == One(m.Order? && m.entry.Req? && m.entry == Req(n.id, m.entry.to, n.nextSeq)
                                      && m.entry.to in to)
  {
    var all := set q | q in to :: Order(Req(n.id, q, n.nextSeq));
    if m.Order? && m.entry.Req? && m.entry == Req(n.id, m.entry.to, n.nextSeq) && m.entry.to in to {
      assert m == Order(Req(n.id, m.entry.to, n.nextSeq));
      assert m in all;
    }
  }

  // ----- the handlers send just this

  lemma RequestSends(n: Node, h: seq<Event>, s: Node, e: Event, m: Mail)
    requires Matches(n, h, s) && Request(e)
    ensures Effect(s, e).tokens == TokenDue(n, h, e) && Effect(s, e).mail[m] == LettersDue(n, h, e, m)
  {
    RequestSendsToken(n, h, s, e);
    RequestSendsMail(n, h, s, e, m);
  }

  lemma RequestSendsToken(n: Node, h: seq<Event>, s: Node, e: Event)
    requires Matches(n, h, s) && Request(e)
    ensures Effect(s, e).tokens == TokenDue(n, h, e)
  {
    assert Insert(s.list, Seen(s, e.mail.entry)) == WithEntry(s.list, Seen(s, e.mail.entry));
  }

  lemma RequestSendsMail(n: Node, h: seq<Event>, s: Node, e: Event, m: Mail)
    requires Matches(n, h, s) && Request(e)
    ensures Effect(s, e).mail[m] == LettersDue(n, h, e, m)
  {
    ReleaseCount(Synced(s, e.mail.entry).(list := Insert(s.list, Seen(s, e.mail.entry))), m);
  }

  lemma RelaySends(n: Node, h: seq<Event>, s: Node, e: Event, m: Mail)
    requires Matches(n, h, s) && Relay(e) && s.holder != 0
    ensures Effect(s, e).tokens == TokenDue(n, h, e) && Effect(s, e).mail[m] == LettersDue(n, h, e, m)
  {
    ReleaseCount(Synced(s, e.mail.entry), m);
  }

  lemma ArrivalSends(n: Node, h: seq<Event>, s: Node, e: Event, m: Mail)
    requires Matches(n, h, s) && e.Arrival?
    ensures Effect(s, e).tokens == TokenDue(n, h, e) && Effect(s, e).mail[m] == LettersDue(n, h, e, m)
  {
    ReceiveCount(s, m);
  }

  lemma AskedSends(n: Node, h: seq<Event>, s: Node, e: Event, m: Mail)
    requires Matches(n, h, s) && e.Asked?
    ensures Effect(s, e).tokens == TokenDue(n, h, e) && Effect(s, e).mail[m] == LettersDue(n, h, e, m)
  {
    RequestCount(s, if s.holder in s.quorum then {s.holder} else s.quorum - {s.id}, m);
  }

  lemma RestSends(n: Node, h: seq<Event>, s: Node, e: Event, m: Mail)
    requires Matches(n, h, s) && (e.Left? || (e.Letter? && !e.mail.Order?))
    ensures Effect(s, e).tokens == TokenDue(n, h, e) && Effect(s, e).mail[m] == LettersDue(n, h, e, m)
  {
    ReleaseCount(s, m);
  }

  /** After every history, the next event sends exactly the letters and the token that are due, and
      calls `accessCS` exactly when it should. */
  lemma EveryEventSends(n: Node, h: seq<Event>, e: Event, m: Mail)
    requires NeverZero(n, h + [e])
    ensures var o := Effect(State(n, h), e);
            && o.tokens == TokenDue(n, h, e) && o.mail[m] == LettersDue(n, h, e, m)
            && (o.entered <==> Accesses(n, h, e))
  {
    assert Init(h + [e]) == h;
    EveryHistory(n, h);
    EventSends(n, h, State(n, h), e, m);
  }

  lemma EventSends(n: Node, h: seq<Event>, s: Node, e: Event, m: Mail)
    requires Matches(n, h, s) && s.holder != 0
    ensures Effect(s, e).tokens == TokenDue(n, h, e) && Effect(s, e).mail[m] == LettersDue(n, h, e, m)
    ensures Effect(s, e).entered <==> Accesses(n, h, e)
  {
    EnteredOrNot(n, h, s, e);
    match e
    case Letter(Order(Req(_, _, _))) => RequestSends(n, h, s, e, m);
    case Letter(Order(Rly(_, _, _, _))) => RelaySends(n, h, s, e, m);
    case Letter(_) => RestSends(n, h, s, e, m);
    case Arrival(_) => ArrivalSends(n, h, s, e, m);
    case Asked => AskedSends(n, h, s, e, m);
    case Left => RestSends(n, h, s, e, m);
  }

  lemma EnteredOrNot(n: Node, h: seq<Event>, s: Node, e: Event)
    requires Matches(n, h, s)
    ensures Effect(s, e).entered <==> Accesses(n, h, e)
  {
  }

  // ----- over a whole history

  /** How often the token has been passed on and taken. */
  function TimesPassed(n: Node, h: seq<Event>): nat
    decreases |h|
  {
    if h == [] then 0 else TimesPassed(n, Init(h)) + One(Passes(n, Init(h), Last(h)))
  }

  function TimesTaken(n: Node, h: seq<Event>): nat
    decreases |h|
  {
    if h == [] then 0 else TimesTaken(n, Init(h)) + One(Takes(n, Init(h), Last(h)))
  }

  lemma SentMore(n: Node, h: seq<Event>, m: Mail)
    requires h != [] && NeverZero(n, h)
    ensures SentMail(n, h)[m] == SentMail(n, Init(h))[m] + LettersDue(n, Init(h), Last(h), m)
  {
    EveryHistory(n, Init(h));
    EventSends(n, Init(h), State(n, Init(h)), Last(h), m);
    SentStep(n, h, m, LettersDue(n, Init(h), Last(h), m));
  }

  lemma SentStep(n: Node, h: seq<Event>, m: Mail, due: nat)
    requires h != [] && Effect(State(n, Init(h)), Last(h)).mail[m] == due
    ensures SentMail(n, h)[m] == SentMail(n, Init(h))[m] + due
  {
  }

  lemma {:induction false} ReleasesAddUp(n: Node, h: seq<Event>, q: int)
    requires NeverZero(n, h) && IsOther(n, q)
    ensures SentMail(n, h)[Release(n.id, q)] == TimesPassed(n, h)
    decreases |h|
  {
    if h != [] {
      ReleasesAddUp(n, Init(h), q);
      SentMore(n, h, Release(n.id, q));
    }
  }

  lemma {:induction false} ReceivesAddUp(n: Node, h: seq<Event>, q: int, others: nat)
    requires NeverZero(n, h) && IsOther(n, q) && others == |n.quorum - {n.id}|
    ensures SentMail(n, h)[Receive(n.id, q)] == TimesTaken(n, h) * others
    decreases |h|
  {
    if h != [] {
      ReceivesAddUp(n, Init(h), q, others);
      var again := ReceivesMore(n, h, q, others);
      var m := Receive(n.id, q);
      OnceMore(TimesTaken(n, Init(h)), TimesTaken(n, h), again, others, SentMail(n, Init(h))[m], SentMail(n, h)[m]);
    }
  }

  lemma ReceivesMore(n: Node, h: seq<Event>, q: int, others: nat) returns (again: bool)
    requires h != [] && NeverZero(n, h) && IsOther(n, q) && others == |n.quorum - {n.id}|
    ensures TimesTaken(n, h) == TimesTaken(n, Init(h)) + One(again)
    ensures SentMail(n, h)[Receive(n.id, q)] == SentMail(n, Init(h))[Receive(n.id, q)] + if again then others else 0
  {
    again := Takes(n, Init(h), Last(h));
    SentMore(n, h, Receive(n.id, q));
  }

  lemma OnceMore(before: nat, after: nat, again: bool, size: nat, sum: nat, more: nat)
    requires after == before + One(again) && sum == before * size
    requires more == sum + if again then size else 0
    ensures more == after * size
  {
  }

  /** Every other member has been sent one RELEASE for each time the token was passed on, and as many
      RECEIVEs as there are other members for each time it was taken. */
  lemma WordsAddUp(n: Node, h: seq<Event>, q: int)
    requires NeverZero(n, h) && IsOther(n, q)
    ensures SentMail(n, h)[Release(n.id, q)] == TimesPassed(n, h)
    ensures SentMail(n, h)[Receive(n.id, q)] == TimesTaken(n, h) * |n.quorum - {n.id}|
  {
    ReleasesAddUp(n, h, q);
    ReceivesAddUp(n, h, q, |n.quorum - {n.id}|);
  }

  lemma {:induction false} NumbersGrow(n: Node, h: seq<Event>)
    ensures n.nextSeq <= Number(n, h)
    decreases |h|
  {
    if h != [] {
      NumbersGrow(n, Init(h));
    }
  }

  /** No node is sent two requests with one number, and all numbers are below the next one. */
  lemma {:induction false} NumbersAreUsedOnce(n: Node, h: seq<Event>, q: int, k: int)
    requires NeverZero(n, h)
    ensures SentMail(n, h)[Order(Req(n.id, q, k))] <= One(n.nextSeq <= k < Number(n, h))
    decreases |h|
  {
    if h != [] {
      NumbersAreUsedOnce(n, Init(h), q, k);
      NumbersGrow(n, Init(h));
      SentMore(n, h, Order(Req(n.id, q, k)));
      NumberStep(n, h);
    }
  }

  lemma NumberStep(n: Node, h: seq<Event>)
    requires h != []
    ensures Number(n, h) >= Number(n, Init(h)) + One(Last(h).Asked? && !HasIt(n, Init(h)))
  {
  }
}
