/** The token node told from its history: from the list of what has happened to it (it has asked,
    letters and tokens have come, it has left) it is stated, without the handlers, what number it is
    at, where it believes the token is, whether it has it, whether it is inside, which requests wait
    with it, and what it sends. */
module LakHistory {
  import opened Priority
  import opened LakProtocol
  import opened Options
  import opened Sums

  /** A token comes as it is read. */
  datatype Event = Asked | Letter(mail: Mail) | Arrival(token: Token) | Left

  function Effect(n: Node, e: Event): Outcome {
    match e
    case Asked => SendRequest(n)
    case Letter(m) => ReceiveMail(n, m)
    case Arrival(t) => ReceiveToken(n, t)
    case Left => Leave(n)
  }

  function Init(h: seq<Event>): seq<Event>
    requires h != []
  {
    h[..|h| - 1]
  }

  function Last(h: seq<Event>): Event
    requires h != []
  {
    h[|h| - 1]
  }

  /** The node after `h`. */
  function State(n: Node, h: seq<Event>): Node
    decreases |h|
  {
    if h == [] then n else Effect(State(n, Init(h)), Last(h)).node
  }

  function SentMail(n: Node, h: seq<Event>): multiset<Mail>
    decreases |h|
  {
    if h == [] then multiset{} else SentMail(n, Init(h)) + Effect(State(n, Init(h)), Last(h)).mail
  }

  function SentTokens(n: Node, h: seq<Event>): multiset<Token>
    decreases |h|
  {
    if h == [] then multiset{} else SentTokens(n, Init(h)) + Effect(State(n, Init(h)), Last(h)).tokens
  }

  lemma OneMore(n: Node, h: seq<Event>, e: Event)
    ensures State(n, h + [e]) == Effect(State(n, h), e).node
  {
    assert Init(h + [e]) == h && Last(h + [e]) == e;
  }

  predicate IsOther(n: Node, q: int) { q in n.quorum && q != n.id }

  // ----- the reference: each field from the events alone

  predicate Request(e: Event) { e.Letter? && e.mail.Order? && e.mail.entry.Req? }

  predicate Relay(e: Event) { e.Letter? && e.mail.Order? && e.mail.entry.Rly? }

  /** A list that begins with somebody else's entry. */
  predicate ForAnother(id: int, list: TokenList) {
    list != map[] && First(list.Keys).from != id
  }

  /** To whom the token goes at `e`: from a node that has it and is outside to whoever asks; from any
      node outside to a relay; back to where it came from, if its list is another's; and from a
      node that leaves to the first in its list. */
  function Sends(n: Node, h: seq<Event>, e: Event): Option<int>
    decreases |h|, 1
  {
    match e
    case Asked => None
    case Letter(Order(Req(from, _, _))) => if HasIt(n, h) && !Inside(n, h) then Some(from) else None
    case Letter(Order(Rly(_, _, _, relay))) => if Inside(n, h) then None else Some(relay)
    case Letter(_) => None
    case Arrival(t) => if ForAnother(n.id, t.reqs) then Some(t.from) else None
    case Left => if Listed(n, h) == map[] then None else Some(First(Listed(n, h).Keys).from)
  }

  /** It has the token if it has taken one since it last sent one. */
  predicate HasIt(n: Node, h: seq<Event>)
    decreases |h|, 0
  {
    if h == [] then n.hasToken
    else Sends(n, Init(h), Last(h)).None? && (Last(h).Arrival? || HasIt(n, Init(h)))
  }

  /** It enters by asking when it has the token, and by a token with its own request first; it is out
      when it leaves or asks in vain. */
  predicate Inside(n: Node, h: seq<Event>)
    decreases |h|, 0
  {
    if h == [] then n.inCS else
    match Last(h)
    case Asked => HasIt(n, Init(h))
    case Left => false
    case Arrival(t) => Inside(n, Init(h)) || (t.reqs != map[] && !ForAnother(n.id, t.reqs))
    case Letter(_) => Inside(n, Init(h))
  }

  /** It numbers its requests one after the other, and passes by every number that reaches it. */
  function Number(n: Node, h: seq<Event>): int
    decreases |h|, 0
  {
    if h == [] then n.nextSeq else
    var before := Number(n, Init(h));
    match Last(h)
    case Asked => before + One(!HasIt(n, Init(h)))
    case Letter(Order(Req(_, _, k))) => if k <= before then before else k + 1
    case Letter(Order(Rly(_, _, k, _))) => if k <= before then before else k
    case _ => before
  }

  /** An entry as it is kept or handed on: a request that is ahead gets a number one higher. */
  function Kept(n: Node, h: seq<Event>, e: Entry): Entry
    decreases |h|, 1
  {
    if e.Req? && Number(n, h) < e.seqno then Req(e.from, e.to, e.seqno + 1) else e
  }

  /** The requests that have come inside since the token last left; of equal keys the first. */
  function Listed(n: Node, h: seq<Event>): TokenList
    decreases |h|, 0
  {
    if h == [] then n.list
    else if Sends(n, Init(h), Last(h)).Some? then map[]
    else if Inside(n, Init(h)) && (Relay(Last(h)) || (Request(Last(h)) && HasIt(n, Init(h)))) then
      WithEntry(Listed(n, Init(h)), Kept(n, Init(h), Last(h).mail.entry))
    else Listed(n, Init(h))
  }

  function WithEntry(list: TokenList, e: Entry): TokenList {
    map[e.AsKey() := e] + list
  }

  /** It believes the token is where it was last told, by a RECEIVE or by sending or taking it itself;
      a RELEASE makes it forget, unless it believes it is at itself. */
  function Believes(n: Node, h: seq<Event>): int
    decreases |h|, 0
  {
    if h == [] then n.holder else
    match Sends(n, Init(h), Last(h))
    case Some(to) => to
    case None =>
      match Last(h)
      case Arrival(_) => n.id
      case Letter(Receive(from, _)) => from
      case Letter(Release(_, _)) => if Believes(n, Init(h)) == n.id then n.id else UNKNOWN
      case _ => Believes(n, Init(h))
  }

  /** The recorded holder is never 0, which the handler of a RELAY takes for "none". */
  ghost predicate NeverZero(n: Node, h: seq<Event>)
    decreases |h|
  {
    h == [] || (NeverZero(n, Init(h)) && State(n, Init(h)).holder != 0)
  }

  ghost predicate Matches(n: Node, h: seq<Event>, s: Node) {
    && s.id == n.id && s.quorum == n.quorum && s.nextSeq == Number(n, h) && s.holder == Believes(n, h)
    && s.hasToken == HasIt(n, h) && s.inCS == Inside(n, h) && s.list == Listed(n, h)
  }

  // ----- the handlers do just this

  lemma RequestMatches(n: Node, h: seq<Event>, s: Node)
    requires h != [] && Request(Last(h)) && Matches(n, Init(h), s)
    ensures Matches(n, h, Effect(s, Last(h)).node)
  {
    assert Insert(s.list, Seen(s, Last(h).mail.entry)) == WithEntry(s.list, Seen(s, Last(h).mail.entry));
  }

  lemma RelayMatches(n: Node, h: seq<Event>, s: Node)
    requires h != [] && Relay(Last(h)) && Matches(n, Init(h), s) && s.holder != 0
    ensures Matches(n, h, Effect(s, Last(h)).node)
  {
    assert Insert(s.list, Last(h).mail.entry) == WithEntry(s.list, Last(h).mail.entry);
  }

  lemma WordMatches(n: Node, h: seq<Event>, s: Node)
    requires h != [] && Last(h).Letter? && !Last(h).mail.Order? && Matches(n, Init(h), s)
    ensures Matches(n, h, Effect(s, Last(h)).node)
  {
  }

  lemma ArrivalMatches(n: Node, h: seq<Event>, s: Node)
    requires h != [] && Last(h).Arrival? && Matches(n, Init(h), s)
    ensures Matches(n, h, Effect(s, Last(h)).node)
  {
  }

  lemma AskedMatches(n: Node, h: seq<Event>, s: Node)
    requires h != [] && Last(h).Asked? && Matches(n, Init(h), s)
    ensures Matches(n, h, Effect(s, Last(h)).node)
  {
  }

  lemma LeftMatches(n: Node, h: seq<Event>, s: Node)
    requires h != [] && Last(h).Left? && Matches(n, Init(h), s)
    ensures Matches(n, h, Effect(s, Last(h)).node)
  {
  }

  /** After every history the node is what the reference says. */
  lemma {:induction false} EveryHistory(n: Node, h: seq<Event>)
    requires NeverZero(n, h)
    ensures Matches(n, h, State(n, h))
    decreases |h|
  {
    if h != [] {
      EveryHistory(n, Init(h));
      var s := State(n, Init(h));
      match Last(h)
      case Letter(Order(Req(_, _, _))) => RequestMatches(n, h, s);
      case Letter(Order(Rly(_, _, _, _))) => RelayMatches(n, h, s);
      case Letter(_) => WordMatches(n, h, s);
      case Arrival(_) => ArrivalMatches(n, h, s);
      case Asked => AskedMatches(n, h, s);
      case Left => LeftMatches(n, h, s);
    }
  }
}
