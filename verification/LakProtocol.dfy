/** The token-passing node as a pure transition function: what each handler of `LAKNode` does
    to the node's state and what it sends. TOKEN messages are kept apart from all other mail,
    so that tokens can be counted. Class `LakNode.LAKNode` is verified against these functions. */
module LakProtocol {
  import opened Priority

  /** A queued or relayed request. */
  datatype Entry =
    | Req(from: int, to: int, seqno: int)
    | Rly(from: int, to: int, seqno: int, relay: int)
  {
    function AsKey(): Key {
      Key(seqno, from)
    }
  }

  /** A `std::set<Message>`: at most one entry per key, iterated in key order. */
  type TokenList = map<Key, Entry>

  datatype Mail =
    | Order(entry: Entry)             // REQUEST or RELAY
    | Release(from: int, to: int)
    | Ack(from: int, to: int)
    | Receive(from: int, to: int)
  {
    function Addressee(): int {
      if Order? then entry.to else to
    }
  }

  datatype Token = Token(from: int, to: int, reqs: TokenList)

  datatype Node = Node(
    id: int,
    quorum: set<int>,
    nextSeq: int,
    holder: int,
    hasToken: bool,
    inCS: bool,
    list: TokenList)

  /** `entered` tells that accessCS was called. */
  datatype Outcome = Outcome(node: Node, tokens: multiset<Token>, mail: multiset<Mail>, entered: bool)

  const UNKNOWN: int := -1

  /** `*quorum_set.begin() == 1` */
  predicate StartsWithOne(quorum: set<int>) {
    1 in quorum && forall q :: q in quorum ==> 1 <= q
  }

  function NewNode(id: int, quorum: set<int>): Node {
    if StartsWithOne(quorum) then Node(id, quorum, 1, 1, id == 1, false, map[])
    else Node(id, quorum, 1, UNKNOWN, false, false, map[])
  }

  /** `insert`: an entry with the same key stays. */
  function Insert(list: TokenList, e: Entry): TokenList {
    if e.AsKey() in list then list else list[e.AsKey() := e]
  }

  function Releases(n: Node): multiset<Mail> {
    multiset(set q | q in n.quorum - {n.id} :: Release(n.id, q))
  }

  function Copies(k: nat, m: multiset<Mail>): multiset<Mail> {
    if k == 0 then multiset{} else m + Copies(k - 1, m)
  }

  /** `send_receive` is called once per other member and addresses all of them each time. */
  function Receives(n: Node): multiset<Mail> {
    Copies(|n.quorum - {n.id}|, multiset(set q | q in n.quorum - {n.id} :: Receive(n.id, q)))
  }

  function Quiet(n: Node): Outcome {
    Outcome(n, multiset{}, multiset{}, false)
  }

  function Enter(n: Node): Outcome {
    Outcome(n.(inCS := true), multiset{}, multiset{}, true)
  }

  function PassToken(n: Node, to: int): Outcome {
    Outcome(n.(holder := to, hasToken := false, list := map[]),
            multiset{Token(n.id, to, n.list)}, multiset{}, false)
  }

  function PassAndRelease(n: Node, to: int): Outcome {
    PassToken(n, to).(mail := Releases(n))
  }

  function Requests(n: Node, to: set<int>): multiset<Mail> {
    multiset(set q | q in to :: Order(Req(n.id, q, n.nextSeq)))
  }

  function SendRequest(n: Node): Outcome {
    if n.hasToken then Enter(n)
    else
      Outcome(n.(nextSeq := n.nextSeq + 1, inCS := false), multiset{},
              Requests(n, if n.holder in n.quorum then {n.holder} else n.quorum - {n.id}), false)
  }

  /** A request from the future advances the node's number and its own, before it is stored or
      relayed. */
  function Seen(n: Node, e: Entry): Entry
    requires e.Req?
  {
    if n.nextSeq < e.seqno then Req(e.from, e.to, e.seqno + 1) else e
  }

  function Synced(n: Node, e: Entry): Node {
    n.(nextSeq := if n.nextSeq < e.seqno then (if e.Req? then e.seqno + 1 else e.seqno) else n.nextSeq)
  }

  function ReceiveRequest(n: Node, e: Entry): Outcome
    requires e.Req?
  {
    var seen := Seen(n, e);
    var synced := Synced(n, e);
    if n.hasToken then
      var listed := synced.(list := Insert(synced.list, seen));
      if n.inCS then Quiet(listed) else PassAndRelease(listed, e.from)
    else if n.holder == UNKNOWN then
      Outcome(synced, multiset{}, multiset{Ack(n.id, e.from)}, false)
    else
      Outcome(synced, multiset{}, multiset{Order(Rly(e.from, n.holder, seen.seqno, n.id))}, false)
  }

  function TakeToken(n: Node): Node {
    n.(hasToken := true, holder := n.id)
  }

  function ReceiveToken(n: Node, t: Token): Outcome {
    if t.reqs == map[] then
      Outcome(TakeToken(n), multiset{}, Receives(n), false)
    else if First(t.reqs.Keys).from != n.id then
      PassToken(n, t.from)
    else
      Enter(TakeToken(n)).(mail := Receives(n))
  }

  function ReceiveRelay(n: Node, e: Entry): Outcome
    requires e.Rly?
  {
    var synced := Synced(n, e);
    if n.holder == 0 then Quiet(synced)
    else if n.inCS then Quiet(synced.(list := Insert(synced.list, e)))
    else PassAndRelease(synced, e.relay)
  }

  function ReceiveMail(n: Node, m: Mail): Outcome {
    match m
    case Order(e) => if e.Req? then ReceiveRequest(n, e) else ReceiveRelay(n, e)
    case Release(_, _) => Quiet(if n.holder != n.id then n.(holder := UNKNOWN) else n)
    case Ack(_, _) => Quiet(n)
    case Receive(from, _) => Quiet(n.(holder := from))
  }

  function Leave(n: Node): Outcome {
    var o := if n.list != map[] then PassAndRelease(n, First(n.list.Keys).from) else Quiet(n);
    o.(node := o.node.(inCS := false))
  }
}
