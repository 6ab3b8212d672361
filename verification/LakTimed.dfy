/** The main loop of a token node as a function of the texts that arrive: one round handles them,
    advances the clock, counts down the critical section and asks if the schedule says so. */
module LakTimed {
  import opened ControlLog
  import opened Iteration
  import opened LakProtocol
  import opened LakCodec
  import opened LakHistory
  import opened Options

  /** A text that arrives; `unset` stands for the fields that reading it leaves unassigned. */
  datatype Incoming = Incoming(text: string, unset: int)

  /** A node with its clock and everything it has handed to the network so far. */
  datatype Device = Device(
    node: Node,
    timer: nat,
    csTimer: nat,
    requests: nat,
    control: seq<Stamped>,
    tokens: multiset<Token>,
    mail: multiset<Mail>)

  /** What reading a text amounts to: one event, none if its type is unknown; undefined if it has no end. */
  function EventsOf(a: Incoming): Option<seq<Event>> {
    match ReadingOf(a.text, a.unset)
    case Endless => None
    case TokenMessage(from, to, list) => Some([Arrival(Token(from, to, AsEntries(list, a.unset)))])
    case Flat(wire) =>
      match Meaning(wire)
      case None => Some([])
      case Some(m) => Some([Letter(m)])
  }

  function Log(d: Device, what: Control): Device {
    d.(control := d.control + [Stamped(d.timer, what)])
  }

  /** `accessCS` logs the entry and restarts the countdown, also when the node is inside already. */
  function Become(d: Device, o: Outcome, s: Settings): (t: Device)
    ensures t.timer == d.timer
  {
    var sent := d.(node := o.node, tokens := d.tokens + o.tokens, mail := d.mail + o.mail);
    if o.entered then Log(sent, AccessCS).(csTimer := s.csTime) else sent
  }

  function Handle(d: Device, s: Settings, es: seq<Event>): Device {
    if es == [] then d else Become(d, Effect(d.node, es[0]), s)
  }

  function HandleAll(d: Device, s: Settings, arrivals: seq<Incoming>): Option<Device>
    decreases |arrivals|
  {
    if arrivals == [] then Some(d) else
    match EventsOf(arrivals[0])
    case None => None
    case Some(es) => HandleAll(Handle(d, s, es), s, arrivals[1..])
  }

  function CountDown(d: Device, s: Settings): (t: Device)
    ensures t.timer == d.timer
  {
    if d.csTimer == 0 && d.node.inCS then Become(Log(d, FinishCS), Leave(d.node), s)
    else if d.csTimer > 0 then d.(csTimer := d.csTimer - 1)
    else d
  }

  function AskIfScheduled(d: Device, s: Settings): (t: Device)
    ensures t.timer == d.timer
  {
    if d.timer in s.schedule then Become(Counted(d), SendRequest(d.node), s) else d
  }

  function Counted(d: Device): Device {
    Log(d, RequestCS).(requests := d.requests + 1)
  }

  /** None when the node reads a TOKEN without end. */
  function Round(d: Device, s: Settings, arrivals: seq<Incoming>): Option<Device> {
    match HandleAll(d, s, arrivals)
    case None => None
    case Some(handled) => Some(RestOfRound(handled, s))
  }

  /** After the arrivals have been handled. */
  function RestOfRound(handled: Device, s: Settings): Device {
    AskIfScheduled(CountDown(handled.(timer := handled.timer + 1), s), s)
  }

  /** `t` is `d` after `o`. */
  lemma Became(d: Device, o: Outcome, s: Settings, t: Device)
    requires t.node == o.node && t.tokens == d.tokens + o.tokens && t.mail == d.mail + o.mail
    requires t.control == d.control + if o.entered then [Stamped(d.timer, AccessCS)] else []
    requires t.timer == d.timer && t.requests == d.requests
    requires t.csTimer == if o.entered then s.csTime else d.csTimer
    ensures t == Become(d, o, s)
  {
  }

  function RoundStep(s: Settings, arrivals: nat -> seq<Incoming>): (Device, nat) -> Option<Device> {
    (d: Device, k: nat) => Round(d, s, arrivals(k))
  }

  function Rounds(d: Device, s: Settings, arrivals: nat -> seq<Incoming>, n: nat): Option<Device> {
    Iterate(d, RoundStep(s, arrivals), n)
  }

  // ----- the clock

  lemma {:induction false} HandleAllKeepsTime(d: Device, s: Settings, arrivals: seq<Incoming>)
    requires HandleAll(d, s, arrivals).Some?
    ensures HandleAll(d, s, arrivals).value.timer == d.timer
    decreases |arrivals|
  {
    if arrivals != [] {
      HandleAllKeepsTime(Handle(d, s, EventsOf(arrivals[0]).value), s, arrivals[1..]);
    }
  }

  /** A round is the handling of the arrivals, the countdown and the schedule. */
  lemma RoundParts(d: Device, s: Settings, arrivals: seq<Incoming>) returns (handled: Device, counted: Device)
    requires Round(d, s, arrivals).Some?
    ensures HandleAll(d, s, arrivals) == Some(handled) && handled.timer == d.timer
    ensures counted == CountDown(handled.(timer := handled.timer + 1), s)
    ensures Round(d, s, arrivals) == Some(AskIfScheduled(counted, s))
  {
    handled := HandledFirst(d, s, arrivals);
    counted := CountDown(handled.(timer := handled.timer + 1), s);
  }

  lemma HandledFirst(d: Device, s: Settings, arrivals: seq<Incoming>) returns (handled: Device)
    requires Round(d, s, arrivals).Some?
    ensures HandleAll(d, s, arrivals) == Some(handled) && handled.timer == d.timer
    ensures Round(d, s, arrivals) == Some(RestOfRound(handled, s))
  {
    HandleAllKeepsTime(d, s, arrivals);
    handled := HandleAll(d, s, arrivals).value;
  }

  lemma RoundAdvances(d: Device, s: Settings, arrivals: seq<Incoming>)
    requires Round(d, s, arrivals).Some?
    ensures Round(d, s, arrivals).value.timer == d.timer + 1
  {
    var handled, counted := RoundParts(d, s, arrivals);
  }

  lemma RoundsGoOn(d: Device, s: Settings, arrivals: nat -> seq<Incoming>, t: nat, before: Device, last: nat)
    requires t < last && Rounds(d, s, arrivals, t) == Some(before)
    ensures Rounds(d, s, arrivals, t + 1) == Round(before, s, arrivals(t))
    ensures Round(before, s, arrivals(t)).Some? ==> Round(before, s, arrivals(t)).value.timer == before.timer + 1
    ensures Round(before, s, arrivals(t)).None? ==> Rounds(d, s, arrivals, last).None?
  {
    if Round(before, s, arrivals(t)).None? {
      IterateStays(d, RoundStep(s, arrivals), t + 1, last);
    } else {
      RoundAdvances(before, s, arrivals(t));
    }
  }

  // ----- when the node enters and leaves

  /** A finish comes right after an enter, `csTime` rounds later. */
  ghost predicate InTurn(sections: seq<Stamped>, csTime: nat, i: nat)
    requires i < |sections|
  {
    sections[i].what == FinishCS ==>
      i > 0 && sections[i - 1].what == AccessCS && sections[i].at == sections[i - 1].at + csTime + 1
  }

  ghost predicate FinishesInTime(sections: seq<Stamped>, csTime: nat) {
    forall i :: 0 <= i < |sections| ==> InTurn(sections, csTime, i)
  }

  /** A node inside has entered last, and its countdown started then. */
  ghost predicate Counting(sections: seq<Stamped>, d: Device, s: Settings) {
    d.node.inCS ==>
      && sections != [] && sections[|sections| - 1].what == AccessCS
      && sections[|sections| - 1].at + s.csTime == d.timer + d.csTimer
  }

  ghost predicate Punctual(d: Device, s: Settings) {
    FinishesInTime(Sections(d.control), s.csTime) && Counting(Sections(d.control), d, s)
  }

  lemma LogSections(d: Device, what: Control)
    ensures Sections(Log(d, what).control) ==
            if what.RequestCS? then Sections(d.control) else Sections(d.control) + [Stamped(d.timer, what)]
  {
    assert (d.control + [Stamped(d.timer, what)])[..|d.control|] == d.control;
  }

  lemma InTimeOn(sections: seq<Stamped>, csTime: nat, next: Stamped)
    requires FinishesInTime(sections, csTime)
    requires next.what == FinishCS ==>
               sections != [] && sections[|sections| - 1].what == AccessCS
               && next.at == sections[|sections| - 1].at + csTime + 1
    ensures FinishesInTime(sections + [next], csTime)
  {
    var more := sections + [next];
    forall i | 0 <= i < |more| ensures InTurn(more, csTime, i) {
      if i < |sections| {
        assert InTurn(sections, csTime, i);
      }
    }
  }

  /** A node is inside after an event only if it was before or the event let it in. */
  lemma EntersByAccess(n: Node, e: Event)
    ensures Effect(n, e).entered ==> Effect(n, e).node.inCS
    ensures Effect(n, e).node.inCS ==> n.inCS || Effect(n, e).entered
    ensures e.Left? ==> !Effect(n, e).node.inCS && !Effect(n, e).entered
  {
  }

  lemma BecomeIsPunctual(d: Device, e: Event, s: Settings)
    requires FinishesInTime(Sections(d.control), s.csTime)
    requires Effect(d.node, e).node.inCS && !Effect(d.node, e).entered ==> Punctual(d, s)
    ensures Punctual(Become(d, Effect(d.node, e), s), s)
  {
    EntersByAccess(d.node, e);
    OutcomeIsPunctual(d, Effect(d.node, e), s);
  }

  lemma OutcomeIsPunctual(d: Device, o: Outcome, s: Settings)
    requires FinishesInTime(Sections(d.control), s.csTime)
    requires o.node.inCS && !o.entered ==> d.node.inCS && Punctual(d, s)
    ensures Punctual(Become(d, o, s), s)
  {
    LogSections(d, AccessCS);
    InTimeOn(Sections(d.control), s.csTime, Stamped(d.timer, AccessCS));
  }

  lemma {:induction false} HandleAllIsPunctual(d: Device, s: Settings, arrivals: seq<Incoming>)
    requires Punctual(d, s) && HandleAll(d, s, arrivals).Some?
    ensures Punctual(HandleAll(d, s, arrivals).value, s)
    decreases |arrivals|
  {
    if arrivals != [] {
      var es := EventsOf(arrivals[0]).value;
      if es != [] {
        BecomeIsPunctual(d, es[0], s);
      }
      HandleAllIsPunctual(Handle(d, s, es), s, arrivals[1..]);
    }
  }

  lemma CountDownIsPunctual(d: Device, s: Settings)
    requires Punctual(d, s)
    ensures Punctual(CountDown(d.(timer := d.timer + 1), s), s)
  {
    var later := d.(timer := d.timer + 1);
    if later.csTimer == 0 && later.node.inCS {
      LogSections(later, FinishCS);
      InTimeOn(Sections(d.control), s.csTime, Stamped(later.timer, FinishCS));
      BecomeIsPunctual(Log(later, FinishCS), Left, s);
    }
  }

  lemma AskIsPunctual(d: Device, s: Settings)
    requires Punctual(d, s)
    ensures Punctual(AskIfScheduled(d, s), s)
  {
    if d.timer in s.schedule {
      LogSections(d, RequestCS);
      BecomeIsPunctual(Counted(d), Asked, s);
    }
  }

  lemma RoundIsPunctual(d: Device, s: Settings, arrivals: seq<Incoming>, t: Device)
    requires Punctual(d, s) && Round(d, s, arrivals) == Some(t)
    ensures Punctual(t, s)
  {
    var handled, counted := RoundParts(d, s, arrivals);
    HandleAllIsPunctual(d, s, arrivals);
    CountDownIsPunctual(handled, s);
    AskIsPunctual(counted, s);
  }

  /** After any number of rounds of a node that starts outside: every finish message follows an enter
      message by exactly `csTime` rounds with no other in between, and a node that is inside entered
      last, no more than `csTime` rounds ago. */
  lemma RunIsPunctual(d: Device, s: Settings, arrivals: nat -> seq<Incoming>, n: nat, t: Device)
    requires !d.node.inCS && d.control == [] && Rounds(d, s, arrivals, n) == Some(t)
    ensures Punctual(t, s)
  {
    var step, good := RoundStep(s, arrivals), (k: nat, b: Device) => Punctual(b, s);
    forall k: nat, b: Device | good(k, b) && step(b, k).Some? ensures good(k + 1, step(b, k).value) {
      RoundIsPunctual(b, s, arrivals(k), step(b, k).value);
    }
    IterateKeeps(d, step, good, n);
  }
}
