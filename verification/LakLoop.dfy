/** The main loop of a token node as a history: what arrives is handled in order, and the node asks
    once per schedule entry passed. */
module LakLoop {
  import opened ControlLog
  import opened Iteration
  import opened LakProtocol
  import opened LakHistory
  import opened LakDuties
  import opened LakTimed
  import opened Options
  import opened Sums

  // ----- what a history receives, asks and logs

  /** The letters and tokens among the events. */
  function Received(h: seq<Event>): seq<Event>
    decreases |h|
  {
    if h == [] then [] else Received(Init(h)) + if Last(h).Letter? || Last(h).Arrival? then [Last(h)] else []
  }

  function TimesAsked(h: seq<Event>): nat
    decreases |h|
  {
    if h == [] then 0 else TimesAsked(Init(h)) + One(Last(h).Asked?)
  }

  /** One message for asking, one for leaving, and one for each entry. */
  function Logs(n: Node, e: Event): seq<Control> {
    (if e.Asked? then [RequestCS] else if e.Left? then [FinishCS] else [])
    + if Effect(n, e).entered then [AccessCS] else []
  }

  function Logged(n: Node, h: seq<Event>): seq<Control>
    decreases |h|
  {
    if h == [] then [] else Logged(n, Init(h)) + Logs(State(n, Init(h)), Last(h))
  }

  /** The events that the texts of the first `n` rounds amount to; a text of unknown type is none. */
  function EventsOfAll(arrivals: seq<Incoming>): seq<Event> {
    if arrivals == [] then [] else
    match EventsOf(arrivals[0])
    case None => []
    case Some(es) => es + EventsOfAll(arrivals[1..])
  }

  function Arrived(arrivals: nat -> seq<Incoming>, n: nat): seq<Event> {
    if n == 0 then [] else Arrived(arrivals, n - 1) + EventsOfAll(arrivals(n - 1))
  }

  /** What can be seen of a node: itself, what it has sent, what it has logged and how many requests it
      has counted. */
  datatype Trace = Trace(
    node: Node, tokens: multiset<Token>, mail: multiset<Mail>, control: seq<Control>, requests: nat)

  function TraceOf(t: Device): Trace {
    Trace(t.node, t.tokens, t.mail, Controls(t.control), t.requests)
  }

  function TraceAfter(d: Device, h: seq<Event>): Trace {
    Trace(State(d.node, h), d.tokens + SentTokens(d.node, h), d.mail + SentMail(d.node, h),
          Controls(d.control) + Logged(d.node, h), d.requests + TimesAsked(h))
  }

  /** `h` has made `t` of `d`. */
  ghost predicate Lived(d: Device, h: seq<Event>, t: Device) {
    TraceOf(t) == TraceAfter(d, h)
  }

  lemma HistoryMore(n: Node, h: seq<Event>, e: Event)
    ensures State(n, h + [e]) == Effect(State(n, h), e).node
    ensures SentTokens(n, h + [e]) == SentTokens(n, h) + Effect(State(n, h), e).tokens
    ensures SentMail(n, h + [e]) == SentMail(n, h) + Effect(State(n, h), e).mail
    ensures Logged(n, h + [e]) == Logged(n, h) + Logs(State(n, h), e)
    ensures Received(h + [e]) == Received(h) + if e.Letter? || e.Arrival? then [e] else []
    ensures TimesAsked(h + [e]) == TimesAsked(h) + One(e.Asked?)
  {
    assert Init(h + [e]) == h && Last(h + [e]) == e;
  }

  lemma LifeGrows(d: Device, h: seq<Event>, g: seq<Event>, b: Device, o: Outcome, logs: seq<Control>, t: Device)
    requires Lived(d, h, b) && State(d.node, g) == o.node
    requires SentTokens(d.node, g) == SentTokens(d.node, h) + o.tokens
    requires SentMail(d.node, g) == SentMail(d.node, h) + o.mail
    requires Logged(d.node, g) == Logged(d.node, h) + logs
    requires t.node == o.node && t.tokens == b.tokens + o.tokens && t.mail == b.mail + o.mail
    requires Controls(t.control) == Controls(b.control) + logs
    requires t.requests == d.requests + TimesAsked(g)
    ensures Lived(d, g, t)
  {
    BagsRegroup(d.tokens, SentTokens(d.node, h), o.tokens);
    BagsRegroup(d.mail, SentMail(d.node, h), o.mail);
    Regroup(Controls(d.control), Logged(d.node, h), logs);
  }

  lemma LivesOn(d: Device, h: seq<Event>, b: Device, e: Event, t: Device)
    requires Lived(d, h, b)
    requires var o := Effect(b.node, e);
             t.node == o.node && t.tokens == b.tokens + o.tokens && t.mail == b.mail + o.mail
    requires Controls(t.control) == Controls(b.control) + Logs(b.node, e)
    requires t.requests == b.requests + One(e.Asked?)
    ensures Lived(d, h + [e], t)
  {
    HistoryMore(d.node, h, e);
    LifeGrows(d, h, h + [e], b, Effect(b.node, e), Logs(b.node, e), t);
  }

  lemma SameLife(d: Device, h: seq<Event>, b: Device, t: Device)
    requires Lived(d, h, b) && t.node == b.node && t.tokens == b.tokens && t.mail == b.mail
    requires t.control == b.control && t.requests == b.requests
    ensures Lived(d, h, t)
  {
  }

  lemma LogAppends(d: Device, what: Control)
    ensures Controls(Log(d, what).control) == Controls(d.control) + [what]
  {
  }

  lemma BecomeAppends(d: Device, o: Outcome, s: Settings)
    ensures Controls(Become(d, o, s).control) == Controls(d.control) + if o.entered then [AccessCS] else []
  {
    LogAppends(d, AccessCS);
  }

  // ----- a round

  lemma HandlingLivesOn(d: Device, h: seq<Event>, b: Device, s: Settings, e: Event)
    requires Lived(d, h, b) && (e.Letter? || e.Arrival?)
    ensures Lived(d, h + [e], Become(b, Effect(b.node, e), s))
  {
    BecomeAppends(b, Effect(b.node, e), s);
    LivesOn(d, h, b, e, Become(b, Effect(b.node, e), s));
  }

  lemma {:induction false} HandlingIsHistory(d: Device, h: seq<Event>, b: Device, s: Settings,
      arrivals: seq<Incoming>, t: Device) returns (more: seq<Event>)
    requires Lived(d, h, b) && HandleAll(b, s, arrivals) == Some(t)
    ensures Lived(d, more, t)
    ensures Received(more) == Received(h) + EventsOfAll(arrivals) && TimesAsked(more) == TimesAsked(h)
    decreases |arrivals|
  {
    if arrivals == [] {
      more := h;
    } else {
      var es := EventsOf(arrivals[0]).value;
      var next := h + es;
      HandlingOneMore(d, h, b, s, es);
      more := HandlingIsHistory(d, next, Handle(b, s, es), s, arrivals[1..], t);
      Regroup(Received(h), es, EventsOfAll(arrivals[1..]));
    }
  }

  lemma HandlingOneMore(d: Device, h: seq<Event>, b: Device, s: Settings, es: seq<Event>)
    requires Lived(d, h, b) && (es == [] || (es == [es[0]] && (es[0].Letter? || es[0].Arrival?)))
    ensures Lived(d, h + es, Handle(b, s, es))
    ensures Received(h + es) == Received(h) + es && TimesAsked(h + es) == TimesAsked(h)
  {
    if es == [] {
      assert h + es == h;
    } else {
      HistoryMore(d.node, h, es[0]);
      HandlingLivesOn(d, h, b, s, es[0]);
    }
  }

  lemma CountingIsHistory(d: Device, h: seq<Event>, b: Device, s: Settings) returns (more: seq<Event>)
    requires Lived(d, h, b)
    ensures Lived(d, more, CountDown(b, s))
    ensures Received(more) == Received(h) && TimesAsked(more) == TimesAsked(h)
  {
    if b.csTimer == 0 && b.node.inCS {
      more := h + [Left];
      HistoryMore(d.node, h, Left);
      LogAppends(b, FinishCS);
      BecomeAppends(Log(b, FinishCS), Effect(b.node, Left), s);
      Regroup(Controls(b.control), [FinishCS], if Effect(b.node, Left).entered then [AccessCS] else []);
      LivesOn(d, h, b, Left, CountDown(b, s));
    } else {
      more := h;
      SameLife(d, h, b, CountDown(b, s));
    }
  }

  lemma AskingIsHistory(d: Device, h: seq<Event>, b: Device, s: Settings) returns (more: seq<Event>)
    requires Lived(d, h, b)
    ensures Lived(d, more, AskIfScheduled(b, s))
    ensures Received(more) == Received(h) && TimesAsked(more) == TimesAsked(h) + One(b.timer in s.schedule)
  {
    if b.timer in s.schedule {
      more := h + [Asked];
      HistoryMore(d.node, h, Asked);
      LogAppends(b, RequestCS);
      BecomeAppends(Counted(b), Effect(b.node, Asked), s);
      Regroup(Controls(b.control), [RequestCS], if Effect(b.node, Asked).entered then [AccessCS] else []);
      LivesOn(d, h, b, Asked, AskIfScheduled(b, s));
    } else {
      more := h;
    }
  }

  lemma RoundIsHistory(d: Device, h: seq<Event>, b: Device, s: Settings, arrivals: seq<Incoming>, t: Device)
    returns (more: seq<Event>)
    requires Lived(d, h, b) && Round(b, s, arrivals) == Some(t)
    ensures Lived(d, more, t) && t.timer == b.timer + 1
    ensures Received(more) == Received(h) + EventsOfAll(arrivals)
    ensures TimesAsked(more) == TimesAsked(h) + One(t.timer in s.schedule)
  {
    var handled, counted := RoundParts(b, s, arrivals);
    var first := HandlingIsHistory(d, h, b, s, arrivals, handled);
    var later := handled.(timer := handled.timer + 1);
    SameLife(d, first, handled, later);
    var second := CountingIsHistory(d, first, later, s);
    more := AskingIsHistory(d, second, counted, s);
  }

  // ----- all rounds

  /** The events are all that arrived in `n` rounds, in order, and one request per schedule entry passed. */
  ghost predicate AsArrivedAndScheduled(s: Settings, arrivals: nat -> seq<Incoming>, n: nat, h: seq<Event>) {
    Received(h) == Arrived(arrivals, n) && TimesAsked(h) == |ScheduledUpTo(s.schedule, n)|
  }

  lemma NothingYet(d: Device, s: Settings, arrivals: nat -> seq<Incoming>)
    ensures Lived(d, [], d) && AsArrivedAndScheduled(s, arrivals, 0, [])
  {
    ScheduleStep(s.schedule, 0);
    assert Controls(d.control) + [] == Controls(d.control);
  }

  lemma LastRound(d: Device, s: Settings, arrivals: nat -> seq<Incoming>, n: nat, t: Device)
    returns (before: Device, arr: seq<Incoming>)
    requires n > 0 && Rounds(d, s, arrivals, n) == Some(t)
    ensures Rounds(d, s, arrivals, n - 1) == Some(before) && Round(before, s, arr) == Some(t)
    ensures Arrived(arrivals, n) == Arrived(arrivals, n - 1) + EventsOfAll(arr)
    ensures |ScheduledUpTo(s.schedule, n)| == |ScheduledUpTo(s.schedule, n - 1)| + One(n in s.schedule)
  {
    ScheduleStep(s.schedule, n);
    before, arr := Rounds(d, s, arrivals, n - 1).value, arrivals(n - 1);
  }

  /** The main loop is a history: after any number of rounds the node is what its events make of it, it
      has handled all that arrived, in order, it has asked once per schedule entry passed, and it has
      sent and logged what its events send and log. */
  lemma {:induction false} LoopIsHistory(d: Device, s: Settings, arrivals: nat -> seq<Incoming>, n: nat, t: Device)
    returns (h: seq<Event>)
    requires d.timer == 0 && Rounds(d, s, arrivals, n) == Some(t)
    ensures Lived(d, h, t) && t.timer == n && AsArrivedAndScheduled(s, arrivals, n, h)
    decreases n
  {
    if n == 0 {
      h := [];
      NothingYet(d, s, arrivals);
    } else {
      var before, arr := LastRound(d, s, arrivals, n, t);
      var g := LoopIsHistory(d, s, arrivals, n - 1, before);
      h := RoundIsHistory(d, g, before, s, arr, t);
    }
  }

  // ----- what has been logged

  lemma {:induction false} AskedIsLogged(n: Node, h: seq<Event>)
    ensures ControlCount(Logged(n, h)) == TimesAsked(h)
    decreases |h|
  {
    if h != [] {
      AskedIsLogged(n, Init(h));
      ControlsAdd(Logged(n, Init(h)), Logs(State(n, Init(h)), Last(h)));
      LogsOnce(n, Last(h), Effect(State(n, Init(h)), Last(h)).entered);
    }
  }

  lemma LogsOnce(n: Node, e: Event, entered: bool)
    ensures var first := if e.Asked? then [RequestCS] else if e.Left? then [FinishCS] else [];
            ControlCount(first + if entered then [AccessCS] else []) == One(e.Asked?)
  {
    var first := if e.Asked? then [RequestCS] else if e.Left? then [FinishCS] else [];
    assert [RequestCS][..0] == [] && [FinishCS][..0] == [] && [AccessCS][..0] == [];
    ControlsAdd(first, if entered then [AccessCS] else []);
  }

  /** One request counted and one control message per schedule entry passed, whether a request was sent
      or not. */
  lemma EntriesAreLogged(d: Device, s: Settings, arrivals: nat -> seq<Incoming>, n: nat, t: Device)
    requires d.timer == 0 && d.control == [] && Rounds(d, s, arrivals, n) == Some(t)
    ensures t.requests == d.requests + |ScheduledUpTo(s.schedule, n)|
    ensures ControlCount(Controls(t.control)) == |ScheduledUpTo(s.schedule, n)|
  {
    var h := LoopIsHistory(d, s, arrivals, n, t);
    AskedIsLogged(d.node, h);
    FromNothing(Controls(d.control), Logged(d.node, h));
  }

  lemma FromNothing(none: seq<Control>, log: seq<Control>)
    requires none == []
    ensures none + log == log
  {
  }
}
