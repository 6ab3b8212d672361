/** The main loop of a voting node as a history: what arrives is received in order, one request is
    issued per schedule entry passed, and what has been sent and logged follows from that. */
module MakLoop {
  import opened Priority
  import opened ControlLog
  import opened MakProtocol
  import opened MakTimed
  import opened MakHistory
  import opened MakDuties
  import opened Iteration
  import opened Options
  import opened Sums

  // ----- what a history logs and receives

  function Logged(n: Node, h: seq<Event>): seq<Control>
    requires Possible(n, h)
    decreases |h|
  {
    if h == [] then [] else Logged(n, Init(h)) + Effect(State(n, Init(h)), Last(h)).control
  }

  function Received(h: seq<Event>): seq<Arrival>
    decreases |h|
  {
    if h == [] then []
    else Received(Init(h)) + if Last(h).Got? then [Arrival(Last(h).msg, Last(h).unset)] else []
  }

  /** All arrivals of the first `n` rounds. */
  function Arrived(arrivals: nat -> seq<Arrival>, n: nat): seq<Arrival> {
    if n == 0 then [] else Arrived(arrivals, n - 1) + arrivals(n - 1)
  }

  /** What can be seen of a node: itself, what it has sent and what it has logged. */
  datatype Trace = Trace(node: Node, sent: multiset<Packet>, control: seq<Control>)

  function TraceOf(t: Device): Trace {
    Trace(t.node, t.sent, Controls(t.control))
  }

  function TraceAfter(d: Device, h: seq<Event>): Trace
    requires Possible(d.node, h)
  {
    Trace(State(d.node, h), d.sent + Sent(d.node, h), Controls(d.control) + Logged(d.node, h))
  }

  /** `h` has made `t` of `d`. */
  ghost predicate Lived(d: Device, h: seq<Event>, t: Device) {
    Possible(d.node, h) && TraceOf(t) == TraceAfter(d, h)
  }

  lemma LoggedMore(n: Node, h: seq<Event>, e: Event)
    requires Possible(n, h) && Defined(State(n, h), e)
    ensures Possible(n, h + [e]) && Logged(n, h + [e]) == Logged(n, h) + Effect(State(n, h), e).control
  {
    OneMore(n, h, e);
    assert Init(h + [e]) == h && Last(h + [e]) == e;
  }

  lemma EventMore(h: seq<Event>, e: Event)
    ensures Received(h + [e]) == Received(h) + if e.Got? then [Arrival(e.msg, e.unset)] else []
    ensures TimesIssued(h + [e]) == TimesIssued(h) + One(e.Issued?)
  {
    assert Init(h + [e]) == h && Last(h + [e]) == e;
  }

  lemma LivesOn(d: Device, h: seq<Event>, b: Device, e: Event, t: Device)
    requires Lived(d, h, b) && Defined(b.node, e)
    requires t.node == Effect(b.node, e).node && t.sent == b.sent + Effect(b.node, e).sent
    requires Controls(t.control) == Controls(b.control) + Effect(b.node, e).control
    ensures Lived(d, h + [e], t)
  {
    OneMore(d.node, h, e);
    LoggedMore(d.node, h, e);
    LifeGrows(d, h, h + [e], b, Effect(b.node, e), t);
  }

  lemma LifeGrows(d: Device, h: seq<Event>, g: seq<Event>, b: Device, o: Outcome, t: Device)
    requires Lived(d, h, b) && Possible(d.node, g) && State(d.node, g) == o.node
    requires Sent(d.node, g) == Sent(d.node, h) + o.sent && Logged(d.node, g) == Logged(d.node, h) + o.control
    requires t.node == o.node && t.sent == b.sent + o.sent && Controls(t.control) == Controls(b.control) + o.control
    ensures Lived(d, g, t)
  {
    BagsRegroup(d.sent, Sent(d.node, h), o.sent);
    Regroup(Controls(d.control), Logged(d.node, h), o.control);
  }

  lemma BecomeLivesOn(d: Device, h: seq<Event>, b: Device, e: Event)
    requires Lived(d, h, b) && Defined(b.node, e)
    ensures Lived(d, h + [e], Become(b, Effect(b.node, e)))
  {
    BecomeAppends(b, Effect(b.node, e));
    LivesOn(d, h, b, e, Become(b, Effect(b.node, e)));
  }

  lemma BecomeAppends(b: Device, o: Outcome)
    ensures Controls(Become(b, o).control) == Controls(b.control) + o.control
  {
  }

  lemma SameLife(d: Device, h: seq<Event>, b: Device, t: Device)
    requires Lived(d, h, b) && t.node == b.node && t.sent == b.sent && t.control == b.control
    ensures Lived(d, h, t)
  {
  }

  // ----- a round

  lemma {:induction false} HandlingIsHistory(d: Device, h: seq<Event>, b: Device, s: Settings,
      arrivals: seq<Arrival>, t: Device) returns (more: seq<Event>)
    requires Lived(d, h, b) && HandleAll(b, s, arrivals) == Some(t)
    ensures Lived(d, more, t) && t.timer == b.timer
    ensures Received(more) == Received(h) + arrivals && TimesIssued(more) == TimesIssued(h)
    decreases |arrivals|
  {
    if arrivals == [] {
      more := h;
    } else {
      HandlingLivesOn(d, h, b, s, arrivals[0]);
      var next, rest := h + [Got(arrivals[0].msg, arrivals[0].unset)], arrivals[1..];
      more := HandlingIsHistory(d, next, Handle(b, s, arrivals[0]), s, rest, t);
      Regroup(Received(h), [arrivals[0]], rest);
      assert [arrivals[0]] + rest == arrivals;
    }
  }

  lemma HandlingLivesOn(d: Device, h: seq<Event>, b: Device, s: Settings, a: Arrival)
    requires Lived(d, h, b) && CanReceive(b.node, a.msg)
    ensures Lived(d, h + [Got(a.msg, a.unset)], Handle(b, s, a)) && Handle(b, s, a).timer == b.timer
    ensures Received(h + [Got(a.msg, a.unset)]) == Received(h) + [a]
    ensures TimesIssued(h + [Got(a.msg, a.unset)]) == TimesIssued(h)
  {
    var e := Got(a.msg, a.unset);
    BecomeLivesOn(d, h, b, e);
    SameLife(d, h + [e], Become(b, Effect(b.node, e)), Handle(b, s, a));
    EventMore(h, e);
  }

  lemma CountingIsHistory(d: Device, h: seq<Event>, b: Device, t: Device) returns (more: seq<Event>)
    requires Lived(d, h, b) && CountDown(b) == Some(t)
    ensures Lived(d, more, t) && t.timer == b.timer
    ensures Received(more) == Received(h) && TimesIssued(more) == TimesIssued(h)
  {
    if Expired(b) {
      more := h + [Finished];
      BecomeLivesOn(d, h, b, Finished);
      EventMore(h, Finished);
    } else {
      more := h;
      SameLife(d, h, b, t);
    }
  }

  lemma AskingIsHistory(d: Device, h: seq<Event>, b: Device, s: Settings) returns (more: seq<Event>)
    requires Lived(d, h, b)
    ensures Lived(d, more, AskIfScheduled(b, s)) && AskIfScheduled(b, s).timer == b.timer
    ensures Received(more) == Received(h) && TimesIssued(more) == TimesIssued(h) + One(b.timer in s.schedule)
  {
    if b.timer in s.schedule {
      more := h + [Issued];
      BecomeLivesOn(d, h, b, Issued);
      SameLife(d, more, Become(b, Effect(b.node, Issued)), AskIfScheduled(b, s));
      EventMore(h, Issued);
    } else {
      more := h;
    }
  }

  lemma RoundIsHistory(d: Device, h: seq<Event>, b: Device, s: Settings, arrivals: seq<Arrival>, t: Device)
    returns (more: seq<Event>)
    requires Lived(d, h, b) && Round(b, s, arrivals) == Some(t)
    ensures Lived(d, more, t) && t.timer == b.timer + 1
    ensures Received(more) == Received(h) + arrivals
    ensures TimesIssued(more) == TimesIssued(h) + One(t.timer in s.schedule)
  {
    var handled, counted := RoundParts(b, s, arrivals);
    var first := HandlingIsHistory(d, h, b, s, arrivals, handled);
    var later := handled.(timer := handled.timer + 1);
    SameLife(d, first, handled, later);
    var second := CountingIsHistory(d, first, later, counted);
    more := AskingIsHistory(d, second, counted, s);
  }

  // ----- all rounds

  /** The events are all that arrived in `n` rounds, in order, and one request per schedule entry passed. */
  ghost predicate AsArrivedAndScheduled(s: Settings, arrivals: nat -> seq<Arrival>, n: nat, h: seq<Event>) {
    Received(h) == Arrived(arrivals, n) && TimesIssued(h) == |ScheduledUpTo(s.schedule, n)|
  }

  lemma NothingYet(d: Device, s: Settings, arrivals: nat -> seq<Arrival>)
    ensures Lived(d, [], d) && AsArrivedAndScheduled(s, arrivals, 0, [])
  {
    ScheduleStep(s.schedule, 0);
    assert Controls(d.control) + [] == Controls(d.control);
  }

  lemma LastRound(d: Device, s: Settings, arrivals: nat -> seq<Arrival>, n: nat, t: Device)
    returns (before: Device, arr: seq<Arrival>)
    requires n > 0 && Rounds(d, s, arrivals, n) == Some(t)
    ensures Rounds(d, s, arrivals, n - 1) == Some(before) && Round(before, s, arr) == Some(t)
    ensures Arrived(arrivals, n) == Arrived(arrivals, n - 1) + arr
    ensures |ScheduledUpTo(s.schedule, n)| == |ScheduledUpTo(s.schedule, n - 1)| + One(n in s.schedule)
  {
    ScheduleStep(s.schedule, n);
    before, arr := Rounds(d, s, arrivals, n - 1).value, arrivals(n - 1);
  }

  /** The main loop is a history: after any number of rounds the node is what its events make of it,
      it has received all that arrived, in order, it has issued one request per schedule entry
      passed, and it has sent and logged what its events send and log. */
  lemma {:induction false} LoopIsHistory(d: Device, s: Settings, arrivals: nat -> seq<Arrival>, n: nat, t: Device)
    returns (h: seq<Event>)
    requires d.timer == 0 && Rounds(d, s, arrivals, n) == Some(t)
    ensures Lived(d, h, t) && t.timer == n && AsArrivedAndScheduled(s, arrivals, n, h)
    decreases n
  {
    if n == 0 {
      h := [];
      NothingYet(d, s, arrivals);
    } else {
      var before, arr := LastRound(d, s, arrivals, n, t);
      var g := LoopIsHistory(d, s, arrivals, n - 1, before);
      h := RoundIsHistory(d, g, before, s, arr, t);
    }
  }

  // ----- the requests of the schedule

  /** Every number a history has used has been sent to every other member. */
  lemma {:induction false} EveryNumberIsSent(n: Node, h: seq<Event>, k: int, q: int)
    requires Possible(n, h) && n.nextSeq <= k < n.nextSeq + TimesIssued(h) && IsOther(n, q)
    ensures Packet(q, Request(Key(k, n.id))) in Sent(n, h)
    decreases |h|
  {
    NumbersUsed(n, Init(h));
    var before := State(n, Init(h));
    if Last(h).Issued? && k == before.nextSeq {
      IssueSends(before, Packet(q, Request(Key(k, n.id))));
    } else {
      EveryNumberIsSent(n, Init(h), k, q);
    }
  }

  lemma {:induction false} NumbersUsed(n: Node, h: seq<Event>)
    requires Possible(n, h)
    ensures var t := State(n, h);
            t.id == n.id && t.quorum == n.quorum && t.nextSeq == n.nextSeq + TimesIssued(h)
    decreases |h|
  {
    if h != [] {
      NumbersUsed(n, Init(h));
      EffectKeeps(State(n, Init(h)), Last(h));
    }
  }

  lemma {:induction false} LogCountsRequests(n: Node, h: seq<Event>)
    requires Possible(n, h)
    ensures ControlCount(Logged(n, h)) == RequestCount(Sent(n, h))
    decreases |h|
  {
    if h != [] {
      var before := State(n, Init(h));
      LogCountsRequests(n, Init(h));
      ControlPerRequest(before, Last(h));
      ControlsAdd(Logged(n, Init(h)), Effect(before, Last(h)).control);
      CountsAdd(Sent(n, Init(h)), Effect(before, Last(h)).sent);
    }
  }

  /** The request of the schedule entry `r`, numbered by its rank, on its way to `q`. */
  function RequestOfEntry(d: Device, s: Settings, r: nat, q: int): Packet {
    Packet(q, Request(Key(d.node.nextSeq + |ScheduledUpTo(s.schedule, r)| - 1, d.node.id)))
  }

  /** `t` has used one number per schedule entry passed, and has sent the request numbered by an
      entry's rank to every other member. */
  ghost predicate AllAsked(d: Device, s: Settings, n: nat, t: Device) {
    && t.node.nextSeq == d.node.nextSeq + |ScheduledUpTo(s.schedule, n)|
    && forall r: nat, q :: r in s.schedule && 1 <= r <= n && IsOther(d.node, q) ==> RequestOfEntry(d, s, r, q) in t.sent
  }

  /** The schedule is kept after any number of rounds, and every REQUEST sent has been logged by one
      control message. */
  lemma ScheduleIsKept(d: Device, s: Settings, arrivals: nat -> seq<Arrival>, n: nat, t: Device)
    requires d.timer == 0 && d.control == [] && d.sent == multiset{}
    requires Rounds(d, s, arrivals, n) == Some(t)
    ensures AllAsked(d, s, n, t)
    ensures ControlCount(Controls(t.control)) == RequestCount(t.sent)
  {
    var h := LoopIsHistory(d, s, arrivals, n, t);
    NumbersUsed(d.node, h);
    forall r: nat, q | r in s.schedule && 1 <= r <= n && IsOther(d.node, q)
      ensures RequestOfEntry(d, s, r, q) in t.sent
    {
      EntryIsSent(d, s, arrivals, n, h, t, r, q);
    }
    AllAreLogged(d, h, t);
  }

  /** From any clock that the main loop resets. */
  lemma ResetKeepsSchedule(d: Device, s: Settings, arrivals: nat -> seq<Arrival>, n: nat, t: Device)
    requires d.control == [] && d.sent == multiset{}
    requires Rounds(d.(timer := 0, csTimer := 0), s, arrivals, n) == Some(t)
    ensures AllAsked(d, s, n, t)
    ensures ControlCount(Controls(t.control)) == RequestCount(t.sent)
  {
    var start := d.(timer := 0, csTimer := 0);
    ScheduleIsKept(start, s, arrivals, n, t);
    assert forall r, q :: RequestOfEntry(d, s, r, q) == RequestOfEntry(start, s, r, q);
  }

  lemma EntryIsSent(d: Device, s: Settings, arrivals: nat -> seq<Arrival>, n: nat, h: seq<Event>, t: Device,
      r: nat, q: int)
    requires Lived(d, h, t) && AsArrivedAndScheduled(s, arrivals, n, h)
    requires r in s.schedule && 1 <= r <= n && IsOther(d.node, q)
    ensures RequestOfEntry(d, s, r, q) in t.sent
  {
    EarlierIsLess(s.schedule, r, n);
    EveryNumberIsSent(d.node, h, RequestOfEntry(d, s, r, q).msg.key.seqno, q);
  }

  lemma FromNothing(none: seq<Control>, log: seq<Control>, nothing: multiset<Packet>, sent: multiset<Packet>)
    requires none == [] && nothing == multiset{}
    ensures none + log == log && nothing + sent == sent
  {
  }

  lemma AllAreLogged(d: Device, h: seq<Event>, t: Device)
    requires Lived(d, h, t) && d.control == [] && d.sent == multiset{}
    ensures ControlCount(Controls(t.control)) == RequestCount(t.sent)
  {
    LogCountsRequests(d.node, h);
    FromNothing(Controls(d.control), Logged(d.node, h), d.sent, Sent(d.node, h));
  }
}
