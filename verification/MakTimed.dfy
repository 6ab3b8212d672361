/** The main loop of a Maekawa node as a function of what arrives: one round handles the
    arrivals, advances the clock, counts down the critical section and issues the scheduled
    request. */
module MakTimed {
  import opened Priority
  import opened ControlLog
  import opened MakProtocol
  import opened Iteration
  import opened Options

  datatype Arrival = Arrival(msg: Message, unset: int)

  /** A node with its clock and everything it has handed to the network so far. */
  datatype Device = Device(
    node: Node,
    timer: nat,
    csTimer: nat,
    requests: nat,
    control: seq<Stamped>,
    sent: multiset<Packet>)

  function Become(d: Device, o: Outcome): Device {
    d.(node := o.node, control := d.control + Stamp(d.timer, o.control), sent := d.sent + o.sent)
  }

  function Handle(d: Device, s: Settings, a: Arrival): Device
    requires CanReceive(d.node, a.msg)
  {
    var o := Receive(d.node, a.msg, a.unset);
    Become(d, o).(csTimer := if o.node.inCS && !d.node.inCS then s.csTime else d.csTimer)
  }

  function HandleAll(d: Device, s: Settings, arrivals: seq<Arrival>): Option<Device>
    decreases |arrivals|
  {
    if arrivals == [] then Some(d)
    else if !CanReceive(d.node, arrivals[0].msg) then None
    else HandleAll(Handle(d, s, arrivals[0]), s, arrivals[1..])
  }

  predicate Expired(d: Device) {
    d.csTimer == 0 && d.node.inCS
  }

  function CountDown(d: Device): Option<Device> {
    if Expired(d) then
      if d.node.waiting == {} then None else Some(Become(d, Leave(d.node)))
    else if d.csTimer > 0 then Some(d.(csTimer := d.csTimer - 1))
    else Some(d)
  }

  function AskIfScheduled(d: Device, s: Settings): Device {
    if d.timer in s.schedule then Become(d, SendRequest(d.node)).(requests := d.requests + 1) else d
  }

  /** None when the round reads or erases the first entry of an empty queue. */
  function Round(d: Device, s: Settings, arrivals: seq<Arrival>): Option<Device> {
    var handled := HandleAll(d, s, arrivals);
    if handled.None? then None else RestOfRound(handled.value, s)
  }

  /** After the arrivals have been handled. */
  function RestOfRound(handled: Device, s: Settings): Option<Device> {
    var counted := CountDown(handled.(timer := handled.timer + 1));
    if counted.None? then None else Some(AskIfScheduled(counted.value, s))
  }

  function RoundStep(s: Settings, arrivals: nat -> seq<Arrival>): (Device, nat) -> Option<Device> {
    (d: Device, k: nat) => Round(d, s, arrivals(k))
  }

  function Rounds(d: Device, s: Settings, arrivals: nat -> seq<Arrival>, n: nat): Option<Device> {
    Iterate(d, RoundStep(s, arrivals), n)
  }

  lemma {:induction false} HandleAllKeepsTime(d: Device, s: Settings, arrivals: seq<Arrival>)
    requires HandleAll(d, s, arrivals).Some?
    ensures HandleAll(d, s, arrivals).value.timer == d.timer
    decreases |arrivals|
  {
    if arrivals != [] {
      HandleAllKeepsTime(Handle(d, s, arrivals[0]), s, arrivals[1..]);
    }
  }

  lemma RoundAdvances(d: Device, s: Settings, arrivals: seq<Arrival>)
    requires Round(d, s, arrivals).Some?
    ensures Round(d, s, arrivals).value.timer == d.timer + 1
  {
    HandleAllKeepsTime(d, s, arrivals);
  }

  lemma RoundsGoOn(d: Device, s: Settings, arrivals: nat -> seq<Arrival>, t: nat, before: Device, last: nat)
    requires t < last && Rounds(d, s, arrivals, t) == Some(before)
    ensures Rounds(d, s, arrivals, t + 1) == Round(before, s, arrivals(t))
    ensures Round(before, s, arrivals(t)).Some? ==> Round(before, s, arrivals(t)).value.timer == before.timer + 1
    ensures Round(before, s, arrivals(t)).None? ==> Rounds(d, s, arrivals, last).None?
  {
    if Round(before, s, arrivals(t)).None? {
      IterateStays(d, RoundStep(s, arrivals), t + 1, last);
    } else {
      RoundAdvances(before, s, arrivals(t));
    }
  }

  // ----- what the control messages say

  /** Enter and finish alternate, and each finish is sent `csTime` rounds after its enter: the
      enter is stamped before the clock advances in its round, the finish after. */
  ghost predicate Alternating(sections: seq<Stamped>, csTime: nat) {
    forall i :: 0 <= i < |sections| ==> InTurn(sections, csTime, i)
  }

  ghost predicate InTurn(sections: seq<Stamped>, csTime: nat, i: nat)
    requires i < |sections|
  {
    if i % 2 == 0 then sections[i].what == AccessCS
    else sections[i].what == FinishCS && sections[i].at == sections[i - 1].at + csTime + 1
  }

  /** The clock, the countdown and the log agree about the current critical section. */
  ghost predicate Punctual(d: Device, s: Settings) {
    var sections := Sections(d.control);
    && Alternating(sections, s.csTime)
    && (d.node.inCS <==> |sections| % 2 == 1)
    && (!d.node.inCS ==> d.csTimer == 0)
    && (d.node.inCS ==> sections[|sections| - 1].at + s.csTime == d.timer + d.csTimer)
  }

  lemma BecomeLogs(d: Device, o: Outcome)
    ensures Sections(Become(d, o).control) == Sections(d.control) + Sections(Stamp(d.timer, o.control))
  {
    SectionsOfConcat(d.control, Stamp(d.timer, o.control));
  }

  lemma ReceiveLogs(n: Node, m: Message, unset: int)
    requires CanReceive(n, m)
    ensures Receive(n, m, unset).control ==
            if Receive(n, m, unset).node.inCS && !n.inCS then [AccessCS] else []
    ensures n.inCS ==> Receive(n, m, unset).node.inCS
  {
  }

  lemma AlternatesOn(sections: seq<Stamped>, csTime: nat, next: Stamped)
    requires Alternating(sections, csTime)
    requires if |sections| % 2 == 0 then next.what == AccessCS
             else next.what == FinishCS && next.at == sections[|sections| - 1].at + csTime + 1
    ensures Alternating(sections + [next], csTime)
  {
    var more := sections + [next];
    forall i | 0 <= i < |more| ensures InTurn(more, csTime, i) {
      if i < |sections| {
        assert InTurn(sections, csTime, i);
      }
    }
  }

  lemma HandleIsPunctual(d: Device, s: Settings, a: Arrival)
    requires Punctual(d, s) && CanReceive(d.node, a.msg)
    ensures Punctual(Handle(d, s, a), s) && Handle(d, s, a).timer == d.timer
  {
    var o := Receive(d.node, a.msg, a.unset);
    ReceiveLogs(d.node, a.msg, a.unset);
    BecomeLogs(d, o);
    var sections := Sections(d.control);
    if o.control == [] {
      assert Stamp(d.timer, o.control) == [];
      assert sections + [] == sections;
    } else {
      OneSection(d.timer, AccessCS);
      AlternatesOn(sections, s.csTime, Stamped(d.timer, AccessCS));
    }
  }

  lemma {:induction false} HandleAllIsPunctual(d: Device, s: Settings, arrivals: seq<Arrival>)
    requires Punctual(d, s) && HandleAll(d, s, arrivals).Some?
    ensures var t := HandleAll(d, s, arrivals).value;
            Punctual(t, s) && t.timer == d.timer && t.requests == d.requests
    decreases |arrivals|
  {
    if arrivals != [] {
      HandleIsPunctual(d, s, arrivals[0]);
      HandleAllIsPunctual(Handle(d, s, arrivals[0]), s, arrivals[1..]);
    }
  }

  lemma FinishThenRequests(at: nat, tail: seq<Control>)
    requires forall i :: 0 <= i < |tail| ==> tail[i] == RequestCS
    ensures Sections(Stamp(at, [FinishCS] + tail)) == [Stamped(at, FinishCS)]
  {
    assert Stamp(at, [FinishCS] + tail) == Stamp(at, [FinishCS]) + Stamp(at, tail);
    OneSection(at, FinishCS);
    SectionsOfConcat(Stamp(at, [FinishCS]), Stamp(at, tail));
    SectionsOfRequests(at, tail);
  }

  lemma LeaveControl(n: Node) returns (tail: seq<Control>)
    requires n.waiting != {}
    ensures Leave(n).control == [FinishCS] + tail && !Leave(n).node.inCS
    ensures forall i :: 0 <= i < |tail| ==> tail[i] == RequestCS
  {
    tail := Leave(n).control[1..];
  }

  lemma LeaveLogs(d: Device)
    requires d.node.waiting != {}
    ensures Sections(Become(d, Leave(d.node)).control) == Sections(d.control) + [Stamped(d.timer, FinishCS)]
    ensures !Leave(d.node).node.inCS
  {
    BecomeLogs(d, Leave(d.node));
    var tail := LeaveControl(d.node);
    FinishThenRequests(d.timer, tail);
  }

  /** From the handled arrivals on: the clock advances and the section is counted down. */
  lemma CountDownIsPunctual(d: Device, s: Settings)
    requires Punctual(d, s) && CountDown(d.(timer := d.timer + 1)).Some?
    ensures var t := CountDown(d.(timer := d.timer + 1)).value;
            Punctual(t, s) && t.timer == d.timer + 1 && t.requests == d.requests
  {
    var later := d.(timer := d.timer + 1);
    if Expired(later) {
      LeaveLogs(later);
      AlternatesOn(Sections(d.control), s.csTime, Stamped(later.timer, FinishCS));
    }
  }

  lemma AskIsPunctual(d: Device, s: Settings)
    requires Punctual(d, s)
    ensures var t := AskIfScheduled(d, s);
            && Punctual(t, s) && t.timer == d.timer
            && t.requests == d.requests + if d.timer in s.schedule then 1 else 0
  {
    BecomeLogs(d, SendRequest(d.node));
    SectionsOfRequests(d.timer, SendRequest(d.node).control);
    assert Sections(d.control) + [] == Sections(d.control);
  }

  /** A round is the handling of the arrivals, the countdown and the schedule. */
  lemma RoundParts(d: Device, s: Settings, arrivals: seq<Arrival>) returns (handled: Device, counted: Device)
    requires Round(d, s, arrivals).Some?
    ensures HandleAll(d, s, arrivals) == Some(handled)
    ensures CountDown(handled.(timer := handled.timer + 1)) == Some(counted)
    ensures Round(d, s, arrivals) == Some(AskIfScheduled(counted, s))
  {
    handled := HandledFirst(d, s, arrivals);
    counted := CountedNext(handled, s);
  }

  lemma HandledFirst(d: Device, s: Settings, arrivals: seq<Arrival>) returns (handled: Device)
    requires Round(d, s, arrivals).Some?
    ensures HandleAll(d, s, arrivals) == Some(handled) && Round(d, s, arrivals) == RestOfRound(handled, s)
  {
    handled := HandleAll(d, s, arrivals).value;
  }

  lemma CountedNext(handled: Device, s: Settings) returns (counted: Device)
    requires RestOfRound(handled, s).Some?
    ensures CountDown(handled.(timer := handled.timer + 1)) == Some(counted)
    ensures RestOfRound(handled, s) == Some(AskIfScheduled(counted, s))
  {
    counted := CountDown(handled.(timer := handled.timer + 1)).value;
  }

  lemma HandledIsPunctual(d: Device, s: Settings, arrivals: seq<Arrival>, handled: Device)
    requires Punctual(d, s) && HandleAll(d, s, arrivals) == Some(handled)
    ensures Punctual(handled, s) && handled.timer == d.timer && handled.requests == d.requests
  {
    HandleAllIsPunctual(d, s, arrivals);
  }

  lemma CountedIsPunctual(d: Device, s: Settings, counted: Device)
    requires Punctual(d, s) && CountDown(d.(timer := d.timer + 1)) == Some(counted)
    ensures Punctual(counted, s) && counted.timer == d.timer + 1 && counted.requests == d.requests
  {
    CountDownIsPunctual(d, s);
  }

  lemma RoundIsPunctual(d: Device, s: Settings, arrivals: seq<Arrival>, t: Device)
    requires Punctual(d, s) && Round(d, s, arrivals) == Some(t)
    ensures Punctual(t, s) && t.timer == d.timer + 1
    ensures t.requests == d.requests + if t.timer in s.schedule then 1 else 0
  {
    var handled, counted := RoundParts(d, s, arrivals);
    HandledIsPunctual(d, s, arrivals, handled);
    CountedIsPunctual(handled, s, counted);
    AskIsPunctual(counted, s);
  }

  /** After `n` rounds: on the clock, punctual, and one request issued per schedule entry passed. */
  ghost predicate OnTime(s: Settings, n: nat, t: Device) {
    t.timer == n && Punctual(t, s) && t.requests == |ScheduledUpTo(s.schedule, n)|
  }

  lemma FreshIsOnTime(d: Device, s: Settings)
    requires d.timer == 0 && d.csTimer == 0 && d.requests == 0 && !d.node.inCS && d.control == []
    ensures OnTime(s, 0, d)
  {
    ScheduleStep(s.schedule, 0);
  }

  lemma RoundKeepsTime(d: Device, s: Settings, arrivals: seq<Arrival>, n: nat, t: Device)
    requires OnTime(s, n, d) && Round(d, s, arrivals) == Some(t)
    ensures OnTime(s, n + 1, t)
  {
    RoundIsPunctual(d, s, arrivals, t);
    OneMoreRequest(s, n, d, t);
  }

  lemma OneMoreRequest(s: Settings, n: nat, d: Device, t: Device)
    requires d.timer == n && d.requests == |ScheduledUpTo(s.schedule, n)|
    requires t.timer == n + 1 && t.requests == d.requests + if t.timer in s.schedule then 1 else 0
    ensures t.requests == |ScheduledUpTo(s.schedule, n + 1)|
  {
    ScheduleStep(s.schedule, n + 1);
  }

  lemma RunIsOnTime(d: Device, s: Settings, arrivals: nat -> seq<Arrival>, n: nat, t: Device)
    requires OnTime(s, 0, d) && Rounds(d, s, arrivals, n) == Some(t)
    ensures OnTime(s, n, t)
  {
    var step, good := RoundStep(s, arrivals), (k: nat, b: Device) => OnTime(s, k, b);
    forall k: nat, b: Device | good(k, b) && step(b, k).Some? ensures good(k + 1, step(b, k).value) {
      RoundKeepsTime(b, s, arrivals(k), k, step(b, k).value);
    }
    IterateKeeps(d, step, good, n);
  }

  /** After any number of rounds of a node that starts outside its critical section: enter and
      finish messages strictly alternate, every finish comes exactly `csTime` rounds after its
      enter, an unfinished section is at most `csTime` rounds old, the countdown runs only
      inside a section, and one request was issued per schedule entry passed. */
  lemma RunIsPunctual(d: Device, s: Settings, arrivals: nat -> seq<Arrival>, n: nat, t: Device)
    requires d.timer == 0 && d.csTimer == 0 && d.requests == 0 && !d.node.inCS && d.control == []
    requires Rounds(d, s, arrivals, n) == Some(t)
    ensures t.timer == n && Punctual(t, s)
    ensures t.requests == |ScheduledUpTo(s.schedule, n)|
    ensures t.csTimer > 0 ==> t.node.inCS
  {
    FreshIsOnTime(d, s);
    RunIsOnTime(d, s, arrivals, n, t);
  }
}
