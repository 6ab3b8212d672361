/** The control messages of both algorithms and their log. */
module ControlLog {
  import opened Sums

  /** Messages to pseudo-node 255: they are only logged by the switch. */
  datatype Control = AccessCS | FinishCS | RequestCS

  /** A control message with the clock value it is sent at. */
  datatype Stamped = Stamped(at: nat, what: Control)

  function Stamp(at: nat, what: seq<Control>): seq<Stamped> {
    seq(|what|, i requires 0 <= i < |what| => Stamped(at, what[i]))
  }

  function Controls(log: seq<Stamped>): seq<Control> {
    seq(|log|, i requires 0 <= i < |log| => log[i].what)
  }

  function RequestCopies(n: nat): seq<Control> {
    seq(n, _ => RequestCS)
  }

  function ControlCount(log: seq<Control>): nat {
    if log == [] then 0 else ControlCount(log[..|log| - 1]) + One(log[|log| - 1].RequestCS?)
  }

  lemma {:induction false} ControlsAdd(a: seq<Control>, b: seq<Control>)
    ensures ControlCount(a + b) == ControlCount(a) + ControlCount(b)
    decreases |b|
  {
    if b == [] {
      assert a + b == a;
    } else {
      assert (a + b)[..|a + b| - 1] == a + b[..|b| - 1];
      ControlsAdd(a, b[..|b| - 1]);
    }
  }

  lemma {:induction false} CopiesCount(n: nat)
    ensures ControlCount(RequestCopies(n)) == n
  {
    if n > 0 {
      CopiesCount(n - 1);
      assert RequestCopies(n)[..n - 1] == RequestCopies(n - 1);
    }
  }

  // ----- entering and finishing

  /** The enter and finish messages among the control messages. */
  function Sections(log: seq<Stamped>): seq<Stamped> {
    if log == [] then []
    else Sections(log[..|log| - 1]) + (if log[|log| - 1].what.RequestCS? then [] else [log[|log| - 1]])
  }

  lemma {:induction false} SectionsOfConcat(a: seq<Stamped>, b: seq<Stamped>)
    ensures Sections(a + b) == Sections(a) + Sections(b)
    decreases |b|
  {
    if b == [] {
      assert a + b == a;
    } else {
      var c := b[..|b| - 1];
      assert (a + b)[..|a + b| - 1] == a + c;
      SectionsOfConcat(a, c);
    }
  }

  lemma {:induction false} SectionsOfRequests(at: nat, what: seq<Control>)
    requires forall i :: 0 <= i < |what| ==> what[i] == RequestCS
    ensures Sections(Stamp(at, what)) == []
    decreases |what|
  {
    if what != [] {
      assert Stamp(at, what)[..|what| - 1] == Stamp(at, what[..|what| - 1]);
      SectionsOfRequests(at, what[..|what| - 1]);
    }
  }

  lemma OneSection(at: nat, c: Control)
    requires !c.RequestCS?
    ensures Sections(Stamp(at, [c])) == [Stamped(at, c)]
  {
    assert Stamp(at, [c]) == [] + [Stamped(at, c)];
    assert Stamp(at, [c])[..0] == [];
  }
}
