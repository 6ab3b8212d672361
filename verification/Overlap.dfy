/** The testbed's check for overlapping critical sections: two cursors over a linked list. */
module Overlap {

  datatype Span = Span(started: nat, finished: nat)

  class CritSec {
    var next: CritSec?
    var started: nat
    var finished: nat
  }

  /** `list` is the chain of `next` pointers from `head` to its end. */
  ghost predicate Chain(head: CritSec, list: seq<CritSec>)
    reads list
  {
    && list != [] && list[0] == head
    && (forall i :: 0 <= i < |list| - 1 ==> list[i].next == list[i + 1])
    && list[|list| - 1].next == null
  }

  lemma NextInChain(head: CritSec, list: seq<CritSec>, i: nat)
    requires Chain(head, list) && i < |list|
    ensures list[i].next == null <==> i == |list| - 1
    ensures i < |list| - 1 ==> list[i].next == list[i + 1]
  {
    if i < |list| - 1 {
      var following: CritSec := list[i + 1];
      assert list[i].next == following;
    }
  }

  ghost function Spans(list: seq<CritSec>): (spans: seq<Span>)
    reads list
    ensures |spans| == |list|
    ensures forall i :: 0 <= i < |list| ==> spans[i] == Span(list[i].started, list[i].finished)
  {
    if list == [] then [] else Spans(list[..|list| - 1]) + [SpanOf(list[|list| - 1])]
  }

  function SpanOf(c: CritSec): Span
    reads c
  {
    Span(c.started, c.finished)
  }

  /** One end of the later section `b` lies inside the earlier one. */
  predicate Hit(a: Span, b: Span) {
    || (a.started < b.started && a.finished > b.started)
    || (a.started < b.finished && a.finished > b.finished)
  }

  ghost predicate HitFrom(spans: seq<Span>, i: nat, upto: nat)
    requires i < |spans| && upto <= |spans|
  {
    exists j :: i < j < upto && Hit(spans[i], spans[j])
  }

  /** Some section is hit by a later one. */
  ghost predicate Conflict(spans: seq<Span>) {
    exists i :: 0 <= i < |spans| && HitFrom(spans, i, |spans|)
  }

  method GetConflict(head: CritSec, ghost list: seq<CritSec>) returns (confl: bool)
    requires Chain(head, list)
    ensures confl <==> Conflict(Spans(list))
  {
    confl := false;
    var c1 := head;
    ghost var spans := Spans(list);
    ghost var i := 0;
    while c1.next != null
      invariant 0 <= i < |list| && c1 == list[i] && !confl
      invariant forall k :: 0 <= k < i ==> !HitFrom(spans, k, |spans|)
      decreases |list| - i
    {
      var c2 := c1;
      ghost var j := i;
      while c2.next != null
        invariant i <= j < |list| && c2 == list[j] && !confl
        invariant !HitFrom(spans, i, j + 1)
        decreases |list| - j
      {
        NextInChain(head, list, j);
        c2 := c2.next;
        j := j + 1;
        if (c1.started < c2.started && c1.finished > c2.started)
           || (c1.started < c2.finished && c1.finished > c2.finished)
        {
          assert Hit(spans[i], spans[j]);
          confl := true;
          break;
        }
      }
      NextInChain(head, list, j);
      if confl {
        assert HitFrom(spans, i, |spans|);
        break;
      }
      NextInChain(head, list, i);
      c1 := c1.next;
      i := i + 1;
    }
    NextInChain(head, list, i);
  }

  // ----- what a report means

  /** A section as the logs give it: it took time, was never finished or, zeroed, never entered. */
  predicate Logged(s: Span) {
    s.started < s.finished || s.finished == 0
  }

  predicate Finished(s: Span) { s.finished != 0 }

  /** An unfinished section goes on for ever; one that was never entered never happens. */
  predicate During(t: nat, s: Span) {
    s.started <= t && (if Finished(s) then t < s.finished else s.started != 0)
  }

  ghost predicate Overlaps(a: Span, b: Span) {
    exists t :: During(t, a) && During(t, b)
  }

  /** `b` encloses the finished section `a`. */
  predicate Within(a: Span, b: Span) {
    b.started <= a.started && (Finished(b) ==> a.finished <= b.finished)
  }

  /** A hit is an overlap of a finished section with one that does not enclose it. */
  lemma HitIff(a: Span, b: Span)
    requires Logged(a) && Logged(b)
    ensures Hit(a, b) <==> Finished(a) && Overlaps(a, b) && !Within(a, b)
  {
    var t := if a.started < b.started then b.started else a.started;
    if Hit(a, b) {
      assert During(t, a) && During(t, b);
    }
  }

  /** `later` makes the check report `earlier`. */
  ghost predicate Noticed(earlier: Span, later: Span) {
    Finished(earlier) && Overlaps(earlier, later) && !Within(earlier, later)
  }

  /** The check reports a conflict exactly when some finished section overlaps a later one that does
      not enclose it. Every report is thus an overlap, sections that were never entered cause none,
      and an unfinished section is noticed only as the later one. */
  lemma ReportIff(spans: seq<Span>)
    requires forall i :: 0 <= i < |spans| ==> Logged(spans[i])
    ensures Conflict(spans) <==> exists i, j :: 0 <= i < j < |spans| && Noticed(spans[i], spans[j])
  {
    if Conflict(spans) {
      var i :| 0 <= i < |spans| && HitFrom(spans, i, |spans|);
      var j :| i < j < |spans| && Hit(spans[i], spans[j]);
      HitIff(spans[i], spans[j]);
    }
    if i, j :| 0 <= i < j < |spans| && Noticed(spans[i], spans[j]) {
      HitIff(spans[i], spans[j]);
      assert HitFrom(spans, i, |spans|);
    }
  }

  /** The order of two sections matters: one that encloses the other is reported only if it
      comes first and has finished. */
  lemma EnclosedIsMissed(inner: Span, outer: Span)
    requires Logged(inner) && Logged(outer) && Finished(inner) && Within(inner, outer) && inner != outer
    ensures !Conflict([inner, outer])
    ensures Conflict([outer, inner]) <==> Finished(outer) && Overlaps(outer, inner)
  {
    var missed, reported := [inner, outer], [outer, inner];
    ReportIff(missed);
    ReportIff(reported);
    assert Within(missed[0], missed[1]);
    assert Finished(outer) ==> !Within(reported[0], reported[1]);
  }

  /** When all sections last equally long, only sections that coincide escape the check. */
  lemma EqualLengthsReportIff(spans: seq<Span>, length: nat)
    requires length > 0
    requires forall i :: 0 <= i < |spans| ==>
               spans[i] == Span(0, 0) || spans[i].finished == spans[i].started + length
    ensures Conflict(spans) <==>
            exists i, j :: 0 <= i < j < |spans| && Overlaps(spans[i], spans[j]) && spans[i] != spans[j]
  {
    ReportIff(spans);
    forall i, j | 0 <= i < j < |spans| && Overlaps(spans[i], spans[j])
      ensures Within(spans[i], spans[j]) <==> spans[i] == spans[j]
      ensures Finished(spans[i])
    {
      var t :| During(t, spans[i]) && During(t, spans[j]);
    }
  }
}
