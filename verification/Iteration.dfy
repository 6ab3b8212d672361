/** What the main loops of both algorithms share: rounds one after the other, and a schedule. */
module Iteration {
  import opened Options

  datatype Settings = Settings(csTime: nat, schedule: set<nat>)

  /** `run` stops when the clock reaches this value. */
  const LAST_TICK: nat := 60000

  /** `n` steps one after the other, as long as they are defined. */
  function Iterate<D>(d: D, step: (D, nat) -> Option<D>, n: nat): Option<D> {
    if n == 0 then Some(d) else
    var before := Iterate(d, step, n - 1);
    if before.None? then None else step(before.value, n - 1)
  }

  lemma {:induction false} IterateKeeps<D(!new)>(d: D, step: (D, nat) -> Option<D>, good: (nat, D) -> bool, n: nat)
    requires good(0, d)
    requires forall k: nat, b: D :: good(k, b) && step(b, k).Some? ==> good(k + 1, step(b, k).value)
    ensures Iterate(d, step, n).Some? ==> good(n, Iterate(d, step, n).value)
  {
    if n > 0 {
      IterateKeeps(d, step, good, n - 1);
      if Iterate(d, step, n).Some? {
        assert good(n - 1, Iterate(d, step, n - 1).value);
      }
    }
  }

  lemma {:induction false} IterateStays<D>(d: D, step: (D, nat) -> Option<D>, m: nat, n: nat)
    requires m <= n && Iterate(d, step, m).None?
    ensures Iterate(d, step, n).None?
    decreases n
  {
    if m < n {
      IterateStays(d, step, m, n - 1);
    }
  }

  function ScheduledUpTo(schedule: set<nat>, last: nat): set<nat> {
    set t | t in schedule && 1 <= t <= last
  }

  lemma ScheduleStep(schedule: set<nat>, n: nat)
    ensures |ScheduledUpTo(schedule, 0)| == 0
    ensures n > 0 ==>
              |ScheduledUpTo(schedule, n)| == |ScheduledUpTo(schedule, n - 1)| + (if n in schedule then 1 else 0)
  {
    assert ScheduledUpTo(schedule, 0) == {};
    if n > 0 {
      assert ScheduledUpTo(schedule, n) == ScheduledUpTo(schedule, n - 1) + if n in schedule then {n} else {};
    }
  }

  lemma EarlierIsLess(schedule: set<nat>, r: nat, n: nat)
    requires r in schedule && 1 <= r <= n
    ensures 1 <= |ScheduledUpTo(schedule, r)| <= |ScheduledUpTo(schedule, n)|
  {
    var early, all := ScheduledUpTo(schedule, r), ScheduledUpTo(schedule, n);
    assert r in early && early <= all;
    assert |all - early| == |all| - |early|;
  }
}
