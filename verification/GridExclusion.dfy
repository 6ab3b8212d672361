/** The two algorithms on the quorums that the testbed builds. */
module GridExclusion {
  import opened Grid
  import opened GridQuorums
  import opened MakSystem
  import opened MakSafety
  import opened MakExclusion
  import opened MakReliable
  import opened MakRelinquish
  import opened Sums
  import LakSystem
  import LakSafety
  import LakExclusion

  /** `b` is numbered and in the row or the column of `a`. */
  predicate OnLines(n: nat, a: int, b: int) {
    IsNode(n, b) && (SameRow(n, a, b) || SameColumn(n, a, b))
  }

  function QuorumSet(n: nat, a: int): set<int>
    requires IsNode(n, a)
  {
    SetOf(Assignment(n)[a - 1].members)
  }

  /** The quorum files: node `i` reads the quorum with id `i`. */
  function GridMap(n: nat): Quorums {
    map i | 1 <= i <= n :: QuorumSet(n, i)
  }

  /** A map whose quorums are the rows and columns of the grid. */
  ghost predicate IsGrid(n: nat, quorums: Quorums) {
    && (forall a :: a in quorums <==> IsNode(n, a))
    && (forall a, b :: a in quorums ==> (b in quorums[a] <==> OnLines(n, a, b)))
  }

  lemma InSetOf(s: seq<int>, x: int)
    ensures x in SetOf(s) <==> x in s
  {
  }

  lemma QuorumSetIff(n: nat, a: int, b: int)
    requires IsNode(n, a)
    ensures b in QuorumSet(n, a) <==> OnLines(n, a, b)
  {
    var members := Assignment(n)[a - 1].members;
    InSetOf(members, b);
    assert InQuorum(n, a, b) <==> b in members;
    MemberIff(n, a, b);
  }

  lemma GridMapIsGrid(n: nat)
    ensures IsGrid(n, GridMap(n))
  {
    forall a, b | a in GridMap(n) ensures b in GridMap(n)[a] <==> OnLines(n, a, b) {
      QuorumSetIff(n, a, b);
    }
  }

  lemma GridIsProper(n: nat, quorums: Quorums)
    requires IsGrid(n, quorums)
    ensures OwnMember(quorums) && Closed(quorums)
  {
    forall a | a in quorums ensures a in quorums[a] && quorums[a] <= quorums.Keys {
      assert OnLines(n, a, a);
      forall b | b in quorums[a] ensures b in quorums {
        assert OnLines(n, a, b);
      }
    }
  }

  lemma LineWithAnother(n: nat, a: int) returns (b: int)
    requires n >= 2 && IsNode(n, a)
    ensures b != a && OnLines(n, a, b)
  {
    var k := Side(n);
    SideIsLeast(n);
    assert k >= 2;
    RowInGrid(n, a - 1);
    if a <= k {
      b := if a == 1 then 2 else 1;
      PlaceIsUnique(k, 0, a - 1);
      PlaceIsUnique(k, 0, b - 1);
      assert SameRow(n, a, b);
    } else {
      b := (a - 1) % k + 1;
      PlaceIsUnique(k, 0, b - 1);
      assert SameColumn(n, a, b);
    }
  }

  lemma GridQuorumHasTwo(n: nat, quorums: Quorums, a: int)
    requires IsGrid(n, quorums) && n >= 2 && a in quorums
    ensures |quorums[a]| >= 2
  {
    var b := LineWithAnother(n, a);
    assert OnLines(n, a, a);
    Smaller({a, b}, quorums[a]);
  }

  // ----- which requesters are safe

  /** Every two requesters have a place in common that is not a requester's. */
  ghost predicate LeaveAnArbiter(n: nat, requesters: set<int>) {
    forall x, y :: x in requesters && y in requesters && x != y ==> ArbiterFor(n, requesters, x, y)
  }

  ghost predicate ArbiterFor(n: nat, requesters: set<int>, x: int, y: int) {
    exists b :: b !in requesters && OnLines(n, x, b) && OnLines(n, y, b)
  }

  lemma ArbitersAreShared(n: nat, quorums: Quorums, requesters: set<int>)
    requires IsGrid(n, quorums) && requesters <= quorums.Keys
    ensures ShareOutside(quorums, requesters) <==> LeaveAnArbiter(n, requesters)
  {
    forall x, y | x in requesters && y in requesters && x != y
      ensures ArbiterFor(n, requesters, x, y) <==>
              exists b :: b in quorums[x] && b in quorums[y] && b !in requesters
    {
      if ArbiterFor(n, requesters, x, y) {
        var b :| b !in requesters && OnLines(n, x, b) && OnLines(n, y, b);
        assert b in quorums[x] && b in quorums[y];
      }
    }
  }

  /** No two requesters in one row or one column. */
  ghost predicate Scattered(n: nat, requesters: set<int>) {
    forall x, y :: x in requesters && y in requesters && x != y ==> !SameRow(n, x, y) && !SameColumn(n, x, y)
  }

  /** The corner between two scattered requesters shares a line with each, so it is none itself. */
  lemma ScatteredLeaveAnArbiter(n: nat, requesters: set<int>)
    requires (forall x :: x in requesters ==> IsNode(n, x)) && Scattered(n, requesters)
    ensures LeaveAnArbiter(n, requesters)
  {
    forall x, y | x in requesters && y in requesters && x != y ensures ArbiterFor(n, requesters, x, y) {
      var lo, hi := if x < y then x else y, if x < y then y else x;
      var c := Corner(n, lo, hi);
      CornerExists(n, lo, hi);
      assert c !in requesters;
      assert OnLines(n, x, c) && OnLines(n, y, c);
    }
  }

  // ----- main theorems

  /** Scattered requesters never meet in the critical section: on the grid for any number of
      nodes, whatever is delayed, reordered or lost, as long as no RELINQUISH is processed. */
  lemma ScatteredRequestersExclude(n: nat, requesters: set<int>, acts: seq<Action>)
    requires requesters <= GridMap(n).Keys && Scattered(n, requesters)
    requires Feasible(Start(GridMap(n)), acts) && Within(acts, requesters)
    ensures |InCS(After(Start(GridMap(n)), acts))| <= 1
  {
    GridMapIsGrid(n);
    GridIsProper(n, GridMap(n));
    ScatteredLeaveAnArbiter(n, requesters);
    ArbitersAreShared(n, GridMap(n), requesters);
    ShareOutsideSuffices(GridMap(n), requesters, acts);
  }

  lemma ExclusionIff(n: nat, quorums: Quorums, requesters: set<int>)
    requires IsGrid(n, quorums) && requesters <= quorums.Keys
    ensures (forall acts :: Feasible(Start(quorums), acts) && Within(acts, requesters) ==>
                              |InCS(After(Start(quorums), acts))| <= 1)
            <==> LeaveAnArbiter(n, requesters)
  {
    GridIsProper(n, quorums);
    ArbitersAreShared(n, quorums, requesters);
    if n >= 2 {
      forall i | i in requesters ensures |quorums[i]| >= 2 {
        GridQuorumHasTwo(n, quorums, i);
      }
      ExclusionIffSharedOutside(quorums, requesters);
    } else {
      forall acts | Feasible(Start(quorums), acts) && Within(acts, requesters)
        ensures |InCS(After(Start(quorums), acts))| <= 1
      {
        ShareOutsideSuffices(quorums, requesters, acts);
      }
    }
  }

  /** On the grid, requesters exclude one another in all RELINQUISH-free runs if and only if
      every two of them leave a common place to a node that issues no requests. */
  lemma GridExclusionIff(n: nat, requesters: set<int>)
    requires requesters <= GridMap(n).Keys
    ensures (forall acts :: Feasible(Start(GridMap(n)), acts) && Within(acts, requesters) ==>
                              |InCS(After(Start(GridMap(n)), acts))| <= 1)
            <==> LeaveAnArbiter(n, requesters)
  {
    GridMapIsGrid(n);
    ExclusionIff(n, GridMap(n), requesters);
  }

  /** When every node issues requests, as with the testbed's schedules, two nodes or more do not
      exclude one another. */
  lemma AllRequestersDoNotExclude(n: nat)
    requires n >= 2
    ensures exists acts :: Feasible(Start(GridMap(n)), acts) && Within(acts, GridMap(n).Keys)
                           && |InCS(After(Start(GridMap(n)), acts))| >= 2
  {
    GridExclusionIff(n, GridMap(n).Keys);
    assert !ArbiterFor(n, GridMap(n).Keys, 1, 2);
    assert 1 in GridMap(n).Keys && 2 in GridMap(n).Keys;
    assert !LeaveAnArbiter(n, GridMap(n).Keys);
  }

  /** With RELINQUISH only a single requester is safe, on the grid as on all quorums. */
  lemma GridExclusionIffOneRequester(n: nat, requesters: set<int>)
    requires requesters <= GridMap(n).Keys
    ensures (forall acts :: Feasible(Start(GridMap(n)), acts) && AskedBy(acts, requesters) ==>
                              |InCS(After(Start(GridMap(n)), acts))| <= 1)
            <==> |requesters| <= 1
  {
    GridMapIsGrid(n);
    GridIsProper(n, GridMap(n));
    ExclusionIffOneRequester(GridMap(n), requesters);
    AbleOnGrid(n, GridMap(n), requesters);
  }

  lemma AbleOnGrid(n: nat, quorums: Quorums, requesters: set<int>)
    requires IsGrid(n, quorums) && requesters <= quorums.Keys
    ensures |Able(quorums, requesters)| <= 1 <==> |requesters| <= 1
  {
    if n >= 2 {
      forall i | i in requesters ensures |quorums[i]| >= 2 {
        GridQuorumHasTwo(n, quorums, i);
      }
      assert Able(quorums, requesters) == requesters;
    } else {
      forall r | r in requesters ensures r in {1} {
        assert r in quorums;
      }
      Smaller(requesters, {1});
      Smaller(Able(quorums, requesters), requesters);
    }
  }

  lemma NodeOneAlone(n: nat, quorums: Quorums)
    requires IsGrid(n, quorums) && n >= 1
    ensures 1 in quorums && 1 in quorums[1] && (LakExclusion.Alone(quorums) <==> n == 1)
  {
    assert OnLines(n, 1, 1);
    if n >= 2 {
      var b := LineWithAnother(n, 1);
      assert OnLines(n, b, 1);
    }
  }

  /** On the grid the token algorithm keeps exclusion in all runs only if there is one node. */
  lemma TokenGridExclusionIff(n: nat)
    requires n >= 1
    ensures (forall acts :: LakSystem.Feasible(LakSystem.Start(GridMap(n)), acts) ==>
                              |LakSafety.InCS(LakSystem.After(LakSystem.Start(GridMap(n)), acts))| <= 1)
            <==> n == 1
  {
    GridMapIsGrid(n);
    GridIsProper(n, GridMap(n));
    NodeOneAlone(n, GridMap(n));
    LakExclusion.ExclusionIffAlone(GridMap(n));
  }
}
