/** What makes the builder's grid a quorum system, for every number of nodes and so also when
    the last rows are partly or wholly empty. */
module GridQuorums {
  import opened Grid

  /** Nodes `a` and `b` are in one row or one column of the grid for `n` nodes. */
  predicate SameRow(n: int, a: int, b: int) { (a - 1) / Side(n) == (b - 1) / Side(n) }
  predicate SameColumn(n: int, a: int, b: int) { (a - 1) % Side(n) == (b - 1) % Side(n) }
  predicate IsNode(n: int, a: int) { 1 <= a <= n }

  /** `b` is in the quorum of `a`. */
  predicate InQuorum(n: int, a: int, b: int) {
    IsNode(n, a) && b in QuorumAt(n, a - 1).members
  }

  // ----- who is in a quorum

  lemma {:induction false} RowMembers(n: int, k: nat, row: nat, upto: nat, j: int)
    requires upto <= k
    ensures j in RowPart(n, k, row, upto) <==> IsNode(n, j) && upto > 0 && (j - 1) / k == row && (j - 1) % k < upto
  {
    if upto > 0 {
      RowMembers(n, k, row, upto - 1, j);
      PlaceIsUnique(k, row, upto - 1);
      if IsNode(n, j) {
        PlaceOf(k, j - 1);
      }
    }
  }

  lemma {:induction false} ColumnMembers(n: int, k: nat, row: nat, col: nat, upto: nat, j: int)
    requires col < k
    ensures j in ColumnPart(n, k, row, col, upto) <==>
            IsNode(n, j) && (j - 1) % k == col && (j - 1) / k < upto && (j - 1) / k != row
  {
    if upto > 0 {
      ColumnMembers(n, k, row, col, upto - 1, j);
      PlaceIsUnique(k, upto - 1, col);
    }
    if IsNode(n, j) {
      PlaceOf(k, j - 1);
    }
  }

  lemma RowInGrid(n: int, i: nat)
    requires i < n
    ensures 0 <= i / Side(n) < Side(n) && 0 <= i % Side(n) < Side(n)
    ensures (i / Side(n)) * Side(n) + i % Side(n) == i
  {
    var k := Side(n);
    SideIsLeast(n);
    PlaceOf(k, i);
    if i / k > k {
      RowsApart(k, k, i / k);
    }
  }

  /** A quorum holds exactly the nodes in its owner's row or column. */
  lemma MemberIff(n: int, a: int, b: int)
    requires IsNode(n, a)
    ensures InQuorum(n, a, b) <==> IsNode(n, b) && (SameRow(n, a, b) || SameColumn(n, a, b))
  {
    var k := Side(n);
    var row, col := (a - 1) / k, (a - 1) % k;
    RowInGrid(n, a - 1);
    RowMembers(n, k, row, k, b);
    ColumnMembers(n, k, row, col, k, b);
    if IsNode(n, b) {
      RowInGrid(n, b - 1);
    }
  }

  lemma OwnQuorum(n: int, a: int)
    requires IsNode(n, a)
    ensures InQuorum(n, a, a) && QuorumAt(n, a - 1).id == a
  {
    MemberIff(n, a, a);
    RowInGrid(n, a - 1);
  }

  lemma Symmetric(n: int, a: int, b: int)
    requires IsNode(n, a) && IsNode(n, b)
    ensures InQuorum(n, a, b) <==> InQuorum(n, b, a)
  {
    MemberIff(n, a, b);
    MemberIff(n, b, a);
  }

  // ----- intersection

  /** The node in the row of `a` and the column of `b`, if there is one. */
  function Corner(n: int, a: int, b: int): int
    requires IsNode(n, a) && IsNode(n, b)
  {
    (a - 1) / Side(n) * Side(n) + (b - 1) % Side(n) + 1
  }

  /** The row of the smaller number is full up to the column of the larger one. */
  lemma CornerExists(n: int, a: int, b: int)
    requires IsNode(n, a) && IsNode(n, b) && a <= b
    ensures var c := Corner(n, a, b);
            IsNode(n, c) && SameRow(n, a, c) && SameColumn(n, b, c)
  {
    var k := Side(n);
    RowInGrid(n, a - 1);
    RowInGrid(n, b - 1);
    var ra, rb := (a - 1) / k, (b - 1) / k;
    if rb < ra {
      RowsApart(k, rb, ra);
    } else if ra < rb {
      RowsApart(k, ra, rb);
    }
    PlaceIsUnique(k, ra, (b - 1) % k);
  }

  lemma CornerIsShared(n: int, a: int, b: int)
    requires IsNode(n, a) && IsNode(n, b) && a <= b
    ensures InQuorum(n, a, Corner(n, a, b)) && InQuorum(n, b, Corner(n, a, b))
  {
    var c := Corner(n, a, b);
    CornerExists(n, a, b);
    MemberIff(n, a, c);
    MemberIff(n, b, c);
  }

  // ----- no repetition

  predicate Distinct(s: seq<int>) {
    forall i, j :: 0 <= i < j < |s| ==> s[i] != s[j]
  }

  lemma DistinctParts(a: seq<int>, b: seq<int>)
    requires Distinct(a) && Distinct(b) && forall x :: x in a ==> x !in b
    ensures Distinct(a + b)
  {
    forall i, j | 0 <= i < j < |a + b| ensures (a + b)[i] != (a + b)[j] {
      assert (a + b)[i] == if i < |a| then a[i] else b[i - |a|];
      assert (a + b)[j] == if j < |a| then a[j] else b[j - |a|];
      assert i < |a| <= j ==> a[i] !in b;
    }
  }

  lemma {:induction false} RowDistinct(n: int, k: nat, row: nat, upto: nat)
    requires upto <= k
    ensures Distinct(RowPart(n, k, row, upto))
  {
    if upto > 0 {
      RowDistinct(n, k, row, upto - 1);
      RowMembers(n, k, row, upto - 1, Cell(n, k, row, upto - 1));
      PlaceIsUnique(k, row, upto - 1);
      DistinctParts(RowPart(n, k, row, upto - 1), Kept(Cell(n, k, row, upto - 1)));
    }
  }

  lemma {:induction false} ColumnDistinct(n: int, k: nat, row: nat, col: nat, upto: nat)
    requires col < k
    ensures Distinct(ColumnPart(n, k, row, col, upto))
  {
    if upto > 0 {
      ColumnDistinct(n, k, row, col, upto - 1);
      ColumnMembers(n, k, row, col, upto - 1, Cell(n, k, upto - 1, col));
      PlaceIsUnique(k, upto - 1, col);
      DistinctParts(ColumnPart(n, k, row, col, upto - 1), Kept(Cell(n, k, upto - 1, col)));
    }
  }

  lemma MembersDistinct(n: int, a: int)
    requires IsNode(n, a)
    ensures Distinct(QuorumAt(n, a - 1).members)
  {
    var k := Side(n);
    var row, col := (a - 1) / k, (a - 1) % k;
    RowInGrid(n, a - 1);
    RowDistinct(n, k, row, k);
    ColumnDistinct(n, k, row, col, k);
    forall x | x in RowPart(n, k, row, k) ensures x !in ColumnPart(n, k, row, col, k) {
      RowMembers(n, k, row, k, x);
      ColumnMembers(n, k, row, col, k, x);
    }
    DistinctParts(RowPart(n, k, row, k), ColumnPart(n, k, row, col, k));
  }

  // ----- order

  predicate Ascending(s: seq<int>) {
    forall i, j :: 0 <= i < j < |s| ==> s[i] < s[j]
  }

  lemma {:induction false} RowAscends(n: int, k: nat, row: nat, upto: nat)
    requires upto <= k
    ensures Ascending(RowPart(n, k, row, upto))
  {
    if upto > 0 {
      RowAscends(n, k, row, upto - 1);
      var before := RowPart(n, k, row, upto - 1);
      forall i | 0 <= i < |before| ensures before[i] <= row * k + upto - 1 {
        RowMembers(n, k, row, upto - 1, before[i]);
        PlaceOf(k, before[i] - 1);
      }
    }
  }

  lemma {:induction false} ColumnAscends(n: int, k: nat, row: nat, col: nat, upto: nat)
    requires col < k
    ensures Ascending(ColumnPart(n, k, row, col, upto))
  {
    if upto > 0 {
      ColumnAscends(n, k, row, col, upto - 1);
      var before := ColumnPart(n, k, row, col, upto - 1);
      forall i | 0 <= i < |before| ensures before[i] <= (upto - 1) * k + col {
        ColumnMembers(n, k, row, col, upto - 1, before[i]);
        PlaceOf(k, before[i] - 1);
        RowsApart(k, (before[i] - 1) / k, upto - 1);
      }
    }
  }

  /** A quorum is listed row first, from left to right, and then the rest of the column downwards. */
  lemma MembersInOrder(n: int, a: int) returns (split: nat)
    requires IsNode(n, a)
    ensures var members := QuorumAt(n, a - 1).members;
            && split <= |members|
            && Ascending(members[..split]) && Ascending(members[split..])
            && forall b :: IsNode(n, b) ==> (b in members[..split] <==> SameRow(n, a, b))
  {
    var k := Side(n);
    var row, col := (a - 1) / k, (a - 1) % k;
    RowInGrid(n, a - 1);
    var inRow, inColumn := RowPart(n, k, row, k), ColumnPart(n, k, row, col, k);
    RowAscends(n, k, row, k);
    ColumnAscends(n, k, row, col, k);
    split := |inRow|;
    assert (inRow + inColumn)[..split] == inRow && (inRow + inColumn)[split..] == inColumn;
    forall b | IsNode(n, b) ensures b in inRow <==> SameRow(n, a, b) {
      RowMembers(n, k, row, k, b);
      RowInGrid(n, b - 1);
    }
  }

  // ----- sizes

  /** How many nodes are in the row of `a`. */
  function RowLength(n: int, a: int): int
  {
    var before := (a - 1) / Side(n) * Side(n);
    if n - before < Side(n) then n - before else Side(n)
  }

  /** How many nodes are in the column of `a`. */
  function ColumnHeight(n: int, a: int): int
  {
    (n - 1 - (a - 1) % Side(n)) / Side(n) + 1
  }

  lemma {:induction false} RowSize(n: int, k: nat, row: nat, upto: nat)
    requires upto <= k && row * k < n
    ensures |RowPart(n, k, row, upto)| == if n - row * k < upto then n - row * k else upto
  {
    if upto > 0 {
      RowSize(n, k, row, upto - 1);
    }
  }

  lemma FilledRows(n: int, k: nat, col: nat, row: nat)
    requires col < k && col < n
    ensures row * k + col < n <==> row < (n - 1 - col) / k + 1
  {
    var top := (n - 1 - col) / k;
    PlaceOf(k, n - 1 - col);
    if row > top {
      RowsApart(k, top, row);
    } else if row < top {
      RowsApart(k, row, top);
    }
  }

  lemma {:induction false} ColumnSize(n: int, k: nat, row: nat, col: nat, upto: nat, height: nat)
    requires col < k && col < n && row < height && height == (n - 1 - col) / k + 1
    ensures |ColumnPart(n, k, row, col, upto)| ==
            (if upto < height then upto else height) - (if row < upto then 1 else 0)
  {
    if upto > 0 {
      ColumnSize(n, k, row, col, upto - 1, height);
      FilledRows(n, k, col, upto - 1);
    }
  }

  lemma HeightInGrid(n: int, a: int)
    requires IsNode(n, a)
    ensures (a - 1) / Side(n) < ColumnHeight(n, a) <= Side(n)
    ensures (a - 1) % Side(n) <= a - 1
  {
    var k := Side(n);
    RowInGrid(n, a - 1);
    var row, col := (a - 1) / k, (a - 1) % k;
    if row > 0 {
      RowsApart(k, 0, row);
    }
    FilledRows(n, k, col, row);
    FilledRows(n, k, col, k);
    SideIsLeast(n);
  }

  lemma QuorumSize(n: int, a: int)
    requires IsNode(n, a)
    ensures |QuorumAt(n, a - 1).members| == RowLength(n, a) + ColumnHeight(n, a) - 1
    ensures 1 <= RowLength(n, a) <= Side(n) && 1 <= ColumnHeight(n, a) <= Side(n)
  {
    var k := Side(n);
    var row, col := (a - 1) / k, (a - 1) % k;
    RowInGrid(n, a - 1);
    HeightInGrid(n, a);
    RowSize(n, k, row, k);
    ColumnSize(n, k, row, col, k, ColumnHeight(n, a));
  }

  // ----- the whole assignment

  function SetOf(s: seq<int>): set<int> {
    set x | x in s
  }

  lemma {:induction false} SizeOfDistinct(s: seq<int>)
    requires Distinct(s)
    ensures |SetOf(s)| == |s|
  {
    if s == [] {
      assert SetOf(s) == {};
    } else {
      var most := s[..|s| - 1];
      SizeOfDistinct(most);
      assert s == most + [s[|s| - 1]];
      assert SetOf(s) == SetOf(most) + {s[|s| - 1]};
    }
  }

  /** The owners of the quorums that `a` is in. */
  function Holders(n: nat, a: int): set<int> {
    set i | 1 <= i <= n && InQuorum(n, i, a)
  }

  /** A node is in as many quorums as its own has members. */
  lemma Load(n: nat, a: int)
    requires IsNode(n, a)
    ensures |Holders(n, a)| == |QuorumAt(n, a - 1).members|
  {
    var members := QuorumAt(n, a - 1).members;
    forall i ensures i in Holders(n, a) <==> i in SetOf(members) {
      MemberIff(n, a, i);
      if IsNode(n, i) {
        Symmetric(n, a, i);
      }
    }
    assert Holders(n, a) == SetOf(members);
    MembersDistinct(n, a);
    SizeOfDistinct(members);
  }

  predicate Shaped(n: int, a: int, q: Quorum) {
    && q.id == a && a in q.members && Distinct(q.members)
    && |q.members| == RowLength(n, a) + ColumnHeight(n, a) - 1 <= 2 * Side(n) - 1
  }

  lemma QuorumIsShaped(n: int, a: int)
    requires IsNode(n, a)
    ensures Shaped(n, a, QuorumAt(n, a - 1))
  {
    OwnQuorum(n, a);
    MembersDistinct(n, a);
    QuorumSize(n, a);
  }

  /** The builder returns one quorum a node, in the order of their numbers; each holds its owner,
      lists nobody twice, and has at most twice the grid's side less one members. */
  lemma GridShape(n: nat)
    ensures |Assignment(n)| == n
    ensures forall i :: 0 <= i < n ==> Shaped(n, i + 1, Assignment(n)[i])
  {
    forall i | 0 <= i < n ensures Shaped(n, i + 1, Assignment(n)[i]) {
      QuorumIsShaped(n, i + 1);
    }
  }

  lemma SharedByLarger(n: nat, i: nat, j: nat)
    requires i <= j < n
    ensures Corner(n, i + 1, j + 1) in Assignment(n)[i].members
    ensures Corner(n, i + 1, j + 1) in Assignment(n)[j].members
  {
    CornerIsShared(n, i + 1, j + 1);
  }

  /** Any two of the quorums returned share a member. */
  lemma GridIntersection(n: nat, i: nat, j: nat)
    requires i < n && j < n
    ensures exists c :: c in Assignment(n)[i].members && c in Assignment(n)[j].members
  {
    if i <= j {
      SharedByLarger(n, i, j);
    } else {
      SharedByLarger(n, j, i);
    }
  }
}
