/** The testbed's quorum builder: nodes are laid out row by row on the least square grid that
    holds them, and a node's quorum is its row and its column. */
module Grid {

  datatype Quorum = Quorum(id: int, members: seq<int>)

  // ----- what the builder computes

  function SideFrom(k: nat, n: int): (side: nat)
    ensures side >= k
    decreases n - k
  {
    if k * k < n then
      Grows(k);
      SideFrom(k + 1, n)
    else k
  }

  lemma Grows(k: nat)
    ensures k <= k * k
  {
  }

  /** The side of the grid. */
  function Side(n: int): (side: nat)
    ensures side >= 1
  {
    SideFrom(1, n)
  }

  /** The number at a place of the filled grid, or -1. */
  function Cell(n: int, k: nat, row: nat, col: nat): int {
    if row * k + col < n then row * k + col + 1 else -1
  }

  function Kept(cell: int): seq<int> {
    if cell == -1 then [] else [cell]
  }

  /** The numbers in the first `upto` places of a row. */
  function RowPart(n: int, k: nat, row: nat, upto: nat): seq<int> {
    if upto == 0 then [] else RowPart(n, k, row, upto - 1) + Kept(Cell(n, k, row, upto - 1))
  }

  /** The numbers in the first `upto` places of a column, without those in `row`. */
  function ColumnPart(n: int, k: nat, row: nat, col: nat, upto: nat): seq<int> {
    if upto == 0 then []
    else ColumnPart(n, k, row, col, upto - 1) +
         (if upto - 1 == row then [] else Kept(Cell(n, k, upto - 1, col)))
  }

  function Members(n: int, k: nat, row: nat, col: nat): seq<int> {
    RowPart(n, k, row, k) + ColumnPart(n, k, row, col, k)
  }

  function QuorumOf(n: int, k: nat, row: nat, col: nat): Quorum {
    Quorum(Cell(n, k, row, col), Members(n, k, row, col))
  }

  /** All quorums. A negative count is compared with an unsigned size, which it never equals,
      and the one place of the grid stays unnumbered. */
  function Assignment(n: int): seq<Quorum> {
    if n < 0 then [Quorum(-1, [])]
    else seq(n, i requires 0 <= i < n => QuorumAt(n, i))
  }

  function QuorumAt(n: int, i: nat): Quorum
    requires i < n
  {
    QuorumOf(n, Side(n), i / Side(n), i % Side(n))
  }

  // ----- the grid's side

  lemma {:induction false} SideFromIsLeast(k: nat, n: int)
    requires k >= 1 && forall j: nat :: 1 <= j < k ==> j * j < n
    ensures var s := SideFrom(k, n);
            s >= k && s * s >= n && forall j: nat :: 1 <= j < s ==> j * j < n
    decreases n - k
  {
    if k * k < n {
      Grows(k);
      SideFromIsLeast(k + 1, n);
    }
  }

  /** The side is the least positive integer whose square is at least `n`. */
  lemma SideIsLeast(n: int)
    ensures var k := Side(n);
            k >= 1 && k * k >= n && forall j: nat :: 1 <= j < k ==> j * j < n
  {
    SideFromIsLeast(1, n);
  }

  // ----- places and numbers

  lemma {:induction false} RowsApart(k: nat, row: int, later: int)
    requires row < later
    ensures row * k + k <= later * k
    decreases later - row
  {
    assert row * k + k == (row + 1) * k;
    if row + 1 < later {
      RowsApart(k, row + 1, later);
    }
  }

  lemma SamePlace(k: nat, row: int, col: nat, row': int, col': nat)
    requires col < k && col' < k && row * k + col == row' * k + col'
    ensures row == row' && col == col'
  {
    if row < row' {
      RowsApart(k, row, row');
    } else if row' < row {
      RowsApart(k, row', row);
    }
  }

  lemma Quotient(k: nat, i: nat, row: int, col: nat)
    requires k >= 1 && col < k && row * k + col == i
    ensures 0 <= row <= i
  {
    if row < 0 {
      RowsApart(k, row, 0);
    } else if row > 0 {
      RowsApart(1, 0, row);
      assert row <= row * k;
    }
  }

  lemma PlaceOf(k: nat, i: nat)
    requires k >= 1
    ensures 0 <= i / k <= i && 0 <= i % k < k && (i / k) * k + i % k == i
  {
    Quotient(k, i, i / k, i % k);
  }

  lemma PlaceIsUnique(k: nat, row: nat, col: nat)
    requires col < k
    ensures (row * k + col) / k == row && (row * k + col) % k == col
  {
    var i := row * k + col;
    PlaceOf(k, i);
    SamePlace(k, i / k, i % k, row, col);
  }

  // ----- the builder as a program

  /** `matrix` holds the numbers of all places before the given one and -1 elsewhere. */
  ghost predicate NumberedUpTo(matrix: array2<int>, n: int, k: nat, row: nat, col: nat)
    requires matrix.Length0 == k && matrix.Length1 == k
    reads matrix
  {
    forall r, c :: 0 <= r < k && 0 <= c < k ==>
      matrix[r, c] == if r < row || (r == row && c < col) then Cell(n, k, r, c) else -1
  }

  /** How many nodes are numbered once `places` places have been visited. */
  function Reached(n: int, places: nat): nat {
    if n < 0 then 0 else if n <= places then n else places
  }

  method NumberPlaces(n: int, k: nat) returns (matrix: array2<int>)
    ensures fresh(matrix) && matrix.Length0 == k && matrix.Length1 == k
    ensures NumberedUpTo(matrix, n, k, k, 0)
  {
    matrix := new int[k, k];
    for i := 0 to k
      invariant forall r, c :: 0 <= r < i && 0 <= c < k ==> matrix[r, c] == -1
    {
      for j := 0 to k
        invariant forall r, c :: 0 <= r < i && 0 <= c < k ==> matrix[r, c] == -1
        invariant forall c :: 0 <= c < j ==> matrix[i, c] == -1
      {
        matrix[i, j] := -1;
      }
    }
    var count := 1;
    for row := 0 to k
      invariant NumberedUpTo(matrix, n, k, row, 0)
      invariant count == Reached(n, row * k) + 1
    {
      for col := 0 to k
        invariant NumberedUpTo(matrix, n, k, row, col)
        invariant count == Reached(n, row * k + col) + 1
      {
        if count <= n {
          matrix[row, col] := count;
          count := count + 1;
        }
      }
      assert row * k + k == (row + 1) * k;
    }
  }

  method ReadMembers(matrix: array2<int>, n: int, k: nat, row: nat, col: nat) returns (members: seq<int>)
    requires matrix.Length0 == k && matrix.Length1 == k && row < k && col < k
    requires NumberedUpTo(matrix, n, k, k, 0)
    ensures members == Members(n, k, row, col)
  {
    members := [];
    for idx := 0 to k
      invariant members == RowPart(n, k, row, idx)
    {
      if matrix[row, idx] != -1 {
        members := members + [matrix[row, idx]];
      }
    }
    for temp := 0 to k
      invariant members == RowPart(n, k, row, k) + ColumnPart(n, k, row, col, temp)
    {
      if temp != row {
        if matrix[temp, col] != -1 {
          members := members + [matrix[temp, col]];
        }
      }
    }
  }

  /** The quorums of the first `places` places are listed, but no more than `n`. */
  ghost predicate Listed(list: seq<Quorum>, n: int, k: nat, places: nat)
    requires k >= 1
  {
    && |list| == (if 0 <= n <= places then n else places)
    && forall i :: 0 <= i < |list| ==> list[i] == QuorumOf(n, k, i / k, i % k)
  }

  lemma ListOneMore(list: seq<Quorum>, n: int, k: nat, row: nat, col: nat)
    requires col < k && |list| != n && Listed(list, n, k, row * k + col)
    ensures Listed(list + [QuorumOf(n, k, row, col)], n, k, row * k + col + 1)
  {
    PlaceIsUnique(k, row, col);
  }

  lemma AllListed(list: seq<Quorum>, n: int)
    requires Listed(list, n, Side(n), Side(n) * Side(n))
    ensures list == Assignment(n)
  {
    SideIsLeast(n);
    if n < 0 {
      assert RowPart(n, 1, 0, 0) == [] && Kept(Cell(n, 1, 0, 0)) == [];
      assert RowPart(n, 1, 0, 1) == [];
      assert ColumnPart(n, 1, 0, 0, 0) == [];
      assert ColumnPart(n, 1, 0, 0, 1) == [];
    }
  }

  method FindSide(n: int) returns (k: nat)
    ensures k == Side(n)
  {
    k := 1;
    while k * k < n
      invariant k >= 1 && SideFrom(k, n) == Side(n)
      decreases n - k
    {
      Grows(k);
      k := k + 1;
    }
  }

  method QuorumAssignment(n: int) returns (list: seq<Quorum>)
    ensures list == Assignment(n)
  {
    list := [];
    var k := FindSide(n);
    var matrix := NumberPlaces(n, k);
    for row := 0 to k
      invariant NumberedUpTo(matrix, n, k, k, 0)
      invariant Listed(list, n, k, row * k)
    {
      for col := 0 to k
        invariant NumberedUpTo(matrix, n, k, k, 0)
        invariant Listed(list, n, k, row * k + col)
      {
        if |list| == n {
          break;
        }
        var id := matrix[row, col];
        var members := ReadMembers(matrix, n, k, row, col);
        ListOneMore(list, n, k, row, col);
        list := list + [Quorum(id, members)];
      }
      assert row * k + k == (row + 1) * k;
    }
    AllListed(list, n);
  }
}
