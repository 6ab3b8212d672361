/** On the quorums that the testbed builds: which nodes can get the token when nobody else asks. */
module GridReach {
  import opened Grid
  import opened GridQuorums
  import opened GridExclusion
  import opened LakProtocol
  import opened LakSystem
  import opened LakReach

  /** In the first row, or in one of the first nine columns. */
  predicate NearTheToken(n: int, j: int) {
    SameRow(n, j, 1) || (j - 1) % Side(n) <= 8
  }

  lemma OneInQuorum(n: nat, quorums: Quorums, m: int)
    requires IsGrid(n, quorums) && m in quorums
    ensures StartsWithOne(quorums[m]) <==> SameRow(n, m, 1) || SameColumn(n, m, 1)
  {
    forall q | q in quorums[m] ensures 1 <= q {
      assert OnLines(n, m, q);
    }
    assert IsNode(n, 1);
  }

  lemma FirstPlace(n: nat)
    requires n >= 1
    ensures 0 / Side(n) == 0 && 0 % Side(n) == 0
  {
    PlaceIsUnique(Side(n), 0, 0);
  }

  /** A guide is in the first row and the asker's column, or in the asker's row and the first column. */
  lemma GuideIsACorner(n: nat, quorums: Quorums, j: int, m: int)
    requires IsGrid(n, quorums) && Guide(quorums, j, m) && m <= 9 && !SameRow(n, j, 1)
    ensures (j - 1) % Side(n) <= 8
  {
    var k := Side(n);
    OneInQuorum(n, quorums, m);
    assert OnLines(n, j, m);
    FirstPlace(n);
    RowInGrid(n, m - 1);
    RowInGrid(n, j - 1);
    if (m - 1) / k > 0 {
      RowsApart(k, 0, (m - 1) / k);
    }
  }

  lemma CornerGuides(n: nat, quorums: Quorums, j: int)
    requires IsGrid(n, quorums) && j in quorums && !SameRow(n, j, 1) && (j - 1) % Side(n) <= 8
    ensures Served(quorums, j)
  {
    var k := Side(n);
    FirstPlace(n);
    RowInGrid(n, j - 1);
    var m := (j - 1) % k + 1;
    PlaceIsUnique(k, 0, m - 1);
    RowsApart(k, 0, (j - 1) / k);
    assert OnLines(n, j, m);
    OneInQuorum(n, quorums, m);
    assert Guide(quorums, j, m);
  }

  lemma ServedOnGrid(n: nat, quorums: Quorums, j: int)
    requires IsGrid(n, quorums) && j in quorums
    ensures Served(quorums, j) <==> NearTheToken(n, j)
  {
    OneInQuorum(n, quorums, j);
    FirstPlace(n);
    if NearTheToken(n, j) && !SameRow(n, j, 1) {
      CornerGuides(n, quorums, j);
    }
    if m :| Guide(quorums, j, m) && m <= 9 {
      if !SameRow(n, j, 1) {
        GuideIsACorner(n, quorums, j, m);
      }
    }
  }

  /** Exactly which nodes of the grid can ever enter when nobody else asks. */
  lemma GridEntersIff(n: nat, j: int)
    requires IsNode(n, j)
    ensures (exists acts :: GetsIn(GridMap(n), j, acts)) <==> NearTheToken(n, j)
  {
    GridMapIsGrid(n);
    GridIsProper(n, GridMap(n));
    NodeOneAlone(n, GridMap(n));
    CanEnterAloneIff(GridMap(n), j);
    ServedOnGrid(n, GridMap(n), j);
  }

  /** Every node can, exactly on the grids for up to 81 nodes. */
  lemma EveryNodeEntersIff(n: nat)
    ensures (forall j :: IsNode(n, j) ==> exists acts :: GetsIn(GridMap(n), j, acts)) <==> n <= 81
  {
    var k := Side(n);
    SideIsLeast(n);
    if n <= 81 {
      forall j | IsNode(n, j) ensures exists acts :: GetsIn(GridMap(n), j, acts) {
        assert 9 < k ==> 9 * 9 < n;
        RowInGrid(n, j - 1);
        GridEntersIff(n, j);
      }
    } else {
      var j := k + 10;
      FarFromTheToken(n);
      GridEntersIff(n, j);
    }
  }

  lemma SmallSquare(k: nat)
    requires k <= 9
    ensures k * k <= 81
  {
    RowsApart(k, k, 10);
  }

  lemma FarFromTheToken(n: nat)
    requires n > 81
    ensures IsNode(n, Side(n) + 10) && !NearTheToken(n, Side(n) + 10)
  {
    var k := Side(n);
    SideIsLeast(n);
    assert k > 9 by {
      if k <= 9 {
        SmallSquare(k);
        assert false;
      }
    }
    assert (k - 1) * (k - 1) < n;
    assert (k - 1) * (k - 1) == k * k - 2 * k + 1;
    assert k * k >= 10 * k;
    FirstPlace(n);
    PlaceIsUnique(k, 1, 9);
    assert 1 * k + 9 == k + 10 - 1;
  }
}
