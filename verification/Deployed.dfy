/** The quorums as the nodes read them: built on the grid, translated to machine numbers and
    written to one file a machine. Translation keeps the shape of the grid, so it decides which
    requesters are safe on the machines, too. */
module Deployed {
  import opened Grid
  import opened GridQuorums
  import opened GridExclusion
  import opened Hosts
  import opened MakSystem
  import opened MakSafety
  import opened MakExclusion
  import opened MakReliable
  import opened MakRelinquish
  import opened Sums

  function ReadFiles(files: map<int, seq<int>>): Quorums {
    map h | h in files :: SetOf(files[h])
  }

  /** What the nodes read from the files. */
  function DeployedMap(n: nat): Quorums {
    ReadFiles(Files(Assignment(n)))
  }

  /** A list of the rows and columns of the grid. */
  ghost predicate GridList(n: nat, list: seq<Quorum>) {
    && |list| == n
    && (forall i :: 0 <= i < n ==> list[i].id == i + 1)
    && (forall i, b :: 0 <= i < n ==> (b in list[i].members <==> OnLines(n, i + 1, b)))
  }

  /** The rows and columns of the grid, in machine numbers. */
  ghost predicate IsDeployed(n: nat, quorums: Quorums) {
    && (forall h :: h in quorums <==> RunsNode(n, h))
    && (forall h, g :: h in quorums ==> (g in quorums[h] <==> Served(n, h, g)))
  }

  /** The node on machine `g` is in the quorum of the node on machine `h`. */
  predicate Served(n: nat, h: int, g: int) {
    RunsNode(n, g) && OnLines(n, NodeOf(h), NodeOf(g))
  }

  lemma RunsOneOf(n: nat, h: int)
    requires RunsNode(n, h)
    ensures IsNode(n, NodeOf(h)) && Host(NodeOf(h)) == h
  {
    HostOfNode(h);
  }

  lemma HostRuns(n: nat, a: int)
    requires IsNode(n, a)
    ensures RunsNode(n, Host(a)) && NodeOf(Host(a)) == a
  {
    NodeOfHost(a);
  }

  lemma AssignmentIds(n: nat)
    ensures forall i :: 0 <= i < n ==> Assignment(n)[i].id == i + 1
  {
    GridShape(n);
    forall i | 0 <= i < n ensures Assignment(n)[i].id == i + 1 {
      assert Shaped(n, i + 1, Assignment(n)[i]);
    }
  }

  lemma AssignmentIsGridList(n: nat)
    ensures GridList(n, Assignment(n))
  {
    AssignmentIds(n);
    forall i, b | 0 <= i < n ensures b in Assignment(n)[i].members <==> OnLines(n, i + 1, b) {
      MembersAreOnLines(n, i, b);
    }
  }

  lemma MembersAreOnLines(n: nat, i: nat, b: int)
    requires i < n
    ensures b in Assignment(n)[i].members <==> OnLines(n, i + 1, b)
  {
    InSetOf(Assignment(n)[i].members, b);
    QuorumSetIff(n, i + 1, b);
  }

  /** The table covers everything the builder returns for up to 36 nodes. */
  lemma AllTranslatable(n: nat, i: nat)
    requires n <= LAST_NODE && i < n
    ensures Translatable(Assignment(n)[i])
  {
    AssignmentIsGridList(n);
    forall m | m in Assignment(n)[i].members ensures 0 <= m <= LAST_NODE {
      assert OnLines(n, i + 1, m);
    }
  }

  lemma DeployedQuorum(n: nat, list: seq<Quorum>, h: int, g: int)
    requires GridList(n, list)
    ensures h in Files(list) <==> RunsNode(n, h)
    ensures h in Files(list) ==> (g in Files(list)[h] <==> Served(n, h, g))
  {
    FilesOfNodes(list, h);
    if h in Files(list) {
      var a := NodeOf(h);
      var members := list[a - 1].members;
      forall m | m in members ensures m > 0 {
        assert OnLines(n, a, m);
      }
      HostsOfIff(members, g);
      assert NodeOf(g) in members <==> OnLines(n, a, NodeOf(g));
    }
  }

  lemma FilesAreDeployed(n: nat, list: seq<Quorum>)
    requires GridList(n, list)
    ensures IsDeployed(n, ReadFiles(Files(list)))
  {
    var quorums := ReadFiles(Files(list));
    forall h ensures h in quorums <==> RunsNode(n, h) {
      DeployedQuorum(n, list, h, h);
    }
    forall h, g | h in quorums ensures g in quorums[h] <==> Served(n, h, g) {
      DeployedQuorum(n, list, h, g);
      InSetOf(Files(list)[h], g);
    }
  }

  lemma DeployedIsDeployed(n: nat)
    ensures IsDeployed(n, DeployedMap(n))
  {
    AssignmentIsGridList(n);
    FilesAreDeployed(n, Assignment(n));
  }

  lemma DeployedIsProper(n: nat, quorums: Quorums)
    requires IsDeployed(n, quorums)
    ensures OwnMember(quorums) && Closed(quorums)
  {
    forall h | h in quorums ensures h in quorums[h] && quorums[h] <= quorums.Keys {
      RunsOneOf(n, h);
      assert Served(n, h, h);
      forall g | g in quorums[h] ensures g in quorums {
        assert Served(n, h, g);
      }
    }
  }

  /** Two quorums read from the files share a machine, and are symmetric. */
  lemma DeployedIntersection(n: nat, h: int, g: int)
    requires h in DeployedMap(n) && g in DeployedMap(n)
    ensures exists c :: c in DeployedMap(n)[h] && c in DeployedMap(n)[g]
    ensures g in DeployedMap(n)[h] <==> h in DeployedMap(n)[g]
  {
    DeployedIsDeployed(n);
    RunsOneOf(n, h);
    RunsOneOf(n, g);
    assert Served(n, h, g) <==> Served(n, g, h);
    var lo, hi := if h <= g then h else g, if h <= g then g else h;
    var c := Corner(n, NodeOf(lo), NodeOf(hi));
    CornerExists(n, NodeOf(lo), NodeOf(hi));
    HostRuns(n, c);
    assert Served(n, lo, Host(c)) && Served(n, hi, Host(c));
  }

  lemma DeployedQuorumHasTwo(n: nat, quorums: Quorums, h: int)
    requires IsDeployed(n, quorums) && n >= 2 && h in quorums
    ensures |quorums[h]| >= 2
  {
    RunsOneOf(n, h);
    var b := LineWithAnother(n, NodeOf(h));
    HostRuns(n, b);
    assert Served(n, h, h) && Served(n, h, Host(b));
    Smaller({h, Host(b)}, quorums[h]);
  }

  // ----- which requesters are safe

  function HostSet(nodes: set<int>): set<int> {
    set a | a in nodes :: Host(a)
  }

  ghost predicate SharedOutside(quorums: Quorums, machines: set<int>, x: int, y: int)
    requires x in quorums && y in quorums
  {
    exists g :: g in quorums[x] && g in quorums[y] && g !in machines
  }

  lemma HostSetIff(n: nat, nodes: set<int>, g: int)
    requires (forall a :: a in nodes ==> IsNode(n, a)) && RunsNode(n, g)
    ensures g in HostSet(nodes) <==> NodeOf(g) in nodes
  {
    RunsOneOf(n, g);
    if g in HostSet(nodes) {
      var a :| a in nodes && Host(a) == g;
      HostRuns(n, a);
    }
  }

  lemma ArbiterOnMachines(n: nat, quorums: Quorums, nodes: set<int>, x: int, y: int)
    requires IsDeployed(n, quorums) && (forall a :: a in nodes ==> IsNode(n, a))
    requires IsNode(n, x) && IsNode(n, y) && Host(x) in quorums && Host(y) in quorums
    ensures SharedOutside(quorums, HostSet(nodes), Host(x), Host(y)) <==> ArbiterFor(n, nodes, x, y)
  {
    HostRuns(n, x);
    HostRuns(n, y);
    if ArbiterFor(n, nodes, x, y) {
      var b :| b !in nodes && OnLines(n, x, b) && OnLines(n, y, b);
      HostRuns(n, b);
      HostSetIff(n, nodes, Host(b));
      assert Served(n, Host(x), Host(b)) && Served(n, Host(y), Host(b));
    }
    if SharedOutside(quorums, HostSet(nodes), Host(x), Host(y)) {
      var g :| g in quorums[Host(x)] && g in quorums[Host(y)] && g !in HostSet(nodes);
      assert Served(n, Host(x), g) && Served(n, Host(y), g);
      HostSetIff(n, nodes, g);
    }
  }

  lemma ArbitersOnMachines(n: nat, quorums: Quorums, nodes: set<int>)
    requires IsDeployed(n, quorums) && (forall a :: a in nodes ==> IsNode(n, a))
    ensures HostSet(nodes) <= quorums.Keys
    ensures ShareOutside(quorums, HostSet(nodes)) <==> LeaveAnArbiter(n, nodes)
  {
    forall a | a in nodes ensures Host(a) in quorums && NodeOf(Host(a)) == a {
      HostRuns(n, a);
    }
    forall x, y | x in nodes && y in nodes && x != y
      ensures SharedOutside(quorums, HostSet(nodes), Host(x), Host(y)) <==> ArbiterFor(n, nodes, x, y)
      ensures Host(x) != Host(y) && Host(x) in HostSet(nodes) && Host(y) in HostSet(nodes)
    {
      ArbiterOnMachines(n, quorums, nodes, x, y);
    }
    if LeaveAnArbiter(n, nodes) {
      forall g, h | g in HostSet(nodes) && h in HostSet(nodes) && g != h
        ensures SharedOutside(quorums, HostSet(nodes), g, h)
      {
        var x :| x in nodes && Host(x) == g;
        var y :| y in nodes && Host(y) == h;
        assert ArbiterFor(n, nodes, x, y);
      }
    }
    if ShareOutside(quorums, HostSet(nodes)) {
      forall x, y | x in nodes && y in nodes && x != y ensures ArbiterFor(n, nodes, x, y) {
        assert SharedOutside(quorums, HostSet(nodes), Host(x), Host(y));
      }
    }
  }

  /** The whole chain: grid, translation, files, protocol. With requests from the machines of
      `nodes` only, all RELINQUISH-free runs on the quorum files keep at most one machine in its
      critical section if and only if every two of `nodes` leave a common place to another. */
  lemma DeployedExclusionIff(n: nat, nodes: set<int>)
    requires forall a :: a in nodes ==> IsNode(n, a)
    ensures (forall acts :: Feasible(Start(DeployedMap(n)), acts) && Within(acts, HostSet(nodes)) ==>
                              |InCS(After(Start(DeployedMap(n)), acts))| <= 1)
            <==> LeaveAnArbiter(n, nodes)
  {
    DeployedIsDeployed(n);
    MachinesExcludeIff(n, DeployedMap(n), nodes);
  }

  lemma MachinesExcludeIff(n: nat, quorums: Quorums, nodes: set<int>)
    requires IsDeployed(n, quorums) && forall a :: a in nodes ==> IsNode(n, a)
    ensures (forall acts :: Feasible(Start(quorums), acts) && Within(acts, HostSet(nodes)) ==>
                              |InCS(After(Start(quorums), acts))| <= 1)
            <==> LeaveAnArbiter(n, nodes)
  {
    DeployedIsProper(n, quorums);
    ArbitersOnMachines(n, quorums, nodes);
    if n >= 2 {
      forall h | h in HostSet(nodes) ensures |quorums[h]| >= 2 {
        DeployedQuorumHasTwo(n, quorums, h);
      }
      ExclusionIffSharedOutside(quorums, HostSet(nodes));
    } else {
      forall acts | Feasible(Start(quorums), acts) && Within(acts, HostSet(nodes))
        ensures |InCS(After(Start(quorums), acts))| <= 1
      {
        ShareOutsideSuffices(quorums, HostSet(nodes), acts);
      }
    }
  }

  lemma SameManyHosts(n: nat, nodes: set<int>)
    requires forall a :: a in nodes ==> IsNode(n, a)
    ensures |HostSet(nodes)| <= 1 <==> |nodes| <= 1
  {
    if |nodes| >= 2 {
      var x, z := TwoOf(nodes);
      HostRuns(n, x);
      HostRuns(n, z);
      Smaller({Host(x), Host(z)}, HostSet(nodes));
    }
    if |HostSet(nodes)| >= 2 {
      var g, h := TwoOf(HostSet(nodes));
      var x :| x in nodes && Host(x) == g;
      var z :| z in nodes && Host(z) == h;
      Smaller({x, z}, nodes);
    }
  }

  /** And in all runs, RELINQUISH or not, if and only if there is at most one of them. */
  lemma DeployedExclusionIffOneRequester(n: nat, nodes: set<int>)
    requires forall a :: a in nodes ==> IsNode(n, a)
    ensures (forall acts :: Feasible(Start(DeployedMap(n)), acts) && AskedBy(acts, HostSet(nodes)) ==>
                              |InCS(After(Start(DeployedMap(n)), acts))| <= 1)
            <==> |nodes| <= 1
  {
    DeployedIsDeployed(n);
    DeployedIsProper(n, DeployedMap(n));
    ArbitersOnMachines(n, DeployedMap(n), nodes);
    ExclusionIffOneRequester(DeployedMap(n), HostSet(nodes));
    AbleMachines(n, DeployedMap(n), nodes);
    SameManyHosts(n, nodes);
  }

  lemma AbleMachines(n: nat, quorums: Quorums, nodes: set<int>)
    requires IsDeployed(n, quorums) && (forall a :: a in nodes ==> IsNode(n, a)) && HostSet(nodes) <= quorums.Keys
    ensures |Able(quorums, HostSet(nodes))| <= 1 <==> |HostSet(nodes)| <= 1
  {
    Smaller(Able(quorums, HostSet(nodes)), HostSet(nodes));
    if n >= 2 {
      forall h | h in HostSet(nodes) ensures |quorums[h]| >= 2 {
        DeployedQuorumHasTwo(n, quorums, h);
      }
      assert Able(quorums, HostSet(nodes)) == HostSet(nodes);
    } else {
      assert forall a :: a in nodes ==> a in {1};
      Smaller(nodes, {1});
      SameManyHosts(n, nodes);
    }
  }
}
