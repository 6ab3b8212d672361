/** The testbed's machines: every fifth one runs a switch, the others run nodes. Node numbers are
    translated to machine numbers, and all machines needed are contacted. */
module Hosts {
  import opened Grid
  import opened GridQuorums

  const LAST_NODE := 36
  const MACHINES := 45

  /** The machine of node `k`: the machines with switches are skipped. */
  function Host(k: int): int {
    if k <= 0 then 0 else k + (k - 1) / 4
  }

  /** The node of a machine without a switch. */
  function NodeOf(host: int): int { host - host / 5 }

  lemma HostOfNode(host: int)
    requires host > 0 && host % 5 != 0
    ensures NodeOf(host) > 0 && Host(NodeOf(host)) == host
  {
    var fives, rest := host / 5, host % 5;
    assert host == 5 * fives + rest && NodeOf(host) == 4 * fives + rest;
    assert (4 * fives + rest - 1) / 4 == fives;
  }

  lemma NodeOfHost(k: int)
    requires k > 0
    ensures Host(k) % 5 != 0 && NodeOf(Host(k)) == k
  {
    var fours, rest := (k - 1) / 4, (k - 1) % 4;
    assert k - 1 == 4 * fours + rest && Host(k) == 5 * fours + rest + 1;
  }

  /** Node numbers are translated in order, one to one, to exactly the machines below the last
      that have no switch. */
  lemma HostsAreTheNodeMachines(a: int, b: int, host: int)
    ensures 0 < a < b ==> Host(a) < Host(b)
    ensures 1 <= a <= LAST_NODE ==> 1 <= Host(a) < MACHINES && Host(a) % 5 != 0
    ensures 1 <= host < MACHINES && host % 5 != 0 ==> 1 <= NodeOf(host) <= LAST_NODE && Host(NodeOf(host)) == host
  {
    if a > 0 {
      NodeOfHost(a);
    }
    if host > 0 && host % 5 != 0 {
      HostOfNode(host);
    }
  }

  /** The translation table. */
  method FillTable() returns (trans: array<int>)
    ensures fresh(trans) && trans.Length == LAST_NODE + 1
    ensures forall k :: 0 <= k <= LAST_NODE ==> trans[k] == Host(k)
  {
    trans := new int[LAST_NODE + 1](_ => 0);
    var count, next := 0, 0;
    while count < MACHINES
      invariant 0 <= count <= MACHINES && next == NodeOf(count) && trans[0] == 0
      invariant forall k :: 1 <= k <= next && k <= LAST_NODE ==> trans[k] == Host(k)
    {
      count := count + 1;
      if count % 5 == 0 {
        continue;
      }
      next := next + 1;
      HostOfNode(count);
      trans[next] := count;
    }
  }

  // ----- the quorum files

  /** The table is long enough for a quorum. */
  predicate Translatable(q: Quorum) {
    0 <= q.id <= LAST_NODE && forall m :: m in q.members ==> 0 <= m <= LAST_NODE
  }

  function HostsOf(members: seq<int>): seq<int> {
    seq(|members|, i requires 0 <= i < |members| => Host(members[i]))
  }

  /** The files after writing `quorums` in order, by machine. */
  function Files(quorums: seq<Quorum>): map<int, seq<int>> {
    if quorums == [] then map[]
    else
      var q := quorums[|quorums| - 1];
      Files(quorums[..|quorums| - 1])[Host(q.id) := HostsOf(q.members)]
  }

  method WriteQuorums(quorums: seq<Quorum>) returns (files: map<int, seq<int>>)
    requires forall i :: 0 <= i < |quorums| ==> Translatable(quorums[i])
    ensures files == Files(quorums)
  {
    var trans := FillTable();
    files := map[];
    for i := 0 to |quorums|
      invariant files == Files(quorums[..i])
      invariant forall k :: 0 <= k <= LAST_NODE ==> trans[k] == Host(k)
    {
      var q := quorums[i];
      var lines: seq<int> := [];
      assert Translatable(q);
      for j := 0 to |q.members|
        invariant lines == HostsOf(q.members[..j])
        invariant forall k :: 0 <= k <= LAST_NODE ==> trans[k] == Host(k)
      {
        assert q.members[j] in q.members;
        lines := lines + [trans[q.members[j]]];
      }
      assert q.members[..|q.members|] == q.members;
      files := files[trans[q.id] := lines];
      assert quorums[..i + 1][..i] == quorums[..i];
    }
    assert quorums[..|quorums|] == quorums;
  }

  /** Machine `h` is that of one of the first `n` nodes. */
  predicate RunsNode(n: nat, h: int) {
    h > 0 && h % 5 != 0 && NodeOf(h) <= n
  }

  lemma OneMoreNode(n: nat, h: int)
    requires n > 0
    ensures RunsNode(n, h) <==> RunsNode(n - 1, h) || h == Host(n)
  {
    NodeOfHost(n);
    if h > 0 && h % 5 != 0 {
      HostOfNode(h);
    }
  }

  lemma {:induction false} FilesOfNodes(quorums: seq<Quorum>, h: int)
    requires forall i :: 0 <= i < |quorums| ==> quorums[i].id == i + 1
    ensures h in Files(quorums) <==> RunsNode(|quorums|, h)
    ensures h in Files(quorums) ==>
              1 <= NodeOf(h) <= |quorums| && Files(quorums)[h] == HostsOf(quorums[NodeOf(h) - 1].members)
  {
    if quorums == [] {
      if h > 0 && h % 5 != 0 {
        HostOfNode(h);
      }
    } else {
      var n := |quorums|;
      FilesOfNodes(quorums[..n - 1], h);
      OneMoreNode(n, h);
      NodeOfHost(n);
    }
  }

  lemma HostsOfIff(members: seq<int>, h: int)
    requires forall m :: m in members ==> m > 0
    ensures h in HostsOf(members) <==> h > 0 && h % 5 != 0 && NodeOf(h) in members
  {
    if h in HostsOf(members) {
      var i :| 0 <= i < |members| && Host(members[i]) == h;
      assert members[i] in members;
      NodeOfHost(members[i]);
    }
    if h > 0 && h % 5 != 0 && NodeOf(h) in members {
      HostOfNode(h);
      var i :| 0 <= i < |members| && members[i] == NodeOf(h);
      assert HostsOf(members)[i] == h;
    }
  }

  // ----- contacting the machines

  /** The switch that a node on machine `host` connects to. */
  function SwitchOf(host: int): int { 5 * (host / 5 + 1) }

  function UpTo(last: nat): seq<int> { seq(last, i => i + 1) }

  lemma OneMoreMachine(current: nat)
    requires current > 0
    ensures NodeOf(current) == NodeOf(current - 1) + if current % 5 != 0 then 1 else 0
    ensures SwitchOf(current - 1) == if current % 5 != 0 then current + 5 - current % 5 else current
  {
  }

  /** After the last node's machine comes its switch. */
  lemma LastContacted(nodes: nat, current: nat)
    requires current >= 1 && nodes == NodeOf(current - 1)
    requires if nodes > 0 then (current - 1) % 5 != 0 else current == 1
    ensures Host(nodes) == current - 1
    ensures SwitchOf(Host(nodes)) == if current % 5 != 0 then current + 5 - current % 5 else current
  {
    if nodes > 0 {
      HostOfNode(current - 1);
    }
    OneMoreMachine(current);
  }

  /** For a negative number of nodes the original never gets to the end of the loop. */
  method ContactServers(nodes: nat) returns (contacted: seq<int>)
    ensures contacted == UpTo(Host(nodes)) + [SwitchOf(Host(nodes))]
  {
    var count, current := nodes, 1;
    contacted := [];
    while count != 0
      invariant current >= 1 && count >= 0
      invariant count == nodes - NodeOf(current - 1)
      invariant count == 0 && nodes > 0 ==> (current - 1) % 5 != 0
      invariant contacted == UpTo(current - 1)
      invariant nodes == 0 ==> current == 1
      decreases 2 * count + (if current % 5 == 0 then 1 else 0)
    {
      if current % 5 != 0 {
        count := count - 1;
      }
      OneMoreMachine(current);
      contacted := contacted + [current];
      current := current + 1;
    }
    LastContacted(nodes, current);
    if current % 5 != 0 {
      current := current + 5 - current % 5;
    }
    contacted := contacted + [current];
  }

  lemma NeededBy(nodes: nat, h: int)
    requires 1 <= h <= Host(nodes)
    ensures exists k :: 1 <= k <= nodes && (h == Host(k) || h == SwitchOf(Host(k)))
  {
    NodeOfHost(nodes);
    if h % 5 != 0 {
      HostOfNode(h);
      assert h == Host(NodeOf(h));
    } else {
      HostOfNode(h - 1);
      assert h == SwitchOf(Host(NodeOf(h - 1)));
    }
  }

  lemma ContactedIfNeeded(nodes: nat, k: int)
    requires 1 <= k <= nodes
    ensures 1 <= Host(k) <= Host(nodes) && 1 <= SwitchOf(Host(k)) <= SwitchOf(Host(nodes))
    ensures SwitchOf(Host(k)) > Host(nodes) ==> SwitchOf(Host(k)) == SwitchOf(Host(nodes))
  {
    if k < nodes {
      HostsAreTheNodeMachines(k, nodes, 0);
    }
  }

  lemma InContacted(last: nat, h: int)
    ensures h in UpTo(last) + [SwitchOf(last)] <==> 1 <= h <= last || h == SwitchOf(last)
  {
    var contacted := UpTo(last) + [SwitchOf(last)];
    if 1 <= h <= last {
      assert contacted[h - 1] == h;
    }
    assert contacted[last] == SwitchOf(last);
  }

  /** With at least one node, the machines contacted are exactly those of the nodes and those of
      the switches that these nodes connect to, each once. */
  lemma ContactsAreTheNeeded(nodes: nat, contacted: seq<int>)
    requires nodes >= 1 && contacted == UpTo(Host(nodes)) + [SwitchOf(Host(nodes))]
    ensures Distinct(contacted)
    ensures forall h :: h in contacted <==>
              exists k :: 1 <= k <= nodes && (h == Host(k) || h == SwitchOf(Host(k)))
  {
    forall h ensures h in contacted <==>
                     exists k :: 1 <= k <= nodes && (h == Host(k) || h == SwitchOf(Host(k)))
    {
      InContacted(Host(nodes), h);
      if 1 <= h <= Host(nodes) {
        NeededBy(nodes, h);
      }
      assert h == SwitchOf(Host(nodes)) ==> 1 <= nodes <= nodes && h == SwitchOf(Host(nodes));
      forall k | 1 <= k <= nodes && (h == Host(k) || h == SwitchOf(Host(k))) ensures h in contacted {
        ContactedIfNeeded(nodes, k);
      }
    }
  }
}
