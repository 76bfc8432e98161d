/**
 * Choosing a datanode (`datanode_failover.go`): one that has never failed if
 * there is one, else the one whose last failure is the oldest. A node picked is
 * taken off the list.
 */
module Failover {
  /** Times of the last failure, by address. */
  type Failures = map<string, int>

  /** Whether the i-th node is to be preferred to the j-th. */
  predicate Better(nodes: seq<string>, failures: Failures, i: nat, j: nat)
    requires i < |nodes| && j < |nodes|
  {
    if nodes[j] !in failures then nodes[i] !in failures && i <= j
    else nodes[i] !in failures || failures[nodes[i]] < failures[nodes[j]]
         || (failures[nodes[i]] == failures[nodes[j]] && i <= j)
  }

  /** The node to try next: better than every other one. */
  ghost predicate Best(nodes: seq<string>, failures: Failures, i: nat) {
    i < |nodes| && forall j :: 0 <= j < |nodes| ==> Better(nodes, failures, i, j)
  }

  lemma BestIsUnique(nodes: seq<string>, failures: Failures, i: nat, j: nat)
    requires Best(nodes, failures, i) && Best(nodes, failures, j)
    ensures i == j
  {
    assert Better(nodes, failures, i, j) && Better(nodes, failures, j, i);
  }

  class Datanodes {
    var datanodes: seq<string>
    var current: string
    /** The nodes picked so far. */
    ghost var tried: seq<string>

    constructor (datanodes: seq<string>)
      ensures this.datanodes == datanodes && tried == [] && current == ""
    {
      this.datanodes, current, tried := datanodes, "", [];
    }

    method Next(failures: Failures) returns (address: string)
      modifies this
      ensures old(datanodes) == [] ==> address == "" && datanodes == [] && tried == old(tried) && current == old(current)
      ensures old(datanodes) != [] ==>
        exists i: nat :: Best(old(datanodes), failures, i) && address == current == old(datanodes)[i]
          && datanodes == old(datanodes)[..i] + old(datanodes)[i + 1..] && tried == old(tried) + [address]
    {
      if |datanodes| == 0 {
        return "";
      }
      var picked := 0;
      var oldest: int := 0;
      var none := true;
      var i := 0;
      while i < |datanodes|
        invariant i <= |datanodes| && (none <==> i == 0)
        invariant i > 0 ==> picked < i && datanodes[picked] in failures && oldest == failures[datanodes[picked]]
        invariant forall j :: 0 <= j < i ==> datanodes[j] in failures && Better(datanodes, failures, picked, j)
      {
        if datanodes[i] !in failures {
          picked := i;
          break;
        } else if none || failures[datanodes[i]] < oldest {
          picked, oldest, none := i, failures[datanodes[i]], false;
        }
        i := i + 1;
      }
      assert Best(datanodes, failures, picked);
      address := datanodes[picked];
      datanodes := datanodes[..picked] + datanodes[picked + 1..];
      current := address;
      tried := tried + [address];
    }
  }

  /** Taking one out and noting it loses nothing: each entry is tried once. */
  lemma TakenOnce(nodes: seq<string>, i: nat)
    requires i < |nodes|
    ensures multiset(nodes[..i] + nodes[i + 1..]) + multiset([nodes[i]]) == multiset(nodes)
  {
    assert nodes == nodes[..i] + [nodes[i]] + nodes[i + 1..];
  }
}
