/**
 * The controller's part of `packet-manager.go`: announced requests and ready
 * responses are kept sorted by order id, and a response leaves only when the
 * oldest announced request is its own.
 */
module PacketOrder {
  /** What the controller sees of a packet: its order id and its request id. */
  datatype Item = Item(oid: nat, id: nat)

  predicate Ascending(s: seq<Item>) {
    forall i, j :: 0 <= i < j < |s| ==> s[i].oid < s[j].oid
  }

  function Insert(s: seq<Item>, x: Item): seq<Item> {
    if s == [] || s[|s| - 1].oid <= x.oid then s + [x] else Insert(s[..|s| - 1], x) + [s[|s| - 1]]
  }

  /** `orderedPackets.Sort`. */
  function Sort(s: seq<Item>): seq<Item> {
    if s == [] then [] else Insert(Sort(s[..|s| - 1]), s[|s| - 1])
  }

  lemma {:induction false} InsertContents(s: seq<Item>, x: Item)
    ensures multiset(Insert(s, x)) == multiset(s) + multiset{x}
    ensures |Insert(s, x)| == |s| + 1
  {
    if s != [] && s[|s| - 1].oid > x.oid {
      InsertContents(s[..|s| - 1], x);
      assert s == s[..|s| - 1] + [s[|s| - 1]];
    }
  }

  lemma InsertMembers(s: seq<Item>, x: Item)
    ensures forall y :: y in Insert(s, x) <==> y in s || y == x
  {
    hide Insert;
    InsertContents(s, x);
    forall y ensures y in Insert(s, x) <==> y in s || y == x {
      assert y in Insert(s, x) <==> y in multiset(Insert(s, x));
      assert y in s <==> y in multiset(s);
    }
  }

  lemma {:induction false} InsertAscending(s: seq<Item>, x: Item)
    requires Ascending(s) && forall i :: 0 <= i < |s| ==> s[i].oid != x.oid
    ensures Ascending(Insert(s, x))
    ensures forall y :: y in Insert(s, x) <==> y in s || y == x
  {
    InsertMembers(s, x);
    if s != [] && s[|s| - 1].oid > x.oid {
      var t, last := s[..|s| - 1], s[|s| - 1];
      InsertAscending(t, x);
      var u := Insert(t, x);
      assert Insert(s, x) == u + [last];
      forall i | 0 <= i < |u| ensures u[i].oid < last.oid {
        assert u[i] in u;
      }
      hide Insert;
    }
  }

  /** Sorting a list already in order changes nothing. */
  lemma {:induction false} SortOfAscending(s: seq<Item>)
    requires Ascending(s)
    ensures Sort(s) == s
  {
    if s != [] {
      var t := s[..|s| - 1];
      SortOfAscending(t);
      assert s == t + [s[|s| - 1]];
    }
  }

  /** What `append` and then `Sort` do to a list that is in order. */
  lemma SortAppended(s: seq<Item>, x: Item)
    requires Ascending(s)
    ensures Sort(s + [x]) == Insert(s, x)
  {
    assert (s + [x])[..|s|] == s;
    SortOfAscending(s);
  }

  lemma HeadIsLeast(s: seq<Item>, x: Item)
    requires Ascending(s) && x in multiset(s)
    ensures s != [] && (x == s[0] || s[0].oid < x.oid)
  {
    var i :| 0 <= i < |s| && s[i] == x;
  }

  lemma TailContents(s: seq<Item>)
    requires s != [] && Ascending(s)
    ensures multiset(s[1..]) == multiset(s) - multiset{s[0]} && Ascending(s[1..]) && s[0] in multiset(s)
    ensures s == [s[0]] + s[1..]
  {
    assert s == [s[0]] + s[1..];
  }

  /** Any correct sort of packets with different order ids gives the same list. */
  lemma {:induction false} SortIsUnique(s: seq<Item>, t: seq<Item>)
    requires Ascending(s) && Ascending(t) && multiset(s) == multiset(t)
    ensures s == t
  {
    hide Ascending;
    if s == [] {
      assert |t| == |multiset(t)|;
    } else {
      TailContents(s);
      HeadIsLeast(t, s[0]);
      TailContents(t);
      HeadIsLeast(s, t[0]);
      SortIsUnique(s[1..], t[1..]);
    }
  }

  /** How many leading requests have their response at the same place. */
  function Matching(incoming: seq<Item>, outgoing: seq<Item>): (n: nat)
    ensures n <= |incoming| && n <= |outgoing|
    ensures forall i :: 0 <= i < n ==> incoming[i].oid == outgoing[i].oid
    ensures n < |incoming| && n < |outgoing| ==> incoming[n].oid != outgoing[n].oid
  {
    if incoming == [] || outgoing == [] || incoming[0].oid != outgoing[0].oid then 0
    else 1 + Matching(incoming[1..], outgoing[1..])
  }

  function Oids(s: seq<Item>): (r: seq<nat>)
    ensures |r| == |s| && forall i :: 0 <= i < |s| ==> r[i] == s[i].oid
  {
    seq(|s|, i requires 0 <= i < |s| => s[i].oid)
  }

  lemma MatchingStep(incoming: seq<Item>, outgoing: seq<Item>)
    ensures Matching(incoming, outgoing) ==
      if incoming == [] || outgoing == [] || incoming[0].oid != outgoing[0].oid then 0
      else 1 + Matching(incoming[1..], outgoing[1..])
  {
  }

  lemma OidsNext(s: seq<Item>, k: nat)
    requires k < |s|
    ensures Oids(s[..k + 1]) == Oids(s[..k]) + [s[k].oid]
  {
  }

  class PacketManager {
    var incoming: seq<Item>
    var outgoing: seq<Item>
    /** Responses written to the connection, and order ids whose pages were released. */
    var sent: seq<Item>
    var released: seq<nat>

    constructor ()
      ensures incoming == [] && outgoing == [] && sent == [] && released == []
    {
      incoming, outgoing, sent, released := [], [], [], [];
    }

    /** `maybeSendPackets`: sends exactly the matching head of the two lists. */
    method MaybeSendPackets()
      modifies this
      ensures
        var n := Matching(old(incoming), old(outgoing));
        && incoming == old(incoming)[n..]
        && outgoing == old(outgoing)[n..]
        && sent == old(sent) + old(outgoing)[..n]
        && released == old(released) + Oids(old(incoming)[..n])
      ensures incoming != [] && outgoing != [] ==> incoming[0].oid != outgoing[0].oid
    {
      hide Matching, Oids;
      ghost var k := 0;
      while true
        invariant k <= |old(incoming)| && k <= |old(outgoing)|
        invariant incoming == old(incoming)[k..] && outgoing == old(outgoing)[k..]
        invariant sent == old(sent) + old(outgoing)[..k]
        invariant released == old(released) + Oids(old(incoming)[..k])
        invariant Matching(old(incoming), old(outgoing)) == k + Matching(incoming, outgoing)
        decreases |incoming|
      {
        MatchingStep(incoming, outgoing);
        if |outgoing| == 0 || |incoming| == 0 {
          break;
        }
        var out, inc := outgoing[0], incoming[0];
        if inc.oid != out.oid {
          break;
        }
        OidsNext(old(incoming), k);
        assert old(outgoing)[..k + 1] == old(outgoing)[..k] + [out];
        sent := sent + [out];
        released := released + [inc.oid];
        incoming := incoming[1..];
        outgoing := outgoing[1..];
        k := k + 1;
      }
    }

    /** The controller takes an announced request from the `requests` channel. */
    method OnRequest(pkt: Item)
      requires Ascending(incoming)
      modifies this
      ensures
        var inc := Insert(old(incoming), pkt);
        var n := Matching(inc, old(outgoing));
        && incoming == inc[n..] && outgoing == old(outgoing)[n..] && sent == old(sent) + old(outgoing)[..n]
        && released == old(released) + Oids(inc[..n])
      ensures (forall i :: 0 <= i < |old(incoming)| ==> old(incoming)[i].oid < pkt.oid) ==>
        Insert(old(incoming), pkt) == old(incoming) + [pkt]
    {
      SortAppended(incoming, pkt);
      incoming := Sort(incoming + [pkt]);
      MaybeSendPackets();
    }

    /** The controller takes a ready response from the `responses` channel. */
    method OnResponse(pkt: Item)
      requires Ascending(outgoing)
      modifies this
      ensures
        var out := Insert(old(outgoing), pkt);
        var n := Matching(old(incoming), out);
        && incoming == old(incoming)[n..] && outgoing == out[n..] && sent == old(sent) + out[..n]
        && released == old(released) + Oids(old(incoming)[..n])
    {
      SortAppended(outgoing, pkt);
      outgoing := Sort(outgoing + [pkt]);
      MaybeSendPackets();
    }
  }
}
