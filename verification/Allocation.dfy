/**
 * `allocator.go`: buffer pages handed to requests by order id and recycled
 * once the request's response has been written.
 */
module Allocation {
  /** A page is named by the moment it was created. */
  type Page = nat

  /**
   * `available` is the free list and `used` the pages of each request. `owner` is kept for the
   * proof: who holds each page ever created, 0 meaning nobody (order ids start at 1).
   */
  datatype Pages = Pages(available: seq<Page>, used: map<nat, seq<Page>>, owner: seq<nat>)

  function Of(used: map<nat, seq<Page>>, oid: nat): seq<Page> {
    if oid in used then used[oid] else []
  }

  predicate Distinct(s: seq<Page>) {
    forall i, j :: 0 <= i < j < |s| ==> s[i] != s[j]
  }

  predicate AllOwned(s: seq<Page>, owner: seq<nat>, who: nat) {
    forall i :: 0 <= i < |s| ==> s[i] < |owner| && owner[s[i]] == who
  }

  predicate UsedOwned(used: map<nat, seq<Page>>, owner: seq<nat>) {
    forall oid :: oid in used ==> oid > 0 && Distinct(used[oid]) && AllOwned(used[oid], owner, oid)
  }

  /** One element for each page in use. */
  ghost function InUse(used: map<nat, seq<Page>>): set<(nat, nat)> {
    set oid, i | oid in used && 0 <= i < |used[oid]| :: (oid, i)
  }

  ghost predicate Valid(a: Pages) {
    && Distinct(a.available)
    && AllOwned(a.available, a.owner, 0)
    && UsedOwned(a.used, a.owner)
    && |a.available| + |InUse(a.used)| == |a.owner|
  }

  /** The page `GetPage` returns: the last free one, or a new one. */
  function Next(a: Pages): Page {
    if |a.available| > 0 then a.available[|a.available| - 1] else |a.owner|
  }

  function Own(owner: seq<nat>, page: Page, oid: nat): seq<nat> {
    if page < |owner| then owner[page := oid] else owner + [oid]
  }

  function Get(a: Pages, oid: nat): Pages {
    Pages(if |a.available| > 0 then a.available[..|a.available| - 1] else [],
          a.used[oid := Of(a.used, oid) + [Next(a)]],
          Own(a.owner, Next(a), oid))
  }

  function Freed(owner: seq<nat>, oid: nat): (r: seq<nat>)
    ensures |r| == |owner|
    ensures forall p :: 0 <= p < |owner| ==> r[p] == if owner[p] == oid then 0 else owner[p]
  {
    seq(|owner|, p requires 0 <= p < |owner| => if owner[p] == oid then 0 else owner[p])
  }

  function Release(a: Pages, oid: nat): Pages {
    Pages(a.available + Of(a.used, oid), a.used - {oid}, Freed(a.owner, oid))
  }

  ghost function Column(oid: nat, n: nat): (s: set<(nat, nat)>)
    ensures |s| == n
    ensures forall x :: x in s <==> x.0 == oid && x.1 < n
  {
    if n == 0 then {} else Column(oid, n - 1) + {(oid, n - 1)}
  }

  lemma InUseDrop(used: map<nat, seq<Page>>, oid: nat)
    ensures |InUse(used - {oid})| == |InUse(used)| - |Of(used, oid)|
  {
    var c := Column(oid, |Of(used, oid)|);
    assert InUse(used) == InUse(used - {oid}) + c;
    assert InUse(used - {oid}) !! c;
  }

  lemma InUseAdd(used: map<nat, seq<Page>>, oid: nat, page: Page)
    ensures |InUse(used[oid := Of(used, oid) + [page]])| == |InUse(used)| + 1
  {
    hide InUse;
    var used' := used[oid := Of(used, oid) + [page]];
    InUseDrop(used, oid);
    InUseDrop(used', oid);
    assert used' - {oid} == used - {oid};
  }

  lemma GetOwned(a: Pages, oid: nat)
    requires Distinct(a.available) && AllOwned(a.available, a.owner, 0) && UsedOwned(a.used, a.owner) && oid > 0
    ensures
      var a' := Get(a, oid);
      Distinct(a'.available) && AllOwned(a'.available, a'.owner, 0) && UsedOwned(a'.used, a'.owner)
    ensures forall o :: o in a.used ==> Next(a) !in a.used[o]
    ensures Next(a) !in Get(a, oid).available
  {
    var a' := Get(a, oid);
    forall o | o in a.used ensures Next(a) !in a.used[o] && AllOwned(a.used[o], a'.owner, o) {
      assert AllOwned(a.used[o], a.owner, o);
    }
    forall o | o in a'.used ensures o > 0 && Distinct(a'.used[o]) && AllOwned(a'.used[o], a'.owner, o) {
    }
  }

  /** A page is handed out that nobody holds, and every page is still somewhere. */
  lemma GetValid(a: Pages, oid: nat)
    requires Valid(a) && oid > 0
    ensures Valid(Get(a, oid))
    ensures forall o :: o in a.used ==> Next(a) !in a.used[o]
    ensures Next(a) !in Get(a, oid).available
  {
    hide InUse;
    var a' := Get(a, oid);
    InUseAdd(a.used, oid, Next(a));
    GetOwned(a, oid);
  }

  lemma ReleaseValid(a: Pages, oid: nat)
    requires Valid(a) && oid > 0
    ensures Valid(Release(a, oid))
  {
    hide InUse;
    InUseDrop(a.used, oid);
    var a' := Release(a, oid);
    assert AllOwned(Of(a.used, oid), a.owner, oid);
    assert Distinct(a'.available);
    assert AllOwned(a'.available, a'.owner, 0);
    assert UsedOwned(a'.used, a'.owner);
  }

  /** No page of one request is free or belongs to another. */
  lemma Exclusive(a: Pages, oid: nat, page: Page)
    requires Valid(a) && oid in a.used && page in a.used[oid]
    ensures page !in a.available
    ensures forall o :: o in a.used && o != oid ==> page !in a.used[o]
  {
    hide InUse;
    assert AllOwned(a.used[oid], a.owner, oid);
    forall o | o in a.used && o != oid ensures page !in a.used[o] {
      assert AllOwned(a.used[o], a.owner, o);
    }
  }

  class Allocator {
    var available: seq<Page>
    var used: map<nat, seq<Page>>
    var created: nat
    ghost var owner: seq<nat>

    ghost function State(): Pages
      reads this
    {
      Pages(available, used, owner)
    }

    ghost predicate Ok()
      reads this
    {
      Valid(State()) && created == |owner|
    }

    constructor ()
      ensures Ok() && State() == Pages([], map[], [])
    {
      available, used, created, owner := [], map[], 0, [];
    }

    method GetPage(oid: nat) returns (page: Page)
      requires Ok() && oid > 0
      modifies this
      ensures Ok() && State() == Get(old(State()), oid)
      ensures page == Next(old(State())) && page in used[oid]
      ensures page !in old(available)[..if |old(available)| > 0 then |old(available)| - 1 else 0]
      ensures forall o :: o in old(used) ==> page !in old(used)[o]
    {
      GetValid(State(), oid);
      if |available| > 0 {
        page := available[|available| - 1];
        available := available[..|available| - 1];
        owner := owner[page := oid];
      } else {
        page := created;
        created := created + 1;
        owner := owner + [oid];
      }
      used := used[oid := Of(used, oid) + [page]];
    }

    method ReleasePages(oid: nat)
      requires Ok() && oid > 0
      modifies this
      ensures Ok() && State() == Release(old(State()), oid)
    {
      ReleaseValid(State(), oid);
      if oid in used && |used[oid]| > 0 {
        available := available + used[oid];
      }
      used := used - {oid};
      owner := Freed(owner, oid);
    }

    /** `countUsedPages`: together with the free list, every page ever created. */
    method CountUsedPages() returns (n: nat)
      requires Ok()
      ensures n + |available| == created
    {
      n := 0;
      var todo := used.Keys;
      while todo != {}
        invariant todo <= used.Keys
        invariant n == |InUse(used - todo)|
        decreases todo
      {
        var oid :| oid in todo;
        var seen := used - (todo - {oid});
        InUseDrop(seen, oid);
        assert seen - {oid} == used - todo;
        n := n + |used[oid]|;
        todo := todo - {oid};
      }
      assert used - {} == used;
    }

    /** `Free`: nothing is left, so the next page is a new one. */
    method Free()
      requires Ok()
      modifies this
      ensures Ok() && State() == Pages([], map[], [])
    {
      available, used, created, owner := [], map[], 0, [];
    }
  }
}
