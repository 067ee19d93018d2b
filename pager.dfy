/** The paging controller of the infinite-scroll demo: the four pieces of
    component state, the load operation (split at its one suspension point,
    the simulated network delay), the visibility-callback guard, and whole
    sessions driven by a sequence of events. */
module Paging {
  import opened Items

  /** The paging state. `items` is only ever appended to, `hasMore` only
      ever goes from true to false, and at most one load is in flight: the
      one `isLoading` marks. */
  class Pager {
    var items: seq<Item>
    var page: nat
    var isLoading: bool
    var hasMore: bool

    /** The accumulated list is exactly the batches of the pages loaded so
        far, and more pages remain exactly while the last page is not yet
        loaded. */
    ghost predicate Valid()
      reads this
    {
      items == Batches(page) && (hasMore <==> page <= LastPage)
    }

    /** The initial state: no items, page 0, idle, more to come. */
    constructor ()
      ensures Valid()
      ensures items == [] && page == 0 && !isLoading && hasMore
    {
      items, page, isLoading, hasMore := [], 0, false, true;
    }

    /** The synchronous part of a load: a call made while a load is in
        flight returns at once and changes nothing; otherwise it marks a load
        as in flight. It does not look at `hasMore`. */
    method BeginLoad() returns (started: bool)
      requires Valid()
      modifies this
      ensures Valid()
      ensures started == !old(isLoading)
      ensures isLoading
      ensures items == old(items) && page == old(page) && hasMore == old(hasMore)
    {
      if isLoading {
        return false;
      }
      isLoading := true;
      started := true;
    }

    /** The part of a load after the delay: append the batch of the current
        page, advance the page, latch `hasMore` off once the page just loaded
        is the last one, and mark the load settled. */
    method CompleteLoad()
      requires Valid() && isLoading
      modifies this
      ensures Valid()
      ensures items == old(items) + GenerateItems(old(page))
      ensures page == old(page) + 1
      ensures hasMore == (old(hasMore) && old(page) < LastPage)
      ensures !isLoading
    {
      var newItems := GenerateItems(page);
      items := items + newItems;
      if page >= LastPage {
        hasMore := false;
      }
      page := page + 1;
      isLoading := false;
    }

    /** A load run to completion without anything in between: a no-op while
        another load is in flight, one whole page otherwise. */
    method LoadMore()
      requires Valid()
      modifies this
      ensures Valid()
      ensures old(isLoading) ==> isLoading && items == old(items) && page == old(page) && hasMore == old(hasMore)
      ensures !old(isLoading) ==>
                && !isLoading
                && items == old(items) + GenerateItems(old(page))
                && page == old(page) + 1
                && hasMore == (old(hasMore) && old(page) < LastPage)
    {
      var started := BeginLoad();
      if started {
        CompleteLoad();
      }
    }

    /** The visibility callback: a load starts only when the sentinel is
        visible, nothing is in flight and more pages remain; otherwise
        nothing changes. */
    method OnIntersect(isIntersecting: bool) returns (started: bool)
      requires Valid()
      modifies this
      ensures Valid()
      ensures started == (isIntersecting && !old(isLoading) && old(hasMore))
      ensures isLoading == (old(isLoading) || started)
      ensures items == old(items) && page == old(page) && hasMore == old(hasMore)
    {
      if isIntersecting && !isLoading && hasMore {
        started := BeginLoad();
      } else {
        started := false;
      }
    }
  }

  /** What can happen to the mounted component: the visibility callback
      fires, or the pending delay (if any) runs out. */
  datatype Event = Intersect(isIntersecting: bool) | Settle

  /** Mount the component (one unconditional load) and feed it `events` in
      order. Whatever the events, the final state keeps the paging
      invariants, no two loads ever overlap (every load started but one at
      most has completed, and that one is the load in flight), and no load
      is ever started for a page past the last one. */
  method Run(events: seq<Event>) returns (items: seq<Item>, page: nat, isLoading: bool, hasMore: bool, started: nat, completed: nat)
    ensures |items| == page * PageSize
    ensures forall k :: 0 <= k < |items| ==> items[k].id == k + 1
    ensures hasMore <==> page <= LastPage
    ensures completed == page
    ensures started == completed + (if isLoading then 1 else 0)
    ensures 1 <= started <= LastPage + 1
  {
    var p := new Pager();
    var s := p.BeginLoad();
    assert s;  // the mount load is the one that starts
    started, completed := 1, 0;
    for i := 0 to |events|
      invariant p.Valid()
      invariant completed == p.page
      invariant started == completed + (if p.isLoading then 1 else 0)
      invariant 1 <= started <= LastPage + 1
    {
      match events[i]
      case Intersect(visible) =>
        s := p.OnIntersect(visible);
        if s {
          started := started + 1;
        }
      case Settle =>
        if p.isLoading {
          p.CompleteLoad();
          completed := completed + 1;
        }
    }
    items, page, isLoading, hasMore := p.items, p.page, p.isLoading, p.hasMore;
    BatchesIds(page);
  }

  /** Number of true entries. */
  function CountTrue(signals: seq<bool>): nat
  {
    if signals == [] then 0 else CountTrue(signals[..|signals| - 1]) + (if signals[|signals| - 1] then 1 else 0)
  }

  function Min(a: nat, b: nat): nat
  {
    if a <= b then a else b
  }

  /** Mount the component and let its first load settle, then for each
      signal fire the visibility callback and let any load it starts settle.
      The session ends with one page per accepted signal plus the mount page,
      capped at the last page; after four accepted signals it holds exactly
      the ids 1 .. 50 and further signals change nothing. */
  method ScrollSession(signals: seq<bool>) returns (items: seq<Item>, page: nat, hasMore: bool)
    ensures page == Min(CountTrue(signals) + 1, LastPage + 1)
    ensures items == Batches(page)
    ensures hasMore <==> page <= LastPage
    ensures CountTrue(signals) >= LastPage ==>
              !hasMore && Ids(items) == seq(50, k requires 0 <= k < 50 => k + 1)
  {
    var p := new Pager();
    var s := p.BeginLoad();
    assert s;  // the mount load is the one that starts
    p.CompleteLoad();
    for i := 0 to |signals|
      invariant p.Valid() && !p.isLoading
      invariant p.page == Min(CountTrue(signals[..i]) + 1, LastPage + 1)
    {
      assert signals[..i + 1][..i] == signals[..i];
      s := p.OnIntersect(signals[i]);
      if s {
        p.CompleteLoad();
      }
    }
    assert signals[..|signals|] == signals;
    items, page, hasMore := p.items, p.page, p.hasMore;
    if CountTrue(signals) >= LastPage {
      AllPagesIds();
    }
  }
}
