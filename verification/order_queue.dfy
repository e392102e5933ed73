/**
  The order book: a bid side and an ask side, each kept in price/time
  priority and each with an order-id index, plus a ledger that receives the
  orders taken out of the book.
*/
module OrderBook {
  import opened Wrappers
  import opened Events
  import opened OrderPriority

  /**
    `idx` is an id index of `s`: every id it holds leads to the entry of `s`
    with that id, and every entry of `s` is indexed. (The engine's index
    holds iterators into the ordered container; an iterator is modelled by
    the entry it designates.)
  */
  ghost predicate Indexes(idx: map<string, OrderState>, s: seq<OrderState>)
  {
    && (forall id | id in idx :: idx[id] in s && idx[id].Id() == id)
    && (forall e | e in s :: e.Id() in idx)
  }

  /** An index holds exactly the ids of its side. */
  lemma IndexedIds(idx: map<string, OrderState>, s: seq<OrderState>)
    requires Indexes(idx, s)
    ensures idx.Keys == Ids(s)
  {
  }

  /**
    One side of a valid book: in `side`'s priority order, each id at most
    once, exactly what `idx` indexes, and only orders whose direction is `isBuy`.
  */
  ghost predicate SideValid(side: Side, s: seq<OrderState>, idx: map<string, OrderState>, isBuy: bool)
  {
    && Sorted(side, s) && UniqueIds(s) && Indexes(idx, s)
    && (forall e | e in s :: e.order.isBuy == isBuy)
  }

  /** `emplace` on one side keeps it valid, indexes the new entry, and counts one more entry exactly for a new id. */
  lemma EmplaceSide(side: Side, s: seq<OrderState>, idx: map<string, OrderState>, isBuy: bool, x: OrderState)
    requires SideValid(side, s, idx, isBuy) && x.order.isBuy == isBuy
    ensures SideValid(side, Replace(side, s, x), idx[x.Id() := x], isBuy)
    ensures x.Id() !in idx ==> Replace(side, s, x) == InsertSorted(side, s, x)
    ensures |Ids(Replace(side, s, x))| == |Ids(s)| + if x.Id() in Ids(s) then 0 else 1
  {
    IndexedIds(idx, s);
    var r := Replace(side, s, x);
    ReplaceKeepsInvariant(side, s, x);
    IndexAfterReplace(idx, s, side, x);
    forall e | e in r ensures e.order.isBuy == isBuy {
      if e.Id() != x.Id() {
        assert e in s;
      }
    }
    UniqueIdsCount(s);
    UniqueIdsCount(r);
  }

  /** After `Replace`, the index with the new entry set under its id indexes the new side. */
  lemma IndexAfterReplace(idx: map<string, OrderState>, s: seq<OrderState>, side: Side, x: OrderState)
    requires Indexes(idx, s) && Sorted(side, s) && UniqueIds(s)
    ensures Indexes(idx[x.Id() := x], Replace(side, s, x))
  {
    var r := Replace(side, s, x);
    var idx' := idx[x.Id() := x];
    ReplaceKeepsInvariant(side, s, x);
    forall id | id in idx' ensures idx'[id] in r && idx'[id].Id() == id {
      if id != x.Id() {
        assert idx[id] in s;
      }
    }
    forall e | e in r ensures e.Id() in idx' {
      if e.Id() != x.Id() {
        assert e in s;
      }
    }
  }

  /** `inactive` on one side keeps it valid and counts one entry fewer exactly when the id was there. */
  lemma EraseSide(side: Side, s: seq<OrderState>, idx: map<string, OrderState>, isBuy: bool, id: string)
    requires SideValid(side, s, idx, isBuy)
    ensures SideValid(side, EraseId(s, id), idx - {id}, isBuy)
    ensures id in idx <==> id in Ids(s)
    ensures |Ids(EraseId(s, id))| == if id in Ids(s) then |Ids(s)| - 1 else |Ids(s)|
  {
    IndexedIds(idx, s);
    EraseIdKeepsSorted(side, s, id);
    EraseIdKeepsUnique(s, id);
    EraseIdIds(s, id);
    UniqueIdsCount(s);
    UniqueIdsCount(EraseId(s, id));
  }

  /**
    The record `order_state{ev}` builds from a bare order. The record type
    declares no default member initialisers, so every member after the order
    is value-initialised: nothing filled, average 0, not active.
  */
  function NewRecord(ev: OrderEvent): OrderState
  {
    OrderState(ev, 0, 0.0, false)
  }

  /** Erasing a key and then setting it is setting it. */
  lemma MapEraseThenSet(m: map<string, OrderState>, k: string, v: OrderState)
    ensures (m - {k})[k := v] == m[k := v]
  {
  }

  /**
    The lookup of `get`: the bid index first, then the ask index; `None`
    when neither holds `id`.
  */
  function Lookup(bidIndex: map<string, OrderState>, askIndex: map<string, OrderState>, id: string): (r: Option<OrderState>)
    ensures r.Some? <==> id in bidIndex || id in askIndex
    ensures id in bidIndex ==> r == Some(bidIndex[id])
    ensures id !in bidIndex && id in askIndex ==> r == Some(askIndex[id])
  {
    if id in bidIndex then Some(bidIndex[id])
    else if id in askIndex then Some(askIndex[id])
    else None
  }

  /**
    The order id a record reads after it has been moved from. C++ leaves a
    moved-from `std::string` valid but unspecified; libstdc++ and libc++
    leave it empty.
  */
  const MovedFromId: string := ""

  /** Erasure through an iterator that designates `e`: removes the first entry equal to `e`. */
  function EraseEntry(s: seq<OrderState>, e: OrderState): (r: seq<OrderState>)
    ensures e in s ==> multiset(r) == multiset(s) - multiset{e}
    ensures e !in s ==> r == s
  {
    if s == [] then []
    else
      assert s == [s[0]] + s[1..];
      if s[0] == e then s[1..] else [s[0]] + EraseEntry(s[1..], e)
  }

  /**
    One side of `emplace` as the code is written: the lookup and the erase
    use the order's id, but the record is moved into the ordered set before
    the index entry is made, and the key is read through a reference into
    the moved-from record. The new entry is therefore indexed under
    `MovedFromId`, and the order's own id is left out of the index.
  */
  function EmplaceSideAsWritten(side: Side, s: seq<OrderState>, idx: map<string, OrderState>, x: OrderState)
    : (r: (seq<OrderState>, map<string, OrderState>))
    ensures x in r.0
    ensures x.Id() !in idx ==> multiset(r.0) == multiset(s) + multiset{x}
    ensures r.1.Keys == (idx.Keys - {x.Id()}) + {MovedFromId} && r.1[MovedFromId] == x
    ensures x.Id() != MovedFromId ==> x.Id() !in r.1
  {
    var erased := if x.Id() in idx then EraseEntry(s, idx[x.Id()]) else s;
    var index := if x.Id() in idx then idx - {x.Id()} else idx;
    var inserted := InsertSorted(side, erased, x);
    assert x in multiset(inserted);
    (inserted, index[MovedFromId := x])
  }

  /**
    As written, a bid with a nonempty id emplaced into an empty book sits on
    the bid side, yet `get` of its id finds nothing; with the id read before
    the move, as `OrderQueue.Emplace` does, `get` finds it.
  */
  lemma EmplaceAsWrittenLosesId(x: OrderState)
    requires x.Id() != MovedFromId
    ensures var r := EmplaceSideAsWritten(Bids, [], map[], x);
      x in r.0 && Lookup(r.1, map[], x.Id()) == None
    ensures var intended := map[][x.Id() := x];
      Replace(Bids, [], x) == [x] && Lookup(intended, map[], x.Id()) == Some(x)
  {
  }

  /**
    As written, emplacing the same record with a nonempty id twice leaves
    two copies on its side, since the second lookup misses: the side's ids
    are no longer unique.
  */
  lemma EmplaceAsWrittenDuplicates(side: Side, x: OrderState)
    requires x.Id() != MovedFromId
    ensures var r1 := EmplaceSideAsWritten(side, [], map[], x);
      var r2 := EmplaceSideAsWritten(side, r1.0, r1.1, x);
      r2.0 == [x, x] && !UniqueIds(r2.0)
  {
    var r1 := EmplaceSideAsWritten(side, [], map[], x);
    assert r1.0 == [x];
    BeforeIsStrictWeakOrder(side, x, x, x);
    var r2 := EmplaceSideAsWritten(side, r1.0, r1.1, x);
    assert x.Id() !in r1.1;
    assert UpperBound(side, [x], x) == 1;
    assert r2.0 == [x] + [x] + [];
    assert r2.0[0].Id() == r2.0[1].Id();
  }

  class OrderQueue {
    /** Buy orders, best first. */
    var bids: seq<OrderState>
    /** Sell orders, best first. */
    var asks: seq<OrderState>
    var bidIndex: map<string, OrderState>
    var askIndex: map<string, OrderState>
    /** Entries taken out of the book by `Inactive`, oldest first. */
    var ledger: seq<OrderState>

    /**
      Each side is in its comparator's priority order, holds each order id at
      most once, is exactly what its index holds, and holds only orders of
      its own direction.
    */
    ghost predicate Valid()
      reads this
    {
      SideValid(Bids, bids, bidIndex, true) && SideValid(Asks, asks, askIndex, false)
    }

    /** A new book is empty and its ledger too. */
    constructor ()
      ensures Valid()
      ensures bids == [] && asks == [] && ledger == []
    {
      bids, asks := [], [];
      bidIndex, askIndex := map[], map[];
      ledger := [];
    }

    /** The number of orders in the book: the distinct ids on the bid side plus those on the ask side. */
    function Size(): (n: nat)
      reads this
      requires Valid()
      ensures n == |Ids(bids)| + |Ids(asks)|
    {
      UniqueIdsCount(bids);
      UniqueIdsCount(asks);
      |bids| + |asks|
    }

    /** True exactly when both sides are empty. */
    function Empty(): (b: bool)
      reads this
      requires Valid()
      ensures b <==> Size() == 0
      ensures b <==> Ids(bids) == {} && Ids(asks) == {}
    {
      assert bids != [] ==> bids[0].Id() in Ids(bids);
      assert asks != [] ==> asks[0].Id() in Ids(asks);
      |bids| == 0 && |asks| == 0
    }

    /**
      The best bid: a buy order in the book that no other bid has priority
      over. The engine leaves the empty case undefined, so callers must check.
    */
    function BestBid(): (r: OrderState)
      reads this
      requires Valid() && bids != []
      ensures r in bids && r.order.isBuy
      ensures forall e | e in bids :: !BidBefore(e, r)
    {
      assert forall e | e in bids && e != bids[0] :: !Before(Bids, e, bids[0]);
      BeforeIsStrictWeakOrder(Bids, bids[0], bids[0], bids[0]);
      bids[0]
    }

    /**
      The best ask: a sell order in the book that no other ask has priority
      over. The engine leaves the empty case undefined, so callers must check.
    */
    function BestAsk(): (r: OrderState)
      reads this
      requires Valid() && asks != []
      ensures r in asks && !r.order.isBuy
      ensures forall e | e in asks :: !AskBefore(e, r)
    {
      assert forall e | e in asks && e != asks[0] :: !Before(Asks, e, asks[0]);
      BeforeIsStrictWeakOrder(Asks, asks[0], asks[0], asks[0]);
      asks[0]
    }

    /**
      Looks `id` up on the bid side first, then on the ask side; `None` when
      neither side holds it. The engine's const and non-const overloads
      behave alike and are both this function.
    */
    function Get(id: string): (r: Option<OrderState>)
      reads this
      requires Valid()
      ensures r.Some? <==> id in Ids(bids) || id in Ids(asks)
      ensures r.Some? ==> r.value.Id() == id
      ensures id in Ids(bids) ==> r.Some? && r.value in bids
      ensures id !in Ids(bids) && id in Ids(asks) ==> r.Some? && r.value in asks
    {
      IndexedIds(bidIndex, bids);
      IndexedIds(askIndex, asks);
      Lookup(bidIndex, askIndex, id)
    }

    /**
      Puts `state` on the side its direction names, first erasing any entry
      with the same id on that side. The other side, its index and the
      ledger do not change.
    */
    method Emplace(state: OrderState)
      requires Valid()
      modifies this
      ensures Valid()
      ensures state.order.isBuy ==>
        && bids == Replace(Bids, old(bids), state) && bidIndex == old(bidIndex)[state.Id() := state]
        && asks == old(asks) && askIndex == old(askIndex)
      ensures !state.order.isBuy ==>
        && asks == Replace(Asks, old(asks), state) && askIndex == old(askIndex)[state.Id() := state]
        && bids == old(bids) && bidIndex == old(bidIndex)
      ensures ledger == old(ledger)
      ensures state.order.isBuy || state.Id() !in Ids(bids) ==> Get(state.Id()) == Some(state)
      ensures Size() == old(Size()) + if state.Id() in Ids(if state.order.isBuy then old(bids) else old(asks)) then 0 else 1
    {
      var id := state.Id();
      if state.order.isBuy {
        EmplaceSide(Bids, bids, bidIndex, true, state);
        var side, index := bids, bidIndex;
        if id in index {
          side := EraseId(side, id);
          MapEraseThenSet(index, id, state);
          index := index - {id};
        }
        side := InsertSorted(Bids, side, state);
        index := index[id := state];
        bids, bidIndex := side, index;
        assert Get(id) == Some(state);
      } else {
        EmplaceSide(Asks, asks, askIndex, false, state);
        var side, index := asks, askIndex;
        if id in index {
          side := EraseId(side, id);
          MapEraseThenSet(index, id, state);
          index := index - {id};
        }
        side := InsertSorted(Asks, side, state);
        index := index[id := state];
        asks, askIndex := side, index;
        IndexedIds(bidIndex, bids);
        assert id !in Ids(bids) ==> Get(id) == Some(state);
      }
    }

    /**
      Puts a new record for order `ev` in the book: nothing filled, average 0
      and not active (the value-initialised record), through `Emplace`.
    */
    method EmplaceOrder(ev: OrderEvent)
      requires Valid()
      modifies this
      ensures Valid()
      ensures ev.isBuy ==> bids == Replace(Bids, old(bids), NewRecord(ev)) && asks == old(asks)
      ensures !ev.isBuy ==> asks == Replace(Asks, old(asks), NewRecord(ev)) && bids == old(bids)
      ensures ledger == old(ledger)
      ensures ev.isBuy || ev.orderId !in Ids(bids) ==> Get(ev.orderId) == Some(NewRecord(ev))
    {
      Emplace(NewRecord(ev));
    }

    /**
      Moves the entry with order id `id` into the ledger and out of its side
      and that side's index, looking on the bid side first. An id on neither
      side changes nothing, the ledger included.
    */
    method Inactive(id: string)
      requires Valid()
      modifies this
      ensures Valid()
      ensures id in Ids(old(bids)) ==>
        && ledger == old(ledger) + [old(bidIndex)[id]]
        && bids == EraseId(old(bids), id) && bidIndex == old(bidIndex) - {id}
        && asks == old(asks) && askIndex == old(askIndex)
      ensures id !in Ids(old(bids)) && id in Ids(old(asks)) ==>
        && ledger == old(ledger) + [old(askIndex)[id]]
        && asks == EraseId(old(asks), id) && askIndex == old(askIndex) - {id}
        && bids == old(bids) && bidIndex == old(bidIndex)
      ensures id !in Ids(old(bids)) && id !in Ids(old(asks)) ==>
        && ledger == old(ledger) && bids == old(bids) && asks == old(asks)
        && bidIndex == old(bidIndex) && askIndex == old(askIndex)
      ensures id in Ids(old(bids)) || id in Ids(old(asks)) ==> Size() == old(Size()) - 1
      ensures Get(id) == if id in Ids(old(bids)) && id in Ids(old(asks)) then Some(askIndex[id]) else None
    {
      EraseSide(Bids, bids, bidIndex, true, id);
      EraseSide(Asks, asks, askIndex, false, id);
      if id in bidIndex {
        ledger := ledger + [bidIndex[id]];
        bids := EraseId(bids, id);
        bidIndex := bidIndex - {id};
        return;
      }
      if id in askIndex {
        ledger := ledger + [askIndex[id]];
        asks := EraseId(asks, id);
        askIndex := askIndex - {id};
      }
    }

    /**
      Hands the bids to `fn` in priority order until `fn` returns false (that
      entry included), then does the same with the asks starting from the
      best ask, whatever happened on the bid side. Returns the entries handed
      to `fn`, in call order.
    */
    method ForEachPruned(fn: OrderState -> bool) returns (visited: seq<OrderState>)
      ensures visited == PrunedWalk(bids, fn) + PrunedWalk(asks, fn)
    {
      visited := [];
      var i := 0;
      while i < |bids|
        invariant 0 <= i <= |bids|
        invariant visited == bids[..i]
        invariant forall k | 0 <= k < i :: fn(bids[k])
      {
        visited := visited + [bids[i]];
        if !fn(bids[i]) {
          assert FirstFailure(bids, fn) == i;
          break;
        }
        i := i + 1;
      }
      assert visited == PrunedWalk(bids, fn);
      ghost var fromBids := visited;
      var j := 0;
      while j < |asks|
        invariant 0 <= j <= |asks|
        invariant visited == fromBids + asks[..j]
        invariant forall k | 0 <= k < j :: fn(asks[k])
      {
        visited := visited + [asks[j]];
        if !fn(asks[j]) {
          assert FirstFailure(asks, fn) == j;
          break;
        }
        j := j + 1;
      }
    }
  }
}
