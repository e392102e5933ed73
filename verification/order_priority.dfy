/**
  Order records as the order book holds them, the two price/time priority
  comparators, and the operations on one sorted side of the book: the
  ordered insert of `std::multiset` (after every entry of equal priority),
  erasure by order id, and the pruned priority-order walk.
*/
module OrderPriority {
  import opened Events

  /** An order and its fill progress. */
  datatype OrderState = OrderState(
    order: OrderEvent,
    filledQty: int,
    avgFillPrice: real,
    isActive: bool)
  {
    function Id(): string { order.orderId }
  }

  /** `bid_cmp`: a higher price first; at equal price, the earlier timestamp first. */
  predicate BidBefore(a: OrderState, b: OrderState)
  {
    if a.order.price != b.order.price then a.order.price > b.order.price
    else a.order.timestamp < b.order.timestamp
  }

  /** `ask_cmp`: a lower price first; at equal price, the earlier timestamp first. */
  predicate AskBefore(a: OrderState, b: OrderState)
  {
    if a.order.price != b.order.price then a.order.price < b.order.price
    else a.order.timestamp < b.order.timestamp
  }

  /** The two sides of the book. */
  datatype Side = Bids | Asks

  /** The comparator of `side`. */
  predicate Before(side: Side, a: OrderState, b: OrderState)
  {
    match side
    case Bids => BidBefore(a, b)
    case Asks => AskBefore(a, b)
  }

  /** Neither entry has priority over the other. */
  predicate Equivalent(side: Side, a: OrderState, b: OrderState)
  {
    !Before(side, a, b) && !Before(side, b, a)
  }

  /** Priority order of a side: no entry has priority over one placed before it. */
  ghost predicate Sorted(side: Side, s: seq<OrderState>)
  {
    forall i, j | 0 <= i < j < |s| :: !Before(side, s[j], s[i])
  }

  /** No order id occurs twice. */
  ghost predicate UniqueIds(s: seq<OrderState>)
  {
    forall i, j | 0 <= i < j < |s| :: s[i].Id() != s[j].Id()
  }

  /** The order ids present in `s`. */
  ghost function Ids(s: seq<OrderState>): set<string>
  {
    set e | e in s :: e.Id()
  }

  /**
    Each comparator is a strict weak order: irreflexive, asymmetric and
    transitive, and incomparability is transitive too; two entries are
    incomparable exactly when they share price and timestamp.
  */
  lemma BeforeIsStrictWeakOrder(side: Side, a: OrderState, b: OrderState, c: OrderState)
    ensures !Before(side, a, a)
    ensures Before(side, a, b) ==> !Before(side, b, a)
    ensures Before(side, a, b) && Before(side, b, c) ==> Before(side, a, c)
    ensures Equivalent(side, a, b) <==> a.order.price == b.order.price && a.order.timestamp == b.order.timestamp
    ensures Equivalent(side, a, b) && Equivalent(side, b, c) ==> Equivalent(side, a, c)
  {
  }

  /** A strictly better price wins on either side, whatever the timestamps. */
  lemma PriceDecides(a: OrderState, b: OrderState)
    requires a.order.price != b.order.price
    ensures BidBefore(a, b) <==> a.order.price > b.order.price
    ensures AskBefore(a, b) <==> a.order.price < b.order.price
  {
  }

  /** At equal price the earlier timestamp wins on either side. */
  lemma TimestampBreaksTies(side: Side, a: OrderState, b: OrderState)
    requires a.order.price == b.order.price
    ensures Before(side, a, b) <==> a.order.timestamp < b.order.timestamp
  {
  }

  /** The comparators read only price and timestamp, never the order id or fill progress. */
  lemma BeforeIgnoresIdentity(side: Side, a: OrderState, b: OrderState, a': OrderState, b': OrderState)
    requires a'.order.price == a.order.price && a'.order.timestamp == a.order.timestamp
    requires b'.order.price == b.order.price && b'.order.timestamp == b.order.timestamp
    ensures Before(side, a', b') == Before(side, a, b)
  {
  }

  /** A side with a first entry is sorted exactly when its tail is and nothing in the tail outranks the first entry. */
  lemma SortedCons(side: Side, a: OrderState, t: seq<OrderState>)
    ensures Sorted(side, [a] + t) <==> Sorted(side, t) && forall e | e in t :: !Before(side, e, a)
  {
    var s := [a] + t;
    if Sorted(side, t) && forall e | e in t :: !Before(side, e, a) {
      forall i, j | 0 <= i < j < |s| ensures !Before(side, s[j], s[i]) {
        if i > 0 {
          assert s[i] == t[i - 1] && s[j] == t[j - 1];
        } else {
          assert s[j] in t;
        }
      }
    }
    if Sorted(side, s) {
      forall i, j | 0 <= i < j < |t| ensures !Before(side, t[j], t[i]) {
        assert t[i] == s[i + 1] && t[j] == s[j + 1];
      }
      forall e | e in t ensures !Before(side, e, a) {
        var j :| 0 <= j < |t| && t[j] == e;
        assert s[j + 1] == e && s[0] == a;
        assert !Before(side, s[j + 1], s[0]);
      }
    }
  }

  /** A side with a first entry has unique ids exactly when its tail does and the first id is not in the tail. */
  lemma UniqueCons(a: OrderState, t: seq<OrderState>)
    ensures UniqueIds([a] + t) <==> UniqueIds(t) && a.Id() !in Ids(t)
  {
    var s := [a] + t;
    if UniqueIds(t) && a.Id() !in Ids(t) {
      forall i, j | 0 <= i < j < |s| ensures s[i].Id() != s[j].Id() {
        if i > 0 {
          assert s[i] == t[i - 1] && s[j] == t[j - 1];
        } else {
          assert s[j] in t;
        }
      }
    }
    if UniqueIds(s) {
      forall i, j | 0 <= i < j < |t| ensures t[i].Id() != t[j].Id() {
        assert t[i] == s[i + 1] && t[j] == s[j + 1];
      }
      forall e | e in t ensures e.Id() != a.Id() {
        var j :| 0 <= j < |t| && t[j] == e;
        assert s[j + 1] == e && s[0] == a;
        assert s[0].Id() != s[j + 1].Id();
      }
    }
  }

  /** On a side with unique ids, the entries and the distinct ids are equally many. */
  lemma {:induction false} UniqueIdsCount(s: seq<OrderState>)
    requires UniqueIds(s)
    ensures |Ids(s)| == |s|
    decreases |s|
  {
    if s != [] {
      var t := s[1..];
      assert s == [s[0]] + t;
      UniqueCons(s[0], t);
      UniqueIdsCount(t);
      assert Ids(s) == {s[0].Id()} + Ids(t);
    }
  }

  /**
    The position `std::multiset::insert` chooses: the first entry that `x`
    has priority over, or the end; every entry before it is not beaten by `x`.
  */
  function UpperBound(side: Side, s: seq<OrderState>, x: OrderState): (k: nat)
    ensures k <= |s|
    ensures forall i | 0 <= i < k :: !Before(side, x, s[i])
    ensures k < |s| ==> Before(side, x, s[k])
  {
    if s == [] || Before(side, x, s[0]) then 0
    else 1 + UpperBound(side, s[1..], x)
  }

  /** `std::multiset::insert`: `x` goes in at the upper bound of its priority. */
  function InsertSorted(side: Side, s: seq<OrderState>, x: OrderState): (r: seq<OrderState>)
    ensures multiset(r) == multiset(s) + multiset{x}
  {
    var k := UpperBound(side, s, x);
    assert s == s[..k] + s[k..];
    s[..k] + [x] + s[k..]
  }

  /** Inserting into a sorted side keeps it sorted. */
  lemma InsertSortedKeepsSorted(side: Side, s: seq<OrderState>, x: OrderState)
    requires Sorted(side, s)
    ensures Sorted(side, InsertSorted(side, s, x))
  {
    var k := UpperBound(side, s, x);
    var r := InsertSorted(side, s, x);
    assert |r| == |s| + 1;
    assert forall i | 0 <= i < k :: r[i] == s[i];
    assert r[k] == x;
    assert forall i | k < i < |r| :: r[i] == s[i - 1];
    forall i, j | 0 <= i < j < |r| ensures !Before(side, r[j], r[i]) {
      if j < k {
        assert !Before(side, s[j], s[i]);
      } else if j == k {
        assert !Before(side, x, s[i]);
      } else if i < k {
        assert !Before(side, s[j - 1], s[i]);
      } else if i == k {
        BeforeIsStrictWeakOrder(side, s[j - 1], x, s[k]);
        if j - 1 > k {
          assert !Before(side, s[j - 1], s[k]);
        }
      } else {
        assert !Before(side, s[j - 1], s[i - 1]);
      }
    }
  }

  /**
    Erases every entry with order id `id`; on a side whose ids are unique
    this is the one entry the id index points at.
  */
  function EraseId(s: seq<OrderState>, id: string): (r: seq<OrderState>)
    ensures forall e :: e in r <==> e in s && e.Id() != id
    ensures id !in Ids(s) ==> r == s
  {
    if s == [] then []
    else
      assert s == [s[0]] + s[1..];
      if s[0].Id() == id then EraseId(s[1..], id)
      else [s[0]] + EraseId(s[1..], id)
  }

  /** Erasing keeps a side sorted. */
  lemma {:induction false} EraseIdKeepsSorted(side: Side, s: seq<OrderState>, id: string)
    requires Sorted(side, s)
    ensures Sorted(side, EraseId(s, id))
    decreases |s|
  {
    if s != [] {
      var t := s[1..];
      assert s == [s[0]] + t;
      SortedCons(side, s[0], t);
      EraseIdKeepsSorted(side, t, id);
      if s[0].Id() != id {
        SortedCons(side, s[0], EraseId(t, id));
      }
    }
  }

  /** Erasing keeps ids unique and removes one entry exactly when the id was present. */
  lemma {:induction false} EraseIdKeepsUnique(s: seq<OrderState>, id: string)
    requires UniqueIds(s)
    ensures UniqueIds(EraseId(s, id))
    ensures |EraseId(s, id)| == if id in Ids(s) then |s| - 1 else |s|
    decreases |s|
  {
    if s != [] {
      var t := s[1..];
      assert s == [s[0]] + t;
      UniqueCons(s[0], t);
      EraseIdKeepsUnique(t, id);
      assert Ids(s) == {s[0].Id()} + Ids(t);
      if s[0].Id() != id {
        UniqueCons(s[0], EraseId(t, id));
      }
    }
  }

  /** Erasing removes exactly the erased id from the ids present. */
  lemma EraseIdIds(s: seq<OrderState>, id: string)
    ensures Ids(EraseId(s, id)) == Ids(s) - {id}
  {
    var r := EraseId(s, id);
    forall i | i in Ids(s) - {id} ensures i in Ids(r) {
      var e :| e in s && e.Id() == i;
      assert e in r;
    }
  }

  /**
    `emplace` on one side: any entry with the same id is erased, then the new
    entry is inserted in priority order.
  */
  function Replace(side: Side, s: seq<OrderState>, x: OrderState): seq<OrderState>
  {
    InsertSorted(side, EraseId(s, x.Id()), x)
  }

  /**
    After `Replace` the side is sorted and id-unique, holds exactly one entry
    with `x`'s id and that entry is `x`, keeps every entry with another id, and
    grows by one exactly when the id was new.
  */
  lemma ReplaceKeepsInvariant(side: Side, s: seq<OrderState>, x: OrderState)
    requires Sorted(side, s) && UniqueIds(s)
    ensures Sorted(side, Replace(side, s, x)) && UniqueIds(Replace(side, s, x))
    ensures x in Replace(side, s, x)
    ensures forall e | e in Replace(side, s, x) && e.Id() == x.Id() :: e == x
    ensures forall e: OrderState | e.Id() != x.Id() :: e in Replace(side, s, x) <==> e in s
    ensures Ids(Replace(side, s, x)) == Ids(s) + {x.Id()}
    ensures |Replace(side, s, x)| == if x.Id() in Ids(s) then |s| else |s| + 1
  {
    var r := EraseId(s, x.Id());
    EraseIdKeepsSorted(side, s, x.Id());
    EraseIdKeepsUnique(s, x.Id());
    EraseIdIds(s, x.Id());
    InsertSortedKeepsSorted(side, r, x);
    var t := InsertSorted(side, r, x);
    forall e | e in t ensures e in r || e == x {
      assert e in multiset(t);
    }
    forall e | e in r || e == x ensures e in t {
      assert e in multiset(t);
    }
    assert x.Id() !in Ids(r);
    InsertFreshKeepsUnique(r, x, UpperBound(side, r, x));
    assert Ids(t) == Ids(r) + {x.Id()};
  }

  /** Inserting an entry whose id is not yet present, at any position, keeps ids unique. */
  lemma InsertFreshKeepsUnique(r: seq<OrderState>, x: OrderState, k: nat)
    requires k <= |r| && UniqueIds(r) && x.Id() !in Ids(r)
    ensures UniqueIds(r[..k] + [x] + r[k..])
  {
    var t := r[..k] + [x] + r[k..];
    forall i, j | 0 <= i < j < |t| ensures t[i].Id() != t[j].Id() {
      if j < k {
        assert t[i] == r[i] && t[j] == r[j];
      } else if j == k {
        assert t[i] in r;
      } else if i < k {
        assert t[i] == r[i] && t[j] == r[j - 1];
      } else if i == k {
        assert t[j] in r;
      } else {
        assert t[i] == r[i - 1] && t[j] == r[j - 1];
      }
    }
  }

  /**
    The index of the first entry for which `fn` is false, or `|s|` when
    `fn` holds of every entry.
  */
  function FirstFailure(s: seq<OrderState>, fn: OrderState -> bool): (k: nat)
    ensures k <= |s|
    ensures forall i | 0 <= i < k :: fn(s[i])
    ensures k < |s| ==> !fn(s[k])
  {
    if s == [] || !fn(s[0]) then 0
    else 1 + FirstFailure(s[1..], fn)
  }

  /**
    The entries a pruned walk over `s` hands to `fn`: every entry in order,
    up to and including the first one for which `fn` is false.
  */
  function PrunedWalk(s: seq<OrderState>, fn: OrderState -> bool): (visited: seq<OrderState>)
    ensures visited <= s
    ensures |visited| < |s| ==> visited != [] && !fn(visited[|visited| - 1])
    ensures forall i | 0 <= i < |visited| - 1 :: fn(visited[i])
    ensures visited == s || |visited| == FirstFailure(s, fn) + 1
  {
    var k := FirstFailure(s, fn);
    if k < |s| then s[..k + 1] else s
  }
}
