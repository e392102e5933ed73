/**
  The execution engine's per-order fill tracking: a map from order id to the
  order's record, updated by every fill the engine emits, and the fill event
  each emission pushes onto the event queue.
*/
module Execution {
  import opened Wrappers
  import opened Events
  import opened OrderPriority
  import EventQueue

  /** The record a map lookup default-constructs: no order (empty id), nothing filled, inactive. */
  const Blank := OrderState(OrderEvent("", "", 0, false, 0.0, 0), 0, 0.0, false)

  /**
    The record a fill starts from. A record whose order id is empty is
    treated as never seen and is initialised from `order`: nothing filled,
    average 0, active. This includes a missing record (the map inserts a
    blank one) and, since the stored id equals the key, every record of an
    order whose own id is empty.
  */
  function Base(stored: Option<OrderState>, order: OrderEvent): (st: OrderState)
    ensures stored.Some? && stored.value.Id() != "" ==> st == stored.value
    ensures stored.None? || stored.value.Id() == "" ==> st == OrderState(order, 0, 0.0, true)
  {
    var st := if stored.Some? then stored.value else Blank;
    if st.Id() == "" then OrderState(order, 0, 0.0, true) else st
  }

  /**
    One fill applied to an order's record: the filled quantity grows by
    `filledQty` (overfills and negative deltas included), the average fill
    price stays the volume-weighted mean of what has been filled (0 when
    the cumulative quantity is not positive), and the record becomes
    inactive once the cumulative quantity reaches the stored order's
    quantity; an inactive record never becomes active again.
  */
  function TrackFill(stored: Option<OrderState>, order: OrderEvent, filledQty: int, execPrice: real): (st: OrderState)
    ensures st.order == Base(stored, order).order
    ensures st.filledQty == Base(stored, order).filledQty + filledQty
    ensures st.filledQty > 0 ==>
      st.avgFillPrice * st.filledQty as real
      == Base(stored, order).avgFillPrice * Base(stored, order).filledQty as real + execPrice * filledQty as real
    ensures st.filledQty <= 0 ==> st.avgFillPrice == 0.0
    ensures st.isActive <==> Base(stored, order).isActive && st.filledQty < st.order.quantity
  {
    var base := Base(stored, order);
    var filled := base.filledQty + filledQty;
    var avg :=
      if filled > 0 then (base.avgFillPrice * (filled - filledQty) as real + execPrice * filledQty as real) / filled as real
      else 0.0;
    OrderState(base.order, filled, avg, base.isActive && !(filled >= base.order.quantity))
  }

  /** The fill event `EmitFill` pushes. */
  function FillFor(order: OrderEvent, filledQty: int, execPrice: real, timestamp: int): Event
  {
    Fill(FillEvent(order.symbol, order.orderId, filledQty, order.quantity, order.isBuy, execPrice, timestamp))
  }

  class ExecutionEngine {
    /** Order records keyed by order id. */
    var orders: map<string, OrderState>

    /** Every record sits under its own order's id. */
    ghost predicate Valid()
      reads this
    {
      forall id | id in orders :: orders[id].Id() == id
    }

    constructor ()
      ensures Valid() && orders == map[]
    {
      orders := map[];
    }

    /** The record of order `id`, or `None` if no fill was ever emitted for it. */
    function GetOrder(id: string): (r: Option<OrderState>)
      reads this
      ensures r.None? <==> id !in orders
      ensures r.Some? ==> r.value == orders[id]
      ensures Valid() && r.Some? ==> r.value.Id() == id
    {
      if id in orders then Some(orders[id]) else None
    }

    /**
      Applies one fill of `filledQty` at `execPrice` to `order`'s record and
      pushes exactly one fill event at the back of `queue`. Records of other
      orders do not change.
    */
    method EmitFill(order: OrderEvent, filledQty: int, execPrice: real, queue: EventQueue.Queue, timestamp: int)
      requires Valid()
      modifies this, queue
      ensures Valid()
      ensures orders == old(orders)[order.orderId := TrackFill(old(GetOrder(order.orderId)), order, filledQty, execPrice)]
      ensures queue.items == old(queue.items) + [FillFor(order, filledQty, execPrice, timestamp)]
    {
      ghost var expected := TrackFill(GetOrder(order.orderId), order, filledQty, execPrice);
      var st := if order.orderId in orders then orders[order.orderId] else Blank;
      if st.order.orderId == "" {
        st := OrderState(order, 0, 0.0, true);
      }
      assert st == Base(GetOrder(order.orderId), order);
      st := st.(filledQty := st.filledQty + filledQty);
      if st.filledQty > 0 {
        st := st.(avgFillPrice :=
          (st.avgFillPrice * (st.filledQty - filledQty) as real + execPrice * filledQty as real) / st.filledQty as real);
      } else {
        st := st.(avgFillPrice := 0.0);
      }
      if st.filledQty >= st.order.quantity {
        st := st.(isActive := false);
      }
      assert st.filledQty == expected.filledQty && st.order == expected.order;
      assert st.avgFillPrice == expected.avgFillPrice;
      assert st == expected;
      orders := orders[order.orderId := st];
      queue.Push(FillFor(order, filledQty, execPrice, timestamp));
    }
  }

  /** One execution reported for an order: a quantity and a price. */
  datatype Execution = Execution(qty: int, price: real)

  /** The order's record after `EmitFill` is called for each of `fills` in turn, from no record. */
  function Replay(order: OrderEvent, fills: seq<Execution>): (st: Option<OrderState>)
    ensures st.None? <==> fills == []
    decreases |fills|
  {
    if fills == [] then None
    else
      var last := fills[|fills| - 1];
      Some(TrackFill(Replay(order, fills[..|fills| - 1]), order, last.qty, last.price))
  }

  /** The sum of the quantities of `fills`. */
  function TotalQty(fills: seq<Execution>): int
    decreases |fills|
  {
    if fills == [] then 0 else TotalQty(fills[..|fills| - 1]) + fills[|fills| - 1].qty
  }

  /** The sum of price times quantity over `fills`. */
  function TotalNotional(fills: seq<Execution>): real
    decreases |fills|
  {
    if fills == [] then 0.0
    else TotalNotional(fills[..|fills| - 1]) + fills[|fills| - 1].price * fills[|fills| - 1].qty as real
  }

  /**
    For an order with a non-empty id, the filled quantity after a run of
    fills is the sum of their quantities, overfills and zero fills included,
    and the record keeps the first order it was created from.
  */
  lemma {:induction false} FilledIsTotal(order: OrderEvent, fills: seq<Execution>)
    requires order.orderId != "" && fills != []
    ensures Replay(order, fills).value.filledQty == TotalQty(fills)
    ensures Replay(order, fills).value.order == order
    decreases |fills|
  {
    var init := fills[..|fills| - 1];
    if init != [] {
      FilledIsTotal(order, init);
    }
  }

  /**
    With positive quantities, the average fill price is the volume-weighted
    mean of the execution prices: total notional over total quantity.
  */
  lemma {:induction false} AverageIsVolumeWeighted(order: OrderEvent, fills: seq<Execution>)
    requires order.orderId != "" && fills != []
    requires forall i | 0 <= i < |fills| :: fills[i].qty > 0
    ensures TotalQty(fills) > 0
    ensures Replay(order, fills).value.avgFillPrice == TotalNotional(fills) / TotalQty(fills) as real
    decreases |fills|
  {
    NotionalInvariant(order, fills);
  }

  /**
    The invariant behind `AverageIsVolumeWeighted`: with positive fills,
    average times filled quantity is the total notional.
  */
  lemma {:induction false} NotionalInvariant(order: OrderEvent, fills: seq<Execution>)
    requires order.orderId != "" && fills != []
    requires forall i | 0 <= i < |fills| :: fills[i].qty > 0
    ensures TotalQty(fills) > 0
    ensures Replay(order, fills).value.filledQty == TotalQty(fills)
    ensures Replay(order, fills).value.avgFillPrice * TotalQty(fills) as real == TotalNotional(fills)
    decreases |fills|
  {
    var init := fills[..|fills| - 1];
    FilledIsTotal(order, fills);
    if init != [] {
      NotionalInvariant(order, init);
      FilledIsTotal(order, init);
    }
  }

  /**
    For an order with a non-empty id, the record is active after a run of
    fills exactly when no prefix of the run brought the cumulative filled
    quantity up to the order's quantity: it turns inactive as soon as that
    happens and stays inactive, even if later negative fills bring the
    cumulative quantity back down.
  */
  lemma {:induction false} ActiveUntilFilled(order: OrderEvent, fills: seq<Execution>)
    requires order.orderId != "" && fills != []
    ensures Replay(order, fills).value.isActive
      <==> forall k | 1 <= k <= |fills| :: TotalQty(fills[..k]) < order.quantity
    decreases |fills|
  {
    var n := |fills|;
    var init := fills[..n - 1];
    FilledIsTotal(order, fills);
    assert fills[..n] == fills;
    if init != [] {
      ActiveUntilFilled(order, init);
      FilledIsTotal(order, init);
      forall k | 1 <= k <= n - 1 ensures init[..k] == fills[..k] { }
    }
  }

  /**
    As written, an order whose id is empty is re-initialised by every fill:
    its record only ever reflects the latest fill.
  */
  lemma {:induction false} EmptyIdForgetsEarlierFills(order: OrderEvent, fills: seq<Execution>)
    requires order.orderId == "" && fills != []
    ensures Replay(order, fills).value.filledQty == fills[|fills| - 1].qty
    ensures Replay(order, fills).value.order == order
    decreases |fills|
  {
    var init := fills[..|fills| - 1];
    if init != [] {
      EmptyIdForgetsEarlierFills(order, init);
    }
  }
}
