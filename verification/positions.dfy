/**
  The position record of one symbol and the fill-application algorithm the
  portfolio runs for every fill: averaging in on the same side, realizing
  profit and loss on the part of a position a fill closes, and resetting
  the cost basis when the position goes flat or flips side. Prices and
  profit and loss are exact reals.
*/
module Positions {

  /**
    A position: average entry price, a realized-P&L field that the
    portfolio never writes, and the signed net quantity.
  */
  datatype Position = Position(avgPrice: real, realizedPnl: real, quantity: int)

  /** The record of a symbol never traded. */
  const Flat := Position(0.0, 0.0, 0)

  /** A position after a fill, and the profit or loss the fill realized. */
  datatype FillOutcome = FillOutcome(position: Position, pnl: real)

  function Abs(x: int): nat
  {
    if x < 0 then -x else x
  }

  function Min(a: nat, b: nat): nat
  {
    if a <= b then a else b
  }

  /** The fill adds to the position: long (or flat) and buying, or short (or flat) and selling. */
  predicate SameSide(quantity: int, signedQty: int)
  {
    (quantity >= 0 && signedQty > 0) || (quantity <= 0 && signedQty < 0)
  }

  /** A total cost spread over a nonzero quantity: the average price. */
  function AverageCost(totalCost: real, quantity: int): real
    requires quantity != 0
  {
    totalCost / Abs(quantity) as real
  }

  /** The average price times the quantity gives back the total cost. */
  lemma AverageCostSpreads(totalCost: real, quantity: int)
    requires quantity != 0
    ensures AverageCost(totalCost, quantity) * Abs(quantity) as real == totalCost
  {
  }

  /**
    Applies a fill of `signedQty` (positive for a buy, negative for a sell)
    at `price` to `pos`. The quantity moves by `signedQty`; a flat result
    carries no cost basis; a same-side fill realizes nothing; the per-record
    realized-P&L field is left alone.
  */
  function ApplyFill(pos: Position, signedQty: int, price: real): (r: FillOutcome)
    ensures r.position.quantity == pos.quantity + signedQty
    ensures r.position.quantity == 0 ==> r.position.avgPrice == 0.0
    ensures SameSide(pos.quantity, signedQty) ==> r.pnl == 0.0
    ensures r.position.realizedPnl == pos.realizedPnl
  {
    if SameSide(pos.quantity, signedQty) then
      var oldCost := pos.avgPrice * Abs(pos.quantity) as real;
      var newCost := price * Abs(signedQty) as real;
      var q := pos.quantity + signedQty;
      FillOutcome(pos.(quantity := q, avgPrice := AverageCost(oldCost + newCost, q)), 0.0)
    else
      var closingQty := Min(Abs(pos.quantity), Abs(signedQty));
      var pnl := closingQty as real * (price - pos.avgPrice) * (if pos.quantity > 0 then 1.0 else -1.0);
      var q := pos.quantity + signedQty;
      var avg :=
        if q == 0 then 0.0
        else if (pos.quantity > 0 && q < 0) || (pos.quantity < 0 && q > 0) then price
        else pos.avgPrice;
      FillOutcome(pos.(quantity := q, avgPrice := avg), pnl)
  }

  /**
    The cost-basis identity of one fill: quantity times average price, less
    what the fill realized, grows by exactly the fill's signed quantity times
    its price, in every one of the four cases.
  */
  lemma CostBasisStep(pos: Position, signedQty: int, price: real)
    ensures var r := ApplyFill(pos, signedQty, price);
      r.position.quantity as real * r.position.avgPrice - r.pnl
      == pos.quantity as real * pos.avgPrice + signedQty as real * price
  {
    var q, s, a := pos.quantity, signedQty, pos.avgPrice;
    var r := ApplyFill(pos, s, price);
    var q' := q + s;
    if SameSide(q, s) {
      var total := a * Abs(q) as real + price * Abs(s) as real;
      SameSideOutcome(pos, s, price);
      assert r.position.avgPrice == AverageCost(total, q');
      AverageCostSpreads(total, q');
      if q' > 0 {
        assert q >= 0 && s > 0;
      } else {
        assert q <= 0 && s < 0;
        assert q' as real * r.position.avgPrice == -(Abs(q') as real * r.position.avgPrice);
      }
    } else if q' == 0 {
      assert r.pnl == q as real * (price - a);
    } else if (q > 0 && q' < 0) || (q < 0 && q' > 0) {
      assert r.pnl == q as real * (price - a);
      assert r.position.avgPrice == price;
    } else {
      assert r.pnl == -(s as real) * (price - a);
      assert r.position.avgPrice == a;
    }
  }

  /** Adding on the same side: the new average is the quantity-weighted mean of the old average and the price, over a nonzero quantity. */
  lemma SameSideAverages(pos: Position, signedQty: int, price: real)
    requires SameSide(pos.quantity, signedQty)
    ensures var r := ApplyFill(pos, signedQty, price);
      && r.position.quantity != 0
      && r.pnl == 0.0
      && r.position.avgPrice
         == (pos.avgPrice * Abs(pos.quantity) as real + price * Abs(signedQty) as real) / Abs(pos.quantity + signedQty) as real
  {
    SameSideOutcome(pos, signedQty, price);
  }

  lemma SameSideOutcome(pos: Position, signedQty: int, price: real)
    requires SameSide(pos.quantity, signedQty)
    ensures pos.quantity + signedQty != 0
    ensures ApplyFill(pos, signedQty, price)
      == FillOutcome(pos.(quantity := pos.quantity + signedQty,
                          avgPrice := AverageCost(pos.avgPrice * Abs(pos.quantity) as real + price * Abs(signedQty) as real,
                                                  pos.quantity + signedQty)),
                     0.0)
  {
  }

  /**
    Reducing without reaching zero: the closed units, all of the fill,
    realize (price - average) on a long and (average - price) on a short,
    and the average stays.
  */
  lemma PartialCloseRealizes(pos: Position, signedQty: int, price: real)
    requires !SameSide(pos.quantity, signedQty)
    requires pos.quantity + signedQty != 0
    requires (pos.quantity > 0) == (pos.quantity + signedQty > 0)
    ensures var r := ApplyFill(pos, signedQty, price);
      && r.position.avgPrice == pos.avgPrice
      && r.pnl == Min(Abs(pos.quantity), Abs(signedQty)) as real * (price - pos.avgPrice) * (if pos.quantity > 0 then 1.0 else -1.0)
      && r.pnl == Abs(signedQty) as real * (if pos.quantity > 0 then price - pos.avgPrice else pos.avgPrice - price)
  {
  }

  /** Closing exactly to flat realizes the whole position and clears the average. */
  lemma CloseToFlatRealizesAll(pos: Position, signedQty: int, price: real)
    requires pos.quantity != 0 && pos.quantity + signedQty == 0
    ensures var r := ApplyFill(pos, signedQty, price);
      && r.position.quantity == 0
      && r.position.avgPrice == 0.0
      && r.pnl == pos.quantity as real * (price - pos.avgPrice)
  {
  }

  /** Flipping side realizes only the |quantity| units closed and restarts the average at the fill price. */
  lemma FlipRestartsCostBasis(pos: Position, signedQty: int, price: real)
    requires (pos.quantity > 0 && pos.quantity + signedQty < 0) || (pos.quantity < 0 && pos.quantity + signedQty > 0)
    ensures var r := ApplyFill(pos, signedQty, price);
      && r.position.avgPrice == price
      && r.pnl == Abs(pos.quantity) as real * (price - pos.avgPrice) * (if pos.quantity > 0 then 1.0 else -1.0)
  {
  }

  /** A fill: signed quantity and effective price. */
  datatype SignedFill = SignedFill(qty: int, price: real)

  /** Quantity times average price, less realized profit and loss. */
  function Basis(o: FillOutcome): real
  {
    o.position.quantity as real * o.position.avgPrice - o.pnl
  }

  /** One step of `Replay`: apply `last` to the previous outcome and add what it realized. */
  function Step(prev: FillOutcome, last: SignedFill): (next: FillOutcome)
    ensures next.position.quantity == prev.position.quantity + last.qty
    ensures Basis(next) == Basis(prev) + last.qty as real * last.price
  {
    var r := ApplyFill(prev.position, last.qty, last.price);
    CostBasisStep(prev.position, last.qty, last.price);
    FillOutcome(r.position, prev.pnl + r.pnl)
  }

  /** A position built from `Flat` by `fills`, with the total profit and loss they realized. */
  function Replay(fills: seq<SignedFill>): FillOutcome
    decreases |fills|
  {
    if fills == [] then FillOutcome(Flat, 0.0)
    else
      Step(Replay(fills[..|fills| - 1]), fills[|fills| - 1])
  }

  /** The sum of signed quantity times price over `fills`. */
  function NetFlow(fills: seq<SignedFill>): real
    decreases |fills|
  {
    if fills == [] then 0.0
    else NetFlow(fills[..|fills| - 1]) + fills[|fills| - 1].qty as real * fills[|fills| - 1].price
  }

  /** The sum of the signed quantities of `fills`. */
  function NetQty(fills: seq<SignedFill>): int
    decreases |fills|
  {
    if fills == [] then 0 else NetQty(fills[..|fills| - 1]) + fills[|fills| - 1].qty
  }

  /**
    The cost-basis invariant of a symbol: after any run of fills from flat,
    the quantity is the net signed quantity, and quantity times average
    price minus realized profit and loss is the sum of signed quantity times
    price over the fills.
  */
  lemma {:induction false} CostBasisInvariant(fills: seq<SignedFill>)
    ensures Replay(fills).position.quantity == NetQty(fills)
    ensures Basis(Replay(fills)) == NetFlow(fills)
    decreases |fills|
  {
    if fills != [] {
      var init := fills[..|fills| - 1];
      CostBasisInvariant(init);
    }
  }

  /** A replay of two fills from flat is the two steps in order. */
  lemma ReplayTwo(first: SignedFill, second: SignedFill)
    ensures Replay([first, second]) == Step(Step(FillOutcome(Flat, 0.0), first), second)
  {
    var one := [first];
    assert one[..0] == [];
    assert Replay(one) == Step(Replay([]), first);
    var fills := [first, second];
    assert fills[..1] == one;
    assert Replay(fills) == Step(Replay(one), second);
  }

  /** The first fill from flat opens a position of its size at its price, realizing nothing. */
  lemma OpenFromFlat(first: SignedFill)
    requires first.qty != 0
    ensures Step(FillOutcome(Flat, 0.0), first) == FillOutcome(Position(first.price, 0.0, first.qty), 0.0)
  {
    var total := 0.0 * Abs(0) as real + first.price * Abs(first.qty) as real;
    SameSideOutcome(Flat, first.qty, first.price);
    AverageCostSpreads(total, first.qty);
    assert AverageCost(total, first.qty) == first.price;
  }

  /** Buy 10 at 100, then 10 at 120: long 20 at 110, nothing realized. */
  lemma AddsToLongAveragesPrice()
    ensures var r := Replay([SignedFill(10, 100.0), SignedFill(10, 120.0)]);
      r.position.quantity == 20 && r.position.avgPrice == 110.0 && r.pnl == 0.0
  {
    ReplayTwo(SignedFill(10, 100.0), SignedFill(10, 120.0));
    OpenFromFlat(SignedFill(10, 100.0));
    AddTenAtOneTwenty();
  }

  /** Adding 10 at 120 to long 10 at 100 averages to long 20 at 110. */
  lemma AddTenAtOneTwenty()
    ensures ApplyFill(Position(100.0, 0.0, 10), 10, 120.0) == FillOutcome(Position(110.0, 0.0, 20), 0.0)
  {
    var long10 := Position(100.0, 0.0, 10);
    SameSideOutcome(long10, 10, 120.0);
    var total := long10.avgPrice * Abs(long10.quantity) as real + 120.0 * Abs(10) as real;
    assert total == 2200.0;
    AverageCostSpreads(total, 20);
  }

  /** Buy 20 at 100, then sell 5 at 130: long 15 at 100, with 150 realized. */
  lemma ReducesLongRealizesPnl()
    ensures var r := Replay([SignedFill(20, 100.0), SignedFill(-5, 130.0)]);
      r.position.quantity == 15 && r.position.avgPrice == 100.0 && r.pnl == 150.0
  {
    ReplayTwo(SignedFill(20, 100.0), SignedFill(-5, 130.0));
    OpenFromFlat(SignedFill(20, 100.0));
  }

  /** Buy 20 at 100, then sell 20 at 90: flat with average 0, and 200 lost. */
  lemma ClosesLongResetsPosition()
    ensures var r := Replay([SignedFill(20, 100.0), SignedFill(-20, 90.0)]);
      r.position.quantity == 0 && r.position.avgPrice == 0.0 && r.pnl == -200.0
  {
    ReplayTwo(SignedFill(20, 100.0), SignedFill(-20, 90.0));
    OpenFromFlat(SignedFill(20, 100.0));
  }

  /** Buy 10 at 100, then sell 15 at 110: short 5 at 110, with 100 realized. */
  lemma FlipsLongToShort()
    ensures var r := Replay([SignedFill(10, 100.0), SignedFill(-15, 110.0)]);
      r.position.quantity == -5 && r.position.avgPrice == 110.0 && r.pnl == 100.0
  {
    ReplayTwo(SignedFill(10, 100.0), SignedFill(-15, 110.0));
    OpenFromFlat(SignedFill(10, 100.0));
  }

  /** Sell 10 at 200, then buy 5 at 180: short 5 at 200, with 100 realized. */
  lemma CoversShortPartially()
    ensures var r := Replay([SignedFill(-10, 200.0), SignedFill(5, 180.0)]);
      r.position.quantity == -5 && r.position.avgPrice == 200.0 && r.pnl == 100.0
  {
    ReplayTwo(SignedFill(-10, 200.0), SignedFill(5, 180.0));
    OpenFromFlat(SignedFill(-10, 200.0));
  }

  /** Sell 10 at 200, then buy 15 at 210: long 5 at 210, and 100 lost. */
  lemma FlipsShortToLong()
    ensures var r := Replay([SignedFill(-10, 200.0), SignedFill(15, 210.0)]);
      r.position.quantity == 5 && r.position.avgPrice == 210.0 && r.pnl == -100.0
  {
    ReplayTwo(SignedFill(-10, 200.0), SignedFill(15, 210.0));
    OpenFromFlat(SignedFill(-10, 200.0));
  }
}
