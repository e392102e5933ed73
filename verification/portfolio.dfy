/**
  The portfolio manager: cash, portfolio-level realized profit and loss, a
  position per symbol, the last market price per symbol and a log of the
  fills applied. Fills move cash by the trade value (at the slipped price)
  and the commission, and move the symbol's position by the algorithm of
  module Positions. The folds over the position map are sums over its key
  set, whose iteration order is unspecified.
*/
module Portfolio {
  import opened Events
  import opened Positions
  import opened Sums

  /** The quantity a fill adds to the position: positive for a buy, negative for a sell. */
  function SignedQty(fill: FillEvent): (s: int)
    ensures fill.filledQty >= 0 ==> (s >= 0 <==> fill.isBuy || fill.filledQty == 0)
    ensures Abs(s) == Abs(fill.filledQty)
  {
    if fill.isBuy then fill.filledQty else -fill.filledQty
  }

  /**
    The price the portfolio books a fill at: with a positive slippage rate,
    a buy pays `1 + rate` times the fill price and a sell receives `1 - rate`
    times it; otherwise the fill price itself.
  */
  function EffectivePrice(fill: FillEvent, slippageRate: real): (p: real)
    ensures slippageRate <= 0.0 ==> p == fill.fillPrice
    ensures fill.fillPrice >= 0.0 && slippageRate > 0.0 ==>
      if fill.isBuy then p >= fill.fillPrice else p <= fill.fillPrice
  {
    if slippageRate > 0.0 then
      fill.fillPrice * (if fill.isBuy then 1.0 + slippageRate else 1.0 - slippageRate)
    else fill.fillPrice
  }

  /** The trade value of a fill: the effective price times the filled quantity. */
  function TradeValue(fill: FillEvent, slippageRate: real): real
  {
    EffectivePrice(fill, slippageRate) * fill.filledQty as real
  }

  /** The commission of a fill: its trade value times the commission rate. */
  function Commission(fill: FillEvent, commissionRate: real, slippageRate: real): real
  {
    TradeValue(fill, slippageRate) * commissionRate
  }

  /**
    The cash side of a fill is the opposite of its position side: a buy
    pays the trade value and a sell receives it, which is minus the signed
    quantity times the effective price.
  */
  lemma CashMovesAgainstPosition(fill: FillEvent, slippageRate: real)
    ensures var value := TradeValue(fill, slippageRate);
      (if fill.isBuy then -value else value) == -(SignedQty(fill) as real * EffectivePrice(fill, slippageRate))
  {
  }

  /** For non-negative rates, quantities and prices, and slippage of at most 100%, the commission is a cost, never a gain. */
  lemma CommissionIsACost(fill: FillEvent, commissionRate: real, slippageRate: real)
    requires commissionRate >= 0.0 && fill.filledQty >= 0 && fill.fillPrice >= 0.0 && slippageRate <= 1.0
    ensures Commission(fill, commissionRate, slippageRate) >= 0.0
  {
    var p := EffectivePrice(fill, slippageRate);
    assert p >= 0.0 by {
      if slippageRate > 0.0 {
        var factor := if fill.isBuy then 1.0 + slippageRate else 1.0 - slippageRate;
        assert factor >= 0.0;
        assert p == fill.fillPrice * factor;
      }
    }
    assert TradeValue(fill, slippageRate) >= 0.0;
  }

  /** A position's quantity times its average price (0 for a symbol without a record). */
  function Cost(positions: map<string, Position>, symbol: string): real
  {
    if symbol in positions then positions[symbol].quantity as real * positions[symbol].avgPrice else 0.0
  }

  /** A position's profit or loss at the last market price; 0 for a symbol without a price. */
  function UnrealizedTerm(positions: map<string, Position>, prices: map<string, real>, symbol: string): real
  {
    if symbol in positions && symbol in prices then
      positions[symbol].quantity as real * (prices[symbol] - positions[symbol].avgPrice)
    else 0.0
  }

  /** A position's market value at the last market price; 0 for a symbol without a price. */
  function HoldingTerm(positions: map<string, Position>, prices: map<string, real>, symbol: string): real
  {
    if symbol in positions && symbol in prices then positions[symbol].quantity as real * prices[symbol] else 0.0
  }

  /** `Cost` of each symbol, as a function to sum over the key set. */
  function CostOf(positions: map<string, Position>): string -> real
  {
    symbol => Cost(positions, symbol)
  }

  /** `UnrealizedTerm` of each symbol, as a function to sum over the key set. */
  function UnrealizedOf(positions: map<string, Position>, prices: map<string, real>): string -> real
  {
    symbol => UnrealizedTerm(positions, prices, symbol)
  }

  /** `HoldingTerm` of each symbol, as a function to sum over the key set. */
  function HoldingsOf(positions: map<string, Position>, prices: map<string, real>): string -> real
  {
    symbol => HoldingTerm(positions, prices, symbol)
  }

  /** The unrealized term of a held symbol: its quantity times the price move, when it has a price. */
  lemma UnrealizedTermAt(positions: map<string, Position>, prices: map<string, real>, symbol: string, pnl: real)
    requires symbol in positions
    requires pnl == if symbol in prices
      then positions[symbol].quantity as real * (prices[symbol] - positions[symbol].avgPrice) else 0.0
    ensures UnrealizedOf(positions, prices)(symbol) == pnl
  {
  }

  /** The holding term of a held symbol: its quantity times its price, when it has one. */
  lemma HoldingTermAt(positions: map<string, Position>, prices: map<string, real>, symbol: string, worth: real)
    requires symbol in positions
    requires worth == if symbol in prices then positions[symbol].quantity as real * prices[symbol] else 0.0
    ensures HoldingsOf(positions, prices)(symbol) == worth
  {
  }

  /** The total cost basis: quantity times average price, summed over the positions. */
  ghost function CostBasis(positions: map<string, Position>): real
  {
    SumOver(positions.Keys, CostOf(positions))
  }

  /** Unrealized profit and loss, summed over the positions whose symbol has a price. */
  ghost function Unrealized(positions: map<string, Position>, prices: map<string, real>): real
  {
    SumOver(positions.Keys, UnrealizedOf(positions, prices))
  }

  /** Market value of the holdings, summed over the positions whose symbol has a price. */
  ghost function Holdings(positions: map<string, Position>, prices: map<string, real>): real
  {
    SumOver(positions.Keys, HoldingsOf(positions, prices))
  }

  /** Every symbol with a nonzero quantity has a market price. */
  predicate AllHeldPriced(positions: map<string, Position>, prices: map<string, real>)
  {
    forall symbol | symbol in positions && positions[symbol].quantity != 0 :: symbol in prices
  }

  /**
    When every held symbol has a price, the market value of the holdings is
    their cost basis plus their unrealized profit and loss.
  */
  lemma HoldingsSplit(positions: map<string, Position>, prices: map<string, real>)
    requires AllHeldPriced(positions, prices)
    ensures Holdings(positions, prices) == CostBasis(positions) + Unrealized(positions, prices)
  {
    forall symbol | symbol in positions.Keys
      ensures HoldingsOf(positions, prices)(symbol)
              == CostOf(positions)(symbol) + UnrealizedOf(positions, prices)(symbol)
    {
      var p := positions[symbol];
      if symbol in prices {
        var m := prices[symbol];
        assert p.quantity as real * m == p.quantity as real * p.avgPrice + p.quantity as real * (m - p.avgPrice);
      }
    }
    SumOverAdd(positions.Keys, HoldingsOf(positions, prices), CostOf(positions), UnrealizedOf(positions, prices));
  }

  /**
    The accounting identity: if cash plus commissions paid plus the cost
    basis less realized profit and loss equals the starting cash, then,
    once every held symbol has a price, cash plus holdings is the starting
    cash less commissions plus realized and unrealized profit and loss.
  */
  lemma EquityDecomposition(
    cash: real, realizedPnl: real, startingCash: real, commissions: real,
    positions: map<string, Position>, prices: map<string, real>)
    requires cash + commissions + CostBasis(positions) - realizedPnl == startingCash
    requires AllHeldPriced(positions, prices)
    ensures cash + Holdings(positions, prices)
            == startingCash - commissions + realizedPnl + Unrealized(positions, prices)
  {
    HoldingsSplit(positions, prices);
  }

  /**
    Replacing the record of `symbol` by one whose cost grows by `delta`
    grows the cost basis by `delta`.
  */
  lemma CostBasisUpdate(positions: map<string, Position>, symbol: string, p: Position, delta: real)
    requires p.quantity as real * p.avgPrice == Cost(positions, symbol) + delta
    ensures CostBasis(positions[symbol := p]) == CostBasis(positions) + delta
  {
    var updated := positions[symbol := p];
    assert updated.Keys == positions.Keys + {symbol};
    CostsAgreeElsewhere(positions, symbol, p);
    SumOverUpdate(positions.Keys, CostOf(positions), CostOf(updated), symbol);
  }

  /** Replacing the record of `symbol` changes no other symbol's cost, and a symbol without a record costs nothing. */
  lemma CostsAgreeElsewhere(positions: map<string, Position>, symbol: string, p: Position)
    ensures forall k | k in positions.Keys && k != symbol :: CostOf(positions)(k) == CostOf(positions[symbol := p])(k)
    ensures symbol !in positions.Keys ==> CostOf(positions)(symbol) == 0.0
    ensures CostOf(positions[symbol := p])(symbol) == p.quantity as real * p.avgPrice
    ensures CostOf(positions)(symbol) == Cost(positions, symbol)
  {
  }

  /**
    The cash half of a fill: the commission on the trade value always
    leaves cash; a buy pays the trade value and a sell receives it.
  */
  method BookCash(cash: real, fill: FillEvent, commissionRate: real, slippageRate: real)
    returns (newCash: real, commission: real)
    ensures commission == Commission(fill, commissionRate, slippageRate)
    ensures newCash == cash - SignedQty(fill) as real * EffectivePrice(fill, slippageRate) - commission
  {
    var effectivePrice := fill.fillPrice;
    if slippageRate > 0.0 {
      effectivePrice := effectivePrice * (if fill.isBuy then 1.0 + slippageRate else 1.0 - slippageRate);
    }
    var tradeValue := effectivePrice * fill.filledQty as real;
    commission := tradeValue * commissionRate;
    newCash := cash - commission;
    if fill.isBuy {
      newCash := newCash - tradeValue;
    } else {
      newCash := newCash + tradeValue;
    }
    CashMovesAgainstPosition(fill, slippageRate);
  }

  /**
    The position half of a fill, step by step as the portfolio runs it: a
    same-side fill averages in; otherwise the closed units realize profit or
    loss and the average is cleared on reaching flat, restarted at the fill
    price on flipping side, and kept otherwise.
  */
  method UpdatePosition(pos: Position, signedQty: int, effectivePrice: real) returns (next: Position, pnl: real)
    ensures FillOutcome(next, pnl) == ApplyFill(pos, signedQty, effectivePrice)
  {
    next := pos;
    pnl := 0.0;
    if SameSide(next.quantity, signedQty) {
      var oldCost := next.avgPrice * Abs(next.quantity) as real;
      var newCost := effectivePrice * Abs(signedQty) as real;
      var q := next.quantity + signedQty;
      next := next.(quantity := q, avgPrice := (oldCost + newCost) / Abs(q) as real);
      SameSideOutcome(pos, signedQty, effectivePrice);
    } else {
      var closingQty := Min(Abs(next.quantity), Abs(signedQty));
      pnl := closingQty as real * (effectivePrice - next.avgPrice) * (if next.quantity > 0 then 1.0 else -1.0);
      var oldQty := next.quantity;
      next := next.(quantity := next.quantity + signedQty);
      if next.quantity == 0 {
        next := next.(avgPrice := 0.0);
      } else if (oldQty > 0 && next.quantity < 0) || (oldQty < 0 && next.quantity > 0) {
        next := next.(avgPrice := effectivePrice);
      }
    }
  }

  /** No flat record carries an average price, and no record's own realized-P&L field is set. */
  predicate WellFormed(positions: map<string, Position>)
  {
    forall symbol | symbol in positions ::
      && (positions[symbol].quantity == 0 ==> positions[symbol].avgPrice == 0.0)
      && positions[symbol].realizedPnl == 0.0
  }

  /**
    A fill keeps the accounting identity: if cash moves by minus the signed
    quantity times the price less the commission, the commission is added
    to what was paid, the symbol's record moves by ApplyFill and what it
    realized is added to realized profit and loss, then cash plus
    commissions plus cost basis less realized profit and loss is unchanged,
    and the records stay well formed.
  */
  lemma FillKeepsAccounts(
    cash: real, commissions: real, positions: map<string, Position>, realizedPnl: real, startingCash: real,
    symbol: string, before: Position, signedQty: int, price: real,
    next: Position, pnl: real, commission: real, newCash: real)
    requires cash + commissions + CostBasis(positions) - realizedPnl == startingCash
    requires WellFormed(positions)
    requires before == (if symbol in positions then positions[symbol] else Flat)
    requires FillOutcome(next, pnl) == ApplyFill(before, signedQty, price)
    requires newCash == cash - signedQty as real * price - commission
    ensures newCash + (commissions + commission) + CostBasis(positions[symbol := next]) - (realizedPnl + pnl)
            == startingCash
    ensures WellFormed(positions[symbol := next])
  {
    var flow := signedQty as real * price;
    CostBasisStep(before, signedQty, price);
    CostBasisUpdate(positions, symbol, next, flow + pnl);
  }

  /** The portfolio: cash, realized profit and loss, positions, last prices and the trade log. */
  class PortfolioManager {
    var cash: real
    var realizedPnl: real
    const commissionRate: real
    const slippageRate: real
    var positions: map<string, Position>
    var marketPrices: map<string, real>
    var tradeLog: seq<FillEvent>

    /** The cash the portfolio started with. */
    ghost var startingCash: real
    /** The commissions paid so far. */
    ghost var commissions: real

    /**
      The accounting invariant: cash, commissions paid and the cost basis
      less realized profit and loss add up to the starting cash; a flat
      record carries no average price; no record's own realized-P&L field
      is ever written.
    */
    ghost predicate Valid()
      reads this
    {
      && cash + commissions + CostBasis(positions) - realizedPnl == startingCash
      && WellFormed(positions)
    }

    /** A portfolio holding only cash, with no positions, prices or trades. */
    constructor(startingCash: real, commissionRate: real, slippageRate: real)
      ensures Valid()
      ensures this.cash == startingCash && this.realizedPnl == 0.0
      ensures this.commissionRate == commissionRate && this.slippageRate == slippageRate
      ensures this.positions == map[] && this.marketPrices == map[] && this.tradeLog == []
      ensures this.startingCash == startingCash && this.commissions == 0.0
    {
      this.cash := startingCash;
      this.realizedPnl := 0.0;
      this.commissionRate := commissionRate;
      this.slippageRate := slippageRate;
      this.positions := map[];
      this.marketPrices := map[];
      this.tradeLog := [];
      this.startingCash := startingCash;
      this.commissions := 0.0;
    }

    /** The record of `symbol`, or the all-zero record for a symbol never traded. */
    function PositionOf(symbol: string): (p: Position)
      reads this
      ensures symbol !in positions ==> p == Flat
      ensures WellFormed(positions) ==> p.realizedPnl == 0.0 && (p.quantity == 0 ==> p.avgPrice == 0.0)
    {
      if symbol in positions then positions[symbol] else Flat
    }

    /** The cash balance, which the accounting invariant ties to the trading history. */
    function CashBalance(): (c: real)
      reads this
      ensures Valid() ==> c == startingCash - commissions - (CostBasis(positions) - realizedPnl)
    {
      cash
    }

    /** The realized profit and loss across all positions. */
    function RealizedPnl(): (r: real)
      reads this
      ensures Valid() ==> r == cash + commissions + CostBasis(positions) - startingCash
    {
      realizedPnl
    }

    /**
      Applies a fill: books it at the effective price, pays the commission,
      moves cash by the trade value against the side, moves the symbol's
      position by ApplyFill (creating a flat record first if needed), adds
      what it realized to realized profit and loss, and appends the fill to
      the trade log.
    */
    method OnFill(fill: FillEvent)
      requires Valid()
      modifies this
      ensures Valid()
      ensures var out := ApplyFill(old(PositionOf(fill.symbol)), SignedQty(fill), EffectivePrice(fill, slippageRate));
        && positions == old(positions)[fill.symbol := out.position]
        && realizedPnl == old(realizedPnl) + out.pnl
      ensures cash == old(cash) - SignedQty(fill) as real * EffectivePrice(fill, slippageRate)
                      - Commission(fill, commissionRate, slippageRate)
      ensures commissions == old(commissions) + Commission(fill, commissionRate, slippageRate)
      ensures tradeLog == old(tradeLog) + [fill]
      ensures marketPrices == old(marketPrices) && startingCash == old(startingCash)
    {
      var pos := PositionOf(fill.symbol);
      ghost var before := pos;
      var signedQty := SignedQty(fill);
      var effectivePrice := EffectivePrice(fill, slippageRate);
      var newCash, commission := BookCash(cash, fill, commissionRate, slippageRate);
      ghost var cashFlow := SignedQty(fill) as real * EffectivePrice(fill, slippageRate);
      assert newCash == cash - cashFlow - Commission(fill, commissionRate, slippageRate);

      var pnl;
      pos, pnl := UpdatePosition(pos, signedQty, effectivePrice);
      var newRealized := realizedPnl + pnl;

      FillKeepsAccounts(cash, commissions, positions, realizedPnl, startingCash,
                        fill.symbol, before, signedQty, effectivePrice, pos, pnl, commission, newCash);
      var newPositions := positions[fill.symbol := pos];

      cash, realizedPnl, positions, tradeLog, commissions :=
        newCash, newRealized, newPositions, tradeLog + [fill], commissions + commission;
    }

    /** Records the last market price of `symbol`, leaving every other symbol's price and all else as it was. */
    method OnMarket(symbol: string, price: real)
      requires Valid()
      modifies this
      ensures Valid()
      ensures marketPrices == old(marketPrices)[symbol := price]
      ensures cash == old(cash) && realizedPnl == old(realizedPnl) && positions == old(positions)
      ensures tradeLog == old(tradeLog) && startingCash == old(startingCash) && commissions == old(commissions)
    {
      marketPrices := marketPrices[symbol := price];
    }

    /** Unrealized profit and loss over the positions whose symbol has a market price, in any order. */
    method UnrealizedPnl() returns (total: real)
      ensures total == Unrealized(positions, marketPrices)
    {
      ghost var term := UnrealizedOf(positions, marketPrices);
      ghost var goal := Unrealized(positions, marketPrices);
      total := 0.0;
      var rest := positions.Keys;
      while rest != {}
        invariant rest <= positions.Keys
        invariant total + SumOver(rest, term) == goal
        decreases |rest|
      {
        var symbol :| symbol in rest;
        var pos := positions[symbol];
        if symbol in marketPrices {
          var mktPrice := marketPrices[symbol];
          var pnl := pos.quantity as real * (mktPrice - pos.avgPrice);
          UnrealizedTermAt(positions, marketPrices, symbol, pnl);
          FoldStep(rest, term, symbol, total, pnl, goal);
          total := total + pnl;
        } else {
          UnrealizedTermAt(positions, marketPrices, symbol, 0.0);
          FoldStep(rest, term, symbol, total, 0.0, goal);
        }
        rest := rest - {symbol};
      }
    }

    /**
      Cash plus the market value of the positions whose symbol has a price;
      once every held symbol has a price this is the starting cash less
      commissions plus realized and unrealized profit and loss.
    */
    method TotalEquity() returns (value: real)
      ensures value == cash + Holdings(positions, marketPrices)
      ensures Valid() && AllHeldPriced(positions, marketPrices) ==>
        value == startingCash - commissions + realizedPnl + Unrealized(positions, marketPrices)
    {
      ghost var term := HoldingsOf(positions, marketPrices);
      ghost var goal := cash + Holdings(positions, marketPrices);
      value := cash;
      var rest := positions.Keys;
      while rest != {}
        invariant rest <= positions.Keys
        invariant value + SumOver(rest, term) == goal
        decreases |rest|
      {
        var symbol :| symbol in rest;
        var pos := positions[symbol];
        if symbol in marketPrices {
          var worth := pos.quantity as real * marketPrices[symbol];
          HoldingTermAt(positions, marketPrices, symbol, worth);
          FoldStep(rest, term, symbol, value, worth, goal);
          value := value + worth;
        } else {
          HoldingTermAt(positions, marketPrices, symbol, 0.0);
          FoldStep(rest, term, symbol, value, 0.0, goal);
        }
        rest := rest - {symbol};
      }
      if Valid() && AllHeldPriced(positions, marketPrices) {
        EquityDecomposition(cash, realizedPnl, startingCash, commissions, positions, marketPrices);
      }
    }
  }
}
