/** Profit and loss of a position in pips and in money. A pip is 0.01 for a
    pair that mentions JPY and 0.0001 otherwise; one lot is one unit of the
    base currency. The final round(..., 2) is not modelled: the values here are
    the exact quantities the bot rounds. */
module Profit {
  import opened Common
  import opened TickerCache
  import opened Sizing

  /** The price move in the position's favour: up for "BUY", down for any
      other side (the bot only ever passes "BUY" or "SELL"). */
  function Gain(entry: real, exit: real, side: string): real
  {
    if side == "BUY" then exit - entry else entry - exit
  }

  /** calculate_profit_pips, before rounding. */
  function ProfitPips(entry: real, exit: real, side: string, symbol: string): (p: real)
    ensures p * PipValue(symbol) == Gain(entry, exit, side)
    ensures side == "BUY" ==> (p > 0.0 <==> exit > entry)
    ensures side != "BUY" ==> (p > 0.0 <==> exit < entry)
    ensures p == 0.0 <==> exit == entry
  {
    Gain(entry, exit, side) / PipValue(symbol)
  }

  /** Swapping the side negates the pips. */
  lemma SideSwapNegates(entry: real, exit: real, symbol: string)
    ensures ProfitPips(entry, exit, "SELL", symbol) == -ProfitPips(entry, exit, "BUY", symbol)
  {
    var pip := PipValue(symbol);
    assert (entry - exit) / pip == -((exit - entry) / pip);
  }

  /** A quote as calculate_current_profit_pips receives it: a dict with both
      prices, or anything else. */
  datatype Price = Price(bid: real, ask: real)

  /** calculate_current_profit_pips, before rounding: a long position is valued
      at the bid, a short one at the ask, and a malformed quote is worth 0. */
  function CurrentProfitPips(entry: real, current: Option<Price>, side: string, symbol: string): (p: real)
    ensures current.None? ==> p == 0.0
    ensures current.Some? && side == "BUY" ==> p * PipValue(symbol) == current.value.bid - entry
    ensures current.Some? && side != "BUY" ==> p * PipValue(symbol) == entry - current.value.ask
  {
    match current
    case None => 0.0
    case Some(price) =>
      var pip := PipValue(symbol);
      if side == "BUY" then (price.bid - entry) / pip else (entry - price.ask) / pip
  }

  /** The open profit is the profit the position would book if it were closed
      now at the price that closes it (sell at the bid, buy back at the ask). */
  lemma CurrentIsClosingProfit(entry: real, price: Price, side: string, symbol: string)
    ensures CurrentProfitPips(entry, Some(price), side, symbol)
            == ProfitPips(entry, if side == "BUY" then price.bid else price.ask, side, symbol)
  {
  }

  /** calculate_profit_amount, before rounding: pips times size times pip, then
      for a pair without JPY converted at the USD/JPY bid when one is available
      (a failed fetch leaves the dollar amount as it is). */
  function ProfitAmount(entry: real, exit: real, side: string, symbol: string, size: real,
                        crossReply: TickerReply): (amount: real)
  {
    var pip := PipValue(symbol);
    var profit := ProfitPips(entry, exit, side, symbol) * size * pip;
    if HasSubstring(symbol, "JPY") then profit
    else match CrossRate(crossReply)
      case Some(u) => profit * u
      case None => profit
  }

  /** The pip cancels: the amount is the favourable move times the size, in yen
      for a yen pair, converted at the cross rate otherwise. */
  lemma {:induction false} AmountIsMoveTimesSize(entry: real, exit: real, side: string, symbol: string, size: real,
                                                 crossReply: TickerReply)
    ensures var move := Gain(entry, exit, side) * size;
            ProfitAmount(entry, exit, side, symbol, size, crossReply)
              == if HasSubstring(symbol, "JPY") then move
                 else match CrossRate(crossReply)
                   case Some(u) => move * u
                   case None => move
  {
    var pip := PipValue(symbol);
    var p := ProfitPips(entry, exit, side, symbol);
    assert p * size * pip == p * pip * size;
  }

  /** A position of positive size makes money exactly when it gains pips. */
  lemma AmountSignFollowsPips(entry: real, exit: real, side: string, symbol: string, size: real,
                              crossReply: TickerReply)
    requires size > 0.0
    ensures ProfitAmount(entry, exit, side, symbol, size, crossReply) > 0.0
            <==> ProfitPips(entry, exit, side, symbol) > 0.0
  {
    AmountIsMoveTimesSize(entry, exit, side, symbol, size, crossReply);
    var g := Gain(entry, exit, side);
    assert g > 0.0 <==> g * size > 0.0;
    match CrossRate(crossReply) {
      case Some(u) => assert g * size > 0.0 <==> g * size * u > 0.0;
      case None =>
    }
  }
}
