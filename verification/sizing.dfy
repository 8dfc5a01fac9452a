/** Automatic position sizing (calc_auto_lot_gmobot2): one lot is one unit of
    the base currency, the margin needed is the traded amount over the
    leverage, and the bot commits RISK_RATIO of the balance with a 0.95 safety
    margin. The quotes the function fetches are parameters. */
module Sizing {
  import opened Common
  import opened TickerCache

  const SafetyMargin: real := 0.95
  const MinLot: int := 1
  const MaxLot: int := 500000
  const CrossSymbol: string := "USD_JPY"

  datatype SizingError =
    | BadBalance | BadLeverage | NoSymbol | BadSide
    | TickerFailed | NoRateFor | BadRate

  /** int(x). */
  function Trunc(x: real): int
  {
    if x >= 0.0 then x.Floor else -((-x).Floor)
  }

  /** int(x) truncates toward zero: the integer part, without the fraction,
      keeping the sign. */
  lemma TruncSpec(x: real)
    ensures x >= 0.0 ==> Trunc(x) >= 0 && Trunc(x) as real <= x < Trunc(x) as real + 1.0
    ensures x < 0.0 ==> Trunc(x) <= 0 && Trunc(x) as real - 1.0 < x <= Trunc(x) as real
  {
  }

  lemma TruncMonotone(x: real, y: real)
    requires x <= y
    ensures Trunc(x) <= Trunc(y)
  {
    TruncSpec(x);
    TruncSpec(y);
  }

  /** items[i] is the first quote of the reply for the symbol. */
  predicate FirstQuoteOf(items: seq<Quote>, symbol: string, i: int)
  {
    0 <= i < |items| && items[i].symbol == symbol && forall k :: 0 <= k < i ==> items[k].symbol != symbol
  }

  /** The first quote of the reply for the symbol (the loop with `break`). */
  function FindQuote(items: seq<Quote>, symbol: string): (r: Option<Quote>)
    ensures r.None? <==> forall k :: 0 <= k < |items| ==> items[k].symbol != symbol
  {
    if items == [] then None
    else if items[0].symbol == symbol then Some(items[0])
    else FindQuote(items[1..], symbol)
  }

  /** The quote found is the first one of the reply for the symbol. */
  lemma {:induction false} FindQuoteFirst(items: seq<Quote>, symbol: string, i: int)
    requires FirstQuoteOf(items, symbol, i)
    ensures FindQuote(items, symbol) == Some(items[i])
  {
    if i > 0 {
      assert items[0].symbol != symbol;
      assert FirstQuoteOf(items[1..], symbol, i - 1);
      FindQuoteFirst(items[1..], symbol, i - 1);
    }
  }

  /** The lot count before the [1, 500000] clamp. */
  function Clamp(volume: int): (n: int)
    ensures MinLot <= n <= MaxLot
    ensures MinLot <= volume <= MaxLot ==> n == volume
  {
    if volume < MinLot then MinLot else if volume > MaxLot then MaxLot else volume
  }

  /** The rate of the symbol's quote that the order would trade at: ask when
      buying, bid when selling. */
  function TradeRate(q: Quote, side: string): real
  {
    if side == "BUY" then q.ask else q.bid
  }

  /** The USD/JPY rate used to turn a yen balance into dollars, when the second
      ticker reply carries a positive bid for it. */
  function CrossRate(reply: TickerReply): (r: Option<real>)
    ensures r.Some? ==> r.value > 0.0
  {
    if reply.FetchRaised? then None
    else match FindQuote(reply.items, CrossSymbol)
      case Some(q) => if q.bid > 0.0 then Some(q.bid) else None
      case None => None
  }

  /** The cross rate is the bid of the first USD_JPY quote when that bid is
      positive; a fetch that raised or a reply without USD_JPY gives none. */
  lemma CrossRateSpec(reply: TickerReply)
    ensures reply.FetchRaised? ==> CrossRate(reply).None?
    ensures reply.FetchData? ==> forall i :: FirstQuoteOf(reply.items, CrossSymbol, i) ==>
              CrossRate(reply) == if reply.items[i].bid > 0.0 then Some(reply.items[i].bid) else None
    ensures reply.FetchData? && (forall k :: 0 <= k < |reply.items| ==> reply.items[k].symbol != CrossSymbol) ==>
              CrossRate(reply).None?
  {
    if reply.FetchData? {
      forall i | FirstQuoteOf(reply.items, CrossSymbol, i) {
        FindQuoteFirst(reply.items, CrossSymbol, i);
      }
    }
  }

  /** calc_auto_lot_gmobot2. `symbolReply` is the ticker reply for the symbol,
      `crossReply` the one for USD_JPY (asked for only when the symbol is not a
      yen pair); an exception from either fetch leaves the function. */
  function CalcAutoLot(balance: real, symbol: string, side: string, leverage: real, riskRatio: real,
                       symbolReply: TickerReply, crossReply: TickerReply): (r: Result<int, SizingError>)
    ensures r.Ok? ==> MinLot <= r.value <= MaxLot
    ensures balance <= 0.0 <==> r == Err(BadBalance)
    ensures r.Ok? ==> balance > 0.0 && leverage > 0.0 && symbol != [] && side in {"BUY", "SELL"}
  {
    if balance <= 0.0 then Err(BadBalance)
    else if leverage <= 0.0 then Err(BadLeverage)
    else if symbol == [] then Err(NoSymbol)
    else if side != "BUY" && side != "SELL" then Err(BadSide)
    else if symbolReply.FetchRaised? then Err(TickerFailed)
    else match FindQuote(symbolReply.items, symbol)
      case None => Err(NoRateFor)
      case Some(q) =>
        var rate := TradeRate(q, side);
        if rate <= 0.0 then Err(BadRate)
        else
          var available := balance * riskRatio * SafetyMargin;
          var yen := HasSubstring(symbol, "JPY");
          if !yen && crossReply.FetchRaised? then Err(TickerFailed)
          else Ok(Clamp(Trunc(Scaled(available, leverage, rate, if yen then None else CrossRate(crossReply)))))
  }

  /** The lot count as a real number: the yen amount (turned into dollars first
      when a cross rate is given) times the leverage over the trade rate. */
  function Scaled(available: real, leverage: real, rate: real, cross: Option<real>): real
    requires rate > 0.0 && (cross.Some? ==> cross.value > 0.0)
  {
    match cross
    case Some(u) => available / u * leverage / rate
    case None => available * leverage / rate
  }

  /** The validations come first and in this order: balance, leverage, symbol,
      side; only then is a rate looked at. */
  lemma ValidationOrder(balance: real, symbol: string, side: string, leverage: real, riskRatio: real,
                        symbolReply: TickerReply, crossReply: TickerReply)
    ensures var r := CalcAutoLot(balance, symbol, side, leverage, riskRatio, symbolReply, crossReply);
            && (balance > 0.0 && leverage <= 0.0 <==> r == Err(BadLeverage))
            && (balance > 0.0 && leverage > 0.0 && symbol == [] <==> r == Err(NoSymbol))
            && (balance > 0.0 && leverage > 0.0 && symbol != [] && side != "BUY" && side != "SELL" <==> r == Err(BadSide))
  {
  }

  /** For a yen pair whose quote has a positive rate, the lot is
      int(balance * RISK_RATIO * 0.95 * leverage / rate), clamped to [1, 500000],
      with the ask for BUY and the bid for SELL. */
  lemma YenPairFormula(balance: real, symbol: string, side: string, leverage: real, riskRatio: real,
                       items: seq<Quote>, crossReply: TickerReply, q: Quote)
    requires balance > 0.0 && leverage > 0.0 && side in {"BUY", "SELL"}
    requires HasSubstring(symbol, "JPY")
    requires FindQuote(items, symbol) == Some(q)
    requires (if side == "BUY" then q.ask else q.bid) > 0.0
    ensures var rate := if side == "BUY" then q.ask else q.bid;
            CalcAutoLot(balance, symbol, side, leverage, riskRatio, FetchData(items), crossReply)
              == Ok(Clamp(Trunc(balance * riskRatio * SafetyMargin * leverage / rate)))
  {
    assert symbol != [] by {
      assert |symbol| >= 3;
    }
  }

  /** Once the validations pass, the quotes decide the refusals: a symbol fetch
      that raised, a reply without a quote for the symbol, a non-positive rate
      in its first quote, and, for a pair without JPY, a USD/JPY fetch that
      raised. Each refuses with its own error and exactly in its own case. */
  lemma RateRefusals(balance: real, symbol: string, side: string, leverage: real, riskRatio: real,
                     symbolReply: TickerReply, crossReply: TickerReply)
    ensures var r := CalcAutoLot(balance, symbol, side, leverage, riskRatio, symbolReply, crossReply);
            var valid := balance > 0.0 && leverage > 0.0 && symbol != [] && side in {"BUY", "SELL"};
            && (valid && symbolReply.FetchRaised? ==> r == Err(TickerFailed))
            && ((valid && symbolReply.FetchData? && forall k :: 0 <= k < |symbolReply.items| ==> symbolReply.items[k].symbol != symbol)
                <==> r == Err(NoRateFor))
            && (symbolReply.FetchData? ==> forall i :: FirstQuoteOf(symbolReply.items, symbol, i) ==>
                  && (valid && TradeRate(symbolReply.items[i], side) <= 0.0 <==> r == Err(BadRate))
                  && ((valid && TradeRate(symbolReply.items[i], side) > 0.0 && !HasSubstring(symbol, "JPY") && crossReply.FetchRaised?)
                      <==> r == Err(TickerFailed)))
  {
    if symbolReply.FetchData? {
      forall i | FirstQuoteOf(symbolReply.items, symbol, i)
        ensures FindQuote(symbolReply.items, symbol) == Some(symbolReply.items[i])
      {
        FindQuoteFirst(symbolReply.items, symbol, i);
      }
    }
  }

  /** For another pair the yen amount is first divided by u, the bid of the
      first USD_JPY quote of the second reply, when that bid is positive. */
  lemma CrossPairFormula(balance: real, symbol: string, side: string, leverage: real, riskRatio: real,
                         items: seq<Quote>, crossItems: seq<Quote>, q: Quote, i: int, u: real)
    requires balance > 0.0 && leverage > 0.0 && side in {"BUY", "SELL"} && symbol != []
    requires !HasSubstring(symbol, "JPY")
    requires FindQuote(items, symbol) == Some(q) && TradeRate(q, side) > 0.0
    requires FirstQuoteOf(crossItems, CrossSymbol, i) && crossItems[i].bid == u && u > 0.0
    ensures CalcAutoLot(balance, symbol, side, leverage, riskRatio, FetchData(items), FetchData(crossItems))
              == Ok(Clamp(Trunc(balance * riskRatio * SafetyMargin / u * leverage / TradeRate(q, side))))
  {
    CrossPairScaled(balance, symbol, side, leverage, riskRatio, items, crossItems, q);
    CrossRateSpec(FetchData(crossItems));
    assert CrossRate(FetchData(crossItems)) == Some(u);
    ScaledOverCross(balance, riskRatio, leverage, TradeRate(q, side), u);
  }

  /** When the second reply has no USD_JPY quote, or its first one has no
      positive bid, the lot of another pair falls back to the yen formula. */
  lemma CrossPairFallback(balance: real, symbol: string, side: string, leverage: real, riskRatio: real,
                          items: seq<Quote>, crossItems: seq<Quote>, q: Quote)
    requires balance > 0.0 && leverage > 0.0 && side in {"BUY", "SELL"} && symbol != []
    requires !HasSubstring(symbol, "JPY")
    requires FindQuote(items, symbol) == Some(q) && TradeRate(q, side) > 0.0
    requires forall i :: FirstQuoteOf(crossItems, CrossSymbol, i) ==> crossItems[i].bid <= 0.0
    ensures CalcAutoLot(balance, symbol, side, leverage, riskRatio, FetchData(items), FetchData(crossItems))
              == Ok(Clamp(Trunc(balance * riskRatio * SafetyMargin * leverage / TradeRate(q, side))))
  {
    CrossPairScaled(balance, symbol, side, leverage, riskRatio, items, crossItems, q);
    NoPositiveCrossBid(crossItems);
    ScaledYen(balance, riskRatio, leverage, TradeRate(q, side));
  }

  /** Scaled with a cross rate, written out for a balance. */
  lemma ScaledOverCross(balance: real, riskRatio: real, leverage: real, rate: real, u: real)
    requires rate > 0.0 && u > 0.0
    ensures Scaled(balance * riskRatio * SafetyMargin, leverage, rate, Some(u))
              == balance * riskRatio * SafetyMargin / u * leverage / rate
  {
  }

  /** Scaled without a cross rate, written out for a balance. */
  lemma ScaledYen(balance: real, riskRatio: real, leverage: real, rate: real)
    requires rate > 0.0
    ensures Scaled(balance * riskRatio * SafetyMargin, leverage, rate, None)
              == balance * riskRatio * SafetyMargin * leverage / rate
  {
  }

  /** Without a positive bid in the first USD_JPY quote there is no cross rate. */
  lemma NoPositiveCrossBid(crossItems: seq<Quote>)
    requires forall i :: FirstQuoteOf(crossItems, CrossSymbol, i) ==> crossItems[i].bid <= 0.0
    ensures CrossRate(FetchData(crossItems)).None?
  {
    CrossRateSpec(FetchData(crossItems));
    if CrossRate(FetchData(crossItems)).Some? {
      FirstQuoteExists(crossItems, CrossSymbol);
    }
  }

  /** A reply that holds a quote for the symbol holds a first one. */
  lemma {:induction false} FirstQuoteExists(items: seq<Quote>, symbol: string)
    requires exists k :: 0 <= k < |items| && items[k].symbol == symbol
    ensures exists i :: FirstQuoteOf(items, symbol, i)
  {
    if items[0].symbol == symbol {
      assert FirstQuoteOf(items, symbol, 0);
    } else {
      var k :| 0 <= k < |items| && items[k].symbol == symbol;
      assert items[1..][k - 1] == items[k];
      FirstQuoteExists(items[1..], symbol);
      var i :| FirstQuoteOf(items[1..], symbol, i);
      assert FirstQuoteOf(items, symbol, i + 1);
    }
  }

  /** The non-yen lot is the scaled amount with the cross rate, when there is one. */
  lemma CrossPairScaled(balance: real, symbol: string, side: string, leverage: real, riskRatio: real,
                        items: seq<Quote>, crossItems: seq<Quote>, q: Quote)
    requires balance > 0.0 && leverage > 0.0 && side in {"BUY", "SELL"} && symbol != []
    requires !HasSubstring(symbol, "JPY")
    requires FindQuote(items, symbol) == Some(q) && TradeRate(q, side) > 0.0
    ensures CalcAutoLot(balance, symbol, side, leverage, riskRatio, FetchData(items), FetchData(crossItems))
              == Ok(Clamp(Trunc(Scaled(balance * riskRatio * SafetyMargin, leverage, TradeRate(q, side), CrossRate(FetchData(crossItems))))))
  {
  }

  /** Scaled with a cross rate u is the yen formula over u. */
  lemma ScaledByCross(available: real, leverage: real, rate: real, u: real)
    requires rate > 0.0 && u > 0.0
    ensures Scaled(available, leverage, rate, Some(u)) == Scaled(available, leverage, rate, None) / u
  {
  }

  lemma MulMonotone(a: real, b: real, c: real)
    requires a <= b && c >= 0.0
    ensures a * c <= b * c
  {
  }

  lemma DivMonotone(a: real, b: real, c: real)
    requires a <= b && c > 0.0
    ensures a / c <= b / c
  {
    assert a / c * c == a && b / c * c == b;
  }

  lemma ScaledMonotone(a1: real, a2: real, leverage: real, rate: real, cross: Option<real>)
    requires a1 <= a2 && leverage > 0.0 && rate > 0.0 && (cross.Some? ==> cross.value > 0.0)
    ensures Scaled(a1, leverage, rate, cross) <= Scaled(a2, leverage, rate, cross)
  {
    match cross
    case Some(u) =>
      DivMonotone(a1, a2, u);
      LeverageOverRateMonotone(a1 / u, a2 / u, leverage, rate);
    case None =>
      LeverageOverRateMonotone(a1, a2, leverage, rate);
  }

  lemma LeverageOverRateMonotone(x1: real, x2: real, leverage: real, rate: real)
    requires x1 <= x2 && leverage > 0.0 && rate > 0.0
    ensures x1 * leverage / rate <= x2 * leverage / rate
  {
    MulMonotone(x1, x2, leverage);
    DivMonotone(x1 * leverage, x2 * leverage, rate);
  }

  lemma ScaledMonotoneLev(a: real, l1: real, l2: real, rate: real, cross: Option<real>)
    requires a >= 0.0 && 0.0 < l1 <= l2 && rate > 0.0 && (cross.Some? ==> cross.value > 0.0)
    ensures Scaled(a, l1, rate, cross) <= Scaled(a, l2, rate, cross)
  {
    var x := if cross.Some? then a / cross.value else a;
    assert x >= 0.0;
    MulMonotone(l1, l2, x);
    assert x * l1 <= x * l2;
    DivMonotone(x * l1, x * l2, rate);
  }

  /** More balance never buys fewer lots (the risk ratio being non-negative). */
  lemma MonotoneInBalance(b1: real, b2: real, symbol: string, side: string, leverage: real, riskRatio: real,
                          symbolReply: TickerReply, crossReply: TickerReply)
    requires 0.0 < b1 <= b2 && riskRatio >= 0.0
    requires CalcAutoLot(b1, symbol, side, leverage, riskRatio, symbolReply, crossReply).Ok?
    ensures CalcAutoLot(b2, symbol, side, leverage, riskRatio, symbolReply, crossReply).Ok?
    ensures CalcAutoLot(b1, symbol, side, leverage, riskRatio, symbolReply, crossReply).value
            <= CalcAutoLot(b2, symbol, side, leverage, riskRatio, symbolReply, crossReply).value
  {
    var rate := TradeRate(FindQuote(symbolReply.items, symbol).value, side);
    var yen := HasSubstring(symbol, "JPY");
    var cross := if yen then None else CrossRate(crossReply);
    MulMonotone(b1 * riskRatio, b2 * riskRatio, SafetyMargin) by {
      MulMonotone(b1, b2, riskRatio);
    }
    var a1, a2 := b1 * riskRatio * SafetyMargin, b2 * riskRatio * SafetyMargin;
    ScaledMonotone(a1, a2, leverage, rate, cross);
    TruncMonotone(Scaled(a1, leverage, rate, cross), Scaled(a2, leverage, rate, cross));
  }

  /** More leverage never buys fewer lots (the risk ratio being non-negative). */
  lemma MonotoneInLeverage(balance: real, symbol: string, side: string, l1: real, l2: real, riskRatio: real,
                           symbolReply: TickerReply, crossReply: TickerReply)
    requires 0.0 < l1 <= l2 && riskRatio >= 0.0
    requires CalcAutoLot(balance, symbol, side, l1, riskRatio, symbolReply, crossReply).Ok?
    ensures CalcAutoLot(balance, symbol, side, l2, riskRatio, symbolReply, crossReply).Ok?
    ensures CalcAutoLot(balance, symbol, side, l1, riskRatio, symbolReply, crossReply).value
            <= CalcAutoLot(balance, symbol, side, l2, riskRatio, symbolReply, crossReply).value
  {
    var rate := TradeRate(FindQuote(symbolReply.items, symbol).value, side);
    var yen := HasSubstring(symbol, "JPY");
    var cross := if yen then None else CrossRate(crossReply);
    var a := balance * riskRatio * SafetyMargin;
    MulMonotone(0.0, balance * riskRatio, SafetyMargin) by {
      MulMonotone(0.0, balance, riskRatio);
    }
    ScaledMonotoneLev(a, l1, l2, rate, cross);
    TruncMonotone(Scaled(a, l1, rate, cross), Scaled(a, l2, rate, cross));
  }

  /** A 100,000 yen balance at 10x leverage and a USD/JPY ask of 150 buys
      int(100000 * 0.95 * 10 / 150) = 6333 lots with the whole balance at risk. */
  lemma UsdJpyExample()
    ensures CalcAutoLot(100000.0, "USD_JPY", "BUY", 10.0, 1.0,
                        FetchData([Quote("USD_JPY", 149.99, 150.0)]), FetchRaised) == Ok(6333)
  {
    assert HasSubstring("USD_JPY", "JPY") by {
      assert "USD_JPY"[4..][..3] == "JPY";
      assert HasSubstring("USD_JPY"[4..], "JPY");
      assert HasSubstring("USD_JPY"[3..], "JPY");
      assert HasSubstring("USD_JPY"[2..], "JPY");
      assert HasSubstring("USD_JPY"[1..], "JPY");
    }
    assert 100000.0 * 1.0 * SafetyMargin * 10.0 / 150.0 == 19000.0 / 3.0;
    assert Trunc(19000.0 / 3.0) == 6333;
  }
}
