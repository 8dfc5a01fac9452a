/** The position monitor of process_trades: the open positions of the day's
    trades, checked against the latest quotes for stop loss and take profit,
    and the positions it closes taken out of the list in place. */
module Monitor {
  import opened Common
  import opened TickerCache
  import opened Profit

  /** A monitored position: what the exchange reports for it, plus the exit
      instant and the plan row number process_trades attaches. */
  datatype Position = Position(symbol: string, side: string, price: real, size: real, positionId: int,
                               tradeIndex: int, exitTime: int, autoClosed: bool)

  datatype Action = Hold | StopLoss | TakeProfit

  /** The stop-loss test comes first and a zero threshold switches its test off. */
  function Decide(pips: real, stopLoss: real, takeProfit: real): (a: Action)
    ensures a == StopLoss <==> stopLoss != 0.0 && pips <= -stopLoss
    ensures a == TakeProfit <==> !(stopLoss != 0.0 && pips <= -stopLoss) && takeProfit != 0.0 && pips >= takeProfit
  {
    if stopLoss != 0.0 && pips <= -stopLoss then StopLoss
    else if takeProfit != 0.0 && pips >= takeProfit then TakeProfit
    else Hold
  }

  /** With both thresholds positive, a position is held exactly while its open
      profit lies strictly between the two. */
  lemma HoldBand(pips: real, stopLoss: real, takeProfit: real)
    requires stopLoss > 0.0 && takeProfit > 0.0
    ensures Decide(pips, stopLoss, takeProfit) == Hold <==> -stopLoss < pips < takeProfit
  {
  }

  /** The quotes of a ticker reply keyed by symbol. */
  function PriceMap(items: seq<Quote>): (r: map<string, Price>)
    ensures forall s :: s in r <==> s in SymbolsOf(items)
  {
    if items == [] then map[]
    else
      var q := items[|items| - 1];
      assert SymbolsOf(items) == SymbolsOf(items[..|items| - 1]) + {q.symbol};
      PriceMap(items[..|items| - 1])[q.symbol := Price(q.bid, q.ask)]
  }

  /** A symbol sent twice keeps its later quote: the price of a symbol is the
      one of its last quote in the reply. */
  lemma {:induction false} PriceMapLastQuoteWins(items: seq<Quote>, k: int)
    requires 0 <= k < |items|
    requires forall j :: k < j < |items| ==> items[j].symbol != items[k].symbol
    ensures PriceMap(items)[items[k].symbol] == Price(items[k].bid, items[k].ask)
  {
    if k < |items| - 1 {
      var init := items[..|items| - 1];
      assert init[k] == items[k];
      assert items[|items| - 1].symbol != items[k].symbol;
      PriceMapLastQuoteWins(init, k);
    }
  }

  /** What happens when the monitor closes a position: it is closed, the close
      raises KeyError or ValueError (that position is passed over), or it raises
      anything else (which ends the whole pass). */
  datatype CloseOutcome = Closed | Skipped | Aborted

  /** The action the monitor takes on a position given the quotes. */
  function ActionFor(p: Position, prices: map<string, Price>, stopLoss: real, takeProfit: real): Action
  {
    if p.symbol in prices then
      Decide(CurrentProfitPips(p.price, Some(prices[p.symbol]), p.side, p.symbol), stopLoss, takeProfit)
    else Hold
  }

  predicate Closes(p: Position, o: CloseOutcome, prices: map<string, Price>, stopLoss: real, takeProfit: real)
  {
    ActionFor(p, prices, stopLoss, takeProfit) != Hold && o == Closed
  }

  predicate Aborts(p: Position, o: CloseOutcome, prices: map<string, Price>, stopLoss: real, takeProfit: real)
  {
    ActionFor(p, prices, stopLoss, takeProfit) != Hold && o == Aborted
  }

  /** The positions the pass closes, in list order; outcomes[k] is what closing
      s[k] does. */
  function Selected(s: seq<Position>, outcomes: seq<CloseOutcome>, prices: map<string, Price>,
                    stopLoss: real, takeProfit: real): (r: seq<Position>)
    requires |s| <= |outcomes|
    ensures |r| <= |s|
    ensures forall p :: p in r ==> p in s
  {
    if s == [] then []
    else
      var rest := Selected(s[1..], outcomes[1..], prices, stopLoss, takeProfit);
      if Closes(s[0], outcomes[0], prices, stopLoss, takeProfit) then [s[0]] + rest else rest
  }

  /** The positions the pass does not close, in list order. */
  function Survivors(s: seq<Position>, outcomes: seq<CloseOutcome>, prices: map<string, Price>,
                     stopLoss: real, takeProfit: real): (r: seq<Position>)
    requires |s| <= |outcomes|
    ensures forall p :: p in r ==> p in s
    ensures forall k :: 0 <= k < |s| && !Closes(s[k], outcomes[k], prices, stopLoss, takeProfit) ==> s[k] in r
  {
    if s == [] then []
    else
      var rest := Survivors(s[1..], outcomes[1..], prices, stopLoss, takeProfit);
      assert forall k :: 1 <= k < |s| ==> s[k] == s[1..][k - 1] && outcomes[k] == outcomes[1..][k - 1];
      if Closes(s[0], outcomes[0], prices, stopLoss, takeProfit) then rest else [s[0]] + rest
  }

  lemma {:induction false} SelectedAppend(s: seq<Position>, a: Position, outcomes: seq<CloseOutcome>,
                                          prices: map<string, Price>, stopLoss: real, takeProfit: real)
    requires |s| + 1 <= |outcomes|
    ensures Selected(s + [a], outcomes, prices, stopLoss, takeProfit)
            == Selected(s, outcomes, prices, stopLoss, takeProfit)
               + if Closes(a, outcomes[|s|], prices, stopLoss, takeProfit) then [a] else []
  {
    if s != [] {
      assert (s + [a])[1..] == s[1..] + [a];
      SelectedAppend(s[1..], a, outcomes[1..], prices, stopLoss, takeProfit);
    }
  }

  /** list.remove: drops the first element equal to x; ValueError, caught by
      the monitor, when there is none, which leaves the list as it is. */
  function RemoveFirst(s: seq<Position>, x: Position): (r: seq<Position>)
    ensures x !in s ==> r == s
    ensures x in s ==> |r| == |s| - 1
  {
    if s == [] then []
    else if s[0] == x then s[1..] else [s[0]] + RemoveFirst(s[1..], x)
  }

  /** list.remove takes away one occurrence of x, or nothing. */
  lemma {:induction false} RemoveFirstCount(s: seq<Position>, x: Position)
    ensures multiset(RemoveFirst(s, x)) == multiset(s) - multiset{x}
  {
    if s != [] {
      var t := s[1..];
      assert s == [s[0]] + t;
      if s[0] != x {
        RemoveFirstCount(t, x);
        assert multiset(RemoveFirst(s, x)) == multiset{s[0]} + (multiset(t) - multiset{x});
      }
    }
  }

  /** Removing each element of xs in turn. */
  function RemoveEach(s: seq<Position>, xs: seq<Position>): seq<Position>
    decreases |xs|
  {
    if xs == [] then s else RemoveEach(RemoveFirst(s, xs[0]), xs[1..])
  }

  /** Removing the items of xs one after the other takes away exactly their
      multiset. */
  lemma {:induction false} RemoveEachCount(s: seq<Position>, xs: seq<Position>)
    ensures multiset(RemoveEach(s, xs)) == multiset(s) - multiset(xs)
    decreases |xs|
  {
    if xs != [] {
      assert xs == [xs[0]] + xs[1..];
      RemoveFirstCount(s, xs[0]);
      RemoveEachCount(RemoveFirst(s, xs[0]), xs[1..]);
    }
  }

  lemma {:induction false} RemoveEachSkipsHead(a: Position, t: seq<Position>, xs: seq<Position>)
    requires a !in xs
    ensures RemoveEach([a] + t, xs) == [a] + RemoveEach(t, xs)
    decreases |xs|
  {
    if xs != [] {
      assert ([a] + t)[1..] == t;
      RemoveEachSkipsHead(a, RemoveFirst(t, xs[0]), xs[1..]);
    }
  }

  lemma {:induction false} RemoveEachAppend(s: seq<Position>, xs: seq<Position>, x: Position)
    ensures RemoveEach(s, xs + [x]) == RemoveFirst(RemoveEach(s, xs), x)
    decreases |xs|
  {
    if xs != [] {
      assert (xs + [x])[0] == xs[0];
      assert (xs + [x])[1..] == xs[1..] + [x];
      RemoveEachAppend(RemoveFirst(s, xs[0]), xs[1..], x);
    }
  }

  /** The positions that belong to other trades than `tradeIndex`, in order. */
  function OtherTrades(s: seq<Position>, tradeIndex: int): (r: seq<Position>)
    ensures forall p :: p in r <==> p in s && p.tradeIndex != tradeIndex
  {
    if s == [] then []
    else (if s[0].tradeIndex != tradeIndex then [s[0]] else []) + OtherTrades(s[1..], tradeIndex)
  }

  lemma {:induction false} RemoveFirstKeepsOtherTrades(s: seq<Position>, x: Position, tradeIndex: int)
    requires x.tradeIndex == tradeIndex
    ensures OtherTrades(RemoveFirst(s, x), tradeIndex) == OtherTrades(s, tradeIndex)
  {
    if s != [] && s[0] != x {
      assert ([s[0]] + RemoveFirst(s[1..], x))[1..] == RemoveFirst(s[1..], x);
      RemoveFirstKeepsOtherTrades(s[1..], x, tradeIndex);
    }
  }

  /** Taking out positions of one trade leaves the other trades' positions as
      they were, in their order. */
  lemma {:induction false} RemoveEachKeepsOtherTrades(s: seq<Position>, xs: seq<Position>, tradeIndex: int)
    requires forall p :: p in xs ==> p.tradeIndex == tradeIndex
    ensures OtherTrades(RemoveEach(s, xs), tradeIndex) == OtherTrades(s, tradeIndex)
    decreases |xs|
  {
    if xs != [] {
      assert xs[0] in xs;
      assert forall p :: p in xs[1..] ==> p in xs;
      RemoveFirstKeepsOtherTrades(s, xs[0], tradeIndex);
      RemoveEachKeepsOtherTrades(RemoveFirst(s, xs[0]), xs[1..], tradeIndex);
    }
  }

  predicate Distinct(s: seq<Position>)
  {
    forall i, j :: 0 <= i < j < |s| ==> s[i] != s[j]
  }

  lemma {:induction false} DistinctCount(s: seq<Position>, x: Position)
    requires Distinct(s)
    ensures multiset(s)[x] <= 1
  {
    if s != [] {
      var t := s[1..];
      assert s == [s[0]] + t;
      forall i, j | 0 <= i < j < |t|
        ensures t[i] != t[j]
      {
        assert t[i] == s[i + 1] && t[j] == s[j + 1];
      }
      DistinctCount(t, x);
      if s[0] == x {
        forall i | 0 <= i < |t|
          ensures t[i] != x
        {
          assert t[i] == s[i + 1];
        }
        assert x !in t;
      }
    }
  }

  /** For a list without repeated positions, the in-place removal leaves
      exactly the positions the pass did not close, in their order. */
  lemma {:induction false} RemovalLeavesSurvivors(s: seq<Position>, outcomes: seq<CloseOutcome>,
                                                  prices: map<string, Price>, stopLoss: real, takeProfit: real)
    requires |s| <= |outcomes|
    requires Distinct(s)
    ensures RemoveEach(s, Selected(s, outcomes, prices, stopLoss, takeProfit))
            == Survivors(s, outcomes, prices, stopLoss, takeProfit)
  {
    if s != [] {
      var t := s[1..];
      assert s == [s[0]] + t;
      assert Distinct(t) by {
        assert forall i :: 0 <= i < |t| ==> t[i] == s[i + 1];
      }
      RemovalLeavesSurvivors(t, outcomes[1..], prices, stopLoss, takeProfit);
      var sel := Selected(t, outcomes[1..], prices, stopLoss, takeProfit);
      if Closes(s[0], outcomes[0], prices, stopLoss, takeProfit) {
        assert ([s[0]] + sel)[1..] == sel;
      } else {
        assert s[0] !in sel by {
          assert s[0] !in t;
        }
        RemoveEachSkipsHead(s[0], t, sel);
      }
    }
  }

  predicate AnyAbort(s: seq<Position>, outcomes: seq<CloseOutcome>, prices: map<string, Price>,
                     stopLoss: real, takeProfit: real)
    requires |s| <= |outcomes|
  {
    exists k :: 0 <= k < |s| && Aborts(s[k], outcomes[k], prices, stopLoss, takeProfit)
  }

  /** The price loop of monitor_and_close_positions. */
  method CollectPrices(items: seq<Quote>) returns (prices: map<string, Price>)
    ensures prices == PriceMap(items)
  {
    prices := map[];
    var j := 0;
    while j < |items|
      invariant 0 <= j <= |items|
      invariant prices == PriceMap(items[..j])
    {
      assert items[..j + 1][..j] == items[..j];
      prices := prices[items[j].symbol := Price(items[j].bid, items[j].ask)];
      j := j + 1;
    }
    assert items[..j] == items;
  }

  /** The decision loop of monitor_and_close_positions: the positions it
      closes, in list order, or `aborted` when a close raised an unexpected
      error, which ends the pass. */
  method SelectToClose(s: seq<Position>, outcomes: seq<CloseOutcome>, prices: map<string, Price>,
                       stopLoss: real, takeProfit: real) returns (toRemove: seq<Position>, aborted: bool)
    requires |s| <= |outcomes|
    ensures aborted <==> AnyAbort(s, outcomes, prices, stopLoss, takeProfit)
    ensures !aborted ==> toRemove == Selected(s, outcomes, prices, stopLoss, takeProfit)
  {
    toRemove := [];
    var i := 0;
    while i < |s|
      invariant 0 <= i <= |s|
      invariant toRemove == Selected(s[..i], outcomes, prices, stopLoss, takeProfit)
      invariant forall k :: 0 <= k < i ==> !Aborts(s[k], outcomes[k], prices, stopLoss, takeProfit)
    {
      var p := s[i];
      SelectedAppend(s[..i], p, outcomes, prices, stopLoss, takeProfit);
      PrefixStep(s, i);
      if p.symbol in prices {
        var pips := CurrentProfitPips(p.price, Some(prices[p.symbol]), p.side, p.symbol);
        var action := Decide(pips, stopLoss, takeProfit);
        if action != Hold {
          if outcomes[i] == Aborted {
            return toRemove, true;
          }
          if outcomes[i] == Closed {
            toRemove := toRemove + [p];
          }
        }
      }
      i := i + 1;
    }
    WholePrefix(s);
    aborted := false;
  }

  /** The positions_to_monitor list of process_trades. */
  class Watch {
    var positions: seq<Position>

    constructor ()
      ensures positions == []
    {
      positions := [];
    }

    /** monitor_and_close_positions. `reply` is the ticker reply for the
        monitored symbols, and outcomes[k] what closing positions[k] would do. A
        pass that reaches an unexpected error removes nothing, not even the
        positions it already closed. */
    method MonitorAndClose(reply: TickerReply, stopLoss: real, takeProfit: real, outcomes: seq<CloseOutcome>)
      requires |positions| <= |outcomes|
      modifies this
      ensures old(positions) == [] || reply.FetchRaised? ==> positions == old(positions)
      ensures old(positions) != [] && reply.FetchData? ==>
                var prices := PriceMap(reply.items);
                if AnyAbort(old(positions), outcomes, prices, stopLoss, takeProfit) then positions == old(positions)
                else positions == RemoveEach(old(positions), Selected(old(positions), outcomes, prices, stopLoss, takeProfit))
    {
      if positions == [] || reply.FetchRaised? {
        return;
      }
      var prices := CollectPrices(reply.items);
      var toRemove, aborted := SelectToClose(positions, outcomes, prices, stopLoss, takeProfit);
      if aborted {
        return;
      }
      ghost var goal := RemoveEach(positions, toRemove);
      var n := 0;
      while n < |toRemove|
        invariant 0 <= n <= |toRemove|
        invariant RemoveEach(positions, toRemove[n..]) == goal
      {
        assert toRemove[n..][1..] == toRemove[n + 1..];
        positions := RemoveFirst(positions, toRemove[n]);
        n := n + 1;
      }
    }
  }
}
