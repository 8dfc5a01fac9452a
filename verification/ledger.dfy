/** The per-symbol daily volume ledger of send_order: before an order goes to
    the exchange its size is checked against the symbol's remaining daily
    allowance (once for an explicit size, once more after automatic sizing);
    after the exchange accepts it the symbol's entry grows by that size. The
    ledger is emptied at local midnight. */
module Ledger {
  import opened Common
  import opened Clock
  import opened TickerCache
  import opened Sizing

  /** symbol_daily_volume.get(symbol, 0) */
  function Used(volume: map<string, real>, symbol: string): real
  {
    if symbol in volume then volume[symbol] else 0.0
  }

  /** The balance reply of get_fx_balance as send_order reads it: an exception,
      any of the malformed shapes it refuses (no reply, no data, empty data,
      no availableAmount, unknown data type), or the available amount. */
  datatype BalanceReply = BalanceRaised | BalanceMalformed | Balance(amount: real)

  datatype OrderError =
    | CapExceeded(current: real, size: real)
    | BalanceUnavailable
    | NonPositiveBalance
    | SizingFailed(reason: SizingError)
    | RequestFailed
    | InvalidResponse

  /** What the exchange does with the order: the request raises, the reply is
      not a dict with a non-empty data list, or the order is accepted. */
  datatype SubmitReply = SubmitRaised | SubmitInvalid | Accepted

  /** `leverage or LEVERAGE`: a missing or zero leverage falls back to the default. */
  function EffectiveLeverage(leverage: Option<real>, defaultLeverage: real): (l: real)
    ensures leverage.Some? && leverage.value != 0.0 ==> l == leverage.value
    ensures leverage.None? || leverage.value == 0.0 ==> l == defaultLeverage
  {
    if leverage.Some? && leverage.value != 0.0 then leverage.value else defaultLeverage
  }

  /** Everything send_order decides before the request: the size to send
      (None when it sends no size at all: autolot off and no size given), or
      the error that stops it. */
  function PlanOrder(volume: map<string, real>, limit: real, symbol: string, side: string,
                     size: Option<real>, autolot: bool, leverage: Option<real>, defaultLeverage: real,
                     riskRatio: real, balance: BalanceReply, symbolReply: TickerReply,
                     crossReply: TickerReply): (r: Result<Option<real>, OrderError>)
    ensures r.Ok? && r.value.Some? ==> Used(volume, symbol) + r.value.value <= limit
    ensures size.Some? ==> (r.Ok? <==> Used(volume, symbol) + size.value <= limit)
    ensures size.Some? && r.Ok? ==> r.value == size
    ensures r.Ok? && r.value.None? <==> size.None? && !autolot
    ensures size.None? && autolot && r.Ok? ==> 1.0 <= r.value.value <= 500000.0
  {
    if size.Some? then
      var used := Used(volume, symbol);
      if used + size.value > limit then Err(CapExceeded(used, size.value)) else Ok(size)
    else if !autolot then Ok(None)
    else match balance
      case BalanceRaised => Err(BalanceUnavailable)
      case BalanceMalformed => Err(BalanceUnavailable)
      case Balance(amount) =>
        if amount <= 0.0 then Err(NonPositiveBalance)
        else match CalcAutoLot(amount, symbol, side, EffectiveLeverage(leverage, defaultLeverage), riskRatio,
                               symbolReply, crossReply)
          case Err(e) => Err(SizingFailed(e))
          case Ok(lots) =>
            var used := Used(volume, symbol);
            if used + lots as real > limit then Err(CapExceeded(used, lots as real)) else Ok(Some(lots as real))
  }

  /** Without a size and with autolot on, the size sent is calc_auto_lot's lot
      for the available balance and `leverage or LEVERAGE`, once that lot fits
      the symbol's allowance; a missing or malformed balance, a balance that is
      not positive, a sizing error and a lot over the allowance each stop the
      order with their own error. */
  lemma AutoSizedOrder(volume: map<string, real>, limit: real, symbol: string, side: string,
                       autolot: bool, leverage: Option<real>, defaultLeverage: real,
                       riskRatio: real, balance: BalanceReply, symbolReply: TickerReply, crossReply: TickerReply)
    requires autolot
    ensures var r := PlanOrder(volume, limit, symbol, side, None, autolot, leverage, defaultLeverage,
                               riskRatio, balance, symbolReply, crossReply);
            && (!balance.Balance? ==> r == Err(BalanceUnavailable))
            && (balance.Balance? && balance.amount <= 0.0 ==> r == Err(NonPositiveBalance))
            && (balance.Balance? && balance.amount > 0.0 ==>
                  var lot := CalcAutoLot(balance.amount, symbol, side, EffectiveLeverage(leverage, defaultLeverage),
                                         riskRatio, symbolReply, crossReply);
                  && (lot.Err? ==> r == Err(SizingFailed(lot.error)))
                  && (lot.Ok? && Used(volume, symbol) + lot.value as real <= limit ==> r == Ok(Some(lot.value as real)))
                  && (lot.Ok? && Used(volume, symbol) + lot.value as real > limit ==>
                        r == Err(CapExceeded(Used(volume, symbol), lot.value as real))))
  {
  }

  /** The sizes booked for a symbol, oldest first. */
  function Booked(history: seq<(string, real)>, symbol: string): real
  {
    if history == [] then 0.0
    else
      var last := history[|history| - 1];
      Booked(history[..|history| - 1], symbol) + (if last.0 == symbol then last.1 else 0.0)
  }

  /** symbol_daily_volume after the bookings of the day, from the empty map at
      midnight: each booking adds its size to its symbol's entry. */
  ghost function VolumeAfter(history: seq<(string, real)>): map<string, real>
  {
    if history == [] then map[]
    else
      var m, last := VolumeAfter(history[..|history| - 1]), history[|history| - 1];
      m[last.0 := Used(m, last.0) + last.1]
  }

  /** The ledger's entry for a symbol is the sum of the sizes booked for it. */
  lemma {:induction false} VolumeAfterIsBooked(history: seq<(string, real)>, symbol: string)
    ensures Used(VolumeAfter(history), symbol) == Booked(history, symbol)
  {
    if history != [] {
      VolumeAfterIsBooked(history[..|history| - 1], symbol);
    }
  }

  /** Each booking passed the cap check of send_order: what the symbol had
      booked before it plus its size stays within the limit. */
  ghost predicate CapRespected(history: seq<(string, real)>, limit: real)
  {
    forall k :: 0 <= k < |history| ==> Booked(history[..k], history[k].0) + history[k].1 <= limit
  }

  /** The ledger's invariant: every entry within the limit, each entry the sum
      of its bookings, and every booking within the cap when it was made. */
  ghost predicate LedgerInvariant(volume: map<string, real>, history: seq<(string, real)>, limit: real)
  {
    && (forall s :: s in volume ==> volume[s] <= limit)
    && volume == VolumeAfter(history)
    && CapRespected(history, limit)
  }

  /** The first instant of the next local day: the reset scheduler's target. */
  function NextMidnight(now: int): (t: int)
    ensures now < t <= now + Day
    ensures t % Day == 0
  {
    DayStart(now) + Day
  }

  class VolumeLedger {
    const limit: real
    var volume: map<string, real>
    /** The orders booked since the last reset, as (symbol, size). */
    ghost var history: seq<(string, real)>

    ghost predicate Valid()
      reads this
    {
      LedgerInvariant(volume, history, limit)
    }

    constructor (limit: real)
      ensures Valid() && this.limit == limit && volume == map[] && history == []
    {
      this.limit := limit;
      volume := map[];
      history := [];
    }

    /** The ledger part of send_order, around the request itself. On success the
        result is the size sent (None when none was sent). */
    method SendOrder(symbol: string, side: string, size: Option<real>, autolot: bool,
                     leverage: Option<real>, defaultLeverage: real, riskRatio: real,
                     balance: BalanceReply, symbolReply: TickerReply, crossReply: TickerReply,
                     reply: SubmitReply)
        returns (r: Result<Option<real>, OrderError>, submitted: bool)
      requires Valid()
      modifies this`volume, this`history
      ensures Valid()
      ensures var plan := PlanOrder(old(volume), limit, symbol, side, size, autolot, leverage, defaultLeverage,
                                    riskRatio, balance, symbolReply, crossReply);
              && (submitted <==> plan.Ok?)
              && (r.Ok? <==> plan.Ok? && reply == Accepted)
              && (r.Ok? ==> r == plan)
      ensures submitted && r.Ok? && r.value.Some? ==> old(Used(volume, symbol)) + r.value.value <= limit
      ensures r.Ok? && r.value.Some? ==> volume == old(volume)[symbol := old(Used(volume, symbol)) + r.value.value]
      ensures !(r.Ok? && r.value.Some?) ==> volume == old(volume) && history == old(history)
      ensures forall s :: s != symbol ==> Used(volume, s) == old(Used(volume, s))
    {
      var plan := PlanOrder(volume, limit, symbol, side, size, autolot, leverage, defaultLeverage,
                            riskRatio, balance, symbolReply, crossReply);
      submitted := plan.Ok?;
      r := plan;
      if plan.Ok? && reply == SubmitRaised {
        r := Err(RequestFailed);
      } else if plan.Ok? && reply == SubmitInvalid {
        r := Err(InvalidResponse);
      } else if plan.Ok? && plan.value.Some? {
        Commit(symbol, plan.value.value);
      }
    }

    /** symbol_daily_volume[symbol] += size, for a size that passed the cap check. */
    method Commit(symbol: string, size: real)
      requires Valid() && Used(volume, symbol) + size <= limit
      modifies this`volume, this`history
      ensures Valid()
      ensures volume == old(volume)[symbol := old(Used(volume, symbol)) + size]
      ensures history == old(history) + [(symbol, size)]
    {
      var used := Used(volume, symbol);
      Book(volume, history, limit, symbol, size);
      volume, history := volume[symbol := used + size], history + [(symbol, size)];
    }

    /** The midnight reset of daily_volume_reset_scheduler. */
    method ResetDaily()
      modifies this`volume, this`history
      ensures Valid() && volume == map[] && history == []
    {
      volume := map[];
      history := [];
    }
  }

  /** Booking a size that passes the cap check keeps the ledger's invariant. */
  lemma Book(volume: map<string, real>, history: seq<(string, real)>, limit: real, symbol: string, size: real)
    requires LedgerInvariant(volume, history, limit)
    requires Used(volume, symbol) + size <= limit
    ensures LedgerInvariant(volume[symbol := Used(volume, symbol) + size], history + [(symbol, size)], limit)
  {
    VolumeAfterIsBooked(history, symbol);
    CapStep(history, limit, symbol, size);
    var h := history + [(symbol, size)];
    assert h[..|h| - 1] == history;
    var after := volume[symbol := Used(volume, symbol) + size];
    assert after == VolumeAfter(h);
    forall s | s in after
      ensures after[s] <= limit
    {
      if s != symbol {
        assert after[s] == volume[s];
      }
    }
  }

  /** A booking that passes the cap check keeps every booking within it. */
  lemma CapStep(history: seq<(string, real)>, limit: real, symbol: string, size: real)
    requires CapRespected(history, limit)
    requires Booked(history, symbol) + size <= limit
    ensures CapRespected(history + [(symbol, size)], limit)
  {
    var h := history + [(symbol, size)];
    forall k | 0 <= k < |h|
      ensures Booked(h[..k], h[k].0) + h[k].1 <= limit
    {
      if k < |history| {
        assert h[..k] == history[..k];
      } else {
        assert h[..k] == history;
      }
    }
  }

  /** What the ledger promises between resets: when every booking passed the
      cap check, the sizes the exchange accepted since midnight for any symbol
      add up to at most the daily limit (or to nothing at all). */
  lemma {:induction false} DayTotalWithinCap(history: seq<(string, real)>, limit: real, symbol: string)
    requires CapRespected(history, limit)
    ensures Booked(history, symbol) <= limit || Booked(history, symbol) == 0.0
  {
    if history != [] {
      var init := history[..|history| - 1];
      var k := |history| - 1;
      assert history[..k] == init;
      if history[k].0 != symbol {
        assert CapRespected(init, limit) by {
          forall j | 0 <= j < |init|
            ensures Booked(init[..j], init[j].0) + init[j].1 <= limit
          {
            assert init[..j] == history[..j];
          }
        }
        DayTotalWithinCap(init, limit, symbol);
      }
    }
  }

  /** A ledger in its invariant keeps every symbol's day total within the cap. */
  lemma LedgerWithinCap(ledger: VolumeLedger, symbol: string)
    requires ledger.Valid()
    ensures Used(ledger.volume, symbol) <= ledger.limit || Used(ledger.volume, symbol) == 0.0
  {
    VolumeAfterIsBooked(ledger.history, symbol);
    DayTotalWithinCap(ledger.history, ledger.limit, symbol);
  }
}
