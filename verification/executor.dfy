/** The per-trade work of process_trades: the re-reading of a resolved plan
    row, the trade's set-up (side, lot, pair), the bounded entry retry loop
    behind the spread gate with its final position check, and the exit retry
    loop with its one manual fallback. What the exchange answers at each
    attempt is a parameter. */
module Executor {
  import opened Common
  import opened Clock
  import opened Schedule
  import opened Monitor

  // ---------------------------------------------------------------------
  // Re-reading a resolved row

  /** process_trades' reading of a row as written: the row's entry and exit
      clock times are put on the current date (the exit one day on when it is
      not after the entry); an entry already past is moved one day on when the
      current hour and the entry's hour are both below 6, and otherwise the
      trade is skipped (None). A time that does not parse also skips it. */
  function ReentryAsWritten(row: Row, now: int): (r: Option<(int, int)>)
    requires |row| >= 5
    ensures r.Some? ==> now <= r.value.0 < r.value.1 <= r.value.0 + Day
  {
    match (ParseClock(row[3]), ParseClock(row[4]))
    case (Some(ec), Some(xc)) =>
      var today := DayStart(now);
      var entry := today + ec;
      var exit := if today + xc <= entry then today + xc + Day else today + xc;
      if entry < now then
        if HourOf(now) < 6 && ec / Hour < 6 then Some((entry + Day, exit + Day)) else None
      else Some((entry, exit))
    case _ => None
  }

  /** The instants a resolved trade is carried out at: the ones the resolution
      gave it; the trade is skipped only when its entry has passed by the time
      its turn comes. */
  function Reentry(p: Planned, now: int): (r: Option<(int, int)>)
    ensures r.Some? <==> now <= p.entry
    ensures r.Some? ==> r.value == (p.entry, p.exit)
  {
    if p.entry < now then None else Some((p.entry, p.exit))
  }

  lemma FormatClockStrips(t: nat)
    requires t < Day
    ensures Strip(FormatClock(t)) == FormatClock(t)
  {
    var f := FormatClock(t);
    assert IsDigit(f[0]) && IsDigit(f[7]);
    StripKeeps(f);
  }

  /** A trade taken up at the instant it was resolved is never skipped. */
  lemma ResolvedTradeIsTaken(row: Row, now: int, last: Option<int>)
    requires |row| >= 5 && Resolve(row, now, last).Some?
    ensures var p := Resolve(row, now, last).value;
            Reentry(p, now) == Some((p.entry, p.exit))
  {
  }

  /** For a trade the resolution left on the current date, the reading as
      written agrees with the resolved instants. */
  lemma AsWrittenAgreesSameDay(row: Row, now: int)
    requires |row| >= 5 && Resolve(row, now, None).Some?
    requires DayStart(Resolve(row, now, None).value.entry) == DayStart(now)
    ensures var p := Resolve(row, now, None).value;
            ReentryAsWritten(p.row, now) == Some((p.entry, p.exit))
  {
    var p := Resolve(row, now, None).value;
    var ec, xc := ParseClock(Strip(row[3])).value, ParseClock(Strip(row[4])).value;
    ResolvedClocksKept(ec, xc, now, None);
    assert p.row == row[3 := FormatClock(TimeOfDay(p.entry))][4 := FormatClock(TimeOfDay(p.exit))];
    RewrittenSameDayAgrees(p.row, row, now, p.entry, p.exit);
  }

  /** A row rewritten with the clock times of an entry later on the current
      date and an exit at most a day after it reads back as those instants. */
  lemma RewrittenSameDayAgrees(r: Row, row: Row, now: int, entry: int, exit: int)
    requires |row| >= 5 && now <= entry < exit <= entry + Day && DayStart(entry) == DayStart(now)
    requires r == row[3 := FormatClock(TimeOfDay(entry))][4 := FormatClock(TimeOfDay(exit))]
    ensures ReentryAsWritten(r, now) == Some((entry, exit))
  {
    ParseFormatClock(TimeOfDay(entry));
    ParseFormatClock(TimeOfDay(exit));
    SameDayClocksReadBack(r, now, entry, exit);
  }

  /** The arithmetic of that read-back, once both cells parse. */
  lemma SameDayClocksReadBack(r: Row, now: int, entry: int, exit: int)
    requires |r| >= 5 && now <= entry < exit <= entry + Day && DayStart(entry) == DayStart(now)
    requires ParseClock(r[3]) == Some(TimeOfDay(entry)) && ParseClock(r[4]) == Some(TimeOfDay(exit))
    ensures ReentryAsWritten(r, now) == Some((entry, exit))
  {
    var today := DayStart(now);
    if exit < today + Day {
      DayStartOfOffset(today, exit - today);
    } else {
      DayStartOfOffset(today + Day, exit - today - Day);
    }
  }

  lemma ResolveParsed(row: Row, now: int, ec: nat, xc: nat)
    requires |row| >= 5 && ParseClock(Strip(row[3])) == Some(ec) && ParseClock(Strip(row[4])) == Some(xc)
    ensures ec < Day && xc < Day
    ensures var entry := ResolveEntry(ec, now, None);
            var exit := ResolveExit(entry, xc);
            Resolve(row, now, None)
              == Some(Planned(entry, exit, row[3 := FormatClock(TimeOfDay(entry))][4 := FormatClock(TimeOfDay(exit))]))
  {
  }

  /** An entry clock time already passed today is resolved to tomorrow. */
  lemma PastClockMovesToTomorrow(d: int, t: nat, ec: nat)
    requires d % Day == 0 && t < Day && ec < t
    ensures ResolveEntry(ec, d + t, None) == d + Day + ec
    ensures TimeOfDay(d + Day + ec) == ec
    ensures TimeOfDay(ResolveEntry(ec, d + t, None)) == ec
  {
    DayStartOfOffset(d, t);
    DayStartOfOffset(d + Day, ec);
  }

  /** After 06:00 the reading as written skips a row whose entry clock time
      has passed today. */
  lemma PastClockSkippedAsWritten(r: Row, d: int, t: nat, ec: nat, xc: nat)
    requires d % Day == 0 && 6 * Hour <= t < Day && ec < t && xc < Day && |r| >= 5
    requires ParseClock(r[3]) == Some(ec) && ParseClock(r[4]) == Some(xc)
    ensures ReentryAsWritten(r, d + t).None?
  {
    DayStartOfOffset(d, t);
  }

  /** After 06:00, a row whose entry clock time has already passed today is
      resolved to that time tomorrow, but reading the rewritten row as written
      puts it back on today, finds it past and skips it: the trade the
      resolution kept never happens (a row for 09:00:00 resolved at 10:00:00,
      say). The resolved instants keep it. */
  lemma TomorrowTradeSkippedAsWritten(row: Row, d: int, t: nat, ec: nat, xc: nat)
    requires d % Day == 0 && 6 * Hour <= t < Day && |row| >= 5
    requires ParseClock(Strip(row[3])) == Some(ec) && ParseClock(Strip(row[4])) == Some(xc) && ec < t
    ensures var p := Resolve(row, d + t, None);
            && p.Some?
            && p.value.entry == d + Day + ec
            && ReentryAsWritten(p.value.row, d + t).None?
            && Reentry(p.value, d + t) == Some((p.value.entry, p.value.exit))
  {
    ResolveParsed(row, d + t, ec, xc);
    PastClockMovesToTomorrow(d, t, ec);
    var p := Resolve(row, d + t, None).value;
    assert p.row == row[3 := FormatClock(ec)][4 := FormatClock(TimeOfDay(p.exit))];
    RewrittenPastClockSkipped(p.row, row, d, t, ec, TimeOfDay(p.exit));
  }

  /** The row rewritten with an entry clock time already passed today is
      skipped when read as written after 06:00. */
  lemma RewrittenPastClockSkipped(r: Row, row: Row, d: int, t: nat, ec: nat, x: nat)
    requires d % Day == 0 && 6 * Hour <= t < Day && ec < t && x < Day && |row| >= 5
    requires r == row[3 := FormatClock(ec)][4 := FormatClock(x)]
    ensures ReentryAsWritten(r, d + t).None?
  {
    ParseFormatClock(ec);
    ParseFormatClock(x);
    PastClockSkippedAsWritten(r, d, t, ec, x);
  }

  // ---------------------------------------------------------------------
  // Setting up a trade

  /** The trade's parameters: side, pair in exchange notation, the size (None
      when the lot cell is blank) and the leverage passed to the order. */
  datatype Setup = Setup(side: Side, pair: string, lot: Option<real>, leverage: real)

  datatype SetupError = BadDirection | BadLot

  /** The lot leverage used when the lot cell is blank and autolot is off. */
  const BlankLotLeverage: real := 18.0

  /** The set-up of process_trades for a row. `lotValue` is what float() makes
      of the stripped lot cell when it is not blank (None: ValueError, which
      abandons the trade). */
  function PrepareTrade(row: Row, lotValue: Option<real>, autolot: bool, leverage: real): (r: Result<Setup, SetupError>)
    requires |row| >= 6
    ensures r.Ok? <==> ParseSide(row[1]).Some? && (Strip(row[5]) == [] || lotValue.Some?)
    ensures r.Ok? ==> r.value.side == ParseSide(row[1]).value && r.value.pair == NormalizePair(row[2])
    ensures r.Ok? ==> (r.value.lot.None? <==> Strip(row[5]) == [])
    ensures r.Ok? && r.value.lot.None? && !autolot ==> r.value.leverage == BlankLotLeverage
    ensures r.Ok? && (r.value.lot.Some? || autolot) ==> r.value.leverage == leverage
  {
    match ParseSide(row[1])
    case None => Err(BadDirection)
    case Some(side) =>
      if Strip(row[5]) == [] then
        Ok(Setup(side, NormalizePair(row[2]), None, if autolot then leverage else BlankLotLeverage))
      else if lotValue.None? then Err(BadLot)
      else Ok(Setup(side, NormalizePair(row[2]), lotValue, leverage))
  }

  // ---------------------------------------------------------------------
  // The entry retry loop

  /** What get_position_by_order_id returns for the new order. */
  datatype Fill = Fill(symbol: string, side: string, price: real, size: real, positionId: int)

  /** The order step of an attempt: send_order raises, its reply carries no
      data, no position is found for the order, or the position is open. */
  datatype OrderOutcome = OrderRaised | NoOrderData | NoPosition | Opened(fill: Fill)

  /** One entry attempt: the ticker fetch raises (which leaves the trade), the
      reply has no data, the reply lacks the pair, or the pair is quoted and,
      should the spread pass, the order does what `order` says. */
  datatype EntryAttempt =
    | TickerRaised
    | NoTicker
    | NoQuote
    | Quoted(bid: real, ask: real, order: OrderOutcome)

  /** The spread gate: the spread is compared with the threshold in price
      units, whatever the pair's pip. */
  predicate SpreadOk(bid: real, ask: real, threshold: real)
  {
    ask - bid <= threshold
  }

  /** An order is sent at this attempt. */
  predicate Gated(a: EntryAttempt, threshold: real)
  {
    a.Quoted? && SpreadOk(a.bid, a.ask, threshold)
  }

  /** The position this attempt opens, if any. */
  function Opens(a: EntryAttempt, threshold: real): (r: Option<Fill>)
    ensures r.Some? ==> Gated(a, threshold)
  {
    if Gated(a, threshold) && a.order.Opened? then Some(a.order.fill) else None
  }

  /** How the entry loop ends and after how many attempts. */
  datatype EntryResult = EntryOpened(fill: Fill, used: nat) | EntryAbandoned(used: nat) | EntryExhausted

  /** The entry loop over the attempts it may make: the first attempt that
      opens a position ends it, a ticker fetch that raises leaves it, and
      otherwise every attempt is used. */
  function EntryRun(attempts: seq<EntryAttempt>, threshold: real): (r: EntryResult)
    ensures r.EntryOpened? ==> 1 <= r.used <= |attempts| && Opens(attempts[r.used - 1], threshold) == Some(r.fill)
    ensures r.EntryAbandoned? ==> 1 <= r.used <= |attempts| && attempts[r.used - 1] == TickerRaised
    ensures r.EntryExhausted? ==> forall k :: 0 <= k < |attempts| ==> attempts[k] != TickerRaised && Opens(attempts[k], threshold).None?
    ensures !r.EntryExhausted? ==> forall k :: 0 <= k < r.used - 1 ==> attempts[k] != TickerRaised && Opens(attempts[k], threshold).None?
  {
    if attempts == [] then EntryExhausted
    else if attempts[0] == TickerRaised then EntryAbandoned(1)
    else if Opens(attempts[0], threshold).Some? then EntryOpened(Opens(attempts[0], threshold).value, 1)
    else
      var rest := EntryRun(attempts[1..], threshold);
      assert forall k :: 1 <= k < |attempts| ==> attempts[k] == attempts[1..][k - 1];
      match rest
      case EntryOpened(f, n) => EntryOpened(f, n + 1)
      case EntryAbandoned(n) => EntryAbandoned(n + 1)
      case EntryExhausted => EntryExhausted
  }

  /** Among the first n attempts, the first one that raises or opens a
      position ends the run. */
  lemma EntryRunStops(attempts: seq<EntryAttempt>, n: nat, threshold: real, i: nat)
    requires i < n <= |attempts|
    requires forall k :: 0 <= k < i ==> attempts[k] != TickerRaised && Opens(attempts[k], threshold).None?
    requires attempts[i] == TickerRaised || Opens(attempts[i], threshold).Some?
    ensures EntryRun(attempts[..n], threshold)
            == if attempts[i] == TickerRaised then EntryAbandoned(i + 1)
               else EntryOpened(Opens(attempts[i], threshold).value, i + 1)
  {
    var w := attempts[..n];
    assert forall k :: 0 <= k < n ==> w[k] == attempts[k];
  }

  /** A run of n attempts none of which raises or opens a position uses them all. */
  lemma EntryRunExhausts(attempts: seq<EntryAttempt>, n: nat, threshold: real)
    requires n <= |attempts|
    requires forall k :: 0 <= k < n ==> attempts[k] != TickerRaised && Opens(attempts[k], threshold).None?
    ensures EntryRun(attempts[..n], threshold) == EntryExhausted
  {
    var w := attempts[..n];
    assert forall k :: 0 <= k < n ==> w[k] == attempts[k];
  }

  /** The attempts before n whose quote passed the spread gate, in order. */
  function GatedIndices(attempts: seq<EntryAttempt>, n: nat, threshold: real): seq<nat>
    requires n <= |attempts|
  {
    if n == 0 then []
    else GatedIndices(attempts, n - 1, threshold) + if Gated(attempts[n - 1], threshold) then [n - 1] else []
  }

  /** GatedIndices lists exactly the gated attempts before n, in increasing order. */
  lemma {:induction false} GatedIndicesSpec(attempts: seq<EntryAttempt>, n: nat, threshold: real)
    requires n <= |attempts|
    ensures var r := GatedIndices(attempts, n, threshold);
            && (forall j :: 0 <= j < |r| ==> r[j] < n && Gated(attempts[r[j]], threshold))
            && (forall k :: 0 <= k < n && Gated(attempts[k], threshold) ==> k in r)
            && (forall i, j :: 0 <= i < j < |r| ==> r[i] < r[j])
  {
    if n > 0 {
      GatedIndicesSpec(attempts, n - 1, threshold);
    }
  }

  /** The attempts an entry loop that ended with r has made. */
  function UsedAttempts(r: EntryResult, maxAttempts: nat): nat
  {
    if r.EntryExhausted? then maxAttempts else r.used
  }

  /** The entry loop of process_trades. `orders` lists the attempts at which
      an order went to the exchange: exactly those the loop reached whose
      quote passed the spread gate. */
  method EntryLoop(maxAttempts: nat, threshold: real, attempts: seq<EntryAttempt>)
      returns (result: EntryResult, orders: seq<nat>)
    requires maxAttempts <= |attempts|
    ensures result == EntryRun(attempts[..maxAttempts], threshold)
    ensures UsedAttempts(result, maxAttempts) <= maxAttempts
    ensures orders == GatedIndices(attempts, UsedAttempts(result, maxAttempts), threshold)
  {
    orders := [];
    var i := 0;
    while i < maxAttempts
      invariant 0 <= i <= maxAttempts
      invariant forall k :: 0 <= k < i ==> attempts[k] != TickerRaised && Opens(attempts[k], threshold).None?
      invariant orders == GatedIndices(attempts, i, threshold)
    {
      var a := attempts[i];
      if a == TickerRaised {
        result := EntryAbandoned(i + 1);
        EntryRunStops(attempts, maxAttempts, threshold, i);
        return;
      }
      if a.Quoted? && SpreadOk(a.bid, a.ask, threshold) {
        orders := orders + [i];
        if a.order.Opened? {
          result := EntryOpened(a.order.fill, i + 1);
          EntryRunStops(attempts, maxAttempts, threshold, i);
          return;
        }
      }
      i := i + 1;
    }
    result := EntryExhausted;
    EntryRunExhausts(attempts, maxAttempts, threshold);
  }

  // ---------------------------------------------------------------------
  // One trade, from its row to an open position

  datatype TradeOutcome =
    | EntryPassed
    | SetupFailed(error: SetupError)
    | Abandoned
    | NotOpened
    | Entered(position: Position)

  /** The monitored position process_trades makes of a fill. */
  function Attach(f: Fill, exitTime: int, tradeIndex: int): Position
  {
    Position(f.symbol, f.side, f.price, f.size, f.positionId, tradeIndex, exitTime, false)
  }

  /** What the trade comes to: skipped when its entry has passed, refused by
      the set-up, left by a raising ticker fetch, opened by an attempt, found
      by the final position check (the first position reported for the pair),
      or not opened at all (the watchdog case). */
  function TradeEntry(p: Planned, tradeIndex: int, now: int, setup: Result<Setup, SetupError>,
                      maxAttempts: nat, threshold: real, attempts: seq<EntryAttempt>, found: seq<Fill>): TradeOutcome
    requires maxAttempts <= |attempts|
  {
    if Reentry(p, now).None? then EntryPassed
    else if setup.Err? then SetupFailed(setup.error)
    else match EntryRun(attempts[..maxAttempts], threshold)
      case EntryAbandoned(_) => Abandoned
      case EntryOpened(f, _) => Entered(Attach(f, p.exit, tradeIndex))
      case EntryExhausted => if found == [] then NotOpened else Entered(Attach(found[0], p.exit, tradeIndex))
  }

  /** A trade is entered only through an attempt that passed the spread gate
      and opened a position, or through the final check after every attempt
      failed; its position carries the trade's exit and row number. */
  lemma EnteredOnlyWithPosition(p: Planned, tradeIndex: int, now: int, setup: Result<Setup, SetupError>,
                                maxAttempts: nat, threshold: real, attempts: seq<EntryAttempt>, found: seq<Fill>)
    requires maxAttempts <= |attempts|
    ensures var r := TradeEntry(p, tradeIndex, now, setup, maxAttempts, threshold, attempts, found);
            r.Entered? ==>
              && now <= p.entry && setup.Ok?
              && r.position.exitTime == p.exit && r.position.tradeIndex == tradeIndex && !r.position.autoClosed
              && ((exists k :: 0 <= k < maxAttempts && Gated(attempts[k], threshold)
                               && Opens(attempts[k], threshold) == Some(Fill(r.position.symbol, r.position.side, r.position.price,
                                                                             r.position.size, r.position.positionId)))
                  || (found != [] && forall k :: 0 <= k < maxAttempts ==> Opens(attempts[k], threshold).None?))
  {
    var r := TradeEntry(p, tradeIndex, now, setup, maxAttempts, threshold, attempts, found);
    if r.Entered? && Reentry(p, now).Some? && setup.Ok? {
      var window := attempts[..maxAttempts];
      var run := EntryRun(window, threshold);
      if run.EntryOpened? {
        assert window[run.used - 1] == attempts[run.used - 1];
      } else {
        assert forall k :: 0 <= k < maxAttempts ==> window[k] == attempts[k];
      }
    }
  }

  /** process_trades up to the monitoring of one trade: the position it opens
      joins the watch list, and nothing else changes it. */
  method EnterTrade(w: Watch, p: Planned, tradeIndex: int, now: int, lotValue: Option<real>, autolot: bool,
                    leverage: real, maxAttempts: nat, threshold: real, attempts: seq<EntryAttempt>,
                    found: seq<Fill>)
      returns (r: TradeOutcome)
    requires |p.row| >= 6 && maxAttempts <= |attempts|
    modifies w
    ensures r == TradeEntry(p, tradeIndex, now, PrepareTrade(p.row, lotValue, autolot, leverage),
                            maxAttempts, threshold, attempts, found)
    ensures r.Entered? ==> w.positions == old(w.positions) + [r.position]
    ensures !r.Entered? ==> w.positions == old(w.positions)
  {
    var times := Reentry(p, now);
    if times.None? {
      return EntryPassed;
    }
    var setup := PrepareTrade(p.row, lotValue, autolot, leverage);
    if setup.Err? {
      return SetupFailed(setup.error);
    }
    var result, orders := EntryLoop(maxAttempts, threshold, attempts);
    match result {
      case EntryAbandoned(_) =>
        return Abandoned;
      case EntryOpened(f, _) =>
        r := Entered(Attach(f, p.exit, tradeIndex));
      case EntryExhausted =>
        if found == [] {
          return NotOpened;
        }
        r := Entered(Attach(found[0], p.exit, tradeIndex));
    }
    w.positions := w.positions + [r.position];
  }

  // ---------------------------------------------------------------------
  // The exit retry loop

  /** What closing one position does at its exit: the outcome of each
      scheduled attempt (true: closed) and of the manual close tried after the
      last one fails. */
  datatype ExitPlan = ExitPlan(attempts: seq<bool>, manual: bool)

  /** The position is closed at its exit: one of the attempts succeeds, or
      there was at least one attempt and the manual close after them
      succeeds. */
  predicate ExitCloses(plan: ExitPlan, maxAttempts: nat)
    requires maxAttempts <= |plan.attempts|
  {
    (exists k :: 0 <= k < maxAttempts && plan.attempts[k]) || (maxAttempts > 0 && plan.manual)
  }

  /** The retry loop for one position. `tries` is the number of scheduled
      attempts made and `manualTried` says whether the manual close was
      tried. */
  method CloseWithRetry(maxAttempts: nat, plan: ExitPlan) returns (closed: bool, tries: nat, manualTried: bool)
    requires maxAttempts <= |plan.attempts|
    ensures closed <==> ExitCloses(plan, maxAttempts)
    ensures manualTried <==> maxAttempts > 0 && forall k :: 0 <= k < maxAttempts ==> !plan.attempts[k]
    ensures tries <= maxAttempts
    ensures forall k :: 0 <= k < tries - 1 ==> !plan.attempts[k]
    ensures tries < maxAttempts ==> tries > 0 && plan.attempts[tries - 1]
  {
    closed, tries, manualTried := false, 0, false;
    var k := 0;
    while k < maxAttempts
      invariant 0 <= k <= maxAttempts && tries == k && !closed && !manualTried
      invariant maxAttempts > 0 ==> k < maxAttempts
      invariant forall j :: 0 <= j < k ==> !plan.attempts[j]
    {
      tries := tries + 1;
      if plan.attempts[k] {
        return true, tries, false;
      }
      if k == maxAttempts - 1 {
        manualTried := true;
        closed := plan.manual;
        return;
      }
      k := k + 1;
    }
  }

  /** The positions of trade `tradeIndex` that the exit phase closes, in
      list order; plans[k] is what closing s[k] does. */
  function ClosedAtExit(s: seq<Position>, plans: seq<ExitPlan>, tradeIndex: int, maxAttempts: nat): (r: seq<Position>)
    requires |s| <= |plans|
    requires forall k :: 0 <= k < |plans| ==> maxAttempts <= |plans[k].attempts|
    ensures forall p :: p in r ==> p in s && p.tradeIndex == tradeIndex
  {
    if s == [] then []
    else
      var rest := ClosedAtExit(s[1..], plans[1..], tradeIndex, maxAttempts);
      if s[0].tradeIndex == tradeIndex && !s[0].autoClosed && ExitCloses(plans[0], maxAttempts) then [s[0]] + rest
      else rest
  }

  lemma {:induction false} ClosedAtExitAppend(s: seq<Position>, a: Position, plans: seq<ExitPlan>, tradeIndex: int,
                                              maxAttempts: nat)
    requires |s| + 1 <= |plans|
    requires forall k :: 0 <= k < |plans| ==> maxAttempts <= |plans[k].attempts|
    ensures ClosedAtExit(s + [a], plans, tradeIndex, maxAttempts)
            == ClosedAtExit(s, plans, tradeIndex, maxAttempts)
               + if a.tradeIndex == tradeIndex && !a.autoClosed && ExitCloses(plans[|s|], maxAttempts) then [a] else []
  {
    if s != [] {
      assert (s + [a])[1..] == s[1..] + [a];
      ClosedAtExitAppend(s[1..], a, plans[1..], tradeIndex, maxAttempts);
    }
  }

  /** One position at the exit of trade `tradeIndex`: a position of that trade
      not already closed by the monitor goes through the retry loop; the
      result says whether it is closed. */
  method CloseAtExit(p: Position, tradeIndex: int, maxAttempts: nat, plan: ExitPlan) returns (closed: bool)
    requires maxAttempts <= |plan.attempts|
    ensures closed <==> p.tradeIndex == tradeIndex && !p.autoClosed && ExitCloses(plan, maxAttempts)
  {
    closed := false;
    if p.tradeIndex == tradeIndex && !p.autoClosed {
      var tries, manualTried;
      closed, tries, manualTried := CloseWithRetry(maxAttempts, plan);
    }
  }

  /** The loop of the exit phase of process_trades for trade `tradeIndex`:
      over a copy of the list, each of the trade's positions goes through the
      retry loop and leaves the list when it is closed. */
  method ExitSweep(snapshot: seq<Position>, tradeIndex: int, maxAttempts: nat, plans: seq<ExitPlan>)
      returns (remaining: seq<Position>)
    requires |snapshot| <= |plans|
    requires forall k :: 0 <= k < |plans| ==> maxAttempts <= |plans[k].attempts|
    ensures remaining == RemoveEach(snapshot, ClosedAtExit(snapshot, plans, tradeIndex, maxAttempts))
  {
    remaining := snapshot;
    ghost var closed: seq<Position> := [];
    var i := 0;
    while i < |snapshot|
      invariant 0 <= i <= |snapshot|
      invariant closed == ClosedAtExit(snapshot[..i], plans, tradeIndex, maxAttempts)
      invariant remaining == RemoveEach(snapshot, closed)
    {
      var p := snapshot[i];
      ClosedAtExitAppend(snapshot[..i], p, plans, tradeIndex, maxAttempts);
      assert snapshot[..i + 1] == snapshot[..i] + [p];
      var ok := CloseAtExit(p, tradeIndex, maxAttempts, plans[i]);
      if ok {
        RemoveEachAppend(snapshot, closed, p);
        remaining := RemoveFirst(remaining, p);
        closed := closed + [p];
      }
      i := i + 1;
    }
    WholePrefix(snapshot);
  }

  /** The exit phase of process_trades, on the watch list. */
  method ExitPhase(w: Watch, tradeIndex: int, maxAttempts: nat, plans: seq<ExitPlan>)
    requires |w.positions| <= |plans|
    requires forall k :: 0 <= k < |plans| ==> maxAttempts <= |plans[k].attempts|
    modifies w
    ensures w.positions == RemoveEach(old(w.positions), ClosedAtExit(old(w.positions), plans, tradeIndex, maxAttempts))
  {
    w.positions := ExitSweep(w.positions, tradeIndex, maxAttempts, plans);
  }

  /** The exit phase of one trade leaves the positions of the other trades as
      they were, in their order. */
  lemma ExitPhaseKeepsOtherTrades(s: seq<Position>, plans: seq<ExitPlan>, tradeIndex: int, maxAttempts: nat)
    requires |s| <= |plans|
    requires forall k :: 0 <= k < |plans| ==> maxAttempts <= |plans[k].attempts|
    ensures OtherTrades(RemoveEach(s, ClosedAtExit(s, plans, tradeIndex, maxAttempts)), tradeIndex)
            == OtherTrades(s, tradeIndex)
  {
    RemoveEachKeepsOtherTrades(s, ClosedAtExit(s, plans, tradeIndex, maxAttempts), tradeIndex);
  }

  /** With no repeated positions, every position the exit phase closes is
      gone from the list afterwards. */
  lemma ExitPhaseRemovesClosed(s: seq<Position>, plans: seq<ExitPlan>, tradeIndex: int, maxAttempts: nat)
    requires |s| <= |plans| && Distinct(s)
    requires forall k :: 0 <= k < |plans| ==> maxAttempts <= |plans[k].attempts|
    ensures forall p :: p in ClosedAtExit(s, plans, tradeIndex, maxAttempts) ==>
              p !in RemoveEach(s, ClosedAtExit(s, plans, tradeIndex, maxAttempts))
  {
    var xs := ClosedAtExit(s, plans, tradeIndex, maxAttempts);
    RemoveEachCount(s, xs);
    forall p | p in xs
      ensures p !in RemoveEach(s, xs)
    {
      DistinctCount(s, p);
      assert multiset(xs)[p] >= 1;
    }
  }
}
