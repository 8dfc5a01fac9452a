/** The trade results the bot records as positions close: the day-end split at
    19:00 of the target date (finalize_trades_for_day), which reports the
    results that closed before the cutoff and keeps the rest for the next
    report, and the performance figures of collect_metrics. */
module Results {
  import opened Common
  import opened Clock

  /** The exit time recorded with a result: none, a text read as HH:MM:SS on
      the target date, or a text with 'T' or '-' in it, read as an ISO
      timestamp; `instant` is what datetime.fromisoformat makes of it (None:
      ValueError). */
  datatype ExitStamp = NoExit | Text(s: string) | Iso(instant: Option<int>)

  datatype TradeResult = TradeResult(symbol: string, side: string, entryPrice: real, exitPrice: real,
                                     profitPips: real, profitAmount: real, lotSize: real, exit: ExitStamp)

  const CutoffHour: int := 19

  /** 19:00 of the day that starts at `day`. */
  function Cutoff(day: int): int
  {
    day + CutoffHour * Hour
  }

  /** The exit instant finalize_trades_for_day compares with the cutoff; a
      missing or unreadable exit counts as the cutoff itself. */
  function ExitInstant(e: ExitStamp, day: int): int
  {
    match e
    case NoExit => Cutoff(day)
    case Text(s) =>
      if s == [] then Cutoff(day)
      else (match ParseClock(s)
        case Some(t) => day + t
        case None => Cutoff(day))
    case Iso(instant) => if instant.Some? then instant.value else Cutoff(day)
  }

  predicate BeforeCutoff(r: TradeResult, day: int)
  {
    ExitInstant(r.exit, day) < Cutoff(day)
  }

  /** A result is reported with the day exactly when its exit reads as a clock
      time before 19:00:00 (or as an ISO instant before the cutoff); a result
      without a readable exit time is kept. */
  lemma ReportedWhenClosedBefore19(r: TradeResult, day: int)
    ensures r.exit.Text? ==>
              (BeforeCutoff(r, day) <==> ParseClock(r.exit.s).Some? && ParseClock(r.exit.s).value < CutoffHour * Hour)
    ensures r.exit.NoExit? || (r.exit.Iso? && r.exit.instant.None?) ==> !BeforeCutoff(r, day)
  {
  }

  /** The results reported with the day, in recording order. */
  function Today(s: seq<TradeResult>, day: int): (r: seq<TradeResult>)
    ensures forall x :: x in r ==> x in s && BeforeCutoff(x, day)
  {
    if s == [] then []
    else
      var last := s[|s| - 1];
      Today(s[..|s| - 1], day) + if BeforeCutoff(last, day) then [last] else []
  }

  /** The results kept for the next report, in recording order. */
  function Remain(s: seq<TradeResult>, day: int): (r: seq<TradeResult>)
    ensures forall x :: x in r ==> x in s && !BeforeCutoff(x, day)
  {
    if s == [] then []
    else
      var last := s[|s| - 1];
      Remain(s[..|s| - 1], day) + if BeforeCutoff(last, day) then [] else [last]
  }

  /** Nothing is lost or duplicated by the split: the two parts together hold
      every result exactly as often as the list did. */
  lemma {:induction false} SplitIsPartition(s: seq<TradeResult>, day: int)
    ensures multiset(Today(s, day)) + multiset(Remain(s, day)) == multiset(s)
  {
    if s != [] {
      var init, last := s[..|s| - 1], s[|s| - 1];
      SplitIsPartition(init, day);
      LastSplit(s);
      var before := BeforeCutoff(last, day);
      assert Today(s, day) == Today(init, day) + (if before then [last] else []);
      assert Remain(s, day) == Remain(init, day) + (if before then [] else [last]);
    }
  }

  /** The loop of finalize_trades_for_day. */
  method Split(s: seq<TradeResult>, day: int) returns (today: seq<TradeResult>, remain: seq<TradeResult>)
    ensures today == Today(s, day) && remain == Remain(s, day)
  {
    today, remain := [], [];
    var i := 0;
    while i < |s|
      invariant 0 <= i <= |s|
      invariant today == Today(s[..i], day) && remain == Remain(s[..i], day)
    {
      PrefixStep(s, i);
      var r := s[i];
      if ExitInstant(r.exit, day) < Cutoff(day) {
        today := today + [r];
      } else {
        remain := remain + [r];
      }
      i := i + 1;
    }
    WholePrefix(s);
  }

  function Sum(xs: seq<real>): real
  {
    if xs == [] then 0.0 else Sum(xs[..|xs| - 1]) + xs[|xs| - 1]
  }

  function Pips(s: seq<TradeResult>): (xs: seq<real>)
    ensures |xs| == |s| && forall k :: 0 <= k < |s| ==> xs[k] == s[k].profitPips
  {
    seq(|s|, k requires 0 <= k < |s| => s[k].profitPips)
  }

  function Amounts(s: seq<TradeResult>): (xs: seq<real>)
    ensures |xs| == |s| && forall k :: 0 <= k < |s| ==> xs[k] == s[k].profitAmount
  {
    seq(|s|, k requires 0 <= k < |s| => s[k].profitAmount)
  }

  /** The trade_results list. */
  class TradeLog {
    var tradeResults: seq<TradeResult>

    constructor ()
      ensures tradeResults == []
    {
      tradeResults := [];
    }

    /** The append of close_position_by_info. */
    method Record(r: TradeResult)
      modifies this
      ensures tradeResults == old(tradeResults) + [r]
    {
      tradeResults := tradeResults + [r];
    }

    /** finalize_trades_for_day for the day starting at `day`: the report is
        the results that closed before 19:00 with their totals, and the list
        keeps exactly the others (also when nothing closed before 19:00). */
    method FinalizeTradesForDay(day: int) returns (report: seq<TradeResult>, totalPips: real, totalAmount: real)
      modifies this
      ensures report == Today(old(tradeResults), day)
      ensures tradeResults == Remain(old(tradeResults), day)
      ensures totalPips == Sum(Pips(report)) && totalAmount == Sum(Amounts(report))
    {
      var remain;
      report, remain := Split(tradeResults, day);
      totalPips, totalAmount := Sum(Pips(report)), Sum(Amounts(report));
      tradeResults := remain;
    }
  }

  /** The list the main loop carries into the next day, as written: it empties
      trade_results right after the day's trades (and their finalize) are
      done. */
  function CarriedAsWritten(s: seq<TradeResult>, day: int): (r: seq<TradeResult>)
    ensures |r| == 0
  {
    []
  }

  /** A result that closes at or after 19:00 on the day's last trade is kept
      by the finalize for the next report, and then dropped by the main
      loop: it is never reported. */
  lemma LateResultLostAsWritten(s: seq<TradeResult>, day: int, r: TradeResult)
    requires r in s && !BeforeCutoff(r, day)
    ensures r in Remain(s, day)
    ensures r !in Today(s, day) && r !in CarriedAsWritten(s, day)
  {
    SplitIsPartition(s, day);
    assert r in multiset(s);
  }

  /** The day cycle the finalize intends: report the results before the
      cutoff and carry the rest to the next day. `recorded[k]` are the results
      recorded during day k, `days[k]` its start. */
  function Cycles(pending: seq<TradeResult>, recorded: seq<seq<TradeResult>>, days: seq<int>): (r: (seq<TradeResult>, seq<TradeResult>))
    requires |recorded| == |days|
    decreases |recorded|
  {
    if recorded == [] then ([], pending)
    else
      var all := pending + recorded[0];
      var rest := Cycles(Remain(all, days[0]), recorded[1..], days[1..]);
      (Today(all, days[0]) + rest.0, rest.1)
  }

  /** Over any number of days, every recorded result is either reported once
      or still pending: nothing is lost or duplicated. */
  lemma {:induction false} NothingLostAcrossDays(pending: seq<TradeResult>, recorded: seq<seq<TradeResult>>, days: seq<int>)
    requires |recorded| == |days|
    ensures var r := Cycles(pending, recorded, days);
            multiset(r.0) + multiset(r.1) == multiset(pending) + Flatten(recorded)
    decreases |recorded|
  {
    if recorded != [] {
      var all := pending + recorded[0];
      var today, carried := Today(all, days[0]), Remain(all, days[0]);
      SplitIsPartition(all, days[0]);
      NothingLostAcrossDays(carried, recorded[1..], days[1..]);
      var rest := Cycles(carried, recorded[1..], days[1..]);
      assert Cycles(pending, recorded, days) == (today + rest.0, rest.1);
      var a, b, c, m := multiset(today), multiset(rest.0), multiset(rest.1), multiset(carried);
      var p, q, f := multiset(pending), multiset(recorded[0]), Flatten(recorded[1..]);
      assert multiset(today + rest.0) == a + b;
      assert a + m == p + q;
      assert b + c == m + f;
      assert Flatten(recorded) == q + f;
      calc {
        a + b + c;
        a + (m + f);
        (a + m) + f;
        (p + q) + f;
      }
    }
  }

  function Flatten(batches: seq<seq<TradeResult>>): multiset<TradeResult>
  {
    if batches == [] then multiset{} else multiset(batches[0]) + Flatten(batches[1..])
  }

  // ---------------------------------------------------------------------
  // Performance figures

  /** The results with a positive profit in pips. */
  function Wins(s: seq<TradeResult>): (n: nat)
    ensures n <= |s|
  {
    if s == [] then 0 else (if s[0].profitPips > 0.0 then 1 else 0) + Wins(s[1..])
  }

  /** The results with a profit of zero pips or less. */
  function Losses(s: seq<TradeResult>): (n: nat)
    ensures n <= |s|
  {
    if s == [] then 0 else (if s[0].profitPips <= 0.0 then 1 else 0) + Losses(s[1..])
  }

  /** Every result is a win or a loss, never both. */
  lemma {:induction false} WinsAndLossesCoverAll(s: seq<TradeResult>)
    ensures Wins(s) + Losses(s) == |s|
  {
    if s != [] {
      WinsAndLossesCoverAll(s[1..]);
    }
  }

  /** The cumulative totals up to k never exceed peak. */
  ghost predicate PeakBound(xs: seq<real>, k: nat, peak: real)
    requires k <= |xs|
  {
    forall i :: 0 <= i <= k ==> Sum(xs[..i]) <= peak
  }

  /** No cumulative total up to k falls below an earlier one by more than dd. */
  ghost predicate FallBound(xs: seq<real>, k: nat, dd: real)
    requires k <= |xs|
  {
    forall i, j :: 0 <= i <= j <= k ==> Sum(xs[..i]) - Sum(xs[..j]) <= dd
  }

  /** dd is the largest fall of a cumulative total of xs below an earlier
      one (the empty prefix, total 0, included): no fall exceeds it and one
      equals it. */
  ghost predicate IsMaxDrawdown(xs: seq<real>, dd: real)
  {
    && FallBound(xs, |xs|, dd)
    && exists i, j :: 0 <= i <= j <= |xs| && dd == Sum(xs[..i]) - Sum(xs[..j])
  }

  lemma SumStep(xs: seq<real>, k: nat)
    requires k < |xs|
    ensures Sum(xs[..k + 1]) == Sum(xs[..k]) + xs[k]
  {
    assert xs[..k + 1][..k] == xs[..k];
  }

  lemma PeakStep(xs: seq<real>, k: nat, peak: real, next: real)
    requires k < |xs| && PeakBound(xs, k, peak)
    requires next >= peak && next >= Sum(xs[..k + 1])
    ensures PeakBound(xs, k + 1, next)
  {
  }

  lemma FallStep(xs: seq<real>, k: nat, peak: real, dd: real, next: real)
    requires k < |xs| && PeakBound(xs, k + 1, peak) && FallBound(xs, k, dd)
    requires next >= dd && next >= peak - Sum(xs[..k + 1])
    ensures FallBound(xs, k + 1, next)
  {
    forall i, j | 0 <= i <= j <= k + 1
      ensures Sum(xs[..i]) - Sum(xs[..j]) <= next
    {
      if j == k + 1 {
        assert Sum(xs[..i]) <= peak;
      }
    }
  }

  /** The running total, the peak and the drawdown after the first k
      figures of the running-peak loop. */
  datatype Scan = Scan(running: real, peak: real, dd: real)

  function DrawdownScan(xs: seq<real>, k: nat): Scan
    requires k <= |xs|
  {
    if k == 0 then Scan(0.0, 0.0, 0.0)
    else
      var prev := DrawdownScan(xs, k - 1);
      var running := prev.running + xs[k - 1];
      var peak := if running > prev.peak then running else prev.peak;
      Scan(running, peak, if peak - running > prev.dd then peak - running else prev.dd)
  }

  /** The scan's running total is the cumulative total. */
  lemma {:induction false} ScanRunning(xs: seq<real>, k: nat)
    requires k <= |xs|
    ensures DrawdownScan(xs, k).running == Sum(xs[..k])
  {
    if k == 0 {
      assert xs[..0] == [];
    } else {
      ScanRunning(xs, k - 1);
      SumStep(xs, k - 1);
    }
  }

  /** No cumulative total so far exceeds the scan's peak, and no fall so far
      exceeds its drawdown. */
  lemma {:induction false} ScanBounds(xs: seq<real>, k: nat)
    requires k <= |xs|
    ensures PeakBound(xs, k, DrawdownScan(xs, k).peak)
    ensures FallBound(xs, k, DrawdownScan(xs, k).dd)
  {
    if k == 0 {
      assert xs[..0] == [];
    } else {
      var prev, r := DrawdownScan(xs, k - 1), DrawdownScan(xs, k);
      ScanBounds(xs, k - 1);
      ScanRunning(xs, k);
      PeakStep(xs, k - 1, prev.peak, r.peak);
      FallStep(xs, k - 1, r.peak, prev.dd, r.dd);
    }
  }

  /** Where the scan's peak was reached and which fall its drawdown is. */
  ghost function ScanWitness(xs: seq<real>, k: nat): (w: (nat, nat, nat))
    requires k <= |xs|
  {
    if k == 0 then (0, 0, 0)
    else
      var (p, f, t) := ScanWitness(xs, k - 1);
      var prev, r := DrawdownScan(xs, k - 1), DrawdownScan(xs, k);
      var p' := if r.running > prev.peak then k else p;
      if r.peak - r.running > prev.dd then (p', p', k) else (p', f, t)
  }

  /** The scan's peak is a cumulative total, and its drawdown a fall of one
      cumulative total below a later one. */
  lemma {:induction false} ScanReached(xs: seq<real>, k: nat)
    requires k <= |xs|
    ensures var (p, f, t) := ScanWitness(xs, k);
            && p <= k && DrawdownScan(xs, k).peak == Sum(xs[..p])
            && f <= t <= k && DrawdownScan(xs, k).dd == Sum(xs[..f]) - Sum(xs[..t])
  {
    if k == 0 {
      assert xs[..0] == [];
    } else {
      ScanReached(xs, k - 1);
      ScanRunning(xs, k);
    }
  }

  /** After the whole series the scan's drawdown is the largest fall. */
  lemma ScanIsMaxDrawdown(xs: seq<real>)
    ensures IsMaxDrawdown(xs, DrawdownScan(xs, |xs|).dd)
  {
    ScanBounds(xs, |xs|);
    ScanReached(xs, |xs|);
    var (p, f, t) := ScanWitness(xs, |xs|);
    assert f <= t <= |xs| && DrawdownScan(xs, |xs|).dd == Sum(xs[..f]) - Sum(xs[..t]);
  }

  /** The running-peak loop of collect_metrics for one series: the largest
      fall of the running total from an earlier peak, the peak starting at 0.
      It is the largest difference between a cumulative total and a later
      one, the empty prefix included. */
  method MaxDrawdown(xs: seq<real>) returns (dd: real)
    ensures IsMaxDrawdown(xs, dd)
  {
    var running, peak := 0.0, 0.0;
    dd := 0.0;
    var k := 0;
    while k < |xs|
      invariant 0 <= k <= |xs|
      invariant Scan(running, peak, dd) == DrawdownScan(xs, k)
    {
      running := running + xs[k];
      if running > peak {
        peak := running;
      }
      if peak - running > dd {
        dd := peak - running;
      }
      k := k + 1;
    }
    ScanIsMaxDrawdown(xs);
  }

  /** total / n, the average of n figures that add up to total. */
  function Average(total: real, n: nat): (r: real)
    requires n > 0
    ensures r * (n as real) == total
  {
    total / n as real
  }

  /** wins / n * 100, the share of wins in percent. */
  function WinRate(wins: nat, n: nat): (r: real)
    requires 0 < n && wins <= n
    ensures 0.0 <= r <= 100.0
    ensures r * (n as real) == 100.0 * (wins as real)
  {
    var q := wins as real / n as real;
    assert q * (n as real) == wins as real;
    q * 100.0
  }

  datatype Metrics = Metrics(totalTrades: nat, wins: nat, losses: nat, totalPips: real, totalAmount: real,
                             averagePips: real, winRate: real, maxDrawdownPips: real, maxDrawdownAmount: real)

  /** collect_metrics: the figures of the recorded results; with no results
      the previous figures stand. */
  method CollectMetrics(s: seq<TradeResult>, previous: Metrics) returns (m: Metrics)
    ensures s == [] ==> m == previous
    ensures s != [] ==>
              && m.totalTrades == |s| && m.wins == Wins(s) && m.losses == Losses(s)
              && m.wins + m.losses == m.totalTrades
              && m.totalPips == Sum(Pips(s)) && m.totalAmount == Sum(Amounts(s))
              && m.averagePips == Average(m.totalPips, |s|)
              && m.winRate == WinRate(m.wins, |s|)
    ensures s != [] ==> IsMaxDrawdown(Pips(s), m.maxDrawdownPips) && IsMaxDrawdown(Amounts(s), m.maxDrawdownAmount)
  {
    if s == [] {
      return previous;
    }
    var pips, amount := Sum(Pips(s)), Sum(Amounts(s));
    var wins, losses := Wins(s), Losses(s);
    WinsAndLossesCoverAll(s);
    var average, rate := Average(pips, |s|), WinRate(wins, |s|);
    var ddPips := MaxDrawdown(Pips(s));
    var ddAmount := MaxDrawdown(Amounts(s));
    m := Metrics(|s|, wins, losses, pips, amount, average, rate, ddPips, ddAmount);
  }
}
