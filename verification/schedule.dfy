/** The trade plan: reading the rows of the plan file, parsing a row's side
    and pair, resolving its entry and exit clock times to instants (moving
    them to the next day when they are already past), ordering the day's
    trades by entry, and the trading windows that the orphan sweep consults. */
module Schedule {
  import opened Common
  import opened Clock

  /** A plan row as the CSV reader yields it: index 1 is the side, 2 the pair,
      3 the entry time, 4 the exit time, 5 the lot size. */
  type Row = seq<string>

  // ---------------------------------------------------------------------
  // Reading the plan

  /** A row execute_daily_trades keeps: at least six cells, side, pair and
      both times not blank, and both times readable as HH:MM:SS once stripped. */
  predicate Usable(row: Row)
  {
    && |row| >= 6
    && NotBlank(row[1]) && NotBlank(row[2]) && NotBlank(row[3]) && NotBlank(row[4])
    && ParseClock(Strip(row[3])).Some? && ParseClock(Strip(row[4])).Some?
  }

  /** The usable rows, in file order. */
  function UsableRows(rows: seq<Row>): seq<Row>
  {
    if rows == [] then []
    else
      var last := rows[|rows| - 1];
      UsableRows(rows[..|rows| - 1]) + if Usable(last) then [last] else []
  }

  /** The rows kept are usable, and each usable row is kept as often as the
      file holds it. */
  lemma {:induction false} UsableRowsSpec(rows: seq<Row>)
    ensures var r := UsableRows(rows);
            && (forall k :: 0 <= k < |r| ==> Usable(r[k]))
            && forall row :: multiset(r)[row] == if Usable(row) then multiset(rows)[row] else 0
  {
    if rows != [] {
      var init, last := rows[..|rows| - 1], rows[|rows| - 1];
      var kept := Usable(last);
      var rest := UsableRows(init);
      UsableRowsSpec(init);
      LastSplit(rows);
      assert multiset(UsableRows(rows)) == multiset(rest) + if kept then multiset{last} else multiset{};
    }
  }

  /** The row loop of execute_daily_trades: skips the incomplete rows and the
      rows whose times strptime refuses, keeping the others as they are. */
  method ReadPlan(rows: seq<Row>) returns (trades: seq<Row>)
    ensures trades == UsableRows(rows)
  {
    trades := [];
    var i := 0;
    while i < |rows|
      invariant 0 <= i <= |rows|
      invariant trades == UsableRows(rows[..i])
    {
      PrefixStep(rows, i);
      var kept := Usable(rows[i]);
      if kept {
        trades := trades + [rows[i]];
      }
      i := i + 1;
    }
    WholePrefix(rows);
  }

  // ---------------------------------------------------------------------
  // Side and pair

  /** The side cell, stripped and lower-cased: 買, long or l buy; 売, short or s sell. */
  function ParseSide(cell: string): (r: Option<Side>)
    ensures r.Some? <==> Lower(Strip(cell)) in ["買", "long", "l", "売", "short", "s"]
    ensures r == Some(Buy) <==> Lower(Strip(cell)) in ["買", "long", "l"]
  {
    var d := Lower(Strip(cell));
    if d in ["買", "long", "l"] then Some(Buy)
    else if d in ["売", "short", "s"] then Some(Sell)
    else None
  }

  lemma {:induction false} TrimLeftUpper(s: string)
    ensures TrimLeft(Upper(s)) == Upper(TrimLeft(s))
    decreases |s|
  {
    if s != [] {
      var u := Upper(s);
      assert u[0] == UpperChar(s[0]);
      if IsSpace(s[0]) {
        assert u[1..] == Upper(s[1..]);
        TrimLeftUpper(s[1..]);
      }
    }
  }

  lemma UpperPrefix(s: string, n: nat)
    requires n <= |s|
    ensures Upper(s)[..n] == Upper(s[..n])
  {
    var u, t := Upper(s), s[..n];
    forall k | 0 <= k < n
      ensures u[..n][k] == Upper(t)[k]
    {
      assert t[k] == s[k];
    }
  }

  lemma {:induction false} TrimRightUpper(s: string)
    ensures TrimRight(Upper(s)) == Upper(TrimRight(s))
    decreases |s|
  {
    if s != [] {
      var u, n := Upper(s), |s| - 1;
      assert u[n] == UpperChar(s[n]);
      if IsSpace(s[n]) {
        UpperPrefix(s, n);
        TrimRightUpper(s[..n]);
        calc {
          TrimRight(u);
          TrimRight(u[..n]);
          Upper(TrimRight(s[..n]));
        }
      }
    }
  }

  /** The side cell is read without regard to case: "LONG", "Long" and "long" agree. */
  lemma ParseSideIgnoresCase(cell: string)
    ensures ParseSide(Upper(cell)) == ParseSide(cell)
  {
    TrimLeftUpper(cell);
    TrimRightUpper(TrimLeft(cell));
    LowerUpper(Strip(cell));
  }

  /** Replaces every '/' by '_': no slash is left, each slash becomes an
      underscore, and every other character stays in its place. */
  function SlashToUnderscore(s: string): (r: string)
    ensures |r| == |s|
    ensures '/' !in r
    ensures forall k :: 0 <= k < |s| && s[k] == '/' ==> r[k] == '_'
    ensures forall k :: 0 <= k < |s| && s[k] != '/' ==> r[k] == s[k]
  {
    seq(|s|, k requires 0 <= k < |s| => if s[k] == '/' then '_' else s[k])
  }

  /** The pair cell in the exchange's notation: slashes become underscores, a
      six-letter name is split 3 + 3 by an underscore, anything else is kept. */
  function NormalizePair(cell: string): (r: string)
    ensures '/' !in r
    ensures |r| == |Strip(cell)| || (|Strip(cell)| == 6 && |r| == 7 && r[3] == '_')
    ensures '/' in Strip(cell) ==>
              |r| == |Strip(cell)| && forall k :: 0 <= k < |r| && Strip(cell)[k] != '/' ==> r[k] == Strip(cell)[k]
    ensures '/' !in Strip(cell) && |Strip(cell)| == 6 ==>
              |r| == 7 && r[..3] == Strip(cell)[..3] && r[3] == '_' && r[4..] == Strip(cell)[3..]
    ensures '/' !in Strip(cell) && |Strip(cell)| != 6 ==> r == Strip(cell)
  {
    var p := Strip(cell);
    if '/' in p then SlashToUnderscore(p)
    else if |p| == 6 then p[..3] + "_" + p[3..]
    else p
  }

  /** A name without blanks at either end is its own strip. */
  lemma StripKeeps(name: string)
    requires name != [] && !IsSpace(name[0]) && !IsSpace(name[|name| - 1])
    ensures Strip(name) == name
  {
    assert TrimLeft(name) == name;
    assert TrimRight(name) == name;
  }

  /** Both spellings of the dollar-yen pair reach the exchange as USD_JPY. */
  lemma UsdJpySlashed()
    ensures NormalizePair("USD/JPY") == "USD_JPY"
  {
    StripKeeps("USD/JPY");
    assert "USD/JPY"[3] == '/';
    var r := SlashToUnderscore("USD/JPY");
    assert forall k :: 0 <= k < 7 ==> r[k] == "USD_JPY"[k];
  }

  lemma UsdJpyRun()
    ensures NormalizePair("USDJPY") == "USD_JPY"
  {
    StripKeeps("USDJPY");
    assert forall k :: 0 <= k < 6 ==> "USDJPY"[k] != '/';
    assert "USDJPY"[..3] + "_" + "USDJPY"[3..] == "USD_JPY";
  }

  /** A pair cell padded with an ideographic space still names USD_JPY. */
  lemma IdeographicSpacePair()
    ensures NormalizePair("USD/JPY\U{3000}") == "USD_JPY"
  {
    var cell := "USD/JPY\U{3000}";
    assert TrimLeft(cell) == cell;
    assert cell[..|cell| - 1] == "USD/JPY";
    StripKeeps("USD/JPY");
    UsdJpySlashed();
  }

  /** A name already in exchange notation (no slash, no surrounding blanks,
      not six characters long) passes unchanged. */
  lemma ExchangeNotationKept(name: string)
    requires '/' !in name && |name| != 6
    requires name != [] && !IsSpace(name[0]) && !IsSpace(name[|name| - 1])
    ensures NormalizePair(name) == name
  {
    StripKeeps(name);
  }

  // ---------------------------------------------------------------------
  // Resolving a row to instants

  /** execute_daily_trades' entry: today at the row's clock time, moved to
      tomorrow when it precedes the last exit of the previous cycle or,
      failing that, the current time. */
  function ResolveEntry(entryClock: nat, now: int, last: Option<int>): (entry: int)
    requires entryClock < Day
    ensures var today := DayStart(now) + entryClock;
            && (entry == today || entry == today + Day)
            && (entry == today + Day <==> (last.Some? && today < last.value) || today < now)
    ensures entry >= now
  {
    var today := DayStart(now) + entryClock;
    if last.Some? && today < last.value then today + Day
    else if today < now then today + Day
    else today
  }

  /** The exit on the entry's date at the row's clock time, moved one day on
      when it is not after the entry. */
  function ResolveExit(entry: int, exitClock: nat): (exit: int)
    requires exitClock < Day
    ensures entry < exit <= entry + Day
  {
    var x := DayStart(entry) + exitClock;
    if x <= entry then x + Day else x
  }

  /** Resolution keeps the clock times the row asked for. */
  lemma ResolvedClocksKept(entryClock: nat, exitClock: nat, now: int, last: Option<int>)
    requires entryClock < Day && exitClock < Day
    ensures var entry := ResolveEntry(entryClock, now, last);
            && TimeOfDay(entry) == entryClock
            && TimeOfDay(ResolveExit(entry, exitClock)) == exitClock
  {
    var entry := ResolveEntry(entryClock, now, last);
    DayStartOfOffset(DayStart(now), entryClock);
    DayStartNextDay(DayStart(now) + entryClock);
    DayStartOfOffset(DayStart(entry), exitClock);
    DayStartNextDay(DayStart(entry) + exitClock);
  }

  /** A trade of the resolved plan: its instants and its row with the entry and
      exit cells rewritten as HH:MM:SS. */
  datatype Planned = Planned(entry: int, exit: int, row: Row)

  /** One row of the resolution loop; None when a time cell does not parse. */
  function Resolve(row: Row, now: int, last: Option<int>): (r: Option<Planned>)
    requires |row| >= 5
    ensures r.Some? ==> now <= r.value.entry < r.value.exit <= r.value.entry + Day
    ensures r.Some? ==> |r.value.row| == |row| && r.value.row[1] == row[1] && r.value.row[2] == row[2]
  {
    match (ParseClock(Strip(row[3])), ParseClock(Strip(row[4])))
    case (Some(ec), Some(xc)) =>
      var entry := ResolveEntry(ec, now, last);
      var exit := ResolveExit(entry, xc);
      Some(Planned(entry, exit, row[3 := FormatClock(TimeOfDay(entry))][4 := FormatClock(TimeOfDay(exit))]))
    case _ => None
  }

  /** The resolved trades in plan order. */
  function ResolvedAll(trades: seq<Row>, now: int, last: Option<int>): (r: seq<Planned>)
    requires forall k :: 0 <= k < |trades| ==> |trades[k]| >= 5
    ensures |r| <= |trades|
    ensures forall p :: p in r ==> now <= p.entry < p.exit <= p.entry + Day
  {
    if trades == [] then []
    else
      var rest := ResolvedAll(trades[..|trades| - 1], now, last);
      match Resolve(trades[|trades| - 1], now, last)
      case Some(p) => rest + [p]
      case None => rest
  }

  predicate SortedByEntry(s: seq<Planned>)
  {
    forall i, j :: 0 <= i < j < |s| ==> s[i].entry <= s[j].entry
  }

  /** Inserts after every trade whose entry is not later, so equal entries keep
      their plan order as Python's stable sort does. */
  function Insert(x: Planned, s: seq<Planned>): (r: seq<Planned>)
    ensures |r| == |s| + 1
    ensures r[0] == x || (s != [] && r[0] == s[0])
  {
    if s == [] then [x]
    else if x.entry < s[0].entry then [x] + s
    else [s[0]] + Insert(x, s[1..])
  }

  lemma {:induction false} InsertCount(x: Planned, s: seq<Planned>)
    ensures multiset(Insert(x, s)) == multiset(s) + multiset{x}
  {
    if s != [] && x.entry >= s[0].entry {
      var t := s[1..];
      assert s == [s[0]] + t;
      InsertCount(x, t);
      assert multiset(Insert(x, s)) == multiset{s[0]} + multiset(Insert(x, t));
    }
  }

  lemma {:induction false} InsertSorted(x: Planned, s: seq<Planned>)
    requires SortedByEntry(s)
    ensures SortedByEntry(Insert(x, s))
  {
    if s != [] && x.entry >= s[0].entry {
      var t := s[1..];
      var rest := Insert(x, t);
      InsertSorted(x, t);
      assert s[0].entry <= rest[0].entry;
      var r := [s[0]] + rest;
      assert Insert(x, s) == r;
      forall i, j | 0 <= i < j < |r|
        ensures r[i].entry <= r[j].entry
      {
        if i == 0 {
          assert rest[0].entry <= rest[j - 1].entry;
        } else {
          assert r[i] == rest[i - 1] && r[j] == rest[j - 1];
        }
      }
    }
  }

  /** Inserting into a sorted plan keeps it sorted and adds exactly the trade. */
  lemma InsertKeepsOrder(x: Planned, s: seq<Planned>)
    requires SortedByEntry(s)
    ensures SortedByEntry(Insert(x, s))
    ensures multiset(Insert(x, s)) == multiset(s) + multiset{x}
  {
    InsertSorted(x, s);
    InsertCount(x, s);
  }

  /** The trades of a plan whose entry is `e`, in plan order. */
  function SameEntry(s: seq<Planned>, e: int): seq<Planned>
  {
    if s == [] then []
    else (if s[0].entry == e then [s[0]] else []) + SameEntry(s[1..], e)
  }

  lemma {:induction false} SameEntryAppend(a: seq<Planned>, b: seq<Planned>, e: int)
    ensures SameEntry(a + b, e) == SameEntry(a, e) + SameEntry(b, e)
  {
    if a == [] {
      assert a + b == b;
    } else {
      assert (a + b)[1..] == a[1..] + b;
      SameEntryAppend(a[1..], b, e);
    }
  }

  lemma {:induction false} SameEntryNone(s: seq<Planned>, e: int)
    requires forall k :: 0 <= k < |s| ==> s[k].entry != e
    ensures SameEntry(s, e) == []
  {
    if s != [] {
      SameEntryNone(s[1..], e);
    }
  }

  /** Insertion puts the trade after every trade with the same entry. */
  lemma {:induction false} InsertSameEntry(x: Planned, s: seq<Planned>, e: int)
    requires SortedByEntry(s)
    ensures SameEntry(Insert(x, s), e) == SameEntry(s, e) + (if x.entry == e then [x] else [])
    decreases |s|, 1
  {
    if s == [] {
      assert Insert(x, s) == [x];
      assert SameEntry([x], e) == (if x.entry == e then [x] else []) + SameEntry([], e);
    } else if x.entry < s[0].entry {
      InsertBefore(x, s, e);
    } else {
      InsertAfter(x, s, e);
    }
  }

  lemma InsertBefore(x: Planned, s: seq<Planned>, e: int)
    requires SortedByEntry(s) && s != [] && x.entry < s[0].entry
    ensures SameEntry(Insert(x, s), e) == SameEntry(s, e) + (if x.entry == e then [x] else [])
  {
    var r := [x] + s;
    assert Insert(x, s) == r;
    assert r[1..] == s;
    assert SameEntry(r, e) == (if x.entry == e then [x] else []) + SameEntry(s, e);
    if x.entry == e {
      forall k | 0 <= k < |s|
        ensures s[k].entry != e
      {
        assert s[0].entry <= s[k].entry;
      }
      SameEntryNone(s, e);
    }
  }

  lemma InsertAfter(x: Planned, s: seq<Planned>, e: int)
    requires SortedByEntry(s) && s != [] && x.entry >= s[0].entry
    ensures SameEntry(Insert(x, s), e) == SameEntry(s, e) + (if x.entry == e then [x] else [])
    decreases |s|, 0
  {
    var t := s[1..];
    forall i, j | 0 <= i < j < |t|
      ensures t[i].entry <= t[j].entry
    {
      assert t[i] == s[i + 1] && t[j] == s[j + 1];
    }
    InsertSameEntry(x, t, e);
    var r := [s[0]] + Insert(x, t);
    assert Insert(x, s) == r;
    assert r[1..] == Insert(x, t);
    assert SameEntry(r, e) == (if s[0].entry == e then [s[0]] else []) + SameEntry(Insert(x, t), e);
    assert SameEntry(s, e) == (if s[0].entry == e then [s[0]] else []) + SameEntry(t, e);
  }

  /** Sorting keeps the plan order of the trades that share an entry. */
  lemma InsertKeepsTies(x: Planned, init: seq<Planned>, sorted: seq<Planned>)
    requires SortedByEntry(sorted)
    requires forall e :: SameEntry(sorted, e) == SameEntry(init, e)
    ensures forall e :: SameEntry(Insert(x, sorted), e) == SameEntry(init + [x], e)
  {
    forall e
      ensures SameEntry(Insert(x, sorted), e) == SameEntry(init + [x], e)
    {
      InsertSameEntry(x, sorted, e);
      SameEntryAppend(init, [x], e);
      assert SameEntry([x], e) == (if x.entry == e then [x] else []) + SameEntry([], e);
    }
  }

  /** adjusted_trades.sort(key=entry): ordered by entry, the same trades, and,
      since Python's sort is stable, trades with equal entries in plan order.
      These three facts determine the result. */
  function SortByEntry(s: seq<Planned>): (r: seq<Planned>)
    ensures SortedByEntry(r)
    ensures multiset(r) == multiset(s)
    ensures forall e :: SameEntry(r, e) == SameEntry(s, e)
  {
    if s == [] then []
    else
      var init := SortByEntry(s[..|s| - 1]);
      InsertKeepsOrder(s[|s| - 1], init);
      InsertKeepsTies(s[|s| - 1], s[..|s| - 1], init);
      LastSplit(s);
      Insert(s[|s| - 1], init)
  }

  /** The resolution loop of execute_daily_trades: each row is resolved in
      plan order and the rows whose time cells do not parse are passed over. */
  method ResolveRows(trades: seq<Row>, now: int, last: Option<int>) returns (adjusted: seq<Planned>)
    requires forall k :: 0 <= k < |trades| ==> |trades[k]| >= 5
    ensures adjusted == ResolvedAll(trades, now, last)
  {
    adjusted := [];
    var i := 0;
    while i < |trades|
      invariant 0 <= i <= |trades|
      invariant adjusted == ResolvedAll(trades[..i], now, last)
    {
      PrefixStep(trades, i);
      var r := Resolve(trades[i], now, last);
      if r.Some? {
        adjusted := adjusted + [r.value];
      }
      i := i + 1;
    }
    WholePrefix(trades);
  }

  /** The resolution and the sort of execute_daily_trades: every trade that
      resolves appears once, the list is ordered by entry, no entry is in the
      past, and every exit follows its entry within a day. */
  method ResolvePlan(trades: seq<Row>, now: int, last: Option<int>) returns (plan: seq<Planned>)
    requires forall k :: 0 <= k < |trades| ==> |trades[k]| >= 5
    ensures SortedByEntry(plan)
    ensures multiset(plan) == multiset(ResolvedAll(trades, now, last))
    ensures forall e :: SameEntry(plan, e) == SameEntry(ResolvedAll(trades, now, last), e)
    ensures forall p :: p in plan ==> now <= p.entry < p.exit <= p.entry + Day
  {
    var adjusted := ResolveRows(trades, now, last);
    plan := SortByEntry(adjusted);
    assert forall p :: p in plan ==> p in multiset(adjusted);
  }

  // ---------------------------------------------------------------------
  // The previous cycle's last exit

  /** Python's `<` on strings: code point by code point, a proper prefix first. */
  predicate TextLess(a: string, b: string)
  {
    if a == [] then b != []
    else b != [] && (a[0] < b[0] || (a[0] == b[0] && TextLess(a[1..], b[1..])))
  }

  lemma {:induction false} TextLessIrreflexive(a: string)
    ensures !TextLess(a, a)
    decreases |a|
  {
    if a != [] {
      TextLessIrreflexive(a[1..]);
    }
  }

  lemma {:induction false} TextLessTransitive(a: string, b: string, c: string)
    requires TextLess(a, b) && TextLess(b, c)
    ensures TextLess(a, c)
    decreases |a|
  {
    if a != [] && a[0] == b[0] && b[0] == c[0] {
      TextLessTransitive(a[1..], b[1..], c[1..]);
    }
  }

  /** max(texts): the first of the greatest texts. */
  function MaxText(texts: seq<string>): (m: string)
    requires texts != []
    ensures m in texts
    ensures forall k :: 0 <= k < |texts| ==> !TextLess(m, texts[k])
  {
    if |texts| == 1 then TextLessIrreflexive(texts[0]); texts[0]
    else
      var m0 := MaxText(texts[..|texts| - 1]);
      var x := texts[|texts| - 1];
      assert forall k :: 0 <= k < |texts| - 1 ==> texts[k] == texts[..|texts| - 1][k];
      if TextLess(m0, x) then
        TextLessIrreflexive(x);
        assert forall k :: 0 <= k < |texts| - 1 ==> !TextLess(x, texts[k]) by {
          forall k | 0 <= k < |texts| - 1 ensures !TextLess(x, texts[k]) {
            if TextLess(x, texts[k]) {
              TextLessTransitive(m0, x, texts[k]);
            }
          }
        }
        x
      else m0
  }

  /** The exit times recorded in the results (entries without one, or with an
      empty one, are passed over). */
  function RecordedExits(exitTimes: seq<Option<string>>): (r: seq<string>)
    ensures forall k :: 0 <= k < |r| ==> r[k] != []
  {
    if exitTimes == [] then []
    else
      var rest := RecordedExits(exitTimes[1..]);
      match exitTimes[0]
      case Some(t) => if t != [] then [t] + rest else rest
      case None => rest
  }

  /** last_trade_time: the greatest recorded exit text read as HH:MM:SS on the
      day before `now`. A text with 'T' or '-' in it is an ISO timestamp, which
      this model does not read; it gives None here. */
  function LastTradeTime(exitTimes: seq<Option<string>>, now: int): (r: Option<int>)
    ensures r.Some? ==> DayStart(now) - Day <= r.value < DayStart(now)
  {
    var texts := RecordedExits(exitTimes);
    if texts == [] then None
    else
      var m := MaxText(texts);
      if 'T' in m || '-' in m then None
      else match ParseClock(m)
        case Some(t) => Some(DayStart(now) - Day + t)
        case None => None
  }

  /** The previous cycle's last exit, read as HH:MM:SS, always falls on the day
      before, so it never moves an entry: the plan resolves as if there were
      no previous cycle. */
  lemma LastExitNeverMovesEntry(exitTimes: seq<Option<string>>, entryClock: nat, now: int)
    requires entryClock < Day
    ensures ResolveEntry(entryClock, now, LastTradeTime(exitTimes, now)) == ResolveEntry(entryClock, now, None)
  {
  }

  // ---------------------------------------------------------------------
  // Trading windows for the orphan sweep

  datatype Window = Window(entry: int, exit: int)

  /** load_trades_schedule's window of one row, as written: both times today,
      the exit moved to tomorrow when it is not after the entry, and such an
      overnight window moved back a day when the current hour is below 6 and so
      is the entry's, or when the current hour is below the exit's hour. */
  function WindowAsWritten(entryClock: nat, exitClock: nat, now: int): (w: Window)
    requires entryClock < Day && exitClock < Day
    ensures 0 < w.exit - w.entry <= Day
  {
    var today := DayStart(now);
    var entry := today + entryClock;
    var exit := today + exitClock;
    if exit <= entry then
      if HourOf(now) < 6 && entryClock / Hour < 6 then Window(entry - Day, exit)
      else if HourOf(now) < exitClock / Hour then Window(entry - Day, exit)
      else Window(entry, exit + Day)
    else Window(entry, exit)
  }

  /** An overnight row 22:00:00 to 02:30:00 looked at 02:10:00: the trade is
      live (it opened at 22:00 yesterday and closes at 02:30), yet the hour
      comparison 2 < 2 fails and the window lies in the future, so the sweep
      treats the open position as an orphan. */
  lemma SweepMissesLiveOvernightTrade(d: int)
    requires d % Day == 0
    ensures var now := d + 2 * Hour + 10 * 60;
            var w := WindowAsWritten(22 * Hour, 2 * Hour + 30 * 60, now);
            now < w.entry
  {
    DayStartOfOffset(d, 2 * Hour + 10 * 60);
  }

  /** The window the sweep means: an overnight window is moved back a day
      exactly when the current time of day is not past the row's exit. */
  function TradeWindow(entryClock: nat, exitClock: nat, now: int): (w: Window)
    requires entryClock < Day && exitClock < Day
    ensures 0 < w.exit - w.entry <= Day
  {
    var today := DayStart(now);
    var entry := today + entryClock;
    var exit := today + exitClock;
    if exit <= entry then
      if TimeOfDay(now) <= exitClock then Window(entry - Day, exit)
      else Window(entry, exit + Day)
    else Window(entry, exit)
  }

  /** The corrected window contains the current time exactly when the row's
      trade is live at that time of day: between entry and exit for a same-day
      row, from the entry through midnight to the exit for an overnight row. */
  lemma TradeWindowCoversLiveTime(entryClock: nat, exitClock: nat, now: int)
    requires entryClock < Day && exitClock < Day
    ensures var w := TradeWindow(entryClock, exitClock, now);
            var n := TimeOfDay(now);
            (w.entry <= now <= w.exit) <==>
              if entryClock < exitClock then entryClock <= n <= exitClock
              else n <= exitClock || entryClock <= n
  {
  }

  /** The rows load_trades_schedule reads: at least five cells with both times
      present; a row whose times do not parse is passed over. */
  function Windows(rows: seq<Row>, now: int): (r: seq<Window>)
    ensures |r| <= |rows|
    ensures forall k :: 0 <= k < |r| ==> 0 < r[k].exit - r[k].entry <= Day
  {
    if rows == [] then []
    else
      var rest := Windows(rows[..|rows| - 1], now);
      match RowWindow(rows[|rows| - 1], now)
      case Some(w) => rest + [w]
      case None => rest
  }

  /** The window of one row, when it has both times and they parse. */
  function RowWindow(row: Row, now: int): (w: Option<Window>)
    ensures w.Some? ==> 0 < w.value.exit - w.value.entry <= Day
  {
    if |row| >= 5 && NotBlank(row[3]) && NotBlank(row[4]) then
      match (ParseClock(Strip(row[3])), ParseClock(Strip(row[4])))
      case (Some(ec), Some(xc)) => Some(TradeWindow(ec, xc, now))
      case _ => None
    else None
  }

  /** load_trades_schedule over the rows of the plan file. */
  method LoadTradesSchedule(rows: seq<Row>, now: int) returns (schedule: seq<Window>)
    ensures schedule == Windows(rows, now)
  {
    schedule := [];
    var i := 0;
    while i < |rows|
      invariant 0 <= i <= |rows|
      invariant schedule == Windows(rows[..i], now)
    {
      PrefixStep(rows, i);
      var w := RowWindow(rows[i], now);
      if w.Some? {
        schedule := schedule + [w.value];
      }
      i := i + 1;
    }
    WholePrefix(rows);
  }

  /** is_in_trades_schedule: some window holds the instant, both ends included. */
  function IsInTradesSchedule(now: int, schedule: seq<Window>): (r: bool)
    ensures r <==> exists k :: 0 <= k < |schedule| && schedule[k].entry <= now <= schedule[k].exit
  {
    if schedule == [] then false
    else
      (schedule[0].entry <= now <= schedule[0].exit) || IsInTradesSchedule(now, schedule[1..])
  }

  /** The sweep of periodic_position_check closes everything exactly when
      there are open positions and no window holds the current time. */
  function SweepCloses(openPositions: nat, now: int, schedule: seq<Window>): (r: bool)
    ensures r <==> openPositions > 0 && forall k :: 0 <= k < |schedule| ==> !(schedule[k].entry <= now <= schedule[k].exit)
  {
    openPositions > 0 && !IsInTradesSchedule(now, schedule)
  }
}
