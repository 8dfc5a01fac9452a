/** The supervisor rules of the bot: the guard that limits automatic restarts,
    the overall-health verdict of the periodic health check, and the
    validation of the configuration dictionary. */
module Supervisor {
  import opened Common
  import opened Sizing

  // ---------------------------------------------------------------------
  // Restart guard (auto_restart_on_error)

  const MaxRestarts: nat := 5
  /** Seconds that must pass between two restarts. */
  const RestartCooldown: real := 300.0

  /** Whether the guard lets a restart at `now` through, given the number of
      restarts so far and the time of the last one. */
  predicate Admits(count: nat, last: real, now: real)
  {
    now - last >= RestartCooldown && count < MaxRestarts
  }

  /** Consecutive restart times at least the cooldown apart. */
  ghost predicate Spaced(times: seq<real>)
  {
    forall k :: 0 < k < |times| ==> times[k] - times[k - 1] >= RestartCooldown
  }

  /** What one call does: refused during the cooldown, refused once the
      limit is reached, admitted but the exec raised (the call returns
      False), or admitted and the process image replaced (the call never
      returns). */
  datatype RestartOutcome = CoolingDown | LimitReached | ExecFailed | Replaced

  /** The two module globals restart_count and last_restart_time, with the
      times of the admitted restarts as ghost history. */
  class RestartGuard {
    var restartCount: nat
    var lastRestartTime: real
    ghost var admitted: seq<real>

    ghost predicate Valid()
      reads this
    {
      && restartCount == |admitted| <= MaxRestarts
      && Spaced(admitted)
      && (admitted == [] ==> lastRestartTime == 0.0)
      && (admitted != [] ==> lastRestartTime == admitted[|admitted| - 1])
    }

    /** The values the globals get when the module is loaded. */
    constructor ()
      ensures Valid() && restartCount == 0 && lastRestartTime == 0.0 && admitted == []
    {
      restartCount := 0;
      lastRestartTime := 0.0;
      admitted := [];
    }

    /** The guard of auto_restart_on_error; `execRaises` is whether os.execv
        raised. The clean-up of open positions before the exec is not part
        of this model. */
    method AutoRestartOnError(now: real, execRaises: bool) returns (outcome: RestartOutcome)
      requires Valid()
      modifies this
      ensures Valid()
      ensures now - old(lastRestartTime) < RestartCooldown ==> outcome == CoolingDown
      ensures now - old(lastRestartTime) >= RestartCooldown && old(restartCount) >= MaxRestarts ==>
                outcome == LimitReached
      ensures !Admits(old(restartCount), old(lastRestartTime), now) ==>
                && restartCount == old(restartCount) && lastRestartTime == old(lastRestartTime)
                && admitted == old(admitted)
      ensures Admits(old(restartCount), old(lastRestartTime), now) ==>
                && restartCount == old(restartCount) + 1 && lastRestartTime == now
                && admitted == old(admitted) + [now]
                && (outcome == ExecFailed <==> execRaises)
                && (outcome == Replaced <==> !execRaises)
    {
      if now - lastRestartTime < RestartCooldown {
        return CoolingDown;
      }
      if restartCount >= MaxRestarts {
        return LimitReached;
      }
      restartCount := restartCount + 1;
      lastRestartTime := now;
      admitted := admitted + [now];
      if execRaises {
        return ExecFailed;
      }
      return Replaced;
    }
  }

  /** The restarts admitted over a run of calls (time, whether the exec
      raised) when the counters survive the restart: the guard the
      messages about reaching the limit describe. */
  function Admitted(count: nat, last: real, calls: seq<(real, bool)>): seq<real>
    decreases |calls|
  {
    if calls == [] then []
    else if Admits(count, last, calls[0].0) then [calls[0].0] + Admitted(count + 1, calls[0].0, calls[1..])
    else Admitted(count, last, calls[1..])
  }

  /** With persistent counters at most five restarts are ever admitted, each
      at least the cooldown after the previous one. */
  lemma {:induction false} AdmittedBounded(count: nat, last: real, calls: seq<(real, bool)>)
    requires count <= MaxRestarts
    ensures |Admitted(count, last, calls)| <= MaxRestarts - count
    ensures Spaced(Admitted(count, last, calls))
    ensures Admitted(count, last, calls) != [] ==> Admitted(count, last, calls)[0] - last >= RestartCooldown
    decreases |calls|
  {
    if calls != [] {
      var now := calls[0].0;
      if Admits(count, last, now) {
        AdmittedBounded(count + 1, now, calls[1..]);
      } else {
        AdmittedBounded(count, last, calls[1..]);
      }
    }
  }

  /** One guard whose counters survive every restart, asked once per call:
      it admits exactly the restarts of Admitted, so at most five. */
  method RestartRun(calls: seq<(real, bool)>) returns (times: seq<real>)
    ensures times == Admitted(0, 0.0, calls)
    ensures |times| <= MaxRestarts && Spaced(times)
  {
    var guard := new RestartGuard();
    times := [];
    var i := 0;
    while i < |calls|
      invariant 0 <= i <= |calls|
      invariant guard.Valid() && guard.admitted == times
      invariant times + Admitted(guard.restartCount, guard.lastRestartTime, calls[i..]) == Admitted(0, 0.0, calls)
    {
      assert calls[i..][1..] == calls[i + 1..];
      var outcome := guard.AutoRestartOnError(calls[i].0, calls[i].1);
      if outcome == ExecFailed || outcome == Replaced {
        times := times + [calls[i].0];
      }
      i := i + 1;
    }
    assert guard.admitted == times;
  }

  /** The same run as written: os.execv starts the program afresh, so after
      every restart whose exec succeeds the globals are back at 0 and 0. */
  function AdmittedAsWritten(count: nat, last: real, calls: seq<(real, bool)>): seq<real>
    decreases |calls|
  {
    if calls == [] then []
    else
      var now := calls[0].0;
      if !Admits(count, last, now) then AdmittedAsWritten(count, last, calls[1..])
      else if calls[0].1 then [now] + AdmittedAsWritten(count + 1, now, calls[1..])
      else [now] + AdmittedAsWritten(0, 0.0, calls[1..])
  }

  /** As written, when every exec succeeds each call at a real clock reading
      is admitted: neither the limit of five nor the cooldown ever applies. */
  lemma {:induction false} RestartLimitLostAsWritten(calls: seq<(real, bool)>)
    requires forall k :: 0 <= k < |calls| ==> calls[k].0 >= RestartCooldown && !calls[k].1
    ensures |AdmittedAsWritten(0, 0.0, calls)| == |calls|
    decreases |calls|
  {
    if calls != [] {
      RestartLimitLostAsWritten(calls[1..]);
    }
  }

  /** With persistent counters no call within the cooldown of the last
      restart is admitted. */
  lemma {:induction false} CooldownRefuses(count: nat, last: real, calls: seq<(real, bool)>)
    requires forall k :: 0 <= k < |calls| ==> calls[k].0 - last < RestartCooldown
    ensures Admitted(count, last, calls) == []
    decreases |calls|
  {
    if calls != [] {
      CooldownRefuses(count, last, calls[1..]);
    }
  }

  /** Six failures in a row, one second apart: as written all six restart
      the bot; with persistent counters only the first does. */
  lemma SixQuickRestarts(t: real)
    requires t >= RestartCooldown
    ensures var calls := [(t, false), (t + 1.0, false), (t + 2.0, false),
                          (t + 3.0, false), (t + 4.0, false), (t + 5.0, false)];
            |AdmittedAsWritten(0, 0.0, calls)| == 6 > MaxRestarts
            && Admitted(0, 0.0, calls) == [t]
  {
    var calls := [(t, false), (t + 1.0, false), (t + 2.0, false),
                  (t + 3.0, false), (t + 4.0, false), (t + 5.0, false)];
    RestartLimitLostAsWritten(calls);
    CooldownRefuses(1, t, calls[1..]);
  }

  // ---------------------------------------------------------------------
  // Health check (health_check)

  /** The balance request of the connection probe: it raised, or it returned
      a reply that does or does not carry a data field. */
  datatype ApiProbe = ApiRaised | ApiReply(hasData: bool)

  /** The outside facts the health check looks at. The disk probe gives the
      free bytes and the memory probe the resident size in megabytes; None
      stands for a probe that raised. */
  datatype Probes = Probes(
    api: ApiProbe,
    webhookReady: bool, webhookSends: bool,
    diskFreeBytes: Option<real>, rssMegabytes: Option<real>,
    configExists: bool, tradesExists: bool, resultsDirExists: bool, resultsDirCreated: bool)

  datatype HealthStatus = HealthStatus(
    apiConnection: bool, discordConnection: bool, diskSpace: bool,
    memoryUsage: bool, fileAccess: bool, overallHealth: bool)

  const GiB: real := 1073741824.0

  /** The verdicts of health_check and their conjunction. */
  function HealthCheck(p: Probes): (h: HealthStatus)
    ensures h.overallHealth <==>
              h.apiConnection && h.discordConnection && h.diskSpace && h.memoryUsage && h.fileAccess
  {
    var api := p.api == ApiReply(true);
    var discord := p.webhookReady && p.webhookSends;
    var disk := match p.diskFreeBytes
      case None => false
      case Some(free) => !(free / GiB < 1.0);
    var memory := match p.rssMegabytes
      case None => false
      case Some(rss) => !(rss > 500.0);
    var files := p.configExists && p.tradesExists && (p.resultsDirExists || p.resultsDirCreated);
    HealthStatus(api, discord, disk, memory, files, api && discord && disk && memory && files)
  }

  /** The system counts as healthy exactly when every probe answers and
      passes: the exchange replies with data, the webhook sends, at least
      one GiB of disk is free, at most 500 MB are resident, and the two
      input files and the results directory are there. */
  lemma HealthyExactlyWhenEveryProbePasses(p: Probes)
    ensures HealthCheck(p).overallHealth <==>
              && p.api == ApiReply(true)
              && p.webhookReady && p.webhookSends
              && p.diskFreeBytes.Some? && p.diskFreeBytes.value >= GiB
              && p.rssMegabytes.Some? && p.rssMegabytes.value <= 500.0
              && p.configExists && p.tradesExists && (p.resultsDirExists || p.resultsDirCreated)
  {
    if p.diskFreeBytes.Some? {
      var free := p.diskFreeBytes.value;
      assert free / GiB * GiB == free;
    }
  }

  // ---------------------------------------------------------------------
  // Configuration validation (validate_config)

  /** A value of the configuration dictionary. For a string the results of
      float() and int() on it are given (None when they raise). */
  datatype ConfigValue =
    | Null
    | Bool(b: bool)
    | Int(i: int)
    | Float(x: real)
    | Text(s: string, asFloat: Option<real>, asInt: Option<int>)
    | Composite(nonEmpty: bool)

  /** config.get(field) */
  function Get(config: map<string, ConfigValue>, field: string): ConfigValue
  {
    if field in config then config[field] else Null
  }

  /** Python truthiness. */
  predicate Truthy(v: ConfigValue)
  {
    match v
    case Null => false
    case Bool(b) => b
    case Int(i) => i != 0
    case Float(x) => x != 0.0
    case Text(s, _, _) => s != ""
    case Composite(nonEmpty) => nonEmpty
  }

  /** float(v), None when it raises ValueError or TypeError. */
  function AsFloat(v: ConfigValue): Option<real>
  {
    match v
    case Null => None
    case Bool(b) => Some(if b then 1.0 else 0.0)
    case Int(i) => Some(i as real)
    case Float(x) => Some(x)
    case Text(_, f, _) => f
    case Composite(_) => None
  }

  /** int(v), None when it raises ValueError or TypeError. */
  function AsInt(v: ConfigValue): Option<int>
  {
    match v
    case Null => None
    case Bool(b) => Some(if b then 1 else 0)
    case Int(i) => Some(i)
    case Float(x) => Some(Trunc(x))
    case Text(_, _, n) => n
    case Composite(_) => None
  }

  /** Whether str(v).upper() is TRUE or FALSE: the booleans print as True
      and False, numbers and containers never spell either word. */
  predicate AutolotWord(v: ConfigValue)
  {
    match v
    case Bool(_) => true
    case Text(s, _, _) => Upper(s) == "TRUE" || Upper(s) == "FALSE"
    case _ => false
  }

  datatype ConfigError =
    | Missing(field: string)
    | OutOfRange(field: string, value: real)
    | NotNumeric(field: string)
    | HourOutOfRange(hour: int)
    | HourNotNumeric
    | AutolotInvalid

  datatype Range = Range(field: string, low: real, high: real)

  const RequiredFields: seq<string> := ["api_key", "api_secret", "discord_webhook_url"]

  /** The numeric settings and their inclusive bounds, in the order they are
      checked. */
  const NumericRanges: seq<Range> := [
    Range("spread_threshold", 0.001, 1.0),
    Range("jitter_seconds", 0.0, 60.0),
    Range("entry_order_retry_interval", 1.0, 60.0),
    Range("max_entry_order_attempts", 1.0, 10.0),
    Range("exit_order_retry_interval", 1.0, 60.0),
    Range("max_exit_order_attempts", 1.0, 10.0),
    Range("stop_loss_pips", 0.0, 1000.0),
    Range("take_profit_pips", 0.0, 1000.0),
    Range("position_check_interval", 1.0, 60.0),
    Range("position_check_interval_minutes", 1.0, 99.0),
    Range("leverage", 1.0, 100.0),
    Range("risk_ratio", 0.1, 1.0)
  ]

  function RequiredErrors(config: map<string, ConfigValue>, fields: seq<string>): seq<ConfigError>
  {
    if fields == [] then []
    else
      var last := fields[|fields| - 1];
      RequiredErrors(config, fields[..|fields| - 1]) + (if Truthy(Get(config, last)) then [] else [Missing(last)])
  }

  /** The complaint about one numeric setting, if any. */
  function RangeError(v: ConfigValue, r: Range): seq<ConfigError>
  {
    if v.Null? then []
    else match AsFloat(v)
      case None => [NotNumeric(r.field)]
      case Some(x) => if r.low <= x <= r.high then [] else [OutOfRange(r.field, x)]
  }

  function RangeErrors(config: map<string, ConfigValue>, ranges: seq<Range>): seq<ConfigError>
  {
    if ranges == [] then []
    else
      var last := ranges[|ranges| - 1];
      RangeErrors(config, ranges[..|ranges| - 1]) + RangeError(Get(config, last.field), last)
  }

  function HourError(v: ConfigValue): seq<ConfigError>
  {
    if v.Null? then []
    else match AsInt(v)
      case None => [HourNotNumeric]
      case Some(h) => if 0 <= h <= 24 then [] else [HourOutOfRange(h)]
  }

  function AutolotError(v: ConfigValue): seq<ConfigError>
  {
    if v.Null? || AutolotWord(v) then [] else [AutolotInvalid]
  }

  /** The complaints of validate_config, in the order it reports them. */
  function ConfigErrors(config: map<string, ConfigValue>): seq<ConfigError>
  {
    RequiredErrors(config, RequiredFields) + RangeErrors(config, NumericRanges)
    + HourError(Get(config, "auto_restart_hour")) + AutolotError(Get(config, "autolot"))
  }

  /** Every listed setting is present and non-empty. */
  ghost predicate RequiredPresent(config: map<string, ConfigValue>, fields: seq<string>)
  {
    forall f :: f in fields ==> Truthy(Get(config, f))
  }

  /** A numeric setting is absent, or a number within its bounds. */
  ghost predicate InRange(v: ConfigValue, r: Range)
  {
    v.Null? || (AsFloat(v).Some? && r.low <= AsFloat(v).value <= r.high)
  }

  ghost predicate RangesRespected(config: map<string, ConfigValue>, ranges: seq<Range>)
  {
    forall r :: r in ranges ==> InRange(Get(config, r.field), r)
  }

  /** A configuration validate_config accepts, stated setting by setting. */
  ghost predicate ValidConfig(config: map<string, ConfigValue>)
  {
    && RequiredPresent(config, RequiredFields)
    && RangesRespected(config, NumericRanges)
    && (var h := Get(config, "auto_restart_hour"); h.Null? || (AsInt(h).Some? && 0 <= AsInt(h).value <= 24))
    && (var a := Get(config, "autolot"); a.Null? || AutolotWord(a))
  }

  lemma {:induction false} RequiredErrorsEmpty(config: map<string, ConfigValue>, fields: seq<string>)
    ensures RequiredErrors(config, fields) == [] <==> RequiredPresent(config, fields)
  {
    if fields != [] {
      var init, last := fields[..|fields| - 1], fields[|fields| - 1];
      RequiredErrorsEmpty(config, init);
      LastSplit(fields);
      assert RequiredPresent(config, fields)
        <==> RequiredPresent(config, init) && Truthy(Get(config, last));
    }
  }

  lemma {:induction false} RangeErrorsEmpty(config: map<string, ConfigValue>, ranges: seq<Range>)
    ensures RangeErrors(config, ranges) == [] <==> RangesRespected(config, ranges)
  {
    if ranges != [] {
      var init, last := ranges[..|ranges| - 1], ranges[|ranges| - 1];
      RangeErrorsEmpty(config, init);
      RangeErrorEmpty(Get(config, last.field), last);
      LastSplit(ranges);
      assert RangesRespected(config, ranges)
        <==> RangesRespected(config, init) && InRange(Get(config, last.field), last);
    }
  }

  lemma RangeErrorEmpty(v: ConfigValue, r: Range)
    ensures RangeError(v, r) == [] <==> InRange(v, r)
  {
  }

  lemma RequiredErrorsStep(config: map<string, ConfigValue>, fields: seq<string>, i: nat)
    requires i < |fields|
    ensures RequiredErrors(config, fields[..i + 1])
              == RequiredErrors(config, fields[..i]) + (if Truthy(Get(config, fields[i])) then [] else [Missing(fields[i])])
  {
    PrefixStep(fields, i);
  }

  lemma RangeErrorsStep(config: map<string, ConfigValue>, ranges: seq<Range>, j: nat)
    requires j < |ranges|
    ensures RangeErrors(config, ranges[..j + 1])
              == RangeErrors(config, ranges[..j]) + RangeError(Get(config, ranges[j].field), ranges[j])
  {
    PrefixStep(ranges, j);
  }

  /** validate_config reports nothing exactly for the valid configurations. */
  lemma NoErrorsExactlyWhenValid(config: map<string, ConfigValue>)
    ensures ConfigErrors(config) == [] <==> ValidConfig(config)
  {
    RequiredErrorsEmpty(config, RequiredFields);
    RangeErrorsEmpty(config, NumericRanges);
    var hour, autolot := Get(config, "auto_restart_hour"), Get(config, "autolot");
    assert |ConfigErrors(config)| == |RequiredErrors(config, RequiredFields)| + |RangeErrors(config, NumericRanges)|
                                     + |HourError(hour)| + |AutolotError(autolot)|;
  }

  /** A missing setting is never a complaint about a numeric range: only the
      three credentials are required. */
  lemma {:induction false} MissingRangeNotReported(config: map<string, ConfigValue>, ranges: seq<Range>)
    requires forall r :: r in ranges ==> r.field !in config
    ensures RangeErrors(config, ranges) == []
  {
    if ranges != [] {
      MissingRangeNotReported(config, ranges[..|ranges| - 1]);
    }
  }

  /** The first loop of validate_config: a complaint for each required
      setting that is absent or empty, in table order. */
  method CheckRequired(config: map<string, ConfigValue>, fields: seq<string>) returns (errors: seq<ConfigError>)
    ensures errors == RequiredErrors(config, fields)
  {
    errors := [];
    var i := 0;
    while i < |fields|
      invariant 0 <= i <= |fields|
      invariant errors == RequiredErrors(config, fields[..i])
    {
      var field := fields[i];
      RequiredErrorsStep(config, fields, i);
      if !Truthy(Get(config, field)) {
        errors := errors + [Missing(field)];
      }
      i := i + 1;
    }
    WholePrefix(fields);
  }

  /** The second loop of validate_config: a complaint for each present
      numeric setting that is not a number or lies outside its bounds. */
  method CheckRanges(config: map<string, ConfigValue>, ranges: seq<Range>) returns (errors: seq<ConfigError>)
    ensures errors == RangeErrors(config, ranges)
  {
    errors := [];
    var j := 0;
    while j < |ranges|
      invariant 0 <= j <= |ranges|
      invariant errors == RangeErrors(config, ranges[..j])
    {
      var r := ranges[j];
      var value := Get(config, r.field);
      RangeErrorsStep(config, ranges, j);
      if !value.Null? {
        var num := AsFloat(value);
        if num.None? {
          errors := errors + [NotNumeric(r.field)];
        } else if !(r.low <= num.value <= r.high) {
          errors := errors + [OutOfRange(r.field, num.value)];
        }
      }
      j := j + 1;
    }
    WholePrefix(ranges);
  }

  /** validate_config: the two loops over the required fields and the range
      table, then the restart hour and the autolot flag. */
  method ValidateConfig(config: map<string, ConfigValue>) returns (errors: seq<ConfigError>)
    ensures errors == ConfigErrors(config)
  {
    var missing := CheckRequired(config, RequiredFields);
    var outOfRange := CheckRanges(config, NumericRanges);
    errors := missing + outOfRange;
    var hour := Get(config, "auto_restart_hour");
    if !hour.Null? {
      var h := AsInt(hour);
      if h.None? {
        errors := errors + [HourNotNumeric];
      } else if !(0 <= h.value <= 24) {
        errors := errors + [HourOutOfRange(h.value)];
      }
    }
    var autolot := Get(config, "autolot");
    if !autolot.Null? && !AutolotWord(autolot) {
      errors := errors + [AutolotInvalid];
    }
  }
}
