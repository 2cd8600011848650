/**
 The thermal governor (BRAIN-DAEMON/thermal/controller.py): throttle curve, deadband and slew limiter,
 hold timer, emergency hysteresis and STOP/CONT signals.  Temperatures and times are reals, frequencies
 are whole kHz, and a tick runs without interruption.
 */
module ThermalSpec {

  import opened Helpers

  /** The configurable thresholds, in whole degrees and seconds. */
  datatype Config = Config(throttleStart: int, throttleFull: int, emergency: int, resume: int, cooldown: int)

  const CPU_MAX_FREQ: int := 5187500
  const CPU_MIN_FREQ: int := 625000
  const FREQ_WRITE_THRESHOLD: int := 300000
  const FREQ_MAX_STEP: int := 500000
  const EMERGENCY_HOLD: real := 2.0
  const EMERGENCY_COOLDOWN: real := 0.0
  const EMA_ALPHA: real := 0.4

  // ---------------------------------------------------------------- the curve

  /** `_calc_throttle_pct` */
  function ThrottlePct(cfg: Config, temp: real): int {
    if temp <= cfg.throttleStart as real then 0
    else if temp >= cfg.throttleFull as real then 100
    else Ratio(temp - cfg.throttleStart as real, (cfg.throttleFull - cfg.throttleStart) as real)
  }

  /** `int(part / whole * 100)` for positive operands. */
  function Ratio(part: real, whole: real): int
    requires whole > 0.0
  {
    (part / whole * 100.0).Floor
  }

  /** `_calc_target_freq` */
  function TargetFreq(cfg: Config, temp: real): int {
    FreqAt(ThrottlePct(cfg, temp))
  }

  function FreqAt(pct: int): int {
    if pct == 0 then CPU_MAX_FREQ
    else if pct >= 100 then CPU_MIN_FREQ
    else
      var target := CPU_MAX_FREQ - (CPU_MAX_FREQ - CPU_MIN_FREQ) * pct / 100;
      var rounded := target / 100000 * 100000;
      if rounded < CPU_MIN_FREQ then CPU_MIN_FREQ else rounded
  }

  lemma RatioBetween(part: real, whole: real)
    requires 0.0 < part < whole
    ensures 0 <= Ratio(part, whole) < 100
  {
    var q := part / whole;
    assert q * whole == part;
    ScalingKeepsOrder(q, 0.0, whole);
    ScalingKeepsOrder(1.0, q, whole);
    assert 0.0 < q < 1.0;
    assert Ratio(part, whole) == (q * 100.0).Floor;
  }

  lemma RatioGrows(part: real, more: real, whole: real)
    requires part <= more && whole > 0.0
    ensures Ratio(part, whole) <= Ratio(more, whole)
  {
    var q, r := part / whole, more / whole;
    assert q * whole == part && r * whole == more;
    ScalingKeepsOrder(q, r, whole);
  }

  /** The throttle is defined for every configuration, between 0 and 100, and grows with the temperature. */
  lemma ThrottleIsMonotone(cfg: Config, temp: real, hotter: real)
    requires temp <= hotter
    ensures 0 <= ThrottlePct(cfg, temp) <= ThrottlePct(cfg, hotter) <= 100
  {
    var start, full := cfg.throttleStart as real, cfg.throttleFull as real;
    if start < temp < full {
      RatioBetween(temp - start, full - start);
    }
    if start < hotter < full {
      RatioBetween(hotter - start, full - start);
      if start < temp {
        RatioGrows(temp - start, hotter - start, full - start);
      }
    }
  }

  lemma FreqFalls(pct: int, more: int)
    requires 0 <= pct <= more <= 100
    ensures CPU_MIN_FREQ <= FreqAt(more) <= FreqAt(pct) <= CPU_MAX_FREQ
  {
  }

  /** The target frequency is always in range and never rises with the temperature, whatever the thresholds. */
  lemma TargetFallsWithHeat(cfg: Config, temp: real, hotter: real)
    requires temp <= hotter
    ensures CPU_MIN_FREQ <= TargetFreq(cfg, hotter) <= TargetFreq(cfg, temp) <= CPU_MAX_FREQ
  {
    ThrottleIsMonotone(cfg, temp, hotter);
    FreqFalls(ThrottlePct(cfg, temp), ThrottlePct(cfg, hotter));
  }

  lemma ScaledBetween(lo: real, x: real, hi: real, factor: real, scaled: real)
    requires lo <= x < hi && factor > 0.0 && x * factor == scaled
    ensures lo * factor <= scaled < hi * factor
  {
    ScalingKeepsOrder(hi, x, factor);
    ScalingKeepsOrder(lo, x, factor);
  }

  lemma Reorder(x: real, y: real, z: real)
    ensures (x * y) * z == (x * z) * y
  {
  }

  lemma RatioIsRoundedDown(part: real, whole: real)
    requires whole > 0.0
    ensures Ratio(part, whole) as real * whole <= part * 100.0 < (Ratio(part, whole) + 1) as real * whole
  {
    var q, pct := part / whole, Ratio(part, whole);
    var exact, hundredfold := q * 100.0, part * 100.0;
    assert q * whole == part;
    Reorder(q, 100.0, whole);
    assert exact * whole == hundredfold;
    ScaledBetween(pct as real, exact, (pct + 1) as real, whole, hundredfold);
  }

  /** Full speed up to the start, the floor from the full threshold on, and between them the straight line, rounded
      down to a whole percent and then to 100 MHz. */
  lemma CurveIsLinear(cfg: Config, temp: real)
    ensures temp <= cfg.throttleStart as real ==> TargetFreq(cfg, temp) == 5187500
    ensures temp > cfg.throttleStart as real && temp >= cfg.throttleFull as real ==> TargetFreq(cfg, temp) == 625000
    ensures cfg.throttleStart as real < temp < cfg.throttleFull as real ==>
      var pct, span := ThrottlePct(cfg, temp), (cfg.throttleFull - cfg.throttleStart) as real;
      && pct as real * span <= (temp - cfg.throttleStart as real) * 100.0 < (pct + 1) as real * span
      && IsRoundedTo(TargetFreq(cfg, temp), pct)
  {
    var start, full := cfg.throttleStart as real, cfg.throttleFull as real;
    if start < temp < full {
      var span := (cfg.throttleFull - cfg.throttleStart) as real;
      var part := temp - start;
      assert ThrottlePct(cfg, temp) == Ratio(part, span);
      hide *;
      RatioIsRoundedDown(part, span);
      RatioBetween(part, span);
      FreqIsRounded(Ratio(part, span));
      TargetIsAt(cfg, temp);
    } else {
      hide Ratio;
    }
  }

  lemma TargetIsAt(cfg: Config, temp: real)
    ensures TargetFreq(cfg, temp) == FreqAt(ThrottlePct(cfg, temp))
  {
  }

  /** `freq` lies at most 100 MHz below the point of the line at `pct`, or is the floor or full speed. */
  predicate IsRoundedTo(freq: int, pct: int) {
    var line := 5187500 - 45625 * pct;
    if pct == 0 then freq == 5187500
    else if line - line % 100000 < 625000 then freq == 625000
    else freq % 100000 == 0 && line - 100000 < freq <= line
  }

  lemma FreqIsRounded(pct: int)
    requires 0 <= pct < 100
    ensures IsRoundedTo(FreqAt(pct), pct)
  {
    var line := CPU_MAX_FREQ - (CPU_MAX_FREQ - CPU_MIN_FREQ) * pct / 100;
    assert line / 100000 * 100000 == line - line % 100000;
  }

  // ---------------------------------------------------------------- deadband and slew limiter

  function Abs(x: int): nat {
    if x < 0 then -x else x
  }

  function Clamp(freq: int): int {
    if freq < CPU_MIN_FREQ then CPU_MIN_FREQ else if freq > CPU_MAX_FREQ then CPU_MAX_FREQ else freq
  }

  /** The write `_apply_freq` makes without `force`, if any; 0 stands for "nothing written yet". */
  function NextWrite(last: int, freq: int): Option<int> {
    if last == 0 then Some(freq)
    else if Abs(freq - last) < FREQ_WRITE_THRESHOLD then None
    else if Abs(freq - last) > FREQ_MAX_STEP then
      Some(Clamp(if freq > last then last + FREQ_MAX_STEP else last - FREQ_MAX_STEP))
    else Some(freq)
  }

  function Written(last: int, freq: int): int {
    if NextWrite(last, freq).Some? then NextWrite(last, freq).value else last
  }

  predicate InRange(freq: int) {
    CPU_MIN_FREQ <= freq <= CPU_MAX_FREQ
  }

  function ApplyTimes(last: int, freq: int, calls: nat): int
    decreases calls
  {
    if calls == 0 then last else ApplyTimes(Written(last, freq), freq, calls - 1)
  }

  /** Each call that is not yet settled takes a full step off the gap, or closes it. */
  lemma {:induction false} GapShrinks(last: int, freq: int, calls: nat)
    requires InRange(last) && InRange(freq)
    ensures InRange(ApplyTimes(last, freq, calls))
    ensures Abs(ApplyTimes(last, freq, calls) - freq) < FREQ_WRITE_THRESHOLD
            || Abs(ApplyTimes(last, freq, calls) - freq) <= Abs(last - freq) - calls * FREQ_MAX_STEP
    decreases calls
  {
    if calls > 0 {
      GapShrinks(Written(last, freq), freq, calls - 1);
    }
  }

  /** Nine steps are longer than any gap, up to the write threshold. */
  lemma NineStepsCloseTheGap(last: int, freq: int, calls: nat)
    requires InRange(last) && InRange(freq) && calls >= 9
    ensures Abs(last - freq) - calls * FREQ_MAX_STEP < FREQ_WRITE_THRESHOLD
  {
    assert calls * FREQ_MAX_STEP >= 9 * FREQ_MAX_STEP;
  }

  lemma NothingToWrite(last: int, freq: int)
    requires InRange(last) && Abs(last - freq) < FREQ_WRITE_THRESHOLD
    ensures NextWrite(last, freq) == None
  {
  }

  /** With a constant target nine calls settle the frequency within the write threshold, and then nothing more is written. */
  lemma SettlesInNineCalls(last: int, freq: int, calls: nat)
    requires InRange(last) && InRange(freq) && calls >= 9
    ensures Abs(ApplyTimes(last, freq, calls) - freq) < FREQ_WRITE_THRESHOLD
    ensures NextWrite(ApplyTimes(last, freq, calls), freq) == None
  {
    hide ApplyTimes, NextWrite, InRange, Abs;
    GapShrinks(last, freq, calls);
    NineStepsCloseTheGap(last, freq, calls);
    NothingToWrite(ApplyTimes(last, freq, calls), freq);
  }

  /** Nine is the least such bound: from full speed to the floor, eight calls are not enough. */
  lemma EightCallsDoNotSettle()
    ensures Abs(ApplyTimes(CPU_MAX_FREQ, CPU_MIN_FREQ, 8) - CPU_MIN_FREQ) >= FREQ_WRITE_THRESHOLD
  {
    StepsDown(CPU_MAX_FREQ, 8);
  }

  lemma {:induction false} StepsDown(last: int, calls: nat)
    requires last - calls * FREQ_MAX_STEP >= CPU_MIN_FREQ && InRange(last)
    ensures ApplyTimes(last, CPU_MIN_FREQ, calls) == last - calls * FREQ_MAX_STEP
    decreases calls
  {
    if calls > 0 {
      StepsDown(last - FREQ_MAX_STEP, calls - 1);
    }
  }

  // ---------------------------------------------------------------- the tick machine

  datatype WriteKind = Initial | Stepped | Forced | Restored
  datatype Write = Write(freq: int, kind: WriteKind)
  datatype Signal = STOP | CONT

  /** One processed sample: when, how hot, and whether the emergency was on before and after it. */
  datatype Record = Record(now: real, temp: real, before: bool, after: bool)

  type InstanceId = string

  /** `enabled` is the switch `start` and `stop` turn; `alive` says whether the loop is running, which a crash ends
      without touching the switch. */
  datatype State = State(
    enabled: bool,
    alive: bool,
    ema: Option<real>,
    lastWritten: int,
    emergency: bool,
    since: real,
    startedAt: real,
    lastResume: real,
    flagged: set<InstanceId>,
    writes: seq<Write>,
    signals: seq<Signal>,
    records: seq<Record>)

  /**
   What one tick finds: the temperature (if it can be read), the time, the second reading `_do_resume` takes,
   the time when signalling is over, and the instances that exist and those that run.
   */
  datatype Input = Input(temp: Option<real>, now: real, reread: Option<real>, later: real,
                         present: set<InstanceId>, running: set<InstanceId>)

  function Smoothed(ema: Option<real>, temp: real): real {
    if ema.None? then temp else EMA_ALPHA * temp + (1.0 - EMA_ALPHA) * ema.value
  }

  function ApplyFreq(s: State, freq: int): State {
    var w := NextWrite(s.lastWritten, freq);
    if w.None? then s
    else s.(lastWritten := w.value,
            writes := s.writes + [Write(w.value, if s.lastWritten == 0 then Initial else Stepped)])
  }

  function DoEmergency(s: State, i: Input): State {
    s.(signals := s.signals + [STOP], flagged := s.flagged + i.present, emergency := true, startedAt := i.later,
       lastWritten := CPU_MIN_FREQ, writes := s.writes + [Write(CPU_MIN_FREQ, Forced)])
  }

  /** The `finally` block: instances are continued if they were stopped, and full speed is restored.
      The emergency flag itself is left as it is; only the next `start` clears it. */
  function Cleanup(s: State, running: set<InstanceId>): State {
    var resumed := if s.emergency then s.(signals := s.signals + [CONT], flagged := s.flagged - running) else s;
    resumed.(alive := false, lastWritten := 0, writes := s.writes + [Write(CPU_MAX_FREQ, Restored)])
  }

  /** The second reading is formatted before it is checked: when it is missing, the loop crashes into its cleanup. */
  function DoResume(s: State, i: Input): State {
    if i.reread.None? then Cleanup(s, i.running)
    else s.(signals := s.signals + [CONT], flagged := s.flagged - i.running, emergency := false, lastResume := i.later)
  }

  /** The hold timer on a sample at or above the emergency threshold, or below it. */
  function HoldTimer(cfg: Config, s: State, temp: real, now: real): real {
    if temp < cfg.emergency as real then 0.0 else if s.since == 0.0 then now else s.since
  }

  predicate HeldLongEnough(cfg: Config, s: State, temp: real, now: real) {
    temp >= cfg.emergency as real && s.since != 0.0 && now - s.since >= EMERGENCY_HOLD
  }

  function Govern(cfg: Config, s: State, i: Input, temp: real): State {
    var smooth := s.(ema := Some(Smoothed(s.ema, temp)));
    if s.emergency then
      if temp < cfg.resume as real && i.now - s.startedAt >= EMERGENCY_COOLDOWN then DoResume(smooth, i) else smooth
    else if HeldLongEnough(cfg, s, temp, i.now) then DoEmergency(smooth, i)
    else
      var timed := smooth.(since := HoldTimer(cfg, s, temp, i.now));
      if i.now - s.lastResume < cfg.cooldown as real then timed
      else ApplyFreq(timed, TargetFreq(cfg, timed.ema.value))
  }

  function Tick(cfg: Config, s: State, i: Input): State {
    if !s.alive || i.temp.None? then s
    else
      var t := Govern(cfg, s, i, i.temp.value);
      t.(records := s.records + [Record(i.now, i.temp.value, s.emergency, t.emergency)])
  }

  datatype Event = TickEvent(input: Input) | StopEvent(running: set<InstanceId>)

  function Next(cfg: Config, s: State, e: Event): State {
    match e
    case TickEvent(input) => Tick(cfg, s, input)
    case StopEvent(running) => (if s.alive then Cleanup(s, running) else s).(enabled := false)
  }

  function Run(cfg: Config, s: State, events: seq<Event>): State
    decreases |events|
  {
    if events == [] then s else Run(cfg, Next(cfg, s, events[0]), events[1..])
  }

  /** A controller just started; the smoothed temperature may survive from an earlier run. */
  predicate Started(s: State) {
    && s.enabled && s.alive && s.lastWritten == 0 && !s.emergency && s.since == 0.0
    && s.writes == [] && s.signals == [] && s.records == []
  }
}

/** What every run of the governor keeps. */
module ThermalRuns {
  import opened Helpers
  import opened ThermalSpec

  // ---------------------------------------------------------------- frequency writes

  predicate LastWrite(s: State) {
    if s.alive then
      if s.writes == [] then s.lastWritten == 0
      else s.lastWritten == s.writes[|s.writes| - 1].freq && s.writes[|s.writes| - 1].kind != Restored
    else s.writes != [] && s.writes[|s.writes| - 1].kind == Restored
  }

  /** How write `k` relates to the one before it. */
  predicate WriteFits(writes: seq<Write>, k: nat)
    requires k < |writes|
  {
    var w := writes[k];
    && InRange(w.freq)
    && match w.kind
       case Initial => k == 0
       case Stepped => k > 0 && FREQ_WRITE_THRESHOLD <= Abs(w.freq - writes[k - 1].freq) <= FREQ_MAX_STEP
       case Forced => w.freq == CPU_MIN_FREQ
       case Restored => w.freq == CPU_MAX_FREQ && k == |writes| - 1
  }

  predicate WritesInv(s: State) {
    LastWrite(s) && forall k :: 0 <= k < |s.writes| ==> WriteFits(s.writes, k)
  }

  lemma OneMoreWrite(s: State, t: State, w: Write)
    requires WritesInv(s) && s.alive && t.writes == s.writes + [w]
    requires WriteFits(t.writes, |s.writes|)
    requires if t.alive then t.lastWritten == w.freq && w.kind != Restored else w.kind == Restored
    ensures WritesInv(t)
  {
    forall k | 0 <= k < |t.writes| ensures WriteFits(t.writes, k) {
      if k < |s.writes| {
        assert WriteFits(s.writes, k);
      }
    }
  }

  lemma NextWriteFits(last: int, freq: int)
    requires InRange(freq) && (last == 0 || InRange(last)) && NextWrite(last, freq).Some?
    ensures var w := NextWrite(last, freq).value;
      InRange(w) && (last != 0 ==> FREQ_WRITE_THRESHOLD <= Abs(w - last) <= FREQ_MAX_STEP)
      && (last != 0 ==> Abs(w - freq) < Abs(last - freq))
  {
    // A clamped step would have to leave the range to be cut short, and then the target would be out of range too.
  }

  lemma ApplyKeepsWrites(s: State, freq: int)
    requires WritesInv(s) && s.alive && InRange(freq)
    ensures WritesInv(ApplyFreq(s, freq)) && ApplyFreq(s, freq).alive
  {
    var t := ApplyFreq(s, freq);
    if s.writes != [] {
      assert WriteFits(s.writes, |s.writes| - 1);
    }
    if NextWrite(s.lastWritten, freq).Some? {
      NextWriteFits(s.lastWritten, freq);
      OneMoreWrite(s, t, t.writes[|s.writes|]);
    }
  }

  lemma WritesSame(s: State, t: State)
    requires WritesInv(s) && t.writes == s.writes && t.lastWritten == s.lastWritten && t.alive == s.alive
    ensures WritesInv(t)
  {
  }

  lemma CleanupKeepsWrites(s: State, running: set<InstanceId>)
    requires WritesInv(s) && s.alive
    ensures WritesInv(Cleanup(s, running))
  {
    OneMoreWrite(s, Cleanup(s, running), Write(CPU_MAX_FREQ, Restored));
  }

  lemma GovernKeepsWrites(cfg: Config, s: State, i: Input, temp: real)
    requires WritesInv(s) && s.alive
    ensures WritesInv(Govern(cfg, s, i, temp))
  {
    var smooth := s.(ema := Some(Smoothed(s.ema, temp)));
    WritesSame(s, smooth);
    if s.emergency {
      CleanupKeepsWrites(smooth, i.running);
      WritesSame(s, Govern(cfg, s, i, temp).(writes := s.writes, lastWritten := s.lastWritten, alive := s.alive));
    } else if HeldLongEnough(cfg, s, temp, i.now) {
      OneMoreWrite(smooth, DoEmergency(smooth, i), Write(CPU_MIN_FREQ, Forced));
    } else {
      var timed := smooth.(since := HoldTimer(cfg, s, temp, i.now));
      WritesSame(smooth, timed);
      TargetFallsWithHeat(cfg, timed.ema.value, timed.ema.value);
      ApplyKeepsWrites(timed, TargetFreq(cfg, timed.ema.value));
    }
  }

  lemma NextKeepsWrites(cfg: Config, s: State, e: Event)
    requires WritesInv(s)
    ensures WritesInv(Next(cfg, s, e))
  {
    hide WritesInv, Govern, Cleanup;
    match e
    case TickEvent(i) =>
      if s.alive && i.temp.Some? {
        GovernKeepsWrites(cfg, s, i, i.temp.value);
        var t := Govern(cfg, s, i, i.temp.value);
        WritesSame(t, t.(records := s.records + [Record(i.now, i.temp.value, s.emergency, t.emergency)]));
      }
    case StopEvent(running) =>
      if s.alive {
        CleanupKeepsWrites(s, running);
      }
      StopKeepsWrites(if s.alive then Cleanup(s, running) else s);
  }

  lemma StopKeepsWrites(s: State)
    requires WritesInv(s)
    ensures WritesInv(s.(enabled := false))
  {
    WritesSame(s, s.(enabled := false));
  }

  /** Over every run, whatever the samples and thresholds: all writes are in range; a write that is not the first, not the
      forced drop to the floor and not the final return to full speed differs from the one before by at least the
      threshold and at most one step. */
  lemma {:induction false} WritesAreBoundedAndSlewLimited(cfg: Config, s: State, events: seq<Event>)
    requires WritesInv(s)
    ensures WritesInv(Run(cfg, s, events))
    decreases |events|
  {
    hide WritesInv, Next;
    if events != [] {
      NextKeepsWrites(cfg, s, events[0]);
      WritesAreBoundedAndSlewLimited(cfg, Next(cfg, s, events[0]), events[1..]);
    }
  }

  /** The same in numbers: in range, the first write alone without one before it, and every other a step of 300 to 500 MHz,
      a drop to the floor, or full speed at the very end. */
  lemma WritesInNumbers(s: State, k: nat)
    requires WritesInv(s) && k < |s.writes|
    ensures 625000 <= s.writes[k].freq <= 5187500
    ensures match s.writes[k].kind
      case Initial => k == 0
      case Stepped => k > 0 && 300000 <= Abs(s.writes[k].freq - s.writes[k - 1].freq) <= 500000
      case Forced => s.writes[k].freq == 625000
      case Restored => s.writes[k].freq == 5187500 && k == |s.writes| - 1
  {
    assert WriteFits(s.writes, k);
  }

  // ---------------------------------------------------------------- smoothing

  predicate Between(lo: real, ema: Option<real>, hi: real) {
    ema.Some? ==> lo <= ema.value <= hi
  }

  predicate SamplesBetween(lo: real, events: seq<Event>, hi: real) {
    forall k :: 0 <= k < |events| && events[k].TickEvent? && events[k].input.temp.Some? ==>
      lo <= events[k].input.temp.value <= hi
  }

  lemma SmoothedBetween(lo: real, ema: Option<real>, temp: real, hi: real)
    requires lo <= temp <= hi && Between(lo, ema, hi)
    ensures lo <= Smoothed(ema, temp) <= hi
  {
  }

  lemma SmoothedBy(cfg: Config, s: State, e: Event)
    ensures var t := Next(cfg, s, e);
      t.ema == s.ema || (e.TickEvent? && e.input.temp.Some? && t.ema == Some(Smoothed(s.ema, e.input.temp.value)))
  {
    hide TargetFreq, Smoothed;
  }

  /** The smoothed temperature stays between the least and the greatest sample (and what it started from). */
  lemma {:induction false} EmaStaysBetween(cfg: Config, s: State, events: seq<Event>, lo: real, hi: real)
    requires Between(lo, s.ema, hi) && SamplesBetween(lo, events, hi)
    ensures Between(lo, Run(cfg, s, events).ema, hi)
    decreases |events|
  {
    hide Next, Smoothed;
    if events != [] {
      SmoothedBy(cfg, s, events[0]);
      if events[0].TickEvent? && events[0].input.temp.Some? {
        SmoothedBetween(lo, s.ema, events[0].input.temp.value, hi);
      }
      assert forall k :: 0 <= k < |events[1..]| ==> events[1..][k] == events[k + 1];
      EmaStaysBetween(cfg, Next(cfg, s, events[0]), events[1..], lo, hi);
    }
  }

  function Power(base: real, n: nat): real {
    if n == 0 then 1.0 else base * Power(base, n - 1)
  }

  /** The gap after `n` samples, each of which leaves three fifths of it. */
  function GapAfter(gap: real, n: nat): real
    decreases n
  {
    if n == 0 then gap else GapAfter(0.6 * gap, n - 1)
  }

  lemma {:induction false} GapAfterIsAPower(gap: real, n: nat)
    ensures GapAfter(gap, n) == Power(0.6, n) * gap
    decreases n
  {
    if n > 0 {
      GapAfterIsAPower(0.6 * gap, n - 1);
      Reassociate(Power(0.6, n - 1), gap);
    }
  }

  predicate Steady(events: seq<Event>, temp: real) {
    forall k :: 0 <= k < |events| ==>
      events[k].TickEvent? && events[k].input.temp == Some(temp) && events[k].input.reread.Some?
  }

  lemma {:induction false} GapShrinksEachTime(cfg: Config, s: State, events: seq<Event>, temp: real)
    requires s.alive && s.ema.Some? && Steady(events, temp)
    ensures var t := Run(cfg, s, events);
      t.ema.Some? && t.ema.value - temp == GapAfter(s.ema.value - temp, |events|)
    decreases |events|
  {
    if events != [] {
      OneSmoothing(cfg, s, events[0].input, temp);
      hide Next;
      assert forall k :: 0 <= k < |events[1..]| ==> events[1..][k] == events[k + 1];
      GapShrinksEachTime(cfg, Next(cfg, s, events[0]), events[1..], temp);
    }
  }

  /** On a steady temperature every sample takes two fifths of the remaining distance. */
  lemma EmaClosesIn(cfg: Config, s: State, events: seq<Event>, temp: real)
    requires s.alive && s.ema.Some? && Steady(events, temp)
    ensures var t := Run(cfg, s, events);
      t.ema.Some? && t.ema.value - temp == Power(0.6, |events|) * (s.ema.value - temp)
  {
    hide *;
    GapShrinksEachTime(cfg, s, events, temp);
    GapAfterIsAPower(s.ema.value - temp, |events|);
  }

  lemma OneSmoothing(cfg: Config, s: State, i: Input, temp: real)
    requires s.alive && s.ema.Some? && i.temp == Some(temp) && i.reread.Some?
    ensures var t := Next(cfg, s, TickEvent(i));
      t.alive && t.ema.Some? && t.ema.value - temp == 0.6 * (s.ema.value - temp)
  {
    assert Smoothed(s.ema, temp) - temp == 0.6 * (s.ema.value - temp);
    hide TargetFreq, Smoothed, NextWrite, HeldLongEnough, HoldTimer;
  }

  lemma Reassociate(p: real, x: real)
    ensures p * (0.6 * x) == 0.6 * p * x
  {
  }

  // ---------------------------------------------------------------- what writes a frequency

  predicate Throttles(s: State, t: State) {
    |t.writes| > |s.writes| && t.writes[|s.writes|].kind in {Initial, Stepped}
  }

  /** A throttling write happens only outside emergencies and cooldowns, and never leads away from the target. */
  lemma ThrottlingApproachesTheTarget(cfg: Config, s: State, e: Event)
    requires WritesInv(s) && s.alive
    ensures var t := Next(cfg, s, e);
      Throttles(s, t) ==>
      && e.TickEvent? && !s.emergency && !t.emergency && e.input.now - s.lastResume >= cfg.cooldown as real
      && t.ema.Some? && t.writes == s.writes + [Write(t.lastWritten, t.writes[|s.writes|].kind)]
      && (if s.writes == [] then t.lastWritten == TargetFreq(cfg, t.ema.value)
          else Abs(t.lastWritten - TargetFreq(cfg, t.ema.value)) < Abs(s.lastWritten - TargetFreq(cfg, t.ema.value)))
  {
    if e.TickEvent? && e.input.temp.Some? {
      var ema := Smoothed(s.ema, e.input.temp.value);
      TargetFallsWithHeat(cfg, ema, ema);
      if s.writes != [] {
        assert WriteFits(s.writes, |s.writes| - 1);
        if NextWrite(s.lastWritten, TargetFreq(cfg, ema)).Some? {
          NextWriteFits(s.lastWritten, TargetFreq(cfg, ema));
        }
      }
    }
    hide TargetFreq, Smoothed, NextWrite, HeldLongEnough, HoldTimer, WriteFits;
  }

  /** What the average is after one more sample. */
  predicate Averages(before: Option<real>, sample: real, after: Option<real>) {
    after == Some(if before.None? then sample else 0.4 * sample + 0.6 * before.value)
  }

  /** The write a frequency too far from its target calls for: the target if it is within one step, else a full step. */
  predicate StepsTowards(last: int, target: int, written: int) {
    if Abs(target - last) <= 500000 then written == target
    else Abs(written - last) == 500000 && Abs(target - written) == Abs(target - last) - 500000
  }

  /** A sample outside an emergency and past the cooldown is always answered: by the first write, by none when the target
      is close, and else by exactly one step.  In a cooldown nothing is written. */
  lemma SampleIsAnswered(cfg: Config, s: State, i: Input)
    requires WritesInv(s) && s.alive && i.temp.Some? && !s.emergency && !Next(cfg, s, TickEvent(i)).emergency
    ensures var t := Next(cfg, s, TickEvent(i));
      && t.alive && t.signals == s.signals && t.flagged == s.flagged && t.lastResume == s.lastResume
      && Averages(s.ema, i.temp.value, t.ema)
      && var target := TargetFreq(cfg, t.ema.value);
         if i.now - s.lastResume < cfg.cooldown as real then t.writes == s.writes && t.lastWritten == s.lastWritten
         else if s.writes == [] then t.writes == [Write(target, Initial)] && t.lastWritten == target
         else if Abs(target - s.lastWritten) < 300000 then t.writes == s.writes && t.lastWritten == s.lastWritten
         else t.writes == s.writes + [Write(t.lastWritten, Stepped)] && StepsTowards(s.lastWritten, target, t.lastWritten)
  {
    var temp := i.temp.value;
    var ema := Smoothed(s.ema, temp);
    TargetFallsWithHeat(cfg, ema, ema);
    LastIsWritten(s);
    StepIsTaken(s.lastWritten, TargetFreq(cfg, ema));
    assert Averages(s.ema, temp, Some(ema));
    hide TargetFreq, Smoothed, NextWrite, HeldLongEnough, HoldTimer, WritesInv, StepsTowards, Averages;
  }

  lemma LastIsWritten(s: State)
    requires WritesInv(s) && s.alive
    ensures if s.writes == [] then s.lastWritten == 0 else InRange(s.lastWritten)
  {
    if s.writes != [] {
      assert WriteFits(s.writes, |s.writes| - 1);
    }
  }

  lemma StepIsTaken(last: int, freq: int)
    requires InRange(freq) && (last == 0 || InRange(last))
    ensures var w := NextWrite(last, freq);
      if last == 0 then w == Some(freq)
      else if Abs(freq - last) < 300000 then w == None
      else w.Some? && StepsTowards(last, freq, w.value)
  {
  }

  /** A sample that cannot be read changes nothing. */
  lemma UnreadableSampleIsSkipped(cfg: Config, s: State, i: Input)
    requires i.temp.None? || !s.alive
    ensures Next(cfg, s, TickEvent(i)) == s
  {
  }

  /** A sample in an emergency resumes when it is cool enough and the cooldown of the emergency is over, and changes nothing
      but the average and the records otherwise. */
  lemma EmergencySampleIsAnswered(cfg: Config, s: State, i: Input)
    requires s.alive && s.emergency && i.temp.Some?
    ensures var t := Next(cfg, s, TickEvent(i));
      && Averages(s.ema, i.temp.value, t.ema) && t.since == s.since
      && t.records == s.records + [Record(i.now, i.temp.value, true, t.emergency)]
      && if i.temp.value < cfg.resume as real && i.now - s.startedAt >= 0.0 then
           t.alive == i.reread.Some? && t.emergency == i.reread.None?
           && t.signals == s.signals + [CONT] && t.flagged == s.flagged - i.running
           && (i.reread.Some? ==> t.lastResume == i.later && t.writes == s.writes)
         else t.alive && t.emergency && t.signals == s.signals && t.flagged == s.flagged && t.writes == s.writes
              && t.startedAt == s.startedAt && t.lastResume == s.lastResume
  {
    hide TargetFreq, NextWrite, HeldLongEnough, HoldTimer;
  }

  // ---------------------------------------------------------------- signals

  /** STOP first, then CONT and STOP in turn. */
  predicate Alternating(signals: seq<Signal>) {
    forall k :: 0 <= k < |signals| ==> signals[k] == if k % 2 == 0 then STOP else CONT
  }

  /** While the controller lives, the last signal was STOP exactly when the emergency is on; once it is over, every STOP
      has had its CONT. */
  predicate SignalsInv(s: State) {
    && Alternating(s.signals)
    && (if s.alive then (s.emergency <==> |s.signals| % 2 == 1) else |s.signals| % 2 == 0)
  }

  lemma NextKeepsSignals(cfg: Config, s: State, e: Event)
    requires SignalsInv(s)
    ensures SignalsInv(Next(cfg, s, e))
  {
    hide TargetFreq, Smoothed, NextWrite, HeldLongEnough, HoldTimer;
  }

  lemma {:induction false} StopAndContAlternate(cfg: Config, s: State, events: seq<Event>)
    requires SignalsInv(s)
    ensures SignalsInv(Run(cfg, s, events))
    decreases |events|
  {
    hide Next, SignalsInv;
    if events != [] {
      NextKeepsSignals(cfg, s, events[0]);
      StopAndContAlternate(cfg, Next(cfg, s, events[0]), events[1..]);
    }
  }

  /** So STOP is every other signal, from the first on. */
  lemma StopComesFirst(s: State, k: nat)
    requires SignalsInv(s) && k < |s.signals|
    ensures s.signals[k] == STOP <==> k % 2 == 0
  {
  }

  /** The emergency comes on only on a hot sample at the end of the hold time; then STOP is sent, every instance there is
      gets flagged and the frequency is forced to the floor, and nothing more is written or sent while it lasts. */
  lemma EmergencyEnters(cfg: Config, s: State, e: Event)
    requires s.alive && Next(cfg, s, e).alive && Next(cfg, s, e).emergency
    ensures !s.emergency ==> e.TickEvent? && e.input.temp.Some? && HeldLongEnough(cfg, s, e.input.temp.value, e.input.now)
    ensures var t := Next(cfg, s, e);
      if s.emergency then t.writes == s.writes && t.signals == s.signals && t.flagged == s.flagged
      else t.signals == s.signals + [STOP] && t.flagged == s.flagged + e.input.present
           && t.writes == s.writes + [Write(625000, Forced)] && t.lastWritten == 625000
           && t.startedAt == e.input.later && t.lastResume == s.lastResume
  {
    hide TargetFreq, Smoothed, NextWrite, HeldLongEnough, HoldTimer;
  }

  /** The emergency goes off only on a sample below the resume threshold whose second reading succeeded, and then no
      running instance stays flagged. */
  lemma EmergencyLeaves(cfg: Config, s: State, e: Event)
    requires s.emergency && !Next(cfg, s, e).emergency
    ensures e.TickEvent? && e.input.temp.Some? && e.input.temp.value < cfg.resume as real && e.input.reread.Some?
    ensures Next(cfg, s, e).flagged !! e.input.running
    ensures Next(cfg, s, e).signals == s.signals + [CONT]
  {
    hide TargetFreq, Smoothed, NextWrite, HeldLongEnough, HoldTimer;
  }

  predicate CrashesOnResume(cfg: Config, s: State, i: Input) {
    && s.emergency && i.temp.Some? && i.temp.value < cfg.resume as real
    && i.now - s.startedAt >= EMERGENCY_COOLDOWN && i.reread.None?
  }

  /** The controller ends by being stopped, or by crashing: exactly when a sample would resume and the second reading is
      missing.  Either way every stopped instance that runs is continued and unflagged, and full speed is restored; but
      only a stop turns the switch off and only a new start, which an unturned switch prevents, clears the emergency. */
  lemma ControllerEnds(cfg: Config, s: State, e: Event)
    requires s.alive && s.enabled
    ensures var t := Next(cfg, s, e);
      && (t.enabled <==> !e.StopEvent?) && (!t.alive ==> t.emergency == s.emergency)
      && (!t.alive <==> e.StopEvent? || CrashesOnResume(cfg, s, e.input))
      && (!t.alive ==> t.writes == s.writes + [Write(5187500, Restored)] && t.lastWritten == 0)
      && (!t.alive && s.emergency ==> t.signals == s.signals + [CONT])
      && (!t.alive && s.emergency ==> t.flagged !! (if e.TickEvent? then e.input.running else e.running))
  {
    hide TargetFreq, Smoothed, NextWrite, HeldLongEnough, HoldTimer;
  }

  // ---------------------------------------------------------------- the hold timer

  /** Sample `k` was hot, or fell into an emergency (during which the timer is not looked at). */
  predicate HotOrBlind(cfg: Config, r: Record) {
    r.before || r.temp >= cfg.emergency as real
  }

  /** The timer was started on record `k`, and no record since, outside emergencies, was below the threshold. */
  predicate HotSince(cfg: Config, records: seq<Record>, k: nat, until: nat) {
    && k < until <= |records| && !records[k].before
    && forall j :: k <= j < until ==> HotOrBlind(cfg, records[j])
  }

  /** Record `n` entered the emergency only after a timer start at least the hold time earlier. */
  ghost predicate EntryHeld(cfg: Config, records: seq<Record>, n: nat)
    requires n < |records|
  {
    !records[n].before && records[n].after ==>
      exists k: nat :: HotSince(cfg, records, k, n + 1) && k < n && records[n].now - records[k].now >= EMERGENCY_HOLD
  }

  ghost predicate TimerInv(cfg: Config, s: State) {
    && (s.since != 0.0 ==> exists k: nat :: HotSince(cfg, s.records, k, |s.records|) && s.records[k].now == s.since)
    && (forall n :: 0 <= n < |s.records| ==> EntryHeld(cfg, s.records, n))
  }

  lemma HotSinceGrows(cfg: Config, records: seq<Record>, k: nat, r: Record)
    requires HotSince(cfg, records, k, |records|) && HotOrBlind(cfg, r)
    ensures HotSince(cfg, records + [r], k, |records| + 1)
  {
  }

  lemma EntriesStayHeld(cfg: Config, records: seq<Record>, r: Record)
    requires forall n :: 0 <= n < |records| ==> EntryHeld(cfg, records, n)
    ensures forall n :: 0 <= n < |records| ==> EntryHeld(cfg, records + [r], n)
  {
    var longer := records + [r];
    forall n | 0 <= n < |records| ensures EntryHeld(cfg, longer, n) {
      assert EntryHeld(cfg, records, n);
      if !records[n].before && records[n].after {
        var k: nat :| HotSince(cfg, records, k, n + 1) && k < n && records[n].now - records[k].now >= EMERGENCY_HOLD;
        assert HotSince(cfg, longer, k, n + 1);
      }
    }
  }

  /** What a tick does to the timer and the emergency flag. */
  lemma TimerStep(cfg: Config, s: State, i: Input)
    requires s.alive && i.temp.Some?
    ensures var t, temp := Tick(cfg, s, i), i.temp.value;
      && t.records == s.records + [Record(i.now, temp, s.emergency, t.emergency)]
      && (s.emergency ==> t.since == s.since)
      && (!s.emergency && t.emergency ==> HeldLongEnough(cfg, s, temp, i.now) && t.since == s.since)
      && (!s.emergency && !t.emergency ==> t.since == HoldTimer(cfg, s, temp, i.now))
  {
    hide TargetFreq, Smoothed, NextWrite, HeldLongEnough, HoldTimer;
  }

  lemma NextKeepsTimer(cfg: Config, s: State, e: Event)
    requires TimerInv(cfg, s) && (e.TickEvent? ==> e.input.now > 0.0)
    ensures TimerInv(cfg, Next(cfg, s, e))
  {
    if e.TickEvent? && s.alive && e.input.temp.Some? {
      TickKeepsTimer(cfg, s, e.input);
    } else {
      assert Next(cfg, s, e).records == s.records && Next(cfg, s, e).since == s.since;
    }
  }

  lemma TickKeepsTimer(cfg: Config, s: State, i: Input)
    requires TimerInv(cfg, s) && i.now > 0.0 && s.alive && i.temp.Some?
    ensures TimerInv(cfg, Tick(cfg, s, i))
  {
    var t := Tick(cfg, s, i);
    var r := Record(i.now, i.temp.value, s.emergency, t.emergency);
    var n := |s.records|;
    TimerStep(cfg, s, i);
    EntriesStayHeld(cfg, s.records, r);
    hide Tick, EntryHeld, HotSince;
    if s.since != 0.0 && HotOrBlind(cfg, r) {
      var k: nat :| HotSince(cfg, s.records, k, n) && s.records[k].now == s.since;
      HotSinceGrows(cfg, s.records, k, r);
      HotSinceBounds(cfg, s.records, k, n);
      assert t.records[k] == s.records[k];
      EntryIsHeld(cfg, t.records, n, k);
    } else if s.since == 0.0 && HotOrBlind(cfg, r) && !r.before {
      TimerStarts(cfg, s.records, r);
      NoEntry(cfg, t.records, n);
    } else {
      NoEntry(cfg, t.records, n);
    }
  }

  lemma HotSinceBounds(cfg: Config, records: seq<Record>, k: nat, until: nat)
    requires HotSince(cfg, records, k, until)
    ensures k < until <= |records|
  {
  }

  lemma EntryIsHeld(cfg: Config, records: seq<Record>, n: nat, k: nat)
    requires n < |records| && HotSince(cfg, records, k, n + 1) && k < n
    requires !records[n].before && records[n].after ==> records[n].now - records[k].now >= EMERGENCY_HOLD
    ensures EntryHeld(cfg, records, n)
  {
  }

  lemma TimerStarts(cfg: Config, records: seq<Record>, r: Record)
    requires HotOrBlind(cfg, r) && !r.before
    ensures HotSince(cfg, records + [r], |records|, |records| + 1)
  {
  }

  lemma NoEntry(cfg: Config, records: seq<Record>, n: nat)
    requires n < |records| && (records[n].before || !records[n].after)
    ensures EntryHeld(cfg, records, n)
  {
  }

  /** Every emergency is entered at least the hold time after a timer start, with every sample seen since then outside an
      emergency at or above the threshold. */
  lemma {:induction false} EmergenciesAreHeld(cfg: Config, s: State, events: seq<Event>)
    requires TimerInv(cfg, s)
    requires forall k :: 0 <= k < |events| && events[k].TickEvent? ==> events[k].input.now > 0.0
    ensures TimerInv(cfg, Run(cfg, s, events))
    decreases |events|
  {
    hide Next, TimerInv;
    if events != [] {
      NextKeepsTimer(cfg, s, events[0]);
      assert forall k :: 0 <= k < |events[1..]| ==> events[1..][k] == events[k + 1];
      EmergenciesAreHeld(cfg, Next(cfg, s, events[0]), events[1..]);
    }
  }

  // ---------------------------------------------------------------- sustained heat

  /** Consecutive records hand the emergency flag on, and it falls only below the resume threshold. */
  predicate Chained(cfg: Config, records: seq<Record>) {
    && (forall n :: 0 <= n < |records| - 1 ==> records[n + 1].before == records[n].after)
    && (forall n :: 0 <= n < |records| && records[n].before && !records[n].after ==>
          records[n].temp < cfg.resume as real)
  }

  predicate ChainInv(cfg: Config, s: State) {
    Chained(cfg, s.records) && (s.records != [] ==> s.records[|s.records| - 1].after == s.emergency)
  }

  lemma NextKeepsChain(cfg: Config, s: State, e: Event)
    requires ChainInv(cfg, s)
    ensures ChainInv(cfg, Next(cfg, s, e))
  {
    if e.TickEvent? && s.alive && e.input.temp.Some? {
      TimerStep(cfg, s, e.input);
      if s.emergency && !Next(cfg, s, e).emergency {
        EmergencyLeaves(cfg, s, e);
      }
      hide Tick;
    } else {
      assert Next(cfg, s, e).records == s.records && Next(cfg, s, e).emergency == s.emergency;
    }
  }

  lemma {:induction false} RecordsAreChained(cfg: Config, s: State, events: seq<Event>)
    requires ChainInv(cfg, s)
    ensures ChainInv(cfg, Run(cfg, s, events))
    decreases |events|
  {
    hide Next, ChainInv;
    if events != [] {
      NextKeepsChain(cfg, s, events[0]);
      RecordsAreChained(cfg, Next(cfg, s, events[0]), events[1..]);
    }
  }

  predicate Sustained(cfg: Config, records: seq<Record>, k: nat, n: nat)
    requires n < |records|
  {
    forall j :: k <= j <= n ==> records[j].temp >= cfg.emergency as real
  }

  /** The heat was really sustained from the timer start to the emergency exactly when no sample inside an emergency was
      cooler.  When the resume threshold is not above the emergency's, that is: when no earlier emergency lies between,
      since the timer is not cleared by an emergency or by the resume that ends it. */
  lemma SustainedUnlessInterrupted(cfg: Config, records: seq<Record>, k: nat, n: nat)
    requires Chained(cfg, records) && HotSince(cfg, records, k, n + 1) && !records[n].before
    ensures Sustained(cfg, records, k, n) <==>
      forall j :: k <= j <= n && records[j].before ==> records[j].temp >= cfg.emergency as real
    ensures cfg.resume <= cfg.emergency ==>
      (Sustained(cfg, records, k, n) <==> forall j :: k <= j <= n ==> !records[j].before)
  {
    assert forall j :: k <= j <= n ==> HotOrBlind(cfg, records[j]);
    if j :| k <= j <= n && records[j].before {
      var m := FallsBefore(cfg, records, j, n);
      assert cfg.resume <= cfg.emergency ==> records[m].temp < cfg.emergency as real;
    }
  }

  predicate ClockRuns(records: seq<Record>) {
    forall i, j :: 0 <= i <= j < |records| ==> records[i].now <= records[j].now
  }

  /** Record `j` ended an emergency. */
  predicate Resumes(r: Record) {
    r.before && !r.after
  }

  /** Uninterrupted heat up to record `n` for the whole hold time, counted from some sample or other. */
  ghost predicate HeldThroughout(cfg: Config, records: seq<Record>, n: nat)
    requires n < |records|
  {
    exists m: nat :: m <= n && Sustained(cfg, records, m, n) && records[n].now - records[m].now >= EMERGENCY_HOLD
  }

  /** The sample after record `j` lies at least the hold time before record `n`. */
  predicate NextIsEarly(records: seq<Record>, j: nat, n: nat)
    requires j < n < |records|
  {
    records[n].now - records[j + 1].now >= EMERGENCY_HOLD
  }

  /** An emergency whose timer started at record `k` came after uninterrupted heat for the whole hold time if and only if
      every cooler sample since then was followed by a sample at least the hold time before; when the resume threshold is
      not above the emergency's, it is enough to look at the resumes. */
  lemma HeldUnlessResumedLate(cfg: Config, records: seq<Record>, k: nat, n: nat)
    requires Chained(cfg, records) && ClockRuns(records)
    requires HotSince(cfg, records, k, n + 1) && !records[n].before && records[n].now - records[k].now >= EMERGENCY_HOLD
    ensures HeldThroughout(cfg, records, n) <==>
      forall j :: k <= j < n && IsCooler(cfg, records[j]) ==> NextIsEarly(records, j, n)
    ensures cfg.resume <= cfg.emergency ==>
      (HeldThroughout(cfg, records, n) <==>
        forall j :: k <= j < n && Resumes(records[j]) ==> NextIsEarly(records, j, n))
  {
    if HeldThroughout(cfg, records, n) {
      var m: nat :| m <= n && Sustained(cfg, records, m, n) && records[n].now - records[m].now >= EMERGENCY_HOLD;
      forall j | k <= j < n && IsCooler(cfg, records[j]) ensures NextIsEarly(records, j, n) {
        assert j + 1 <= m;
      }
      assert cfg.resume <= cfg.emergency ==> forall j :: k <= j < n && Resumes(records[j]) ==> IsCooler(cfg, records[j]);
    } else {
      var cool := AfterLastCooler(cfg, records, k, n);
      assert records[n].now - records[cool].now < EMERGENCY_HOLD;
      assert k <= cool - 1 < n && IsCooler(cfg, records[cool - 1]) && records[cool - 1 + 1] == records[cool];
      var start := AfterLastResume(cfg, records, k, n);
      assert records[n].now - records[start].now < EMERGENCY_HOLD;
      assert k <= start - 1 < n && Resumes(records[start - 1]) && records[start - 1 + 1] == records[start];
    }
  }

  predicate IsCooler(cfg: Config, r: Record) {
    r.temp < cfg.emergency as real
  }

  lemma AfterLastCooler(cfg: Config, records: seq<Record>, k: nat, n: nat) returns (start: nat)
    requires HotSince(cfg, records, k, n + 1) && !records[n].before
    ensures k <= start <= n && Sustained(cfg, records, start, n)
    ensures start == k || IsCooler(cfg, records[start - 1])
  {
    start := n;
    assert HotOrBlind(cfg, records[n]);
    while start > k && !IsCooler(cfg, records[start - 1])
      invariant k <= start <= n && Sustained(cfg, records, start, n)
    {
      start := start - 1;
    }
  }

  /** Where the uninterrupted heat before record `n` begins: at the timer start, or right after the last resume since. */
  lemma AfterLastResume(cfg: Config, records: seq<Record>, k: nat, n: nat) returns (start: nat)
    requires Chained(cfg, records) && HotSince(cfg, records, k, n + 1) && !records[n].before
    ensures k <= start <= n && Sustained(cfg, records, start, n)
    ensures start == k || Resumes(records[start - 1])
  {
    start := n;
    while start > k && !records[start - 1].before
      invariant k <= start <= n
      invariant forall j :: start <= j <= n ==> !records[j].before
    {
      start := start - 1;
    }
    assert start > k ==> records[start].before == records[start - 1].after;
    forall j | start <= j <= n ensures records[j].temp >= cfg.emergency as real {
      assert HotOrBlind(cfg, records[j]);
    }
  }

  /** Between a record inside an emergency and a later one outside it, some sample was below the resume threshold. */
  lemma {:induction false} FallsBefore(cfg: Config, records: seq<Record>, j: nat, n: nat) returns (m: nat)
    requires Chained(cfg, records) && j < n < |records| && records[j].before && !records[n].before
    ensures j <= m < n && records[m].temp < cfg.resume as real
    decreases n - j
  {
    if records[j].after {
      assert records[j + 1].before == records[j].after;
      m := FallsBefore(cfg, records, j + 1, n);
    } else {
      m := j;
    }
  }

  const DEFAULTS := Config(75, 90, 98, 55, 5)

  function Reading(temp: real, now: real): Event {
    TickEvent(Input(Some(temp), now, Some(temp), now, {}, {}))
  }

  /** The interruption happens: after two hot seconds, an emergency and a resume, one hot sample alone stops the
      instances again, ten seconds after a sample of fifty degrees. */
  lemma OneSpikeAfterResumeIsEnough(s: State)
    requires Started(s) && s.lastResume == 0.0
    ensures var t := Run(DEFAULTS, s, [Reading(99.0, 100.0), Reading(99.0, 102.0), Reading(50.0, 110.0),
                                       Reading(99.0, 120.0)]);
      && t.signals == [STOP, CONT, STOP] && t.emergency
      && !Sustained(DEFAULTS, t.records, 2, 3) && t.records[3].before == false && t.records[3].after
  {
    hide TargetFreq, Smoothed, NextWrite, Run;
    var a := Next(DEFAULTS, s, Reading(99.0, 100.0));
    var b := Next(DEFAULTS, a, Reading(99.0, 102.0));
    var c := Next(DEFAULTS, b, Reading(50.0, 110.0));
    var d := Next(DEFAULTS, c, Reading(99.0, 120.0));
    assert a.since == 100.0 && !a.emergency && a.signals == [] && a.alive && a.lastResume == 0.0 && |a.records| == 1;
    assert b.since == 100.0 && b.emergency && b.signals == [STOP] && b.startedAt == 102.0 && |b.records| == 2;
    assert c.since == 100.0 && !c.emergency && c.signals == [STOP, CONT] && c.lastResume == 110.0;
    assert c.alive && |c.records| == 3 && c.records[2].temp == 50.0;
    assert d.records == c.records + [Record(120.0, 99.0, false, d.emergency)];
    assert d.emergency && d.signals == [STOP, CONT, STOP];
    assert d.records[2].temp == 50.0;
    RunFour(DEFAULTS, s, Reading(99.0, 100.0), Reading(99.0, 102.0), Reading(50.0, 110.0), Reading(99.0, 120.0));
  }

  /** A sample whose second reading, taken when resuming, is missing. */
  function LostReading(temp: real, now: real): Event {
    TickEvent(Input(Some(temp), now, None, now, {}, {}))
  }

  /** A crash on resume, in a fresh controller: two hot samples, an emergency, and a cool sample read only once.  The
      instances are continued and full speed is restored, but the switch stays on and the emergency flag is left set. */
  lemma CrashLeavesTheFlag(s: State)
    requires Started(s) && s.lastResume == 0.0 && s.ema == None
    ensures var b := Run(DEFAULTS, s, [Reading(99.0, 100.0), Reading(99.0, 102.0)]);
            var t := Next(DEFAULTS, b, LostReading(50.0, 110.0));
      && CrashesOnResume(DEFAULTS, b, LostReading(50.0, 110.0).input)
      && !t.alive && t.enabled && t.emergency && t.signals == [STOP, CONT]
      && t.writes == [Write(CPU_MIN_FREQ, Initial), Write(CPU_MIN_FREQ, Forced), Write(CPU_MAX_FREQ, Restored)]
  {
    var a := Next(DEFAULTS, s, Reading(99.0, 100.0));
    var b := Next(DEFAULTS, a, Reading(99.0, 102.0));
    assert TargetFreq(DEFAULTS, 99.0) == CPU_MIN_FREQ;
    assert Smoothed(None, 99.0) == 99.0;
    hide TargetFreq, Run, Smoothed;
    assert a.since == 100.0 && !a.emergency && a.signals == [] && a.alive && a.enabled && a.lastResume == 0.0;
    assert a.writes == [Write(CPU_MIN_FREQ, Initial)];
    assert b.emergency && b.signals == [STOP] && b.startedAt == 102.0 && b.alive && b.enabled;
    assert b.writes == [Write(CPU_MIN_FREQ, Initial), Write(CPU_MIN_FREQ, Forced)];
    RunTwo(DEFAULTS, s, Reading(99.0, 100.0), Reading(99.0, 102.0));
  }

  lemma RunTwo(cfg: Config, s: State, a: Event, b: Event)
    ensures Run(cfg, s, [a, b]) == Next(cfg, Next(cfg, s, a), b)
  {
    hide Next;
    assert [a, b][1..] == [b] && [b][1..] == [];
    assert Run(cfg, Next(cfg, s, a), [b]) == Run(cfg, Next(cfg, Next(cfg, s, a), b), []);
  }

  lemma RunFour(cfg: Config, s: State, a: Event, b: Event, c: Event, d: Event)
    ensures Run(cfg, s, [a, b, c, d]) == Next(cfg, Next(cfg, Next(cfg, Next(cfg, s, a), b), c), d)
  {
    hide Next;
    assert [a, b, c, d][1..] == [b, c, d] && [b, c, d][1..] == [c, d] && [c, d][1..] == [d] && [d][1..] == [];
    assert Run(cfg, s, [a, b, c, d]) == Run(cfg, Next(cfg, Next(cfg, s, a), b), [c, d]);
    assert Run(cfg, Next(cfg, Next(cfg, s, a), b), [c, d]) == Run(cfg, Next(cfg, Next(cfg, Next(cfg, s, a), b), c), [d]);
  }

  // ---------------------------------------------------------------- when an emergency comes

  /** Record `n` enters an emergency exactly at the end of a hot stretch as long as the hold time. */
  ghost predicate EntersOnTime(cfg: Config, records: seq<Record>, n: nat)
    requires n < |records|
  {
    Enters(records[n]) <==>
      && !records[n].before
      && exists k: nat :: HotSince(cfg, records, k, n + 1) && records[n].now - records[k].now >= 2.0
  }

  /** The timer shows the start of the longest hot stretch that is still going on. */
  ghost predicate TimerShows(cfg: Config, s: State) {
    if s.since == 0.0 then forall k: nat :: !HotSince(cfg, s.records, k, |s.records|)
    else exists k: nat :: TimerStart(cfg, s, k)
  }

  ghost predicate TimerStart(cfg: Config, s: State, k: nat) {
    && HotSince(cfg, s.records, k, |s.records|) && s.records[k].now == s.since
    && forall j: nat :: HotSince(cfg, s.records, j, |s.records|) ==> k <= j
  }

  /** One more record prolongs exactly the stretches it belongs to. */
  lemma StretchesGrow(cfg: Config, records: seq<Record>, r: Record, k: nat)
    ensures HotSince(cfg, records + [r], k, |records| + 1) <==>
      HotOrBlind(cfg, r) && (if k == |records| then !r.before else HotSince(cfg, records, k, |records|))
  {
    var longer := records + [r];
    assert longer[|records|] == r && forall j :: 0 <= j < |records| ==> longer[j] == records[j];
    if HotOrBlind(cfg, r) && k < |records| && HotSince(cfg, records, k, |records|) {
      forall j | k <= j < |longer| ensures HotOrBlind(cfg, longer[j]) {
        assert j < |records| ==> HotOrBlind(cfg, records[j]);
      }
    }
    if HotSince(cfg, longer, k, |longer|) && k < |records| {
      forall j | k <= j < |records| ensures HotOrBlind(cfg, records[j]) {
        assert HotOrBlind(cfg, longer[j]);
      }
    }
  }

  lemma EarlierEntriesStand(cfg: Config, records: seq<Record>, r: Record)
    requires forall n :: 0 <= n < |records| ==> EntersOnTime(cfg, records, n)
    ensures forall n :: 0 <= n < |records| ==> EntersOnTime(cfg, records + [r], n)
  {
    forall n | 0 <= n < |records| ensures EntersOnTime(cfg, records + [r], n) {
      assert EntersOnTime(cfg, records, n);
      hide EntersOnTime;
      EarlierEntryStands(cfg, records, r, n);
    }
  }

  lemma EarlierEntryStands(cfg: Config, records: seq<Record>, r: Record, n: nat)
    requires n < |records| && EntersOnTime(cfg, records, n)
    ensures EntersOnTime(cfg, records + [r], n)
  {
    var longer, until := records + [r], n + 1;
    assert forall j :: 0 <= j < |records| ==> longer[j] == records[j];
    forall k: nat ensures HotSince(cfg, longer, k, until) <==> HotSince(cfg, records, k, until) {
      PrefixDecides(cfg, records, r, k, until);
    }
    forall k: nat | HotSince(cfg, records, k, until) ensures k < |records| {
      HotSinceBounds(cfg, records, k, until);
    }
    hide HotSince;
  }

  lemma PrefixDecides(cfg: Config, records: seq<Record>, r: Record, k: nat, until: nat)
    requires until <= |records|
    ensures HotSince(cfg, records + [r], k, until) <==> HotSince(cfg, records, k, until)
  {
    var longer := records + [r];
    assert forall j :: 0 <= j < |records| ==> longer[j] == records[j];
  }

  /** A stretch that goes on, one that starts, and none. */
  lemma StartStays(cfg: Config, s: State, t: State, r: Record, k: nat)
    requires TimerStart(cfg, s, k) && HotOrBlind(cfg, r) && t.records == s.records + [r] && t.since == s.since
    ensures TimerStart(cfg, t, k)
  {
    HotSinceBounds(cfg, s.records, k, |s.records|);
    forall j: nat ensures HotSince(cfg, t.records, j, |t.records|) <==>
      if j == |s.records| then !r.before else HotSince(cfg, s.records, j, |s.records|)
    {
      StretchesGrow(cfg, s.records, r, j);
    }
    hide HotSince;
  }

  lemma StartIsNow(cfg: Config, s: State, t: State, r: Record)
    requires HotOrBlind(cfg, r) && !r.before && t.records == s.records + [r] && t.since == r.now
    requires forall k: nat :: !HotSince(cfg, s.records, k, |s.records|)
    ensures TimerStart(cfg, t, |s.records|)
  {
    forall j: nat ensures HotSince(cfg, t.records, j, |t.records|) <==> j == |s.records| {
      StretchesGrow(cfg, s.records, r, j);
    }
    hide HotSince;
  }

  lemma NoStart(cfg: Config, s: State, t: State, r: Record)
    requires t.records == s.records + [r]
    requires !HotOrBlind(cfg, r) || (r.before && forall k: nat :: !HotSince(cfg, s.records, k, |s.records|))
    ensures forall k: nat :: !HotSince(cfg, t.records, k, |t.records|)
  {
    forall j: nat ensures !HotSince(cfg, t.records, j, |t.records|) {
      StretchesGrow(cfg, s.records, r, j);
    }
  }

  lemma TickShowsTimer(cfg: Config, s: State, i: Input)
    requires TimerShows(cfg, s) && i.now > 0.0 && s.alive && i.temp.Some?
    ensures TimerShows(cfg, Tick(cfg, s, i))
  {
    var t := Tick(cfg, s, i);
    var r := Record(i.now, i.temp.value, s.emergency, t.emergency);
    TimerStep(cfg, s, i);
    hide Tick, HotSince, TimerStart;
    if !HotOrBlind(cfg, r) {
      NoStart(cfg, s, t, r);
    } else if s.since != 0.0 {
      var k: nat :| TimerStart(cfg, s, k);
      StartStays(cfg, s, t, r, k);
    } else if r.before {
      NoStart(cfg, s, t, r);
    } else {
      StartIsNow(cfg, s, t, r);
    }
  }

  lemma EntryComesOnTime(cfg: Config, s: State, i: Input)
    requires TimerShows(cfg, s) && s.alive && i.temp.Some? && ClockRuns(Tick(cfg, s, i).records)
    ensures EntersOnTime(cfg, Tick(cfg, s, i).records, |s.records|)
  {
    var t, n := Tick(cfg, s, i), |s.records|;
    var r := Record(i.now, i.temp.value, s.emergency, t.emergency);
    TimerStep(cfg, s, i);
    EntersWhenHeld(cfg, s, i);
    hide Tick, ClockRuns;
    forall k: nat ensures HotSince(cfg, t.records, k, |t.records|) <==>
      HotOrBlind(cfg, r) && (if k == n then !r.before else HotSince(cfg, s.records, k, n))
    {
      StretchesGrow(cfg, s.records, r, k);
    }
    if s.since != 0.0 {
      var k: nat :| TimerStart(cfg, s, k);
      HotSinceBounds(cfg, s.records, k, n);
      assert t.records[k] == s.records[k];
      forall j: nat | HotSince(cfg, s.records, j, n) ensures j < n && t.records[k].now <= t.records[j].now {
        HotSinceBounds(cfg, s.records, j, n);
        EarlierIsEarlier(t.records, k, j);
      }
      hide HotSince;
    }
    hide HotSince;
  }

  lemma EarlierIsEarlier(records: seq<Record>, k: nat, j: nat)
    requires ClockRuns(records) && k <= j < |records|
    ensures records[k].now <= records[j].now
  {
  }

  lemma EntersWhenHeld(cfg: Config, s: State, i: Input)
    requires s.alive && i.temp.Some?
    ensures !s.emergency && Tick(cfg, s, i).emergency <==>
      !s.emergency && i.temp.value >= cfg.emergency as real && s.since != 0.0 && i.now - s.since >= 2.0
  {
    hide TargetFreq, Smoothed, NextWrite, HoldTimer;
  }

  ghost predicate OnTime(cfg: Config, s: State) {
    TimerShows(cfg, s) && forall n :: 0 <= n < |s.records| ==> EntersOnTime(cfg, s.records, n)
  }

  lemma NextIsOnTime(cfg: Config, s: State, events: seq<Event>)
    requires OnTime(cfg, s) && events != [] && InTime(s, events) && ClockGoesOn(events)
    ensures OnTime(cfg, Next(cfg, s, events[0]))
  {
    var e := events[0];
    NextInTime(cfg, s, events);
    InTimeRuns(Next(cfg, s, e), events[1..]);
    assert e.TickEvent? ==> e.input.now > 0.0;
    hide InTime, ClockGoesOn, ClockRuns;
    if e.TickEvent? && s.alive && e.input.temp.Some? {
      TickShowsTimer(cfg, s, e.input);
      EntryComesOnTime(cfg, s, e.input);
      TimerStep(cfg, s, e.input);
      EarlierEntriesStand(cfg, s.records, Tick(cfg, s, e.input).records[|s.records|]);
      hide Tick, TimerShows, EntersOnTime;
    } else {
      assert Next(cfg, s, e).records == s.records && Next(cfg, s, e).since == s.since;
      hide EntersOnTime, Next, HotSince;
      assert forall k: nat :: TimerStart(cfg, Next(cfg, s, e), k) == TimerStart(cfg, s, k);
    }
  }

  lemma {:induction false} RunIsOnTime(cfg: Config, s: State, events: seq<Event>)
    requires OnTime(cfg, s) && InTime(s, events) && ClockGoesOn(events)
    ensures OnTime(cfg, Run(cfg, s, events))
    decreases |events|
  {
    hide Next, OnTime, InTime, ClockGoesOn;
    if events != [] {
      NextIsOnTime(cfg, s, events);
      NextInTime(cfg, s, events);
      RunIsOnTime(cfg, Next(cfg, s, events[0]), events[1..]);
    }
  }

  /** In every run of a started controller an emergency comes exactly when a sample outside one ends a stretch of at least
      two seconds in which every sample outside an emergency was at or above the threshold. */
  lemma EmergencyComesExactlyWhenHeld(cfg: Config, s: State, events: seq<Event>, n: nat)
    requires Started(s) && ClockGoesOn(events) && n < |Run(cfg, s, events).records|
    ensures EntersOnTime(cfg, Run(cfg, s, events).records, n)
  {
    RunIsOnTime(cfg, s, events);
    hide Run, Started, EntersOnTime, TimerShows, ClockGoesOn;
  }

  // ---------------------------------------------------------------- the same over runs

  /** The clock is positive and does not run backwards. */
  predicate ClockGoesOn(events: seq<Event>) {
    && (forall k :: 0 <= k < |events| && events[k].TickEvent? ==> events[k].input.now > 0.0)
    && (forall i, j :: 0 <= i <= j < |events| && events[i].TickEvent? && events[j].TickEvent? ==>
          events[i].input.now <= events[j].input.now)
  }

  /** The records are in order of time, and none is later than what is still to come. */
  predicate InTime(s: State, events: seq<Event>) {
    && ClockRuns(s.records)
    && (forall i, k :: 0 <= i < |s.records| && 0 <= k < |events| && events[k].TickEvent? ==>
          s.records[i].now <= events[k].input.now)
  }

  lemma NextInTime(cfg: Config, s: State, events: seq<Event>)
    requires events != [] && InTime(s, events) && ClockGoesOn(events)
    ensures InTime(Next(cfg, s, events[0]), events[1..]) && ClockGoesOn(events[1..])
  {
    var e, rest, t := events[0], events[1..], Next(cfg, s, events[0]);
    assert forall k :: 0 <= k < |rest| ==> rest[k] == events[k + 1];
    if e.TickEvent? && s.alive && e.input.temp.Some? {
      TimerStep(cfg, s, e.input);
    } else {
      assert t.records == s.records;
    }
    hide Next, Tick;
  }

  lemma {:induction false} RecordsAreInTime(cfg: Config, s: State, events: seq<Event>)
    requires InTime(s, events) && ClockGoesOn(events)
    ensures ClockRuns(Run(cfg, s, events).records)
    decreases |events|
  {
    hide Next, InTime, ClockGoesOn, ClockRuns;
    if events == [] {
      InTimeRuns(s, events);
    } else {
      NextInTime(cfg, s, events);
      RecordsAreInTime(cfg, Next(cfg, s, events[0]), events[1..]);
    }
  }

  lemma InTimeRuns(s: State, events: seq<Event>)
    requires InTime(s, events)
    ensures ClockRuns(s.records)
  {
  }

  /** Record `n` entered an emergency. */
  predicate Enters(r: Record) {
    !r.before && r.after
  }

  /** Whatever came before the timer start is early enough. */
  lemma EarlyEnough(records: seq<Record>, k: nat, n: nat, j: nat)
    requires ClockRuns(records) && j < k <= n < |records| && records[n].now - records[k].now >= EMERGENCY_HOLD
    ensures NextIsEarly(records, j, n)
  {
  }

  /** In every run of a started controller, an emergency came after uninterrupted heat for the whole hold time if and only
      if every cooler sample before it was followed by a sample at least the hold time before it; when the resume threshold
      is not above the emergency's, it is enough to look at the resumes. */
  lemma EmergencyHeldUnlessResumedLate(cfg: Config, s: State, events: seq<Event>, n: nat)
    requires Started(s) && ClockGoesOn(events)
    requires n < |Run(cfg, s, events).records| && Enters(Run(cfg, s, events).records[n])
    ensures var records := Run(cfg, s, events).records;
      && (HeldThroughout(cfg, records, n) <==>
            forall j :: 0 <= j < n && IsCooler(cfg, records[j]) ==> NextIsEarly(records, j, n))
      && (cfg.resume <= cfg.emergency ==>
            (HeldThroughout(cfg, records, n) <==>
              forall j :: 0 <= j < n && Resumes(records[j]) ==> NextIsEarly(records, j, n)))
  {
    var t := Run(cfg, s, events);
    var records := t.records;
    RecordsAreInTime(cfg, s, events);
    EmergenciesAreHeld(cfg, s, events);
    RecordsAreChained(cfg, s, events);
    hide Run, Started, ClockGoesOn, Chained, HotSince, IsCooler, HeldThroughout;
    assert EntryHeld(cfg, records, n);
    var k: nat :| HotSince(cfg, records, k, n + 1) && k < n && records[n].now - records[k].now >= EMERGENCY_HOLD;
    HeldUnlessResumedLate(cfg, records, k, n);
    hide *;
    forall j | 0 <= j < k ensures NextIsEarly(records, j, n) {
      EarlyEnough(records, k, n, j);
    }
  }

  /** Everything at once, for a controller from its start on. */
  lemma GovernorIsSafe(cfg: Config, s: State, events: seq<Event>)
    requires Started(s)
    requires forall k :: 0 <= k < |events| && events[k].TickEvent? ==> events[k].input.now > 0.0
    ensures var t := Run(cfg, s, events);
      WritesInv(t) && SignalsInv(t) && TimerInv(cfg, t) && ChainInv(cfg, t)
  {
    WritesAreBoundedAndSlewLimited(cfg, s, events);
    StopAndContAlternate(cfg, s, events);
    EmergenciesAreHeld(cfg, s, events);
    RecordsAreChained(cfg, s, events);
  }
}

/** The controller object: its fields change tick by tick as the machine says. */
module ThermalController {
  import opened Helpers
  import opened ThermalSpec

  class Controller {
    const cfg: Config
    var enabled: bool
    var alive: bool
    var tempEma: Option<real>
    var lastWrittenFreq: int
    var emergency: bool
    var emergencySince: real
    var emergencyStartedAt: real
    var lastResumeTs: real
    var flagged: set<InstanceId>
    var writes: seq<Write>
    var signals: seq<Signal>
    ghost var records: seq<Record>

    ghost function View(): State
      reads this
    {
      State(enabled, alive, tempEma, lastWrittenFreq, emergency, emergencySince, emergencyStartedAt, lastResumeTs, flagged,
            writes, signals, records)
    }

    constructor (cfg: Config)
      ensures this.cfg == cfg && !enabled && !alive && tempEma == None && lastResumeTs == 0.0 && flagged == {}
    {
      this.cfg := cfg;
      enabled, alive, tempEma, lastWrittenFreq, emergency := false, false, None, 0, false;
      emergencySince, emergencyStartedAt, lastResumeTs := 0.0, 0.0, 0.0;
      flagged, writes, signals, records := {}, [], [], [];
    }

    /** `start` does nothing while the switch is on, even when the loop has crashed; otherwise a run begins, in which the
        smoothed temperature and the time of the last resume survive from an earlier one. */
    method Start()
      requires alive ==> enabled
      modifies this
      ensures old(enabled) ==> View() == old(View())
      ensures !old(enabled) ==>
        Started(View()) && tempEma == old(tempEma) && lastResumeTs == old(lastResumeTs) && flagged == old(flagged)
    {
      if enabled {
        return;
      }
      enabled, alive, emergency, lastWrittenFreq, emergencySince := true, true, false, 0, 0.0;
      writes, signals, records := [], [], [];
    }

    /** `stop`: the switch goes off, and a loop that still runs is cancelled into its cleanup. */
    method Stop(running: set<InstanceId>)
      modifies this
      ensures View() == Next(cfg, old(View()), StopEvent(running))
    {
      enabled := false;
      if alive {
        RestoreAll(running);
      }
    }

    method SetCpuFreq(freq: int, kind: WriteKind)
      modifies this`writes
      ensures writes == old(writes) + [Write(freq, kind)]
    {
      writes := writes + [Write(freq, kind)];
    }

    /** `_apply_freq` */
    method ApplyFreq(freq: int, force: bool)
      modifies this`writes, this`lastWrittenFreq
      ensures !force ==> View() == ThermalSpec.ApplyFreq(old(View()), freq)
      ensures force ==> View() == old(View()).(lastWritten := freq, writes := old(writes) + [Write(freq, Forced)])
    {
      if force {
        SetCpuFreq(freq, Forced);
        lastWrittenFreq := freq;
        return;
      }
      if lastWrittenFreq == 0 {
        SetCpuFreq(freq, Initial);
        lastWrittenFreq := freq;
        return;
      }
      var delta := freq - lastWrittenFreq;
      if Abs(delta) < FREQ_WRITE_THRESHOLD {
        return;
      }
      if Abs(delta) > FREQ_MAX_STEP {
        var clamped := Clamp(lastWrittenFreq + (if delta > 0 then FREQ_MAX_STEP else -FREQ_MAX_STEP));
        SetCpuFreq(clamped, Stepped);
        lastWrittenFreq := clamped;
        return;
      }
      SetCpuFreq(freq, Stepped);
      lastWrittenFreq := freq;
    }

    /** `_mark_instances_thermal`: all instances when stopping, only running ones when resuming. */
    method MarkInstances(stopped: bool, present: set<InstanceId>, running: set<InstanceId>)
      modifies this`flagged
      ensures flagged == if stopped then old(flagged) + present else old(flagged) - running
    {
      flagged := if stopped then flagged + present else flagged - running;
    }

    method EnterEmergency(i: Input)
      requires !emergency
      modifies this`signals, this`flagged, this`emergency, this`emergencyStartedAt, this`writes, this`lastWrittenFreq
      ensures View() == DoEmergency(old(View()), i)
    {
      signals := signals + [STOP];
      MarkInstances(true, i.present, i.running);
      emergency := true;
      emergencyStartedAt := i.later;
      ApplyFreq(CPU_MIN_FREQ, true);
    }

    /** The loop's cleanup. */
    method RestoreAll(running: set<InstanceId>)
      modifies this`signals, this`flagged, this`alive, this`writes, this`lastWrittenFreq
      ensures View() == Cleanup(old(View()), running)
    {
      if emergency {
        signals := signals + [CONT];
        MarkInstances(false, {}, running);
      }
      SetCpuFreq(CPU_MAX_FREQ, Restored);
      lastWrittenFreq := 0;
      alive := false;
    }

    method LeaveEmergency(i: Input)
      requires emergency
      modifies this`signals, this`flagged, this`alive, this`writes, this`lastWrittenFreq, this`emergency, this`lastResumeTs
      ensures View() == DoResume(old(View()), i)
    {
      if i.reread.None? {
        RestoreAll(i.running);
        return;
      }
      signals := signals + [CONT];
      MarkInstances(false, i.present, i.running);
      emergency := false;
      lastResumeTs := i.later;
    }

    /** The emergency check of one sample; true when the emergency was entered. */
    method CheckHold(temp: real, i: Input) returns (entered: bool)
      requires !emergency
      modifies this`emergencySince, this`signals, this`flagged, this`emergency, this`emergencyStartedAt, this`writes,
               this`lastWrittenFreq
      ensures entered <==> HeldLongEnough(cfg, old(View()), temp, i.now)
      ensures View() == if entered then DoEmergency(old(View()), i)
                        else old(View()).(since := HoldTimer(cfg, old(View()), temp, i.now))
    {
      entered := false;
      if temp >= cfg.emergency as real {
        if emergencySince == 0.0 {
          emergencySince := i.now;
        } else if i.now - emergencySince >= EMERGENCY_HOLD {
          EnterEmergency(i);
          entered := true;
        }
      } else {
        emergencySince := 0.0;
      }
    }

    /** One turn of the loop. */
    method OnTick(i: Input)
      requires alive
      modifies this
      ensures View() == Tick(cfg, old(View()), i)
    {
      if i.temp.None? {
        return;
      }
      var temp := i.temp.value;
      ghost var before := emergency;
      tempEma := Some(Smoothed(tempEma, temp));
      if emergency {
        if temp < cfg.resume as real && i.now - emergencyStartedAt >= EMERGENCY_COOLDOWN {
          LeaveEmergency(i);
        }
      } else {
        var cooling := i.now - lastResumeTs < cfg.cooldown as real;
        var entered := CheckHold(temp, i);
        if !entered && !cooling {
          ApplyFreq(TargetFreq(cfg, tempEma.value), false);
        }
      }
      records := records + [Record(i.now, temp, before, emergency)];
    }
  }
}
