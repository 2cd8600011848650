/**
 Where the governor (BRAIN-DAEMON/thermal/controller.py) ends up under a steady temperature: the smoothed temperature
 closes in on it, the target follows in finitely many steps, and the writes follow the target.
 */
module ThermalSettling {
  import opened Helpers
  import opened ThermalSpec
  import opened ThermalRuns

  // ---------------------------------------------------------------- the recurrence of average and write

  /** The average after `n` more samples of a steady temperature. */
  function AverageAfter(ema: real, temp: real, n: nat): real {
    temp + GapAfter(ema - temp, n)
  }

  /** The target after `n` more samples. */
  function TargetAfter(cfg: Config, ema: real, temp: real, n: nat): int {
    TargetFreq(cfg, AverageAfter(ema, temp, n))
  }

  /** The last write after `n` more samples, each of them answered. */
  function Follow(cfg: Config, last: int, ema: real, temp: real, n: nat): int {
    if n == 0 then last
    else Written(Follow(cfg, last, ema, temp, n - 1), TargetAfter(cfg, ema, temp, n))
  }

  lemma {:induction false} GapAdds(gap: real, a: nat, b: nat)
    ensures GapAfter(gap, a + b) == GapAfter(GapAfter(gap, a), b)
    decreases a
  {
    if a > 0 {
      GapAdds(0.6 * gap, a - 1, b);
    }
  }

  lemma {:induction false} GapStaysBetween(gap: real, n: nat)
    ensures if gap >= 0.0 then 0.0 <= GapAfter(gap, n) <= gap else gap <= GapAfter(gap, n) <= 0.0
    decreases n
  {
    if n > 0 {
      GapStaysBetween(0.6 * gap, n - 1);
    }
  }

  lemma {:induction false} FollowAdds(cfg: Config, last: int, ema: real, temp: real, a: nat, b: nat)
    ensures Follow(cfg, last, ema, temp, a + b)
         == Follow(cfg, Follow(cfg, last, ema, temp, a), AverageAfter(ema, temp, a), temp, b)
    decreases b
  {
    hide Written, TargetFreq, GapAfter;
    if b > 0 {
      FollowAdds(cfg, last, ema, temp, a, b - 1);
      GapAdds(ema - temp, a, b);
    }
  }

  lemma WrittenInRange(last: int, freq: int)
    requires (last == 0 || InRange(last)) && InRange(freq)
    ensures InRange(Written(last, freq))
  {
  }

  lemma TargetInRange(cfg: Config, ema: real, temp: real, n: nat)
    ensures InRange(TargetAfter(cfg, ema, temp, n))
  {
    TargetFallsWithHeat(cfg, AverageAfter(ema, temp, n), AverageAfter(ema, temp, n));
  }

  lemma {:induction false} FollowInRange(cfg: Config, last: int, ema: real, temp: real, n: nat)
    requires last == 0 || InRange(last)
    ensures Follow(cfg, last, ema, temp, n) == last == 0 || InRange(Follow(cfg, last, ema, temp, n))
    ensures n > 0 ==> InRange(Follow(cfg, last, ema, temp, n))
  {
    hide Written, InRange, TargetAfter;
    if n > 0 {
      FollowInRange(cfg, last, ema, temp, n - 1);
      TargetInRange(cfg, ema, temp, n);
      WrittenInRange(Follow(cfg, last, ema, temp, n - 1), TargetAfter(cfg, ema, temp, n));
    }
  }

  /** Targets lie between the first one and that of the temperature itself. */
  lemma TargetStaysBetween(cfg: Config, ema: real, temp: real, n: nat)
    ensures var first, now, own := TargetFreq(cfg, ema), TargetAfter(cfg, ema, temp, n), TargetFreq(cfg, temp);
      first <= now <= own || own <= now <= first
  {
    GapStaysBetween(ema - temp, n);
    hide TargetFreq, GapAfter;
    var average := AverageAfter(ema, temp, n);
    if ema >= temp {
      TargetFallsWithHeat(cfg, temp, average);
      TargetFallsWithHeat(cfg, average, ema);
    } else {
      TargetFallsWithHeat(cfg, ema, average);
      TargetFallsWithHeat(cfg, average, temp);
    }
  }

  lemma {:induction false} FollowConstant(cfg: Config, last: int, ema: real, temp: real, target: int, n: nat)
    requires forall k: nat :: 0 < k <= n ==> TargetAfter(cfg, ema, temp, k) == target
    ensures Follow(cfg, last, ema, temp, n) == ApplyTimes(last, target, n)
    decreases n
  {
    hide Written, TargetAfter;
    if n > 0 {
      FollowConstant(cfg, last, ema, temp, target, n - 1);
      ApplyOnceMore(last, target, n - 1);
    }
  }

  lemma {:induction false} ApplyOnceMore(last: int, target: int, n: nat)
    ensures ApplyTimes(last, target, n + 1) == Written(ApplyTimes(last, target, n), target)
    decreases n
  {
    hide Written;
    if n > 0 {
      ApplyOnceMore(Written(last, target), target, n - 1);
    }
  }

  /** The last write after `n` samples is within the write threshold of the target of the moment. */
  predicate Settled(cfg: Config, last: int, ema: real, temp: real, n: nat) {
    Abs(Follow(cfg, last, ema, temp, n) - TargetAfter(cfg, ema, temp, n)) < FREQ_WRITE_THRESHOLD
  }

  lemma SettledLater(cfg: Config, last: int, ema: real, temp: real, k: nat, n: nat)
    requires n >= k && Settled(cfg, Follow(cfg, last, ema, temp, k), AverageAfter(ema, temp, k), temp, n - k)
    ensures Settled(cfg, last, ema, temp, n)
  {
    hide Follow, GapAfter, TargetFreq;
    FollowAdds(cfg, last, ema, temp, k, n - k);
    GapAdds(ema - temp, k, n - k);
  }

  lemma NoGapAtFirst(gap: real)
    ensures GapAfter(gap, 0) == gap
  {
  }

  lemma SettledWhileConstant(cfg: Config, last: int, ema: real, temp: real, n: nat)
    requires InRange(last) && n >= 9 && forall k: nat :: TargetAfter(cfg, ema, temp, k) == TargetFreq(cfg, ema)
    ensures Settled(cfg, last, ema, temp, n)
  {
    hide Follow, TargetFreq, GapAfter, ApplyTimes, NextWrite;
    var target := TargetFreq(cfg, ema);
    assert TargetAfter(cfg, ema, temp, 0) == target;
    TargetInRange(cfg, ema, temp, 0);
    hide TargetAfter;
    FollowConstant(cfg, last, ema, temp, target, n);
    SettlesInNineCalls(last, target, n);
  }

  /** Sooner or later the last write stays within the threshold of the target of the moment: the target changes only
      finitely often on its way, and nine samples after the last change are enough. */
  lemma {:induction false} FollowingSettles(cfg: Config, last: int, ema: real, temp: real) returns (from: nat)
    requires InRange(last)
    ensures forall n: nat :: n >= from ==> Settled(cfg, last, ema, temp, n)
    decreases Abs(TargetFreq(cfg, ema) - TargetFreq(cfg, temp))
  {
    hide Settled, TargetFreq, TargetAfter, Follow, AverageAfter, InRange;
    if k: nat :| TargetAfter(cfg, ema, temp, k) != TargetFreq(cfg, ema) {
      TargetStaysBetween(cfg, ema, temp, k);
      FollowInRange(cfg, last, ema, temp, k);
      StartOfFollow(cfg, last, ema, temp, k);
      var rest := FollowingSettles(cfg, Follow(cfg, last, ema, temp, k), AverageAfter(ema, temp, k), temp);
      from := k + rest;
      forall n: nat | n >= from ensures Settled(cfg, last, ema, temp, n) {
        SettledLater(cfg, last, ema, temp, k, n);
      }
    } else {
      from := 9;
      forall n: nat | n >= from ensures Settled(cfg, last, ema, temp, n) {
        SettledWhileConstant(cfg, last, ema, temp, n);
      }
    }
  }

  lemma StartOfFollow(cfg: Config, last: int, ema: real, temp: real, k: nat)
    requires InRange(last)
    ensures TargetAfter(cfg, ema, temp, k) == TargetFreq(cfg, AverageAfter(ema, temp, k))
    ensures InRange(Follow(cfg, last, ema, temp, k))
  {
    FollowInRange(cfg, last, ema, temp, k);
    hide TargetFreq, AverageAfter;
  }

  // ---------------------------------------------------------------- how close the targets come

  function Magnitude(x: real): real {
    if x < 0.0 then -x else x
  }

  /** A shrinking gap gets below any positive bound. */
  lemma {:induction false} GapVanishes(gap: real, bound: real) returns (from: nat)
    requires bound > 0.0
    ensures forall n: nat :: n >= from ==> -bound <= GapAfter(gap, n) <= bound
    decreases Magnitude(gap) / bound * 2.0
  {
    if -bound <= gap <= bound {
      from := 0;
      forall n: nat ensures -bound <= GapAfter(gap, n) <= bound {
        GapStaysBetween(gap, n);
      }
    } else {
      SmallerRatio(gap, bound);
      var rest := GapVanishes(0.6 * (0.6 * gap), bound);
      from := 2 + rest;
      forall n: nat | n >= from ensures -bound <= GapAfter(gap, n) <= bound {
        assert GapAfter(gap, n) == GapAfter(0.6 * gap, n - 1) == GapAfter(0.6 * (0.6 * gap), n - 2);
      }
    }
  }

  lemma SmallerRatio(gap: real, bound: real)
    requires bound > 0.0 && !(-bound <= gap <= bound)
    ensures Magnitude(0.6 * (0.6 * gap)) / bound * 2.0 <= Magnitude(gap) / bound * 2.0 - 1.0
  {
    var q := Magnitude(gap) / bound;
    assert q * bound == Magnitude(gap);
    ScalingKeepsOrder(q, 1.0, bound);
    assert q > 1.0;
    var r := Magnitude(0.6 * (0.6 * gap)) / bound;
    assert r * bound == 0.36 * Magnitude(gap) == 0.36 * (q * bound) == (0.36 * q) * bound;
    ScalingKeepsOrder(r, 0.36 * q, bound);
    ScalingKeepsOrder(0.36 * q, r, bound);
  }

  /** Between two temperatures a hundredth of the span apart the throttle differs by at most a percent. */
  lemma ThrottleIsNear(cfg: Config, cooler: real, temp: real)
    requires cfg.throttleStart < cfg.throttleFull && cooler <= temp
    requires (temp - cooler) * 100.0 <= (cfg.throttleFull - cfg.throttleStart) as real
    ensures ThrottlePct(cfg, temp) - 1 <= ThrottlePct(cfg, cooler) <= ThrottlePct(cfg, temp)
  {
    ThrottleIsMonotone(cfg, cooler, temp);
    var start, full := cfg.throttleStart as real, cfg.throttleFull as real;
    if start < cooler < full {
      if temp < full {
        RatioIsNear(cooler - start, temp - start, full - start);
      } else {
        RatioIsNearFull(cooler - start, full - start);
      }
    } else if start < temp < full {
      RatioIsSmall(temp - start, full - start);
    }
    hide Ratio;
  }

  lemma RatioIsNear(part: real, more: real, span: real)
    requires 0.0 < part <= more < span && (more - part) * 100.0 <= span
    ensures Ratio(more, span) <= Ratio(part, span) + 1
  {
    RatioIsRoundedDown(part, span);
    RatioIsRoundedDown(more, span);
    hide Ratio;
    OnePercentMore(Ratio(part, span), Ratio(more, span), span, part * 100.0, more * 100.0);
  }

  lemma RatioIsNearFull(part: real, span: real)
    requires 0.0 < part < span && (span - part) * 100.0 <= span
    ensures Ratio(part, span) == 99
  {
    RatioIsRoundedDown(part, span);
    RatioBetween(part, span);
    hide Ratio;
    OnePercentMore(Ratio(part, span), 100, span, part * 100.0, 100.0 * span);
  }

  lemma RatioIsSmall(part: real, span: real)
    requires 0.0 < part < span && part * 100.0 <= span
    ensures 0 <= Ratio(part, span) <= 1
  {
    RatioIsRoundedDown(part, span);
    RatioBetween(part, span);
    hide Ratio;
    OnePercentMore(0, Ratio(part, span), span, 0.0, part * 100.0);
  }

  lemma OnePercentMore(p: int, q: int, span: real, below: real, above: real)
    requires span > 0.0 && below < (p + 1) as real * span && q as real * span <= above <= below + span
    ensures q <= p + 1
  {
    assert (p + 2) as real * span == (p + 1) as real * span + span;
    if q >= p + 2 {
      ScalingKeepsOrder((p + 2) as real, q as real, span);
    }
  }

  lemma FreqIsNear(pct: int)
    requires 0 <= pct < 100
    ensures FreqAt(pct + 1) <= FreqAt(pct) <= FreqAt(pct + 1) + 100000
  {
    LineIs(pct);
    LineIs(pct + 1);
    hide Line;
    RoundedNear(CPU_MAX_FREQ - 45625 * pct - 45625, CPU_MAX_FREQ - 45625 * pct);
  }

  function Line(pct: int): int {
    CPU_MAX_FREQ - (CPU_MAX_FREQ - CPU_MIN_FREQ) * pct / 100
  }

  lemma LineIs(pct: int)
    requires 0 <= pct <= 100
    ensures Line(pct) == CPU_MAX_FREQ - 45625 * pct
    ensures FreqAt(pct) == if pct == 0 then CPU_MAX_FREQ else if pct == 100 then CPU_MIN_FREQ
                           else if Rounded(Line(pct)) < CPU_MIN_FREQ then CPU_MIN_FREQ else Rounded(Line(pct))
  {
  }

  function Rounded(freq: int): int {
    freq / 100000 * 100000
  }

  lemma RoundedNear(low: int, high: int)
    requires low <= high <= low + 100000
    ensures Rounded(low) <= Rounded(high) <= Rounded(low) + 100000
    ensures Rounded(low) <= low < Rounded(low) + 100000
    ensures Rounded(high) <= high < Rounded(high) + 100000
  {
  }

  lemma TargetIsNear(cfg: Config, cooler: real, temp: real)
    requires cfg.throttleStart < cfg.throttleFull && cooler <= temp
    requires (temp - cooler) * 100.0 <= (cfg.throttleFull - cfg.throttleStart) as real
    ensures TargetFreq(cfg, temp) <= TargetFreq(cfg, cooler) <= TargetFreq(cfg, temp) + 100000
  {
    ThrottleIsNear(cfg, cooler, temp);
    ThrottleIsMonotone(cfg, cooler, temp);
    hide ThrottlePct, FreqAt;
    if ThrottlePct(cfg, cooler) < ThrottlePct(cfg, temp) {
      FreqIsNear(ThrottlePct(cfg, cooler));
    }
  }

  lemma SameRatio(part: real, more: real, span: real)
    requires span > 0.0 && part <= more && more * 100.0 < (Ratio(part, span) + 1) as real * span
    ensures Ratio(more, span) == Ratio(part, span)
  {
    RatioGrows(part, more, span);
    RatioIsRoundedDown(more, span);
    hide Ratio;
    NotOneMore(Ratio(part, span), Ratio(more, span), span, more * 100.0);
  }

  lemma NotOneMore(p: int, q: int, span: real, x: real)
    requires span > 0.0 && q as real * span <= x < (p + 1) as real * span
    ensures q <= p
  {
    if q >= p + 1 {
      ScalingKeepsOrder((p + 1) as real, q as real, span);
    }
  }

  lemma RatioAtStart(span: real)
    requires span > 0.0
    ensures Ratio(0.0, span) == 0
  {
  }

  /** How much hotter a sample may be before the percentage changes. */
  lemma RoomAbove(start: real, full: real, temp: real) returns (bound: real)
    requires start <= temp < full
    ensures bound > 0.0 && temp + bound < full
    ensures (temp + bound - start) * 100.0 < (Ratio(temp - start, full - start) + 1) as real * (full - start)
  {
    var span, p := full - start, Ratio(temp - start, full - start);
    RatioIsRoundedDown(temp - start, span);
    hide Ratio;
    var next := (p + 1) as real * span;
    var room := next - (temp - start) * 100.0;
    bound := if room / 200.0 < (full - temp) / 2.0 then room / 200.0 else (full - temp) / 2.0;
    StillRoom(temp - start, next, bound);
    assert temp + bound - start == (temp - start) + bound;
  }

  lemma StillRoom(part: real, next: real, bound: real)
    requires part * 100.0 < next && bound <= (next - part * 100.0) / 200.0
    ensures (part + bound) * 100.0 < next
  {
  }

  lemma SamePercent(cfg: Config, temp: real, hotter: real)
    requires cfg.throttleStart as real <= temp <= hotter < cfg.throttleFull as real
    requires var start, full := cfg.throttleStart as real, cfg.throttleFull as real;
      (hotter - start) * 100.0 < (Ratio(temp - start, full - start) + 1) as real * (full - start)
    ensures ThrottlePct(cfg, hotter) == ThrottlePct(cfg, temp)
  {
    var start, full := cfg.throttleStart as real, cfg.throttleFull as real;
    RatioAtStart(full - start);
    SameRatio(temp - start, hotter - start, full - start);
    hide Ratio;
  }

  /** Slightly hotter samples have the same target: the percentage is rounded down. */
  lemma SameTargetAbove(cfg: Config, temp: real) returns (bound: real)
    requires cfg.throttleStart < cfg.throttleFull
    ensures bound > 0.0 && forall hotter :: temp <= hotter <= temp + bound ==> TargetFreq(cfg, hotter) == TargetFreq(cfg, temp)
  {
    var start, full := cfg.throttleStart as real, cfg.throttleFull as real;
    hide FreqAt, Ratio;
    if temp >= full {
      bound := 1.0;
    } else if temp < start {
      bound := start - temp;
    } else {
      bound := RoomAbove(start, full, temp);
      hide ThrottlePct;
      forall hotter | temp <= hotter <= temp + bound ensures TargetFreq(cfg, hotter) == TargetFreq(cfg, temp) {
        SamePercent(cfg, temp, hotter);
      }
    }
  }

  /** In the end the targets on the way are the temperature's own, or, coming from below, at most 100 MHz above it. */
  lemma TargetsArrive(cfg: Config, ema: real, temp: real) returns (from: nat)
    requires cfg.throttleStart < cfg.throttleFull
    ensures forall n: nat :: n >= from ==>
      && TargetFreq(cfg, temp) <= TargetAfter(cfg, ema, temp, n) <= TargetFreq(cfg, temp) + 100000
      && (ema >= temp ==> TargetAfter(cfg, ema, temp, n) == TargetFreq(cfg, temp))
  {
    hide TargetFreq, GapAfter;
    if ema >= temp {
      var bound := SameTargetAbove(cfg, temp);
      from := GapVanishes(ema - temp, bound);
      forall n: nat | n >= from ensures TargetAfter(cfg, ema, temp, n) == TargetFreq(cfg, temp) {
        GapStaysBetween(ema - temp, n);
        assert temp <= AverageAfter(ema, temp, n) <= temp + bound;
      }
    } else {
      var bound := (cfg.throttleFull - cfg.throttleStart) as real / 100.0;
      from := GapVanishes(ema - temp, bound);
      forall n: nat | n >= from
        ensures TargetFreq(cfg, temp) <= TargetAfter(cfg, ema, temp, n) <= TargetFreq(cfg, temp) + 100000
      {
        GapStaysBetween(ema - temp, n);
        TargetIsNear(cfg, AverageAfter(ema, temp, n), temp);
      }
    }
  }

  // ---------------------------------------------------------------- runs

  /** No emergency is on or comes on along the run, and every sample lies past the cooldown. */
  ghost predicate Throttling(cfg: Config, s: State, events: seq<Event>)
    decreases |events|
  {
    && s.alive && !s.emergency
    && (events != [] ==>
          && events[0].TickEvent? && events[0].input.now - s.lastResume >= cfg.cooldown as real
          && Throttling(cfg, Next(cfg, s, events[0]), events[1..]))
  }

  lemma OneSteadySample(cfg: Config, s: State, i: Input, temp: real)
    requires WritesInv(s) && s.alive && !s.emergency && !Next(cfg, s, TickEvent(i)).emergency
    requires i.temp == Some(temp) && i.now - s.lastResume >= cfg.cooldown as real
    ensures var t := Next(cfg, s, TickEvent(i));
      && WritesInv(t) && t.ema.Some? && t.ema.value == (if s.ema.None? then temp else AverageAfter(s.ema.value, temp, 1))
      && t.lastWritten == Written(s.lastWritten, TargetFreq(cfg, t.ema.value))
  {
    var t := Next(cfg, s, TickEvent(i));
    SampleIsAnswered(cfg, s, i);
    NextKeepsWrites(cfg, s, TickEvent(i));
    TargetFallsWithHeat(cfg, t.ema.value, t.ema.value);
    AnswerIsWritten(s, t, TargetFreq(cfg, t.ema.value));
    if s.ema.Some? {
      FirstAverage(s.ema.value, temp);
    }
    hide *;
  }

  lemma FirstAverage(ema: real, temp: real)
    ensures AverageAfter(ema, temp, 1) == 0.4 * temp + 0.6 * ema
  {
    assert GapAfter(ema - temp, 1) == GapAfter(0.6 * (ema - temp), 0);
  }

  lemma AnswerIsWritten(s: State, t: State, target: int)
    requires WritesInv(s) && s.alive && WritesInv(t) && t.alive && InRange(target)
    requires if s.writes == [] then t.writes == [Write(target, Initial)] && t.lastWritten == target
             else if Abs(target - s.lastWritten) < 300000 then t.writes == s.writes && t.lastWritten == s.lastWritten
             else t.writes == s.writes + [Write(t.lastWritten, Stepped)] && StepsTowards(s.lastWritten, target, t.lastWritten)
    ensures t.lastWritten == Written(s.lastWritten, target)
  {
    LastIsWritten(s);
    LastIsWritten(t);
    hide WritesInv;
  }

  lemma {:induction false} RunFollows(cfg: Config, s: State, events: seq<Event>, temp: real)
    requires WritesInv(s) && s.ema.Some? && Steady(events, temp) && Throttling(cfg, s, events)
    ensures var t := Run(cfg, s, events);
      && t.ema == Some(AverageAfter(s.ema.value, temp, |events|))
      && t.lastWritten == Follow(cfg, s.lastWritten, s.ema.value, temp, |events|)
    decreases |events|
  {
    hide *;
    if events == [] {
      NothingFollows(cfg, s, events, temp);
    } else {
      var t := Next(cfg, s, events[0]);
      SteadyRest(cfg, s, events, temp);
      OneSteadySample(cfg, s, events[0].input, temp);
      RunFollows(cfg, t, events[1..], temp);
      RunIsFirstThenRest(cfg, s, events);
      FirstFollow(cfg, s.lastWritten, s.ema.value, temp);
      FollowAdds(cfg, s.lastWritten, s.ema.value, temp, 1, |events| - 1);
      AverageAdds(s.ema.value, temp, 1, |events| - 1);
    }
  }

  lemma NothingFollows(cfg: Config, s: State, events: seq<Event>, temp: real)
    requires s.ema.Some? && events == []
    ensures Run(cfg, s, events) == s && AverageAfter(s.ema.value, temp, 0) == s.ema.value
    ensures Follow(cfg, s.lastWritten, s.ema.value, temp, 0) == s.lastWritten
  {
  }

  lemma SteadyRest(cfg: Config, s: State, events: seq<Event>, temp: real)
    requires events != [] && Steady(events, temp) && Throttling(cfg, s, events)
    ensures Steady(events[1..], temp) && Throttling(cfg, Next(cfg, s, events[0]), events[1..])
    ensures s.alive && !s.emergency && events[0].TickEvent? && events[0].input.temp == Some(temp)
    ensures events[0].input.now - s.lastResume >= cfg.cooldown as real && !Next(cfg, s, events[0]).emergency
  {
    hide Next;
    assert Throttling(cfg, Next(cfg, s, events[0]), events[1..]);
    assert forall k :: 0 <= k < |events[1..]| ==> events[1..][k] == events[k + 1];
  }

  lemma AverageAdds(ema: real, temp: real, a: nat, b: nat)
    ensures AverageAfter(ema, temp, a + b) == AverageAfter(AverageAfter(ema, temp, a), temp, b)
  {
    GapAdds(ema - temp, a, b);
    hide GapAfter;
  }

  lemma FirstFollow(cfg: Config, last: int, ema: real, temp: real)
    ensures Follow(cfg, last, ema, temp, 1) == Written(last, TargetFreq(cfg, AverageAfter(ema, temp, 1)))
  {
    hide Written, TargetFreq, AverageAfter;
    assert Follow(cfg, last, ema, temp, 0) == last;
  }

  /** What a run is settled by: the last write is close to the target of its own average, and, on a rising curve, close to
      that of the steady temperature; as close as the write threshold unless the average came from below. */
  predicate WellSettled(cfg: Config, t: State, temp: real, fromAbove: bool) {
    && t.ema.Some? && Abs(t.lastWritten - TargetFreq(cfg, t.ema.value)) < 300000
    && (cfg.throttleStart < cfg.throttleFull ==>
          && Abs(t.lastWritten - TargetFreq(cfg, temp)) < 300000 + 100000
          && (fromAbove ==> Abs(t.lastWritten - TargetFreq(cfg, temp)) < 300000))
  }

  /** Under a steady temperature and without an emergency the governor settles: from some number of samples on, which
      depends on nothing but the state at the start, the last write is and stays where it should be. */
  lemma SteadyTemperatureSettles(cfg: Config, s: State, temp: real) returns (from: nat)
    requires WritesInv(s) && s.alive
    ensures forall events: seq<Event> :: |events| >= from && Steady(events, temp) && Throttling(cfg, s, events) ==>
      WellSettled(cfg, Run(cfg, s, events), temp, s.ema.None? || s.ema.value >= temp)
  {
    hide *;
    // After the first sample there is an average and a write.
    var first := if s.ema.None? then temp else AverageAfter(s.ema.value, temp, 1);
    var last := Written(s.lastWritten, TargetFreq(cfg, first));
    FirstWriteInRange(cfg, s, first);
    var rest := FollowWellSettled(cfg, last, first, temp);
    from := 1 + rest;
    forall events: seq<Event> | |events| >= from && Steady(events, temp) && Throttling(cfg, s, events)
      ensures WellSettled(cfg, Run(cfg, s, events), temp, s.ema.None? || s.ema.value >= temp)
    {
      SteadyRest(cfg, s, events, temp);
      OneSteadySample(cfg, s, events[0].input, temp);
      RunFollows(cfg, Next(cfg, s, events[0]), events[1..], temp);
      RunIsFirstThenRest(cfg, s, events);
      FirstKeepsSide(s.ema, temp, first);
      EndsWellSettled(cfg, Run(cfg, s, events), last, first, temp, |events| - 1, s.ema.None? || s.ema.value >= temp);
    }
  }

  lemma RunIsFirstThenRest(cfg: Config, s: State, events: seq<Event>)
    requires events != []
    ensures Run(cfg, s, events) == Run(cfg, Next(cfg, s, events[0]), events[1..])
  {
    hide Next;
  }

  lemma FirstWriteInRange(cfg: Config, s: State, first: real)
    requires WritesInv(s) && s.alive
    ensures InRange(Written(s.lastWritten, TargetFreq(cfg, first)))
  {
    LastIsWritten(s);
    TargetFallsWithHeat(cfg, first, first);
    hide TargetFreq, WritesInv;
    WrittenInRange(s.lastWritten, TargetFreq(cfg, first));
  }

  lemma FirstKeepsSide(ema: Option<real>, temp: real, first: real)
    requires first == if ema.None? then temp else AverageAfter(ema.value, temp, 1)
    ensures ema.None? || ema.value >= temp ==> first >= temp
  {
    if ema.Some? {
      FirstAverage(ema.value, temp);
    }
  }

  /** The same for the recurrence. */
  predicate FollowsWell(cfg: Config, last: int, ema: real, temp: real, n: nat) {
    && Settled(cfg, last, ema, temp, n)
    && (cfg.throttleStart < cfg.throttleFull ==>
          && TargetFreq(cfg, temp) <= TargetAfter(cfg, ema, temp, n) <= TargetFreq(cfg, temp) + 100000
          && (ema >= temp ==> TargetAfter(cfg, ema, temp, n) == TargetFreq(cfg, temp)))
  }

  lemma FollowWellSettled(cfg: Config, last: int, ema: real, temp: real) returns (from: nat)
    requires InRange(last)
    ensures forall n: nat :: n >= from ==> FollowsWell(cfg, last, ema, temp, n)
  {
    hide Settled, TargetFreq, TargetAfter, InRange;
    from := FollowingSettles(cfg, last, ema, temp);
    if cfg.throttleStart < cfg.throttleFull {
      var arrived := TargetsArrive(cfg, ema, temp);
      from := if arrived > from then arrived else from;
    }
  }

  lemma EndsWellSettled(cfg: Config, t: State, last: int, ema: real, temp: real, n: nat, fromAbove: bool)
    requires FollowsWell(cfg, last, ema, temp, n) && (fromAbove ==> ema >= temp)
    requires t.ema == Some(AverageAfter(ema, temp, n)) && t.lastWritten == Follow(cfg, last, ema, temp, n)
    ensures WellSettled(cfg, t, temp, fromAbove)
  {
    hide TargetFreq, Follow, AverageAfter;
  }

  // ---------------------------------------------------------------- the margin is needed

  /** A temperature at which the target steps down; coming from below, the average never reaches it. */
  const JUMP := 82.95

  lemma {:induction false} GapStaysNegative(gap: real, n: nat)
    requires gap < 0.0
    ensures GapAfter(gap, n) < 0.0
    decreases n
  {
    if n > 0 {
      GapStaysNegative(0.6 * gap, n - 1);
    }
  }

  lemma TargetsNearTheJump(average: real)
    requires 82.05 <= average < JUMP
    ensures 2800000 <= TargetFreq(DEFAULTS, average) <= 3000000 && TargetFreq(DEFAULTS, JUMP) == 2700000
  {
    RatioIsRoundedDown(average - 75.0, 15.0);
    RatioIsRoundedDown(JUMP - 75.0, 15.0);
    var pct := Ratio(average - 75.0, 15.0);
    assert pct < 53 && pct >= 47;
    assert Ratio(JUMP - 75.0, 15.0) == 53;
    hide Ratio;
    FreqFalls(pct, 52);
    FreqFalls(47, pct);
    assert FreqAt(52) == 2800000 && FreqAt(47) == 3000000 && FreqAt(53) == 2700000;
  }

  lemma {:induction false} StaysAboveTheJump(n: nat)
    ensures Follow(DEFAULTS, 3000000, 82.05, JUMP, n) == 3000000
  {
    if n > 0 {
      StaysAboveTheJump(n - 1);
      GapStaysNegative(82.05 - JUMP, n);
      GapStaysBetween(82.05 - JUMP, n);
      hide TargetFreq, GapAfter;
      TargetsNearTheJump(AverageAfter(82.05, JUMP, n));
    }
  }

  /** At a written 3.0 GHz and an average of 82.05 degrees, 82.95 degrees for however long change nothing, although their
      target is 300 MHz away. */
  lemma TargetIsMissedFromBelow(s: State, events: seq<Event>)
    requires WritesInv(s) && s.ema == Some(82.05) && s.lastWritten == 3000000
    requires Steady(events, JUMP) && Throttling(DEFAULTS, s, events)
    ensures Run(DEFAULTS, s, events).lastWritten == 3000000 && TargetFreq(DEFAULTS, JUMP) == 2700000
  {
    hide *;
    Jumps();
    RunFollows(DEFAULTS, s, events, JUMP);
    StaysAboveTheJump(|events|);
    TargetsNearTheJump(82.05);
  }

  lemma Jumps()
    ensures JUMP == 82.95 && FREQ_WRITE_THRESHOLD == 300000
  {
  }
}
