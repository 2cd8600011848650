/**
 The memory controller (BRAIN-DAEMON/memory/controller.py): which model is evicted, how far one call goes,
 when a tick starts evicting, and the check before a model is loaded.  Readings of the system are arbitrary
 inputs; sizes and times are reals; each call runs without interruption.
 */
module EvictionSpec {

  type ModelId = string

  datatype Instance = Instance(
    id: ModelId,
    running: bool,
    thermalStopped: bool,
    guarded: bool,
    lastInference: real,
    promptPct: int,
    vramDelta: real,
    ramDelta: real,
    ramEstimated: real,
    ramRss: real)

  /** `ram_delta_mb or ram_estimated_mb or ram_rss_mb` */
  function Footprint(i: Instance): real {
    if i.ramDelta != 0.0 then i.ramDelta else if i.ramEstimated != 0.0 then i.ramEstimated else i.ramRss
  }

  predicate Inferring(i: Instance, now: real) {
    now - i.lastInference < 5.0 && i.promptPct > 0
  }

  predicate Eligible(i: Instance, now: real) {
    i.running && !i.thermalStopped && !i.guarded && !Inferring(i, now)
  }

  /** The sort key puts `a` strictly before `b`: more memory first, then the longer unused. */
  predicate Before(a: Instance, b: Instance) {
    Footprint(a) > Footprint(b) || (Footprint(a) == Footprint(b) && a.lastInference < b.lastInference)
  }

  /** `k` is the first, in table order, of the eligible instances that no eligible one comes before. */
  predicate IsCandidate(table: seq<Instance>, now: real, k: nat) {
    && k < |table| && Eligible(table[k], now)
    && (forall j :: 0 <= j < |table| && Eligible(table[j], now) ==> !Before(table[j], table[k]))
    && (forall j :: 0 <= j < k && Eligible(table[j], now) ==> Before(table[k], table[j]))
  }

  lemma CandidateIsUnique(table: seq<Instance>, now: real, k: nat, l: nat)
    requires IsCandidate(table, now, k) && IsCandidate(table, now, l)
    ensures k == l
  {
  }

  // The same in terms of what an instance reports.

  /** Nothing protects the model: it runs, and it is not stopped, guarded or answering a prompt. */
  predicate MayGo(i: Instance, now: real) {
    i.running && !i.thermalStopped && !i.guarded && (now - i.lastInference >= 5.0 || i.promptPct <= 0)
  }

  /** The memory a model is known by: measured, else estimated, else resident. */
  predicate Occupies(i: Instance, mb: real) {
    || (i.ramDelta != 0.0 && mb == i.ramDelta)
    || (i.ramDelta == 0.0 && i.ramEstimated != 0.0 && mb == i.ramEstimated)
    || (i.ramDelta == 0.0 && i.ramEstimated == 0.0 && mb == i.ramRss)
  }

  /** `a`, of memory `x`, goes before `b`, of memory `y`: it has more, or as much and has been unused for longer. */
  predicate GoesBefore(a: Instance, x: real, b: Instance, y: real) {
    x > y || (x == y && a.lastInference < b.lastInference)
  }

  /** The candidate may go; none that may go has more memory, or as much and is longer unused, and with both equal it is the
      first of the table. */
  lemma CandidateIsHeaviest(table: seq<Instance>, now: real, k: nat, j: nat, x: real, y: real)
    requires IsCandidate(table, now, k) && j < |table| && MayGo(table[j], now)
    requires Occupies(table[k], x) && Occupies(table[j], y)
    ensures MayGo(table[k], now) && !GoesBefore(table[j], y, table[k], x)
    ensures j < k ==> GoesBefore(table[k], x, table[j], y)
  {
  }

  /** There is a candidate exactly when some model may go. */
  lemma SomebodyMayGo(table: seq<Instance>, now: real)
    ensures NothingEligible(table, now) <==> forall j :: 0 <= j < |table| ==> !MayGo(table[j], now)
  {
    assert forall i: Instance :: Eligible(i, now) <==> MayGo(i, now);
    hide Eligible, MayGo;
  }

  predicate NothingEligible(table: seq<Instance>, now: real) {
    forall j :: 0 <= j < |table| ==> !Eligible(table[j], now)
  }

  function Unload(table: seq<Instance>, k: nat): seq<Instance>
    requires k < |table|
  {
    table[..k] + table[k + 1..]
  }

  /** One round of an eviction call: the clock when the candidate is chosen and the RAM percentage read afterwards. */
  datatype Round = Round(now: real, ram: real)

  const MAX_ROUNDS: nat := 5

  /** The candidate of the moment goes, the rest of the table stays as it is. */
  ghost predicate Evicted(before: seq<Instance>, now: real, victim: Instance, after: seq<Instance>) {
    exists k: nat :: IsCandidate(before, now, k) && before[k] == victim && after == Unload(before, k)
  }

  /**
   A call so far: `tables[n]` is the table before victim `n` went, and a further round followed only a reading
   still at the threshold or above.
   */
  ghost predicate EvictionRun(tables: seq<seq<Instance>>, victims: seq<Instance>, rounds: seq<Round>, threshold: real) {
    && |tables| == |victims| + 1 && |victims| <= MAX_ROUNDS < |rounds|
    && (forall n :: 0 <= n < |victims| ==> Evicted(tables[n], rounds[n].now, victims[n], tables[n + 1]))
    && (forall n :: 0 <= n < |victims| - 1 ==> rounds[n].ram >= threshold)
  }

  /** Why a call ends: five rounds, a reading below the threshold, or nobody left to choose. */
  predicate Finished(tables: seq<seq<Instance>>, victims: seq<Instance>, rounds: seq<Round>, threshold: real)
    requires |tables| == |victims| + 1 && |victims| <= MAX_ROUNDS < |rounds|
  {
    || |victims| == MAX_ROUNDS
    || (victims != [] && rounds[|victims| - 1].ram < threshold)
    || NothingEligible(tables[|victims|], rounds[|victims|].now)
  }

  /** A whole call takes `table` to `rest`, evicting `victims`. */
  ghost predicate Evicts(table: seq<Instance>, rounds: seq<Round>, threshold: real, victims: seq<Instance>,
                         rest: seq<Instance>) {
    exists tables :: EvictionRun(tables, victims, rounds, threshold) && Finished(tables, victims, rounds, threshold)
                     && tables[0] == table && tables[|victims|] == rest
  }

  lemma NoRounds(table: seq<Instance>, rounds: seq<Round>, threshold: real)
    requires |rounds| > MAX_ROUNDS
    ensures EvictionRun([table], [], rounds, threshold)
  {
  }

  lemma OneMoreRound(tables: seq<seq<Instance>>, victims: seq<Instance>, rounds: seq<Round>, threshold: real,
                     victim: Instance, after: seq<Instance>)
    requires EvictionRun(tables, victims, rounds, threshold) && |victims| < MAX_ROUNDS
    requires victims != [] ==> rounds[|victims| - 1].ram >= threshold
    requires Evicted(tables[|victims|], rounds[|victims|].now, victim, after)
    ensures EvictionRun(tables + [after], victims + [victim], rounds, threshold)
  {
    hide Evicted;
  }

  lemma RunIsOver(tables: seq<seq<Instance>>, victims: seq<Instance>, rounds: seq<Round>, threshold: real)
    requires EvictionRun(tables, victims, rounds, threshold) && Finished(tables, victims, rounds, threshold)
    ensures Evicts(tables[0], rounds, threshold, victims, tables[|victims|])
  {
    hide EvictionRun, Finished;
  }

  lemma IsEvicted(before: seq<Instance>, now: real, k: nat)
    requires IsCandidate(before, now, k)
    ensures Evicted(before, now, before[k], Unload(before, k))
  {
    hide IsCandidate;
  }

  // ---------------------------------------------------------------- consequences

  lemma UnloadCounts(table: seq<Instance>, k: nat)
    requires k < |table|
    ensures multiset(Unload(table, k)) + multiset{table[k]} == multiset(table)
  {
    assert table == table[..k] + [table[k]] + table[k + 1..];
  }

  lemma EvictedConserves(before: seq<Instance>, now: real, victim: Instance, after: seq<Instance>)
    requires Evicted(before, now, victim, after)
    ensures multiset(after) + multiset{victim} == multiset(before)
    ensures Freeable(after) + Counted(victim) == Freeable(before)
  {
    hide IsCandidate, Freeable, Counted;
    var k := ChosenIndex(before, now, victim, after);
    UnloadCounts(before, k);
    FreeableWithout(before, k);
  }

  lemma ChosenIndex(before: seq<Instance>, now: real, victim: Instance, after: seq<Instance>) returns (k: nat)
    requires Evicted(before, now, victim, after)
    ensures k < |before| && before[k] == victim && after == Unload(before, k)
  {
    k :| IsCandidate(before, now, k) && before[k] == victim && after == Unload(before, k);
  }

  lemma {:induction false} RunConserves(tables: seq<seq<Instance>>, victims: seq<Instance>, rounds: seq<Round>,
                                        threshold: real, n: nat)
    requires EvictionRun(tables, victims, rounds, threshold) && n <= |victims|
    ensures multiset(tables[n]) + multiset(victims[..n]) == multiset(tables[0])
    ensures Freeable(tables[n]) + TotalShare(victims[..n]) == Freeable(tables[0])
    decreases n
  {
    hide Evicted, Freeable, Counted;
    if n > 0 {
      RunConserves(tables, victims, rounds, threshold, n - 1);
      assert tables[(n - 1) + 1] == tables[n];
      EvictedConserves(tables[n - 1], rounds[n - 1].now, victims[n - 1], tables[n]);
      assert victims[..n][..n - 1] == victims[..n - 1] && victims[..n] == victims[..n - 1] + [victims[n - 1]];
    }
  }

  /** At most five models go, each eligible when chosen; the victims and the rest are exactly the table, and what could
      have been freed is what was freed and what still could be. */
  lemma EvictionIsBounded(table: seq<Instance>, rounds: seq<Round>, threshold: real, victims: seq<Instance>,
                          rest: seq<Instance>)
    requires Evicts(table, rounds, threshold, victims, rest)
    ensures |victims| <= MAX_ROUNDS < |rounds|
    ensures forall n :: 0 <= n < |victims| ==> MayGo(victims[n], rounds[n].now)
    ensures multiset(rest) + multiset(victims) == multiset(table)
    ensures Freeable(table) == TotalShare(victims) + Freeable(rest)
  {
    var tables :| EvictionRun(tables, victims, rounds, threshold) && Finished(tables, victims, rounds, threshold)
                  && tables[0] == table && tables[|victims|] == rest;
    RunConserves(tables, victims, rounds, threshold, |victims|);
    assert victims[..|victims|] == victims;
    forall n | 0 <= n < |victims| ensures MayGo(victims[n], rounds[n].now) {
      assert Evicted(tables[n], rounds[n].now, victims[n], tables[n + 1]);
    }
  }

  /** A model that is guarded, stopped by the governor, not running or in the middle of an inference is still there. */
  lemma ProtectedModelsStay(table: seq<Instance>, rounds: seq<Round>, threshold: real, victims: seq<Instance>,
                            rest: seq<Instance>, i: Instance)
    requires Evicts(table, rounds, threshold, victims, rest)
    requires i in table && forall n :: 0 <= n < |rounds| ==> !MayGo(i, rounds[n].now)
    ensures i in rest && i !in victims
  {
    EvictionIsBounded(table, rounds, threshold, victims, rest);
    assert i in multiset(table);
    assert i in multiset(victims) ==> i in victims;
    assert i in multiset(rest);
  }

  /** Every victim was the heaviest of its round: no model that stays and might have gone then comes before it. */
  lemma HeaviestGoFirst(table: seq<Instance>, rounds: seq<Round>, threshold: real, victims: seq<Instance>,
                        rest: seq<Instance>, n: nat, i: Instance, x: real, y: real)
    requires Evicts(table, rounds, threshold, victims, rest) && n < |victims|
    requires i in rest && MayGo(i, rounds[n].now) && Occupies(victims[n], x) && Occupies(i, y)
    ensures !GoesBefore(i, y, victims[n], x)
  {
    var tables :| EvictionRun(tables, victims, rounds, threshold) && Finished(tables, victims, rounds, threshold)
                  && tables[0] == table && tables[|victims|] == rest;
    RestWasThere(tables, victims, rounds, threshold, n, |victims|, i);
    hide Finished, MayGo, Occupies, GoesBefore;
    assert Evicted(tables[n], rounds[n].now, victims[n], tables[n + 1]);
    hide IsCandidate;
    var k: nat :| IsCandidate(tables[n], rounds[n].now, k) && tables[n][k] == victims[n];
    var j :| 0 <= j < |tables[n]| && tables[n][j] == i;
    InTable(tables[n], rounds[n].now, k);
    CandidateIsHeaviest(tables[n], rounds[n].now, k, j, x, y);
  }

  lemma InTable(table: seq<Instance>, now: real, k: nat)
    requires IsCandidate(table, now, k)
    ensures k < |table|
  {
  }

  lemma {:induction false} RestWasThere(tables: seq<seq<Instance>>, victims: seq<Instance>, rounds: seq<Round>,
                                        threshold: real, n: nat, m: nat, i: Instance)
    requires EvictionRun(tables, victims, rounds, threshold) && n <= m <= |victims| && i in tables[m]
    ensures i in tables[n]
    decreases m
  {
    hide Evicted, IsCandidate;
    if n < m {
      assert Evicted(tables[m - 1], rounds[m - 1].now, victims[m - 1], tables[m - 1 + 1]);
      var k := ChosenIndex(tables[m - 1], rounds[m - 1].now, victims[m - 1], tables[m]);
      StaysIn(tables[m - 1], k, i);
      RestWasThere(tables, victims, rounds, threshold, n, m - 1, i);
    }
  }

  lemma StaysIn(table: seq<Instance>, k: nat, i: Instance)
    requires k < |table| && i in Unload(table, k)
    ensures i in table
  {
    var j :| 0 <= j < |Unload(table, k)| && Unload(table, k)[j] == i;
    assert table[if j < k then j else j + 1] == i;
  }

  /** A call goes on while it has a reason to: unless five have gone or the last reading is below the threshold, no model
      that is left may go; and every earlier reading was at the threshold or above. */
  lemma EvictionGoesOn(table: seq<Instance>, rounds: seq<Round>, threshold: real, victims: seq<Instance>,
                       rest: seq<Instance>)
    requires Evicts(table, rounds, threshold, victims, rest)
    ensures |rounds| > 5 >= |victims|
    ensures forall n :: 0 <= n < |victims| - 1 ==> rounds[n].ram >= threshold
    ensures |victims| < 5 && (victims == [] || rounds[|victims| - 1].ram >= threshold) ==>
      forall j :: 0 <= j < |rest| ==> !MayGo(rest[j], rounds[|victims|].now)
  {
    var tables :| EvictionRun(tables, victims, rounds, threshold) && Finished(tables, victims, rounds, threshold)
                  && tables[0] == table && tables[|victims|] == rest;
    SomebodyMayGo(rest, rounds[|victims|].now);
    hide NothingEligible, Evicted, MayGo;
  }

  /** A model that may be unloaded counts with its VRAM and the memory it is known by, any other with nothing. */
  lemma WhatCounts(i: Instance, mb: real)
    requires Occupies(i, mb)
    ensures Counted(i) == if !i.running || i.guarded || i.thermalStopped then 0.0 else i.vramDelta + mb
  {
  }

  // ---------------------------------------------------------------- the pressure timer of a tick

  /** One tick: its time, whether swap and RAM were both over, and whether it evicted. */
  datatype Record = Record(now: real, over: bool, evicted: bool)

  datatype State = State(swapSince: real, ramSince: real, records: seq<Record>)

  datatype Limits = Limits(ramEvict: real, swapFlush: real, swapHold: real)

  const SWAP_FULL: real := 90.0
  const PRESSURE_HOLD: real := 30.0

  /** What a tick reads: RAM, swap, and the swap percentage read again after a flush. */
  datatype Input = Input(now: real, ramPct: real, ramAvailable: real, swapPct: real, swapUsed: real, swapAfter: real)

  predicate SwapDue(l: Limits, s: State, i: Input) {
    i.swapPct >= l.swapFlush && i.now - (if s.swapSince == 0.0 then i.now else s.swapSince) >= l.swapHold
  }

  /** The swap percentage the eviction gate looks at. */
  function GateSwap(l: Limits, s: State, i: Input): real {
    if SwapDue(l, s, i) && i.ramAvailable > i.swapUsed * 1.2 then i.swapAfter else i.swapPct
  }

  predicate Over(l: Limits, s: State, i: Input) {
    GateSwap(l, s, i) >= SWAP_FULL && i.ramPct >= l.ramEvict
  }

  function SwapTimer(l: Limits, s: State, i: Input): real {
    if i.swapPct >= l.swapFlush && !SwapDue(l, s, i) then (if s.swapSince == 0.0 then i.now else s.swapSince) else 0.0
  }

  function Tick(l: Limits, s: State, i: Input): State {
    var over := Over(l, s, i);
    var since := if s.ramSince == 0.0 then i.now else s.ramSince;
    var evict := over && i.now - since >= PRESSURE_HOLD;
    State(SwapTimer(l, s, i), if over && !evict then since else 0.0, s.records + [Record(i.now, over, evict)])
  }

  function Run(l: Limits, s: State, inputs: seq<Input>): State
    decreases |inputs|
  {
    if inputs == [] then s else Run(l, Tick(l, s, inputs[0]), inputs[1..])
  }

  /** Ticks `k` to `n` were all over, none before `n` evicted, and the stretch is maximal to the left. */
  predicate Stretch(records: seq<Record>, k: nat, n: nat) {
    && k <= n < |records|
    && (forall j :: k <= j <= n ==> records[j].over)
    && (forall j :: k <= j < n ==> !records[j].evicted)
    && (k > 0 ==> !records[k - 1].over || records[k - 1].evicted)
  }

  /** A tick evicts exactly when the stretch of pressure it ends has lasted the hold time. */
  ghost predicate EvictsOnTime(records: seq<Record>, n: nat)
    requires n < |records|
  {
    records[n].evicted <==> exists k: nat :: Stretch(records, k, n) && records[n].now - records[k].now >= PRESSURE_HOLD
  }

  ghost predicate TimerInv(s: State) {
    var last := |s.records| - 1;
    && (forall n :: 0 <= n < |s.records| ==> EvictsOnTime(s.records, n))
    && (if s.ramSince == 0.0 then s.records == [] || !s.records[last].over || s.records[last].evicted
        else s.records != [] && !s.records[last].evicted &&
             exists k: nat :: Stretch(s.records, k, last) && s.records[k].now == s.ramSince)
  }

  lemma StretchSurvives(records: seq<Record>, r: Record, k: nat, n: nat)
    requires n < |records|
    ensures Stretch(records + [r], k, n) <==> Stretch(records, k, n)
  {
    var longer := records + [r];
    assert forall j :: 0 <= j < |records| ==> longer[j] == records[j];
  }

  lemma EvictsOnTimeGrows(records: seq<Record>, r: Record)
    requires forall n :: 0 <= n < |records| ==> EvictsOnTime(records, n)
    ensures forall n :: 0 <= n < |records| ==> EvictsOnTime(records + [r], n)
  {
    var longer := records + [r];
    forall n | 0 <= n < |records| ensures EvictsOnTime(longer, n) {
      assert EvictsOnTime(records, n);
      forall k: nat ensures Stretch(longer, k, n) <==> Stretch(records, k, n) {
        StretchSurvives(records, r, k, n);
      }
      assert longer[n] == records[n] && forall k: nat :: k <= n ==> longer[k] == records[k];
      hide Stretch;
    }
  }

  /** The stretch that record `n` ends starts at `k`. */
  lemma EvictsWithStretch(records: seq<Record>, k: nat, n: nat)
    requires Stretch(records, k, n)
    requires records[n].evicted <==> records[n].now - records[k].now >= PRESSURE_HOLD
    ensures EvictsOnTime(records, n)
  {
    assert forall l: nat :: Stretch(records, l, n) ==> l == k;
  }

  lemma TickKeepsTimer(l: Limits, s: State, i: Input)
    requires TimerInv(s) && i.now > 0.0
    ensures TimerInv(Tick(l, s, i))
  {
    hide SwapTimer, Over;
    var t := Tick(l, s, i);
    var n := |s.records|;
    EvictsOnTimeGrows(s.records, t.records[n]);
    if Over(l, s, i) {
      var k: nat := n;
      if s.ramSince == 0.0 {
        assert Stretch(t.records, n, n);
      } else {
        k :| Stretch(s.records, k, n - 1) && s.records[k].now == s.ramSince;
        assert Stretch(t.records, k, n);
      }
      EvictsWithStretch(t.records, k, n);
      assert t.records[k].now == if s.ramSince == 0.0 then i.now else s.ramSince;
      hide Stretch, EvictsOnTime;
    } else {
      assert EvictsOnTime(t.records, n) by {
        assert !t.records[n].over;
      }
      hide Stretch, EvictsOnTime;
    }
  }

  /** In every run a tick evicts if and only if swap and RAM have both been over on every tick for at least thirty
      seconds, counted from the start of the pressure or from the last eviction. */
  lemma {:induction false} EvictionNeedsSustainedPressure(l: Limits, s: State, inputs: seq<Input>)
    requires TimerInv(s) && forall k :: 0 <= k < |inputs| ==> inputs[k].now > 0.0
    ensures TimerInv(Run(l, s, inputs))
    decreases |inputs|
  {
    hide Tick, TimerInv;
    if inputs != [] {
      TickKeepsTimer(l, s, inputs[0]);
      assert forall k :: 0 <= k < |inputs[1..]| ==> inputs[1..][k] == inputs[k + 1];
      EvictionNeedsSustainedPressure(l, Tick(l, s, inputs[0]), inputs[1..]);
    }
  }

  // ---------------------------------------------------------------- the same in terms of the readings

  /** Ticks `k` to `n` read swap at the flush level, the first of them after a lower reading or a finished hold. */
  ghost predicate SwapHold(l: Limits, inputs: seq<Input>, k: nat, n: nat)
    decreases n, 0
  {
    && k <= n < |inputs|
    && (forall j :: k <= j <= n ==> inputs[j].swapPct >= l.swapFlush)
    && (forall j :: k <= j < n ==> !HoldOver(l, inputs, j))
    && (k > 0 ==> inputs[k - 1].swapPct < l.swapFlush || HoldOver(l, inputs, k - 1))
  }

  /** The swap hold ends with tick `n`. */
  ghost predicate HoldOver(l: Limits, inputs: seq<Input>, n: nat)
    decreases n, 1
  {
    n < |inputs| && exists k: nat :: k <= n && SwapHold(l, inputs, k, n) && inputs[n].now - inputs[k].now >= l.swapHold
  }

  /** Swap is nearly full, read again after a flush when the hold is over and RAM can absorb it, and RAM is over its limit. */
  ghost predicate Pressed(l: Limits, inputs: seq<Input>, n: nat)
    requires n < |inputs|
  {
    var i := inputs[n];
    && i.ramPct >= l.ramEvict
    && (if HoldOver(l, inputs, n) && i.ramAvailable > 1.2 * i.swapUsed then i.swapAfter >= 90.0 else i.swapPct >= 90.0)
  }

  /** Ticks `k` to `n` were all under pressure, the first of them after one that was not or that evicted. */
  ghost predicate Pressure(l: Limits, inputs: seq<Input>, k: nat, n: nat)
    decreases n, 0
  {
    && k <= n < |inputs|
    && (forall j :: k <= j <= n ==> Pressed(l, inputs, j))
    && (forall j :: k <= j < n ==> !EvictionDue(l, inputs, j))
    && (k > 0 ==> !Pressed(l, inputs, k - 1) || EvictionDue(l, inputs, k - 1))
  }

  /** Tick `n` ends thirty seconds of uninterrupted pressure. */
  ghost predicate EvictionDue(l: Limits, inputs: seq<Input>, n: nat)
    decreases n, 1
  {
    n < |inputs| && exists k: nat :: k <= n && Pressure(l, inputs, k, n) && inputs[n].now - inputs[k].now >= 30.0
  }

  /** The swap timer after the first `m` ticks. */
  ghost predicate SwapTracks(l: Limits, since: real, inputs: seq<Input>, m: nat)
    requires m <= |inputs|
  {
    if since == 0.0 then m == 0 || inputs[m - 1].swapPct < l.swapFlush || HoldOver(l, inputs, m - 1)
    else m > 0 && !HoldOver(l, inputs, m - 1) && exists k: nat :: SwapHold(l, inputs, k, m - 1) && inputs[k].now == since
  }

  lemma HoldStartIsUnique(l: Limits, inputs: seq<Input>, k: nat, j: nat, n: nat)
    requires SwapHold(l, inputs, k, n) && SwapHold(l, inputs, j, n)
    ensures k == j
  {
  }

  lemma HoldDecides(l: Limits, inputs: seq<Input>, k: nat, n: nat)
    requires SwapHold(l, inputs, k, n)
    ensures HoldOver(l, inputs, n) <==> inputs[n].now - inputs[k].now >= l.swapHold
  {
    if HoldOver(l, inputs, n) {
      var j: nat :| j <= n && SwapHold(l, inputs, j, n) && inputs[n].now - inputs[j].now >= l.swapHold;
      HoldStartIsUnique(l, inputs, k, j, n);
    }
  }

  lemma SwapTickTracks(l: Limits, s: State, inputs: seq<Input>, m: nat)
    requires m < |inputs| && SwapTracks(l, s.swapSince, inputs, m) && inputs[m].now > 0.0
    ensures SwapDue(l, s, inputs[m]) <==> HoldOver(l, inputs, m)
    ensures SwapTracks(l, SwapTimer(l, s, inputs[m]), inputs, m + 1)
  {
    var i := inputs[m];
    if i.swapPct >= l.swapFlush {
      var k := HoldNow(l, s.swapSince, inputs, m);
      HoldDecides(l, inputs, k, m);
      hide SwapHold, HoldOver;
      assert SwapHold(l, inputs, k, m);
    } else {
      NoHold(l, inputs, m);
      hide SwapHold, HoldOver;
    }
  }

  lemma HoldNow(l: Limits, since: real, inputs: seq<Input>, m: nat) returns (k: nat)
    requires m < |inputs| && SwapTracks(l, since, inputs, m) && inputs[m].swapPct >= l.swapFlush
    ensures k <= m && SwapHold(l, inputs, k, m)
    ensures inputs[k].now == if since == 0.0 then inputs[m].now else since
  {
    k := m;
    if since != 0.0 {
      k :| SwapHold(l, inputs, k, m - 1) && inputs[k].now == since;
    }
    hide HoldOver;
  }

  lemma NoHold(l: Limits, inputs: seq<Input>, m: nat)
    requires m < |inputs| && inputs[m].swapPct < l.swapFlush
    ensures !HoldOver(l, inputs, m)
  {
  }

  /** The records say of every tick so far whether it was under pressure. */
  ghost predicate RecordsTrack(l: Limits, s: State, inputs: seq<Input>, m: nat)
    requires m <= |inputs|
  {
    |s.records| == m && forall n :: 0 <= n < m ==> s.records[n].now == inputs[n].now && s.records[n].over == Pressed(l, inputs, n)
  }

  lemma TickTracks(l: Limits, s: State, inputs: seq<Input>, m: nat)
    requires m < |inputs| && inputs[m].now > 0.0
    requires SwapTracks(l, s.swapSince, inputs, m) && RecordsTrack(l, s, inputs, m)
    ensures var t := Tick(l, s, inputs[m]); SwapTracks(l, t.swapSince, inputs, m + 1) && RecordsTrack(l, t, inputs, m + 1)
  {
    SwapTickTracks(l, s, inputs, m);
    hide SwapTracks, SwapDue, SwapTimer, HoldOver;
  }

  lemma {:induction false} RunTracks(l: Limits, s: State, inputs: seq<Input>, m: nat)
    requires m <= |inputs| && forall k :: 0 <= k < |inputs| ==> inputs[k].now > 0.0
    requires SwapTracks(l, s.swapSince, inputs, m) && RecordsTrack(l, s, inputs, m)
    ensures RecordsTrack(l, Run(l, s, inputs[m..]), inputs, |inputs|)
    decreases |inputs| - m
  {
    hide SwapTracks, RecordsTrack, Tick;
    if m < |inputs| {
      TickTracks(l, s, inputs, m);
      RunTracks(l, Tick(l, s, inputs[m]), inputs, m + 1);
      assert inputs[m..][0] == inputs[m] && inputs[m..][1..] == inputs[m + 1..];
    }
  }

  /** What the timer promises of records is, tick by tick, what is due on the readings. */
  lemma {:induction false} DueAsRecorded(l: Limits, records: seq<Record>, inputs: seq<Input>, n: nat)
    requires n < |records| == |inputs| && forall m :: 0 <= m < |records| ==> EvictsOnTime(records, m)
    requires forall m :: 0 <= m < |records| ==> records[m].now == inputs[m].now && records[m].over == Pressed(l, inputs, m)
    ensures records[n].evicted <==> EvictionDue(l, inputs, n)
    decreases n
  {
    forall m | 0 <= m < n ensures records[m].evicted <==> EvictionDue(l, inputs, m) {
      DueAsRecorded(l, records, inputs, m);
    }
    forall k: nat ensures Stretch(records, k, n) <==> Pressure(l, inputs, k, n) {
      SameStretch(l, records, inputs, k, n);
    }
    assert EvictsOnTime(records, n);
    forall k: nat | Stretch(records, k, n) ensures k <= n {
      StretchBounds(records, k, n);
    }
    hide Stretch, Pressure, Pressed;
  }

  lemma StretchBounds(records: seq<Record>, k: nat, n: nat)
    requires Stretch(records, k, n)
    ensures k <= n < |records|
  {
  }

  lemma SameStretch(l: Limits, records: seq<Record>, inputs: seq<Input>, k: nat, n: nat)
    requires n < |records| == |inputs|
    requires forall m :: 0 <= m < |records| ==> records[m].over == Pressed(l, inputs, m)
    requires forall m :: 0 <= m < n ==> (records[m].evicted <==> EvictionDue(l, inputs, m))
    ensures Stretch(records, k, n) <==> Pressure(l, inputs, k, n)
  {
    hide Pressed, EvictionDue;
  }

  /** In every run from fresh timers a tick evicts if and only if the readings make an eviction due. */
  lemma EvictsExactlyWhenDue(l: Limits, inputs: seq<Input>, n: nat)
    requires n < |inputs| && forall k :: 0 <= k < |inputs| ==> inputs[k].now > 0.0
    ensures var records := Run(l, State(0.0, 0.0, []), inputs).records;
      |records| == |inputs| && (records[n].evicted <==> EvictionDue(l, inputs, n))
  {
    var start := State(0.0, 0.0, []);
    var t := Run(l, start, inputs);
    assert inputs[0..] == inputs;
    RunTracks(l, start, inputs, 0);
    EvictionNeedsSustainedPressure(l, start, inputs);
    hide Run, EvictsOnTime, Pressed;
    DueAsRecorded(l, t.records, inputs, n);
  }

  // ---------------------------------------------------------------- the check before a load

  /** What evicting could give back: every model it may ever unload, its VRAM and its RAM. */
  function Freeable(table: seq<Instance>): real {
    if table == [] then 0.0
    else Counted(table[0]) + Freeable(table[1..])
  }

  function Counted(i: Instance): real {
    if i.running && !i.guarded && !i.thermalStopped then i.vramDelta + Footprint(i) else 0.0
  }

  function TotalShare(victims: seq<Instance>): real {
    if victims == [] then 0.0 else TotalShare(victims[..|victims| - 1]) + Counted(victims[|victims| - 1])
  }

  lemma {:induction false} FreeableWithout(table: seq<Instance>, k: nat)
    requires k < |table|
    ensures Freeable(table) == Counted(table[k]) + Freeable(Unload(table, k))
    ensures Freeable([]) == 0.0 && TotalShare([]) == 0.0
    decreases |table|
  {
    hide Counted;
    if k == 0 {
      assert Unload(table, 0) == table[1..];
    } else {
      FreeableWithout(table[1..], k - 1);
      assert Unload(table, k)[1..] == Unload(table[1..], k - 1);
    }
  }

  /** Unified memory seen at one moment. */
  datatype Pools = Pools(ramAvailable: real, vramUsed: real)

  function Available(p: Pools, vramTotal: real): real {
    (if vramTotal > p.vramUsed then vramTotal - p.vramUsed else 0.0) + p.ramAvailable
  }

  function Tolerance(needed: real): real {
    if needed * 0.03 > 2048.0 then needed * 0.03 else 2048.0
  }

  datatype Verdict = Fits | FitsTightly | CannotFree | FitsAfterEviction | StillShort
}

/** The controller's methods. */
module MemoryController {
  import opened EvictionSpec
  import opened Helpers

  class Controller {
    var instances: seq<Instance>
    var limits: Limits
    var swapPressureSince: real
    var ramPressureSince: real
    ghost var records: seq<Record>

    ghost function Timers(): State
      reads this
    {
      State(swapPressureSince, ramPressureSince, records)
    }

    constructor (limits: Limits, instances: seq<Instance>)
      ensures this.limits == limits && this.instances == instances && TimerInv(Timers())
    {
      this.limits, this.instances := limits, instances;
      swapPressureSince, ramPressureSince, records := 0.0, 0.0, [];
    }

    /** `_select_candidate` */
    method SelectCandidate(now: real) returns (candidate: Option<nat>)
      ensures match candidate
        case None => NothingEligible(instances, now)
        case Some(k) => IsCandidate(instances, now, k)
    {
      candidate := None;
      for j := 0 to |instances|
        invariant candidate.None? ==> forall i :: 0 <= i < j ==> !Eligible(instances[i], now)
        invariant candidate.Some? ==> candidate.value < j && IsCandidate(instances[..j], now, candidate.value)
      {
        ghost var seen := instances[..j + 1];
        if Eligible(instances[j], now) && (candidate.None? || Before(instances[j], instances[candidate.value])) {
          candidate := Some(j);
        }
        assert forall i :: 0 <= i < j ==> seen[i] == instances[..j][i];
        assert seen[j] == instances[j];
      }
      assert instances[..|instances|] == instances;
    }

    /** `_evict_until_below`: at most five rounds, each evicting the candidate and reading the RAM again. */
    method EvictUntilBelow(rounds: seq<Round>) returns (victims: seq<Instance>)
      requires |rounds| > MAX_ROUNDS
      modifies this`instances
      ensures Evicts(old(instances), rounds, limits.ramEvict, victims, instances)
    {
      ghost var tables := [instances];
      NoRounds(instances, rounds, limits.ramEvict);
      victims := [];
      hide IsCandidate, NothingEligible, Evicted, Evicts, Unload;
      for n := 0 to MAX_ROUNDS
        invariant |victims| == n && EvictionRun(tables, victims, rounds, limits.ramEvict)
        invariant tables[0] == old(instances) && tables[n] == instances
        invariant n > 0 ==> rounds[n - 1].ram >= limits.ramEvict
      {
        var candidate := SelectCandidate(rounds[n].now);
        if candidate.None? {
          RunIsOver(tables, victims, rounds, limits.ramEvict);
          return;
        }
        var victim := instances[candidate.value];
        IsEvicted(instances, rounds[n].now, candidate.value);
        OneMoreRound(tables, victims, rounds, limits.ramEvict, victim, Unload(instances, candidate.value));
        victims := victims + [victim];
        instances := Unload(instances, candidate.value);
        tables := tables + [instances];
        if rounds[n].ram < limits.ramEvict {
          RunIsOver(tables, victims, rounds, limits.ramEvict);
          return;
        }
      }
      RunIsOver(tables, victims, rounds, limits.ramEvict);
    }

    /** The timers of one `_tick`, and the eviction they may start. */
    method OnTick(i: Input, rounds: seq<Round>) returns (victims: seq<Instance>)
      requires |rounds| > MAX_ROUNDS
      modifies this`instances, this`swapPressureSince, this`ramPressureSince, this`records
      ensures Timers() == Tick(limits, old(Timers()), i)
      ensures if records[|records| - 1].evicted
              then Evicts(old(instances), rounds, limits.ramEvict, victims, instances)
              else victims == [] && instances == old(instances)
    {
      hide Evicts;
      victims := [];
      var swapPct := i.swapPct;
      if i.swapPct >= limits.swapFlush {
        if swapPressureSince == 0.0 {
          swapPressureSince := i.now;
        }
        var held := i.now - swapPressureSince;
        if held >= limits.swapHold {
          if i.ramAvailable > i.swapUsed * 1.2 {
            swapPct := i.swapAfter;
          }
          swapPressureSince := 0.0;
        }
      } else {
        swapPressureSince := 0.0;
      }
      var over := swapPct >= SWAP_FULL && i.ramPct >= limits.ramEvict;
      assert over == Over(limits, old(Timers()), i);
      assert swapPressureSince == SwapTimer(limits, old(Timers()), i);
      var evicted := false;
      if over {
        if ramPressureSince == 0.0 {
          ramPressureSince := i.now;
        }
        if i.now - ramPressureSince >= PRESSURE_HOLD {
          victims := EvictUntilBelow(rounds);
          evicted := true;
          ramPressureSince := 0.0;
        }
      } else {
        ramPressureSince := 0.0;
      }
      records := records + [Record(i.now, over, evicted)];
    }

    method SumFreeable() returns (total: real)
      ensures total == Freeable(instances)
    {
      total := 0.0;
      assert instances[0..] == instances;
      for j := 0 to |instances|
        invariant total + Freeable(instances[j..]) == Freeable(instances)
      {
        var i := instances[j];
        assert instances[j..][0] == i && instances[j..][1..] == instances[j + 1..];
        if i.running && !i.guarded && !i.thermalStopped {
          total := total + (i.vramDelta + Footprint(i));
        }
      }
    }

    /** `preload_check`: a yes rests on the last reading, or, before anything was evicted, on the stated tolerance; a no
        without evicting means that evicting everything allowed would not have been enough. */
    method PreloadCheck(needed: real, vramTotal: real, first: Pools, second: Pools, rounds: seq<Round>)
      returns (verdict: Verdict, victims: seq<Instance>)
      requires |rounds| > MAX_ROUNDS
      modifies this`instances
      ensures var available := first.ramAvailable + (if first.vramUsed >= vramTotal then 0.0 else vramTotal - first.vramUsed);
        var later := second.ramAvailable + (if second.vramUsed >= vramTotal then 0.0 else vramTotal - second.vramUsed);
        match verdict
        case Fits => available >= needed && victims == [] && instances == old(instances)
        case FitsTightly =>
          available < needed && (needed <= available + 2048.0 || 0.97 * needed <= available)
          && victims == [] && instances == old(instances)
        case CannotFree =>
          available + 2048.0 < needed && available < 0.97 * needed && available + Freeable(old(instances)) < needed
          && victims == [] && instances == old(instances)
        case FitsAfterEviction =>
          available + 2048.0 < needed <= available + Freeable(old(instances)) && available < 0.97 * needed && needed <= later
        case StillShort =>
          available + 2048.0 < needed <= available + Freeable(old(instances)) && available < 0.97 * needed && later < needed
      ensures verdict.FitsAfterEviction? || verdict.StillShort? ==>
        Evicts(old(instances), rounds, limits.ramEvict, victims, instances)
    {
      hide Evicts;
      victims := [];
      var available := Available(first, vramTotal);
      if available >= needed {
        return Fits, [];
      }
      var deficit := needed - available;
      if deficit <= Tolerance(needed) {
        return FitsTightly, [];
      }
      var freeable := SumFreeable();
      if freeable < deficit {
        return CannotFree, [];
      }
      victims := EvictUntilBelow(rounds);
      verdict := if Available(second, vramTotal) >= needed then FitsAfterEviction else StillShort;
    }
  }
}
