/** The weight-triggered scan state machine (app/core/state_machine.py) as a
    pure step function over an explicit state record. */
module StateMachine {
  import opened Results
  import opened Numeric
  import opened Settings
  import opened Common

  /** Everything the machine remembers between readings. */
  datatype Machine = Machine(
    state: ScanState,
    history: seq<WeightReading>,
    lastScanAt: Option<int>,
    lastScanWeight: real)

  /** A fresh machine: idle, no history, never scanned. */
  function Initial(): Machine
  {
    Machine(Idle, [], None, 0.0)
  }

  /** The machine after one reading and the decision handed back to the caller. */
  datatype Outcome = Outcome(machine: Machine, decision: ScanDecision)

  // ---------------------------------------------------------------------------
  // Stability window

  /** `_prune_history`: drop readings from the front while the front one is
      more than `windowMs` older than `now`. The result is a suffix; every
      dropped reading was too old and the first kept one is not. */
  function Prune(history: seq<WeightReading>, now: int, windowMs: int): (r: seq<WeightReading>)
    ensures |r| <= |history| && r == history[|history| - |r|..]
    ensures forall i :: 0 <= i < |history| - |r| ==> now - history[i].timestampMs > windowMs
    ensures |r| > 0 ==> now - r[0].timestampMs <= windowMs
    decreases |history|
  {
    if |history| > 0 && now - history[0].timestampMs > windowMs then
      var r := Prune(history[1..], now, windowMs);
      assert history[1..][|history| - 1 - |r|..] == history[|history| - |r|..];
      assert forall i :: 1 <= i < |history| ==> history[i] == history[1..][i - 1];
      r
    else history
  }

  /** The reading just appended is never pruned when the window is non-negative. */
  lemma PruneKeepsNewest(history: seq<WeightReading>, now: int, windowMs: int)
    requires |history| > 0 && history[|history| - 1].timestampMs == now
    ensures var r := Prune(history, now, windowMs);
            windowMs >= 0 ==> |r| > 0 && r[|r| - 1] == history[|history| - 1]
  {
  }

  function Grams(h: seq<WeightReading>): (ws: seq<real>)
    ensures |ws| == |h| && forall i :: 0 <= i < |h| ==> ws[i] == h[i].grams
  {
    seq(|h|, i requires 0 <= i < |h| => h[i].grams)
  }

  /** Every pair of readings in the window differs by at most `eps`. */
  predicate WithinNoise(h: seq<WeightReading>, eps: real)
  {
    forall i, j :: 0 <= i < |h| && 0 <= j < |h| ==> h[i].grams - h[j].grams <= eps
  }

  /** `_stable_weight`: the mean of the window, or nothing when it holds fewer
      than two readings or its spread exceeds the noise epsilon. */
  function StableWeight(h: seq<WeightReading>, eps: real): (r: Option<real>)
    ensures r.Some? <==> |h| >= 2 && WithinNoise(h, eps)
  {
    if |h| < 2 then None
    else
      var ws := Grams(h);
      SpreadIsPairwise(ws, eps);
      if MaxOf(ws) - MinOf(ws) > eps then None else Some(Mean(ws))
  }

  /** A stable weight lies between the lightest and heaviest reading of the
      window, and so within the noise epsilon of every reading in it. */
  lemma StableWeightNearReadings(h: seq<WeightReading>, eps: real)
    requires StableWeight(h, eps).Some?
    ensures var w := StableWeight(h, eps).value;
            && MinOf(Grams(h)) <= w <= MaxOf(Grams(h))
            && forall i :: 0 <= i < |h| ==> Abs(w - h[i].grams) <= eps
  {
    var ws := Grams(h);
    SpreadIsPairwise(ws, eps);
    assert forall i :: 0 <= i < |h| ==> MinOf(ws) <= h[i].grams <= MaxOf(ws);
  }

  /** A window of readings that were all built, and so all have non-negative
      grams, never has a negative stable weight. */
  lemma StableWeightNonNegative(h: seq<WeightReading>, eps: real)
    requires forall i :: 0 <= i < |h| ==> ParseReading(h[i].grams, h[i].timestampMs).Success?
    ensures StableWeight(h, eps).Some? ==> StableWeight(h, eps).value >= 0.0
  {
    if StableWeight(h, eps).Some? {
      StableWeightNearReadings(h, eps);
      var i :| 0 <= i < |h| && h[i].grams == MinOf(Grams(h));
    }
  }

  // ---------------------------------------------------------------------------
  // Gates

  /** `_significant_delta`: the weight left the open band of half-width `delta`
      around the weight of the last scan, on either side. */
  function SignificantDelta(weight: real, lastScanWeight: real, delta: real): (b: bool)
    ensures b <==> weight >= lastScanWeight + delta || weight <= lastScanWeight - delta
  {
    Abs(weight - lastScanWeight) >= delta
  }

  /** `_scan_interval_respected`: the cooldown since the last scan has elapsed, or
      there was no scan yet. */
  predicate IntervalRespected(lastScanAt: Option<int>, now: int, minIntervalMs: int)
  {
    lastScanAt.None? || now - lastScanAt.value >= minIntervalMs
  }

  /** Before any scan the cooldown never blocks, and once it has elapsed it stays
      elapsed at every later time. */
  lemma CooldownStaysElapsed(lastScanAt: Option<int>, now: int, later: int, minIntervalMs: int)
    requires now <= later
    ensures lastScanAt.None? ==> IntervalRespected(lastScanAt, now, minIntervalMs)
    ensures IntervalRespected(lastScanAt, now, minIntervalMs) ==> IntervalRespected(lastScanAt, later, minIntervalMs)
  {
  }

  /** The window after appending and pruning, as `process` computes it. */
  function WindowAfter(cfg: Config, m: Machine, reading: WeightReading): seq<WeightReading>
  {
    Prune(m.history + [reading], reading.timestampMs, cfg.stableWindowMs)
  }

  function StableAfter(cfg: Config, m: Machine, reading: WeightReading): Option<real>
  {
    StableWeight(WindowAfter(cfg, m, reading), cfg.weightNoiseEpsilon)
  }

  // ---------------------------------------------------------------------------
  // One reading

  /** `process`: feed one reading and decide. */
  function Process(cfg: Config, m: Machine, reading: WeightReading): (r: Outcome)
    // the decision reports the machine's new state
    ensures r.decision.state == r.machine.state
    // a scan is only ever requested from ACTIVE, after the cooldown, and is recorded
    ensures r.decision.scanRequested ==>
              && r.machine.state == Active
              && IntervalRespected(m.lastScanAt, reading.timestampMs, cfg.minScanIntervalMs)
              && r.machine.lastScanAt == Some(reading.timestampMs)
              && StableAfter(cfg, m, reading) == Some(r.machine.lastScanWeight)
    // without a scan the scan bookkeeping is untouched
    ensures !r.decision.scanRequested ==>
              r.machine.lastScanAt == m.lastScanAt && r.machine.lastScanWeight == m.lastScanWeight
    // the label describes the state change
    ensures r.decision.transition == IdleToActive <==> m.state == Idle && r.machine.state == Active
    ensures r.decision.transition == ActiveToIdle <==> m.state == Active && r.machine.state == Idle
    ensures r.decision.transition == NoChange <==> m.state == r.machine.state
    // the new window is a suffix of the old one plus the reading, and keeps the reading
    ensures r.machine.history == WindowAfter(cfg, m, reading)
    ensures cfg.stableWindowMs >= 0 ==>
              |r.machine.history| > 0 && r.machine.history[|r.machine.history| - 1] == reading
  {
    var h := WindowAfter(cfg, m, reading);
    PruneKeepsNewest(m.history + [reading], reading.timestampMs, cfg.stableWindowMs);
    Decide(cfg, m.(history := h), StableAfter(cfg, m, reading), reading.timestampMs)
  }

  /** The decision part of `process`, once the window `m.history` is updated and
      its stable weight is known. */
  function Decide(cfg: Config, m: Machine, stable: Option<real>, now: int): (r: Outcome)
    ensures r.decision.state == r.machine.state && r.machine.history == m.history
    ensures r.decision.scanRequested ==>
              && r.machine.state == Active
              && IntervalRespected(m.lastScanAt, now, cfg.minScanIntervalMs)
              && r.machine.lastScanAt == Some(now)
              && stable == Some(r.machine.lastScanWeight)
    ensures !r.decision.scanRequested ==>
              r.machine.lastScanAt == m.lastScanAt && r.machine.lastScanWeight == m.lastScanWeight
    ensures r.decision.transition == IdleToActive <==> m.state == Idle && r.machine.state == Active
    ensures r.decision.transition == ActiveToIdle <==> m.state == Active && r.machine.state == Idle
    ensures r.decision.transition == NoChange <==> m.state == r.machine.state
  {
    if stable.None? then
      Outcome(m, DefaultDecision(m.state))
    else
      var w := stable.value;
      if m.state == Idle && w >= cfg.minFruitWeight then
        if IntervalRespected(m.lastScanAt, now, cfg.minScanIntervalMs) then
          Outcome(m.(state := Active, lastScanAt := Some(now), lastScanWeight := w),
                  ScanDecision(Active, true, IdleToActive))
        else
          Outcome(m.(state := Active), ScanDecision(Active, false, IdleToActive))
      else if m.state == Active then
        if w < cfg.minFruitWeight then
          Outcome(m.(state := Idle), ScanDecision(Idle, false, ActiveToIdle))
        else if SignificantDelta(w, m.lastScanWeight, cfg.significantDelta)
             && IntervalRespected(m.lastScanAt, now, cfg.minScanIntervalMs) then
          Outcome(m.(lastScanAt := Some(now), lastScanWeight := w), ScanDecision(Active, true, NoChange))
        else
          Outcome(m, ScanDecision(Active, false, NoChange))
      else
        Outcome(m, ScanDecision(m.state, false, NoChange))
  }

  /** `process` is the decision taken on the updated window. */
  lemma ProcessDecides(cfg: Config, m: Machine, reading: WeightReading)
    ensures Process(cfg, m, reading)
            == Decide(cfg, m.(history := WindowAfter(cfg, m, reading)), StableAfter(cfg, m, reading), reading.timestampMs)
  {
  }

  // ---------------------------------------------------------------------------
  // The behaviour of one step, case by case

  /** With no stable weight only the window changes, and the decision is the default one. */
  lemma UnstableReadingIsNoOp(cfg: Config, m: Machine, reading: WeightReading)
    requires StableAfter(cfg, m, reading).None?
    ensures Process(cfg, m, reading).machine == m.(history := WindowAfter(cfg, m, reading))
    ensures Process(cfg, m, reading).decision == ScanDecision(m.state, false, NoChange)
    ensures Process(cfg, m, reading).decision == DefaultDecision(m.state)
  {
    ProcessDecides(cfg, m, reading);
  }

  /** Idle with a stable weight below the minimum: nothing but the window changes. */
  lemma IdleBelowMinimumIsNoOp(cfg: Config, m: Machine, reading: WeightReading)
    requires m.state == Idle
    requires StableAfter(cfg, m, reading).Some? && StableAfter(cfg, m, reading).value < cfg.minFruitWeight
    ensures Process(cfg, m, reading).machine == m.(history := WindowAfter(cfg, m, reading))
    ensures Process(cfg, m, reading).decision == ScanDecision(Idle, false, NoChange)
  {
    ProcessDecides(cfg, m, reading);
  }

  /** Idle with a stable weight at or above the minimum: always becomes ACTIVE, but
      a scan is requested, and recorded, only when the cooldown has elapsed. */
  lemma IdleActivation(cfg: Config, m: Machine, reading: WeightReading)
    requires m.state == Idle
    requires StableAfter(cfg, m, reading).Some? && StableAfter(cfg, m, reading).value >= cfg.minFruitWeight
    ensures var r := Process(cfg, m, reading);
            && r.machine.state == Active
            && r.decision.transition == IdleToActive
            && (r.decision.scanRequested <==> IntervalRespected(m.lastScanAt, reading.timestampMs, cfg.minScanIntervalMs))
            && (r.decision.scanRequested ==>
                  r.machine.lastScanAt == Some(reading.timestampMs)
                  && r.machine.lastScanWeight == StableAfter(cfg, m, reading).value)
  {
    ProcessDecides(cfg, m, reading);
  }

  /** Active with a stable weight below the minimum: back to IDLE, no scan. */
  lemma ActiveRelease(cfg: Config, m: Machine, reading: WeightReading)
    requires m.state == Active
    requires StableAfter(cfg, m, reading).Some? && StableAfter(cfg, m, reading).value < cfg.minFruitWeight
    ensures var r := Process(cfg, m, reading);
            && r.machine == m.(state := Idle, history := WindowAfter(cfg, m, reading))
            && r.decision == ScanDecision(Idle, false, ActiveToIdle)
  {
    ProcessDecides(cfg, m, reading);
  }

  /** Active with a stable weight at or above the minimum: stays ACTIVE, and
      rescans exactly when the weight moved by the significant delta since the
      last scan and the cooldown has elapsed. */
  lemma ActiveRetrigger(cfg: Config, m: Machine, reading: WeightReading)
    requires m.state == Active
    requires StableAfter(cfg, m, reading).Some? && StableAfter(cfg, m, reading).value >= cfg.minFruitWeight
    ensures var r := Process(cfg, m, reading);
            var w := StableAfter(cfg, m, reading).value;
            && r.machine.state == Active
            && r.decision.transition == NoChange
            && (r.decision.scanRequested <==>
                  SignificantDelta(w, m.lastScanWeight, cfg.significantDelta)
                  && IntervalRespected(m.lastScanAt, reading.timestampMs, cfg.minScanIntervalMs))
            && (r.decision.scanRequested ==>
                  r.machine.lastScanAt == Some(reading.timestampMs) && r.machine.lastScanWeight == w)
  {
    ProcessDecides(cfg, m, reading);
  }

  // ---------------------------------------------------------------------------
  // Runs over a sequence of readings

  /** The decisions returned for each reading when the readings are fed in order
      to any step function. */
  function Run(step: (Machine, WeightReading) -> Outcome, m: Machine, rs: seq<WeightReading>): (ds: seq<ScanDecision>)
    ensures |ds| == |rs|
    decreases |rs|
  {
    if |rs| == 0 then [] else [step(m, rs[0]).decision] + Run(step, step(m, rs[0]).machine, rs[1..])
  }

  /** The first decision of a run comes from the first reading; the rest come
      from the machine that reading left behind. */
  lemma RunUnfold(step: (Machine, WeightReading) -> Outcome, m: Machine, rs: seq<WeightReading>)
    requires |rs| > 0
    ensures var o := step(m, rs[0]);
            var ds := Run(step, m, rs);
            var rest := Run(step, o.machine, rs[1..]);
            && ds[0] == o.decision
            && forall k :: 0 <= k < |rest| ==> rest[k] == ds[k + 1]
  {
  }

  /** The second decision of a run of two readings, spelled out. */
  lemma RunSecond(step: (Machine, WeightReading) -> Outcome, m: Machine, rs: seq<WeightReading>)
    requires |rs| == 2
    ensures Run(step, m, rs)[1] == step(step(m, rs[0]).machine, rs[1]).decision
  {
    RunUnfold(step, m, rs);
    RunUnfold(step, step(m, rs[0]).machine, rs[1..]);
  }

  /** The fourth decision of a run of four readings, spelled out. */
  lemma RunFourth(step: (Machine, WeightReading) -> Outcome, m: Machine, rs: seq<WeightReading>)
    requires |rs| == 4
    ensures var m1 := step(m, rs[0]).machine;
            var m2 := step(m1, rs[1]).machine;
            var m3 := step(m2, rs[2]).machine;
            Run(step, m, rs)[3] == step(m3, rs[3]).decision
  {
    var m1 := step(m, rs[0]).machine;
    var m2 := step(m1, rs[1]).machine;
    RunUnfold(step, m, rs);
    RunUnfold(step, m1, rs[1..]);
    RunUnfold(step, m2, rs[2..]);
    assert rs[1..][1..] == rs[2..];
  }

  /** One step requests a scan only when the cooldown has elapsed, records it
      when it does, and leaves the record alone when it does not. */
  predicate StepKeepsCooldown(step: (Machine, WeightReading) -> Outcome, minIntervalMs: int, m: Machine, rd: WeightReading)
  {
    var o := step(m, rd);
    && (o.decision.scanRequested ==>
          IntervalRespected(m.lastScanAt, rd.timestampMs, minIntervalMs)
          && o.machine.lastScanAt == Some(rd.timestampMs))
    && (!o.decision.scanRequested ==> o.machine.lastScanAt == m.lastScanAt)
  }

  ghost predicate KeepsCooldown(step: (Machine, WeightReading) -> Outcome, minIntervalMs: int)
  {
    forall m, rd :: StepKeepsCooldown(step, minIntervalMs, m, rd)
  }

  predicate NoScanBetween(ds: seq<ScanDecision>, lo: int, hi: int)
    requires 0 <= lo <= hi <= |ds|
  {
    forall k :: lo <= k < hi ==> !ds[k].scanRequested
  }

  /** The first scan of a run respects the cooldown counted from the machine's
      last recorded scan. */
  lemma {:induction false} FirstScanRespectsCooldown(
    step: (Machine, WeightReading) -> Outcome, minIntervalMs: int, m: Machine, rs: seq<WeightReading>, j: int)
    requires KeepsCooldown(step, minIntervalMs)
    requires 0 <= j < |rs|
    requires Run(step, m, rs)[j].scanRequested
    requires NoScanBetween(Run(step, m, rs), 0, j)
    ensures IntervalRespected(m.lastScanAt, rs[j].timestampMs, minIntervalMs)
    decreases j
  {
    assert StepKeepsCooldown(step, minIntervalMs, m, rs[0]);
    RunUnfold(step, m, rs);
    if j > 0 {
      FirstScanRespectsCooldown(step, minIntervalMs, step(m, rs[0]).machine, rs[1..], j - 1);
    }
  }

  /** Two consecutive scan requests of a run are at least the cooldown apart. */
  lemma {:induction false} ConsecutiveScansSpaced(
    step: (Machine, WeightReading) -> Outcome, minIntervalMs: int, m: Machine, rs: seq<WeightReading>, i: int, j: int)
    requires KeepsCooldown(step, minIntervalMs)
    requires 0 <= i < j < |rs|
    requires Run(step, m, rs)[i].scanRequested && Run(step, m, rs)[j].scanRequested
    requires NoScanBetween(Run(step, m, rs), i + 1, j)
    ensures rs[j].timestampMs - rs[i].timestampMs >= minIntervalMs
    decreases i
  {
    var o := step(m, rs[0]);
    RunShift(step, m, rs, j);
    if i == 0 {
      assert StepKeepsCooldown(step, minIntervalMs, m, rs[0]);
      RunUnfold(step, m, rs);
      NoScanShift(step, m, rs, 1, j);
      FirstScanRespectsCooldown(step, minIntervalMs, o.machine, rs[1..], j - 1);
    } else {
      RunShift(step, m, rs, i);
      NoScanShift(step, m, rs, i + 1, j);
      ConsecutiveScansSpaced(step, minIntervalMs, o.machine, rs[1..], i - 1, j - 1);
    }
  }

  /** A later decision of a run is the previous position of the run that starts
      after the first reading. */
  lemma RunShift(step: (Machine, WeightReading) -> Outcome, m: Machine, rs: seq<WeightReading>, k: int)
    requires 1 <= k < |rs|
    ensures Run(step, m, rs)[k] == Run(step, step(m, rs[0]).machine, rs[1..])[k - 1]
    ensures rs[k] == rs[1..][k - 1]
  {
    RunUnfold(step, m, rs);
  }

  /** A scan-free stretch of a run stays scan-free, one position earlier, in the
      run that starts after the first reading. */
  lemma NoScanShift(step: (Machine, WeightReading) -> Outcome, m: Machine, rs: seq<WeightReading>, lo: int, hi: int)
    requires 1 <= lo <= hi <= |rs|
    requires NoScanBetween(Run(step, m, rs), lo, hi)
    ensures NoScanBetween(Run(step, step(m, rs[0]).machine, rs[1..]), lo - 1, hi - 1)
  {
    RunUnfold(step, m, rs);
  }

  /** With a non-negative cooldown, every scan of a run is at least the cooldown
      after the machine's last recorded scan. */
  lemma {:induction false} ScansAfterRecordedScan(
    step: (Machine, WeightReading) -> Outcome, minIntervalMs: int, m: Machine, rs: seq<WeightReading>, j: int)
    requires KeepsCooldown(step, minIntervalMs) && minIntervalMs >= 0
    requires m.lastScanAt.Some?
    requires 0 <= j < |rs| && Run(step, m, rs)[j].scanRequested
    ensures rs[j].timestampMs - m.lastScanAt.value >= minIntervalMs
    decreases j
  {
    assert StepKeepsCooldown(step, minIntervalMs, m, rs[0]);
    RunUnfold(step, m, rs);
    if j > 0 {
      ScansAfterRecordedScan(step, minIntervalMs, step(m, rs[0]).machine, rs[1..], j - 1);
    }
  }

  /** With a non-negative cooldown, ANY two scan requests of a run are at least
      the cooldown apart. */
  lemma {:induction false} AllScansSpaced(
    step: (Machine, WeightReading) -> Outcome, minIntervalMs: int, m: Machine, rs: seq<WeightReading>, i: int, j: int)
    requires KeepsCooldown(step, minIntervalMs) && minIntervalMs >= 0
    requires 0 <= i < j < |rs|
    requires Run(step, m, rs)[i].scanRequested && Run(step, m, rs)[j].scanRequested
    ensures rs[j].timestampMs - rs[i].timestampMs >= minIntervalMs
    decreases i
  {
    var o := step(m, rs[0]);
    assert StepKeepsCooldown(step, minIntervalMs, m, rs[0]);
    RunUnfold(step, m, rs);
    if i == 0 {
      ScansAfterRecordedScan(step, minIntervalMs, o.machine, rs[1..], j - 1);
    } else {
      AllScansSpaced(step, minIntervalMs, o.machine, rs[1..], i - 1, j - 1);
    }
  }

  /** The state machine as a step function. */
  function Stepper(cfg: Config): (Machine, WeightReading) -> Outcome
  {
    (m, rd) => Process(cfg, m, rd)
  }

  /** The decisions `process` returns for each reading, fed in order. */
  function Decisions(cfg: Config, m: Machine, rs: seq<WeightReading>): seq<ScanDecision>
  {
    Run(Stepper(cfg), m, rs)
  }

  lemma ProcessKeepsCooldown(cfg: Config)
    ensures KeepsCooldown(Stepper(cfg), cfg.minScanIntervalMs)
  {
    forall m, rd ensures StepKeepsCooldown(Stepper(cfg), cfg.minScanIntervalMs, m, rd) {
      var o := Process(cfg, m, rd);
    }
  }

  /** Consecutive scan requests of the state machine are at least
      `min_scan_interval_ms` apart, whatever the readings. */
  lemma ProcessConsecutiveScansSpaced(cfg: Config, m: Machine, rs: seq<WeightReading>, i: int, j: int)
    requires 0 <= i < j < |rs|
    requires Decisions(cfg, m, rs)[i].scanRequested && Decisions(cfg, m, rs)[j].scanRequested
    requires NoScanBetween(Decisions(cfg, m, rs), i + 1, j)
    ensures rs[j].timestampMs - rs[i].timestampMs >= cfg.minScanIntervalMs
  {
    ProcessKeepsCooldown(cfg);
    ConsecutiveScansSpaced(Stepper(cfg), cfg.minScanIntervalMs, m, rs, i, j);
  }

  /** With a non-negative cooldown, any two scan requests of the state machine
      are at least `min_scan_interval_ms` apart. */
  lemma ProcessAllScansSpaced(cfg: Config, m: Machine, rs: seq<WeightReading>, i: int, j: int)
    requires cfg.minScanIntervalMs >= 0
    requires 0 <= i < j < |rs|
    requires Decisions(cfg, m, rs)[i].scanRequested && Decisions(cfg, m, rs)[j].scanRequested
    ensures rs[j].timestampMs - rs[i].timestampMs >= cfg.minScanIntervalMs
  {
    ProcessKeepsCooldown(cfg);
    AllScansSpaced(Stepper(cfg), cfg.minScanIntervalMs, m, rs, i, j);
  }

  /** Over any run, a decision that requests a scan reports ACTIVE. */
  lemma {:induction false} ScanOnlyWhenActive(cfg: Config, m: Machine, rs: seq<WeightReading>, k: int)
    requires 0 <= k < |rs| && Decisions(cfg, m, rs)[k].scanRequested
    ensures Decisions(cfg, m, rs)[k].state == Active
    decreases k
  {
    var o := Process(cfg, m, rs[0]);
    RunUnfold(Stepper(cfg), m, rs);
    if k > 0 {
      ScanOnlyWhenActive(cfg, o.machine, rs[1..], k - 1);
    }
  }

  // ---------------------------------------------------------------------------
  // The unit-test scenarios

  /** The settings stub of the unit tests. */
  function TestConfig(): Config
  {
    DefaultConfig().(minFruitWeight := 30.0, significantDelta := 20.0, weightNoiseEpsilon := 5.0,
                     stableWindowMs := 500, minScanIntervalMs := 2000)
  }

  lemma StableOfTwo(a: WeightReading, b: WeightReading, eps: real)
    requires Abs(a.grams - b.grams) <= eps
    ensures StableWeight([a, b], eps) == Some((a.grams + b.grams) / 2.0)
  {
    var ws := Grams([a, b]);
    assert ws == [a.grams, b.grams];
    assert ws[1..] == [b.grams];
    assert ws[1..][1..] == [];
    assert Sum(ws[1..]) == b.grams + Sum(ws[1..][1..]);
    assert Sum(ws) == a.grams + b.grams;
  }

  /** Two readings more than the window older than `t` are pruned; the new one stays. */
  lemma PruneDropsTwo(r0: WeightReading, r1: WeightReading, r2: WeightReading, t: int, windowMs: int)
    requires r2.timestampMs == t && windowMs >= 0
    requires t - r0.timestampMs > windowMs && t - r1.timestampMs > windowMs
    ensures Prune([r0, r1, r2], t, windowMs) == [r2]
  {
    var h3 := [r0, r1, r2];
    assert h3[1..] == [r1, r2];
    assert h3[1..][1..] == [r2];
    assert Prune(h3, t, windowMs) == Prune(h3[1..], t, windowMs) == Prune(h3[1..][1..], t, windowMs);
  }

  /** A first reading alone is never stable: the machine only records it. */
  lemma FirstReadingOnlyRecorded(g: real, t: int)
    ensures Process(TestConfig(), Initial(), WeightReading(g, t))
            == Outcome(Initial().(history := [WeightReading(g, t)]), ScanDecision(Idle, false, NoChange))
  {
    assert Prune([WeightReading(g, t)], t, 500) == [WeightReading(g, t)];
  }

  /** A second close reading within the window activates with a scan. */
  lemma SecondReadingActivates(g0: real, g1: real)
    requires Abs(g0 - g1) <= 5.0 && (g0 + g1) / 2.0 >= 30.0
    ensures var h := [WeightReading(g0, 0), WeightReading(g1, 100)];
            Process(TestConfig(), Initial().(history := [WeightReading(g0, 0)]), WeightReading(g1, 100))
            == Outcome(Machine(Active, h, Some(100), (g0 + g1) / 2.0), ScanDecision(Active, true, IdleToActive))
  {
    var h := [WeightReading(g0, 0), WeightReading(g1, 100)];
    assert [WeightReading(g0, 0)] + [WeightReading(g1, 100)] == h;
    assert Prune(h, 100, 500) == h;
    StableOfTwo(WeightReading(g0, 0), WeightReading(g1, 100), 5.0);
  }

  /** Three seconds later the two old readings have left the window; the new one alone is not stable. */
  lemma LateReadingPrunesWindow(g0: real, g1: real, g2: real, t: int, lastW: real)
    requires 600 < t
    ensures var h := [WeightReading(g0, 0), WeightReading(g1, 100)];
            Process(TestConfig(), Machine(Active, h, Some(100), lastW), WeightReading(g2, t))
            == Outcome(Machine(Active, [WeightReading(g2, t)], Some(100), lastW), ScanDecision(Active, false, NoChange))
  {
    var h := [WeightReading(g0, 0), WeightReading(g1, 100)];
    assert h + [WeightReading(g2, t)] == [WeightReading(g0, 0), WeightReading(g1, 100), WeightReading(g2, t)];
    PruneDropsTwo(WeightReading(g0, 0), WeightReading(g1, 100), WeightReading(g2, t), t, 500);
  }

  /** From ACTIVE after a 32.5 g scan at 100 ms, 60 g then 62 g at 3300 ms rescans. */
  lemma RescanStep()
    ensures Process(TestConfig(), Machine(Active, [WeightReading(60.0, 3100)], Some(100), 32.5), WeightReading(62.0, 3300))
              .decision.scanRequested
  {
    var h4 := [WeightReading(60.0, 3100), WeightReading(62.0, 3300)];
    assert [WeightReading(60.0, 3100)] + [WeightReading(62.0, 3300)] == h4;
    assert Prune(h4, 3300, 500) == h4;
    StableOfTwo(WeightReading(60.0, 3100), WeightReading(62.0, 3300), 5.0);
  }

  /** From ACTIVE, two 0 g readings release the machine to IDLE. */
  lemma ReleaseStep()
    ensures Process(TestConfig(), Machine(Active, [WeightReading(0.0, 3500)], Some(100), 32.5), WeightReading(0.0, 3600))
              .decision.state == Idle
  {
    var h4 := [WeightReading(0.0, 3500), WeightReading(0.0, 3600)];
    assert [WeightReading(0.0, 3500)] + [WeightReading(0.0, 3600)] == h4;
    assert Prune(h4, 3600, 500) == h4;
    StableOfTwo(WeightReading(0.0, 3500), WeightReading(0.0, 3600), 5.0);
  }

  /** Two 35 g readings 100 ms apart activate the machine with a scan. */
  lemma InitialTransitionTriggersScan()
    ensures var ds := Decisions(TestConfig(), Initial(), [WeightReading(35.0, 0), WeightReading(35.0, 100)]);
            ds[1].state == Active && ds[1].scanRequested
  {
    var cfg := TestConfig();
    var rs := [WeightReading(35.0, 0), WeightReading(35.0, 100)];
    FirstReadingOnlyRecorded(35.0, 0);
    SecondReadingActivates(35.0, 35.0);
    RunSecond(Stepper(cfg), Initial(), rs);
  }

  /** After activating at 32.5 g, readings of 60 and 62 g three seconds later rescan. */
  lemma SignificantDeltaRescansAfterInterval()
    ensures var rs := [WeightReading(32.0, 0), WeightReading(33.0, 100), WeightReading(60.0, 3100), WeightReading(62.0, 3300)];
            Decisions(TestConfig(), Initial(), rs)[3].scanRequested
  {
    var cfg := TestConfig();
    var rs := [WeightReading(32.0, 0), WeightReading(33.0, 100), WeightReading(60.0, 3100), WeightReading(62.0, 3300)];
    FirstReadingOnlyRecorded(32.0, 0);
    SecondReadingActivates(32.0, 33.0);
    LateReadingPrunesWindow(32.0, 33.0, 60.0, 3100, 32.5);
    RescanStep();
    RunFourth(Stepper(cfg), Initial(), rs);
  }

  /** After activating, two 0 g readings send the machine back to IDLE. */
  lemma RemovalReturnsToIdle()
    ensures var rs := [WeightReading(32.0, 0), WeightReading(33.0, 100), WeightReading(0.0, 3500), WeightReading(0.0, 3600)];
            Decisions(TestConfig(), Initial(), rs)[3].state == Idle
  {
    var cfg := TestConfig();
    var rs := [WeightReading(32.0, 0), WeightReading(33.0, 100), WeightReading(0.0, 3500), WeightReading(0.0, 3600)];
    FirstReadingOnlyRecorded(32.0, 0);
    SecondReadingActivates(32.0, 33.0);
    LateReadingPrunesWindow(32.0, 33.0, 0.0, 3500, 32.5);
    ReleaseStep();
    RunFourth(Stepper(cfg), Initial(), rs);
  }
}
