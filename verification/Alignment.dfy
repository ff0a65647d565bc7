/**
 The control loop that turns two servos until a colour block is in the middle of the image. What the
 camera sees at each round is an input; floating point is modelled by the reals.
 */
module Alignment {

  datatype Pulses = Pulses(base: int, pitch: int)

  datatype Config = Config(
    start: Pulses,
    tolerance: real,
    maxStep: int,
    baseGain: real,
    pitchGain: real,
    low: Pulses,
    high: Pulses,
    maxIterations: int)

  /** One round: the deadline is over, no image arrives, it cannot be converted, the block is not in it,
      or the block is off the target by `dx` and `dy`. */
  datatype Frame = Expired | NoImage | Unreadable | NotDetected | Seen(dx: real, dy: real)

  datatype Ending = Failed | Finished(success: bool)

  /** `np.clip`: the upper bound wins when the bounds are out of order. */
  function Clip(x: int, low: int, high: int): int {
    var raised := if x < low then low else x;
    if raised > high then high else raised
  }

  function ClipReal(x: real, low: real, high: real): real {
    var raised := if x < low then low else x;
    if raised > high then high else raised
  }

  /** Python's `int`: truncation toward zero. */
  function Truncate(x: real): int {
    if x >= 0.0 then x.Floor else 0 - (0.0 - x).Floor
  }

  function Abs(x: real): real {
    if x < 0.0 then 0.0 - x else x
  }

  predicate Centered(cfg: Config, f: Frame) {
    f.Seen? && Abs(f.dx) <= cfg.tolerance && Abs(f.dy) <= cfg.tolerance
  }

  /** `x` cut off at the largest step and towards zero, or the least step where that is none. */
  function ServoStep(x: real, maxStep: int, least: int): int {
    var d := Truncate(ClipReal(x, 0.0 - maxStep as real, maxStep as real));
    if d != 0 then d else least
  }

  /** The servo step for an error: none within the tolerance, and at least one pulse outside it. */
  function Delta(error: real, gain: real, cfg: Config): int {
    if Abs(error) <= cfg.tolerance then 0
    else ServoStep(error * gain, cfg.maxStep, if error > 0.0 then 1 else -1)
  }

  function PitchProduct(dy: real, cfg: Config): real {
    0.0 - dy * cfg.pitchGain
  }

  function PitchDelta(dy: real, cfg: Config): int {
    if Abs(dy) <= cfg.tolerance then 0
    else ServoStep(PitchProduct(dy, cfg), cfg.maxStep, if dy > 0.0 then -1 else 1)
  }

  /** The pulses after a round that did not end the loop. */
  function Moved(p: Pulses, f: Frame, cfg: Config): Pulses {
    if !f.Seen? then p
    else Pulses(Clip(p.base + Delta(f.dx, cfg.baseGain, cfg), cfg.low.base, cfg.high.base),
                Clip(p.pitch + PitchDelta(f.dy, cfg), cfg.low.pitch, cfg.high.pitch))
  }

  function PulsesAt(cfg: Config, frame: nat -> Frame, i: nat): Pulses {
    if i == 0 then cfg.start else Moved(PulsesAt(cfg, frame, i - 1), frame(i - 1), cfg)
  }

  /** The pulses sent to the servos in the first `n` rounds: one pair for each round that saw the block. */
  function Sent(cfg: Config, frame: nat -> Frame, n: nat): seq<Pulses> {
    if n == 0 then []
    else Sent(cfg, frame, n - 1) + if frame(n - 1).Seen? then [PulsesAt(cfg, frame, n)] else []
  }

  /** The loop of `_center_color_block`. It stops at the first round that centres the block or brings no
      image, and never makes more rounds than allowed. `rounds` lists the pulses in force at each. */
  method CenterColorBlock(cfg: Config, frame: nat -> Frame)
    returns (ending: Ending, rounds: seq<Pulses>, sent: seq<Pulses>)
    ensures |rounds| == 0 || |rounds| <= cfg.maxIterations
    ensures forall i :: 0 <= i < |rounds| ==> rounds[i] == PulsesAt(cfg, frame, i)
    ensures forall i :: 0 <= i < |rounds| ==> frame(i).NotDetected? || frame(i).Seen?
    ensures forall i :: 0 <= i < |rounds| - 1 ==> !Centered(cfg, frame(i))
    ensures ending == Finished(true) <==> |rounds| > 0 && Centered(cfg, frame(|rounds| - 1))
    ensures ending == Finished(true) ==> sent == Sent(cfg, frame, |rounds| - 1)
    ensures ending != Finished(true) ==> sent == Sent(cfg, frame, |rounds|)
    ensures ending == Failed ==> |rounds| < cfg.maxIterations && frame(|rounds|).Unreadable?
    ensures ending == Finished(false) ==>
              |rounds| >= cfg.maxIterations || frame(|rounds|).Expired? || frame(|rounds|).NoImage?
  {
    var pulses := cfg.start;
    rounds, sent := [], [];
    while |rounds| < cfg.maxIterations && !frame(|rounds|).Expired?
      invariant |rounds| == 0 || |rounds| <= cfg.maxIterations
      invariant pulses == PulsesAt(cfg, frame, |rounds|) && sent == Sent(cfg, frame, |rounds|)
      invariant forall i :: 0 <= i < |rounds| ==> rounds[i] == PulsesAt(cfg, frame, i)
      invariant forall i :: 0 <= i < |rounds| ==> frame(i).NotDetected? || frame(i).Seen?
      invariant forall i :: 0 <= i < |rounds| ==> !Centered(cfg, frame(i))
      decreases cfg.maxIterations - |rounds|
    {
      var f := frame(|rounds|);
      if f.NoImage? {
        break;
      }
      if f.Unreadable? {
        return Failed, rounds, sent;
      }
      rounds := rounds + [pulses];
      if f.NotDetected? {
        continue;
      }
      if Centered(cfg, f) {
        return Finished(true), rounds, sent;
      }
      pulses := Moved(pulses, f, cfg);
      sent := sent + [pulses];
    }
    return Finished(false), rounds, sent;
  }

  // ---------- What the servos are told ----------

  ghost predicate Within(p: Pulses, cfg: Config) {
    cfg.low.base <= p.base <= cfg.high.base && cfg.low.pitch <= p.pitch <= cfg.high.pitch
  }

  ghost predicate Sane(cfg: Config) {
    cfg.low.base <= cfg.high.base && cfg.low.pitch <= cfg.high.pitch && cfg.maxStep >= 0
  }

  function LargestStep(cfg: Config): int {
    if cfg.maxStep < 1 then 1 else cfg.maxStep
  }

  lemma TruncateKeepsBounds(x: real, m: int)
    requires m >= 0 && 0.0 - m as real <= x <= m as real
    ensures 0 - m <= Truncate(x) <= m
    ensures x >= 0.0 ==> Truncate(x) >= 0
    ensures x <= 0.0 ==> Truncate(x) <= 0
  {
  }

  /** A step is bounded, and with a positive gain it turns the base towards the block and the pitch
      against the vertical error; outside the tolerance it is never zero. */
  lemma DeltaFacts(error: real, gain: real, cfg: Config)
    requires Sane(cfg)
    ensures 0 - LargestStep(cfg) <= Delta(error, gain, cfg) <= LargestStep(cfg)
    ensures gain > 0.0 && cfg.tolerance >= 0.0 ==>
              && (error > cfg.tolerance <==> Delta(error, gain, cfg) > 0)
              && (error < 0.0 - cfg.tolerance <==> Delta(error, gain, cfg) < 0)
  {
    var m := cfg.maxStep as real;
    var x := ClipReal(error * gain, 0.0 - m, m);
    TruncateKeepsBounds(x, cfg.maxStep);
    SignOfProduct(error, gain);
  }

  lemma SignOfProduct(a: real, b: real)
    ensures b > 0.0 ==> (a > 0.0 <==> a * b > 0.0) && (a < 0.0 <==> a * b < 0.0)
  {
  }

  lemma PitchDeltaFacts(dy: real, cfg: Config)
    requires Sane(cfg)
    ensures 0 - LargestStep(cfg) <= PitchDelta(dy, cfg) <= LargestStep(cfg)
    ensures cfg.pitchGain > 0.0 && cfg.tolerance >= 0.0 ==>
              && (dy > cfg.tolerance <==> PitchDelta(dy, cfg) < 0)
              && (dy < 0.0 - cfg.tolerance <==> PitchDelta(dy, cfg) > 0)
  {
    var m := cfg.maxStep as real;
    var x := ClipReal(0.0 - dy * cfg.pitchGain, 0.0 - m, m);
    TruncateKeepsBounds(x, cfg.maxStep);
    SignOfProduct(dy, cfg.pitchGain);
  }

  /** Every pair ever sent lies within the limits, wherever the servos started. */
  lemma {:induction false} SentWithinLimits(cfg: Config, frame: nat -> Frame, n: nat)
    requires Sane(cfg)
    ensures forall p :: p in Sent(cfg, frame, n) ==> Within(p, cfg)
  {
    if n > 0 {
      SentWithinLimits(cfg, frame, n - 1);
      assert frame(n - 1).Seen? ==> Within(PulsesAt(cfg, frame, n), cfg);
    }
  }

  ghost function SeenBefore(frame: nat -> Frame, n: nat): set<nat> {
    set i: nat | i < n && frame(i).Seen?
  }

  /** One pair is sent for each round that saw the block, in order, with the pulses that round moved to. */
  lemma {:induction false} SentExactly(cfg: Config, frame: nat -> Frame, n: nat, i: nat)
    ensures |Sent(cfg, frame, n)| == |SeenBefore(frame, n)|
    ensures i < n && frame(i).Seen? ==>
              && |SeenBefore(frame, i)| < |SeenBefore(frame, n)|
              && Sent(cfg, frame, n)[|SeenBefore(frame, i)|] == PulsesAt(cfg, frame, i + 1)
  {
    if n > 0 {
      SentExactly(cfg, frame, n - 1, i);
      assert SeenBefore(frame, n) == SeenBefore(frame, n - 1) + if frame(n - 1).Seen? then {n - 1} else {};
    }
  }

  /** Started within the limits, the servos stay there and never jump by more than the largest step. */
  lemma {:induction false} StepsAreSmall(cfg: Config, frame: nat -> Frame, n: nat)
    requires Sane(cfg) && Within(cfg.start, cfg)
    ensures var p, q := PulsesAt(cfg, frame, n), PulsesAt(cfg, frame, n + 1);
            && Within(p, cfg) && Within(q, cfg)
            && p.base - LargestStep(cfg) <= q.base <= p.base + LargestStep(cfg)
            && p.pitch - LargestStep(cfg) <= q.pitch <= p.pitch + LargestStep(cfg)
  {
    if n > 0 {
      StepsAreSmall(cfg, frame, n - 1);
    }
    if frame(n).Seen? {
      DeltaFacts(frame(n).dx, cfg.baseGain, cfg);
      PitchDeltaFacts(frame(n).dy, cfg);
    }
  }

  // ---------- The exact arithmetic of a round ----------

  /** A round is centred when both errors lie within the tolerance on either side. */
  lemma CenteredIff(cfg: Config, f: Frame)
    ensures Centered(cfg, f) <==>
              && f.Seen?
              && 0.0 - cfg.tolerance <= f.dx <= cfg.tolerance && 0.0 - cfg.tolerance <= f.dy <= cfg.tolerance
  {
  }

  /** `d` is `x` cut off towards zero and at the largest step `m`, or `least` where that is none. */
  ghost predicate CutOff(x: real, m: int, least: int, d: int) {
    && (m > 0 && x >= m as real ==> d == m)
    && (m > 0 && x <= 0.0 - m as real ==> d == 0 - m)
    && (1.0 <= x < m as real ==> d as real <= x < (d + 1) as real)
    && (0.0 - m as real < x <= -1.0 ==> (d - 1) as real < x <= d as real)
    && (m == 0 || -1.0 < x < 1.0 ==> d == least)
  }

  lemma ServoStepExact(x: real, m: int, least: int)
    requires m >= 0
    ensures CutOff(x, m, least, ServoStep(x, m, least))
  {
    TruncateExact(ClipReal(x, 0.0 - m as real, m as real));
  }

  /** The base steps by the product of error and gain, cut off, but by one pulse where that would be none. */
  lemma DeltaExact(error: real, gain: real, cfg: Config)
    requires cfg.maxStep >= 0
    ensures if 0.0 - cfg.tolerance <= error <= cfg.tolerance then Delta(error, gain, cfg) == 0
            else CutOff(error * gain, cfg.maxStep, if error > 0.0 then 1 else -1, Delta(error, gain, cfg))
  {
    ServoStepExact(error * gain, cfg.maxStep, if error > 0.0 then 1 else -1);
  }

  /** The pitch steps likewise, against the error. */
  lemma PitchDeltaExact(dy: real, x: real, cfg: Config)
    requires cfg.maxStep >= 0 && x == 0.0 - dy * cfg.pitchGain
    ensures if 0.0 - cfg.tolerance <= dy <= cfg.tolerance then PitchDelta(dy, cfg) == 0
            else CutOff(x, cfg.maxStep, if dy > 0.0 then -1 else 1, PitchDelta(dy, cfg))
  {
    assert PitchProduct(dy, cfg) == x;
    PitchStepExact(dy, cfg);
  }

  lemma PitchStepExact(dy: real, cfg: Config)
    requires cfg.maxStep >= 0
    ensures if 0.0 - cfg.tolerance <= dy <= cfg.tolerance then PitchDelta(dy, cfg) == 0
            else CutOff(PitchProduct(dy, cfg), cfg.maxStep, if dy > 0.0 then -1 else 1, PitchDelta(dy, cfg))
  {
    ServoStepExact(PitchProduct(dy, cfg), cfg.maxStep, if dy > 0.0 then -1 else 1);
  }

  lemma TruncateExact(x: real)
    ensures x >= 0.0 ==> Truncate(x) as real <= x < (Truncate(x) + 1) as real
    ensures x <= 0.0 ==> (Truncate(x) - 1) as real < x <= Truncate(x) as real
  {
  }

  /** After a round that saw the block each servo is at its pulse plus the step, or at the limit that this
      oversteps; otherwise it has not moved. */
  lemma MovedExact(p: Pulses, f: Frame, cfg: Config)
    requires Sane(cfg)
    ensures !f.Seen? ==> Moved(p, f, cfg) == p
    ensures f.Seen? ==>
              var q := Moved(p, f, cfg);
              var (b, t) := (p.base + Delta(f.dx, cfg.baseGain, cfg), p.pitch + PitchDelta(f.dy, cfg));
              && (cfg.low.base <= b <= cfg.high.base ==> q.base == b)
              && (b < cfg.low.base ==> q.base == cfg.low.base) && (b > cfg.high.base ==> q.base == cfg.high.base)
              && (cfg.low.pitch <= t <= cfg.high.pitch ==> q.pitch == t)
              && (t < cfg.low.pitch ==> q.pitch == cfg.low.pitch) && (t > cfg.high.pitch ==> q.pitch == cfg.high.pitch)
  {
  }
}
