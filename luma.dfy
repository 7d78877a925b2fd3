/** The character orb's state (luma.py): when input last arrived, whether the
    orb is still "attentive", and its breathing radius. Times are seconds as
    reals; the sine and exponential terms are passed in as values. */
module Luma {
  import opened Text
  import opened Numbers

  datatype LumaConfig = LumaConfig(
    width: int,
    height: int,
    baseRadius: int,
    pulseAmp: real,
    pulseHz: real,
    organicWobble: real,
    attentiveSeconds: real)

  const DefaultConfig := LumaConfig(800, 480, 56, 0.10, 0.18, 0.035, 0.7)

  /** A value of a sine. */
  type UnitReal = r: real | -1.0 <= r <= 1.0

  /** A value of an exponential. */
  type PosReal = r: real | r > 0.0 witness 1.0

  /** `_smooth_noise`: a weighted sum of three sines, given their values. */
  function SmoothNoise(s1: UnitReal, s2: UnitReal, s3: UnitReal): (n: real)
    ensures -1.0 <= n <= 1.0
  {
    0.55 * s1 + 0.30 * s2 + 0.15 * s3
  }

  /** The clamp at the end of `radius_at`. */
  function ClampScale(s: real): (c: real)
    ensures 0.82 <= c <= 1.22
    ensures 0.82 <= s <= 1.22 ==> c == s
    ensures s < 0.82 ==> c == 0.82
    ensures s > 1.22 ==> c == 1.22
  {
    if s > 1.22 then 1.22 else if s < 0.82 then 0.82 else s
  }

  /** Scaling a non-negative radius by a factor in [0.82, 1.22] and truncating
      stays between the truncations of the two extreme radii. */
  lemma ScaledRadiusBounds(base: int, c: real)
    requires 0.82 <= c <= 1.22
    ensures base >= 0 ==> Trunc(base as real * 0.82) <= Trunc(base as real * c) <= Trunc(base as real * 1.22)
    ensures base < 0 ==> Trunc(base as real * 1.22) <= Trunc(base as real * c) <= Trunc(base as real * 0.82)
  {
    if base >= 0 {
      ScaledUp(base, 0.82, c);
      ScaledUp(base, c, 1.22);
    } else {
      ScaledDown(base, 0.82, c);
      ScaledDown(base, c, 1.22);
    }
  }

  lemma ScaledUp(base: int, lo: real, hi: real)
    requires base >= 0 && lo <= hi
    ensures Trunc(base as real * lo) <= Trunc(base as real * hi)
  {
    MulMonotone(base as real, lo, hi);
    TruncMonotone(base as real * lo, base as real * hi);
  }

  lemma ScaledDown(base: int, lo: real, hi: real)
    requires base < 0 && lo <= hi
    ensures Trunc(base as real * hi) <= Trunc(base as real * lo)
  {
    MulAntitone(base as real, lo, hi);
    TruncMonotone(base as real * hi, base as real * lo);
  }

  lemma MulAntitone(k: real, lo: real, hi: real)
    requires k <= 0.0 && lo <= hi
    ensures k * hi <= k * lo
  {
    var d := hi - lo;
    assert k * hi == k * lo + k * d;
  }

  lemma MulMonotone(k: real, lo: real, hi: real)
    requires k >= 0.0 && lo <= hi
    ensures k * lo <= k * hi
  {
    var d := hi - lo;
    assert k * hi == k * lo + k * d;
  }

  class Luma {
    const cfg: LumaConfig
    const x: int
    const y: int
    var lastInputTime: real
    var lastInputText: string
    /** The clock reading at construction, the origin of animation time. */
    const t0: real

    /** `clock` is the value `time.time()` returns at construction. */
    constructor (cfg: LumaConfig, clock: real)
      ensures this.cfg == cfg && t0 == clock
      ensures x == cfg.width / 2 && y == cfg.height / 2
      ensures lastInputTime == 0.0 && lastInputText == ""
    {
      this.cfg := cfg;
      // Python's // rounds down; Dafny's / on int does too for a positive divisor.
      x := cfg.width / 2;
      y := cfg.height / 2;
      lastInputTime := 0.0;
      lastInputText := "";
      t0 := clock;
    }

    /** `receive_input(text)` at clock reading `now`. */
    method ReceiveInput(text: string, now: real)
      modifies this
      ensures lastInputTime == now && lastInputText == Strip(text)
      ensures cfg.attentiveSeconds >= 0.0 ==> IsAttentive(now)
    {
      lastInputTime := now;
      lastInputText := Strip(text);
    }

    predicate IsAttentive(now: real)
      reads this
    {
      now - lastInputTime <= cfg.attentiveSeconds
    }

    /** `decay` stands for `exp(-age * 3.5)`. */
    function AttentionBump(now: real, decay: PosReal): (att: real)
      reads this
      ensures att >= 0.0
      ensures att == 0.0 <==> !IsAttentive(now)
    {
      if IsAttentive(now) then decay * 0.06 else 0.0
    }

    /** `radius_at(now)`, with `breath` for `sin(2*pi*pulse_hz*t)`, `wobble`
        for `_smooth_noise(t)` and `decay` for the exponential of the bump. */
    function RadiusAt(now: real, breath: real, wobble: real, decay: PosReal): (r: int)
      reads this
      ensures cfg.baseRadius >= 0 ==>
                Trunc(cfg.baseRadius as real * 0.82) <= r <= Trunc(cfg.baseRadius as real * 1.22)
      ensures cfg.baseRadius < 0 ==>
                Trunc(cfg.baseRadius as real * 1.22) <= r <= Trunc(cfg.baseRadius as real * 0.82)
    {
      var att := AttentionBump(now, decay);
      var scale := 1.0 + cfg.pulseAmp * breath + cfg.organicWobble * wobble + att;
      var c := ClampScale(scale);
      ScaledRadiusBounds(cfg.baseRadius, c);
      Trunc(cfg.baseRadius as real * c)
    }

    /** Luma does not move: `update` changes nothing. */
    method Update(dt: real)
      ensures unchanged(this)
    {
    }
  }

  /** Attentiveness only lapses: attentive at `now` means attentive at every
      earlier reading. */
  lemma AttentionOnlyLapses(luma: Luma, now: real, earlier: real)
    requires luma.IsAttentive(now) && earlier <= now
    ensures luma.IsAttentive(earlier)
  {
  }

  /** With the default configuration the orb turns its radius between 45 and
      68 pixels, and stays attentive for 0.7 seconds after input. */
  lemma DefaultRadiusRange(luma: Luma, now: real, breath: real, wobble: real, decay: PosReal)
    requires luma.cfg == DefaultConfig
    ensures 45 <= luma.RadiusAt(now, breath, wobble, decay) <= 68
    ensures luma.IsAttentive(now) <==> now - luma.lastInputTime <= 0.7
  {
    assert Trunc(56.0 * 0.82) == 45;
    assert Trunc(56.0 * 1.22) == 68;
  }
}
