/** The holographic orb's fixed geometry (holo_orb.py): how many points, links,
    sparks and rings construction produces, that every link joins two existing
    points, and the colour clamp the drawing uses. */
module Holo {
  import opened Wrappers
  import opened Numbers

  datatype HoloOrbStyle = HoloOrbStyle(
    points: int,
    links: int,
    sparks: int,
    rings: int,
    shellLayers: int,
    jitter: real)

  /** The field defaults of `HoloOrbStyle`. */
  const DefaultStyle := HoloOrbStyle(220, 320, 90, 6, 4, 0.012)

  /** `style or HoloOrbStyle()`: a style object is always truthy, so only a
      missing style falls back to the defaults. */
  function StyleOrDefault(style: Option<HoloOrbStyle>): (s: HoloOrbStyle)
    ensures style.Some? ==> s == style.value
    ensures style.None? ==> s == DefaultStyle && s.points >= 2
  {
    if style.Some? then style.value else DefaultStyle
  }

  /** A style the constructor can build without raising. */
  predicate Buildable(s: HoloOrbStyle) {
    s.points >= 2 || (s.points <= 0 && s.links <= 0)
  }

  /** The number of iterations of `range(n)`. */
  function Count(n: int): nat {
    if n > 0 then n else 0
  }

  // ------------------------------------------------------------ colours

  /** `_clamp`: `int(v)` saturated to a colour channel. */
  function Clamp(v: real): (c: int)
    ensures 0 <= c <= 255
    ensures v < 0.0 ==> c == 0
    ensures v >= 255.0 ==> c == 255
    ensures 0.0 <= v < 255.0 ==> c as real <= v < c as real + 1.0
  {
    var n := Trunc(v);
    if n > 255 then 255 else if n < 0 then 0 else n
  }

  /** A channel that is already an integer in range passes unchanged, and
      clamping twice is clamping once. */
  lemma ClampIdentityAndIdempotent(n: int, v: real)
    ensures 0 <= n <= 255 ==> Clamp(n as real) == n
    ensures Clamp(Clamp(v) as real) == Clamp(v)
  {
    TruncOfInt(n);
    TruncOfInt(Clamp(v));
  }

  datatype Rgba = Rgba(r: int, g: int, b: int, a: int)

  predicate IsChannel(n: int) {
    0 <= n <= 255
  }

  /** `_rgba`: each of r, g, b and a clamped on its own, in that order. */
  function ToRgba(rgb: (real, real, real), a: real): (c: Rgba)
    ensures IsChannel(c.r) && IsChannel(c.g) && IsChannel(c.b) && IsChannel(c.a)
    ensures c.r == Clamp(rgb.0) && c.g == Clamp(rgb.1) && c.b == Clamp(rgb.2) && c.a == Clamp(a)
  {
    Rgba(Clamp(rgb.0), Clamp(rgb.1), Clamp(rgb.2), Clamp(a))
  }

  /** A colour whose channels are all in range comes out of `_rgba` as it went in. */
  lemma ToRgbaKeepsValidColour(r: int, g: int, b: int, a: int)
    requires IsChannel(r) && IsChannel(g) && IsChannel(b) && IsChannel(a)
    ensures ToRgba((r as real, g as real, b as real), a as real) == Rgba(r, g, b, a)
  {
    ClampIdentityAndIdempotent(r, 0.0);
    ClampIdentityAndIdempotent(g, 0.0);
    ClampIdentityAndIdempotent(b, 0.0);
    ClampIdentityAndIdempotent(a, 0.0);
  }

  /** The weight `k` of glow layer `i` in `draw`. */
  function GlowWeight(i: int, layers: int): (k: real)
    requires 0 <= i < layers
    ensures 0.0 < k <= 1.0
    ensures i == 0 ==> k == 1.0
  {
    var d := if layers > 1 then layers else 1;
    1.0 - i as real / d as real
  }

  /** Outer glow layers get strictly fainter. */
  lemma GlowFades(i: int, j: int, layers: int)
    requires 0 <= i < j < layers
    ensures GlowWeight(j, layers) < GlowWeight(i, layers)
  {
    var d := layers as real;
    var a, b := i as real / d, j as real / d;
    assert a * d == i as real && b * d == j as real;
    assert (b - a) * d == (j - i) as real;
    if b <= a {
      MulNonPositive(b - a, d);
    }
  }

  lemma MulNonPositive(x: real, d: real)
    requires x <= 0.0 && d > 0.0
    ensures x * d <= 0.0
  {
  }

  lemma MulNonNegative(x: real, d: real)
    requires x >= 0.0 && d >= 0.0
    ensures x * d >= 0.0
  {
  }

  // ------------------------------------------------------------ geometry

  /** A point of the Fibonacci sphere: its height `y` and the square `rr` of
      the radius of its horizontal circle. The trigonometric `x` and `z`,
      `cos(phi)*r` and `sin(phi)*r`, are not modelled. */
  datatype Point = Point(y: real, rr: real)

  /** The i-th of n points: heights spaced evenly from 1 down to -1. */
  function FibonacciPoint(i: int, n: int): (p: Point)
    requires n >= 2 && 0 <= i < n
    ensures -1.0 <= p.y <= 1.0
    ensures p.y * p.y + p.rr == 1.0
    ensures i == 0 ==> p.y == 1.0
    ensures i == n - 1 ==> p.y == -1.0
  {
    var q := (2 * i) as real / (n - 1) as real;
    assert 0.0 <= q <= 2.0 by {
      assert q * (n - 1) as real == (2 * i) as real;
    }
    var y := 1.0 - q;
    assert y * y <= 1.0 by {
      assert 1.0 - y * y == (1.0 - y) * (1.0 + y);
      MulNonNegative(1.0 - y, 1.0 + y);
    }
    Point(y, if 1.0 - y * y > 0.0 then 1.0 - y * y else 0.0)
  }

  /** A spark: its start angle as a fraction of a turn (the source draws
      `random() * 2 * pi` radians), its speed, its phase (the raw `random()`
      value, added in radians to the flicker angle) and its reach. */
  datatype Spark = Spark(turn: real, speed: real, phase: real, reach: real)

  /** A ring: its rotation axis, start angle as a fraction of a turn, speed. */
  datatype Ring = Ring(axis: string, turn: real, speed: real)

  const Axes := ["x", "y", "z"]

  predicate ValidSpark(s: Spark) {
    0.0 <= s.turn < 1.0 && 0.25 <= s.speed < 1.35 && 0.0 <= s.phase < 1.0 && 0.35 <= s.reach < 1.0
  }

  predicate ValidRing(r: Ring) {
    r.axis in Axes && 0.0 <= r.turn < 1.0 && 0.25 <= r.speed < 1.15
  }

  /** The default orb: 220 Fibonacci points from height 1 down to -1, and
      320 links, each joining two of them. */
  method DefaultOrb() returns (orb: HoloOrb)
    ensures fresh(orb) && orb.Valid() && orb.style == DefaultStyle
    ensures |orb.pts| == 220 && |orb.links| == 320 && |orb.sparks| == 90 && |orb.rings| == 6
    ensures orb.pts[0].y == 1.0 && orb.pts[219].y == -1.0
    ensures forall k :: 0 <= k < 320 ==> 0 <= orb.links[k].0 < 220 && 0 <= orb.links[k].1 < 220
  {
    orb := new HoloOrb();
  }

  /** A seeded generator with the range guarantees of Python's `randrange`,
      `random` and `choice`. The Mersenne Twister itself is replaced by a
      linear congruential step. */
  class Random {
    var state: nat

    constructor (seed: int)
    {
      state := if seed >= 0 then seed else -seed;
    }

    method Step()
      modifies this
    {
      state := (state * 1103515245 + 12345) % 2147483648;
    }

    method RandRange(n: int) returns (r: int)
      requires n > 0
      modifies this
      ensures 0 <= r < n
    {
      Step();
      r := state % n;
    }

    method Uniform() returns (u: real)
      modifies this
      ensures 0.0 <= u < 1.0
    {
      Step();
      u := (state % 1000000) as real / 1000000.0;
    }

    method Choice(options: seq<string>) returns (c: string)
      requires |options| > 0
      modifies this
      ensures c in options
    {
      var k := RandRange(|options|);
      c := options[k];
    }
  }

  class HoloOrb {
    const style: HoloOrbStyle
    var pts: seq<Point>
    var links: seq<(int, int)>
    var sparks: seq<Spark>
    var rings: seq<Ring>

    /** One point per `range(points)`, one link, spark and ring per iteration
        of their ranges, and every link endpoint indexes a point. */
    ghost predicate Valid()
      reads this
    {
      && |pts| == Count(style.points)
      && |links| == Count(style.links)
      && |sparks| == Count(style.sparks)
      && |rings| == Count(style.rings)
      && (forall k :: 0 <= k < |pts| ==> style.points >= 2 && pts[k] == FibonacciPoint(k, style.points))
      && (forall k :: 0 <= k < |links| ==> 0 <= links[k].0 < |pts| && 0 <= links[k].1 < |pts|)
      && (forall k :: 0 <= k < |sparks| ==> ValidSpark(sparks[k]))
      && (forall k :: 0 <= k < |rings| ==> ValidRing(rings[k]))
    }

    /** The Fibonacci step divides by `points - 1`, so one point raises
        ZeroDivisionError; with no points, any link raises ValueError from
        `randrange(0)`. */
    constructor (styleArg: Option<HoloOrbStyle> := None, seed: int := 7)
      requires Buildable(StyleOrDefault(styleArg))
      ensures style == StyleOrDefault(styleArg) && Valid()
    {
      var style := StyleOrDefault(styleArg);
      var rnd := new Random(seed);
      var n := style.points;

      var ps: seq<Point> := [];
      var i := 0;
      while i < n
        invariant 0 <= i <= Count(n) && |ps| == i
        invariant forall k :: 0 <= k < i ==> n >= 2 && ps[k] == FibonacciPoint(k, n)
      {
        ps := ps + [FibonacciPoint(i, n)];
        i := i + 1;
      }

      var ls: seq<(int, int)> := [];
      i := 0;
      while i < style.links
        invariant 0 <= i <= Count(style.links) && |ls| == i
        invariant forall k :: 0 <= k < i ==> 0 <= ls[k].0 < Count(n) && 0 <= ls[k].1 < Count(n)
      {
        var a := rnd.RandRange(n);
        var b := rnd.RandRange(n);
        ls := ls + [(a, b)];
        i := i + 1;
      }

      var ss: seq<Spark> := [];
      i := 0;
      while i < style.sparks
        invariant 0 <= i <= Count(style.sparks) && |ss| == i
        invariant forall k :: 0 <= k < i ==> ValidSpark(ss[k])
      {
        var u1 := rnd.Uniform();
        var u2 := rnd.Uniform();
        var u3 := rnd.Uniform();
        var u4 := rnd.Uniform();
        ss := ss + [Spark(u1, 0.25 + u2 * 1.1, u3, 0.35 + u4 * 0.65)];
        i := i + 1;
      }

      var rs: seq<Ring> := [];
      i := 0;
      while i < style.rings
        invariant 0 <= i <= Count(style.rings) && |rs| == i
        invariant forall k :: 0 <= k < i ==> ValidRing(rs[k])
      {
        var axis := rnd.Choice(Axes);
        var u1 := rnd.Uniform();
        var u2 := rnd.Uniform();
        rs := rs + [Ring(axis, u1, 0.25 + u2 * 0.9)];
        i := i + 1;
      }

      this.style := style;
      pts, links, sparks, rings := ps, ls, ss, rs;
    }

    /** The `proj[a]`, `proj[b]` lookups of the link pass in `draw`, given one
        projected entry per point: every lookup is in bounds and pairs the two
        endpoints of the link in order. */
    function LinkEnds<P>(proj: seq<P>): (ends: seq<(P, P)>)
      reads this
      requires Valid() && |proj| == |pts|
      ensures |ends| == |links|
      ensures forall k :: 0 <= k < |links| ==> ends[k] == (proj[links[k].0], proj[links[k].1])
    {
        var ls := links;
      seq(|ls|, k requires 0 <= k < |ls| && 0 <= ls[k].0 < |proj| && 0 <= ls[k].1 < |proj| =>
                  (proj[ls[k].0], proj[ls[k].1]))
    }
  }
}
