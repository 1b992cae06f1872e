/** The animation loops of the NeoPixel example scripts (`strandtest.py`, and
    `testbase/LED_rainbow.py`, whose `rainbowCycle` and `colorWipe` are the same
    loops). Each one is proved to send exactly the frames of a specification
    function to the strip; the delays between frames are left out. */
module StrandTest {
  import opened LedColor
  import opened LedStrip

  /** `colorWipe`: pixel after pixel set to `color`, the strip shown after each. */
  method ColorWipe(strip: PixelStrip, color: Rgb)
    modifies strip, strip.pixels
    ensures strip.pixels[..] == Filled(strip.pixels.Length, color)
    ensures strip.history == old(strip.history)
      + seq(strip.pixels.Length, i => Wiped(old(strip.pixels[..]), i + 1, color))
    ensures strip.brightness == old(strip.brightness)
  {
    ghost var p := strip.pixels[..];
    ghost var h := strip.history;
    var i := 0;
    while i < strip.NumPixels()
      invariant 0 <= i <= strip.pixels.Length
      invariant strip.pixels[..] == Wiped(p, i, color)
      invariant strip.history == h + seq(i, k => Wiped(p, k + 1, color))
      invariant strip.brightness == old(strip.brightness)
    {
      strip.SetPixelColor(i, color);
      assert strip.pixels[..] == Wiped(p, i + 1, color);
      strip.Show();
      assert seq(i + 1, k => Wiped(p, k + 1, color)) == seq(i, k => Wiped(p, k + 1, color)) + [Wiped(p, i + 1, color)];
      i := i + 1;
    }
    assert Wiped(p, i, color) == Filled(i, color);
  }

  /** `for i in range(0, strip.numPixels(), 3): strip.setPixelColor(i+q, color)`;
      writes past the last pixel are dropped by the driver. */
  method LightEveryThird(strip: PixelStrip, q: int, color: Rgb)
    requires q >= 0
    modifies strip.pixels
    ensures strip.pixels[..] == Chase(old(strip.pixels[..]), q, color)
  {
    ghost var p := strip.pixels[..];
    var n := strip.NumPixels();
    var i := 0;
    while i < n
      invariant 0 <= i && i % 3 == 0
      invariant forall k :: 0 <= k < n ==> strip.pixels[k] == if Lit(k, q) && k - q < i then color else p[k]
    {
      strip.SetPixelColor(i + q, color);
      i := i + 3;
    }
    assert strip.pixels[..] == Chase(p, q, color);
  }

  /** One pass of `for q in range(3)` in `theaterChase`: light, show, switch off. */
  method ChaseStep(strip: PixelStrip, q: int, color: Rgb)
    requires q >= 0
    modifies strip, strip.pixels
    ensures strip.history == old(strip.history) + [Chase(old(strip.pixels[..]), q, color)]
    ensures strip.pixels[..] == Chase(old(strip.pixels[..]), q, Black)
    ensures strip.brightness == old(strip.brightness)
  {
    ghost var p := strip.pixels[..];
    LightEveryThird(strip, q, color);
    strip.Show();
    LightEveryThird(strip, q, Black);
    ChaseOverwrites(p, q, color, Black);
  }

  /** `theaterChase`: `iterations` rounds of three chase frames; the first round
      starts on whatever the strip held, and every round leaves all pixels off. */
  method TheaterChase(strip: PixelStrip, color: Rgb, iterations: nat)
    modifies strip, strip.pixels
    ensures strip.history == old(strip.history) + ChaseShow(old(strip.pixels[..]), color, iterations)
    ensures strip.pixels[..] == if iterations == 0 then old(strip.pixels[..]) else Filled(strip.pixels.Length, Black)
    ensures strip.brightness == old(strip.brightness)
  {
    ghost var p := strip.pixels[..];
    ghost var h := strip.history;
    var j := 0;
    while j < iterations
      invariant 0 <= j <= iterations
      invariant strip.pixels[..] == RoundStart(p, j)
      invariant strip.history == h + ChaseShow(p, color, j)
      invariant strip.brightness == old(strip.brightness)
    {
      ghost var start := strip.pixels[..];
      ghost var hj := strip.history;
      var q := 0;
      while q < 3
        invariant 0 <= q <= 3
        invariant strip.pixels[..] == Cleared(start, q)
        invariant strip.history == hj + ChaseRound(start, color)[..q]
        invariant strip.brightness == old(strip.brightness)
      {
        ChaseStep(strip, q, color);
        ChaseClears(start, q);
        assert ChaseRound(start, color)[..q + 1] == ChaseRound(start, color)[..q] + [Chase(Cleared(start, q), q, color)];
        q := q + 1;
      }
      assert ChaseRound(start, color)[..3] == ChaseRound(start, color);
      RoundStartCleared(p, j);
      j := j + 1;
    }
    if iterations > 0 {
      ClearedAll(p);
    }
  }

  /** `for i in range(strip.numPixels()): strip.setPixelColor(i, wheel((i+j) & 255))`. */
  method PaintRainbow(strip: PixelStrip, j: int)
    modifies strip.pixels
    ensures strip.pixels[..] == RainbowFrame(strip.pixels.Length, j)
  {
    var n := strip.NumPixels();
    var i := 0;
    while i < n
      invariant 0 <= i <= n
      invariant forall k :: 0 <= k < i ==> strip.pixels[k] == RainbowFrame(n, j)[k]
    {
      strip.SetPixelColor(i, WheelRaw(LowByte(i + j)));
      i := i + 1;
    }
    assert strip.pixels[..] == RainbowFrame(n, j);
  }

  /** `rainbow`: 256 steps per iteration, each one rainbow frame. */
  method Rainbow(strip: PixelStrip, iterations: nat)
    modifies strip, strip.pixels
    ensures strip.history == old(strip.history) + seq(256 * iterations, j => RainbowFrame(strip.pixels.Length, j))
    ensures iterations > 0 ==> strip.pixels[..] == RainbowFrame(strip.pixels.Length, 255)
    ensures iterations == 0 ==> strip.pixels[..] == old(strip.pixels[..])
    ensures strip.brightness == old(strip.brightness)
  {
    ghost var h := strip.history;
    var n := strip.NumPixels();
    var j := 0;
    while j < 256 * iterations
      invariant 0 <= j <= 256 * iterations
      invariant strip.history == h + seq(j, k => RainbowFrame(n, k))
      invariant j > 0 ==> strip.pixels[..] == RainbowFrame(n, j - 1)
      invariant j == 0 ==> strip.pixels[..] == old(strip.pixels[..])
      invariant strip.brightness == old(strip.brightness)
    {
      PaintRainbow(strip, j);
      strip.Show();
      assert seq(j + 1, k => RainbowFrame(n, k)) == seq(j, k => RainbowFrame(n, k)) + [RainbowFrame(n, j)];
      j := j + 1;
    }
    if iterations > 0 {
      RainbowPeriodic(n, 255, iterations - 1);
      assert 255 + 256 * (iterations - 1) == j - 1;
    }
  }

  /** `for i in range(n): strip.setPixelColor(i, wheel((int(i * 256 / n) + j) & 255))`. */
  method PaintCycle(strip: PixelStrip, j: int)
    modifies strip.pixels
    ensures strip.pixels[..] == CycleFrame(strip.pixels.Length, j)
  {
    var n := strip.NumPixels();
    var i := 0;
    while i < n
      invariant 0 <= i <= n
      invariant forall k :: 0 <= k < i ==> strip.pixels[k] == CycleFrame(n, j)[k]
    {
      strip.SetPixelColor(i, WheelRaw(LowByte(i * 256 / n + j)));
      i := i + 1;
    }
    assert strip.pixels[..] == CycleFrame(n, j);
  }

  /** `rainbowCycle`: 256 steps per iteration, the spread-out rainbow turned one
      position per step. */
  method RainbowCycle(strip: PixelStrip, iterations: nat)
    modifies strip, strip.pixels
    ensures strip.history == old(strip.history) + seq(256 * iterations, j => CycleFrame(strip.pixels.Length, j))
    ensures iterations > 0 ==> strip.pixels[..] == CycleFrame(strip.pixels.Length, 255)
    ensures iterations == 0 ==> strip.pixels[..] == old(strip.pixels[..])
    ensures strip.brightness == old(strip.brightness)
  {
    ghost var h := strip.history;
    var n := strip.NumPixels();
    var j := 0;
    while j < 256 * iterations
      invariant 0 <= j <= 256 * iterations
      invariant strip.history == h + seq(j, k => CycleFrame(n, k))
      invariant j > 0 ==> strip.pixels[..] == CycleFrame(n, j - 1)
      invariant j == 0 ==> strip.pixels[..] == old(strip.pixels[..])
      invariant strip.brightness == old(strip.brightness)
    {
      PaintCycle(strip, j);
      strip.Show();
      assert seq(j + 1, k => CycleFrame(n, k)) == seq(j, k => CycleFrame(n, k)) + [CycleFrame(n, j)];
      j := j + 1;
    }
    if iterations > 0 {
      RainbowPeriodic(n, 255, iterations - 1);
      assert 255 + 256 * (iterations - 1) == j - 1;
    }
  }

  /** The pixels after the rainbow chase loop of offset `q` has written the
      indices `q, q + 3, ...` below `q + i`. */
  ghost function RainbowChasedUpTo(p: seq<Rgb>, q: int, j: int, i: int): (r: seq<Rgb>)
    ensures |r| == |p|
  {
    seq(|p|, k requires 0 <= k < |p| => if Lit(k, q) && k - q < i then WheelRaw((k - q + j) % 255) else p[k])
  }

  /** One pass of that loop writes pixel `i + q` with the colour the chase gives it. */
  lemma RainbowChaseStep(p: seq<Rgb>, q: int, j: int, i: int)
    requires q >= 0 && i >= 0 && i % 3 == 0
    ensures Put(RainbowChasedUpTo(p, q, j, i), i + q, WheelRaw((i + j) % 255)) == RainbowChasedUpTo(p, q, j, i + 3)
  {
    var a := Put(RainbowChasedUpTo(p, q, j, i), i + q, WheelRaw((i + j) % 255));
    var b := RainbowChasedUpTo(p, q, j, i + 3);
    forall k | 0 <= k < |p| ensures a[k] == b[k] {
      if k == i + q {
        assert Lit(k, q) && k - q == i;
      } else if Lit(k, q) && k - q < i + 3 {
        assert k - q < i by {
          assert (k - q) % 3 == 0 && k - q != i;
        }
      }
    }
  }

  /** `for i in range(0, n, 3): strip.setPixelColor(i+q, wheel((i+j) % 255))`. */
  method LightEveryThirdRainbow(strip: PixelStrip, q: int, j: int)
    requires q >= 0
    modifies strip.pixels
    ensures strip.pixels[..] == ChaseRainbow(old(strip.pixels[..]), q, j)
  {
    ghost var p := strip.pixels[..];
    var n := strip.NumPixels();
    var i := 0;
    while i < n
      invariant 0 <= i && i % 3 == 0
      invariant strip.pixels[..] == RainbowChasedUpTo(p, q, j, i)
    {
      RainbowChaseStep(p, q, j, i);
      strip.SetPixelColor(i + q, WheelRaw((i + j) % 255));
      i := i + 3;
    }
    assert RainbowChasedUpTo(p, q, j, i) == ChaseRainbow(p, q, j);
  }

  /** `theaterChaseRainbow`: 256 rounds of three chase frames in wheel colours. */
  method TheaterChaseRainbow(strip: PixelStrip)
    modifies strip, strip.pixels
    ensures strip.history == old(strip.history) + ChaseRainbowShow(old(strip.pixels[..]), 256)
    ensures strip.pixels[..] == Filled(strip.pixels.Length, Black)
    ensures strip.brightness == old(strip.brightness)
  {
    ghost var p := strip.pixels[..];
    ghost var h := strip.history;
    var j := 0;
    while j < 256
      invariant 0 <= j <= 256
      invariant strip.pixels[..] == RoundStart(p, j)
      invariant strip.history == h + ChaseRainbowShow(p, j)
      invariant strip.brightness == old(strip.brightness)
    {
      ghost var start := strip.pixels[..];
      ghost var hj := strip.history;
      var q := 0;
      while q < 3
        invariant 0 <= q <= 3
        invariant strip.pixels[..] == Cleared(start, q)
        invariant strip.history == hj + ChaseRainbowRound(start, j)[..q]
        invariant strip.brightness == old(strip.brightness)
      {
        ghost var before := strip.pixels[..];
        LightEveryThirdRainbow(strip, q, j);
        strip.Show();
        LightEveryThird(strip, q, Black);
        ChaseRainbowOverwritten(before, q, j);
        ChaseClears(start, q);
        assert ChaseRainbowRound(start, j)[..q + 1] == ChaseRainbowRound(start, j)[..q] + [ChaseRainbow(Cleared(start, q), q, j)];
        q := q + 1;
      }
      assert ChaseRainbowRound(start, j)[..3] == ChaseRainbowRound(start, j);
      RoundStartCleared(p, j);
      j := j + 1;
    }
    ClearedAll(p);
  }
}
