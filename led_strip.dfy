/** The LED strip the programs drive, and the frames their animations paint on it. */
module LedStrip {
  import opened LedColor

  /** Writing colour `c` to pixel `i`: an index off the end of the strip is
      refused by the driver and changes nothing. */
  function Put(p: seq<Rgb>, i: int, c: Rgb): (r: seq<Rgb>)
    ensures |r| == |p|
    ensures forall k :: 0 <= k < |p| ==> r[k] == if k == i then c else p[k]
  {
    if 0 <= i < |p| then p[i := c] else p
  }

  /** Every one of `n` pixels set to `c`. */
  function Filled(n: nat, c: Rgb): (r: seq<Rgb>)
    ensures |r| == n && forall k :: 0 <= k < n ==> r[k] == c
  {
    seq(n, _ => c)
  }

  /** The frame `rainbow` shows at step `j`: pixel `i` on wheel position `(i + j) & 255`. */
  function RainbowFrame(n: nat, j: int): (r: seq<Rgb>)
    ensures |r| == n
  {
    seq(n, i => WheelRaw(LowByte(i + j)))
  }

  /** The frame `rainbowCycle` and `update_rainbow_cycle_frame` show at offset `j`:
      the whole wheel spread once over the strip, turned by `j`. */
  function CycleFrame(n: nat, j: int): (r: seq<Rgb>)
    ensures |r| == n
  {
    seq(n, i requires 0 <= i < n => WheelRaw(CyclePos(i, n, j)))
  }

  /** Whether pixel `k` is among `i + q` for `i` in `range(0, n, 3)`. */
  predicate Lit(k: int, q: int)
  {
    k >= q && (k - q) % 3 == 0
  }

  /** One theatre-chase write: every third pixel from `q` on set to `c`, that
      is, exactly the pixels from `q` on whose index is `q` mod 3. */
  function Chase(p: seq<Rgb>, q: int, c: Rgb): (r: seq<Rgb>)
    ensures |r| == |p|
    ensures forall k :: 0 <= k < |p| ==> r[k] == if q <= k && k % 3 == q % 3 then c else p[k]
  {
    seq(|p|, k requires 0 <= k < |p| => if Lit(k, q) then c else p[k])
  }

  /** One rainbow theatre-chase write at step `j`: pixel `i + q` gets wheel
      position `(i + j) % 255`. */
  function ChaseRainbow(p: seq<Rgb>, q: int, j: int): (r: seq<Rgb>)
    ensures |r| == |p|
  {
    seq(|p|, k requires 0 <= k < |p| => if Lit(k, q) then WheelRaw((k - q + j) % 255) else p[k])
  }

  /** The pixels whose index leaves a remainder below `q` mod 3 switched off. */
  function Cleared(p: seq<Rgb>, q: int): (r: seq<Rgb>)
    ensures |r| == |p|
  {
    seq(|p|, k requires 0 <= k < |p| => if k % 3 < q then Black else p[k])
  }

  /** The frame `colorWipe` shows after lighting its first `i` pixels. */
  function Wiped(p: seq<Rgb>, i: int, c: Rgb): (r: seq<Rgb>)
    ensures |r| == |p|
  {
    seq(|p|, k requires 0 <= k < |p| => if k < i then c else p[k])
  }

  /** The pixels a chase round starts from: as given in the first round, all off after it. */
  function RoundStart(p: seq<Rgb>, j: int): seq<Rgb>
  {
    if j == 0 then p else Cleared(p, 3)
  }

  /** The three frames of one `theaterChase` round started on pixels `p`. */
  function ChaseRound(p: seq<Rgb>, c: Rgb): (r: seq<seq<Rgb>>)
    ensures |r| == 3
  {
    seq(3, q requires 0 <= q < 3 => Chase(Cleared(p, q), q, c))
  }

  /** Every frame `theaterChase` shows in `m` rounds. */
  function ChaseShow(p: seq<Rgb>, c: Rgb, m: nat): (r: seq<seq<Rgb>>)
    ensures |r| == 3 * m
  {
    if m == 0 then [] else ChaseShow(p, c, m - 1) + ChaseRound(RoundStart(p, m - 1), c)
  }

  /** The three frames of round `j` of `theaterChaseRainbow` started on pixels `p`. */
  function ChaseRainbowRound(p: seq<Rgb>, j: int): (r: seq<seq<Rgb>>)
    ensures |r| == 3
  {
    seq(3, q requires 0 <= q < 3 => ChaseRainbow(Cleared(p, q), q, j))
  }

  /** Every frame of the first `m` rounds of `theaterChaseRainbow`. */
  function ChaseRainbowShow(p: seq<Rgb>, m: nat): (r: seq<seq<Rgb>>)
    ensures |r| == 3 * m
  {
    if m == 0 then [] else ChaseRainbowShow(p, m - 1) + ChaseRainbowRound(RoundStart(p, m - 1), m - 1)
  }

  /** The stand-in for rpi_ws281x's `Adafruit_NeoPixel`: the colour buffer that
      `setPixelColor` writes, the brightness, and every frame `show` has sent
      to the LEDs so far, oldest first. */
  class PixelStrip {
    const pixels: array<Rgb>
    var brightness: int
    /** The colour buffers `show` has sent, oldest first.  The brightness a
        frame was sent at is not recorded with it: `brightness` is a field of
        its own, and every operation's contract states its new value. */
    ghost var history: seq<seq<Rgb>>

    constructor (count: nat, brightness: int)
      ensures fresh(pixels) && pixels.Length == count
      ensures pixels[..] == Filled(count, Black) && history == []
      ensures this.brightness == brightness
    {
      pixels := new Rgb[count](_ => Black);
      this.brightness := brightness;
      history := [];
    }

    function NumPixels(): nat
    {
      pixels.Length
    }

    method SetPixelColor(i: int, c: Rgb)
      modifies pixels
      ensures pixels[..] == Put(old(pixels[..]), i, c)
    {
      if 0 <= i < pixels.Length {
        pixels[i] := c;
      }
    }

    method Show()
      modifies this
      ensures history == old(history) + [pixels[..]] && brightness == old(brightness)
    {
      history := history + [pixels[..]];
    }

    method SetBrightness(b: int)
      modifies this
      ensures brightness == b && history == old(history)
    {
      brightness := b;
    }
  }

  /** Every colour of a rainbow or rainbow-cycle frame is a wheel colour: bytes summing to 255. */
  lemma RainbowColorsOnWheel(n: nat, j: int, k: int)
    requires 0 <= k < n
    ensures ValidRgb(RainbowFrame(n, j)[k]) && ValidRgb(CycleFrame(n, j)[k])
    ensures RainbowFrame(n, j)[k].r + RainbowFrame(n, j)[k].g + RainbowFrame(n, j)[k].b == 255
    ensures CycleFrame(n, j)[k].r + CycleFrame(n, j)[k].g + CycleFrame(n, j)[k].b == 255
  {
    assert RainbowFrame(n, j)[k] == WheelRaw(LowByte(k + j));
    assert CycleFrame(n, j)[k] == WheelRaw(CyclePos(k, n, j));
  }

  /** From one `rainbow` step to the next the pattern moves one pixel down the strip. */
  lemma RainbowMoves(n: nat, j: int, k: int)
    requires 0 <= k && k + 1 < n
    ensures RainbowFrame(n, j + 1)[k] == RainbowFrame(n, j)[k + 1]
  {
    assert k + (j + 1) == (k + 1) + j;
  }

  /** Both rainbows repeat every 256 steps. */
  lemma RainbowPeriodic(n: nat, j: int, m: int)
    ensures RainbowFrame(n, j + 256 * m) == RainbowFrame(n, j)
    ensures CycleFrame(n, j + 256 * m) == CycleFrame(n, j)
  {
    forall k | 0 <= k < n
      ensures RainbowFrame(n, j + 256 * m)[k] == RainbowFrame(n, j)[k]
      ensures CycleFrame(n, j + 256 * m)[k] == CycleFrame(n, j)[k]
    {
      ModShift(k + j, m);
      assert k + (j + 256 * m) == (k + j) + 256 * m;
      assert LowByte(k + (j + 256 * m)) == LowByte(k + j);
      CyclePosPeriodic(k, n, j, m);
    }
  }

  /** The rainbow cycle's first pixel sits on the wheel position of the offset,
      and the frame walks the wheel once in order along the strip. */
  lemma CycleFrameSpread(n: nat, j: int, k: int)
    requires 0 <= k < n
    ensures CycleFrame(n, j)[0] == WheelRaw(LowByte(j))
    ensures CycleFrame(n, j)[k] == WheelRaw(LowByte(Spread(k, n) + j))
    ensures k + 1 < n ==> Spread(k, n) <= Spread(k + 1, n)
  {
    if k + 1 < n {
      SpreadMonotone(k, n);
    }
  }

  /** A later chase write over the same pixels wins. */
  lemma ChaseOverwrites(p: seq<Rgb>, q: int, c: Rgb, d: Rgb)
    ensures Chase(Chase(p, q, c), q, d) == Chase(p, q, d)
  {
  }

  /** Switching off every third pixel from `q` on extends the cleared remainders by `q`. */
  lemma ChaseClears(p: seq<Rgb>, q: int)
    requires 0 <= q < 3
    ensures Chase(Cleared(p, q), q, Black) == Cleared(p, q + 1)
  {
    forall k | 0 <= k < |p|
      ensures Lit(k, q) <==> k % 3 == q
    {
    }
  }

  /** After the three chase offsets every pixel is off. */
  lemma ClearedAll(p: seq<Rgb>)
    ensures Cleared(p, 3) == Filled(|p|, Black)
  {
  }

  /** The last frame of a chase round: every pixel with index 2 mod 3 lit, the rest off. */
  lemma ChaseLastFrame(p: seq<Rgb>, c: Rgb, k: int)
    requires 0 <= k < |p|
    ensures Chase(Cleared(p, 2), 2, c)[k] == if k % 3 == 2 then c else Black
  {
  }

  /** A rainbow chase lights pixel `k` with wheel position `(k - q + j) % 255`, always in 0..254. */
  lemma ChaseRainbowOnWheel(p: seq<Rgb>, q: int, j: int, k: int)
    requires 0 <= k < |p| && Lit(k, q)
    ensures 0 <= (k - q + j) % 255 <= 254
    ensures ChaseRainbow(p, q, j)[k] == WheelRaw((k - q + j) % 255)
    ensures ValidRgb(ChaseRainbow(p, q, j)[k])
  {
  }

  /** Switching off the pixels a rainbow chase lit undoes that write. */
  lemma ChaseRainbowOverwritten(p: seq<Rgb>, q: int, j: int)
    ensures Chase(ChaseRainbow(p, q, j), q, Black) == Chase(p, q, Black)
  {
  }

  /** A finished chase round leaves the strip as the next round starts. */
  lemma RoundStartCleared(p: seq<Rgb>, j: int)
    requires j >= 0
    ensures Cleared(RoundStart(p, j), 3) == RoundStart(p, j + 1)
  {
  }

  /** The last frame `theaterChase` shows lights exactly the pixels with index
      2 mod 3, whatever the strip held before, and the first round lights the
      pixels with index 0 mod 3 over the old contents. */
  lemma ChaseShowEnds(p: seq<Rgb>, c: Rgb, m: nat, k: int)
    requires m > 0 && 0 <= k < |p|
    ensures ChaseShow(p, c, m)[3 * m - 1][k] == if k % 3 == 2 then c else Black
    ensures ChaseShow(p, c, m)[0] == Chase(p, 0, c)
    ensures ChaseShow(p, c, m)[0][k] == if k % 3 == 0 then c else p[k]
  {
    ChaseLastFrame(RoundStart(p, m - 1), c, k);
    ChaseShowFirst(p, c, m);
  }

  lemma {:induction false} ChaseShowFirst(p: seq<Rgb>, c: Rgb, m: nat)
    requires m > 0
    ensures ChaseShow(p, c, m)[0] == Chase(p, 0, c)
  {
    if m > 1 {
      ChaseShowFirst(p, c, m - 1);
    } else {
      assert Cleared(p, 0) == p;
    }
  }
}
