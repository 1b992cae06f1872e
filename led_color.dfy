/** Colour arithmetic shared by the LED programs: the colour wheel, the pixel
    positions of the rainbow animations and the brightness clamp. */
module LedColor {

  /** What `Color(r, g, b)` packs: one channel value per colour. */
  datatype Rgb = Rgb(r: int, g: int, b: int)

  /** `Color(0, 0, 0)`, which is also what writing the integer 0 sets. */
  const Black := Rgb(0, 0, 0)

  predicate ValidRgb(c: Rgb)
  {
    0 <= c.r <= 255 && 0 <= c.g <= 255 && 0 <= c.b <= 255
  }

  /** `wheel(pos)` of the example scripts: three linear ramps, no range check.
      Inside 0..255 every channel is a byte and the channels sum to 255. */
  function WheelRaw(pos: int): (c: Rgb)
    ensures 0 <= pos <= 255 ==> ValidRgb(c) && c.r + c.g + c.b == 255
  {
    if pos < 85 then Rgb(pos * 3, 255 - pos * 3, 0)
    else if pos < 170 then Rgb(255 - (pos - 85) * 3, 0, (pos - 85) * 3)
    else Rgb(0, (pos - 170) * 3, 255 - (pos - 170) * 3)
  }

  /** `_wheel(pos)` of the controllers: a position outside 0..255 is first
      reduced with Python's `%`, which for the divisor 256 agrees with Dafny's. */
  function Wheel(pos: int): (c: Rgb)
    ensures ValidRgb(c) && c.r + c.g + c.b == 255
    ensures 0 <= pos <= 255 ==> c == WheelRaw(pos)
    ensures c == WheelRaw(pos % 256)
  {
    WheelRaw(if pos < 0 || pos > 255 then pos % 256 else pos)
  }

  /** Which wheel position a colour on the wheel came from. */
  function WheelIndex(c: Rgb): int
  {
    if c.b == 0 && c.g > 0 then c.r / 3
    else if c.g == 0 then 85 + c.b / 3
    else 170 + c.g / 3
  }

  /** The wheel runs through 255 distinct colours on 0..254: its index undoes it. */
  lemma WheelRoundTrip(pos: int)
    requires 0 <= pos <= 254
    ensures WheelIndex(WheelRaw(pos)) == pos
  {
    if pos < 85 {
      assert WheelRaw(pos) == Rgb(pos * 3, 255 - pos * 3, 0);
    } else if pos < 170 {
      assert WheelRaw(pos).b == (pos - 85) * 3 && WheelRaw(pos).g == 0;
    } else if pos == 170 {
      assert WheelRaw(pos) == Rgb(0, 0, 255);
    } else {
      assert WheelRaw(pos).g == (pos - 170) * 3 > 0 && WheelRaw(pos).b > 0;
    }
  }

  /** Different positions in 0..254 give different colours... */
  lemma WheelInjective(p: int, q: int)
    requires 0 <= p <= 254 && 0 <= q <= 254 && WheelRaw(p) == WheelRaw(q)
    ensures p == q
  {
    WheelRoundTrip(p);
    WheelRoundTrip(q);
  }

  /** ...and position 255 closes the circle on the colour of position 0. */
  lemma WheelWraps()
    ensures WheelRaw(255) == WheelRaw(0) == Rgb(0, 255, 0)
    ensures Wheel(256) == Wheel(0) && Wheel(-1) == Wheel(255)
  {
  }

  /** `x & 255`: Python's bitwise and with 255 keeps the low byte of the
      two's-complement value, which is the non-negative remainder mod 256. */
  function LowByte(x: int): (r: int)
    ensures 0 <= r <= 255
    ensures (x - r) % 256 == 0
  {
    x % 256
  }

  /** `int(i * 256 / n)` for a pixel index `i` of an `n`-pixel strip: the
      rainbow is spread evenly over the strip, the first pixel at 0. */
  function Spread(i: int, n: int): (r: int)
    requires 0 <= i < n
    ensures 0 <= r < 256
    ensures r * n <= i * 256 < (r + 1) * n
  {
    i * 256 / n
  }

  /** Further along the strip never means earlier on the wheel. */
  lemma SpreadMonotone(k: int, n: int)
    requires 0 <= k && k + 1 < n
    ensures Spread(k, n) <= Spread(k + 1, n)
  {
    var a, b := Spread(k, n), Spread(k + 1, n);
    assert a * n < (b + 1) * n;
    CancelFactor(a, b + 1, n);
  }

  lemma CancelFactor(x: int, y: int, n: int)
    requires n > 0 && x * n < y * n
    ensures x < y
  {
  }

  /** The wheel position of pixel `i` in a rainbow-cycle frame with offset `j`. */
  function CyclePos(i: int, n: int, j: int): (p: int)
    requires 0 <= i < n
    ensures 0 <= p <= 255
  {
    LowByte(Spread(i, n) + j)
  }

  /** Two offsets that differ by a multiple of 256 place every pixel on the
      same wheel position. */
  lemma CyclePosPeriodic(i: int, n: int, j: int, k: int)
    requires 0 <= i < n
    ensures CyclePos(i, n, j + 256 * k) == CyclePos(i, n, j)
  {
    var x := Spread(i, n) + j;
    assert (x + 256 * k) % 256 == x % 256 by {
      ModShift(x, k);
    }
  }

  /** Adding a multiple of 256 does not change the remainder mod 256. */
  lemma {:induction false} ModShift(x: int, k: int)
    ensures (x + 256 * k) % 256 == x % 256
    decreases if k < 0 then -k else k
  {
    if k > 0 {
      ModShift(x, k - 1);
      assert x + 256 * k == (x + 256 * (k - 1)) + 256;
    } else if k < 0 {
      ModShift(x, k + 1);
      assert x + 256 * k == (x + 256 * (k + 1)) - 256;
    }
  }

  /** The offset bookkeeping of `SPI_v2/led_controller.py`, modulo 1280, places
      the pixels exactly as the modulo 256 of `SPI_v2/led_v2.py` does. */
  lemma OffsetPeriodsAgree(i: int, n: int, j: int)
    requires 0 <= i < n
    ensures CyclePos(i, n, j % 1280) == CyclePos(i, n, j % 256)
  {
    var a := j % 1280;
    var b := j % 256;
    assert a == b + 256 * ((a - b) / 256) by {
      assert j == 1280 * (j / 1280) + a;
      assert j == 256 * (j / 256) + b;
      assert a - b == 256 * (j / 256 - 5 * (j / 1280));
    }
    CyclePosPeriodic(i, n, b, (a - b) / 256);
  }

  /** `max(0, min(255, value))`: a brightness is always a byte, and a byte is kept as it is. */
  function ClampBrightness(v: int): (r: int)
    ensures 0 <= r <= 255
    ensures 0 <= v <= 255 ==> r == v
    ensures v < 0 ==> r == 0
    ensures v > 255 ==> r == 255
  {
    if v < 0 then 0 else if v > 255 then 255 else v
  }
}
