/** The two `LedController` classes the game can drive (`SPI_v2/led_controller.py`
    and its successor `SPI_v2/led_v2.py`). They differ only in the period of the
    rainbow offset and in the extra options of the later file, so they are one
    class here, told apart by `version`. */
module LedControl {
  import opened LedColor
  import opened LedStrip
  import StrandTest
  import opened Wrappers

  datatype Version =
    | Original  // SPI_v2/led_controller.py
    | Spi       // SPI_v2/led_v2.py

  /** `rainbow_j_offset` counts modulo `256 * 5` in the first file and modulo 256 in the second. */
  function Period(v: Version): (p: int)
    ensures p > 0 && p % 256 == 0
  {
    match v
    case Original => 256 * 5
    case Spi => 256
  }

  /** Every frame of `show_flash_pattern`: the flash colour, then all off, `times` times. */
  function FlashFrames(n: nat, c: Rgb, times: nat): (r: seq<seq<Rgb>>)
    ensures |r| == 2 * times
    ensures forall k :: 0 <= k < |r| ==> r[k] == if k % 2 == 0 then Filled(n, c) else Filled(n, Black)
  {
    if times == 0 then [] else FlashFrames(n, c, times - 1) + [Filled(n, c), Filled(n, Black)]
  }

  class LedController {
    const version: Version
    /** The `Adafruit_NeoPixel` object made by the constructor. */
    const device: PixelStrip
    /** `self.strip is not None`: a failed `begin` drops the strip for good. */
    var attached: bool
    var isOn: bool
    var rainbowOffset: int
    /** `default_brightness` of `SPI_v2/led_v2.py`: the brightness given to the constructor. */
    const defaultBrightness: int

    ghost predicate Valid()
      reads this
    {
      0 <= rainbowOffset < Period(version) && (isOn ==> attached)
    }

    /** Whether the strip is driven at all: `self.strip and self.is_on`. */
    predicate Live()
      reads this
    {
      attached && isOn
    }

    constructor (version: Version, count: nat, brightness: int)
      ensures this.version == version && defaultBrightness == brightness
      ensures fresh(device) && fresh(device.pixels) && device.pixels.Length == count
      ensures device.pixels[..] == Filled(count, Black) && device.history == []
      ensures device.brightness == brightness
      ensures attached && !isOn && rainbowOffset == 0
      ensures Valid()
    {
      this.version := version;
      device := new PixelStrip(count, brightness);
      attached := true;
      isOn := false;
      rainbowOffset := 0;
      defaultBrightness := brightness;
    }

    /** `begin()`: `ok` is whether the driver's `begin` returns rather than raising.
        A strip already on is left alone; a failure drops the strip. */
    method Begin(ok: bool)
      modifies this
      ensures old(isOn) ==> isOn && attached == old(attached)
      ensures !old(isOn) ==> isOn == attached == (old(attached) && ok)
      ensures rainbowOffset == old(rainbowOffset)
      ensures old(Valid()) ==> Valid()
    {
      if isOn {
        return;
      }
      if attached && ok {
        isOn := true;
      } else {
        attached := false;
        isOn := false;
      }
    }

    /** The loop of `update_rainbow_cycle_frame`, colouring with `_wheel`. */
    method PaintCycle(offset: int)
      modifies device.pixels
      ensures device.pixels[..] == CycleFrame(device.pixels.Length, offset)
    {
      var n := device.NumPixels();
      var i := 0;
      while i < n
        invariant 0 <= i <= n
        invariant forall k :: 0 <= k < i ==> device.pixels[k] == CycleFrame(n, offset)[k]
      {
        device.SetPixelColor(i, Wheel(LowByte(i * 256 / n + offset)));
        i := i + 1;
      }
      assert device.pixels[..] == CycleFrame(n, offset);
    }

    /** `update_rainbow_cycle_frame(j_offset)`: show the rainbow cycle at the
        given offset, or at the stored one and then advance it. Only the later
        file takes an offset. */
    method UpdateRainbowCycleFrame(jOffset: Option<int>)
      requires version == Spi || jOffset.None?
      modifies this, device, device.pixels
      ensures attached == old(attached) && isOn == old(isOn)
      ensures device.brightness == old(device.brightness)
      ensures !Live() ==> (device.pixels[..] == old(device.pixels[..]) &&
        device.history == old(device.history) && rainbowOffset == old(rainbowOffset))
      ensures Live() ==>
        var current := if jOffset.Some? then jOffset.value else old(rainbowOffset);
        device.pixels[..] == CycleFrame(device.pixels.Length, current) &&
        device.history == old(device.history) + [device.pixels[..]] &&
        rainbowOffset == if jOffset.None? then (old(rainbowOffset) + 1) % Period(version) else old(rainbowOffset)
      ensures old(Valid()) ==> Valid()
    {
      if !Live() {
        return;
      }
      var current := if jOffset.Some? then jOffset.value else rainbowOffset;
      PaintCycle(current);
      device.Show();
      if jOffset.None? {
        rainbowOffset := (rainbowOffset + 1) % Period(version);
      }
    }

    /** `reset_rainbow_animation_state()`: the next frame starts the rainbow from the top. */
    method ResetRainbowAnimationState()
      modifies this
      ensures rainbowOffset == 0
      ensures attached == old(attached) && isOn == old(isOn)
      ensures old(Valid()) ==> Valid()
    {
      rainbowOffset := 0;
    }

    /** `for i in range(self.strip.numPixels()): self.strip.setPixelColor(i, color)`. */
    method Paint(color: Rgb)
      modifies device.pixels
      ensures device.pixels[..] == Filled(device.pixels.Length, color)
    {
      var n := device.NumPixels();
      var i := 0;
      while i < n
        invariant 0 <= i <= n
        invariant forall k :: 0 <= k < i ==> device.pixels[k] == color
      {
        device.SetPixelColor(i, color);
        i := i + 1;
      }
      assert device.pixels[..] == Filled(n, color);
    }

    /** `clear()`: every pixel off, and shown. */
    method Clear()
      modifies device, device.pixels
      ensures device.brightness == old(device.brightness)
      ensures !Live() ==> device.pixels[..] == old(device.pixels[..]) && device.history == old(device.history)
      ensures Live() ==> (device.pixels[..] == Filled(device.pixels.Length, Black) &&
        device.history == old(device.history) + [device.pixels[..]])
    {
      if !Live() {
        return;
      }
      Paint(Black);
      device.Show();
    }

    /** `static_color(color, show)`: every pixel set to `color`, shown if asked. */
    method StaticColor(color: Rgb, show: bool)
      requires version == Spi
      modifies device, device.pixels
      ensures device.brightness == old(device.brightness)
      ensures !Live() ==> device.pixels[..] == old(device.pixels[..]) && device.history == old(device.history)
      ensures Live() ==> (device.pixels[..] == Filled(device.pixels.Length, color) &&
        device.history == old(device.history) + (if show then [device.pixels[..]] else []))
    {
      if !Live() {
        return;
      }
      Paint(color);
      if show {
        device.Show();
      }
    }

    /** `show_flash_pattern(flash_color, times)`: flash the whole strip `times` times.
        The pauses between frames are left out. */
    method ShowFlashPattern(flash: Rgb, times: nat)
      modifies device, device.pixels
      ensures device.brightness == old(device.brightness)
      ensures !Live() ==> device.pixels[..] == old(device.pixels[..]) && device.history == old(device.history)
      ensures Live() ==> device.history == old(device.history) + FlashFrames(device.pixels.Length, flash, times)
      ensures Live() && times > 0 ==> device.pixels[..] == Filled(device.pixels.Length, Black)
      ensures Live() && times == 0 ==> device.pixels[..] == old(device.pixels[..])
    {
      if !Live() {
        return;
      }
      ghost var h := device.history;
      var n := device.NumPixels();
      var t := 0;
      while t < times
        invariant 0 <= t <= times
        invariant Live()
        invariant device.history == h + FlashFrames(n, flash, t)
        invariant t > 0 ==> device.pixels[..] == Filled(n, Black)
        invariant t == 0 ==> device.pixels[..] == old(device.pixels[..])
        invariant device.brightness == old(device.brightness)
      {
        Paint(flash);
        device.Show();
        Clear();
        t := t + 1;
      }
    }

    /** `set_brightness(value, show)`: a byte-clamped brightness, shown if asked;
        the first file always shows. */
    method SetBrightness(value: int, show: bool)
      requires version == Spi || show
      modifies device
      ensures !Live() ==> device.brightness == old(device.brightness) && device.history == old(device.history)
      ensures Live() ==> (device.brightness == ClampBrightness(value) &&
        device.history == old(device.history) + (if show then [device.pixels[..]] else []))
    {
      if !Live() {
        return;
      }
      device.SetBrightness(ClampBrightness(value));
      if show {
        device.Show();
      }
    }

    /** `reset_to_default_brightness(show)`: back to the constructor's brightness. */
    method ResetToDefaultBrightness(show: bool)
      requires version == Spi
      modifies device
      ensures !Live() ==> device.brightness == old(device.brightness) && device.history == old(device.history)
      ensures Live() ==> (device.brightness == ClampBrightness(defaultBrightness) &&
        device.history == old(device.history) + (if show then [device.pixels[..]] else []))
    {
      SetBrightness(defaultBrightness, show);
    }

    /** `color_wipe(color)`: the wipe of the example scripts, on a live strip only. */
    method ColorWipe(color: Rgb)
      requires version == Spi
      modifies device, device.pixels
      ensures device.brightness == old(device.brightness)
      ensures !Live() ==> device.pixels[..] == old(device.pixels[..]) && device.history == old(device.history)
      ensures Live() ==> (device.pixels[..] == Filled(device.pixels.Length, color) &&
        device.history == old(device.history)
          + seq(device.pixels.Length, i => Wiped(old(device.pixels[..]), i + 1, color)))
    {
      if !Live() {
        return;
      }
      StrandTest.ColorWipe(device, color);
    }

    /** `rainbow_effect(iterations)`: the `rainbow` of the example scripts on a
        live strip; `_wheel` agrees with their `wheel` on the masked positions. */
    method RainbowEffect(iterations: nat)
      requires version == Spi
      modifies device, device.pixels
      ensures device.brightness == old(device.brightness)
      ensures !Live() ==> device.pixels[..] == old(device.pixels[..]) && device.history == old(device.history)
      ensures Live() ==> (device.history == old(device.history)
        + seq(256 * iterations, j => RainbowFrame(device.pixels.Length, j)))
      ensures Live() && iterations > 0 ==> device.pixels[..] == RainbowFrame(device.pixels.Length, 255)
      ensures Live() && iterations == 0 ==> device.pixels[..] == old(device.pixels[..])
    {
      if !Live() {
        return;
      }
      StrandTest.Rainbow(device, iterations);
    }
  }

  /** The stored offset walks through every value below the period in turn, so
      an `Original` controller repeats its frames every 1280 updates while a
      `Spi` one repeats them every 256; the frames themselves coincide. */
  lemma OffsetAdvance(v: Version, o: int, n: nat)
    requires 0 <= o < Period(v)
    ensures 0 <= (o + 1) % Period(v) < Period(v)
    ensures o + 1 < Period(v) ==> (o + 1) % Period(v) == o + 1
    ensures o + 1 == Period(v) ==> (o + 1) % Period(v) == 0
    ensures CycleFrame(n, (o + 1) % 1280) == CycleFrame(n, (o + 1) % 256)
  {
    var a, b := (o + 1) % 1280, (o + 1) % 256;
    forall k | 0 <= k < n
      ensures CycleFrame(n, a)[k] == CycleFrame(n, b)[k]
    {
      OffsetPeriodsAgree(k, n, o + 1);
    }
  }
}
