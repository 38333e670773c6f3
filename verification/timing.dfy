/**
 The timing constants of the 800 x 600 @ 60 Hz mono VGA mode.

 The standard's horizontal timing is given for a 40 MHz pixel clock; the
 system clock is 80 MHz, so every horizontal count is doubled and is measured
 in system-clock ticks.  The vertical timing is measured in scanlines.
 */
module Timing {

  /** Rust `u32`: the type of the horizontal constants. */
  type U32 = x: int | 0 <= x < 0x1_0000_0000

  // Horizontal timing, in 80 MHz system-clock ticks.
  const H_VISIBLE_AREA: U32 := 800 * 2
  const H_FRONT_PORCH: U32 := 40 * 2
  const H_SYNC_PULSE: U32 := 128 * 2
  const H_BACK_PORCH: U32 := 88 * 2
  const H_WHOLE_LINE: U32 := H_VISIBLE_AREA + H_FRONT_PORCH + H_SYNC_PULSE + H_BACK_PORCH
  const H_SYNC_END: U32 := H_WHOLE_LINE - H_SYNC_PULSE
  const H_LINE_START: U32 := H_WHOLE_LINE - (H_SYNC_PULSE + H_BACK_PORCH)

  // Vertical timing, in scanlines.
  const V_VISIBLE_AREA: nat := 600
  const V_FRONT_PORCH: nat := 1
  const V_SYNC_PULSE: nat := 4
  const V_BACK_PORCH: nat := 23
  const V_WHOLE_FRAME: nat := V_SYNC_PULSE + V_BACK_PORCH + V_VISIBLE_AREA + V_FRONT_PORCH

  /** Number of rows in the framebuffer; each row is shown on two scanlines. */
  const VISIBLE_LINES: nat := 300
  /** Number of 16-bit words in one framebuffer row. */
  const ROW_WORDS: nat := 25

  /** The vertical timing of a mode, in scanlines.  A frame is the sync pulse,
      then the back porch, then the visible band, then the front porch. */
  datatype VTiming = VTiming(syncPulse: nat, backPorch: nat, visibleArea: nat, frontPorch: nat)
  {
    function WholeFrame(): nat {
      syncPulse + backPorch + visibleArea + frontPorch
    }

    /** First scanline of the visible band. */
    function FirstVisible(): nat {
      syncPulse + backPorch
    }

    /** One past the last scanline of the visible band. */
    function EndVisible(): nat {
      syncPulse + backPorch + visibleArea
    }

    predicate InVisibleBand(lineNo: nat) {
      FirstVisible() <= lineNo < EndVisible()
    }

    /** Number of framebuffer rows the visible band needs when each row is
        shown on two consecutive scanlines. */
    function RowsNeeded(): nat {
      (visibleArea + 1) / 2
    }
  }

  /** The mode this program drives. */
  const VGA: VTiming := VTiming(V_SYNC_PULSE, V_BACK_PORCH, V_VISIBLE_AREA, V_FRONT_PORCH)

  /** The vertical constants add up, and the visible band is exactly two
      scanlines per framebuffer row. */
  lemma VerticalConstants()
    ensures V_WHOLE_FRAME == VGA.WholeFrame() == 628
    ensures VGA.FirstVisible() == 27 && VGA.EndVisible() == 627
    ensures V_VISIBLE_AREA == 2 * VISIBLE_LINES
    ensures VGA.RowsNeeded() == VISIBLE_LINES
  {
  }

  /** A hardware timer in 16-bit periodic down-count mode with a zero
      prescaler: loaded with `reload`, it counts down to 0 and reloads on the
      next tick; `matchValue` is the count at which its match event fires. */
  datatype PeriodicTimer = PeriodicTimer(reload: nat, matchValue: nat)
  {
    /** The counter value `tick` system-clock ticks after the first load. */
    function Value(tick: nat): nat {
      reload - tick % (reload + 1)
    }

    function Period(): nat {
      reload + 1
    }

    /** Both values fit the 16-bit interval-load and match registers. */
    predicate Fits16() {
      reload < 0x1_0000 && matchValue < 0x1_0000
    }
  }

  /** The match event fires exactly `reload - matchValue` ticks into every
      period of the timer, and at no other tick. */
  lemma MatchTicks(t: PeriodicTimer, tick: nat)
    requires t.matchValue <= t.reload
    ensures t.Value(tick) == t.matchValue <==> tick % t.Period() == t.reload - t.matchValue
  {
  }

  /** Timer A: its PWM output is the HSYNC pin, which changes level at the
      reload and again at the match. */
  const H_TIMER_A: PeriodicTimer := PeriodicTimer(H_WHOLE_LINE - 1, H_SYNC_END - 1)
  /** Timer B: its match marks the point where pixel data starts. */
  const H_TIMER_B: PeriodicTimer := PeriodicTimer(H_WHOLE_LINE - 1, H_LINE_START - 1)

  /** The horizontal constants: the line is 2112 ticks and the data start
      lies before the sync end, which lies before the line end. */
  lemma HorizontalConstants()
    ensures H_WHOLE_LINE == 2112
    ensures H_LINE_START == 1680 && H_SYNC_END == 1856
    ensures 0 < H_LINE_START < H_SYNC_END < H_WHOLE_LINE
  {
  }

  /** The timer configuration: both timers fit the 16-bit mode and have the
      line as their period; timer A's match comes one sync pulse after its
      reload, so its PWM pulse is the HSYNC pulse, and timer B's match comes a
      sync pulse plus a back porch after it, where the visible area begins.
      Each match happens at exactly that offset into every line and at no
      other tick. */
  lemma TimerConfiguration()
    ensures H_TIMER_A.Fits16() && H_TIMER_B.Fits16()
    ensures H_TIMER_A.Period() == H_TIMER_B.Period() == H_WHOLE_LINE
    ensures H_TIMER_A.reload - H_TIMER_A.matchValue == H_SYNC_PULSE
    ensures H_TIMER_B.reload - H_TIMER_B.matchValue == H_SYNC_PULSE + H_BACK_PORCH
    ensures forall tick: nat :: H_TIMER_A.Value(tick) == H_TIMER_A.matchValue
                                <==> tick % H_WHOLE_LINE == H_SYNC_PULSE
    ensures forall tick: nat :: H_TIMER_B.Value(tick) == H_TIMER_B.matchValue
                                <==> tick % H_WHOLE_LINE == H_SYNC_PULSE + H_BACK_PORCH
  {
    forall tick: nat
      ensures H_TIMER_A.Value(tick) == H_TIMER_A.matchValue <==> tick % H_WHOLE_LINE == H_SYNC_PULSE
      ensures H_TIMER_B.Value(tick) == H_TIMER_B.matchValue
              <==> tick % H_WHOLE_LINE == H_SYNC_PULSE + H_BACK_PORCH
    {
      MatchTicks(H_TIMER_A, tick);
      MatchTicks(H_TIMER_B, tick);
    }
  }

  // Pixel clock: the SSI shifts 16-bit frames at SysClk / (CPSDVSR * (1 + SCR)).
  const SYSCLK_HZ: nat := 80_000_000
  const SSI_CPSDVSR: nat := 4
  const SSI_SCR: nat := 0
  const SSI_FRAME_BITS: nat := 16

  /** System-clock ticks per shifted-out pixel. */
  function TicksPerPixel(): nat {
    SSI_CPSDVSR * (1 + SSI_SCR)
  }

  /** A framebuffer row is 400 pixels, the visible area at a 20 MHz pixel
      clock; shifting a row out takes exactly the visible area's ticks, so a
      row started at timer B's match (interrupt latency aside) ends where the
      front porch begins. */
  lemma PixelWidth()
    ensures SYSCLK_HZ / TicksPerPixel() == 20_000_000
    ensures ROW_WORDS * SSI_FRAME_BITS == 400 == H_VISIBLE_AREA / 4
    ensures ROW_WORDS * SSI_FRAME_BITS * TicksPerPixel() == H_VISIBLE_AREA
    ensures H_TIMER_B.reload - H_TIMER_B.matchValue + ROW_WORDS * SSI_FRAME_BITS * TicksPerPixel()
            == H_WHOLE_LINE - H_FRONT_PORCH
  {
  }
}
