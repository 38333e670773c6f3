# hello_vga: line sequencer and scan-out, in Dafny

This project models the software half of the 800 x 600 @ 60 Hz mono VGA
generator in `examples/hello_vga.rs` (a TM4C123 demo running at 80 MHz). It
proves properties of that model:

- **Timing constants.** The VESA 800 x 600 @ 60 Hz line, with every
  horizontal count doubled because the system clock runs at twice the
  standard 40 MHz pixel clock. These constants feed the reload and match
  values of the 16-bit line timers. The SSI pixel clock is set separately, by
  the divider literal `4` (`examples/hello_vga.rs:158`), giving 20 MHz.
- **The line sequencer** (`start_of_line`). Once per scanline it updates the
  shared `FbInfo { line_no, is_visible, fb_line }` record:
  - it advances and wraps the scanline counter;
  - it drives the VSYNC pin (PC4);
  - it decides whether the line is visible;
  - it maps each pair of visible scanlines onto one of the 300 framebuffer
    rows.
- **Scan-out** (`start_of_data`). On a visible line it writes the 25 sixteen-bit
  words of the selected row to the SSI data register, in order.
- **The per-line sequencing of the two interrupts**: start of line, then start
  of data.

Modules:

- `Counting` (`counting.dfy`): counting ticks of a Boolean signal, plus
  rotation and division helpers.
- `Timing` (`timing.dfy`): the constants, a generic vertical timing record
  `VTiming`, a periodic down-counting timer and the SSI clock arithmetic.
- `LineSequencer` (`line_sequencer.dfy`): `FbInfo`, the sequencer state (the
  record plus the VSYNC pin level), the step `StartOfLine`, n-fold iteration,
  traces, and the frame lemmas. These are generic over `VTiming`.
- `ScanOut` (`scan_out.dfy`): the framebuffer shape (300 rows of 25 `bv16`),
  `StartOfData`, one line (`ServiceLine`) and one frame (`RunFrame`).
- `Vga` (`vga.dfy`): the generic lemmas instantiated with the program's
  constants.

Hardware effects are values:

- The VSYNC pin is a Boolean in the state. It is low at reset.
- The SSI data register is the sequence of words written to it.
- Indexing the framebuffer past its end is a Rust bounds-check panic. It is
  modelled as the `IndexPanic` outcome of `StartOfData`.
- `(fb_info.line_no - (V_SYNC_PULSE + V_BACK_PORCH)) >> 1`
  (`examples/hello_vga.rs:262`) is an unsigned shift. It is modelled as `/ 2`
  on a natural number.

Facts about the code that shape the model:

- The SSI "transmit FIFO not full" flag is polled after each write
  (`examples/hello_vga.rs:273-276`).
- Outside the visible band `fb_line` keeps its stale value
  (`examples/hello_vga.rs:263-266`).
- The row number repeats on consecutive visible lines (0, 0, 1, 1, …), because
  the offset into the band is shifted right by one
  (`examples/hello_vga.rs:261-262`).

Start-up: at reset the counter is 0 and the VSYNC pin is low. Lines 1 to 3 of
the first partial frame therefore lie inside the sync pulse with VSYNC low.
From the fourth start-of-line call on, VSYNC is high exactly on lines 0 to 3
(`LineSequencer.FirstPulseMissed`, `LineSequencer.StartUp`, `Vga.VgaStartUp`).

## Model

| member | source | states |
|---|---|---|
| Timing.VerticalConstants | examples/hello_vga.rs:52-58 | the frame is sync + back porch + visible + front porch = 628 lines; the visible band is lines 27..626; the 600 visible lines are twice the 300 framebuffer rows |
| Timing.HorizontalConstants | examples/hello_vga.rs:45-51 | the doubled line is 2112 ticks; data start 1680 < sync end 1856 < whole line 2112 |
| Timing.MatchTicks | examples/hello_vga.rs:186-200 | a periodic 16-bit down-counter reaches its match value exactly `reload - match` ticks into each period, and at no other tick |
| Timing.TimerConfiguration | examples/hello_vga.rs:209-223 | both timers' reload and match values fit the 16-bit mode; their period is the whole line; timer A matches one sync pulse after reload (the HSYNC pulse width); timer B matches at sync + back porch, the start of data; each counter equals its match value exactly at tick 256 (A) or 432 (B) of every line, modulo 2112, and at no other tick |
| Timing.PixelWidth | examples/hello_vga.rs:152-166 | SSI clock is 80 MHz / (4·(1+0)) = 20 MHz; a 25-word row is 400 pixels = H_VISIBLE_AREA / 4; shifting it takes exactly the visible area's ticks, ending where the front porch starts |
| LineSequencer.StartOfLine | examples/hello_vga.rs:244-267 | an in-range counter stays in range and moves to (line+1) mod frame, while an out-of-range one keeps counting up; VSYNC is raised on the wrap, lowered on reaching the sync-pulse line, and held otherwise; the line is visible iff it is in the visible band; a visible line's row is half its offset into the band and below the rows needed; an invisible line keeps the stale row |
| LineSequencer.IterateLineNo | examples/hello_vga.rs:245-250 | n start-of-line steps from an in-range counter land n lines on, modulo the frame |
| LineSequencer.FramePeriod | examples/hello_vga.rs:245-250 | exactly one frame of steps returns the counter to its start, and no shorter positive number of steps does |
| LineSequencer.StepKeepsSynced | examples/hello_vga.rs:247-254 | if VSYNC is high exactly on the sync-pulse lines, a step keeps it so |
| LineSequencer.WrapSynchronises | examples/hello_vga.rs:247-250 | the wrap to line 0 establishes the VSYNC invariant whatever the pin level was |
| LineSequencer.SyncedAfterWrap | examples/hello_vga.rs:247-254 | from any in-range state, once the counter has passed the frame end the VSYNC invariant holds for good |
| LineSequencer.FrameFromBoundary | examples/hello_vga.rs:244-267 | in a frame started at the last line, tick i is line i; VSYNC is high iff i < sync pulse; the line is visible iff i is in the band, then showing row (i - first visible) / 2 |
| LineSequencer.FrameCounts | examples/hello_vga.rs:247-266 | over one frame from the boundary, VSYNC is high on exactly sync-pulse ticks and the line is visible on exactly visible-area ticks |
| LineSequencer.WindowCounts | examples/hello_vga.rs:247-266 | the same two counts hold over any one-frame window of ticks starting from an in-sync state |
| LineSequencer.FrameRows | examples/hello_vga.rs:256-266 | over a frame, the rows shown on the visible lines are exactly 0, 0, 1, 1, 2, 2, … |
| LineSequencer.FirstPulseMissed | examples/hello_vga.rs:247-254 | from reset, the first lines inside the sync pulse have VSYNC low, so the state is out of sync |
| LineSequencer.StartUp | examples/hello_vga.rs:77-81 | from the reset state the sequencer is in sync from the end of the first sync pulse on |
| ScanOut.StartOfData | examples/hello_vga.rs:269-279 | an invisible line writes nothing; a visible line writes exactly the words of row fb_line, in index order; a row number past the framebuffer end panics |
| ScanOut.ServiceLine | examples/hello_vga.rs:281-295 | one scanline is start of line followed by start of data on the record it left: nothing is written on an invisible line, the selected row on a visible one, and a panic for a row past the end; when the mode fits the framebuffer, no panic is possible |
| ScanOut.FrameImage | examples/hello_vga.rs:262-277 | the frame picture has visible-area × 25 words, and scanline j of the band carries framebuffer row j / 2 |
| ScanOut.RunFrame | examples/hello_vga.rs:244-295 | one frame of line services from the boundary writes exactly the frame picture, ends on the starting line, and leaves the sequencer in sync |
| Vga.VgaReachesBoundary | examples/hello_vga.rs:77-81 | from the reset record, 627 start-of-line steps reach line 627, the frame boundary the per-frame lemmas start from |
| Vga.VgaFramePeriod | examples/hello_vga.rs:245-250 | the counter stays below 628, and 628 steps (no fewer) bring it back |
| Vga.VgaFrameTick | examples/hello_vga.rs:244-267 | per frame: VSYNC high on ticks 0..3; lines 27..626 visible, showing row (i − 27) / 2 < 300 |
| Vga.VgaFrameCounts | examples/hello_vga.rs:247-266 | 4 VSYNC ticks and 600 visible ticks per frame, from the boundary or any in-sync phase |
| Vga.VgaFrameRows | examples/hello_vga.rs:256-266 | the rows shown per frame run 0, 0, 1, 1, …, 299, 299, all below 300 |
| Vga.VgaRowInBounds | examples/hello_vga.rs:262-271 | after any start-of-line step, from any state, a visible line names an existing framebuffer row |
| Vga.VgaFrameWords | examples/hello_vga.rs:75 | a frame writes 15000 words; words 25j .. 25j+25 are framebuffer row j / 2 |
| Vga.VgaStartUp | examples/hello_vga.rs:77-81 | from reset, steps 1 to 3 are out of sync and every step from the fourth on is in sync |

## Left out

- Register programming in `main` (`examples/hello_vga.rs:89-242`) is hardware configuration, not logic. This covers the PLL and clock setup, GPIO alternate functions, the SSI, uDMA and timer register writes, and the NVIC enables. Only the constants that feed it are modelled.
- The framebuffer pokes at `examples/hello_vga.rs:94-125` are demo data. The framebuffer is an arbitrary 300 × 25 array of `bv16`.
- `rust_logo.inc`, the framebuffer's initial contents, is not part of this model.
- The busy-wait on the SSI "transmit FIFO not full" flag is not modelled. It is a hardware status poll. Only the sequence of words written is modelled.
- The timer edge and event polarity settings and which PWM edge triggers each interrupt are not modelled. Only the match offsets within the line are.
- The interrupt plumbing is concurrency and static dispatch, so it is not modelled. This covers `Peripherals::steal`, the `CriticalSection`/`RefCell` borrow, the interrupt-flag clears and the vector table `INTERRUPTS`. The two interrupts appear only as "start of line, then start of data" per scanline (`ScanOut.ServiceLine`, `ScanOut.RunFrame`).
- The uDMA control table is not modelled. It is set up but unused, because TX DMA is commented out.
- `LineSequencer.StartOfLine`: `line_no` is an unbounded natural number, so `usize` overflow of `line_no += 1` is not modelled. The counter stays below 628 from the reset value (`Vga.VgaFramePeriod`), so the overflow cannot occur.
- Text mode, fonts, the cursor, scrolling and line drawing are not modelled. They do not appear in this program.
- `examples/hello.rs` and `examples/hello_hal.rs` are not modelled. They hold semihosting and UART output, clock setup, LEDs and delay loops, with no modellable logic.
