/**
 The generic sequencer and scan-out facts instantiated with the constants of
 the 800 x 600 @ 60 Hz mode: 628 scanlines per frame, a 4-line VSYNC pulse,
 600 visible lines showing 300 framebuffer rows twice each.
 */
module Vga {
  import opened Timing
  import opened Counting
  import opened LineSequencer
  import opened ScanOut

  /** The counter stays below 628, and 628 steps, no fewer, bring it back. */
  lemma VgaFramePeriod(s: Sequencer, n: nat)
    requires s.info.lineNo < V_WHOLE_FRAME
    ensures StartOfLine(VGA, s).info.lineNo < V_WHOLE_FRAME
    ensures Iterate(VGA, s, 628).info.lineNo == s.info.lineNo
    ensures 0 < n < 628 ==> Iterate(VGA, s, n).info.lineNo != s.info.lineNo
  {
    FramePeriod(VGA, s, n);
  }

  /** From reset, 627 start-of-line steps reach the frame boundary, the
      state the per-frame lemmas start from. */
  lemma VgaReachesBoundary()
    ensures Iterate(VGA, INITIAL, 627).info.lineNo == 627
  {
    IterateLineNo(VGA, INITIAL, 627);
  }

  /** A frame from the boundary (line 627): tick `i` is line `i`, VSYNC is high
      on ticks 0..3 and low on the other 624, lines 27..626 are the visible
      ones and show row `(i - 27) / 2`, which is below 300. */
  lemma VgaFrameTick(s: Sequencer, i: nat)
    requires s.info.lineNo == 627
    requires i < 628
    ensures Trace(VGA, s, 628)[i].info.lineNo == i
    ensures Trace(VGA, s, 628)[i].vsync <==> i < 4
    ensures Trace(VGA, s, 628)[i].info.isVisible <==> 27 <= i < 627
    ensures Trace(VGA, s, 628)[i].info.isVisible ==>
              Trace(VGA, s, 628)[i].info.fbLine == (i - 27) / 2 < VISIBLE_LINES
  {
    FrameFromBoundary(VGA, s, i);
  }

  /** Per frame, from the boundary or from any in-sync phase: 4 VSYNC ticks
      and 600 visible ticks. */
  lemma VgaFrameCounts(s: Sequencer)
    requires s.info.lineNo == 627 || Synced(VGA, s)
    ensures Count(VsyncSignal(Trace(VGA, s, 628))) == 4
    ensures Count(VisibleSignal(Trace(VGA, s, 628))) == 600
  {
    if s.info.lineNo == 627 {
      FrameCounts(VGA, s);
    } else {
      WindowCounts(VGA, s);
    }
  }

  /** Over a frame the rows shown run 0, 0, 1, 1, …, 299, 299. */
  lemma VgaFrameRows(s: Sequencer)
    requires s.info.lineNo == 627
    ensures VisibleRows(Trace(VGA, s, 628)) == seq(600, j => j / 2)
    ensures forall j :: 0 <= j < 600 ==> VisibleRows(Trace(VGA, s, 628))[j] < VISIBLE_LINES
  {
    FrameRows(VGA, s);
  }

  /** After any start-of-line step, from any state at all, a visible line
      names a framebuffer row that exists, so scan-out cannot panic. */
  lemma VgaRowInBounds(s: Sequencer)
    ensures FitsFramebuffer(VGA)
    ensures StartOfLine(VGA, s).info.isVisible ==> StartOfLine(VGA, s).info.fbLine < VISIBLE_LINES
  {
  }

  /** A frame writes 600 rows of 25 words, 15000 words, scanline `j` of the
      visible band carrying row `j / 2`. */
  lemma VgaFrameWords(fb: Framebuffer, j: nat)
    requires j < 600
    ensures |FrameImage(VGA, fb)| == 15000
    ensures FrameImage(VGA, fb)[25 * j .. 25 * j + 25] == fb[j / 2]
  {
    assert (j + 1) * ROW_WORDS == 25 * j + 25;
  }

  /** From reset, VSYNC is missing on lines 1..3 of the first partial frame;
      from the fourth step on the sequencer is in sync. */
  lemma VgaStartUp(n: nat)
    ensures 1 <= n < 4 ==> !Synced(VGA, Iterate(VGA, INITIAL, n))
    ensures 4 <= n ==> Synced(VGA, Iterate(VGA, INITIAL, n))
  {
    if 1 <= n < 4 {
      FirstPulseMissed(VGA, n);
    } else if 4 <= n {
      StartUp(VGA, n);
    }
  }
}
