/**
 The line sequencer: the state machine run once per scanline by the
 start-of-line interrupt.  It counts scanlines within the frame, drives the
 VSYNC pin, decides whether the coming line is visible and picks the
 framebuffer row to show on it.

 The step is generic over a vertical timing record; the module `Vga`
 instantiates the lemmas with the program's constants.
 */
module LineSequencer {
  import opened Timing
  import opened Counting

  /** The per-line record shared by the two interrupts. */
  datatype FbInfo = FbInfo(lineNo: nat, isVisible: bool, fbLine: nat)

  /** The sequencer's whole state: the shared record plus the level of the
      VSYNC output pin, which only the sequencer drives. */
  datatype Sequencer = Sequencer(info: FbInfo, vsync: bool)

  /** The state at reset: line 0, not visible, row 0, VSYNC pin low. */
  const INITIAL: Sequencer := Sequencer(FbInfo(0, false, 0), false)

  /** One start-of-line step.  The counter advances and wraps to 0 at the end
      of the frame, where VSYNC is raised; VSYNC is lowered when the counter
      reaches the end of the sync pulse; the line is visible exactly inside
      the visible band, and then shows framebuffer row
      `(lineNo - firstVisible) >> 1`; outside the band the row is kept. */
  function StartOfLine(t: VTiming, s: Sequencer): (r: Sequencer)
    // the counter moves one line on, modulo the frame
    ensures s.info.lineNo < t.WholeFrame() ==>
              r.info.lineNo < t.WholeFrame() && r.info.lineNo == (s.info.lineNo + 1) % t.WholeFrame()
    // an out-of-range counter never wraps and keeps counting up
    ensures s.info.lineNo >= t.WholeFrame() ==> r.info.lineNo == s.info.lineNo + 1
    // VSYNC is raised on the wrap to line 0 ...
    ensures s.info.lineNo + 1 == t.WholeFrame() && t.syncPulse != 0 ==> r.vsync
    // ... lowered on reaching the end of the sync pulse ...
    ensures r.info.lineNo == t.syncPulse ==> !r.vsync
    // ... and held on every other line
    ensures s.info.lineNo + 1 != t.WholeFrame() && r.info.lineNo != t.syncPulse ==> r.vsync == s.vsync
    ensures r.info.isVisible <==> t.InVisibleBand(r.info.lineNo)
    ensures r.info.isVisible ==> r.info.fbLine < t.RowsNeeded()
    ensures r.info.isVisible ==> r.info.fbLine * 2 <= r.info.lineNo - t.FirstVisible() <= r.info.fbLine * 2 + 1
    ensures !r.info.isVisible ==> r.info.fbLine == s.info.fbLine
  {
    var next := s.info.lineNo + 1;
    var wrapped := next == t.WholeFrame();
    var lineNo := if wrapped then 0 else next;
    var raised := if wrapped then true else s.vsync;
    var vsync := if lineNo == t.syncPulse then false else raised;
    WrapStep(s.info.lineNo, t.WholeFrame());
    if lineNo >= t.FirstVisible() && lineNo < t.EndVisible() then
      Sequencer(FbInfo(lineNo, true, (lineNo - t.FirstVisible()) / 2), vsync)
    else
      Sequencer(FbInfo(lineNo, false, s.info.fbLine), vsync)
  }

  /** Adding one to an in-range counter, modulo the frame, wraps only at the
      frame end. */
  lemma WrapStep(a: nat, w: nat)
    ensures a < w ==> (a + 1) % w == if a + 1 == w then 0 else a + 1
  {
    if a + 1 == w {
      ModUnique(a + 1, w, 1, 0);
    } else if a < w {
      ModUnique(a + 1, w, 0, a + 1);
    }
  }

  /** The state after `n` start-of-line steps. */
  function Iterate(t: VTiming, s: Sequencer, n: nat): Sequencer
    decreases n
  {
    if n == 0 then s else Iterate(t, StartOfLine(t, s), n - 1)
  }

  lemma {:induction false} IterateLast(t: VTiming, s: Sequencer, n: nat)
    ensures Iterate(t, s, n + 1) == StartOfLine(t, Iterate(t, s, n))
    decreases n
  {
    if n > 0 {
      IterateLast(t, StartOfLine(t, s), n - 1);
    }
  }

  /** From an in-range line, `n` steps land `n` lines on, modulo the frame. */
  lemma {:induction false} IterateLineNo(t: VTiming, s: Sequencer, n: nat)
    requires s.info.lineNo < t.WholeFrame()
    ensures Iterate(t, s, n).info.lineNo == (s.info.lineNo + n) % t.WholeFrame()
    decreases n
  {
    if n > 0 {
      var w := t.WholeFrame();
      var a := s.info.lineNo;
      IterateLineNo(t, StartOfLine(t, s), n - 1);
      if a + 1 == w {
        assert (a + n) % w == (n - 1) % w by { ShiftByPeriod(n - 1, w); }
      }
    }
  }

  /** Frame periodicity: exactly one frame of steps brings the line counter
      back to where it started, and no shorter positive run does. */
  lemma FramePeriod(t: VTiming, s: Sequencer, n: nat)
    requires s.info.lineNo < t.WholeFrame()
    ensures Iterate(t, s, t.WholeFrame()).info.lineNo == s.info.lineNo
    ensures 0 < n < t.WholeFrame() ==> Iterate(t, s, n).info.lineNo != s.info.lineNo
  {
    var w := t.WholeFrame();
    var a := s.info.lineNo;
    IterateLineNo(t, s, w);
    ShiftByPeriod(a, w);
    ModUnique(a, w, 0, a);
    IterateLineNo(t, s, n);
    if 0 < n < w {
      if a + n >= w {
        WrapOnce(a + n, w);
      } else {
        ModUnique(a + n, w, 0, a + n);
      }
    }
  }

  /** In sync: the counter is in range and VSYNC is high exactly on the lines
      of the sync pulse. */
  predicate Synced(t: VTiming, s: Sequencer) {
    s.info.lineNo < t.WholeFrame() && (s.vsync <==> s.info.lineNo < t.syncPulse)
  }

  /** A step keeps the sequencer in sync. */
  lemma StepKeepsSynced(t: VTiming, s: Sequencer)
    requires Synced(t, s)
    ensures Synced(t, StartOfLine(t, s))
  {
  }

  /** The wrap to line 0 brings the sequencer into sync whatever the pin's
      level was before. */
  lemma WrapSynchronises(t: VTiming, s: Sequencer)
    requires s.info.lineNo + 1 == t.WholeFrame()
    ensures Synced(t, StartOfLine(t, s))
  {
  }

  lemma {:induction false} IterateKeepsSynced(t: VTiming, s: Sequencer, n: nat)
    requires Synced(t, s)
    ensures Synced(t, Iterate(t, s, n))
    decreases n
  {
    if n > 0 {
      StepKeepsSynced(t, s);
      IterateKeepsSynced(t, StartOfLine(t, s), n - 1);
    }
  }

  /** From any in-range state the sequencer is in sync once it has passed the
      end of the frame, which takes at most one frame of steps. */
  lemma {:induction false} SyncedAfterWrap(t: VTiming, s: Sequencer, n: nat)
    requires s.info.lineNo < t.WholeFrame()
    requires n >= t.WholeFrame() - s.info.lineNo
    ensures Synced(t, Iterate(t, s, n))
    decreases n
  {
    var s' := StartOfLine(t, s);
    if s.info.lineNo + 1 == t.WholeFrame() {
      WrapSynchronises(t, s);
      IterateKeepsSynced(t, s', n - 1);
    } else {
      SyncedAfterWrap(t, s', n - 1);
    }
  }

  /** The states after each of the `n` steps taken from `s`. */
  function Trace(t: VTiming, s: Sequencer, n: nat): (tr: seq<Sequencer>)
    ensures |tr| == n
  {
    seq(n, i requires 0 <= i < n => Iterate(t, s, i + 1))
  }

  function VsyncSignal(tr: seq<Sequencer>): (bs: seq<bool>)
    ensures |bs| == |tr|
  {
    seq(|tr|, i requires 0 <= i < |tr| => tr[i].vsync)
  }

  function VisibleSignal(tr: seq<Sequencer>): (bs: seq<bool>)
    ensures |bs| == |tr|
  {
    seq(|tr|, i requires 0 <= i < |tr| => tr[i].info.isVisible)
  }

  /** The framebuffer rows shown on the visible lines of a trace, in order. */
  function VisibleRows(tr: seq<Sequencer>): seq<nat>
    decreases |tr|
  {
    if |tr| == 0 then []
    else VisibleRows(tr[..|tr| - 1]) + (if tr[|tr| - 1].info.isVisible then [tr[|tr| - 1].info.fbLine] else [])
  }

  /** A frame started from the last line of the previous one: tick `i` is
      line `i`, VSYNC is high exactly on ticks `0 .. syncPulse-1`, and the
      visible ticks are exactly the visible band, showing row `(i - first) / 2`. */
  lemma FrameFromBoundary(t: VTiming, s: Sequencer, i: nat)
    requires t.WholeFrame() > 0 && s.info.lineNo == t.WholeFrame() - 1
    requires i < t.WholeFrame()
    ensures Trace(t, s, t.WholeFrame())[i].info.lineNo == i
    ensures Trace(t, s, t.WholeFrame())[i].vsync <==> i < t.syncPulse
    ensures Trace(t, s, t.WholeFrame())[i].info.isVisible <==> t.FirstVisible() <= i < t.EndVisible()
    ensures Trace(t, s, t.WholeFrame())[i].info.isVisible ==>
              Trace(t, s, t.WholeFrame())[i].info.fbLine == (i - t.FirstVisible()) / 2
  {
    var w := t.WholeFrame();
    IterateLineNo(t, s, i + 1);
    assert (s.info.lineNo + i + 1) % w == i by {
      ShiftByPeriod(i, w);
      ModUnique(i, w, 0, i);
    }
    SyncedAfterWrap(t, s, i + 1);
    IterateLast(t, s, i);
  }

  /** Over one frame started at the frame boundary, VSYNC is high on exactly
      `syncPulse` ticks (the first ones) and the line is visible on exactly
      `visibleArea` ticks. */
  lemma FrameCounts(t: VTiming, s: Sequencer)
    requires t.WholeFrame() > 0 && s.info.lineNo == t.WholeFrame() - 1
    ensures Count(VsyncSignal(Trace(t, s, t.WholeFrame()))) == t.syncPulse
    ensures Count(VisibleSignal(Trace(t, s, t.WholeFrame()))) == t.visibleArea
  {
    var tr := Trace(t, s, t.WholeFrame());
    forall i | 0 <= i < |tr|
      ensures (VsyncSignal(tr)[i] <==> 0 <= i < t.syncPulse)
      ensures (VisibleSignal(tr)[i] <==> t.FirstVisible() <= i < t.EndVisible())
    {
      FrameFromBoundary(t, s, i);
    }
    CountBand(VsyncSignal(tr), 0, t.syncPulse);
    CountBand(VisibleSignal(tr), t.FirstVisible(), t.EndVisible());
  }

  /** Tick `i` of a trace from an in-sync state is line `(b + i) % W`, where
      `b` is the line after the starting one; it is still in sync, and visible
      exactly when its line lies in the visible band. */
  lemma WindowTick(t: VTiming, s: Sequencer, i: nat)
    requires Synced(t, s)
    requires i < t.WholeFrame()
    ensures Trace(t, s, t.WholeFrame())[i].info.lineNo
            == ((s.info.lineNo + 1) % t.WholeFrame() + i) % t.WholeFrame()
    ensures Synced(t, Trace(t, s, t.WholeFrame())[i])
    ensures Trace(t, s, t.WholeFrame())[i].info.isVisible
            <==> t.InVisibleBand(Trace(t, s, t.WholeFrame())[i].info.lineNo)
  {
    var w := t.WholeFrame();
    var a := s.info.lineNo;
    IterateLast(t, s, i);
    IterateLineNo(t, s, i + 1);
    IterateKeepsSynced(t, s, i + 1);
    if a + 1 == w {
      ModUnique(w, w, 1, 0);
      ShiftByPeriod(i, w);
    } else {
      ModUnique(a + 1, w, 0, a + 1);
    }
  }

  lemma WindowVsyncCount(t: VTiming, s: Sequencer)
    requires Synced(t, s)
    ensures Count(VsyncSignal(Trace(t, s, t.WholeFrame()))) == t.syncPulse
  {
    var w := t.WholeFrame();
    var b := (s.info.lineNo + 1) % w;
    var tr := Trace(t, s, w);
    var high := (k: int) => k < t.syncPulse;
    forall i | 0 <= i < w
      ensures VsyncSignal(tr)[i] == high((b + i) % w)
    {
      WindowTick(t, s, i);
    }
    assert VsyncSignal(tr) == seq(w, i => high((b + i) % w));
    CountRotation(high, w, b);
    CountBand(seq(w, i => high(i)), 0, t.syncPulse);
  }

  lemma WindowVisibleCount(t: VTiming, s: Sequencer)
    requires Synced(t, s)
    ensures Count(VisibleSignal(Trace(t, s, t.WholeFrame()))) == t.visibleArea
  {
    var w := t.WholeFrame();
    var b := (s.info.lineNo + 1) % w;
    var tr := Trace(t, s, w);
    var band := (k: int) => t.FirstVisible() <= k < t.EndVisible();
    forall i | 0 <= i < w
      ensures VisibleSignal(tr)[i] == band((b + i) % w)
    {
      WindowTick(t, s, i);
    }
    assert VisibleSignal(tr) == seq(w, i => band((b + i) % w));
    CountRotation(band, w, b);
    CountBand(seq(w, i => band(i)), t.FirstVisible(), t.EndVisible());
  }

  /** The same counts hold over ANY window of one frame's worth of ticks, once
      the sequencer is in sync. */
  lemma WindowCounts(t: VTiming, s: Sequencer)
    requires Synced(t, s)
    ensures Count(VsyncSignal(Trace(t, s, t.WholeFrame()))) == t.syncPulse
    ensures Count(VisibleSignal(Trace(t, s, t.WholeFrame()))) == t.visibleArea
  {
    WindowVsyncCount(t, s);
    WindowVisibleCount(t, s);
  }

  lemma {:induction false} VisibleRowsPrefix(t: VTiming, s: Sequencer, k: nat)
    requires t.WholeFrame() > 0 && s.info.lineNo == t.WholeFrame() - 1
    requires k <= t.WholeFrame()
    ensures VisibleRows(Trace(t, s, t.WholeFrame())[..k]) == seq(VisibleSoFar(t, k), j => j / 2)
    decreases k
  {
    var tr := Trace(t, s, t.WholeFrame());
    if k > 0 {
      VisibleRowsPrefix(t, s, k - 1);
      assert tr[..k][..k - 1] == tr[..k - 1];
      FrameFromBoundary(t, s, k - 1);
    }
  }

  /** Number of visible lines among the first `k` lines of a frame. */
  function VisibleSoFar(t: VTiming, k: nat): nat {
    if k <= t.FirstVisible() then 0
    else if k >= t.EndVisible() then t.visibleArea
    else k - t.FirstVisible()
  }

  /** Over a frame started at the boundary, the rows shown run
      0, 0, 1, 1, 2, 2, …: each row on two consecutive visible lines. */
  lemma FrameRows(t: VTiming, s: Sequencer)
    requires t.WholeFrame() > 0 && s.info.lineNo == t.WholeFrame() - 1
    ensures VisibleRows(Trace(t, s, t.WholeFrame())) == seq(t.visibleArea, j => j / 2)
  {
    var tr := Trace(t, s, t.WholeFrame());
    VisibleRowsPrefix(t, s, t.WholeFrame());
    assert tr[..t.WholeFrame()] == tr;
  }

  lemma {:induction false} IterateAdd(t: VTiming, s: Sequencer, a: nat, b: nat)
    ensures Iterate(t, s, a + b) == Iterate(t, Iterate(t, s, a), b)
    decreases a
  {
    if a > 0 {
      IterateAdd(t, StartOfLine(t, s), a - 1, b);
    }
  }

  /** From reset the first lines of the first frame keep VSYNC low although
      they lie inside the sync pulse: the pin is only raised on a wrap. */
  lemma {:induction false} FirstPulseMissed(t: VTiming, n: nat)
    requires n < t.WholeFrame() && n < t.syncPulse
    ensures Iterate(t, INITIAL, n).info.lineNo == n
    ensures !Iterate(t, INITIAL, n).vsync
    ensures 0 < n ==> !Synced(t, Iterate(t, INITIAL, n))
    decreases n
  {
    if n > 0 {
      FirstPulseMissed(t, n - 1);
      IterateLast(t, INITIAL, n - 1);
    }
  }

  /** From reset the sequencer is in sync as soon as the counter reaches the
      end of the sync pulse, and stays in sync. */
  lemma StartUp(t: VTiming, n: nat)
    requires t.syncPulse < t.WholeFrame()
    requires t.syncPulse <= n
    ensures Synced(t, Iterate(t, INITIAL, n))
  {
    var p := t.syncPulse;
    if p == 0 {
      assert Synced(t, INITIAL);
    } else {
      FirstPulseMissed(t, p - 1);
      IterateLast(t, INITIAL, p - 1);
      assert Synced(t, Iterate(t, INITIAL, p));
    }
    IterateKeepsSynced(t, Iterate(t, INITIAL, p), n - p);
    IterateAdd(t, INITIAL, p, n - p);
  }
}
