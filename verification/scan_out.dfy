/**
 Scan-out: the start-of-data interrupt streams the framebuffer row picked by
 the line sequencer to the SSI data register, one 16-bit word at a time.
 The data register is modelled as the append-only sequence of words written
 to it.
 */
module ScanOut {
  import opened Timing
  import opened LineSequencer

  /** One framebuffer row: 25 words, 400 one-bit pixels, MSB first. */
  type Row = r: seq<bv16> | |r| == ROW_WORDS witness BLANK_ROW

  /** A row of unlit pixels. */
  const BLANK_ROW: seq<bv16> := seq(ROW_WORDS, _ => 0)

  /** The mono framebuffer: 300 rows. */
  type Framebuffer = f: seq<Row> | |f| == VISIBLE_LINES witness seq(VISIBLE_LINES, _ => BLANK_ROW)

  /** What one start-of-data call does: either the words written to the SSI
      data register, or the bounds-check panic of indexing the framebuffer
      with a row number past its end. */
  datatype Emission = Words(words: seq<bv16>) | IndexPanic

  /** Start of data.  On an invisible line nothing is written.  On a visible
      line the 25 words of row `fbLine` are written in index order; a row
      number past the framebuffer's end panics.  Neither the record nor the
      framebuffer is changed (both are values here). */
  method StartOfData(fb: Framebuffer, info: FbInfo) returns (e: Emission)
    ensures !info.isVisible ==> e == Words([])
    ensures info.isVisible && info.fbLine < |fb| ==> e == Words(fb[info.fbLine])
    ensures info.isVisible && info.fbLine >= |fb| ==> e == IndexPanic
  {
    if !info.isVisible {
      return Words([]);
    }
    if info.fbLine >= |fb| {
      return IndexPanic;
    }
    var row := fb[info.fbLine];
    var written: seq<bv16> := [];
    for k := 0 to |row|
      invariant written == row[..k]
    {
      written := written + [row[k]];
    }
    return Words(written);
  }

  /** A mode whose visible band needs no more rows than the framebuffer has. */
  predicate FitsFramebuffer(t: VTiming) {
    t.RowsNeeded() <= VISIBLE_LINES
  }

  /** One scanline: the start-of-line interrupt runs, then the start-of-data
      interrupt runs on the record it left.  When the mode fits the
      framebuffer, scan-out never panics. */
  method ServiceLine(t: VTiming, fb: Framebuffer, s: Sequencer) returns (s': Sequencer, e: Emission)
    ensures s' == StartOfLine(t, s)
    ensures !s'.info.isVisible ==> e == Words([])
    ensures s'.info.isVisible && s'.info.fbLine < |fb| ==> e == Words(fb[s'.info.fbLine])
    ensures s'.info.isVisible && s'.info.fbLine >= |fb| ==> e == IndexPanic
    ensures FitsFramebuffer(t) ==> e.Words?
  {
    s' := StartOfLine(t, s);
    e := StartOfData(fb, s'.info);
  }

  /** The words of `rows`, one row after the other. */
  function Flatten(rows: seq<seq<bv16>>): seq<bv16>
    decreases |rows|
  {
    if |rows| == 0 then [] else Flatten(rows[..|rows| - 1]) + rows[|rows| - 1]
  }

  /** Every row contributes all of its words. */
  lemma {:induction false} FlattenLength(rows: seq<seq<bv16>>)
    requires forall j :: 0 <= j < |rows| ==> |rows[j]| == ROW_WORDS
    ensures |Flatten(rows)| == |rows| * ROW_WORDS
    decreases |rows|
  {
    if |rows| > 0 {
      FlattenLength(rows[..|rows| - 1]);
    }
  }

  /** A slice inside the first part of a concatenation is a slice of it. */
  lemma SliceOfPrefix(a: seq<bv16>, b: seq<bv16>, lo: nat, hi: nat)
    requires lo <= hi <= |a|
    ensures (a + b)[lo..hi] == a[lo..hi]
  {
  }

  /** Row `j` of a flattened block of rows sits at words
      `j * ROW_WORDS .. (j + 1) * ROW_WORDS`. */
  lemma {:induction false} FlattenRow(rows: seq<seq<bv16>>, j: nat)
    requires forall k :: 0 <= k < |rows| ==> |rows[k]| == ROW_WORDS
    requires j < |rows|
    ensures |Flatten(rows)| == |rows| * ROW_WORDS
    ensures Flatten(rows)[j * ROW_WORDS .. (j + 1) * ROW_WORDS] == rows[j]
    decreases |rows|
  {
    var n := |rows| - 1;
    var init := rows[..n];
    var front := Flatten(init);
    assert Flatten(rows) == front + rows[n];
    FlattenLength(rows);
    FlattenLength(init);
    if j < n {
      FlattenRow(init, j);
      SliceOfPrefix(front, rows[n], j * ROW_WORDS, (j + 1) * ROW_WORDS);
    }
  }

  /** The picture a frame shows: scanline `j` of the visible band carries
      framebuffer row `j / 2`, so every row appears twice, in order. */
  function FrameImage(t: VTiming, fb: Framebuffer): (image: seq<bv16>)
    requires FitsFramebuffer(t)
    ensures |image| == t.visibleArea * ROW_WORDS
    ensures forall j :: 0 <= j < t.visibleArea ==>
              image[j * ROW_WORDS .. (j + 1) * ROW_WORDS] == fb[j / 2]
  {
    var rows := seq(t.visibleArea, j requires 0 <= j < t.visibleArea => fb[j / 2]);
    FlattenLength(rows);
    assert forall j :: 0 <= j < t.visibleArea ==>
             Flatten(rows)[j * ROW_WORDS .. (j + 1) * ROW_WORDS] == fb[j / 2] by {
      forall j | 0 <= j < t.visibleArea
        ensures Flatten(rows)[j * ROW_WORDS .. (j + 1) * ROW_WORDS] == fb[j / 2]
      {
        FlattenRow(rows, j);
      }
    }
    Flatten(rows)
  }

  /** One whole frame from the frame boundary: `WholeFrame` scanlines, each
      running start-of-line then start-of-data.  The words written are every
      needed framebuffer row twice in order, the counter ends where it
      started, and the sequencer is in sync. */
  method RunFrame(t: VTiming, fb: Framebuffer, s: Sequencer) returns (s': Sequencer, written: seq<bv16>)
    requires FitsFramebuffer(t)
    requires t.WholeFrame() > 0 && s.info.lineNo == t.WholeFrame() - 1
    ensures s'.info.lineNo == s.info.lineNo
    ensures Synced(t, s')
    ensures written == FrameImage(t, fb)
  {
    var w := t.WholeFrame();
    var rows := j requires 0 <= j < t.visibleArea => fb[j / 2];
    s' := s;
    written := [];
    for i := 0 to w
      invariant s' == Iterate(t, s, i)
      invariant written == Flatten(seq(VisibleSoFar(t, i), rows))
    {
      var e;
      IterateLast(t, s, i);
      s', e := ServiceLine(t, fb, s');
      FrameFromBoundary(t, s, i);
      var before := seq(VisibleSoFar(t, i), rows);
      var after := seq(VisibleSoFar(t, i + 1), rows);
      if s'.info.isVisible {
        assert after[..|after| - 1] == before;
      } else {
        assert after == before;
      }
      written := written + e.words;
    }
    FramePeriod(t, s, 0);
    SyncedAfterWrap(t, s, w);
    assert seq(VisibleSoFar(t, w), rows) == seq(t.visibleArea, rows);
  }
}
