// `findnonzeroranges`: the outlier clipping of a visibility matrix, the
// test that a row is flagged, the extraction of the runs of channels whose
// amplitude is above 1e5, and the bookkeeping that writes a record whenever
// the runs of baseline 0-1 change. Amplitudes are compared through the
// squared modulus, which orders them the same way as `abs`.

module NonzeroRanges {
  import opened Common

  datatype Complex = Complex(re: real, im: real)

  const Zero := Complex(0.0, 0.0)

  function Norm2(c: Complex): real
  {
    c.re * c.re + c.im * c.im
  }

  /** `abs(c) > 2e6`. */
  predicate Outlier(c: Complex)
  {
    Norm2(c) > 2000000.0 * 2000000.0
  }

  /** `abs(c) > 1e5`: the channel carries signal. */
  predicate Above(c: Complex)
  {
    Norm2(c) > 100000.0 * 100000.0
  }

  // ------------------------------------------------------------ outliers

  function ClipRow(row: seq<Complex>): (r: seq<Complex>)
    ensures |r| == |row|
    ensures forall j :: 0 <= j < |row| ==> r[j] == if Outlier(row[j]) then Zero else row[j]
  {
    seq(|row|, j requires 0 <= j < |row| => if Outlier(row[j]) then Zero else row[j])
  }

  /** `flagOutliers`: every entry of modulus above 2e6 becomes 0, the rest and the shape stay. */
  function FlagOutliers(m: seq<seq<Complex>>): (r: seq<seq<Complex>>)
    ensures |r| == |m|
    ensures forall i :: 0 <= i < |m| ==> |r[i]| == |m[i]|
    ensures forall i, j :: 0 <= i < |m| && 0 <= j < |m[i]| ==> (Outlier(m[i][j]) ==> r[i][j] == Zero)
    ensures forall i, j :: 0 <= i < |m| && 0 <= j < |m[i]| ==> (!Outlier(m[i][j]) ==> r[i][j] == m[i][j])
  {
    seq(|m|, i requires 0 <= i < |m| => ClipRow(m[i]))
  }

  lemma ZeroNotOutlier()
    ensures !Outlier(Zero)
  {
  }

  /** No outlier is left in a clipped row, so clipping it again changes nothing. */
  lemma ClipRowIdempotent(row: seq<Complex>)
    ensures forall j :: 0 <= j < |row| ==> !Outlier(ClipRow(row)[j])
    ensures ClipRow(ClipRow(row)) == ClipRow(row)
  {
    ZeroNotOutlier();
  }

  /** No outlier is left, so clipping twice is clipping once. */
  lemma FlagOutliersIdempotent(m: seq<seq<Complex>>)
    ensures forall i, j :: 0 <= i < |m| && 0 <= j < |m[i]| ==> !Outlier(FlagOutliers(m)[i][j])
    ensures FlagOutliers(FlagOutliers(m)) == FlagOutliers(m)
  {
    forall i | 0 <= i < |m| ensures FlagOutliers(m)[i] == ClipRow(m[i]) {
    }
    forall i | 0 <= i < |m| {
      ClipRowIdempotent(m[i]);
    }
  }

  // ---------------------------------------------------------------- flags

  /** A row counts as flagged when any of its channel flags is set (the `|=` loop). */
  function RowFlagged(flags: seq<bool>): (r: bool)
    ensures r <==> exists ch :: 0 <= ch < |flags| && flags[ch]
  {
    if |flags| == 0 then false
    else
      var rest := RowFlagged(flags[..|flags| - 1]);
      assert forall ch :: 0 <= ch < |flags| - 1 ==> flags[..|flags| - 1][ch] == flags[ch];
      rest || flags[|flags| - 1]
  }

  // --------------------------------------------------------------- ranges

  /** A run of channels, first and last inclusive (one entry of `starts`/`stops`). */
  datatype Range = Range(start: nat, stop: nat)

  ghost predicate Bounded(rs: seq<Range>, limit: nat)
  {
    forall k :: 0 <= k < |rs| ==> rs[k].start <= rs[k].stop < limit
  }

  /** Every channel inside a run is above the threshold. */
  ghost predicate Filled(row: seq<Complex>, rs: seq<Range>)
  {
    forall k, j :: 0 <= k < |rs| && rs[k].start <= j <= rs[k].stop && j < |row| ==> Above(row[j])
  }

  /** A run starts at channel 0 or right after a channel below the threshold. */
  ghost predicate LeftClosed(row: seq<Complex>, rs: seq<Range>)
  {
    forall k :: 0 <= k < |rs| && 0 < rs[k].start <= |row| ==> !Above(row[rs[k].start - 1])
  }

  /** A run ends right before a channel below the threshold, unless it reaches `limit`. */
  ghost predicate RightClosed(row: seq<Complex>, rs: seq<Range>, limit: nat)
  {
    forall k :: 0 <= k < |rs| && rs[k].stop + 1 < limit <= |row| ==> !Above(row[rs[k].stop + 1])
  }

  /** Runs ascend with at least one channel between neighbours. */
  ghost predicate Separated(rs: seq<Range>)
  {
    forall k :: 0 <= k < |rs| - 1 ==> rs[k].stop + 1 < rs[k + 1].start
  }

  /** The list holds maximal runs of channels above the threshold among the first `limit`. */
  ghost predicate Runs(row: seq<Complex>, rs: seq<Range>, limit: nat)
  {
    limit <= |row| && Bounded(rs, limit) && Filled(row, rs) && LeftClosed(row, rs)
    && RightClosed(row, rs, limit) && Separated(rs)
  }

  /** Channel `j` lies in one of the runs. */
  ghost predicate Covered(rs: seq<Range>, j: int)
  {
    exists k :: 0 <= k < |rs| && rs[k].start <= j <= rs[k].stop
  }

  /** Every channel above the threshold among the first `limit` lies in a run. */
  ghost predicate Complete(row: seq<Complex>, rs: seq<Range>, limit: nat)
  {
    forall j :: 0 <= j < limit && j < |row| && Above(row[j]) ==> Covered(rs, j)
  }

  /**
   * What holds after the first `ch` channels: the closed runs are runs of
   * that prefix; when a run is open (`open >= 0`) it starts after the last
   * closed one, right after a channel below the threshold, and every channel
   * from it to `ch - 1` is above; every channel above is covered by a closed
   * run or lies in the open one.
   */
  ghost predicate Scanned(row: seq<Complex>, rs: seq<Range>, open: int, ch: nat)
  {
    ch <= |row| && -1 <= open < ch && Runs(row, rs, ch)
    && (open == -1 ==> (forall k :: 0 <= k < |rs| ==> rs[k].stop + 1 < ch) && (ch == 0 || !Above(row[ch - 1])))
    && (open >= 0 ==> (open == 0 || !Above(row[open - 1])) && (forall j :: open <= j < ch ==> Above(row[j])))
    && (open >= 0 ==> forall k :: 0 <= k < |rs| ==> rs[k].stop + 1 < open)
    && Complete(row, rs, if open == -1 then ch else open)
  }

  lemma BoundedAppend(rs: seq<Range>, limit: nat, r: Range, limit2: nat)
    requires Bounded(rs, limit) && limit <= limit2 && r.start <= r.stop < limit2
    ensures Bounded(rs + [r], limit2)
  {
  }

  lemma FilledAppend(row: seq<Complex>, rs: seq<Range>, r: Range)
    requires Filled(row, rs)
    requires forall j :: r.start <= j <= r.stop && j < |row| ==> Above(row[j])
    ensures Filled(row, rs + [r])
  {
    var rs2 := rs + [r];
    forall k, j | 0 <= k < |rs2| && rs2[k].start <= j <= rs2[k].stop && j < |row| ensures Above(row[j]) {
      if k < |rs| {
        assert rs2[k] == rs[k];
      }
    }
  }

  lemma LeftClosedAppend(row: seq<Complex>, rs: seq<Range>, r: Range)
    requires LeftClosed(row, rs)
    requires 0 < r.start <= |row| ==> !Above(row[r.start - 1])
    ensures LeftClosed(row, rs + [r])
  {
    var rs2 := rs + [r];
    forall k | 0 <= k < |rs2| && 0 < rs2[k].start <= |row| ensures !Above(row[rs2[k].start - 1]) {
      if k < |rs| {
        assert rs2[k] == rs[k];
      }
    }
  }

  lemma RightClosedAppend(row: seq<Complex>, rs: seq<Range>, limit: nat, r: Range, limit2: nat)
    requires RightClosed(row, rs, limit) && limit <= limit2
    requires forall k :: 0 <= k < |rs| ==> rs[k].stop + 1 < limit
    requires r.stop + 1 < limit2 <= |row| ==> !Above(row[r.stop + 1])
    ensures RightClosed(row, rs + [r], limit2)
  {
    var rs2 := rs + [r];
    forall k | 0 <= k < |rs2| && rs2[k].stop + 1 < limit2 <= |row| ensures !Above(row[rs2[k].stop + 1]) {
      if k < |rs| {
        assert rs2[k] == rs[k];
      }
    }
  }

  lemma SeparatedAppend(rs: seq<Range>, r: Range)
    requires Separated(rs)
    requires forall k :: 0 <= k < |rs| ==> rs[k].stop + 1 < r.start
    ensures Separated(rs + [r])
  {
    var rs2 := rs + [r];
    forall k | 0 <= k < |rs2| - 1 ensures rs2[k].stop + 1 < rs2[k + 1].start {
      assert rs2[k] == rs[k];
      if k + 1 < |rs| {
        assert rs2[k + 1] == rs[k + 1];
      }
    }
  }

  /** Appending a run keeps what was covered and covers the new run. */
  lemma CompleteAppend(row: seq<Complex>, rs: seq<Range>, limit: nat, r: Range, limit2: nat)
    requires Complete(row, rs, limit)
    requires forall j :: limit <= j < limit2 && j < |row| && Above(row[j]) ==> r.start <= j <= r.stop
    ensures Complete(row, rs + [r], limit2)
  {
    var rs2 := rs + [r];
    forall j | 0 <= j < limit2 && j < |row| && Above(row[j]) ensures Covered(rs2, j) {
      if j < limit {
        var k :| 0 <= k < |rs| && rs[k].start <= j <= rs[k].stop;
        assert rs2[k] == rs[k];
      } else {
        assert rs2[|rs|] == r;
      }
    }
  }

  /** Closing the open run `open .. stop` after the closed ones. */
  lemma CloseRun(row: seq<Complex>, rs: seq<Range>, open: nat, ch: nat, stop: nat, limit2: nat)
    requires Scanned(row, rs, open, ch) && stop + 1 == ch && ch <= limit2 <= |row|
    requires forall j :: ch <= j < limit2 && j < |row| ==> !Above(row[j])
    ensures Runs(row, rs + [Range(open, stop)], limit2)
    ensures forall k :: 0 <= k < |rs| + 1 ==> (rs + [Range(open, stop)])[k].stop + 1 < limit2 + 1
    ensures Complete(row, rs + [Range(open, stop)], limit2)
  {
    var r := Range(open, stop);
    BoundedAppend(rs, ch, r, limit2);
    FilledAppend(row, rs, r);
    LeftClosedAppend(row, rs, r);
    RightClosedAppend(row, rs, ch, r, limit2);
    SeparatedAppend(rs, r);
    CompleteAppend(row, rs, open, r, limit2);
  }

  /** Once every closed run ends two channels before `ch`, the list is a list of runs of one more channel. */
  lemma RunsExtend(row: seq<Complex>, rs: seq<Range>, ch: nat)
    requires Runs(row, rs, ch) && ch < |row|
    requires forall k :: 0 <= k < |rs| ==> rs[k].stop + 1 < ch
    ensures Runs(row, rs, ch + 1)
  {
  }

  /** A channel above the threshold opens a run or extends the open one. */
  lemma ScanAbove(row: seq<Complex>, rs: seq<Range>, open: int, ch: nat)
    requires ch < |row| && Above(row[ch]) && Scanned(row, rs, open, ch)
    ensures Scanned(row, rs, if open == -1 then ch else open, ch + 1)
  {
    RunsExtend(row, rs, ch);
    var open' := if open == -1 then ch else open;
    assert forall j :: open' <= j < ch + 1 ==> Above(row[j]);
  }

  /** A channel below the threshold with no open run changes nothing. */
  lemma ScanIdle(row: seq<Complex>, rs: seq<Range>, ch: nat)
    requires ch < |row| && !Above(row[ch]) && Scanned(row, rs, -1, ch)
    ensures Scanned(row, rs, -1, ch + 1)
  {
    RunsExtend(row, rs, ch);
  }

  /** A channel below the threshold closes the open run at the channel before it. */
  lemma ScanClose(row: seq<Complex>, rs: seq<Range>, open: nat, ch: nat)
    requires ch < |row| && !Above(row[ch]) && Scanned(row, rs, open, ch)
    ensures Scanned(row, rs + [Range(open, ch - 1)], -1, ch + 1)
  {
    CloseRun(row, rs, open, ch, ch - 1, ch + 1);
  }

  /** One channel of the scan: open a run, extend it, close it, or nothing. */
  method ScanChannel(row: seq<Complex>, rs: seq<Range>, open: int, ch: nat) returns (rs': seq<Range>, open': int)
    requires ch < |row| && Scanned(row, rs, open, ch)
    ensures Scanned(row, rs', open', ch + 1)
  {
    if Above(row[ch]) {
      ScanAbove(row, rs, open, ch);
      rs', open' := rs, if open == -1 then ch else open;
    } else if open != -1 {
      ScanClose(row, rs, open, ch);
      rs', open' := rs + [Range(open, ch - 1)], -1;
    } else {
      ScanIdle(row, rs, ch);
      rs', open' := rs, open;
    }
  }

  /** At the end of the row an open run closes at the last channel. */
  lemma FinishOpen(row: seq<Complex>, rs: seq<Range>, open: nat)
    requires Scanned(row, rs, open, |row|)
    ensures Runs(row, rs + [Range(open, |row| - 1)], |row|) && Complete(row, rs + [Range(open, |row| - 1)], |row|)
  {
    CloseRun(row, rs, open, |row|, |row| - 1, |row|);
  }

  /** With no open run at the end of the row, the closed runs are all of them. */
  lemma FinishIdle(row: seq<Complex>, rs: seq<Range>)
    requires Scanned(row, rs, -1, |row|)
    ensures Runs(row, rs, |row|) && Complete(row, rs, |row|)
  {
  }

  method FinishScan(row: seq<Complex>, rs: seq<Range>, open: int) returns (rs': seq<Range>)
    requires Scanned(row, rs, open, |row|)
    ensures Runs(row, rs', |row|) && Complete(row, rs', |row|)
  {
    if open == -1 {
      FinishIdle(row, rs);
      rs' := rs;
    } else {
      FinishOpen(row, rs, open);
      rs' := rs + [Range(open, |row| - 1)];
    }
  }

  /**
   * The range extraction in `process`: walking the channels, a run opens at
   * the first channel above the threshold and closes before the next one
   * below; a run still open at the end closes at the last channel.
   */
  method ExtractRanges(row: seq<Complex>) returns (rs: seq<Range>)
    ensures Runs(row, rs, |row|)
    ensures Complete(row, rs, |row|)
  {
    rs := [];
    var open := -1;
    var ch := 0;
    while ch < |row|
      invariant ch <= |row| && Scanned(row, rs, open, ch)
    {
      rs, open := ScanChannel(row, rs, open, ch);
      ch := ch + 1;
    }
    rs := FinishScan(row, rs, open);
  }

  // ------------------------------------------------------- change detection

  /**
   * `rangesChanged`: the counts differ, or some start or stop differs; the
   * element loop only runs when the counts agree.
   */
  function RangesChanged(old_: seq<Range>, new_: seq<Range>): (r: bool)
    ensures r <==> old_ != new_
  {
    if |new_| != |old_| then true
    else FirstDifference(old_, new_, 0)
  }

  /** Whether some range at or after `rng` differs (the `break` loop). */
  function FirstDifference(old_: seq<Range>, new_: seq<Range>, rng: nat): (r: bool)
    requires |old_| == |new_| && rng <= |old_|
    ensures r <==> exists k :: rng <= k < |old_| && old_[k] != new_[k]
    decreases |old_| - rng
  {
    if rng == |old_| then false
    else if old_[rng].start != new_[rng].start || old_[rng].stop != new_[rng].stop then true
    else FirstDifference(old_, new_, rng + 1)
  }

  /** Together, the runs cover exactly the channels above the threshold. */
  lemma RangesExactlyAbove(row: seq<Complex>, rs: seq<Range>, j: nat)
    requires Runs(row, rs, |row|) && Complete(row, rs, |row|) && j < |row|
    ensures Covered(rs, j) <==> Above(row[j])
  {
    if Covered(rs, j) {
      var k :| 0 <= k < |rs| && rs[k].start <= j <= rs[k].stop;
    }
  }

  // ---------------------------------------------------------- bookkeeping

  /** One range as written: first and last channel and the width. */
  datatype Span = Span(start: nat, stop: nat, width: int)

  /** A line of `chranges.dat`: the cycle, time since start, cycles since the last change, and the ranges. */
  datatype Record = Record(cycle: nat, time: real, gap: int, spans: seq<Span>)

  /** What `process` carries from row to row: the current ranges of baseline 0-1, the cycle of their last change, the row counts and the lines written. */
  datatype Tracker = Tracker(ranges: seq<Range>, prevCycle: nat, nGood: nat, nBad: nat, records: seq<Record>)

  function MakeRecord(cycle: nat, time: real, prevCycle: nat, rs: seq<Range>): (r: Record)
    ensures r.cycle == cycle && r.gap == cycle - prevCycle && |r.spans| == |rs|
    ensures forall k :: 0 <= k < |rs| ==> r.spans[k].start == rs[k].start && r.spans[k].stop == rs[k].stop
    ensures forall k :: 0 <= k < |rs| && rs[k].start <= rs[k].stop ==> r.spans[k].width >= 1 && r.spans[k].start + r.spans[k].width == rs[k].stop + 1
  {
    Record(cycle, time, cycle - prevCycle,
           seq(|rs|, k requires 0 <= k < |rs| => Span(rs[k].start, rs[k].stop, rs[k].stop as int - rs[k].start + 1)))
  }

  /** Only unflagged rows of baseline 0-1 feed the range tracking. */
  predicate Tracked(flags: seq<bool>, ant1: nat, ant2: nat)
  {
    !RowFlagged(flags) && ant1 == 0 && ant2 == 1
  }

  /**
   * The handling of one row: a flagged row is counted as bad, an unflagged
   * one as good; only baseline 0-1 goes on to range extraction on the
   * clipped visibilities, the new ranges replace the old ones when they
   * differ, and a line is written when there is more than one range.
   */
  method ProcessRow(t: Tracker, flags: seq<bool>, ant1: nat, ant2: nat, vis: seq<Complex>, cycle: nat, time: real)
    returns (r: Tracker)
    ensures RowFlagged(flags) ==> r.nBad == t.nBad + 1 && r.nGood == t.nGood
    ensures !RowFlagged(flags) ==> r.nGood == t.nGood + 1 && r.nBad == t.nBad
    ensures !Tracked(flags, ant1, ant2) ==> r.ranges == t.ranges && r.prevCycle == t.prevCycle && r.records == t.records
    ensures Tracked(flags, ant1, ant2) ==> Runs(vis, r.ranges, |vis|) && Complete(vis, r.ranges, |vis|)
    ensures Tracked(flags, ant1, ant2) ==> r.prevCycle == if r.ranges != t.ranges then cycle else t.prevCycle
    ensures Tracked(flags, ant1, ant2) && r.ranges != t.ranges && |r.ranges| > 1 ==>
              r.records == t.records + [MakeRecord(cycle, time, t.prevCycle, r.ranges)]
    ensures Tracked(flags, ant1, ant2) && (r.ranges == t.ranges || |r.ranges| <= 1) ==> r.records == t.records
  {
    if RowFlagged(flags) {
      return t.(nBad := t.nBad + 1);
    }
    r := t.(nGood := t.nGood + 1);
    if ant1 != 0 || ant2 != 1 {
      return;
    }
    var newRanges := ExtractRanges(vis);
    if RangesChanged(t.ranges, newRanges) {
      var records := if |newRanges| > 1 then t.records + [MakeRecord(cycle, time, t.prevCycle, newRanges)] else t.records;
      r := r.(ranges := newRanges, records := records, prevCycle := cycle);
    }
  }

  /** All rows of one cycle, in order; only the counts and the lines written accumulate. */
  method ProcessRows(t: Tracker, flags: seq<seq<bool>>, ant1: seq<nat>, ant2: seq<nat>, vis: seq<seq<Complex>>, cycle: nat, time: real)
    returns (r: Tracker)
    requires |flags| == |ant1| == |ant2| == |vis|
    ensures r.nGood + r.nBad == t.nGood + t.nBad + |flags|
    ensures r.nGood >= t.nGood && r.nBad >= t.nBad
    ensures |t.records| <= |r.records| && r.records[..|t.records|] == t.records
    ensures (forall row :: 0 <= row < |flags| ==> !Tracked(flags[row], ant1[row], ant2[row])) ==>
              r.ranges == t.ranges && r.records == t.records
  {
    r := t;
    var row := 0;
    while row < |flags|
      invariant row <= |flags|
      invariant r.nGood + r.nBad == t.nGood + t.nBad + row
      invariant r.nGood >= t.nGood && r.nBad >= t.nBad
      invariant |t.records| <= |r.records| && r.records[..|t.records|] == t.records
      invariant (forall i :: 0 <= i < row ==> !Tracked(flags[i], ant1[i], ant2[i])) ==>
                  r.ranges == t.ranges && r.records == t.records
    {
      ghost var before := r;
      r := ProcessRow(r, flags[row], ant1[row], ant2[row], vis[row], cycle, time);
      assert r.records[..|before.records|] == before.records;
      row := row + 1;
    }
  }

  // -------------------------------------------------------------- cycles

  /** One iteration of the data source: a cycle of rows of the first polarisation. */
  datatype Chunk = Chunk(nChannel: nat, nPol: nat, time: real, ant1: seq<nat>, ant2: seq<nat>,
                         flags: seq<seq<bool>>, vis: seq<seq<Complex>>)

  /** What the accessor guarantees: one antenna pair, one flag row and one visibility row per row. */
  predicate WellShaped(c: Chunk)
  {
    |c.ant2| == |c.ant1| && |c.flags| == |c.ant1| && |c.vis| == |c.ant1|
  }

  /**
   * The state of `process` between cycles. `nChan == 0` means the next
   * cycle is taken as the first one: it fixes the channel count, the row
   * count and the baseline order.
   */
  datatype Session = Session(nChan: nat, nRow: nat, ant1: seq<nat>, ant2: seq<nat>, cycle: nat, counter: nat,
                             startTime: real, stopTime: real, tracker: Tracker)

  predicate SessionOk(s: Session)
  {
    |s.ant1| == s.nRow && |s.ant2| == s.nRow
  }

  function ChannelsChangedMessage(previous: nat, now: nat): string
  {
    "Number of channels seem to have been changed, previously " + NatToString(previous) + " now " + NatToString(now)
  }

  function InconsistentMessage(antenna: nat, row: nat): string
  {
    "Inconsistent antenna " + NatToString(antenna) + " ids at row = " + NatToString(row)
  }

  const NoPolarisation := "it->nPol() >= 1"
  const TooFewChannels := "it->nChannel() > 1"

  /** The first row whose antenna ids differ from the baseline order, antenna 1 checked before antenna 2. */
  function FirstInconsistency(ant1: seq<nat>, ant2: seq<nat>, ids1: seq<nat>, ids2: seq<nat>, row: nat): (r: Option<string>)
    requires |ant1| == |ant2| == |ids1| == |ids2| && row <= |ant1|
    ensures r == None <==> forall i :: row <= i < |ant1| ==> ant1[i] == ids1[i] && ant2[i] == ids2[i]
    decreases |ant1| - row
  {
    if row == |ant1| then None
    else if ant1[row] != ids1[row] then Some(InconsistentMessage(1, row))
    else if ant2[row] != ids2[row] then Some(InconsistentMessage(2, row))
    else FirstInconsistency(ant1, ant2, ids1, ids2, row + 1)
  }

  /** The cycle is dropped because its row count differs from the first cycle's. */
  predicate RowsChanged(s: Session, c: Chunk)
  {
    s.nChan != 0 && c.nChannel == s.nChan && |c.ant1| != s.nRow
  }

  /**
   * One iteration of the loop in `process`: count the cycle, adopt or check
   * the shape, check the antenna order, clip the visibilities and handle
   * every row; a first cycle with no good row is forgotten so that the next
   * one is taken as first.
   */
  method Step(s: Session, c: Chunk) returns (r: Result<Session>)
    requires SessionOk(s) && WellShaped(c)
    ensures s.nChan != 0 && c.nChannel != s.nChan ==> r == Err(ChannelsChangedMessage(s.nChan, c.nChannel))
    ensures RowsChanged(s, c) ==> r == Ok(s.(cycle := s.cycle + 1))
    ensures r.Ok? ==> SessionOk(r.value) && r.value.cycle == s.cycle + 1
    ensures r.Ok? && !RowsChanged(s, c) ==>
              c.nPol >= 1 && c.nChannel > 1 && r.value.nRow == |c.ant1|
              && r.value.tracker.nGood + r.value.tracker.nBad == s.tracker.nGood + s.tracker.nBad + |c.ant1|
    ensures r.Ok? ==> |s.tracker.records| <= |r.value.tracker.records|
                      && r.value.tracker.records[..|s.tracker.records|] == s.tracker.records
    ensures (s.nChan == 0 || c.nChannel == s.nChan) && !RowsChanged(s, c) && c.nPol < 1 ==> r == Err(NoPolarisation)
    ensures r.Ok? && !RowsChanged(s, c) ==>
              (r.value.nChan == 0 <==> s.counter == 0 && r.value.tracker.nGood == 0)
    ensures r.Ok? && r.value.nChan != 0 && !RowsChanged(s, c) ==>
              r.value.counter == s.counter + 1 && r.value.stopTime == c.time + 1.0
  {
    var s1 := s.(cycle := s.cycle + 1);
    if s.nChan == 0 {
      s1 := s1.(nChan := c.nChannel, nRow := |c.ant1|, ant1 := c.ant1, ant2 := c.ant2, startTime := c.time);
    } else if c.nChannel != s.nChan {
      return Err(ChannelsChangedMessage(s.nChan, c.nChannel));
    } else if |c.ant1| != s.nRow {
      return Ok(s1);
    }
    if c.nPol < 1 {
      return Err(NoPolarisation);
    }
    if c.nChannel <= 1 {
      return Err(TooFewChannels);
    }
    var bad := FirstInconsistency(c.ant1, c.ant2, s1.ant1, s1.ant2, 0);
    if bad.Some? {
      return Err(bad.value);
    }
    var tracker := ProcessRows(s1.tracker, c.flags, s1.ant1, s1.ant2, FlagOutliers(c.vis), s1.cycle, c.time - s1.startTime);
    s1 := s1.(tracker := tracker);
    if s1.counter == 0 && tracker.nGood == 0 {
      return Ok(s1.(nChan := 0));
    }
    var counter := s1.counter + 1;
    r := Ok(s1.(counter := counter, startTime := if counter == 1 then c.time else s1.startTime, stopTime := c.time + 1.0));
  }
}
