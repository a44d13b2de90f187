// The calibration solution table: one row per solution, each with a time
// and optionally a gains, a leakages and a bandpass column. A solution is
// read through the latest row at or before it that defines the term asked
// for; elements never set read as the default (gain 1, leakage 0) and are
// marked invalid. A channel adapter shifts bandpass channels by an offset.

module CalSolutionTable {

  import opened Common

  /** A single-precision complex value. */
  datatype Cx = Cx(re: real, im: real)

  const One := Cx(1.0, 0.0)
  const Zero := Cx(0.0, 0.0)

  /** A value and its validity flag. */
  datatype Element = Element(value: Cx, valid: bool)

  /** `JonesJTerm`: the two parallel-hand gains. */
  datatype JTerm = JTerm(g1: Element, g2: Element)

  /** `JonesDTerm`: the two leakages. */
  datatype DTerm = DTerm(d12: Element, d21: Element)

  const DefaultGain := JTerm(Element(One, false), Element(One, false))
  const DefaultLeakage := DTerm(Element(Zero, false), Element(Zero, false))

  datatype JonesIndex = JonesIndex(ant: nat, beam: nat)

  /** The table's extent: antennas, beams and channels. */
  datatype Dims = Dims(nAnt: nat, nBeam: nat, nChan: nat)

  datatype Row = Row(time: real,
                     gains: Option<map<JonesIndex, JTerm>>,
                     leakages: Option<map<JonesIndex, DTerm>>,
                     bandpasses: Option<map<(JonesIndex, nat), JTerm>>)

  datatype Table = Table(dims: Dims, rows: seq<Row>)

  datatype Term = GainTerm | LeakageTerm | BandpassTerm

  /** Why a read or write is refused. */
  datatype Failure = OutOfRange | Undefined(term: Term)

  datatype Outcome<T> = Got(value: T) | Refused(why: Failure)

  predicate Defines(r: Row, term: Term)
  {
    match term
    case GainTerm => r.gains.Some?
    case LeakageTerm => r.leakages.Some?
    case BandpassTerm => r.bandpasses.Some?
  }

  predicate IndexInRange(d: Dims, idx: JonesIndex)
  {
    idx.ant < d.nAnt && idx.beam < d.nBeam
  }

  // ------------------------------------------------------------- solutions

  /** A fresh table has no rows. */
  function NewTable(dims: Dims): (t: Table)
    ensures t.dims == dims && |t.rows| == 0
  {
    Table(dims, [])
  }

  /** `newSolutionID(time)`: a new, empty row; its id is the number of rows before it. */
  function NewSolutionID(t: Table, time: real): (r: (Table, nat))
    ensures r.1 == |t.rows| && |r.0.rows| == |t.rows| + 1 && r.0.rows[..|t.rows|] == t.rows
    ensures r.0.dims == t.dims && r.0.rows[r.1].time == time
    ensures forall term :: !Defines(r.0.rows[r.1], term)
  {
    var t' := t.(rows := t.rows + [Row(time, None, None, None)]);
    assert t'.rows[..|t.rows|] == t.rows;
    (t', |t.rows|)
  }

  /** `mostRecentSolution()`. */
  function MostRecentSolution(t: Table): (r: Option<nat>)
    ensures r.Some? <==> |t.rows| > 0
    ensures r.Some? ==> r.value + 1 == |t.rows|
  {
    if |t.rows| == 0 then None else Some(|t.rows| - 1)
  }

  /** `solutionID(time)`: the latest solution whose time is at or before `time`. */
  function SolutionID(rows: seq<Row>, time: real): (r: Option<nat>)
    ensures r.Some? ==> r.value < |rows| && rows[r.value].time <= time
    ensures r.Some? ==> forall j :: r.value < j < |rows| ==> rows[j].time > time
    ensures r.None? ==> forall j :: 0 <= j < |rows| ==> rows[j].time > time
  {
    if |rows| == 0 then None
    else if rows[|rows| - 1].time <= time then Some(|rows| - 1)
    else SolutionID(rows[..|rows| - 1], time)
  }

  /** Rows in the order of strictly increasing time, as `newSolutionID` is called. */
  predicate Increasing(rows: seq<Row>)
  {
    forall i, j :: 0 <= i < j < |rows| ==> rows[i].time < rows[j].time
  }

  /** With increasing times, a time between a solution's and the next one's finds that solution. */
  lemma SolutionIDFindsRow(rows: seq<Row>, k: nat, time: real)
    requires Increasing(rows) && k < |rows| && rows[k].time <= time
    requires k + 1 < |rows| ==> time < rows[k + 1].time
    ensures SolutionID(rows, time) == Some(k)
  {
  }

  /**
   * The id of the `k`-th of a series of new solutions: a table started
   * empty and given `times` in turn hands out 0, 1, 2, ... and its rows
   * carry those times.
   */
  method CreateSolutions(dims: Dims, times: seq<real>) returns (t: Table, ids: seq<nat>)
    ensures |ids| == |times| && |t.rows| == |times| && t.dims == dims
    ensures forall k :: 0 <= k < |ids| ==> ids[k] == k && t.rows[k].time == times[k]
  {
    t := NewTable(dims);
    ids := [];
    var k := 0;
    while k < |times|
      invariant k <= |times| && |ids| == k && |t.rows| == k && t.dims == dims
      invariant forall j :: 0 <= j < k ==> ids[j] == j && t.rows[j].time == times[j]
    {
      var r := NewSolutionID(t, times[k]);
      t, ids := r.0, ids + [r.1];
      k := k + 1;
    }
  }

  // ----------------------------------------------------------------- reads

  /** The latest row at or before `id` that defines `term`. */
  function LatestDefining(rows: seq<Row>, id: nat, term: Term): (r: Option<nat>)
    requires id < |rows|
    ensures r.Some? ==> r.value <= id && Defines(rows[r.value], term)
    ensures r.Some? ==> forall j :: r.value < j <= id ==> !Defines(rows[j], term)
    ensures r.None? ==> forall j :: 0 <= j <= id ==> !Defines(rows[j], term)
  {
    if Defines(rows[id], term) then Some(id)
    else if id == 0 then None
    else LatestDefining(rows, id - 1, term)
  }

  function GainOf(r: Row, idx: JonesIndex): JTerm
    requires r.gains.Some?
  {
    if idx in r.gains.value then r.gains.value[idx] else DefaultGain
  }

  function LeakageOf(r: Row, idx: JonesIndex): DTerm
    requires r.leakages.Some?
  {
    if idx in r.leakages.value then r.leakages.value[idx] else DefaultLeakage
  }

  function BandpassOf(r: Row, idx: JonesIndex, chan: nat): JTerm
    requires r.bandpasses.Some?
  {
    if (idx, chan) in r.bandpasses.value then r.bandpasses.value[(idx, chan)] else DefaultGain
  }

  /** `gain(index)` at solution `id`. */
  function Gain(t: Table, id: nat, idx: JonesIndex): (r: Outcome<JTerm>)
    requires id < |t.rows|
    ensures r == Refused(OutOfRange) <==> !IndexInRange(t.dims, idx)
    ensures r == Refused(Undefined(GainTerm)) <==> IndexInRange(t.dims, idx) && forall j :: 0 <= j <= id ==> t.rows[j].gains.None?
    ensures r.Got? ==> exists k :: 0 <= k <= id && t.rows[k].gains.Some? && (forall j :: k < j <= id ==> t.rows[j].gains.None?)
                                && r.value == GainOf(t.rows[k], idx)
  {
    if !IndexInRange(t.dims, idx) then Refused(OutOfRange)
    else match LatestDefining(t.rows, id, GainTerm)
      case None => Refused(Undefined(GainTerm))
      case Some(k) => Got(GainOf(t.rows[k], idx))
  }

  /** `leakage(index)` at solution `id`. */
  function Leakage(t: Table, id: nat, idx: JonesIndex): (r: Outcome<DTerm>)
    requires id < |t.rows|
    ensures r == Refused(OutOfRange) <==> !IndexInRange(t.dims, idx)
    ensures r == Refused(Undefined(LeakageTerm)) <==> IndexInRange(t.dims, idx) && forall j :: 0 <= j <= id ==> t.rows[j].leakages.None?
    ensures r.Got? ==> exists k :: 0 <= k <= id && t.rows[k].leakages.Some? && (forall j :: k < j <= id ==> t.rows[j].leakages.None?)
                                && r.value == LeakageOf(t.rows[k], idx)
  {
    if !IndexInRange(t.dims, idx) then Refused(OutOfRange)
    else match LatestDefining(t.rows, id, LeakageTerm)
      case None => Refused(Undefined(LeakageTerm))
      case Some(k) => Got(LeakageOf(t.rows[k], idx))
  }

  /** `bandpass(index, chan)` at solution `id`. */
  function Bandpass(t: Table, id: nat, idx: JonesIndex, chan: nat): (r: Outcome<JTerm>)
    requires id < |t.rows|
    ensures r == Refused(OutOfRange) <==> !IndexInRange(t.dims, idx) || chan >= t.dims.nChan
    ensures r == Refused(Undefined(BandpassTerm)) <==>
              IndexInRange(t.dims, idx) && chan < t.dims.nChan && forall j :: 0 <= j <= id ==> t.rows[j].bandpasses.None?
    ensures r.Got? ==> exists k :: 0 <= k <= id && t.rows[k].bandpasses.Some? && (forall j :: k < j <= id ==> t.rows[j].bandpasses.None?)
                                && r.value == BandpassOf(t.rows[k], idx, chan)
  {
    if !IndexInRange(t.dims, idx) || chan >= t.dims.nChan then Refused(OutOfRange)
    else match LatestDefining(t.rows, id, BandpassTerm)
      case None => Refused(Undefined(BandpassTerm))
      case Some(k) => Got(BandpassOf(t.rows[k], idx, chan))
  }

  // ---------------------------------------------------------------- writes

  /** `setGain` on the accessor of solution `id`. */
  function SetGain(t: Table, id: nat, idx: JonesIndex, g: JTerm): (r: Outcome<Table>)
    requires id < |t.rows|
    ensures r.Refused? <==> !IndexInRange(t.dims, idx)
    ensures r.Got? ==> r.value.dims == t.dims && |r.value.rows| == |t.rows|
    ensures r.Got? ==> forall j :: 0 <= j < |t.rows| && j != id ==> r.value.rows[j] == t.rows[j]
    ensures r.Got? ==> var row := r.value.rows[id];
                       row.gains.Some? && GainOf(row, idx) == g
                       && row.time == t.rows[id].time && row.leakages == t.rows[id].leakages
                       && row.bandpasses == t.rows[id].bandpasses
  {
    if !IndexInRange(t.dims, idx) then Refused(OutOfRange)
    else
      var row := t.rows[id];
      var m := if row.gains.Some? then row.gains.value else map[];
      Got(t.(rows := t.rows[id := row.(gains := Some(m[idx := g]))]))
  }

  /** `setLeakage` on the accessor of solution `id`. */
  function SetLeakage(t: Table, id: nat, idx: JonesIndex, d: DTerm): (r: Outcome<Table>)
    requires id < |t.rows|
    ensures r.Refused? <==> !IndexInRange(t.dims, idx)
    ensures r.Got? ==> r.value.dims == t.dims && |r.value.rows| == |t.rows|
    ensures r.Got? ==> forall j :: 0 <= j < |t.rows| && j != id ==> r.value.rows[j] == t.rows[j]
    ensures r.Got? ==> var row := r.value.rows[id];
                       row.leakages.Some? && LeakageOf(row, idx) == d
                       && row.time == t.rows[id].time && row.gains == t.rows[id].gains
                       && row.bandpasses == t.rows[id].bandpasses
  {
    if !IndexInRange(t.dims, idx) then Refused(OutOfRange)
    else
      var row := t.rows[id];
      var m := if row.leakages.Some? then row.leakages.value else map[];
      Got(t.(rows := t.rows[id := row.(leakages := Some(m[idx := d]))]))
  }

  /** `setBandpass` on the accessor of solution `id`. */
  function SetBandpass(t: Table, id: nat, idx: JonesIndex, g: JTerm, chan: nat): (r: Outcome<Table>)
    requires id < |t.rows|
    ensures r.Refused? <==> !IndexInRange(t.dims, idx) || chan >= t.dims.nChan
    ensures r.Got? ==> r.value.dims == t.dims && |r.value.rows| == |t.rows|
    ensures r.Got? ==> forall j :: 0 <= j < |t.rows| && j != id ==> r.value.rows[j] == t.rows[j]
    ensures r.Got? ==> var row := r.value.rows[id];
                       row.bandpasses.Some? && BandpassOf(row, idx, chan) == g
                       && row.time == t.rows[id].time && row.gains == t.rows[id].gains
                       && row.leakages == t.rows[id].leakages
  {
    if !IndexInRange(t.dims, idx) || chan >= t.dims.nChan then Refused(OutOfRange)
    else
      var row := t.rows[id];
      var m := if row.bandpasses.Some? then row.bandpasses.value else map[];
      Got(t.(rows := t.rows[id := row.(bandpasses := Some(m[(idx, chan) := g]))]))
  }

  /** The correlation products `setJonesElement` accepts. */
  datatype Product = XX | YY | XY | YX

  /**
   * `setJonesElement`: XX and YY set the first and second gain, XY and YX
   * the first and second leakage; the value is marked valid and the other
   * element of the same term keeps what this solution holds (its default
   * if unset).
   */
  function SetJonesElement(t: Table, id: nat, idx: JonesIndex, p: Product, v: Cx): (r: Outcome<Table>)
    requires id < |t.rows|
    ensures r.Refused? <==> !IndexInRange(t.dims, idx)
  {
    var row := t.rows[id];
    var g := if row.gains.Some? then GainOf(row, idx) else DefaultGain;
    var d := if row.leakages.Some? then LeakageOf(row, idx) else DefaultLeakage;
    match p
    case XX => SetGain(t, id, idx, g.(g1 := Element(v, true)))
    case YY => SetGain(t, id, idx, g.(g2 := Element(v, true)))
    case XY => SetLeakage(t, id, idx, d.(d12 := Element(v, true)))
    case YX => SetLeakage(t, id, idx, d.(d21 := Element(v, true)))
  }

  // ------------------------------------------------------------ properties

  /** A gain written at a solution reads back there, and from every later solution up to the next row that writes gains. */
  lemma GainWrittenIsRead(t: Table, id: nat, idx: JonesIndex, g: JTerm, later: nat)
    requires id <= later < |t.rows| && IndexInRange(t.dims, idx)
    requires forall j :: id < j <= later ==> t.rows[j].gains.None?
    ensures SetGain(t, id, idx, g).Got?
    ensures Gain(SetGain(t, id, idx, g).value, later, idx) == Got(g)
  {
    var t' := SetGain(t, id, idx, g).value;
    var k := LatestDefining(t'.rows, later, GainTerm);
    assert Defines(t'.rows[id], GainTerm);
  }

  /** Once a solution defines gains, every element it does not set reads as gain 1, invalid. */
  lemma UnsetGainIsDefault(t: Table, id: nat, idx: JonesIndex)
    requires id < |t.rows| && IndexInRange(t.dims, idx)
    requires t.rows[id].gains.Some? && idx !in t.rows[id].gains.value
    ensures Gain(t, id, idx) == Got(DefaultGain)
    ensures !DefaultGain.g1.valid && DefaultGain.g1.value == One
  {
  }

  /** Likewise an unset leakage reads as 0, invalid. */
  lemma UnsetLeakageIsDefault(t: Table, id: nat, idx: JonesIndex)
    requires id < |t.rows| && IndexInRange(t.dims, idx)
    requires t.rows[id].leakages.Some? && idx !in t.rows[id].leakages.value
    ensures Leakage(t, id, idx) == Got(DefaultLeakage)
    ensures !DefaultLeakage.d12.valid && DefaultLeakage.d12.value == Zero
  {
  }

  /** Setting all four products of one index leaves both gains and both leakages valid with the values set. */
  lemma JonesElementsFillTerms(t: Table, id: nat, idx: JonesIndex, a: Cx, b: Cx, c: Cx, d: Cx)
    requires id < |t.rows| && IndexInRange(t.dims, idx)
    ensures var t1 := SetJonesElement(t, id, idx, XX, a);
            var t2 := SetJonesElement(t1.value, id, idx, YY, b);
            var t3 := SetJonesElement(t2.value, id, idx, XY, c);
            var t4 := SetJonesElement(t3.value, id, idx, YX, d);
            t4.Got?
            && Gain(t4.value, id, idx) == Got(JTerm(Element(a, true), Element(b, true)))
            && Leakage(t4.value, id, idx) == Got(DTerm(Element(c, true), Element(d, true)))
  {
    var t1 := SetJonesElement(t, id, idx, XX, a).value;
    var t2 := SetJonesElement(t1, id, idx, YY, b).value;
    var t3 := SetJonesElement(t2, id, idx, XY, c).value;
    var t4 := SetJonesElement(t3, id, idx, YX, d).value;
    assert GainOf(t2.rows[id], idx) == JTerm(Element(a, true), Element(b, true));
    assert t4.rows[id].gains == t2.rows[id].gains;
    assert LatestDefining(t4.rows, id, GainTerm) == Some(id);
    assert LatestDefining(t4.rows, id, LeakageTerm) == Some(id);
  }

  // -------------------------------------------------------- channel adapter

  /** `ChanAdapterCalSolutionConstSource`: bandpass channel `chan` reads the underlying channel `chan + offset`; other terms pass through. */
  function AdaptedBandpass(t: Table, offset: nat, id: nat, idx: JonesIndex, chan: nat): (r: Outcome<JTerm>)
    requires id < |t.rows|
    ensures r == Refused(OutOfRange) <==> !IndexInRange(t.dims, idx) || chan + offset >= t.dims.nChan
    ensures r.Got? ==> exists k :: 0 <= k <= id && t.rows[k].bandpasses.Some? && (forall j :: k < j <= id ==> t.rows[j].bandpasses.None?)
                                && r.value == BandpassOf(t.rows[k], idx, chan + offset)
  {
    Bandpass(t, id, idx, chan + offset)
  }

  /** Through the adapter only the channels below `nChan - offset` can be read. */
  lemma AdapterChannels(t: Table, offset: nat, id: nat, idx: JonesIndex, chan: nat)
    requires id < |t.rows| && IndexInRange(t.dims, idx) && LatestDefining(t.rows, id, BandpassTerm).Some?
    ensures AdaptedBandpass(t, offset, id, idx, chan).Got? <==> chan < t.dims.nChan - offset
  {
  }

  // ---------------------------------------------- the 6x3x8 solution series

  const TestDims := Dims(6, 3, 8)

  /** The three solutions written at times 0, 60 and 120: a gain, a leakage with one valid element, and one bandpass channel. */
  function ThreeSolutions(): (t: Table)
    ensures |t.rows| == 3 && t.dims == TestDims
  {
    var t0 := NewSolutionID(NewTable(TestDims), 0.0).0;
    var t1 := SetGain(t0, 0, JonesIndex(0, 0), JTerm(Element(Cx(1.0, -1.0), true), Element(Cx(-1.0, 1.0), true))).value;
    var t2 := NewSolutionID(t1, 60.0).0;
    var t3 := SetLeakage(t2, 1, JonesIndex(2, 1), DTerm(Element(Cx(0.1, -0.1), true), Element(Cx(-0.1, 0.4), false))).value;
    var t4 := NewSolutionID(t3, 120.0).0;
    SetBandpass(t4, 2, JonesIndex(1, 1), JTerm(Element(Cx(1.0, -0.2), true), Element(Cx(0.9, -0.1), true)), 1).value
  }

  /**
   * The series: the most recent solution is 2; times half a second after
   * each solution find it; at solution 2 the gain of (0,0), the leakage of
   * (2,1) and the bandpass of (1,1) channel 1 come from the rows that set
   * them, other elements read as defaults; out-of-range indices and
   * channels are refused; solution 0 has no leakage.
   */
  lemma ThreeSolutionsRead(ant: nat, beam: nat, chan: nat)
    requires ant < 6 && beam < 3 && chan < 8
    ensures var t := ThreeSolutions();
            MostRecentSolution(t) == Some(2)
            && SolutionID(t.rows, 0.5) == Some(0) && SolutionID(t.rows, 60.5) == Some(1) && SolutionID(t.rows, 120.5) == Some(2)
            && Gain(t, 2, JonesIndex(ant, beam)) == Got(if ant == 0 && beam == 0 then JTerm(Element(Cx(1.0, -1.0), true), Element(Cx(-1.0, 1.0), true)) else DefaultGain)
            && Leakage(t, 2, JonesIndex(ant, beam)) == Got(if ant == 2 && beam == 1 then DTerm(Element(Cx(0.1, -0.1), true), Element(Cx(-0.1, 0.4), false)) else DefaultLeakage)
            && Bandpass(t, 2, JonesIndex(ant, beam), chan) == Got(if ant == 1 && beam == 1 && chan == 1 then JTerm(Element(Cx(1.0, -0.2), true), Element(Cx(0.9, -0.1), true)) else DefaultGain)
            && Gain(t, 2, JonesIndex(7, 0)) == Refused(OutOfRange)
            && Leakage(t, 2, JonesIndex(3, 3)) == Refused(OutOfRange)
            && Bandpass(t, 2, JonesIndex(0, 0), 8) == Refused(OutOfRange)
            && Gain(t, 0, JonesIndex(0, 0)).Got?
            && Leakage(t, 0, JonesIndex(0, 0)) == Refused(Undefined(LeakageTerm))
  {
    var t := ThreeSolutions();
    assert t.rows[0].gains.Some? && t.rows[1].gains.None? && t.rows[2].gains.None?;
    assert t.rows[0].leakages.None? && t.rows[1].leakages.Some? && t.rows[2].leakages.None?;
    assert t.rows[2].bandpasses.Some?;
    assert t.rows[0].time == 0.0 && t.rows[1].time == 60.0 && t.rows[2].time == 120.0;
  }

  /** Through the adapter with offset 1, channel 0 of (1,1) reads the bandpass set on channel 1, and channel 7 is refused. */
  lemma ThreeSolutionsAdapted()
    ensures var t := ThreeSolutions();
            AdaptedBandpass(t, 1, 2, JonesIndex(1, 1), 0) == Got(JTerm(Element(Cx(1.0, -0.2), true), Element(Cx(0.9, -0.1), true)))
            && AdaptedBandpass(t, 1, 2, JonesIndex(0, 0), 7) == Refused(OutOfRange)
  {
    var t := ThreeSolutions();
    assert t.rows[2].bandpasses.Some?;
  }
}
