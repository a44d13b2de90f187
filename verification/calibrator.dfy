// Calibration bookkeeping of `CalibratorParallel`: what the `solve` string
// switches on, the pre-averaging buffer maxima, the unknowns the master's
// `init` puts into the model, the LSQR solver keys taken from the parset,
// the worker's channel range, the channel offset in the model and the
// next-chunk flag carried in the normal equations' metadata. The solvers,
// the measurement equations and all MPI traffic are not modelled.

module Calibrator {
  import opened Common

  // ------------------------------------------------------------ parameters

  /** The polarisation products a calibration parameter refers to. */
  datatype Pol = XX | YY | XY | YX

  /**
   * A parameter name. Gain and leakage unknowns are named after
   * (antenna, beam, product), bandpass unknowns additionally after the
   * channel; other parameters have plain names. The text of the names
   * (`CalParamNameHelper`) is not part of this model, only that different
   * indices give different names.
   */
  datatype Key =
    | Jones(ant: nat, beam: nat, pol: Pol)
    | Bandpass(ant: nat, beam: nat, pol: Pol, chan: nat)
    | Named(name: string)

  datatype Value = Complex(re: real, im: real) | Scalar(x: real)

  datatype Param = Param(value: Value, fixed: bool)

  /** A parameter set (`scimath::Params`): every name at most once. */
  type Params = map<Key, Param>

  /** `Params::add`: adding a name that is already there is an error. */
  function Add(m: Params, k: Key, v: Value): (r: Result<Params>)
    ensures r.Ok? <==> k !in m
    ensures r.Ok? ==> r.value.Keys == m.Keys + {k} && |r.value| == |m| + 1
                      && r.value[k] == Param(v, false)
                      && forall j :: j in m ==> r.value[j] == m[j]
  {
    if k in m then Err("Parameter already exists") else Ok(m[k := Param(v, false)])
  }

  // -------------------------------------------------------- the solve flags

  datatype SolveFlags = SolveFlags(gains: bool, beamIndependentGains: bool, normaliseGains: bool,
                                   leakage: bool, bandpass: bool)

  predicate Mentions(s: string, word: string)
  {
    Contains(s, word)
  }

  const MixedTermsMessage: string :=
    "Combination of frequency-dependent and frequency-independent effects is not supported at the moment for simplicity"
  const NothingToSolveMessage: string :=
    "Nothing to solve! Either gains or leakages (or both) or bandpass have to be solved for"

  /**
   * The constructor's reading of `solve` (default "gains"): each term is on
   * when its word occurs anywhere in the string; `normalisegains` is read
   * only when gains are solved for. Bandpass together with a
   * frequency-independent term, or nothing at all, is refused.
   */
  function ParseSolve(what: string, normaliseGains: bool): (r: Result<SolveFlags>)
    ensures r.Ok? <==> (Mentions(what, "gains") || Mentions(what, "leakages") || Mentions(what, "bandpass"))
                       && (Mentions(what, "bandpass") ==> !Mentions(what, "gains") && !Mentions(what, "leakages"))
    ensures r.Ok? ==> r.value == SolveFlags(Mentions(what, "gains"), Mentions(what, "antennagains"),
                                            normaliseGains && Mentions(what, "gains"),
                                            Mentions(what, "leakages"), Mentions(what, "bandpass"))
  {
    var gains := Mentions(what, "gains");
    var beamIndependent := gains && Mentions(what, "antennagains");
    var leakage := Mentions(what, "leakages");
    var bandpass := Mentions(what, "bandpass");
    if bandpass && (gains || leakage) then
      Err(MixedTermsMessage)
    else if !gains && !leakage && !bandpass then
      Err(NothingToSolveMessage)
    else
      AntennaGainsMentionGains(what);
      Ok(SolveFlags(gains, beamIndependent, normaliseGains && gains, leakage, bandpass))
  }

  /** Accepted flags are consistent: beam-independent gains are gains, and bandpass comes alone. */
  lemma AcceptedFlagsConsistent(what: string, normaliseGains: bool)
    requires ParseSolve(what, normaliseGains).Ok?
    ensures ParseSolve(what, normaliseGains).value.beamIndependentGains ==> ParseSolve(what, normaliseGains).value.gains
    ensures ParseSolve(what, normaliseGains).value.normaliseGains ==> ParseSolve(what, normaliseGains).value.gains
    ensures ParseSolve(what, normaliseGains).value.bandpass
            ==> !ParseSolve(what, normaliseGains).value.gains && !ParseSolve(what, normaliseGains).value.leakage
  {
    AntennaGainsMentionGains(what);
  }

  /** "antennagains" contains "gains", so asking for antenna-based gains asks for gains. */
  lemma AntennaGainsMentionGains(what: string)
    ensures Mentions(what, "antennagains") ==> Mentions(what, "gains")
  {
    if Mentions(what, "antennagains") {
      assert "antennagains" == "antenna" + "gains";
      ContainsOfPart(what, "antenna", "gains");
    }
  }

  /** The default "gains" solves for gains alone, per beam. */
  lemma DefaultSolvesGains()
    ensures ParseSolve("gains", false) == Ok(SolveFlags(true, false, false, false, false))
  {
    assert StartsWith("gains", "gains");
    ShorterLacks("gains", "leakages");
    ShorterLacks("gains", "bandpass");
    ShorterLacks("gains", "antennagains");
  }

  /**
   * The parallel-matrix LSQR scheme (`solver` = "LSQR" and
   * `solver.LSQR.parallelMatrix` = "true") needs parallel mode and a
   * bandpass solution.
   */
  function MatrixIsParallel(solver: string, parallelMatrix: string, isParallel: bool,
                            flags: SolveFlags): (r: Result<bool>)
    ensures r.Err? <==> solver == "LSQR" && parallelMatrix == "true" && !(isParallel && flags.bandpass)
    ensures r.Ok? ==> (r.value <==> solver == "LSQR" && parallelMatrix == "true")
  {
    if solver == "LSQR" && parallelMatrix == "true" then
      if !isParallel then Err("Parallel matrix scheme is supported only in the parallel mode!")
      else if !flags.bandpass then Err("Parallel matrix scheme is supported only for bandpass solutions!")
      else Ok(true)
    else Ok(false)
  }

  // ------------------------------------------------- pre-averaging maxima

  /** The largest antenna, beam and channel counts expected in the pre-averaging buffer. */
  datatype BufferMax = BufferMax(nAnt: nat, nBeam: nat, nChan: nat)

  const InitialBufferMax := BufferMax(0, 0, 1)

  /** `updatePreAvgBufferEstimates`: each maximum becomes the larger of itself and the new count. */
  function UpdateMax(b: BufferMax, nAnt: nat, nBeam: nat, nChan: nat): (r: BufferMax)
    ensures r.nAnt >= b.nAnt && r.nBeam >= b.nBeam && r.nChan >= b.nChan
    ensures r.nAnt >= nAnt && r.nBeam >= nBeam && r.nChan >= nChan
    ensures (r.nAnt == b.nAnt || r.nAnt == nAnt) && (r.nBeam == b.nBeam || r.nBeam == nBeam)
            && (r.nChan == b.nChan || r.nChan == nChan)
  {
    BufferMax(if b.nAnt < nAnt then nAnt else b.nAnt,
              if b.nBeam < nBeam then nBeam else b.nBeam,
              if b.nChan < nChan then nChan else b.nChan)
  }

  /** The order of the updates does not matter, and repeating one changes nothing. */
  lemma UpdatesCommute(b: BufferMax, a1: nat, b1: nat, c1: nat, a2: nat, b2: nat, c2: nat)
    ensures UpdateMax(UpdateMax(b, a1, b1, c1), a2, b2, c2) == UpdateMax(UpdateMax(b, a2, b2, c2), a1, b1, c1)
    ensures UpdateMax(UpdateMax(b, a1, b1, c1), a1, b1, c1) == UpdateMax(b, a1, b1, c1)
  {
  }

  // ------------------------------------------------------ model unknowns

  /** The union of `row(0)`, ..., `row(n - 1)`. */
  function Rows(n: nat, row: nat -> set<Key>): set<Key>
  {
    if n == 0 then {} else Rows(n - 1, row) + row(n - 1)
  }

  /** `tag` tells which row a key can belong to. */
  ghost predicate Tagged(row: nat -> set<Key>, tag: Key -> nat)
  {
    forall a: nat, k :: k in row(a) ==> tag(k) == a
  }

  lemma {:induction false} RowsMembers(n: nat, row: nat -> set<Key>, tag: Key -> nat, k: Key)
    requires Tagged(row, tag)
    ensures k in Rows(n, row) <==> tag(k) < n && k in row(tag(k))
  {
    if n > 0 {
      RowsMembers(n - 1, row, tag, k);
    }
  }

  /** `n` disjoint rows of `w` keys each hold `n * w` keys. */
  lemma {:induction false} RowsSize(n: nat, row: nat -> set<Key>, tag: Key -> nat, w: int)
    requires Tagged(row, tag)
    requires forall a: nat :: |row(a)| == w
    ensures |Rows(n, row)| == n * w
  {
    if n > 0 {
      var earlier, last := Rows(n - 1, row), row(n - 1);
      forall k | k in last ensures k !in earlier {
        RowsMembers(n - 1, row, tag, k);
      }
      UnionSize(earlier, last);
      RowsSize(n - 1, row, tag, w);
      RowsStep(n, w, |earlier|, |last|);
    }
  }

  function AntOf(k: Key): nat { if k.Named? then 0 else k.ant }
  function BeamOf(k: Key): nat { if k.Named? then 0 else k.beam }
  function ChanOf(k: Key): nat { if k.Bandpass? then k.chan else 0 }

  /** The gain or leakage unknowns for products `p1`, `p2` of antenna `a`, beams below `nBeam`. */
  function JonesRow(a: nat, nBeam: nat, p1: Pol, p2: Pol): set<Key>
  {
    Rows(nBeam, (b: nat) => {Jones(a, b, p1), Jones(a, b, p2)})
  }

  /** The gain or leakage unknowns for products `p1`, `p2` of every antenna and beam. */
  function JonesSet(nAnt: nat, nBeam: nat, p1: Pol, p2: Pol): set<Key>
  {
    Rows(nAnt, (a: nat) => JonesRow(a, nBeam, p1, p2))
  }

  lemma JonesRowMembers(a: nat, nBeam: nat, p1: Pol, p2: Pol, k: Key)
    ensures k in JonesRow(a, nBeam, p1, p2)
            <==> k.Jones? && k.ant == a && k.beam < nBeam && (k.pol == p1 || k.pol == p2)
  {
    RowsMembers(nBeam, (b: nat) => {Jones(a, b, p1), Jones(a, b, p2)}, BeamOf, k);
  }

  /** The keys of `JonesSet` are exactly the Jones keys of the two products, antennas and beams in range. */
  lemma JonesSetMembers(nAnt: nat, nBeam: nat, p1: Pol, p2: Pol)
    ensures forall k :: k in JonesSet(nAnt, nBeam, p1, p2) <==> JonesBefore(k, nAnt, 0, nBeam, p1, p2)
  {
    forall a: nat, k | k in JonesRow(a, nBeam, p1, p2) ensures AntOf(k) == a {
      JonesRowMembers(a, nBeam, p1, p2, k);
    }
    forall k ensures k in JonesSet(nAnt, nBeam, p1, p2) <==> JonesBefore(k, nAnt, 0, nBeam, p1, p2) {
      RowsMembers(nAnt, (a: nat) => JonesRow(a, nBeam, p1, p2), AntOf, k);
      JonesRowMembers(AntOf(k), nBeam, p1, p2, k);
    }
  }

  /** `init` creates two unknowns per antenna and beam. */
  lemma JonesSetSize(nAnt: nat, nBeam: nat, p1: Pol, p2: Pol)
    requires p1 != p2
    ensures |JonesSet(nAnt, nBeam, p1, p2)| == 2 * (nAnt * nBeam)
  {
    forall a: nat ensures |JonesRow(a, nBeam, p1, p2)| == 2 * nBeam {
      RowsSize(nBeam, (b: nat) => {Jones(a, b, p1), Jones(a, b, p2)}, BeamOf, 2);
    }
    forall a: nat, k | k in JonesRow(a, nBeam, p1, p2) ensures AntOf(k) == a {
      JonesRowMembers(a, nBeam, p1, p2, k);
    }
    RowsSize(nAnt, (a: nat) => JonesRow(a, nBeam, p1, p2), AntOf, 2 * nBeam);
    Regroup(nAnt, nBeam);
  }

  /** The bandpass unknowns XX and YY of antenna `a`, beam `b`, channels below `nChan`. */
  function BandpassChannels(a: nat, b: nat, nChan: nat): set<Key>
  {
    Rows(nChan, (c: nat) => {Bandpass(a, b, XX, c), Bandpass(a, b, YY, c)})
  }

  /** The bandpass unknowns of antenna `a`, beams below `nBeam`. */
  function BandpassBeams(a: nat, nBeam: nat, nChan: nat): set<Key>
  {
    Rows(nBeam, (b: nat) => BandpassChannels(a, b, nChan))
  }

  /** The bandpass unknowns: XX and YY of every antenna, beam and channel. */
  function BandpassSet(nAnt: nat, nBeam: nat, nChan: nat): set<Key>
  {
    Rows(nAnt, (a: nat) => BandpassBeams(a, nBeam, nChan))
  }

  lemma BandpassChannelsMembers(a: nat, b: nat, nChan: nat, k: Key)
    ensures k in BandpassChannels(a, b, nChan)
            <==> k.Bandpass? && k.ant == a && k.beam == b && k.chan < nChan && (k.pol == XX || k.pol == YY)
  {
    RowsMembers(nChan, (c: nat) => {Bandpass(a, b, XX, c), Bandpass(a, b, YY, c)}, ChanOf, k);
  }

  lemma BandpassBeamsMembers(a: nat, nBeam: nat, nChan: nat, k: Key)
    ensures k in BandpassBeams(a, nBeam, nChan)
            <==> k.Bandpass? && k.ant == a && k.beam < nBeam && k.chan < nChan && (k.pol == XX || k.pol == YY)
  {
    forall b: nat, j | j in BandpassChannels(a, b, nChan) ensures BeamOf(j) == b {
      BandpassChannelsMembers(a, b, nChan, j);
    }
    RowsMembers(nBeam, (b: nat) => BandpassChannels(a, b, nChan), BeamOf, k);
    BandpassChannelsMembers(a, BeamOf(k), nChan, k);
  }

  /** The keys of `BandpassSet` are exactly the XX and YY bandpass keys in range. */
  lemma BandpassSetMembers(nAnt: nat, nBeam: nat, nChan: nat)
    ensures forall k :: k in BandpassSet(nAnt, nBeam, nChan) <==> BandpassBefore(k, nAnt, 0, 0, nBeam, nChan)
  {
    forall a: nat, k | k in BandpassBeams(a, nBeam, nChan) ensures AntOf(k) == a {
      BandpassBeamsMembers(a, nBeam, nChan, k);
    }
    forall k ensures k in BandpassSet(nAnt, nBeam, nChan) <==> BandpassBefore(k, nAnt, 0, 0, nBeam, nChan) {
      RowsMembers(nAnt, (a: nat) => BandpassBeams(a, nBeam, nChan), AntOf, k);
      BandpassBeamsMembers(AntOf(k), nBeam, nChan, k);
    }
  }

  lemma BandpassBeamsSize(a: nat, nBeam: nat, nChan: nat)
    ensures |BandpassBeams(a, nBeam, nChan)| == nBeam * (2 * nChan)
  {
    forall b: nat ensures |BandpassChannels(a, b, nChan)| == nChan * 2 {
      RowsSize(nChan, (c: nat) => {Bandpass(a, b, XX, c), Bandpass(a, b, YY, c)}, ChanOf, 2);
    }
    forall b: nat, j | j in BandpassChannels(a, b, nChan) ensures BeamOf(j) == b {
      BandpassChannelsMembers(a, b, nChan, j);
    }
    RowsSize(nBeam, (b: nat) => BandpassChannels(a, b, nChan), BeamOf, nChan * 2);
  }

  /** `init` creates two bandpass unknowns per antenna, beam and channel. */
  lemma BandpassSetSize(nAnt: nat, nBeam: nat, nChan: nat)
    ensures |BandpassSet(nAnt, nBeam, nChan)| == 2 * (nAnt * (nBeam * nChan))
  {
    forall a: nat ensures |BandpassBeams(a, nBeam, nChan)| == nBeam * (2 * nChan) {
      BandpassBeamsSize(a, nBeam, nChan);
    }
    forall a: nat, k | k in BandpassBeams(a, nBeam, nChan) ensures AntOf(k) == a {
      BandpassBeamsMembers(a, nBeam, nChan, k);
    }
    RowsSize(nAnt, (a: nat) => BandpassBeams(a, nBeam, nChan), AntOf, nBeam * (2 * nChan));
    Regroup3(nAnt, nBeam, nChan);
  }

  /** Jones keys for antennas before `a`, and for beams before `b` of antenna `a`. */
  predicate JonesBefore(k: Key, a: nat, b: nat, nBeam: nat, p1: Pol, p2: Pol)
  {
    k.Jones? && (k.pol == p1 || k.pol == p2) && k.beam < nBeam
    && (k.ant < a || (k.ant == a && k.beam < b))
  }

  /** `m` is `m0` with the Jones keys before (`a`, `b`) added, all with value `v`. */
  ghost predicate JonesGrown(m0: Params, m: Params, v: Value, a: nat, b: nat, nBeam: nat, p1: Pol, p2: Pol)
  {
    (forall k :: k in m <==> k in m0 || JonesBefore(k, a, b, nBeam, p1, p2))
    && (forall k :: k in m0 ==> m[k] == m0[k])
    && (forall k :: k in m && k !in m0 ==> m[k] == Param(v, false))
    && (forall k :: JonesBefore(k, a, b, nBeam, p1, p2) ==> k !in m0)
  }

  lemma JonesGrownStep(m0: Params, m: Params, v: Value, a: nat, b: nat, nBeam: nat, p1: Pol, p2: Pol)
    requires JonesGrown(m0, m, v, a, b, nBeam, p1, p2) && b < nBeam && p1 != p2
    requires Jones(a, b, p1) !in m && Jones(a, b, p2) !in m
    ensures JonesGrown(m0, m[Jones(a, b, p1) := Param(v, false)][Jones(a, b, p2) := Param(v, false)],
                       v, a, b + 1, nBeam, p1, p2)
  {
  }

  lemma JonesGrownNextAntenna(m0: Params, m: Params, v: Value, a: nat, nBeam: nat, p1: Pol, p2: Pol)
    requires JonesGrown(m0, m, v, a, nBeam, nBeam, p1, p2)
    ensures JonesGrown(m0, m, v, a + 1, 0, nBeam, p1, p2)
  {
    assert forall k :: JonesBefore(k, a, nBeam, nBeam, p1, p2) <==> JonesBefore(k, a + 1, 0, nBeam, p1, p2);
  }

  lemma JonesClash(m0: Params, nAnt: nat, nBeam: nat, p1: Pol, p2: Pol)
    requires exists k :: k in m0 && JonesBefore(k, nAnt, 0, nBeam, p1, p2)
    ensures !(m0.Keys !! JonesSet(nAnt, nBeam, p1, p2))
  {
    JonesSetMembers(nAnt, nBeam, p1, p2);
  }

  lemma JonesGrownDone(m0: Params, m: Params, v: Value, nAnt: nat, nBeam: nat, p1: Pol, p2: Pol)
    requires JonesGrown(m0, m, v, nAnt, 0, nBeam, p1, p2)
    ensures m0.Keys !! JonesSet(nAnt, nBeam, p1, p2)
    ensures m.Keys == m0.Keys + JonesSet(nAnt, nBeam, p1, p2)
    ensures |m| == |m0| + |JonesSet(nAnt, nBeam, p1, p2)|
    ensures forall k :: k in m0 ==> k in m && m[k] == m0[k]
    ensures forall k :: k in m && k !in m0 ==> m[k] == Param(v, false)
  {
    JonesSetMembers(nAnt, nBeam, p1, p2);
  }

  /**
   * The antenna/beam loop of `init` for one pair of products: adds
   * `p1` and `p2` with value `v` for every antenna and beam, in that order.
   */
  method AddJones(m0: Params, nAnt: nat, nBeam: nat, p1: Pol, p2: Pol, v: Value) returns (r: Result<Params>)
    requires p1 != p2
    ensures r.Ok? <==> m0.Keys !! JonesSet(nAnt, nBeam, p1, p2)
    ensures r.Ok? ==> r.value.Keys == m0.Keys + JonesSet(nAnt, nBeam, p1, p2)
    ensures r.Ok? ==> |r.value| == |m0| + |JonesSet(nAnt, nBeam, p1, p2)|
    ensures r.Ok? ==> forall k :: k in m0 ==> k in r.value && r.value[k] == m0[k]
    ensures r.Ok? ==> forall k :: k in r.value && k !in m0 ==> r.value[k] == Param(v, false)
  {
    r := AddAntennasJones(m0, nAnt, nBeam, p1, p2, v);
    if r.Err? {
      JonesClash(m0, nAnt, nBeam, p1, p2);
    } else {
      JonesGrownDone(m0, r.value, v, nAnt, nBeam, p1, p2);
    }
  }

  /** The antenna loop. */
  method AddAntennasJones(m0: Params, nAnt: nat, nBeam: nat, p1: Pol, p2: Pol, v: Value) returns (r: Result<Params>)
    requires p1 != p2
    ensures r.Err? ==> exists k :: k in m0 && JonesBefore(k, nAnt, 0, nBeam, p1, p2)
    ensures r.Ok? ==> JonesGrown(m0, r.value, v, nAnt, 0, nBeam, p1, p2)
  {
    var m := m0;
    var a := 0;
    while a < nAnt
      invariant a <= nAnt
      invariant JonesGrown(m0, m, v, a, 0, nBeam, p1, p2)
    {
      var next := AddAntennaJones(m0, m, nAnt, a, nBeam, p1, p2, v);
      if next.Err? {
        return next;
      }
      m := next.value;
      a := a + 1;
    }
    return Ok(m);
  }

  /** The beam loop for antenna `a`. */
  method AddAntennaJones(m0: Params, m: Params, nAnt: nat, a: nat, nBeam: nat, p1: Pol, p2: Pol, v: Value)
    returns (r: Result<Params>)
    requires p1 != p2 && a < nAnt
    requires JonesGrown(m0, m, v, a, 0, nBeam, p1, p2)
    ensures r.Err? ==> exists k :: k in m0 && JonesBefore(k, nAnt, 0, nBeam, p1, p2)
    ensures r.Ok? ==> JonesGrown(m0, r.value, v, a + 1, 0, nBeam, p1, p2)
  {
    var m := m;
    var b := 0;
    while b < nBeam
      invariant b <= nBeam
      invariant JonesGrown(m0, m, v, a, b, nBeam, p1, p2)
    {
      var k1, k2 := Jones(a, b, p1), Jones(a, b, p2);
      if k1 in m || k2 in m {
        assert JonesBefore(k1, nAnt, 0, nBeam, p1, p2) && JonesBefore(k2, nAnt, 0, nBeam, p1, p2);
        return Err("Parameter already exists");
      }
      JonesGrownStep(m0, m, v, a, b, nBeam, p1, p2);
      m := m[k1 := Param(v, false)][k2 := Param(v, false)];
      b := b + 1;
    }
    JonesGrownNextAntenna(m0, m, v, a, nBeam, p1, p2);
    return Ok(m);
  }

  /** Bandpass keys for earlier antennas, beams and channels. */
  predicate BandpassBefore(k: Key, a: nat, b: nat, c: nat, nBeam: nat, nChan: nat)
  {
    k.Bandpass? && (k.pol == XX || k.pol == YY) && k.beam < nBeam && k.chan < nChan
    && (k.ant < a || (k.ant == a && (k.beam < b || (k.beam == b && k.chan < c))))
  }

  /** `m` is `m0` with the bandpass keys before (`a`, `b`, `c`) added, all with value 1. */
  ghost predicate BandpassGrown(m0: Params, m: Params, a: nat, b: nat, c: nat, nBeam: nat, nChan: nat)
  {
    (forall k :: k in m <==> k in m0 || BandpassBefore(k, a, b, c, nBeam, nChan))
    && (forall k :: k in m0 ==> m[k] == m0[k])
    && (forall k :: k in m && k !in m0 ==> m[k] == Param(One, false))
    && (forall k :: BandpassBefore(k, a, b, c, nBeam, nChan) ==> k !in m0)
  }

  lemma BandpassGrownStep(m0: Params, m: Params, a: nat, b: nat, c: nat, nBeam: nat, nChan: nat)
    requires BandpassGrown(m0, m, a, b, c, nBeam, nChan) && b < nBeam && c < nChan
    requires Bandpass(a, b, XX, c) !in m && Bandpass(a, b, YY, c) !in m
    ensures BandpassGrown(m0, m[Bandpass(a, b, XX, c) := Param(One, false)][Bandpass(a, b, YY, c) := Param(One, false)],
                          a, b, c + 1, nBeam, nChan)
  {
  }

  lemma BandpassGrownNext(m0: Params, m: Params, a: nat, b: nat, nBeam: nat, nChan: nat)
    requires b < nBeam && BandpassGrown(m0, m, a, b, nChan, nBeam, nChan)
    ensures BandpassGrown(m0, m, a, b + 1, 0, nBeam, nChan)
    ensures b + 1 == nBeam ==> BandpassGrown(m0, m, a + 1, 0, 0, nBeam, nChan)
  {
    assert forall k :: BandpassBefore(k, a, b, nChan, nBeam, nChan) <==> BandpassBefore(k, a, b + 1, 0, nBeam, nChan);
    assert forall k :: BandpassBefore(k, a, nBeam, 0, nBeam, nChan) <==> BandpassBefore(k, a + 1, 0, 0, nBeam, nChan);
  }

  lemma BandpassClash(m0: Params, nAnt: nat, nBeam: nat, nChan: nat)
    requires exists k :: k in m0 && BandpassBefore(k, nAnt, 0, 0, nBeam, nChan)
    ensures !(m0.Keys !! BandpassSet(nAnt, nBeam, nChan))
  {
    BandpassSetMembers(nAnt, nBeam, nChan);
  }

  lemma BandpassGrownDone(m0: Params, m: Params, nAnt: nat, nBeam: nat, nChan: nat)
    requires BandpassGrown(m0, m, nAnt, 0, 0, nBeam, nChan)
    ensures m0.Keys !! BandpassSet(nAnt, nBeam, nChan)
    ensures m.Keys == m0.Keys + BandpassSet(nAnt, nBeam, nChan)
    ensures |m| == |m0| + |BandpassSet(nAnt, nBeam, nChan)|
    ensures forall k :: k in m0 ==> k in m && m[k] == m0[k]
    ensures forall k :: k in m && k !in m0 ==> m[k] == Param(One, false)
  {
    BandpassSetMembers(nAnt, nBeam, nChan);
  }

  /** The antenna/beam/channel loop of `init` for the bandpass: XX and YY with value 1. */
  method AddBandpass(m0: Params, nAnt: nat, nBeam: nat, nChan: nat) returns (r: Result<Params>)
    ensures r.Ok? <==> m0.Keys !! BandpassSet(nAnt, nBeam, nChan)
    ensures r.Ok? ==> r.value.Keys == m0.Keys + BandpassSet(nAnt, nBeam, nChan)
    ensures r.Ok? ==> |r.value| == |m0| + |BandpassSet(nAnt, nBeam, nChan)|
    ensures r.Ok? ==> forall k :: k in m0 ==> k in r.value && r.value[k] == m0[k]
    ensures r.Ok? ==> forall k :: k in r.value && k !in m0 ==> r.value[k] == Param(One, false)
  {
    r := AddAntennasBandpass(m0, nAnt, nBeam, nChan);
    if r.Err? {
      BandpassClash(m0, nAnt, nBeam, nChan);
    } else {
      BandpassGrownDone(m0, r.value, nAnt, nBeam, nChan);
    }
  }

  /** The antenna loop. */
  method AddAntennasBandpass(m0: Params, nAnt: nat, nBeam: nat, nChan: nat) returns (r: Result<Params>)
    ensures r.Err? ==> exists k :: k in m0 && BandpassBefore(k, nAnt, 0, 0, nBeam, nChan)
    ensures r.Ok? ==> BandpassGrown(m0, r.value, nAnt, 0, 0, nBeam, nChan)
  {
    var m := m0;
    var a := 0;
    while a < nAnt
      invariant a <= nAnt
      invariant BandpassGrown(m0, m, a, 0, 0, nBeam, nChan)
    {
      var next := AddAntennaBandpass(m0, m, nAnt, a, nBeam, nChan);
      if next.Err? {
        return next;
      }
      m := next.value;
      a := a + 1;
    }
    return Ok(m);
  }

  /** The beam loop for antenna `a`. */
  method AddAntennaBandpass(m0: Params, m: Params, nAnt: nat, a: nat, nBeam: nat, nChan: nat)
    returns (r: Result<Params>)
    requires a < nAnt && BandpassGrown(m0, m, a, 0, 0, nBeam, nChan)
    ensures r.Err? ==> exists k :: k in m0 && BandpassBefore(k, nAnt, 0, 0, nBeam, nChan)
    ensures r.Ok? ==> BandpassGrown(m0, r.value, a + 1, 0, 0, nBeam, nChan)
  {
    if nBeam == 0 {
      BandpassNoBeams(m0, m, a, nChan);
      return Ok(m);
    }
    var m := m;
    var b := 0;
    while b < nBeam
      invariant b <= nBeam
      invariant b < nBeam ==> BandpassGrown(m0, m, a, b, 0, nBeam, nChan)
      invariant b == nBeam ==> BandpassGrown(m0, m, a + 1, 0, 0, nBeam, nChan)
    {
      var next := AddBeamBandpass(m0, m, nAnt, a, b, nBeam, nChan);
      if next.Err? {
        return next;
      }
      m := next.value;
      BandpassGrownNext(m0, m, a, b, nBeam, nChan);
      b := b + 1;
    }
    return Ok(m);
  }

  lemma BandpassNoBeams(m0: Params, m: Params, a: nat, nChan: nat)
    requires BandpassGrown(m0, m, a, 0, 0, 0, nChan)
    ensures BandpassGrown(m0, m, a + 1, 0, 0, 0, nChan)
  {
    assert forall k :: BandpassBefore(k, a, 0, 0, 0, nChan) <==> BandpassBefore(k, a + 1, 0, 0, 0, nChan);
  }

  /** The channel loop for antenna `a` and beam `b`. */
  method AddBeamBandpass(m0: Params, m: Params, nAnt: nat, a: nat, b: nat, nBeam: nat, nChan: nat)
    returns (r: Result<Params>)
    requires a < nAnt && b < nBeam && BandpassGrown(m0, m, a, b, 0, nBeam, nChan)
    ensures r.Err? ==> exists k :: k in m0 && BandpassBefore(k, nAnt, 0, 0, nBeam, nChan)
    ensures r.Ok? ==> BandpassGrown(m0, r.value, a, b, nChan, nBeam, nChan)
  {
    var m := m;
    var c := 0;
    while c < nChan
      invariant c <= nChan
      invariant BandpassGrown(m0, m, a, b, c, nBeam, nChan)
    {
      var k1, k2 := Bandpass(a, b, XX, c), Bandpass(a, b, YY, c);
      if k1 in m || k2 in m {
        assert BandpassBefore(k1, nAnt, 0, 0, nBeam, nChan) && BandpassBefore(k2, nAnt, 0, 0, nBeam, nChan);
        return Err("Parameter already exists");
      }
      BandpassGrownStep(m0, m, a, b, c, nBeam, nChan);
      m := m[k1 := Param(One, false)][k2 := Param(One, false)];
      c := c + 1;
    }
    return Ok(m);
  }

  // ------------------------------------------------------------------ init

  /** `parset.getInt32(key, default)`: the value when the key is present. */
  function IntOr(o: Option<int>, default: int): int
  {
    if o.Some? then o.value else default
  }

  predicate IsLeakage(k: Key)
  {
    k.Jones? && (k.pol == XY || k.pol == YX)
  }

  /** What the master's `init` leaves behind: the model of unknowns and the buffer maxima. */
  datatype MasterInit = MasterInit(model: Params, buffer: BufferMax)

  /** The unknowns `init` puts into the reset model. */
  function InitKeys(flags: SolveFlags, nAnt: nat, nBeam: nat, nChan: nat): set<Key>
  {
    (if flags.gains then JonesSet(nAnt, nBeam, XX, YY) else {})
    + (if flags.leakage then JonesSet(nAnt, nBeam, XY, YX) else {})
    + (if flags.bandpass then BandpassSet(nAnt, nBeam, nChan) else {})
  }

  const BeamIndependentMessage: string := "Number of beams should be set to 1 for beam-independent case"

  /**
   * The master's part of `init`. The counts are read as `int` (defaults 36
   * antennas, 1 beam, 304 channels) and stored in `uInt`. Beam-independent
   * gains need exactly one beam; then gains (1), leakages (0) and the
   * bandpass (1) are added to an empty model as the flags ask, and the
   * buffer maxima are raised to the counts used (a gain or leakage
   * solution counts as one channel).
   */
  method InitMaster(flags: SolveFlags, nAntKey: Option<int>, nBeamKey: Option<int>, nChanKey: Option<int>,
                    buffer: BufferMax) returns (r: Result<MasterInit>)
    ensures r.Err? <==> flags.gains && flags.beamIndependentGains && U32(IntOr(nBeamKey, 1)) != 1
    ensures r.Ok? ==> r.value.model.Keys
                      == InitKeys(flags, U32(IntOr(nAntKey, 36)), U32(IntOr(nBeamKey, 1)), U32(IntOr(nChanKey, 304)))
    ensures r.Ok? ==> InitValues(r.value.model)
    ensures r.Ok? ==> r.value.buffer
                      == InitBuffer(flags, buffer, U32(IntOr(nAntKey, 36)), U32(IntOr(nBeamKey, 1)), U32(IntOr(nChanKey, 304)))
  {
    var nAnt, nBeam, nChan := U32(IntOr(nAntKey, 36)), U32(IntOr(nBeamKey, 1)), U32(IntOr(nChanKey, 304));
    if flags.gains && flags.beamIndependentGains && nBeam != 1 {
      return Err(BeamIndependentMessage);
    }
    var model := InitModel(flags, nAnt, nBeam, nChan);
    return Ok(MasterInit(model, InitBuffer(flags, buffer, nAnt, nBeam, nChan)));
  }

  /** The unknowns of the reset model, one loop per kind. */
  method InitModel(flags: SolveFlags, nAnt: nat, nBeam: nat, nChan: nat) returns (m: Params)
    ensures m.Keys == InitKeys(flags, nAnt, nBeam, nChan)
    ensures InitValues(m)
  {
    m := AddGainsStep(flags, nAnt, nBeam);
    m := AddLeakageStep(m, flags, nAnt, nBeam);
    m := AddBandpassStep(m, flags, nAnt, nBeam, nChan);
  }

  /** The buffer maxima after the `updatePreAvgBufferEstimates` calls of `init`. */
  function InitBuffer(flags: SolveFlags, buffer: BufferMax, nAnt: nat, nBeam: nat, nChan: nat): (r: BufferMax)
    ensures r.nAnt == (if flags.gains || flags.leakage || flags.bandpass then Max(buffer.nAnt, nAnt) else buffer.nAnt)
    ensures r.nBeam == (if flags.gains || flags.leakage || flags.bandpass then Max(buffer.nBeam, nBeam) else buffer.nBeam)
    ensures r.nChan == Max(Max(buffer.nChan, if flags.gains || flags.leakage then 1 else 0),
                           if flags.bandpass then nChan else 0)
  {
    var afterGains := if flags.gains then UpdateMax(buffer, nAnt, nBeam, 1) else buffer;
    var afterLeakage := if flags.leakage then UpdateMax(afterGains, nAnt, nBeam, 1) else afterGains;
    if flags.bandpass then UpdateMax(afterLeakage, nAnt, nBeam, nChan) else afterLeakage
  }

  /** Every unknown holds the value `init` gives its kind: 0 for leakages, 1 otherwise. */
  ghost predicate InitValues(m: Params)
  {
    forall k :: k in m ==> m[k] == Param(if IsLeakage(k) then Zero else One, false)
  }

  /** The gains loop of `init`, on the reset model. */
  method AddGainsStep(flags: SolveFlags, nAnt: nat, nBeam: nat) returns (m: Params)
    ensures m.Keys == (if flags.gains then JonesSet(nAnt, nBeam, XX, YY) else {})
    ensures InitValues(m)
  {
    m := map[];
    if flags.gains {
      InitKeysApart(nAnt, nBeam, 0);
      var added := AddJones(m, nAnt, nBeam, XX, YY, One);
      m := added.value;
    }
  }

  /** The leakage loop of `init`. */
  method AddLeakageStep(m0: Params, flags: SolveFlags, nAnt: nat, nBeam: nat) returns (m: Params)
    requires m0.Keys == (if flags.gains then JonesSet(nAnt, nBeam, XX, YY) else {}) && InitValues(m0)
    ensures m.Keys == m0.Keys + (if flags.leakage then JonesSet(nAnt, nBeam, XY, YX) else {})
    ensures InitValues(m)
  {
    m := m0;
    if flags.leakage {
      InitKeysApart(nAnt, nBeam, 0);
      var added := AddJones(m, nAnt, nBeam, XY, YX, Zero);
      m := added.value;
    }
  }

  /** The bandpass loop of `init`. */
  method AddBandpassStep(m0: Params, flags: SolveFlags, nAnt: nat, nBeam: nat, nChan: nat) returns (m: Params)
    requires m0.Keys == (if flags.gains then JonesSet(nAnt, nBeam, XX, YY) else {})
                        + (if flags.leakage then JonesSet(nAnt, nBeam, XY, YX) else {})
    requires InitValues(m0)
    ensures m.Keys == InitKeys(flags, nAnt, nBeam, nChan)
    ensures InitValues(m)
  {
    m := m0;
    if flags.bandpass {
      InitKeysApart(nAnt, nBeam, nChan);
      var added := AddBandpass(m, nAnt, nBeam, nChan);
      m := added.value;
    }
  }

  /** The three kinds of unknowns never share a name. */
  lemma InitKeysApart(nAnt: nat, nBeam: nat, nChan: nat)
    ensures JonesSet(nAnt, nBeam, XX, YY) !! JonesSet(nAnt, nBeam, XY, YX)
    ensures JonesSet(nAnt, nBeam, XX, YY) !! BandpassSet(nAnt, nBeam, nChan)
    ensures JonesSet(nAnt, nBeam, XY, YX) !! BandpassSet(nAnt, nBeam, nChan)
    ensures forall k :: k in JonesSet(nAnt, nBeam, XY, YX) ==> IsLeakage(k)
    ensures forall k :: k in JonesSet(nAnt, nBeam, XX, YY) + BandpassSet(nAnt, nBeam, nChan) ==> !IsLeakage(k)
  {
    JonesSetMembers(nAnt, nBeam, XX, YY);
    JonesSetMembers(nAnt, nBeam, XY, YX);
    BandpassSetMembers(nAnt, nBeam, nChan);
  }

  /**
   * How many unknowns `init` creates: two per antenna and beam for gains,
   * two more for leakages, and two per antenna, beam and channel for the
   * bandpass.
   */
  lemma InitCounts(flags: SolveFlags, nAnt: nat, nBeam: nat, nChan: nat)
    ensures |InitKeys(flags, nAnt, nBeam, nChan)|
            == (if flags.gains then 2 * (nAnt * nBeam) else 0) + (if flags.leakage then 2 * (nAnt * nBeam) else 0)
               + (if flags.bandpass then 2 * (nAnt * (nBeam * nChan)) else 0)
  {
    InitKeysApart(nAnt, nBeam, nChan);
    JonesSetSize(nAnt, nBeam, XX, YY);
    JonesSetSize(nAnt, nBeam, XY, YX);
    BandpassSetSize(nAnt, nBeam, nChan);
    var g := if flags.gains then JonesSet(nAnt, nBeam, XX, YY) else {};
    var l := if flags.leakage then JonesSet(nAnt, nBeam, XY, YX) else {};
    var p := if flags.bandpass then BandpassSet(nAnt, nBeam, nChan) else {};
    UnionSize(g, l);
    UnionSize(g + l, p);
  }

  /**
   * The worker's part of `init`: with `chanperworker` channels per worker
   * (default 0) the buffer maxima are raised to the antenna and beam
   * counts and that many channels; with none they stay as they were.
   */
  function InitWorker(chanPerWorkerKey: Option<int>, nAntKey: Option<int>, nBeamKey: Option<int>,
                      buffer: BufferMax): (r: BufferMax)
    ensures U32(IntOr(chanPerWorkerKey, 0)) == 0 ==> r == buffer
    ensures r.nAnt >= buffer.nAnt && r.nBeam >= buffer.nBeam && r.nChan >= buffer.nChan
    ensures U32(IntOr(chanPerWorkerKey, 0)) > 0
            ==> r.nAnt >= U32(IntOr(nAntKey, 36)) && r.nBeam >= U32(IntOr(nBeamKey, 1))
                && r.nChan >= U32(IntOr(chanPerWorkerKey, 0))
  {
    var nChan := U32(IntOr(chanPerWorkerKey, 0));
    if nChan > 0 then UpdateMax(buffer, U32(IntOr(nAntKey, 36)), U32(IntOr(nBeamKey, 1)), nChan)
    else buffer
  }

  // -------------------------------------------------------- worker channels

  /** The channels a worker handles: `count` channels from `start` on. */
  datatype Channels = Channels(count: nat, start: nat)

  /**
   * The constructor's reading of `chanperworker` (default 0) and `chunk` (no
   * default; needed only when `chanperworker` is positive): neither may be
   * negative, and the first channel is their product in `uInt` arithmetic.
   */
  function WorkerChannels(chanPerWorkerKey: Option<int>, chunkKey: Option<int>): (r: Result<Channels>)
    requires chanPerWorkerKey.Some? ==> IsInt32(chanPerWorkerKey.value)
    requires chunkKey.Some? ==> IsInt32(chunkKey.value)
    ensures r.Ok? <==> IntOr(chanPerWorkerKey, 0) >= 0
                       && (IntOr(chanPerWorkerKey, 0) > 0 ==> chunkKey.Some? && chunkKey.value >= 0)
    ensures r.Ok? ==> r.value.count == IntOr(chanPerWorkerKey, 0) && r.value.start < TwoTo32
    ensures r.Ok? && r.value.count == 0 ==> r.value.start == 0
    ensures r.Ok? && r.value.count > 0 && r.value.count * chunkKey.value < TwoTo32
            ==> r.value.start == r.value.count * chunkKey.value
  {
    var chunkSize := IntOr(chanPerWorkerKey, 0);
    if chunkSize < 0 then Err("Number of channels per worker cannot be negative, you have " + IntToString(chunkSize))
    else if chunkSize == 0 then Ok(Channels(0, 0))
    else if chunkKey.None? then Err(MissingChunkMessage)
    else if chunkKey.value < 0 then
      Err("Chunk number is supposed to be non-negative, you have " + IntToString(chunkKey.value))
    else Ok(Channels(chunkSize, U32(chunkSize * chunkKey.value)))
  }

  const MissingChunkMessage: string := "Key chunk is not defined in the parset"

  /** Workers given different chunks process disjoint channel ranges while the channel numbers fit in a `uInt`. */
  lemma ChunksDoNotOverlap(chanPerWorker: int, chunk1: int, chunk2: int)
    requires IsInt32(chanPerWorker) && IsInt32(chunk1) && IsInt32(chunk2) && chunk1 < chunk2
    requires WorkerChannels(Some(chanPerWorker), Some(chunk1)).Ok? && WorkerChannels(Some(chanPerWorker), Some(chunk2)).Ok?
    requires chanPerWorker * (chunk2 + 1) <= TwoTo32
    ensures var c1, c2 := WorkerChannels(Some(chanPerWorker), Some(chunk1)).value,
                          WorkerChannels(Some(chanPerWorker), Some(chunk2)).value;
            c1.start + c1.count <= c2.start
  {
    if chanPerWorker > 0 {
      MulLe(chanPerWorker, chunk1 + 1, chunk2);
      MulLe(chanPerWorker, chunk2, chunk2 + 1);
      MulStep(chunk1, chanPerWorker);
    }
  }

  lemma MulLe(a: nat, x: int, y: int)
    requires x <= y
    ensures a * x <= a * y
  {
  }

  // -------------------------------------------------------------- LSQR keys

  /** The "solver.LSQR.*" parset keys and the names the solver is given them under. */
  const LsqrKeys: seq<(string, string)> := [
    ("solver.LSQR.alpha", "alpha"), ("solver.LSQR.norm", "norm"), ("solver.LSQR.niter", "niter"),
    ("solver.LSQR.rmin", "rmin"), ("solver.LSQR.verbose", "verbose"),
    ("solver.LSQR.parallelMatrix", "parallelMatrix"), ("solver.LSQR.smoothing", "smoothing"),
    ("solver.LSQR.smoothing.MinWeight", "smoothingMinWeight"),
    ("solver.LSQR.smoothing.MaxWeight", "smoothingMaxWeight"),
    ("solver.LSQR.smoothing.nsteps", "smoothingNsteps")]

  predicate DistinctTargets<K(==)>(keys: seq<(K, K)>)
  {
    forall i, j :: 0 <= i < j < |keys| ==> keys[i].1 != keys[j].1
  }

  /** Copies each present key of `keys` from `parset` under its target name, in order. */
  function CopyKeys<K(==), V>(parset: map<K, V>, keys: seq<(K, K)>): (r: map<K, V>)
  {
    if |keys| == 0 then map[]
    else
      var last := keys[|keys| - 1];
      var earlier := CopyKeys(parset, keys[..|keys| - 1]);
      if last.0 in parset then earlier[last.1 := parset[last.0]] else earlier
  }

  /** With distinct targets every present key arrives under its target name, and nothing else does. */
  lemma {:induction false} CopyKeysMeaning<K, V>(parset: map<K, V>, keys: seq<(K, K)>)
    requires DistinctTargets(keys)
    ensures var r := CopyKeys(parset, keys);
            (forall i :: 0 <= i < |keys| ==> (keys[i].1 in r <==> keys[i].0 in parset))
            && (forall i :: 0 <= i < |keys| && keys[i].0 in parset ==> r[keys[i].1] == parset[keys[i].0])
            && (forall name :: name in r ==> exists i :: 0 <= i < |keys| && keys[i].1 == name)
  {
    if |keys| > 0 {
      var init := keys[..|keys| - 1];
      assert forall i :: 0 <= i < |init| ==> init[i] == keys[i];
      CopyKeysMeaning(parset, init);
    }
  }

  /** `getLSQRSolverParameters`: the defined "solver.LSQR.*" keys under their solver names, nothing else. */
  function LsqrParams(parset: map<string, string>): (r: map<string, string>)
    ensures forall i :: 0 <= i < |LsqrKeys| ==> (LsqrKeys[i].1 in r <==> LsqrKeys[i].0 in parset)
    ensures forall i :: 0 <= i < |LsqrKeys| && LsqrKeys[i].0 in parset ==> r[LsqrKeys[i].1] == parset[LsqrKeys[i].0]
    ensures forall name :: name in r ==> exists i :: 0 <= i < |LsqrKeys| && LsqrKeys[i].1 == name
  {
    LsqrTargetsDistinct();
    CopyKeysMeaning(parset, LsqrKeys);
    CopyKeys(parset, LsqrKeys)
  }

  lemma LsqrTargetsDistinct()
    ensures DistinctTargets(LsqrKeys)
  {
  }

  // --------------------------------------------------------- channel offset

  const ChanOffset := Named("chan_offset")

  /**
   * `setChannelOffsetInModel`: "chan_offset" is updated when present, added
   * otherwise, and fixed; the rest of the model is untouched.
   */
  function SetChannelOffset(model: Params, startChan: nat): (r: Params)
    ensures r.Keys == model.Keys + {ChanOffset}
    ensures r[ChanOffset] == Param(Scalar(startChan as real), true)
    ensures forall k :: k in model && k != ChanOffset ==> r[k] == model[k]
  {
    var updated := if ChanOffset in model then model[ChanOffset := Param(Scalar(startChan as real), model[ChanOffset].fixed)]
                   else model[ChanOffset := Param(Scalar(startChan as real), false)];
    updated[ChanOffset := Param(updated[ChanOffset].value, true)]
  }

  /** Setting the offset again with the same start channel changes nothing. */
  lemma SetChannelOffsetIdempotent(model: Params, startChan: nat)
    ensures SetChannelOffset(SetChannelOffset(model, startChan), startChan) == SetChannelOffset(model, startChan)
  {
  }

  // ------------------------------------------------------- next-chunk flag

  /** Scalar metadata attached to generic normal equations. */
  type Metadata = map<string, real>

  /** The normal equations a worker holds: none, a kind without metadata, or generic ones. */
  datatype NormalEquations = NoEquations | WithoutMetadata | Generic(metadata: Metadata)

  const NextChunkFlag: string := "next_chunk_flag"

  /**
   * `setNextChunkFlag`: only workers may call it; generic normal equations
   * get "next_chunk_flag" = 1 for true and -1 for false, others are left alone.
   */
  function SetNextChunkFlag(isWorker: bool, ne: NormalEquations, flag: bool): (r: Result<NormalEquations>)
    ensures r.Err? <==> !isWorker
    ensures r.Ok? && !ne.Generic? ==> r.value == ne
    ensures r.Ok? && ne.Generic? ==> r.value.Generic? && r.value.metadata.Keys == ne.metadata.Keys + {NextChunkFlag}
                                     && r.value.metadata[NextChunkFlag] == (if flag then 1.0 else -1.0)
                                     && forall k :: k in ne.metadata && k != NextChunkFlag
                                                    ==> r.value.metadata[k] == ne.metadata[k]
  {
    if !isWorker then Err("setNextChunkFlag is supposed to be used in workers")
    else match ne
      case Generic(metadata) => Ok(Generic(metadata[NextChunkFlag := if flag then 1.0 else -1.0]))
      case _ => Ok(ne)
  }

  /** `getNextChunkFlag`: the stored value is positive; false without one. */
  function GetNextChunkFlag(ne: NormalEquations): (r: bool)
    ensures r <==> ne.Generic? && NextChunkFlag in ne.metadata && ne.metadata[NextChunkFlag] > 0.0
  {
    match ne
    case Generic(metadata) => NextChunkFlag in metadata && metadata[NextChunkFlag] > 0.0
    case _ => false
  }

  /** `removeNextChunkFlag`: drops the flag and nothing else. */
  function RemoveNextChunkFlag(ne: NormalEquations): (r: NormalEquations)
    ensures !ne.Generic? ==> r == ne
    ensures ne.Generic? ==> r.Generic? && r.metadata.Keys == ne.metadata.Keys - {NextChunkFlag}
                            && forall k :: k in r.metadata ==> r.metadata[k] == ne.metadata[k]
  {
    match ne
    case Generic(metadata) => Generic(metadata - {NextChunkFlag})
    case _ => ne
  }

  /** What a worker sets is what the master reads, when the equations carry metadata. */
  lemma NextChunkFlagRoundTrip(ne: NormalEquations, flag: bool)
    requires ne.Generic?
    ensures GetNextChunkFlag(SetNextChunkFlag(true, ne, flag).value) == flag
  {
  }

  /** After removal the flag reads false, and setting it again restores the round trip. */
  lemma RemovedFlagReadsFalse(ne: NormalEquations, flag: bool)
    ensures !GetNextChunkFlag(RemoveNextChunkFlag(ne))
    ensures ne.Generic? ==> GetNextChunkFlag(SetNextChunkFlag(true, RemoveNextChunkFlag(ne), flag).value) == flag
  {
  }

  /**
   * `solutionTime`: the "min_time" metadata of generic normal equations,
   * else 0; there must be normal equations.
   */
  function SolutionTime(ne: NormalEquations): (r: Result<real>)
    ensures r.Err? <==> ne.NoEquations?
    ensures r.Ok? && ne.Generic? && "min_time" in ne.metadata ==> r.value == ne.metadata["min_time"]
    ensures r.Ok? && !(ne.Generic? && "min_time" in ne.metadata) ==> r.value == 0.0
  {
    match ne
    case NoEquations => Err("Assertion failed: itsNe")
    case WithoutMetadata => Ok(0.0)
    case Generic(metadata) => Ok(if "min_time" in metadata then metadata["min_time"] else 0.0)
  }

  /** Setting or removing the next-chunk flag does not change the solution time. */
  lemma FlagLeavesSolutionTime(ne: NormalEquations, flag: bool)
    ensures SolutionTime(SetNextChunkFlag(true, ne, flag).value) == SolutionTime(ne)
    ensures SolutionTime(RemoveNextChunkFlag(ne)) == SolutionTime(ne)
  {
  }

  // ------------------------------------------------------------ arithmetic

  lemma UnionSize<T>(x: set<T>, y: set<T>)
    requires x !! y
    ensures |x + y| == |x| + |y|
  {
  }

  lemma Regroup(a: int, b: int)
    ensures a * (2 * b) == 2 * (a * b)
  {
  }

  lemma Regroup3(a: int, b: int, c: int)
    ensures a * (b * (2 * c)) == 2 * (a * (b * c))
  {
  }

  lemma RowsStep(n: nat, m: int, x: int, y: int)
    requires n > 0 && x == (n - 1) * m && y == m
    ensures x + y == n * m
  {
    MulStep(n - 1, m);
  }

  lemma MulStep(a: nat, n: int)
    ensures a * n + n == (a + 1) * n
  {
  }

  const One := Complex(1.0, 0.0)
  const Zero := Complex(0.0, 0.0)
}
