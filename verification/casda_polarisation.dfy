// One row of the CASDA polarisation catalogue (`CasdaPolarisationEntry`):
// which stored quantity each column type prints and checks, the row layout,
// and the column-by-column check of a catalogue specification. The values
// come from RM synthesis, which is not modelled; they are opaque `Value`s.

module CasdaPolarisation {
  import opened Common

  /** The column types the entry knows, one per `type == "..."` branch. */
  datatype ColumnType =
    | Id | Name | RaJd | DecJd | IFlux | QFlux | UFlux | VFlux | RmsI | RmsQ | RmsU | RmsV | Co1
    | Co2 | Co3 | Co4 | Co5 | LamSq | Rmsf | PolPeak | PolPeakDb | PolPeakErr | PolPeakFit
    | PolPeakFitDb | PolPeakFitErr | PolPeakFitSnr | PolPeakFitSnrErr | FdPeak | FdPeakErr
    | FdPeakFit | FdPeakFitErr | PolAng | PolAngErr | PolAng0 | PolAng0Err | PolFrac
    | PolFracErr | Complex1 | Complex2 | Flag1 | Flag2 | Flag3 | Flag4

  /** The entry's stored quantities (the C++ members, value and error parts split). */
  datatype Slot =
    | ItsComponentID | ItsName | ItsRA | ItsDec | ItsFluxImedian | ItsFluxQmedian
    | ItsFluxUmedian | ItsFluxVmedian | ItsRmsI | ItsRmsQ | ItsRmsU | ItsRmsV | ItsPolyCoeff0
    | ItsPolyCoeff1 | ItsPolyCoeff2 | ItsPolyCoeff3 | ItsPolyCoeff4 | ItsLambdaSqRef
    | ItsRmsfFwhm | ItsPintPeakValue | ItsPintPeakDebias | ItsPintPeakError
    | ItsPintPeakFitValue | ItsPintPeakFitDebias | ItsPintPeakFitError | ItsPintFitSNRValue
    | ItsPintFitSNRError | ItsPhiPeakValue | ItsPhiPeakError | ItsPhiPeakFitValue
    | ItsPhiPeakFitError | ItsPolAngleRefValue | ItsPolAngleRefError | ItsPolAngleZeroValue
    | ItsPolAngleZeroError | ItsFracPolValue | ItsFracPolError | ItsComplexity
    | ItsComplexityScreen | ItsFlagDetection | ItsFlagEdge | ItsFlag3 | ItsFlag4

  /** A stored quantity: text (IDs, names), a floating-point number, or an integer flag. */
  datatype Value = Text(s: string) | Real(r: real) | Int(i: int)

  /** All column types in the order of the branch chain. */
  const AllTypes: seq<ColumnType> := [
    Id, Name, RaJd, DecJd, IFlux, QFlux, UFlux, VFlux, RmsI, RmsQ, RmsU, RmsV, Co1, Co2, Co3,
    Co4, Co5, LamSq, Rmsf, PolPeak, PolPeakDb, PolPeakErr, PolPeakFit, PolPeakFitDb,
    PolPeakFitErr, PolPeakFitSnr, PolPeakFitSnrErr, FdPeak, FdPeakErr, FdPeakFit, FdPeakFitErr,
    PolAng, PolAngErr, PolAng0, PolAng0Err, PolFrac, PolFracErr, Complex1, Complex2, Flag1,
    Flag2, Flag3, Flag4]

  /** The type string of a column, as `Column::type()` returns it. */
  function TypeName(c: ColumnType): string
  {
    match c
    case Id => "ID"
    case Name => "NAME"
    case RaJd => "RAJD"
    case DecJd => "DECJD"
    case IFlux => "IFLUX"
    case QFlux => "QFLUX"
    case UFlux => "UFLUX"
    case VFlux => "VFLUX"
    case RmsI => "RMS_I"
    case RmsQ => "RMS_Q"
    case RmsU => "RMS_U"
    case RmsV => "RMS_V"
    case Co1 => "CO1"
    case Co2 => "CO2"
    case Co3 => "CO3"
    case Co4 => "CO4"
    case Co5 => "CO5"
    case LamSq => "LAMSQ"
    case Rmsf => "RMSF"
    case PolPeak => "POLPEAK"
    case PolPeakDb => "POLPEAKDB"
    case PolPeakErr => "POLPEAKERR"
    case PolPeakFit => "POLPEAKFIT"
    case PolPeakFitDb => "POLPEAKFITDB"
    case PolPeakFitErr => "POLPEAKFITERR"
    case PolPeakFitSnr => "POLPEAKFITSNR"
    case PolPeakFitSnrErr => "POLPEAKFITSNRERR"
    case FdPeak => "FDPEAK"
    case FdPeakErr => "FDPEAKERR"
    case FdPeakFit => "FDPEAKFIT"
    case FdPeakFitErr => "FDPEAKFITERR"
    case PolAng => "POLANG"
    case PolAngErr => "POLANGERR"
    case PolAng0 => "POLANG0"
    case PolAng0Err => "POLANG0ERR"
    case PolFrac => "POLFRAC"
    case PolFracErr => "POLFRACERR"
    case Complex1 => "COMPLEX1"
    case Complex2 => "COMPLEX2"
    case Flag1 => "FLAG1"
    case Flag2 => "FLAG2"
    case Flag3 => "FLAG3"
    case Flag4 => "FLAG4"
  }

  /** The member `printTableEntry` prints for a column type. */
  function PrintSlot(c: ColumnType): Slot
  {
    match c
    case Id => ItsComponentID
    case Name => ItsName
    case RaJd => ItsRA
    case DecJd => ItsDec
    case IFlux => ItsFluxImedian
    case QFlux => ItsFluxQmedian
    case UFlux => ItsFluxUmedian
    case VFlux => ItsFluxVmedian
    case RmsI => ItsRmsI
    case RmsQ => ItsRmsQ
    case RmsU => ItsRmsU
    case RmsV => ItsRmsV
    case Co1 => ItsPolyCoeff0
    case Co2 => ItsPolyCoeff1
    case Co3 => ItsPolyCoeff2
    case Co4 => ItsPolyCoeff3
    case Co5 => ItsPolyCoeff4
    case LamSq => ItsLambdaSqRef
    case Rmsf => ItsRmsfFwhm
    case PolPeak => ItsPintPeakValue
    case PolPeakDb => ItsPintPeakDebias
    case PolPeakErr => ItsPintPeakError
    case PolPeakFit => ItsPintPeakFitValue
    case PolPeakFitDb => ItsPintPeakFitDebias
    case PolPeakFitErr => ItsPintPeakFitError
    case PolPeakFitSnr => ItsPintFitSNRValue
    case PolPeakFitSnrErr => ItsPintFitSNRError
    case FdPeak => ItsPhiPeakValue
    case FdPeakErr => ItsPhiPeakError
    case FdPeakFit => ItsPhiPeakFitValue
    case FdPeakFitErr => ItsPhiPeakFitError
    case PolAng => ItsPolAngleRefValue
    case PolAngErr => ItsPolAngleRefError
    case PolAng0 => ItsPolAngleZeroValue
    case PolAng0Err => ItsPolAngleZeroError
    case PolFrac => ItsFracPolValue
    case PolFracErr => ItsFracPolError
    case Complex1 => ItsComplexity
    case Complex2 => ItsComplexityScreen
    case Flag1 => ItsFlagDetection
    case Flag2 => ItsFlagEdge
    case Flag3 => ItsFlag3
    case Flag4 => ItsFlag4
  }

  /** The member `checkCol` checks for a column type, as written: VFLUX checks the I flux. */
  function CheckSlotAsWritten(c: ColumnType): Slot
  {
    match c
    case Id => ItsComponentID
    case Name => ItsName
    case RaJd => ItsRA
    case DecJd => ItsDec
    case IFlux => ItsFluxImedian
    case QFlux => ItsFluxQmedian
    case UFlux => ItsFluxUmedian
    case VFlux => ItsFluxImedian
    case RmsI => ItsRmsI
    case RmsQ => ItsRmsQ
    case RmsU => ItsRmsU
    case RmsV => ItsRmsV
    case Co1 => ItsPolyCoeff0
    case Co2 => ItsPolyCoeff1
    case Co3 => ItsPolyCoeff2
    case Co4 => ItsPolyCoeff3
    case Co5 => ItsPolyCoeff4
    case LamSq => ItsLambdaSqRef
    case Rmsf => ItsRmsfFwhm
    case PolPeak => ItsPintPeakValue
    case PolPeakDb => ItsPintPeakDebias
    case PolPeakErr => ItsPintPeakError
    case PolPeakFit => ItsPintPeakFitValue
    case PolPeakFitDb => ItsPintPeakFitDebias
    case PolPeakFitErr => ItsPintPeakFitError
    case PolPeakFitSnr => ItsPintFitSNRValue
    case PolPeakFitSnrErr => ItsPintFitSNRError
    case FdPeak => ItsPhiPeakValue
    case FdPeakErr => ItsPhiPeakError
    case FdPeakFit => ItsPhiPeakFitValue
    case FdPeakFitErr => ItsPhiPeakFitError
    case PolAng => ItsPolAngleRefValue
    case PolAngErr => ItsPolAngleRefError
    case PolAng0 => ItsPolAngleZeroValue
    case PolAng0Err => ItsPolAngleZeroError
    case PolFrac => ItsFracPolValue
    case PolFracErr => ItsFracPolError
    case Complex1 => ItsComplexity
    case Complex2 => ItsComplexityScreen
    case Flag1 => ItsFlagDetection
    case Flag2 => ItsFlagEdge
    case Flag3 => ItsFlag3
    case Flag4 => ItsFlag4
  }

  /** `checkCol` as evidently intended: the member that `printTableEntry` prints. */
  function CheckSlot(c: ColumnType): Slot
  {
    match c
    case Id => ItsComponentID
    case Name => ItsName
    case RaJd => ItsRA
    case DecJd => ItsDec
    case IFlux => ItsFluxImedian
    case QFlux => ItsFluxQmedian
    case UFlux => ItsFluxUmedian
    case VFlux => ItsFluxVmedian
    case RmsI => ItsRmsI
    case RmsQ => ItsRmsQ
    case RmsU => ItsRmsU
    case RmsV => ItsRmsV
    case Co1 => ItsPolyCoeff0
    case Co2 => ItsPolyCoeff1
    case Co3 => ItsPolyCoeff2
    case Co4 => ItsPolyCoeff3
    case Co5 => ItsPolyCoeff4
    case LamSq => ItsLambdaSqRef
    case Rmsf => ItsRmsfFwhm
    case PolPeak => ItsPintPeakValue
    case PolPeakDb => ItsPintPeakDebias
    case PolPeakErr => ItsPintPeakError
    case PolPeakFit => ItsPintPeakFitValue
    case PolPeakFitDb => ItsPintPeakFitDebias
    case PolPeakFitErr => ItsPintPeakFitError
    case PolPeakFitSnr => ItsPintFitSNRValue
    case PolPeakFitSnrErr => ItsPintFitSNRError
    case FdPeak => ItsPhiPeakValue
    case FdPeakErr => ItsPhiPeakError
    case FdPeakFit => ItsPhiPeakFitValue
    case FdPeakFitErr => ItsPhiPeakFitError
    case PolAng => ItsPolAngleRefValue
    case PolAngErr => ItsPolAngleRefError
    case PolAng0 => ItsPolAngleZeroValue
    case PolAng0Err => ItsPolAngleZeroError
    case PolFrac => ItsFracPolValue
    case PolFracErr => ItsFracPolError
    case Complex1 => ItsComplexity
    case Complex2 => ItsComplexityScreen
    case Flag1 => ItsFlagDetection
    case Flag2 => ItsFlagEdge
    case Flag3 => ItsFlag3
    case Flag4 => ItsFlag4
  }

  /** The column type that prints a member. */
  function ColumnOf(s: Slot): ColumnType
  {
    match s
    case ItsComponentID => Id
    case ItsName => Name
    case ItsRA => RaJd
    case ItsDec => DecJd
    case ItsFluxImedian => IFlux
    case ItsFluxQmedian => QFlux
    case ItsFluxUmedian => UFlux
    case ItsFluxVmedian => VFlux
    case ItsRmsI => RmsI
    case ItsRmsQ => RmsQ
    case ItsRmsU => RmsU
    case ItsRmsV => RmsV
    case ItsPolyCoeff0 => Co1
    case ItsPolyCoeff1 => Co2
    case ItsPolyCoeff2 => Co3
    case ItsPolyCoeff3 => Co4
    case ItsPolyCoeff4 => Co5
    case ItsLambdaSqRef => LamSq
    case ItsRmsfFwhm => Rmsf
    case ItsPintPeakValue => PolPeak
    case ItsPintPeakDebias => PolPeakDb
    case ItsPintPeakError => PolPeakErr
    case ItsPintPeakFitValue => PolPeakFit
    case ItsPintPeakFitDebias => PolPeakFitDb
    case ItsPintPeakFitError => PolPeakFitErr
    case ItsPintFitSNRValue => PolPeakFitSnr
    case ItsPintFitSNRError => PolPeakFitSnrErr
    case ItsPhiPeakValue => FdPeak
    case ItsPhiPeakError => FdPeakErr
    case ItsPhiPeakFitValue => FdPeakFit
    case ItsPhiPeakFitError => FdPeakFitErr
    case ItsPolAngleRefValue => PolAng
    case ItsPolAngleRefError => PolAngErr
    case ItsPolAngleZeroValue => PolAng0
    case ItsPolAngleZeroError => PolAng0Err
    case ItsFracPolValue => PolFrac
    case ItsFracPolError => PolFracErr
    case ItsComplexity => Complex1
    case ItsComplexityScreen => Complex2
    case ItsFlagDetection => Flag1
    case ItsFlagEdge => Flag2
    case ItsFlag3 => Flag3
    case ItsFlag4 => Flag4
  }

  /** The position of a column type in the branch chain. */
  function Position(c: ColumnType): (i: nat)
    ensures i < |AllTypes| && AllTypes[i] == c
  {
    match c
    case Id => 0
    case Name => 1
    case RaJd => 2
    case DecJd => 3
    case IFlux => 4
    case QFlux => 5
    case UFlux => 6
    case VFlux => 7
    case RmsI => 8
    case RmsQ => 9
    case RmsU => 10
    case RmsV => 11
    case Co1 => 12
    case Co2 => 13
    case Co3 => 14
    case Co4 => 15
    case Co5 => 16
    case LamSq => 17
    case Rmsf => 18
    case PolPeak => 19
    case PolPeakDb => 20
    case PolPeakErr => 21
    case PolPeakFit => 22
    case PolPeakFitDb => 23
    case PolPeakFitErr => 24
    case PolPeakFitSnr => 25
    case PolPeakFitSnrErr => 26
    case FdPeak => 27
    case FdPeakErr => 28
    case FdPeakFit => 29
    case FdPeakFitErr => 30
    case PolAng => 31
    case PolAngErr => 32
    case PolAng0 => 33
    case PolAng0Err => 34
    case PolFrac => 35
    case PolFracErr => 36
    case Complex1 => 37
    case Complex2 => 38
    case Flag1 => 39
    case Flag2 => 40
    case Flag3 => 41
    case Flag4 => 42
  }

  /** The component a polarisation entry is built from. */
  datatype CasdaComponent = CasdaComponent(
    ra: real, dec: real, name: string, componentID: string, intFlux: real, alpha: real, beta: real)

  /** An entry: the value of every stored quantity. */
  datatype Entry = Entry(values: Slot -> Value)

  /** The quantities the constructor sets from the component or to constants. */
  predicate FromComponentSlot(s: Slot)
  {
    s in {ItsRA, ItsDec, ItsName, ItsComponentID, ItsPolyCoeff0, ItsPolyCoeff1, ItsPolyCoeff2,
          ItsPolyCoeff3, ItsPolyCoeff4, ItsComplexity, ItsComplexityScreen, ItsFlag3, ItsFlag4}
  }

  /**
   * The constructor. `measured` stands for the RM-synthesis and noise results,
   * which supply every other quantity.
   */
  function FromComponent(comp: CasdaComponent, measured: Slot -> Value): (e: Entry)
    ensures forall s :: !FromComponentSlot(s) ==> e.values(s) == measured(s)
  {
    Entry((s: Slot) => if FromComponentSlot(s) then Fixed(comp, s) else measured(s))
  }

  /** The value the constructor gives a quantity it sets itself (the two flags are the rest). */
  function Fixed(comp: CasdaComponent, s: Slot): Value
  {
    match s
    case ItsRA => Real(comp.ra)
    case ItsDec => Real(comp.dec)
    case ItsName => Text(comp.name)
    case ItsComponentID => Text(comp.componentID)
    case ItsPolyCoeff0 => Real(comp.intFlux)
    case ItsPolyCoeff1 => Real(comp.alpha)
    case ItsPolyCoeff2 => Real(comp.beta)
    case ItsPolyCoeff3 | ItsPolyCoeff4 | ItsComplexity | ItsComplexityScreen => Real(0.0)
    case _ => Int(0)
  }

  /** The constructor copies the position, names and spectral terms of the component. */
  lemma FromComponentCopies(comp: CasdaComponent, measured: Slot -> Value)
    ensures FromComponent(comp, measured).values(ItsRA) == Real(comp.ra)
    ensures FromComponent(comp, measured).values(ItsDec) == Real(comp.dec)
    ensures FromComponent(comp, measured).values(ItsName) == Text(comp.name)
    ensures FromComponent(comp, measured).values(ItsComponentID) == Text(comp.componentID)
    ensures FromComponent(comp, measured).values(ItsPolyCoeff0) == Real(comp.intFlux)
    ensures FromComponent(comp, measured).values(ItsPolyCoeff1) == Real(comp.alpha)
    ensures FromComponent(comp, measured).values(ItsPolyCoeff2) == Real(comp.beta)
  {
    ValuesOfFromComponent(comp, measured);
  }

  /** It zeroes the higher spectral terms, the complexities and the two spare flags, and takes every other quantity from the measurements. */
  lemma FromComponentDefaults(comp: CasdaComponent, measured: Slot -> Value)
    ensures FromComponent(comp, measured).values(ItsPolyCoeff3) == Real(0.0)
    ensures FromComponent(comp, measured).values(ItsPolyCoeff4) == Real(0.0)
    ensures FromComponent(comp, measured).values(ItsComplexity) == Real(0.0)
    ensures FromComponent(comp, measured).values(ItsComplexityScreen) == Real(0.0)
    ensures FromComponent(comp, measured).values(ItsFlag3) == Int(0)
    ensures FromComponent(comp, measured).values(ItsFlag4) == Int(0)
    ensures forall s :: !FromComponentSlot(s) ==> FromComponent(comp, measured).values(s) == measured(s)
  {
    ValuesOfFromComponent(comp, measured);
  }

  lemma ValuesOfFromComponent(comp: CasdaComponent, measured: Slot -> Value)
    ensures forall s :: FromComponent(comp, measured).values(s) == if FromComponentSlot(s) then Fixed(comp, s) else measured(s)
  {
  }

  /** `ra()`. */
  function Ra(e: Entry): Value { e.values(ItsRA) }

  /** `dec()`. */
  function Dec(e: Entry): Value { e.values(ItsDec) }

  /** `ra()` and `dec()` give back the component's position. */
  lemma PositionFromComponent(comp: CasdaComponent, measured: Slot -> Value)
    ensures Ra(FromComponent(comp, measured)) == Real(comp.ra)
    ensures Dec(FromComponent(comp, measured)) == Real(comp.dec)
  {
    FromComponentCopies(comp, measured);
  }

  /** The first position at or after `from` in `order` whose type string is `t`. */
  function LookupFrom(order: seq<ColumnType>, t: string, from: nat): (r: Option<nat>)
    requires from <= |order|
    ensures r.Some? ==> from <= r.value < |order| && TypeName(order[r.value]) == t
    ensures r.None? ==> forall j :: from <= j < |order| ==> TypeName(order[j]) != t
    decreases |order| - from
  {
    if from == |order| then None
    else if TypeName(order[from]) == t then Some(from)
    else LookupFrom(order, t, from + 1)
  }

  /** The column type a type string names, if any. */
  function Lookup(t: string): (r: Option<ColumnType>)
    ensures r.Some? ==> TypeName(r.value) == t
    ensures r.None? ==> forall c :: TypeName(c) != t
  {
    match LookupFrom(AllTypes, t, 0)
    case None =>
      assert forall c :: TypeName(c) != t by {
        forall c ensures TypeName(c) != t {
          var i := Position(c);
        }
      }
      None
    case Some(i) => Some(AllTypes[i])
  }

  /** What a row prints: one entry per column, then the end of the line. */
  datatype Printed = Cell(column: string, value: Value) | EndOfRow

  predicate AllKnown(columns: seq<string>)
  {
    forall i :: 0 <= i < |columns| ==> Lookup(columns[i]).Some?
  }

  /** `printTableEntry`: the value of the member for the column's type, or an unknown-type error. */
  function PrintTableEntry(e: Entry, column: string): (r: Result<Printed>)
    ensures r.Err? <==> Lookup(column).None?
    ensures r.Ok? ==> r.value == Cell(column, e.values(PrintSlot(Lookup(column).value)))
  {
    match Lookup(column)
    case None => Err("Unknown column type " + column)
    case Some(c) => Ok(Cell(column, e.values(PrintSlot(c))))
  }

  /** The cells of a row, one per column, each from `printTableEntry`. */
  function PrintCells(e: Entry, columns: seq<string>): (r: Result<seq<Printed>>)
    ensures r.Ok? <==> AllKnown(columns)
    ensures r.Ok? ==> |r.value| == |columns|
                      && forall i :: 0 <= i < |columns| ==> PrintTableEntry(e, columns[i]) == Ok(r.value[i])
  {
    var f := (column: string) => PrintTableEntry(e, column);
    CollectMeaning(f, columns);
    Collect(f, columns)
  }

  /** `printTableRow`: the columns in specification order, then one newline. */
  function PrintTableRow(e: Entry, columns: seq<string>): (r: Result<seq<Printed>>)
    ensures r.Ok? <==> AllKnown(columns)
    ensures r.Ok? ==> |r.value| == |columns| + 1 && r.value[|columns|] == EndOfRow
    ensures r.Ok? ==> forall i :: 0 <= i < |columns| ==>
                        r.value[i] == Cell(columns[i], e.values(PrintSlot(Lookup(columns[i]).value)))
  {
    match PrintCells(e, columns)
    case Err(m) => Err(m)
    case Ok(cells) => Ok(cells + [EndOfRow])
  }

  /** `checkCol` as corrected: the value that the column prints is the one checked. */
  function CheckCol(e: Entry, column: string): (r: Result<Value>)
    ensures r.Err? <==> Lookup(column).None?
  {
    match Lookup(column)
    case None => Err("Unknown column type " + column)
    case Some(c) => Ok(e.values(CheckSlot(c)))
  }

  /** `checkCol` as written. */
  function CheckColAsWritten(e: Entry, column: string): (r: Result<Value>)
    ensures r.Err? <==> Lookup(column).None?
  {
    match Lookup(column)
    case None => Err("Unknown column type " + column)
    case Some(c) => Ok(e.values(CheckSlotAsWritten(c)))
  }

  /** `checkSpec`: every column checked in order; the first unknown type stops it. */
  function CheckSpec(e: Entry, columns: seq<string>): (r: Result<seq<Value>>)
    ensures r.Ok? <==> AllKnown(columns)
    ensures r.Ok? ==> |r.value| == |columns|
                      && forall i :: 0 <= i < |columns| ==> CheckCol(e, columns[i]) == Ok(r.value[i])
  {
    var f := (column: string) => CheckCol(e, column);
    CollectMeaning(f, columns);
    Collect(f, columns)
  }

  /** `ColumnOf` undoes `PrintSlot` (proved in four groups of column types). */
  lemma ColumnOfPrintSlot(c: ColumnType)
    ensures ColumnOf(PrintSlot(c)) == c
  {
    if c.Id? || c.Name? || c.RaJd? || c.DecJd? || c.IFlux?
       || c.QFlux? || c.UFlux? || c.VFlux? || c.RmsI? || c.RmsQ?
       || c.RmsU? {
      RoundTripPositions(c);
    } else if c.RmsV? || c.Co1? || c.Co2? || c.Co3? || c.Co4?
            || c.Co5? || c.LamSq? || c.Rmsf? || c.PolPeak? || c.PolPeakDb?
            || c.PolPeakErr? {
      RoundTripFluxes(c);
    } else if c.PolPeakFit? || c.PolPeakFitDb? || c.PolPeakFitErr? || c.PolPeakFitSnr? || c.PolPeakFitSnrErr?
            || c.FdPeak? || c.FdPeakErr? || c.FdPeakFit? || c.FdPeakFitErr? || c.PolAng?
            || c.PolAngErr? {
      RoundTripPeaks(c);
    } else {
      RoundTripAngles(c);
    }
  }

  lemma RoundTripPositions(c: ColumnType)
    requires c.Id? || c.Name? || c.RaJd? || c.DecJd? || c.IFlux?
            || c.QFlux? || c.UFlux? || c.VFlux? || c.RmsI? || c.RmsQ?
            || c.RmsU?
    ensures ColumnOf(PrintSlot(c)) == c
  {
    match c
    case Id =>
    case Name =>
    case RaJd =>
    case DecJd =>
    case IFlux =>
    case QFlux =>
    case UFlux =>
    case VFlux =>
    case RmsI =>
    case RmsQ =>
    case RmsU =>
    case _ => assert false;
  }

  lemma RoundTripFluxes(c: ColumnType)
    requires c.RmsV? || c.Co1? || c.Co2? || c.Co3? || c.Co4?
            || c.Co5? || c.LamSq? || c.Rmsf? || c.PolPeak? || c.PolPeakDb?
            || c.PolPeakErr?
    ensures ColumnOf(PrintSlot(c)) == c
  {
    match c
    case RmsV =>
    case Co1 =>
    case Co2 =>
    case Co3 =>
    case Co4 =>
    case Co5 =>
    case LamSq =>
    case Rmsf =>
    case PolPeak =>
    case PolPeakDb =>
    case PolPeakErr =>
    case _ => assert false;
  }

  lemma RoundTripPeaks(c: ColumnType)
    requires c.PolPeakFit? || c.PolPeakFitDb? || c.PolPeakFitErr? || c.PolPeakFitSnr? || c.PolPeakFitSnrErr?
            || c.FdPeak? || c.FdPeakErr? || c.FdPeakFit? || c.FdPeakFitErr? || c.PolAng?
            || c.PolAngErr?
    ensures ColumnOf(PrintSlot(c)) == c
  {
    match c
    case PolPeakFit =>
    case PolPeakFitDb =>
    case PolPeakFitErr =>
    case PolPeakFitSnr =>
    case PolPeakFitSnrErr =>
    case FdPeak =>
    case FdPeakErr =>
    case FdPeakFit =>
    case FdPeakFitErr =>
    case PolAng =>
    case PolAngErr =>
    case _ => assert false;
  }

  lemma RoundTripAngles(c: ColumnType)
    requires c.PolAng0? || c.PolAng0Err? || c.PolFrac? || c.PolFracErr? || c.Complex1?
            || c.Complex2? || c.Flag1? || c.Flag2? || c.Flag3? || c.Flag4?
    ensures ColumnOf(PrintSlot(c)) == c
  {
    match c
    case PolAng0 =>
    case PolAng0Err =>
    case PolFrac =>
    case PolFracErr =>
    case Complex1 =>
    case Complex2 =>
    case Flag1 =>
    case Flag2 =>
    case Flag3 =>
    case Flag4 =>
    case _ => assert false;
  }

  /** Each column type prints its own member: no two types share one. */
  lemma PrintSlotInjective(a: ColumnType, b: ColumnType)
    ensures PrintSlot(a) == PrintSlot(b) ==> a == b
  {
    ColumnOfPrintSlot(a);
    ColumnOfPrintSlot(b);
  }

  /** Corrected, checking a column looks at exactly the member printing it shows. */
  lemma CheckMatchesPrint(c: ColumnType)
    ensures CheckSlot(c) == PrintSlot(c)
  {
  }

  /** As written, VFLUX is checked against the I flux, and it is the only such column. */
  lemma CheckAsWrittenDiffersOnlyAtVFlux(c: ColumnType)
    ensures CheckSlotAsWritten(VFlux) == PrintSlot(IFlux) != PrintSlot(VFlux)
    ensures c != VFlux ==> CheckSlotAsWritten(c) == PrintSlot(c)
  {
  }

  /** A specification passes the check exactly when it can be printed, and checks what it prints. */
  lemma {:induction false} CheckSpecMatchesPrintTableRow(e: Entry, columns: seq<string>)
    ensures CheckSpec(e, columns).Ok? <==> PrintTableRow(e, columns).Ok?
    ensures CheckSpec(e, columns).Ok? ==>
              forall i :: 0 <= i < |columns| ==>
                PrintTableRow(e, columns).value[i] == Cell(columns[i], CheckSpec(e, columns).value[i])
  {
    if CheckSpec(e, columns).Ok? {
      forall i | 0 <= i < |columns|
        ensures PrintTableRow(e, columns).value[i] == Cell(columns[i], CheckSpec(e, columns).value[i])
      {
        CheckMatchesPrint(Lookup(columns[i]).value);
      }
    }
  }

  /** Only VFLUX is spelled "VFLUX". */
  lemma TypeNameVFlux(c: ColumnType)
    requires TypeName(c) == "VFLUX"
    ensures c == VFlux
  {
    match c
    case Id =>
    case Name =>
    case RaJd =>
    case DecJd =>
    case IFlux =>
    case QFlux =>
    case UFlux =>
    case VFlux =>
    case RmsI =>
    case RmsQ =>
    case RmsU =>
    case RmsV =>
    case Co1 =>
    case Co2 =>
    case Co3 =>
    case Co4 =>
    case Co5 =>
    case LamSq =>
    case Rmsf =>
    case PolPeak =>
    case PolPeakDb =>
    case PolPeakErr =>
    case PolPeakFit =>
    case PolPeakFitDb =>
    case PolPeakFitErr =>
    case PolPeakFitSnr =>
    case PolPeakFitSnrErr =>
    case FdPeak =>
    case FdPeakErr =>
    case FdPeakFit =>
    case FdPeakFitErr =>
    case PolAng =>
    case PolAngErr =>
    case PolAng0 =>
    case PolAng0Err =>
    case PolFrac =>
    case PolFracErr =>
    case Complex1 =>
    case Complex2 =>
    case Flag1 =>
    case Flag2 =>
    case Flag3 =>
    case Flag4 =>
  }

  /**
   * The discrepancy as written: whenever the V and I fluxes differ, checking
   * the VFLUX column looks at a value other than the one it prints.
   */
  lemma VFluxCheckedAgainstIFlux(e: Entry)
    requires e.values(ItsFluxImedian) != e.values(ItsFluxVmedian)
    ensures CheckColAsWritten(e, "VFLUX") == Ok(e.values(ItsFluxImedian))
    ensures PrintTableEntry(e, "VFLUX") == Ok(Cell("VFLUX", e.values(ItsFluxVmedian)))
    ensures CheckColAsWritten(e, "VFLUX").value != PrintTableEntry(e, "VFLUX").value.value
  {
    assert Lookup("VFLUX").Some? by {
      assert TypeName(VFlux) == "VFLUX";
    }
    TypeNameVFlux(Lookup("VFLUX").value);
  }
}
