// `parseComponentRowField`: one VOTable cell is dispatched by its UCD (or, for
// two fields without a unique UCD, by its name) to one member of the
// continuum component of that row. The cell text is stored as it arrives;
// the `lexical_cast` conversion to double/float/bool is not modelled.

module VOTableParser {
  import opened Common

  /** The members of a continuum component that a VOTable cell can set. */
  datatype Field =
    | ComponentId | RaDegCont | DecDegCont | RaErr | DecErr | Freq
    | FluxPeak | FluxPeakErr | FluxInt | FluxIntErr
    | MajAxis | MinAxis | PosAng | MajAxisErr | MinAxisErr | PosAngErr
    | MajAxisDeconv | MinAxisDeconv | PosAngDeconv
    | ChiSquaredFit | RmsFitGauss | SpectralIndex | SpectralCurvature | RmsImage
    | HasSiblings | FitIsEstimate

  /** A component row: the members set so far, with the cell text that set them. */
  type Component = map<Field, string>

  /** The members in the order the `if`/`else if` chain tests them. */
  const Order: seq<Field> := [
    ComponentId, RaDegCont, DecDegCont, RaErr, DecErr, Freq, FluxPeak, FluxPeakErr,
    FluxInt, FluxIntErr, MajAxis, MinAxis, PosAng, MajAxisErr, MinAxisErr, PosAngErr,
    MajAxisDeconv, MinAxisDeconv, PosAngDeconv, ChiSquaredFit, RmsFitGauss, SpectralIndex,
    SpectralCurvature, RmsImage, HasSiblings, FitIsEstimate]

  /** The number of UCD-keyed branches; the name-keyed ones follow them. */
  const UcdRuleCount: nat := 24

  /** The two members without a unique UCD are keyed by the field name instead. */
  predicate ByName(f: Field)
  {
    f == HasSiblings || f == FitIsEstimate
  }

  /**
   * The UCD (or, for `ByName` members, the field name) that selects a member,
   * in lower case. The comparison ignores ASCII case, so the mixed-case
   * spellings in the branch chain (`phys.angSize.smajAxis;...`) select the
   * same branches.
   */
  function Key(f: Field): string
  {
    match f
    case ComponentId => "meta.id;meta.main"
    case RaDegCont => "pos.eq.ra;meta.main"
    case DecDegCont => "pos.eq.dec;meta.main"
    case RaErr => "stat.error;pos.eq.ra"
    case DecErr => "stat.error;pos.eq.dec"
    case Freq => "em.freq"
    case FluxPeak => "phot.flux.density;stat.max;em.radio;stat.fit"
    case FluxPeakErr => "stat.error;phot.flux.density;stat.max;em.radio;stat.fit"
    case FluxInt => "phot.flux.density;em.radio;stat.fit"
    case FluxIntErr => "stat.error;phot.flux.density;em.radio;stat.fit"
    case MajAxis => "phys.angsize.smajaxis;em.radio;stat.fit"
    case MinAxis => "phys.angsize.sminaxis;em.radio;stat.fit"
    case PosAng => "phys.angsize;pos.posang;em.radio;stat.fit"
    case MajAxisErr => "stat.error;phys.angsize.smajaxis;em.radio"
    case MinAxisErr => "stat.error;phys.angsize.sminaxis;em.radio"
    case PosAngErr => "stat.error;phys.angsize;pos.posang;em.radio"
    case MajAxisDeconv => "phys.angsize.smajaxis;em.radio;askap:meta.deconvolved"
    case MinAxisDeconv => "phys.angsize.sminaxis;em.radio;askap:meta.deconvolved"
    case PosAngDeconv => "phys.angsize;pos.posang;em.radio;askap:meta.deconvolved"
    case ChiSquaredFit => "stat.fit.chi2"
    case RmsFitGauss => "stat.stdev;stat.fit"
    case SpectralIndex => "spect.index;em.radio"
    case SpectralCurvature => "askap:spect.curvature;em.radio"
    case RmsImage => "stat.stdev;phot.flux.density"
    case HasSiblings => "has_siblings"
    case FitIsEstimate => "fit_is_estimate"
  }

  /** The units the branch asserts. */
  function Units(f: Field): seq<string>
  {
    match f
    case ComponentId | ChiSquaredFit | SpectralIndex | SpectralCurvature
      | HasSiblings | FitIsEstimate => ["", "--"]
    case RaDegCont | DecDegCont | PosAng | PosAngErr | PosAngDeconv => ["deg"]
    case RaErr | DecErr | MajAxis | MinAxis | MajAxisErr | MinAxisErr
      | MajAxisDeconv | MinAxisDeconv => ["arcsec"]
    case Freq => ["MHz"]
    case FluxPeak | FluxPeakErr | RmsFitGauss | RmsImage => ["mJy/beam"]
    case FluxInt | FluxIntErr => ["mJy"]
  }

  /** The VOTable datatype the branch asserts. */
  function DType(f: Field): string
  {
    match f
    case ComponentId => "char"
    case RaDegCont | DecDegCont => "double"
    case HasSiblings | FitIsEstimate => "int"
    case _ => "float"
  }

  /** The buffers the parser is handed. */
  datatype Outputs = Outputs(components: seq<Component>, raBuffer: seq<real>, decBuffer: seq<real>)

  predicate Matches(f: Field, ucd: string, name: string)
  {
    ToLowerAscii(if ByName(f) then name else ucd) == Key(f)
  }

  /** The first position at or after `from` in `order` whose member satisfies `p`. */
  function FirstFrom(order: seq<Field>, p: Field -> bool, from: nat): (r: Option<nat>)
    requires from <= |order|
    ensures r.Some? ==> from <= r.value < |order| && p(order[r.value])
    ensures r.Some? ==> forall j :: from <= j < r.value ==> !p(order[j])
    ensures r.None? ==> forall j :: from <= j < |order| ==> !p(order[j])
    decreases |order| - from
  {
    if from == |order| then None
    else if p(order[from]) then Some(from)
    else FirstFrom(order, p, from + 1)
  }

  /** The branch the chain takes: the first whose key matches, ignoring case. */
  function FirstMatch(ucd: string, name: string): (r: Option<nat>)
    ensures r.Some? ==> r.value < |Order| && Matches(Order[r.value], ucd, name)
                        && forall j :: 0 <= j < r.value ==> !Matches(Order[j], ucd, name)
    ensures r.None? ==> forall j :: 0 <= j < |Order| ==> !Matches(Order[j], ucd, name)
  {
    FirstFrom(Order, f => Matches(f, ucd, name), 0)
  }

  /** The asserted precondition: the row exists in all three buffers. */
  predicate InRange(row: nat, outs: Outputs)
  {
    row < |outs.components| && row < |outs.raBuffer| && row < |outs.decBuffer|
  }

  /**
   * `parseComponentRowField`. A failed `ASKAPASSERT` (row out of range, or
   * the wrong unit or datatype for the matched branch) is an error.
   */
  function ParseComponentRowField(row: nat, ucd: string, name: string, dtype: string,
                                  unit: string, value: string, outs: Outputs): (r: Result<Outputs>)
    ensures !InRange(row, outs) ==> r.Err?
    ensures r.Ok? ==> r.value.raBuffer == outs.raBuffer && r.value.decBuffer == outs.decBuffer
                      && |r.value.components| == |outs.components|
                      && forall k :: 0 <= k < |outs.components| && k != row ==> r.value.components[k] == outs.components[k]
  {
    if !InRange(row, outs) then
      Err("row_index out of range")
    else
      match FirstMatch(ucd, name)
      case None => Ok(outs)
      case Some(i) => Store(Order[i], row, dtype, unit, value, outs)
  }

  /** The matched branch: check the unit and datatype it asserts, then set its member in the row's component. */
  function Store(f: Field, row: nat, dtype: string, unit: string, value: string, outs: Outputs): (r: Result<Outputs>)
    requires InRange(row, outs)
    ensures r.Ok? <==> unit in Units(f) && dtype == DType(f)
    ensures r.Ok? ==> r.value == outs.(components := outs.components[row := outs.components[row][f := value]])
  {
    if unit !in Units(f) || dtype != DType(f) then
      Err("unexpected unit or datatype for " + Key(f))
    else
      Ok(outs.(components := outs.components[row := outs.components[row][f := value]]))
  }

  /**
   * A cell no branch matches changes nothing; a cell the `i`-th branch
   * matches is stored in that branch's member exactly when its unit and
   * datatype are the ones the branch asserts.
   */
  lemma ParseDispatch(row: nat, ucd: string, name: string, dtype: string, unit: string, value: string, outs: Outputs)
    requires InRange(row, outs)
    ensures var r := ParseComponentRowField(row, ucd, name, dtype, unit, value, outs);
            (FirstMatch(ucd, name).None? ==> r == Ok(outs))
            && (forall i :: FirstMatch(ucd, name) == Some(i) ==>
                  (r.Ok? <==> unit in Units(Order[i]) && dtype == DType(Order[i]))
                  && (r.Ok? ==> r.value.components[row] == outs.components[row][Order[i] := value]))
  {
  }

  /** The position of a member's branch in the chain. */
  function Branch(f: Field): (i: nat)
    ensures i < |Order| && Order[i] == f
  {
    match f
    case ComponentId => 0 case RaDegCont => 1 case DecDegCont => 2 case RaErr => 3
    case DecErr => 4 case Freq => 5 case FluxPeak => 6 case FluxPeakErr => 7
    case FluxInt => 8 case FluxIntErr => 9 case MajAxis => 10 case MinAxis => 11
    case PosAng => 12 case MajAxisErr => 13 case MinAxisErr => 14 case PosAngErr => 15
    case MajAxisDeconv => 16 case MinAxisDeconv => 17 case PosAngDeconv => 18
    case ChiSquaredFit => 19 case RmsFitGauss => 20 case SpectralIndex => 21
    case SpectralCurvature => 22 case RmsImage => 23 case HasSiblings => 24
    case FitIsEstimate => 25
  }

  /** Every branch writes a different member, and every member has exactly one branch. */
  lemma FieldsDistinct()
    ensures forall i, j :: 0 <= i < j < |Order| ==> Order[i] != Order[j]
    ensures forall f: Field :: f in Order
  {
    forall f: Field ensures f in Order {
      var i := Branch(f);
    }
  }

  /** The UCD branches come first; only the last two match by name. */
  lemma NameRulesLast()
    ensures |Order| == UcdRuleCount + 2
    ensures forall i :: 0 <= i < |Order| ==> (ByName(Order[i]) <==> i >= UcdRuleCount)
  {
  }

  /** A name-keyed branch is taken only when no UCD branch matched. */
  lemma NameMatchOnlyWithoutUcd(ucd: string, name: string)
    ensures FirstMatch(ucd, name).Some? && ByName(Order[FirstMatch(ucd, name).value]) ==>
              forall j :: 0 <= j < |Order| && !ByName(Order[j]) ==> !Matches(Order[j], ucd, name)
  {
    NameRulesLast();
  }

  /** Two tests that agree on every member from `from` on pick the same branch. */
  lemma {:induction false} FirstFromAgrees(order: seq<Field>, p: Field -> bool, q: Field -> bool, from: nat)
    requires from <= |order|
    requires forall j :: from <= j < |order| ==> p(order[j]) == q(order[j])
    ensures FirstFrom(order, p, from) == FirstFrom(order, q, from)
    decreases |order| - from
  {
    if from < |order| {
      FirstFromAgrees(order, p, q, from + 1);
    }
  }

  /** The dispatch sees the UCD and the name only up to ASCII case. */
  lemma CaseInsensitive(ucd1: string, ucd2: string, name1: string, name2: string)
    requires EqualsIgnoreCase(ucd1, ucd2) && EqualsIgnoreCase(name1, name2)
    ensures FirstMatch(ucd1, name1) == FirstMatch(ucd2, name2)
  {
    var p := (f: Field) => Matches(f, ucd1, name1);
    var q := (f: Field) => Matches(f, ucd2, name2);
    forall f: Field ensures p(f) == q(f) {
      assert ToLowerAscii(ucd1) == ToLowerAscii(ucd2) && ToLowerAscii(name1) == ToLowerAscii(name2);
    }
    FirstFromAgrees(Order, p, q, 0);
  }

  /** Because matching ignores case, so does the whole update. */
  lemma ParseIgnoresCase(row: nat, ucd1: string, ucd2: string, name1: string, name2: string,
                         dtype: string, unit: string, value: string, outs: Outputs)
    requires EqualsIgnoreCase(ucd1, ucd2) && EqualsIgnoreCase(name1, name2)
    ensures ParseComponentRowField(row, ucd1, name1, dtype, unit, value, outs)
            == ParseComponentRowField(row, ucd2, name2, dtype, unit, value, outs)
  {
    CaseInsensitive(ucd1, ucd2, name1, name2);
  }
}
