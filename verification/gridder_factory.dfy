// `VisGridderFactory`: the registry of gridder creators, the dynamic-library
// fallback of `createGridder`, and `make`, which builds the gridder a parset
// names and applies the gridder-level options to it. A creator is modelled
// by what it builds (its identity and the gridder classes the result belongs
// to); loading a shared library is a parameter mapping a library file and
// its entry point to the registrations that entry point performs.

module GridderFactory {
  import opened Common

  /** A parset: keys to their unconverted text values. */
  type Parset = map<string, string>

  /** What a creator builds: its identity, and whether the result is a `TableVisGridder` and a `VisGridderWithPadding`. */
  datatype Creator = Creator(id: string, isTable: bool, withPadding: bool)

  type Registry = map<string, Creator>

  /** The snap-shot imaging adapter's settings. */
  datatype Snapshot = Snapshot(wTolerance: real, clipping: real)

  /** A gridder: its creator, the parset subset it was built from, and what `make` set on it afterwards. */
  datatype Gridder = Gridder(
    creator: Creator,
    params: Parset,
    padding: Option<real>,
    maxPointingSeparation: Option<real>,
    allDataForPsf: Option<bool>,
    trackWeightPerPlane: Option<bool>,
    mfsRefFreq: Option<real>,
    snapshot: Option<Snapshot>)

  /** The result of a factory call: the gridder or the error, and the registry afterwards. */
  datatype Outcome = Outcome(gridder: Result<Gridder>, registry: Registry)

  // -------------------------------------------------------------- registry

  /** `registerGridder`: inserts the creator under `name`, replacing any earlier one. */
  function RegisterGridder(reg: Registry, name: string, c: Creator): (r: Registry)
    ensures r.Keys == reg.Keys + {name}
    ensures r[name] == c
    ensures forall n :: n in reg && n != name ==> r[n] == reg[n]
  {
    reg[name := c]
  }

  /** The names a sequence of registrations registers. */
  function Names(regs: seq<(string, Creator)>): set<string>
  {
    if |regs| == 0 then {} else {regs[0].0} + Names(regs[1..])
  }

  /** Registrations in order: a later one for the same name wins. */
  function RegisterAll(reg: Registry, regs: seq<(string, Creator)>): (r: Registry)
    ensures r.Keys == reg.Keys + Names(regs)
    ensures forall n :: n in reg && n !in Names(regs) ==> r[n] == reg[n]
    decreases |regs|
  {
    if |regs| == 0 then reg else RegisterAll(RegisterGridder(reg, regs[0].0, regs[0].1), regs[1..])
  }

  // ----------------------------------------------------------- library name

  /** The first position of a character of `stops` in `s` (`find_first_of`), `|s|` when there is none. */
  function FirstOf(s: string, stops: set<char>): (r: nat)
    ensures r <= |s|
    ensures forall i :: 0 <= i < r ==> s[i] !in stops
    ensures r < |s| ==> s[r] in stops
  {
    if |s| == 0 || s[0] in stops then 0 else 1 + FirstOf(s[1..], stops)
  }

  /** The name of the library a gridder is looked for in: lower-cased, cut before the first '.' or '<'. */
  function LibraryName(name: string): (r: string)
    ensures '.' !in r && '<' !in r
    ensures StartsWith(ToLowerAscii(name), r)
    ensures |r| < |name| ==> name[|r|] in {'.', '<'}
    ensures '.' !in name && '<' !in name ==> r == ToLowerAscii(name)
  {
    var lower := ToLowerAscii(name);
    var cut := FirstOf(lower, {'.', '<'});
    lower[..cut]
  }

  /** Lower-casing and cutting again changes nothing. */
  lemma LibraryNameIdempotent(name: string)
    ensures LibraryName(LibraryName(name)) == LibraryName(name)
  {
    var r := LibraryName(name);
    var lower := ToLowerAscii(name);
    assert r == lower[..|r|];
    forall i | 0 <= i < |r| ensures ToLowerAscii(r)[i] == r[i] {
      LowerCharIdempotent(name[i]);
    }
  }

  lemma LowerCharIdempotent(c: char)
    ensures ToLowerChar(ToLowerChar(c)) == ToLowerChar(c)
  {
  }

  const LibraryPrefix := "libaskap_"
  const EntryPrefix := "register_"

  /** The shared library tried for `name` and its register function. */
  function LibraryFor(name: string): (string, string)
  {
    (LibraryPrefix + LibraryName(name), EntryPrefix + LibraryName(name))
  }

  /** The loadable libraries: (library, entry point) to the registrations the entry point performs. */
  type Libraries = map<(string, string), seq<(string, Creator)>>

  // ----------------------------------------------------------- createGridder

  function UnknownGridderMessage(name: string): string
  {
    "Unknown gridder " + name
  }

  /** A gridder as its creator returns it, before `make` sets any option. */
  function Built(c: Creator, params: Parset): Gridder
  {
    Gridder(c, params, None, None, None, None, None, None)
  }

  /**
   * `createGridder`: a registered name is built by its creator; otherwise
   * the library for the name is loaded, if there is one, and its entry point
   * registers what it registers; a name still unknown after that is an
   * error.
   */
  function CreateGridder(reg: Registry, libs: Libraries, name: string, params: Parset): (o: Outcome)
    ensures o.gridder.Ok? <==> name in o.registry
    ensures o.gridder.Ok? ==> o.gridder.value == Built(o.registry[name], params)
    ensures o.gridder.Err? ==> o.gridder.error == UnknownGridderMessage(name)
    ensures reg.Keys <= o.registry.Keys
    ensures name in reg ==> o.registry == reg
    ensures name !in reg ==>
              o.registry == (if LibraryFor(name) in libs then RegisterAll(reg, libs[LibraryFor(name)]) else reg)
  {
    if name in reg then Outcome(Ok(Built(reg[name], params)), reg)
    else
      var key := LibraryFor(name);
      var loaded := if key in libs then RegisterAll(reg, libs[key]) else reg;
      if name in loaded then Outcome(Ok(Built(loaded[name], params)), loaded)
      else Outcome(Err(UnknownGridderMessage(name)), loaded)
  }

  /** A gridder registered under its name is built by that creator, and nothing is loaded. */
  lemma CreateRegistered(reg: Registry, libs: Libraries, name: string, c: Creator, params: Parset)
    ensures CreateGridder(RegisterGridder(reg, name, c), libs, name, params)
            == Outcome(Ok(Built(c, params)), RegisterGridder(reg, name, c))
  {
  }

  /**
   * A name neither registered nor registered by its library is unknown, and
   * a library that registers it makes it known.
   */
  lemma CreateUnregistered(reg: Registry, libs: Libraries, name: string, params: Parset)
    requires name !in reg
    ensures CreateGridder(reg, libs, name, params).gridder.Ok?
            <==> LibraryFor(name) in libs && name in Names(libs[LibraryFor(name)])
  {
  }

  // --------------------------------------------------------------- subsets

  /** The keys of `parset` under `prefix`, with the prefix removed. */
  function SubsetKeys(parset: Parset, prefix: string): set<string>
  {
    set k | k in parset && StartsWith(k, prefix) :: k[|prefix|..]
  }

  /** `makeSubset`: the entries under `prefix`, with the prefix removed from their keys. */
  function MakeSubset(parset: Parset, prefix: string): (r: Parset)
    ensures forall k :: k in r <==> prefix + k in parset
    ensures forall k :: k in r ==> r[k] == parset[prefix + k]
  {
    forall k ensures k in SubsetKeys(parset, prefix) <==> prefix + k in parset {
      if prefix + k in parset {
        assert (prefix + k)[..|prefix|] == prefix;
        assert (prefix + k)[|prefix|..] == k;
      }
      if k in SubsetKeys(parset, prefix) {
        var j :| j in parset && StartsWith(j, prefix) && k == j[|prefix|..];
        assert prefix + k == j;
      }
    }
    map k | k in SubsetKeys(parset, prefix) :: parset[prefix + k]
  }

  // ------------------------------------------------------------------- make

  /**
   * The registry after the six predefined gridders have registered into an
   * empty one, each under its name and with its own creator; every one of
   * them builds a `TableVisGridder` with padding.
   */
  const PredefinedRegistry: Registry := map[
    "WProject" := Creator("WProjectVisGridder", true, true),
    "WStack" := Creator("WStackVisGridder", true, true),
    "AProjectWStack" := Creator("AProjectWStackVisGridder", true, true),
    "AWProject" := Creator("AWProjectVisGridder", true, true),
    "Box" := Creator("BoxVisGridder", true, true),
    "SphFunc" := Creator("SphFuncVisGridder", true, true)
  ]

  /**
   * The values the parset library converts from text (floats, booleans and
   * angles in radians) for the keys `make` reads, `None` when the key is not
   * defined.
   */
  datatype Converted = Converted(
    padding: Option<real>,
    maxPointingSeparation: Option<real>,
    allDataPsf: Option<bool>,
    overSampleWeight: Option<bool>,
    mfsRefFreq: Option<real>,
    snapshotImaging: Option<bool>,
    wTolerance: Option<real>,
    clipping: Option<real>)

  const GridderKey := "gridder"
  const VisWeightsKey := "visweights"
  const WToleranceKey := "gridder.snapshotimaging.wtolerance"
  const DefaultMfsRefFreq: real := 1405000000.0

  function MissingKeyMessage(key: string): string
  {
    "Key " + key + " is not defined in the parset"
  }

  function IncompatibleMessage(name: string, option: string): string
  {
    "Gridder type (" + name + ") is incompatible with the " + option + " option"
  }

  /** The prefix of the parset keys the gridder named `name` is built from. */
  function GridderPrefix(name: string): string
  {
    GridderKey + "." + name + "."
  }

  /**
   * The options `make` applies once the gridder exists, in order: padding
   * needs a gridder with padding; the pointing separation and the PSF
   * selection need a table gridder; per-plane weights are set on table
   * gridders and otherwise only warned about; MFS weights and the snap-shot
   * adapter go on any gridder, the adapter needing its w tolerance.
   */
  function Configure(g: Gridder, name: string, parset: Parset, v: Converted): (r: Result<Gridder>)
    ensures r.Ok? <==>
              (v.padding.Some? ==> g.creator.withPadding)
              && (v.maxPointingSeparation.Some? ==> g.creator.isTable)
              && (v.allDataPsf.Some? ==> g.creator.isTable)
              && (v.snapshotImaging == Some(true) ==> v.wTolerance.Some?)
    ensures r.Ok? ==> r.value.creator == g.creator && r.value.params == g.params
    ensures r.Ok? ==> r.value.padding == (if v.padding.Some? then v.padding else g.padding)
    ensures r.Ok? ==> r.value.trackWeightPerPlane
                      == (if g.creator.isTable then Some(v.overSampleWeight == Some(true)) else g.trackWeightPerPlane)
    ensures r.Ok? ==> (r.value.snapshot.Some? <==> v.snapshotImaging == Some(true) || g.snapshot.Some?)
  {
    if v.padding.Some? && !g.creator.withPadding then Err(IncompatibleMessage(name, "padding"))
    else if v.maxPointingSeparation.Some? && !g.creator.isTable then Err(IncompatibleMessage(name, "MaxPointingSeparation"))
    else if v.allDataPsf.Some? && !g.creator.isTable then Err(IncompatibleMessage(name, "alldatapsf"))
    else
      var g5 := Settings(g, parset, v);
      if v.snapshotImaging != Some(true) then Ok(g5)
      else if v.wTolerance.None? then Err(MissingKeyMessage(WToleranceKey))
      else
        var clipping := if v.clipping.Some? then v.clipping.value else 0.0;
        Ok(g5.(snapshot := Some(Snapshot(v.wTolerance.value, clipping))))
  }

  /** The settings `configureGridder` applies before the snap-shot adapter, once the compatibility checks pass. */
  function Settings(g: Gridder, parset: Parset, v: Converted): (r: Gridder)
    ensures r.creator == g.creator && r.params == g.params && r.snapshot == g.snapshot
    ensures r.padding == (if v.padding.Some? then v.padding else g.padding)
    ensures r.trackWeightPerPlane
            == (if g.creator.isTable then Some(v.overSampleWeight == Some(true)) else g.trackWeightPerPlane)
  {
    var g1 := if v.padding.Some? then g.(padding := v.padding) else g;
    var g2 := if v.maxPointingSeparation.Some? then g1.(maxPointingSeparation := v.maxPointingSeparation) else g1;
    var g3 := if v.allDataPsf.Some? then g2.(allDataForPsf := v.allDataPsf) else g2;
    var osWeight := v.overSampleWeight == Some(true);
    var g4 := if g3.creator.isTable then g3.(trackWeightPerPlane := Some(osWeight)) else g3;
    var mfs := VisWeightsKey in parset && parset[VisWeightsKey] == "MFS";
    if mfs then g4.(mfsRefFreq := Some(if v.mfsRefFreq.Some? then v.mfsRefFreq.value else DefaultMfsRefFreq)) else g4
  }

  /**
   * `make`: on the first call the registry is filled with the predefined
   * gridders; the gridder named by `gridder` is created from the parset
   * entries under `gridder.<name>.` and then configured.
   */
  function Make(reg: Registry, libs: Libraries, parset: Parset, v: Converted): (o: Outcome)
    ensures |reg| == 0 ==> PredefinedRegistry.Keys <= o.registry.Keys
    ensures |reg| > 0 ==> reg.Keys <= o.registry.Keys
    ensures GridderKey !in parset ==> o.gridder == Err(MissingKeyMessage(GridderKey))
    ensures o.gridder.Ok? ==> GridderKey in parset
    ensures o.gridder.Ok? ==> o.gridder.value.params == MakeSubset(parset, GridderPrefix(parset[GridderKey]))
    ensures GridderKey in parset ==>
              var name := parset[GridderKey];
              (name in o.registry ==>
                 o.gridder == Configure(Built(o.registry[name], MakeSubset(parset, GridderPrefix(name))),
                                        name, parset, v))
              && (name !in o.registry ==> o.gridder == Err(UnknownGridderMessage(name)))
  {
    var filled := FillRegistry(reg);
    if GridderKey !in parset then Outcome(Err(MissingKeyMessage(GridderKey)), filled)
    else
      var name := parset[GridderKey];
      var created := CreateGridder(filled, libs, name, MakeSubset(parset, GridderPrefix(name)));
      match created.gridder
      case Err(e) => created
      case Ok(g) => Outcome(Configure(g, name, parset, v), created.registry)
  }

  /** The registry `make` works with: the predefined gridders when it is empty, otherwise as it is. */
  function FillRegistry(reg: Registry): (r: Registry)
    ensures |reg| == 0 ==> r.Keys == {"WProject", "WStack", "AProjectWStack", "AWProject", "Box", "SphFunc"}
    ensures |reg| == 0 ==> forall n :: n in r ==> r[n].isTable && r[n].withPadding
    ensures |reg| > 0 ==> r == reg
  {
    if |reg| == 0 then PredefinedRegistry else reg
  }

  /**
   * A registry that is not empty is not refilled: when it already knows the
   * gridder, `make` leaves it as it was.
   */
  lemma MakeKeepsFilledRegistry(reg: Registry, libs: Libraries, parset: Parset, v: Converted)
    requires |reg| > 0 && GridderKey in parset && parset[GridderKey] in reg
    ensures Make(reg, libs, parset, v).registry == reg
    ensures Make(reg, libs, parset, v).gridder.Ok? ==> Make(reg, libs, parset, v).gridder.value.creator == reg[parset[GridderKey]]
  {
  }

  /** On the first call a predefined gridder is built without loading any library. */
  lemma MakeFirstCallPredefined(libs: Libraries, parset: Parset, v: Converted)
    requires GridderKey in parset && parset[GridderKey] in PredefinedRegistry
    ensures Make(map[], libs, parset, v).registry == FillRegistry(map[])
    ensures Make(map[], libs, parset, v).gridder.Ok? <==>
              v.snapshotImaging == Some(true) ==> v.wTolerance.Some?
  {
    var filled := FillRegistry(map[]);
    var name := parset[GridderKey];
    assert filled[name].isTable && filled[name].withPadding;
  }

  /** The per-plane weight option is never an error, even on a gridder that cannot take it. */
  lemma OverSampleWeightOnlyWarns(g: Gridder, name: string, parset: Parset, v: Converted)
    requires !g.creator.isTable && v.padding.None? && v.maxPointingSeparation.None? && v.allDataPsf.None?
    requires v.snapshotImaging.None?
    ensures Configure(g, name, parset, v).Ok?
    ensures Configure(g, name, parset, v).value.trackWeightPerPlane == g.trackWeightPerPlane
  {
  }
}
