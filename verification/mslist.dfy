// Command-line handling of the `mslist` application: the measurement-set
// argument, exact flags, `--key=value` options (text, integer and boolean
// flavours) and the default listing mode. `argv[0]` is the program name and
// is never inspected.

module MsList {
  import opened Common

  /** Argument `i` is the first one after the program name that starts with `par`. */
  predicate IsFirstFlagged(argv: seq<string>, par: string, i: int)
  {
    1 <= i < |argv| && StartsWith(argv[i], par)
    && forall j :: 1 <= j < i ==> !StartsWith(argv[j], par)
  }

  predicate NoneFlagged(argv: seq<string>, par: string)
  {
    forall j :: 1 <= j < |argv| ==> !StartsWith(argv[j], par)
  }

  /**
   * The value part of an option: the text after the first '='. Without an
   * '=' the C++ position `find("=") + 1` wraps to 0, so the whole argument
   * is the value.
   */
  function ValueOf(arg: string): (v: string)
    ensures '=' !in arg ==> v == arg
    ensures '=' in arg ==> |v| < |arg| && v == arg[|arg| - |v|..] && arg[|arg| - |v| - 1] == '='
                           && '=' !in arg[..|arg| - |v| - 1]
  {
    match IndexOf(arg, '=')
    case None => arg
    case Some(k) => arg[k + 1..]
  }

  /** `ms` is the first argument not starting with '-', or "" when there is none. */
  predicate IsMsParameter(argv: seq<string>, ms: string)
  {
    (exists i :: 1 <= i < |argv| && !StartsWith(argv[i], "-")
       && (forall j :: 1 <= j < i ==> StartsWith(argv[j], "-")) && ms == argv[i])
    || (ms == "" && forall j :: 1 <= j < |argv| ==> StartsWith(argv[j], "-"))
  }

  /** The measurement-set name: the first argument not starting with '-', else "". */
  method PassMsParameter(argv: seq<string>) returns (ms: string)
    ensures IsMsParameter(argv, ms)
  {
    var i := 1;
    while i < |argv|
      invariant 1 <= i <= |argv| || |argv| == 0
      invariant forall j :: 1 <= j < i && j < |argv| ==> StartsWith(argv[j], "-")
    {
      if !StartsWith(argv[i], "-") {
        return argv[i];
      }
      i := i + 1;
    }
    return "";
  }

  /** An exact flag such as `--brief`. */
  method PassFlagParameter(argv: seq<string>, par: string) returns (present: bool)
    ensures present <==> HasFlag(argv, par)
  {
    var i := 1;
    while i < |argv|
      invariant 1 <= i <= |argv| || |argv| == 0
      invariant forall j :: 1 <= j < i && j < |argv| ==> argv[j] != par
    {
      if argv[i] == par {
        return true;
      }
      i := i + 1;
    }
    return false;
  }

  /** The position of the first argument starting with `par`, if any. */
  method FindFlagged(argv: seq<string>, par: string) returns (idx: Option<nat>)
    ensures idx.Some? ==> IsFirstFlagged(argv, par, idx.value)
    ensures idx.None? ==> NoneFlagged(argv, par)
  {
    var i := 1;
    while i < |argv|
      invariant 1 <= i <= |argv| || |argv| == 0
      invariant forall j :: 1 <= j < i && j < |argv| ==> !StartsWith(argv[j], par)
    {
      if StartsWith(argv[i], par) {
        return Some(i);
      }
      i := i + 1;
    }
    return None;
  }

  /** `v` is what a text option `par` reads as: the first match's value, else `def`. */
  ghost predicate IsFlaggedString(argv: seq<string>, par: string, def: string, v: string)
  {
    (NoneFlagged(argv, par) ==> v == def)
    && forall i :: IsFirstFlagged(argv, par, i) ==> v == ValueOf(argv[i])
  }

  /**
   * `v` is what an integer option `par` reads as: `def` without a match, the
   * `atoi` of the first match's value when that is defined, an error when
   * the value leaves `int` and C leaves the result undefined.
   */
  ghost predicate IsFlaggedLong(argv: seq<string>, par: string, def: int, v: Result<int>)
  {
    (NoneFlagged(argv, par) ==> v == Ok(def))
    && forall i :: IsFirstFlagged(argv, par, i) ==>
         if AtoiDefined(ValueOf(argv[i])) then v == Ok(Atoi(ValueOf(argv[i]))) else v.Err?
  }

  /** The first value of option `par` is out of `int` range, where `atoi` is undefined. */
  ghost predicate LongUndefined(argv: seq<string>, par: string)
  {
    exists i :: IsFirstFlagged(argv, par, i) && !AtoiDefined(ValueOf(argv[i]))
  }

  /** `passFlaggedParameter<String>`: later matches are ignored. */
  method PassFlaggedString(argv: seq<string>, par: string, def: string) returns (v: string)
    ensures IsFlaggedString(argv, par, def, v)
  {
    var idx := FindFlagged(argv, par);
    if idx.Some? {
      FirstFlaggedUnique(argv, par, idx.value);
    }
    v := if idx.Some? then ValueOf(argv[idx.value]) else def;
  }

  /** `passFlaggedParameter<Long>`: the value goes through `atoi`. */
  method PassFlaggedLong(argv: seq<string>, par: string, def: int) returns (v: Result<int>)
    ensures IsFlaggedLong(argv, par, def, v)
    ensures v.Err? <==> LongUndefined(argv, par)
  {
    var idx := FindFlagged(argv, par);
    if idx.None? {
      return Ok(def);
    }
    FirstFlaggedUnique(argv, par, idx.value);
    var text := ValueOf(argv[idx.value]);
    if AtoiDefined(text) {
      v := Ok(Atoi(text));
    } else {
      v := Err("atoi result undefined outside int: " + argv[idx.value]);
    }
  }

  /** `passFlaggedParameter<Bool>`: 0 and 1 are the only accepted values. */
  method PassFlaggedBool(argv: seq<string>, par: string, def: bool) returns (v: Result<bool>)
    ensures NoneFlagged(argv, par) ==> v == Ok(def)
    ensures forall i :: IsFirstFlagged(argv, par, i) ==>
              if !AtoiDefined(ValueOf(argv[i])) then v.Err?
              else match Atoi(ValueOf(argv[i]))
                   case 0 => v == Ok(false)
                   case 1 => v == Ok(true)
                   case _ => v.Err?
  {
    var idx := FindFlagged(argv, par);
    if idx.None? {
      return Ok(def);
    }
    FirstFlaggedUnique(argv, par, idx.value);
    var text := ValueOf(argv[idx.value]);
    if !AtoiDefined(text) {
      return Err("atoi result undefined outside int: " + argv[idx.value]);
    }
    var n := Atoi(text);
    if n == 0 {
      v := Ok(false);
    } else if n == 1 {
      v := Ok(true);
    } else {
      v := Err("Unknown bool (use 0 or 1): " + argv[idx.value]);
    }
  }

  lemma FirstFlaggedUnique(argv: seq<string>, par: string, i: int)
    requires IsFirstFlagged(argv, par, i)
    ensures forall k :: IsFirstFlagged(argv, par, k) ==> k == i
  {
  }

  /** The listing modes selected by exact flags. */
  datatype Modes = Modes(brief: bool, full: bool, what: bool, how: bool, tables: bool,
                         data: bool, verbose: bool)

  /** What `main` extracts from the command line before listing. */
  datatype Options = Options(
    modes: Modes, datacolumn: string, field: string, spw: string, antenna: string,
    timerange: string, correlation: string, scan: string, uvrange: string, pagerows: int,
    listfile: string, msfile: string)

  predicate HasFlag(argv: seq<string>, f: string)
  {
    exists i :: 1 <= i < |argv| && argv[i] == f
  }

  predicate AnyModeRequested(m: Modes)
  {
    m.brief || m.full || m.what || m.how || m.tables || m.data
  }

  /** Without any listing mode, `main` forces a brief and verbose listing. */
  function DefaultMode(m: Modes): (r: Modes)
    ensures AnyModeRequested(r)
    ensures AnyModeRequested(m) ==> r == m
    ensures !AnyModeRequested(m) ==> r.brief && r.verbose && !r.full && !r.what && !r.how
                                      && !r.tables && !r.data
  {
    if AnyModeRequested(m) then m else m.(brief := true, verbose := true)
  }

  /**
   * The option parsing in `main`; fewer than two entries fail before any
   * option is read.
   */
  method ParseCommandLine(argv: seq<string>) returns (r: Result<Options>)
    ensures r.Err? <==> |argv| < 2 || LongUndefined(argv, "--pagerows=")
    ensures r.Ok? ==> r.value.modes == DefaultMode(Modes(
              HasFlag(argv, "--brief"), HasFlag(argv, "--full"), HasFlag(argv, "--what"),
              HasFlag(argv, "--how"), HasFlag(argv, "--tables"), HasFlag(argv, "--data"),
              HasFlag(argv, "--verbose")))
    ensures r.Ok? ==> IsMsParameter(argv, r.value.msfile)
    ensures r.Ok? ==> IsFlaggedString(argv, "--datacolumn=", "", r.value.datacolumn)
                      && IsFlaggedString(argv, "--field=", "", r.value.field)
                      && IsFlaggedString(argv, "--spw=", "", r.value.spw)
                      && IsFlaggedString(argv, "--antenna=", "", r.value.antenna)
                      && IsFlaggedString(argv, "--timerange=", "", r.value.timerange)
                      && IsFlaggedString(argv, "--correlation=", "", r.value.correlation)
                      && IsFlaggedString(argv, "--scan=", "", r.value.scan)
                      && IsFlaggedString(argv, "--uvrange=", "", r.value.uvrange)
                      && IsFlaggedString(argv, "--listfile=", "", r.value.listfile)
    ensures r.Ok? ==> IsFlaggedLong(argv, "--pagerows=", 50, Ok(r.value.pagerows))
  {
    if |argv| < 2 {
      return Err("mslist requires a MS file");
    }
    var brief := PassFlagParameter(argv, "--brief");
    var full := PassFlagParameter(argv, "--full");
    var what := PassFlagParameter(argv, "--what");
    var how := PassFlagParameter(argv, "--how");
    var tables := PassFlagParameter(argv, "--tables");
    var data := PassFlagParameter(argv, "--data");
    var verbose := PassFlagParameter(argv, "--verbose");
    var modes := DefaultMode(Modes(brief, full, what, how, tables, data, verbose));
    var datacolumn := PassFlaggedString(argv, "--datacolumn=", "");
    var field := PassFlaggedString(argv, "--field=", "");
    var spw := PassFlaggedString(argv, "--spw=", "");
    var antenna := PassFlaggedString(argv, "--antenna=", "");
    var timerange := PassFlaggedString(argv, "--timerange=", "");
    var correlation := PassFlaggedString(argv, "--correlation=", "");
    var scan := PassFlaggedString(argv, "--scan=", "");
    var uvrange := PassFlaggedString(argv, "--uvrange=", "");
    var pagerows := PassFlaggedLong(argv, "--pagerows=", 50);
    var listfile := PassFlaggedString(argv, "--listfile=", "");
    var msfile := PassMsParameter(argv);
    if pagerows.Err? {
      return Err(pagerows.error);
    }
    return Ok(Options(modes, datacolumn, field, spw, antenna, timerange, correlation, scan,
                      uvrange, pagerows.value, listfile, msfile));
  }

  /**
   * Printing a count and reading it back through the Long option gives the
   * count, and the reading is defined exactly for counts that fit an `int`.
   */
  lemma PagerowsRoundTrip(n: int)
    ensures Atoi(ValueOf("--pagerows=" + IntToString(n))) == n
    ensures AtoiDefined(ValueOf("--pagerows=" + IntToString(n))) <==> IsInt32(n)
  {
    var s := IntToString(n);
    var arg := "--pagerows=" + s;
    assert IndexOf(arg, '=') == Some(10) by {
      assert arg[10] == '=';
      assert '=' !in arg[..10] by { assert arg[..10] == "--pagerows"; }
    }
    assert arg[11..] == s;
    AtoiOfIntToString(n);
  }
}
