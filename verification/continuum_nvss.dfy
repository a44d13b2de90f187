// Parsing of one line of the NVSS catalogue (`ContinuumNVSS::define`) and its
// echo (`ContinuumNVSS::print`). Columns are fixed; floating-point columns are
// kept as the text `atof` would read, since `atof` itself is not modelled.

module ContinuumNVSS {
  import opened Common

  /** A number as the component stores it: a literal zero, `atof(text)`, or `atof(text) / 1000`. */
  datatype Num = Zero | Atof(text: string) | Thousandth(text: string)

  datatype NvssSource = NvssSource(
    inputLine: string,
    radius: Num, xoff: Num, yoff: Num, recno: int, field: string,
    fieldXpos: Num, fieldYpos: Num, name: string, raString: string, decString: string,
    raErr: Num, decErr: Num, s1400: Num, s1400Err: Num,
    majorAxisLimit: char, majorAxis: Num, minorAxisLimit: char, minorAxis: Num,
    paInput: Num, majorAxisErr: Num, minorAxisErr: Num, paErr: Num,
    flagResidual: string, residualFlux: int,
    polFlux: Num, polPA: Num, polFluxErr: Num, polPAErr: Num,
    // the derived component values
    ra: string, dec: string, id: string, flux: Num, maj: Num, min: Num, pa: Num,
    alpha: Num, beta: Num)

  /** The shortest line every `substr` of `define` accepts: the last one starts at 194. */
  const MinLineLength: nat := 194

  /** `std::string::substr(pos, n)`: the length is clipped at the end of the string. */
  function Substr(s: string, pos: nat, n: nat): (r: string)
    requires pos <= |s|
    ensures |r| <= n && pos + |r| <= |s| && (pos + n <= |s| ==> |r| == n)
    ensures r == s[pos..pos + |r|]
    ensures pos + n > |s| ==> pos + |r| == |s|
  {
    if pos + n <= |s| then s[pos..pos + n] else s[pos..]
  }

  /** Every blank replaced by ':', as `define` does for the RA and Dec strings. */
  function Colons(s: string): (r: string)
    ensures |r| == |s|
    ensures forall i :: 0 <= i < |s| ==> r[i] == (if s[i] == ' ' then ':' else s[i])
    ensures ' ' !in r
  {
    if s == [] then [] else [if s[0] == ' ' then ':' else s[0]] + Colons(s[1..])
  }

  /** The opposite rewrite, used only to state that `Colons` loses nothing. */
  function Blanks(s: string): (r: string)
    ensures |r| == |s|
    ensures forall i :: 0 <= i < |s| ==> r[i] == (if s[i] == ':' then ' ' else s[i])
  {
    if s == [] then [] else [if s[0] == ':' then ' ' else s[0]] + Blanks(s[1..])
  }

  /** The start columns of the `substr` calls of `define`, in the order it makes them. */
  const SubstrStarts: seq<nat> :=
    [0, 9, 19, 30, 38, 47, 55, 63, 78, 90, 102, 107, 113, 122, 132, 140, 146, 152, 157, 161,
     167, 170, 175, 182, 188, 194]

  /** The first of `starts` beyond `len`: the `substr` that throws on a line of that length. */
  function FirstStartBeyond(starts: seq<nat>, len: nat): (p: nat)
    requires exists i :: 0 <= i < |starts| && starts[i] > len
    ensures p in starts && p > len
    ensures exists i :: 0 <= i < |starts| && starts[i] == p
                        && forall j :: 0 <= j < i ==> starts[j] <= len
  {
    if starts[0] > len then starts[0]
    else
      var p := FirstStartBeyond(starts[1..], len);
      assert forall j :: 0 <= j < |starts| - 1 ==> starts[1..][j] == starts[j + 1];
      p
  }

  /** What libstdc++'s `std::out_of_range` from `substr(pos, n)` says. */
  function OutOfRangeMsg(pos: nat, size: nat): string
  {
    "basic_string::substr: __pos (which is " + NatToString(pos) + ") > this->size() (which is "
    + NatToString(size) + ")"
  }

  /**
   * `define`. A line shorter than 194 characters makes a `substr` throw
   * `std::out_of_range`; the model reports that as an error, naming the
   * first column the line does not reach.
   */
  function Define(line: string): (r: Result<NvssSource>)
    ensures r.Err? <==> |line| < MinLineLength
    ensures r.Err? ==> r.error == OutOfRangeMsg(FirstStartBeyond(SubstrStarts, |line|), |line|)
    ensures r.Ok? ==> r.value.inputLine == line
    ensures r.Ok? ==> r.value.name == line[63..77] && r.value.id == r.value.name
    ensures r.Ok? ==> r.value.raString == line[78..89] && r.value.decString == line[90..101]
    ensures r.Ok? ==> r.value.ra == Colons(r.value.raString) && r.value.dec == Colons(r.value.decString)
    ensures r.Ok? ==> |r.value.ra| == |r.value.raString| && |r.value.dec| == |r.value.decString|
    ensures r.Ok? ==> ' ' !in r.value.ra && ' ' !in r.value.dec
    ensures r.Ok? ==> r.value.field == line[38..46] && r.value.flagResidual == line[167..169]
    ensures r.Ok? ==> r.value.recno == Atoi(line[30..38])
                      && r.value.residualFlux == Atoi(line[170..174])
    ensures r.Ok? ==> AtoiDefined(line[30..38]) && AtoiDefined(line[170..174])
    ensures r.Ok? ==> r.value.radius == Atof(line[0..9]) && r.value.xoff == Atof(line[9..19])
                      && r.value.yoff == Atof(line[19..29])
                      && r.value.fieldXpos == Atof(line[47..54]) && r.value.fieldYpos == Atof(line[55..62])
    ensures r.Ok? ==> r.value.raErr == Atof(line[102..107]) && r.value.decErr == Atof(line[107..111])
                      && r.value.s1400 == Atof(line[113..121]) && r.value.s1400Err == Atof(line[122..129])
    ensures r.Ok? ==> r.value.majorAxis == Atof(line[132..137]) && r.value.minorAxis == Atof(line[140..145])
                      && r.value.paInput == Atof(line[146..151])
                      && r.value.majorAxisErr == Atof(line[152..156])
                      && r.value.minorAxisErr == Atof(line[157..161]) && r.value.paErr == Atof(line[161..165])
    ensures r.Ok? ==> r.value.polFlux == Atof(line[175..181]) && r.value.polPA == Atof(line[182..187])
                      && r.value.polFluxErr == Atof(line[188..193])
                      && r.value.polPAErr == Atof(line[194..if |line| < 198 then |line| else 198])
    ensures r.Ok? ==> r.value.majorAxisLimit == line[130] && r.value.minorAxisLimit == line[138]
    ensures r.Ok? ==> (r.value.maj == Zero <==> line[130] == '<')
                      && (r.value.min == Zero <==> line[138] == '<')
    ensures r.Ok? && line[130] != '<' ==> r.value.maj == r.value.majorAxis == Atof(line[132..137])
    ensures r.Ok? && line[138] != '<' ==> r.value.min == r.value.minorAxis == Atof(line[140..145])
    ensures r.Ok? ==> r.value.alpha == Zero && r.value.beta == Zero
    ensures r.Ok? ==> r.value.flux == Thousandth(line[113..121]) && r.value.pa == r.value.paInput
  {
    if |line| < MinLineLength then
      assert SubstrStarts[|SubstrStarts| - 1] > |line|;
      Err(OutOfRangeMsg(FirstStartBeyond(SubstrStarts, |line|), |line|))
    else
      ShortAtoiDefined(line[30..38]);
      ShortAtoiDefined(line[170..174]);
      var raString := Substr(line, 78, 11);
      var decString := Substr(line, 90, 11);
      var name := Substr(line, 63, 14);
      var majorAxis := Atof(Substr(line, 132, 5));
      var minorAxis := Atof(Substr(line, 140, 5));
      var paInput := Atof(Substr(line, 146, 5));
      Ok(NvssSource(
        line,
        Atof(Substr(line, 0, 9)), Atof(Substr(line, 9, 10)), Atof(Substr(line, 19, 10)),
        Atoi(Substr(line, 30, 8)), Substr(line, 38, 8),
        Atof(Substr(line, 47, 7)), Atof(Substr(line, 55, 7)), name, raString, decString,
        Atof(Substr(line, 102, 5)), Atof(Substr(line, 107, 4)),
        Atof(Substr(line, 113, 8)), Atof(Substr(line, 122, 7)),
        line[130], majorAxis, line[138], minorAxis,
        paInput, Atof(Substr(line, 152, 4)), Atof(Substr(line, 157, 4)), Atof(Substr(line, 161, 4)),
        Substr(line, 167, 2), Atoi(Substr(line, 170, 4)),
        Atof(Substr(line, 175, 6)), Atof(Substr(line, 182, 5)), Atof(Substr(line, 188, 5)),
        Atof(Substr(line, 194, 4)),
        Colons(raString), Colons(decString), name, Thousandth(Substr(line, 113, 8)),
        if line[130] == '<' then Zero else majorAxis,
        if line[138] == '<' then Zero else minorAxis,
        paInput, Zero, Zero))
  }

  /** `print`: the stored input line, then a newline. */
  function Print(c: NvssSource): (out: string)
    ensures |out| == |c.inputLine| + 1 && out[|out| - 1] == '\n'
    ensures out[..|c.inputLine|] == c.inputLine
  {
    c.inputLine + "\n"
  }

  /** Parsing a line and printing the component gives back the line and a newline. */
  lemma PrintOfDefine(line: string)
    requires |line| >= MinLineLength
    ensures Define(line).Ok? && Print(Define(line).value) == line + "\n"
  {
  }

  /** Colon-separated RA/Dec text can be turned back into the catalogue's blank-separated form. */
  lemma {:induction false} BlanksOfColons(s: string)
    requires ':' !in s
    ensures Blanks(Colons(s)) == s
  {
    if s != [] {
      BlanksOfColons(s[1..]);
    }
  }

  /** Writing `text` over the columns starting at `pos`. */
  function Overwrite(line: string, pos: nat, text: string): (r: string)
    requires pos + |text| <= |line|
    ensures |r| == |line| && r[pos..pos + |text|] == text
    ensures forall i :: 0 <= i < |line| && !(pos <= i < pos + |text|) ==> r[i] == line[i]
  {
    line[..pos] + text + line[pos + |text|..]
  }

  /**
   * The catalogue name written into columns 63-76 of any full-length line is
   * the component's name and ID; the RA string in 78-88 comes back with ':'
   * separators, which `Blanks` undoes.
   */
  lemma NameAndRaRoundTrip(line: string, name: string, ra: string)
    requires |line| >= MinLineLength && |name| == 14 && |ra| == 11 && ':' !in ra
    ensures var l := Overwrite(Overwrite(line, 63, name), 78, ra);
            Define(l).Ok? && Define(l).value.id == name && Blanks(Define(l).value.ra) == ra
  {
    var l1 := Overwrite(line, 63, name);
    var l := Overwrite(l1, 78, ra);
    assert l[63..77] == name by {
      assert forall i :: 63 <= i < 77 ==> l[i] == l1[i] == name[i - 63];
    }
    BlanksOfColons(ra);
  }
}
