// Polarisation frames: the casacore Stokes types, their text form, the
// canonical Stokes, linear and circular frames with the index of each
// product inside its frame, and the frame check a `PolConverter` makes
// when it is built. The conversion matrices (floating point) are not
// modelled; which products an output depends on is.

module PolConverter {
  import opened Common

  /** `casacore::Stokes::StokesTypes` restricted to the correlation products and Stokes parameters. */
  datatype Stokes =
    | I | Q | U | V
    | RR | RL | LR | LL
    | XX | XY | YX | YY
    | RX | RY | LX | LY | XR | XL | YR | YL

  /** The enumeration value casacore gives each type. */
  function Code(p: Stokes): nat
  {
    match p
    case I => 1 case Q => 2 case U => 3 case V => 4
    case RR => 5 case RL => 6 case LR => 7 case LL => 8
    case XX => 9 case XY => 10 case YX => 11 case YY => 12
    case RX => 13 case RY => 14 case LX => 15 case LY => 16
    case XR => 17 case XL => 18 case YR => 19 case YL => 20
  }

  /** Distinct types have distinct enumeration values. */
  lemma CodeInjective(p: Stokes, q: Stokes)
    requires Code(p) == Code(q)
    ensures p == q
  {
  }

  /** The members of each frame are consecutive in the enumeration, in frame order. */
  lemma EnumOrder()
    ensures Code(Q) - Code(I) == 1 && Code(U) - Code(I) == 2 && Code(V) - Code(I) == 3
    ensures Code(XY) - Code(XX) == 1 && Code(YX) - Code(XX) == 2 && Code(YY) - Code(XX) == 3
    ensures Code(RL) - Code(RR) == 1 && Code(LR) - Code(RR) == 2 && Code(LL) - Code(RR) == 3
    ensures Code(RY) - Code(RX) == 1 && Code(LX) - Code(RX) == 2 && Code(LY) - Code(RX) == 3
    ensures Code(XR) - Code(RX) == 4 && Code(XL) - Code(RX) == 5 && Code(YR) - Code(RX) == 6 && Code(YL) - Code(RX) == 7
  {
  }

  // ------------------------------------------------------------- text form

  /** The upper-case name `toString` gives a type. */
  function Name(p: Stokes): (s: string)
    ensures 1 <= |s| <= 2
  {
    match p
    case I => "I" case Q => "Q" case U => "U" case V => "V"
    case RR => "RR" case RL => "RL" case LR => "LR" case LL => "LL"
    case XX => "XX" case XY => "XY" case YX => "YX" case YY => "YY"
    case RX => "RX" case RY => "RY" case LX => "LX" case LY => "LY"
    case XR => "XR" case XL => "XL" case YR => "YR" case YL => "YL"
  }

  /** `toString(frame)`: the name of every element, in order. */
  function ToStrings(frame: seq<Stokes>): (r: seq<string>)
    ensures |r| == |frame| && forall k :: 0 <= k < |frame| ==> r[k] == Name(frame[k])
  {
    if |frame| == 0 then [] else [Name(frame[0])] + ToStrings(frame[1..])
  }

  predicate IsSeparator(c: char)
  {
    c == ',' || c == ' '
  }

  function UpperChar(c: char): char
  {
    if 'a' <= c <= 'z' then (c as int - 32) as char else c
  }

  /** What one character contributes to the normal form: nothing for a separator, else its upper case. */
  function Piece(c: char): string
  {
    if IsSeparator(c) then [] else [UpperChar(c)]
  }

  /** The normal form of the text from position `i` on. */
  function NormaliseFrom(s: string, i: nat): (r: string)
    decreases |s| - i
  {
    if i >= |s| then [] else Piece(s[i]) + NormaliseFrom(s, i + 1)
  }

  /** The text with separators dropped and letters in upper case. */
  function Normalise(s: string): string
  {
    NormaliseFrom(s, 0)
  }

  lemma {:induction false} NormaliseFromTail(s: string, i: nat)
    requires 1 <= i <= |s|
    ensures NormaliseFrom(s, i) == NormaliseFrom(s[1..], i - 1)
    decreases |s| - i
  {
    if i < |s| {
      NormaliseFromTail(s, i + 1);
      assert s[1..][i - 1] == s[i];
      assert NormaliseFrom(s[1..], i - 1) == Piece(s[i]) + NormaliseFrom(s[1..], i);
    }
  }

  /** The normal form is built character by character, from the front. */
  lemma NormaliseCons(s: string)
    requires |s| > 0
    ensures Normalise(s) == Piece(s[0]) + Normalise(s[1..])
  {
    NormaliseFromTail(s, 1);
  }

  /** Normalising text in two parts normalises each part. */
  lemma {:induction false} NormaliseAppend(a: string, b: string)
    ensures Normalise(a + b) == Normalise(a) + Normalise(b)
  {
    if |a| > 0 {
      NormaliseCons(a + b);
      assert (a + b)[1..] == a[1..] + b;
      NormaliseAppend(a[1..], b);
      NormaliseCons(a);
    } else {
      assert a + b == b;
    }
  }

  /** Letters that stand alone, and letters that begin and end a two-letter product. */
  predicate IsSingle(c: char) { c == 'I' || c == 'Q' || c == 'U' || c == 'V' }
  predicate IsHand(c: char) { c == 'X' || c == 'Y' || c == 'R' || c == 'L' }

  function Single(c: char): Stokes
    requires IsSingle(c)
  {
    if c == 'I' then I else if c == 'Q' then Q else if c == 'U' then U else V
  }

  function Pair(a: char, b: char): Stokes
    requires IsHand(a) && IsHand(b)
  {
    match (a, b)
    case ('R', 'R') => RR case ('R', 'L') => RL case ('L', 'R') => LR case ('L', 'L') => LL
    case ('X', 'X') => XX case ('X', 'Y') => XY case ('Y', 'X') => YX case ('Y', 'Y') => YY
    case ('R', 'X') => RX case ('R', 'Y') => RY case ('L', 'X') => LX case ('L', 'Y') => LY
    case ('X', 'R') => XR case ('X', 'L') => XL case ('Y', 'R') => YR case ('Y', 'L') => YL
    case _ => XX
  }

  /** Splitting normalised text into names: a single letter, or two hand letters. */
  function Tokens(s: string): (r: Option<seq<Stokes>>)
  {
    if |s| == 0 then Some([])
    else if IsSingle(s[0]) then
      match Tokens(s[1..])
      case None => None
      case Some(rest) => Some([Single(s[0])] + rest)
    else if |s| >= 2 && IsHand(s[0]) && IsHand(s[1]) then
      match Tokens(s[2..])
      case None => None
      case Some(rest) => Some([Pair(s[0], s[1])] + rest)
    else None
  }

  /** `fromString`: ignores separators and case; `None` for text that names no frame. */
  function FromString(s: string): (r: Option<seq<Stokes>>)
    ensures r.Some? ==> Joined(r.value) == Normalise(s)
    ensures r.None? <==> forall frame :: Joined(frame) != Normalise(s)
  {
    var r := Tokens(Normalise(s));
    TokensSound(Normalise(s));
    assert r.None? ==> forall frame :: Joined(frame) != Normalise(s) by {
      forall frame | Joined(frame) == Normalise(s) ensures r.Some? {
        TokensOfJoined(frame);
      }
    }
    r
  }

  /** The names of a frame, run together. */
  function Joined(frame: seq<Stokes>): string
  {
    if |frame| == 0 then [] else Name(frame[0]) + Joined(frame[1..])
  }

  lemma NameParts(p: Stokes)
    ensures var n := Name(p);
            (|n| == 1 && IsSingle(n[0]) && Single(n[0]) == p) || (|n| == 2 && IsHand(n[0]) && IsHand(n[1]) && Pair(n[0], n[1]) == p)
  {
  }

  /** Names run together split back into the frame: no name is a prefix that leads the split astray. */
  lemma {:induction false} TokensOfJoined(frame: seq<Stokes>)
    ensures Tokens(Joined(frame)) == Some(frame)
  {
    if |frame| > 0 {
      var n, rest := Name(frame[0]), Joined(frame[1..]);
      var s := n + rest;
      NameParts(frame[0]);
      TokensOfJoined(frame[1..]);
      assert s[|n|..] == rest;
      assert frame == [frame[0]] + frame[1..];
    }
  }

  /** Whatever the split finds names the text back: its names, run together, are the text. */
  lemma {:induction false} TokensSound(s: string)
    ensures Tokens(s).Some? ==> Joined(Tokens(s).value) == s
  {
    if |s| > 0 && Tokens(s).Some? {
      var f := Tokens(s).value;
      assert Joined(f) == Name(f[0]) + Joined(f[1..]);
      if IsSingle(s[0]) {
        TokensSound(s[1..]);
        SingleName(s[0]);
        assert s == [s[0]] + s[1..];
      } else {
        TokensSound(s[2..]);
        PairName(s[0], s[1]);
        assert s == [s[0], s[1]] + s[2..];
      }
    }
  }

  lemma SingleName(c: char)
    requires IsSingle(c)
    ensures Name(Single(c)) == [c]
  {
  }

  lemma PairName(a: char, b: char)
    requires IsHand(a) && IsHand(b)
    ensures Name(Pair(a, b)) == [a, b]
  {
  }

  /** Upper-case letters are their own normal form. */
  lemma {:induction false} NormaliseUpper(s: string)
    requires forall k :: 0 <= k < |s| ==> 'A' <= s[k] <= 'Z'
    ensures Normalise(s) == s
  {
    if |s| > 0 {
      NormaliseCons(s);
      NormaliseUpper(s[1..]);
    }
  }

  lemma {:induction false} NormaliseJoined(frame: seq<Stokes>)
    ensures Normalise(Joined(frame)) == Joined(frame)
  {
    if |frame| > 0 {
      var n := Name(frame[0]);
      NormaliseJoined(frame[1..]);
      NameParts(frame[0]);
      NormaliseUpper(n);
      NormaliseAppend(n, Joined(frame[1..]));
    }
  }

  /** `fromString` inverts `toString`: the names of any frame, joined, parse back to that frame. */
  lemma FromStringOfNames(frame: seq<Stokes>)
    ensures FromString(Joined(frame)) == Some(frame)
  {
    NormaliseJoined(frame);
    TokensOfJoined(frame);
  }

  /** Normalising twice changes nothing more. */
  lemma {:induction false} NormaliseIdempotent(s: string)
    ensures Normalise(Normalise(s)) == Normalise(s)
  {
    if |s| > 0 {
      NormaliseIdempotent(s[1..]);
      NormaliseCons(s);
      if !IsSeparator(s[0]) {
        var n := Normalise(s);
        NormaliseCons(n);
        assert n[0] == UpperChar(s[0]) && Piece(n[0]) == [n[0]];
        assert n[1..] == Normalise(s[1..]);
      } else {
        assert Normalise(s) == Normalise(s[1..]);
      }
    }
  }

  /** Separators and case make no difference: text parses as its normal form does. */
  lemma SeparatorsAndCaseIgnored(s: string)
    ensures FromString(s) == FromString(Normalise(s))
  {
    NormaliseIdempotent(s);
  }

  /** The frame XY, I, Q, RR is named "XY", "I", "Q", "RR". */
  lemma ExampleNames()
    ensures ToStrings([XY, I, Q, RR]) == ["XY", "I", "Q", "RR"]
  {
    var r := ToStrings([XY, I, Q, RR]);
    assert r[0] == "XY" && r[1] == "I" && r[2] == "Q" && r[3] == "RR";
  }

  /** Text whose normal form is a frame's joined names parses as that frame. */
  lemma ParsesAs(s: string, t: string, frame: seq<Stokes>)
    requires Normalise(s) == t && Joined(frame) == t
    ensures FromString(s) == Some(frame)
  {
    NormaliseJoined(frame);
    TokensOfJoined(frame);
  }

  // Normal forms of the test strings, piece by piece.

  lemma NormalXYISpaced()
    ensures Normalise("xy i ") == "XYI"
  {
  }

  lemma NormalQRR()
    ensures Normalise("q RR") == "QRR"
  {
  }

  lemma NormalXXYYComma()
    ensures Normalise("xx,yy,") == "XXYY"
  {
  }

  lemma NormalXYYXComma()
    ensures Normalise("xy,yx") == "XYYX"
  {
  }

  lemma NormalXXYY()
    ensures Normalise("xxyy") == "XXYY"
  {
  }

  lemma NormalXYYX()
    ensures Normalise("xyyx") == "XYYX"
  {
  }

  lemma NormalXYI()
    ensures Normalise("xy i") == "XYI"
  {
  }

  lemma NormalQU()
    ensures Normalise(" q u") == "QU"
  {
  }

  lemma NormalFormFrame()
    ensures Normalise("xy i q RR") == "XYIQRR"
  {
    SplitFrame();
    NormaliseAppend("xy i ", "q RR");
    NormalXYISpaced();
    NormalQRR();
  }

  lemma SplitFrame()
    ensures "xy i q RR" == "xy i " + "q RR" && "XYIQRR" == "XYI" + "QRR"
  {
  }

  lemma JoinedFrame()
    ensures Joined([XY, I, Q, RR]) == "XYIQRR"
  {
  }

  lemma NormalFormCommaLinear()
    ensures Normalise("xx,yy,xy,yx") == "XXYYXYYX"
  {
    SplitCommaLinear();
    NormaliseAppend("xx,yy,", "xy,yx");
    NormalXXYYComma();
    NormalXYYXComma();
  }

  lemma SplitCommaLinear()
    ensures "xx,yy,xy,yx" == "xx,yy," + "xy,yx" && "XXYYXYYX" == "XXYY" + "XYYX"
  {
  }

  lemma NormalFormRunLinear()
    ensures Normalise("xxyyxyyx") == "XXYYXYYX"
  {
    SplitRunLinear();
    NormaliseAppend("xxyy", "xyyx");
    NormalXXYY();
    NormalXYYX();
  }

  lemma SplitRunLinear()
    ensures "xxyyxyyx" == "xxyy" + "xyyx" && "XXYYXYYX" == "XXYY" + "XYYX"
  {
  }

  lemma JoinedLinear()
    ensures Joined([XX, YY, XY, YX]) == "XXYYXYYX"
  {
  }

  lemma NormalFormCommaMixed()
    ensures Normalise("xyi,qu") == "XYIQU"
  {
  }

  lemma JoinedMixed()
    ensures Joined([XY, I, Q, U]) == "XYIQU"
  {
  }

  lemma NormalFormSpacedMixed()
    ensures Normalise("xy i q u") == "XYIQU"
  {
    SplitSpacedMixed();
    NormaliseAppend("xy i", " q u");
    NormalXYI();
    NormalQU();
  }

  lemma SplitSpacedMixed()
    ensures "xy i q u" == "xy i" + " q u" && "XYIQU" == "XYI" + "QU"
  {
  }

  /** "xy i q RR" is the frame XY, I, Q, RR. */
  lemma ExampleFrame()
    ensures FromString("xy i q RR") == Some([XY, I, Q, RR])
  {
    NormalFormFrame();
    JoinedFrame();
    ParsesAs("xy i q RR", "XYIQRR", [XY, I, Q, RR]);
  }

  /** "xx,yy,xy,yx" is the frame XX, YY, XY, YX ... */
  lemma ExampleCommaLinear()
    ensures FromString("xx,yy,xy,yx") == Some([XX, YY, XY, YX])
  {
    NormalFormCommaLinear();
    JoinedLinear();
    ParsesAs("xx,yy,xy,yx", "XXYYXYYX", [XX, YY, XY, YX]);
  }

  /** ... and so is "xxyyxyyx", written without separators. */
  lemma ExampleRunLinear()
    ensures FromString("xxyyxyyx") == Some([XX, YY, XY, YX])
  {
    NormalFormRunLinear();
    JoinedLinear();
    ParsesAs("xxyyxyyx", "XXYYXYYX", [XX, YY, XY, YX]);
  }

  /** "xyi,qu" is the frame XY, I, Q, U ... */
  lemma ExampleCommaMixed()
    ensures FromString("xyi,qu") == Some([XY, I, Q, U])
  {
    NormalFormCommaMixed();
    JoinedMixed();
    ParsesAs("xyi,qu", "XYIQU", [XY, I, Q, U]);
  }

  /** ... and so is "xy i q u". */
  lemma ExampleSpacedMixed()
    ensures FromString("xy i q u") == Some([XY, I, Q, U])
  {
    NormalFormSpacedMixed();
    JoinedMixed();
    ParsesAs("xy i q u", "XYIQU", [XY, I, Q, U]);
  }

  // ------------------------------------------------------- canonical frames

  const CanonicStokes: seq<Stokes> := [I, Q, U, V]
  const CanonicLinear: seq<Stokes> := [XX, XY, YX, YY]
  const CanonicCircular: seq<Stokes> := [RR, RL, LR, LL]

  predicate IsStokesType(p: Stokes) { p in {I, Q, U, V} }
  predicate IsLinearType(p: Stokes) { p in {XX, XY, YX, YY} }
  predicate IsCircularType(p: Stokes) { p in {RR, RL, LR, LL} }

  predicate IsStokes(frame: seq<Stokes>) { forall k :: 0 <= k < |frame| ==> IsStokesType(frame[k]) }
  predicate IsLinear(frame: seq<Stokes>) { forall k :: 0 <= k < |frame| ==> IsLinearType(frame[k]) }
  predicate IsCircular(frame: seq<Stokes>) { forall k :: 0 <= k < |frame| ==> IsCircularType(frame[k]) }

  /** `getIndex`: the position of a product within the canonical frame it belongs to, from the enumeration values; mixed products belong to none. */
  function GetIndex(p: Stokes): (r: Option<nat>)
    ensures r.Some? <==> IsStokesType(p) || IsLinearType(p) || IsCircularType(p)
    ensures r.Some? ==> r.value < 4
  {
    if IsStokesType(p) then Some(Code(p) - Code(I))
    else if IsLinearType(p) then Some(Code(p) - Code(XX))
    else if IsCircularType(p) then Some(Code(p) - Code(RR))
    else None
  }

  /** Each canonical frame has four elements, is recognised by its own predicate, and element `k` has index `k`. */
  lemma CanonicOrder(k: nat)
    requires k < 4
    ensures |CanonicStokes| == 4 && |CanonicLinear| == 4 && |CanonicCircular| == 4
    ensures IsStokes(CanonicStokes) && IsLinear(CanonicLinear) && IsCircular(CanonicCircular)
    ensures GetIndex(CanonicStokes[k]) == Some(k) && GetIndex(CanonicLinear[k]) == Some(k) && GetIndex(CanonicCircular[k]) == Some(k)
  {
  }

  /** `GetIndex` and the canonical frames are inverse: a frame's element at a product's index is that product. */
  lemma IndexSelectsProduct(p: Stokes)
    requires GetIndex(p).Some?
    ensures var k := GetIndex(p).value;
            (IsStokesType(p) ==> CanonicStokes[k] == p)
            && (IsLinearType(p) ==> CanonicLinear[k] == p)
            && (IsCircularType(p) ==> CanonicCircular[k] == p)
  {
  }

  // ------------------------------------------------------------- converter

  /** The Stokes parameters a product is made of (`XX = (I + Q)/2` and so on). */
  function StokesOf(p: Stokes): set<Stokes>
  {
    match p
    case XX => {I, Q} case YY => {I, Q} case XY => {U, V} case YX => {U, V}
    case RR => {I, V} case LL => {I, V} case RL => {Q, U} case LR => {Q, U}
    case _ => {p}
  }

  /** Whether the inputs determine Stokes parameter `s`: given directly, or both products of a linear or circular pair that carry it. */
  predicate Determines(ins: seq<Stokes>, s: Stokes)
  {
    s in ins
    || (s in {I, Q} && XX in ins && YY in ins)
    || (s in {U, V} && XY in ins && YX in ins)
    || (s in {I, V} && RR in ins && LL in ins)
    || (s in {Q, U} && RL in ins && LR in ins)
  }

  /** An output is available when it is an input or every Stokes parameter it is made of is determined. */
  predicate Available(ins: seq<Stokes>, p: Stokes)
  {
    p in ins || forall s :: s in StokesOf(p) ==> Determines(ins, s)
  }

  /** A converter between two frames. */
  datatype Converter = Converter(input: seq<Stokes>, output: seq<Stokes>)

  function NInputDim(c: Converter): nat { |c.input| }
  function NOutputDim(c: Converter): nat { |c.output| }

  datatype Built = Made(conv: Converter) | MissingPolarisation(output: Stokes)

  /** The first output product the inputs cannot provide. */
  function FirstUnavailable(ins: seq<Stokes>, outs: seq<Stokes>): (r: Option<Stokes>)
    ensures r.None? <==> forall k :: 0 <= k < |outs| ==> Available(ins, outs[k])
    ensures r.Some? ==> r.value in outs && !Available(ins, r.value)
  {
    if |outs| == 0 then None
    else if !Available(ins, outs[0]) then Some(outs[0])
    else
      var rest := FirstUnavailable(ins, outs[1..]);
      assert forall k :: 1 <= k < |outs| ==> outs[k] == outs[1..][k - 1];
      rest
  }

  /**
   * `PolConverter(in, out, checkAllOutputs)`: when missing polarisations are
   * not allowed, every output product must be available from the inputs;
   * otherwise the converter is built with those outputs left at zero.
   */
  function MakeConverter(ins: seq<Stokes>, outs: seq<Stokes>, checkAllOutputs: bool): (r: Built)
    ensures r.Made? ==> NInputDim(r.conv) == |ins| && NOutputDim(r.conv) == |outs|
    ensures r.MissingPolarisation? <==> checkAllOutputs && exists k :: 0 <= k < |outs| && !Available(ins, outs[k])
    ensures r.MissingPolarisation? ==> r.output in outs && !Available(ins, r.output)
  {
    if !checkAllOutputs then Made(Converter(ins, outs))
    else match FirstUnavailable(ins, outs)
      case None => Made(Converter(ins, outs))
      case Some(p) => MissingPolarisation(p)
  }

  /** The output products an input product feeds (`getSparseTransform`'s keys): those made of it. */
  function Feeds(p: Stokes, outs: seq<Stokes>): set<Stokes>
  {
    set q | q in outs && (q == p || p in StokesOf(q))
  }

  /** I and Q alone cannot make the cross-hand products of a linear frame, so the check refuses them; without the check the converter is built with the frames' lengths. */
  lemma StokesIQToLinear()
    ensures MakeConverter([I, Q], CanonicLinear, true) == MissingPolarisation(XY)
    ensures MakeConverter([I, Q], CanonicLinear, false) == Made(Converter([I, Q], CanonicLinear))
  {
    assert Available([I, Q], XX) && Available([I, Q], YY);
    assert !Available([I, Q], XY) by {
      assert U in StokesOf(XY) && !Determines([I, Q], U);
    }
    assert FirstUnavailable([I, Q], CanonicLinear[1..]) == Some(XY);
  }

  /** A linear frame provides I and Q; XX and YY provide I; I alone builds XX, YY when missing outputs are allowed. */
  lemma ExampleConverters()
    ensures MakeConverter(CanonicLinear, [I, Q], true) == Made(Converter(CanonicLinear, [I, Q]))
    ensures MakeConverter([I], [XX, YY], false) == Made(Converter([I], [XX, YY]))
    ensures MakeConverter([XX, YY], [I], true) == Made(Converter([XX, YY], [I]))
  {
    assert Determines(CanonicLinear, I) && Determines(CanonicLinear, Q);
    assert Available(CanonicLinear, I) && Available(CanonicLinear, Q);
    assert Determines([XX, YY], I) && Available([XX, YY], I);
  }

  /** I feeds exactly XX and YY of a linear frame. */
  lemma StokesIFeedsParallelHands()
    ensures Feeds(I, CanonicLinear) == {XX, YY}
  {
    assert I in StokesOf(XX) && I in StokesOf(YY);
    assert I !in StokesOf(XY) && I !in StokesOf(YX);
  }

  /** The linear products that carry Stokes parameter `s`: the parallel hands for I and Q, the cross hands for U and V. */
  function LinearProductsOf(s: Stokes): set<Stokes>
    requires IsStokesType(s)
  {
    if s == I || s == Q then {XX, YY} else {XY, YX}
  }

  /** The circular products that carry Stokes parameter `s`: the parallel hands for I and V, the cross hands for Q and U. */
  function CircularProductsOf(s: Stokes): set<Stokes>
    requires IsStokesType(s)
  {
    if s == I || s == V then {RR, LL} else {RL, LR}
  }

  /** Every Stokes parameter feeds exactly its linear products in a linear frame, its circular products in a circular frame, and itself in a Stokes frame. */
  lemma StokesFeedsItsProducts(s: Stokes)
    requires IsStokesType(s)
    ensures Feeds(s, CanonicLinear) == LinearProductsOf(s)
    ensures Feeds(s, CanonicCircular) == CircularProductsOf(s)
    ensures Feeds(s, CanonicStokes) == {s}
  {
    LinearFeeds(s);
    CircularFeeds(s);
    forall q ensures q in Feeds(s, CanonicStokes) <==> q == s {}
  }

  lemma LinearFeeds(s: Stokes)
    requires IsStokesType(s)
    ensures Feeds(s, CanonicLinear) == LinearProductsOf(s)
  {
    forall q ensures q in Feeds(s, CanonicLinear) <==> q in LinearProductsOf(s) {}
  }

  lemma CircularFeeds(s: Stokes)
    requires IsStokesType(s)
    ensures Feeds(s, CanonicCircular) == CircularProductsOf(s)
  {
    forall q ensures q in Feeds(s, CanonicCircular) <==> q in CircularProductsOf(s) {}
  }

  /** Every canonical frame determines all four Stokes parameters. */
  lemma CanonicDeterminesStokes(a: seq<Stokes>, s: Stokes)
    requires a == CanonicStokes || a == CanonicLinear || a == CanonicCircular
    requires IsStokesType(s)
    ensures Determines(a, s)
  {
    if a == CanonicLinear {
      assert XX in a && YY in a && XY in a && YX in a;
    } else if a == CanonicCircular {
      assert RR in a && LL in a && RL in a && LR in a;
    } else {
      assert s in a;
    }
  }

  /** A complete canonical frame provides every Stokes parameter and every product of a canonical frame. */
  lemma AvailableFromCanonic(a: seq<Stokes>, p: Stokes)
    requires a == CanonicStokes || a == CanonicLinear || a == CanonicCircular
    requires IsStokesType(p) || IsLinearType(p) || IsCircularType(p)
    ensures Available(a, p)
  {
    forall s | s in StokesOf(p) ensures Determines(a, s) {
      CanonicDeterminesStokes(a, s);
    }
  }

  /** A complete canonical frame converts to any other canonical frame with no output missing. */
  lemma CanonicFramesConvert(a: seq<Stokes>, b: seq<Stokes>)
    requires a == CanonicStokes || a == CanonicLinear || a == CanonicCircular
    requires b == CanonicStokes || b == CanonicLinear || b == CanonicCircular
    ensures MakeConverter(a, b, true) == Made(Converter(a, b))
  {
    forall k | 0 <= k < |b| ensures Available(a, b[k]) {
      CanonicMember(b, k);
      AvailableFromCanonic(a, b[k]);
    }
    assert !MakeConverter(a, b, true).MissingPolarisation?;
  }

  lemma CanonicMember(b: seq<Stokes>, k: nat)
    requires b == CanonicStokes || b == CanonicLinear || b == CanonicCircular
    requires k < |b|
    ensures IsStokesType(b[k]) || IsLinearType(b[k]) || IsCircularType(b[k])
  {
  }
}
