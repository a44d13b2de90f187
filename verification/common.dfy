// Shared vocabulary for the model: optional values, results with an error
// message (the C++ AskapError / Python exception paths), and the handful of
// string operations the modelled code takes from its C and Python runtimes.

module Common {

  datatype Option<T> = None | Some(value: T)

  /** The outcome of an operation that can raise: `Err` carries the message. */
  datatype Result<T> = Ok(value: T) | Err(error: string)

  /** Each item's result in order; the first error stops the walk and is the result. */
  function Collect<A, T>(f: A -> Result<T>, items: seq<A>): Result<seq<T>>
  {
    if items == [] then Ok([])
    else
      match f(items[0])
      case Err(m) => Err(m)
      case Ok(v) =>
        match Collect(f, items[1..])
        case Err(m) => Err(m)
        case Ok(rest) => Ok([v] + rest)
  }

  /** The walk succeeds exactly when every item does, and then holds each item's value at its position. */
  lemma {:induction false} CollectMeaning<A, T>(f: A -> Result<T>, items: seq<A>)
    ensures var r := Collect(f, items);
            (r.Ok? <==> forall i :: 0 <= i < |items| ==> f(items[i]).Ok?)
            && (r.Ok? ==> |r.value| == |items| && forall i :: 0 <= i < |items| ==> f(items[i]) == Ok(r.value[i]))
  {
    if items != [] {
      CollectMeaning(f, items[1..]);
      assert forall i :: 1 <= i < |items| ==> items[i] == items[1..][i - 1];
    }
  }

  predicate StartsWith(s: string, prefix: string)
  {
    |prefix| <= |s| && s[..|prefix|] == prefix
  }

  /** The first position of `c` in `s`, as `std::string::find` reports it. */
  function IndexOf(s: string, c: char): (r: Option<nat>)
    ensures r.None? <==> c !in s
    ensures r.Some? ==> r.value < |s| && s[r.value] == c && c !in s[..r.value]
  {
    if |s| == 0 then None
    else if s[0] == c then Some(0)
    else match IndexOf(s[1..], c)
      case None => None
      case Some(k) =>
        assert s[1..][..k] == s[1..k + 1];
        assert s[..k + 1] == [s[0]] + s[1..k + 1];
        Some(k + 1)
  }

  /** A position holding the first `c` is what `IndexOf` reports. */
  lemma IndexOfAt(s: string, c: char, k: nat)
    requires k < |s| && s[k] == c && c !in s[..k]
    ensures IndexOf(s, c) == Some(k)
  {
    var r := IndexOf(s, c);
    assert forall j :: 0 <= j < k ==> s[..k][j] == s[j];
    assert forall j :: 0 <= j < r.value ==> s[..r.value][j] == s[j];
  }

  /** `t` occurs somewhere in `s`: `std::string::find` does not report `npos`. */
  predicate Contains(s: string, t: string)
  {
    StartsWith(s, t) || (|s| > 0 && Contains(s[1..], t))
  }

  /** An occurrence of `t` at any position makes `s` contain it. */
  lemma {:induction false} ContainsAt(s: string, t: string, i: nat)
    requires i <= |s| && StartsWith(s[i..], t)
    ensures Contains(s, t)
  {
    if i > 0 {
      assert s[1..][i - 1..] == s[i..];
      ContainsAt(s[1..], t, i - 1);
    }
  }

  /** A text containing `t` has an occurrence of it. */
  lemma {:induction false} ContainsWitness(s: string, t: string) returns (i: nat)
    requires Contains(s, t)
    ensures i <= |s| && StartsWith(s[i..], t)
  {
    if StartsWith(s, t) {
      i := 0;
    } else {
      var j := ContainsWitness(s[1..], t);
      i := j + 1;
      assert s[1..][j..] == s[i..];
    }
  }

  /** A text containing `u + t` contains `t`. */
  lemma ContainsOfPart(s: string, u: string, t: string)
    requires Contains(s, u + t)
    ensures Contains(s, t)
  {
    var i := ContainsWitness(s, u + t);
    assert s[i..][..|u| + |t|] == u + t;
    assert s[i + |u|..][..|t|] == (u + t)[|u|..];
    ContainsAt(s, t, i + |u|);
  }

  /** A text shorter than `t` does not contain it. */
  lemma {:induction false} ShorterLacks(s: string, t: string)
    requires |s| < |t|
    ensures !Contains(s, t)
  {
    if |s| > 0 {
      ShorterLacks(s[1..], t);
    }
  }

  // ---------------------------------------------------------- machine words

  const TwoTo32: nat := 0x1_0000_0000

  /** The values a C++ `int` (32 bits) can hold. */
  predicate IsInt32(x: int) { -0x8000_0000 <= x < 0x8000_0000 }

  /** `uInt` arithmetic: the value modulo 2^32. */
  function U32(x: int): (r: nat)
    ensures r < TwoTo32
    ensures 0 <= x < TwoTo32 ==> r == x
  {
    x % TwoTo32
  }

  /** Reading a 32-bit pattern as a signed `int` (two's complement). */
  function AsInt32(x: nat): (r: int)
    requires x < TwoTo32
    ensures IsInt32(r) && U32(r) == x
    ensures x < 0x8000_0000 ==> r == x
  {
    if x < 0x8000_0000 then x else x - TwoTo32
  }

  function Max(a: nat, b: nat): nat { if a >= b then a else b }

  function Min(a: nat, b: nat): nat { if a <= b then a else b }

  // ---------------------------------------------------------------- digits

  predicate IsDigit(c: char) { '0' <= c <= '9' }

  predicate AllDigits(s: string) { forall i :: 0 <= i < |s| ==> IsDigit(s[i]) }

  function DigitChar(d: nat): (c: char)
    requires d < 10
    ensures IsDigit(c)
  {
    (('0' as int) + d) as char
  }

  function DigitValue(c: char): (d: nat)
    requires IsDigit(c)
    ensures d < 10
  {
    c as int - '0' as int
  }

  /** Decimal value of a string of digits, most significant first. */
  function DigitsValue(s: string): nat
    requires AllDigits(s)
  {
    if |s| == 0 then 0 else DigitsValue(s[..|s| - 1]) * 10 + DigitValue(s[|s| - 1])
  }

  /** `operator<<` of a non-negative integer: shortest decimal form. */
  function NatToString(n: nat): (s: string)
    ensures |s| >= 1 && AllDigits(s)
    ensures s[0] == '0' ==> n == 0
  {
    if n < 10 then [DigitChar(n)] else NatToString(n / 10) + [DigitChar(n % 10)]
  }

  /** `operator<<` of a signed integer. */
  function IntToString(i: int): (s: string)
    ensures |s| >= 1
    ensures s[0] == '-' <==> i < 0
  {
    if i < 0 then "-" + NatToString(-i) else NatToString(i)
  }

  lemma {:induction false} DigitsValueOfNatToString(n: nat)
    ensures DigitsValue(NatToString(n)) == n
  {
    if n >= 10 {
      var s := NatToString(n / 10);
      var t := s + [DigitChar(n % 10)];
      assert t[..|t| - 1] == s;
      DigitsValueOfNatToString(n / 10);
    }
  }

  /** Distinct numbers print differently. */
  lemma NatToStringInjective(a: nat, b: nat)
    requires NatToString(a) == NatToString(b)
    ensures a == b
  {
    DigitsValueOfNatToString(a);
    DigitsValueOfNatToString(b);
  }

  // ------------------------------------------------------------- C's atoi

  /** `isspace` in the C locale. */
  predicate IsCSpace(c: char)
  {
    c == ' ' || (9 <= c as int <= 13)
  }

  function SkipCSpace(s: string): (r: string)
    ensures |r| <= |s| && r == s[|s| - |r|..]
    ensures |r| > 0 ==> !IsCSpace(r[0])
    ensures forall i :: 0 <= i < |s| - |r| ==> IsCSpace(s[i])
  {
    if |s| > 0 && IsCSpace(s[0]) then SkipCSpace(s[1..]) else s
  }

  /** The longest prefix of `s` made of digits. */
  function DigitPrefix(s: string): (r: string)
    ensures |r| <= |s| && r == s[..|r|] && AllDigits(r)
    ensures |r| < |s| ==> !IsDigit(s[|r|])
  {
    if |s| > 0 && IsDigit(s[0]) then [s[0]] + DigitPrefix(s[1..]) else []
  }

  /**
   * C `atoi`: leading white space, an optional sign, then as many digits as
   * follow; text that does not start like a number gives 0. The C result
   * is undefined once the value leaves `int`: this function gives the
   * mathematical value, and `AtoiDefined` says when C agrees with it.
   */
  function Atoi(s: string): int
  {
    var t := SkipCSpace(s);
    if |t| > 0 && t[0] == '-' then 0 - DigitsValue(DigitPrefix(t[1..]))
    else if |t| > 0 && t[0] == '+' then DigitsValue(DigitPrefix(t[1..]))
    else DigitsValue(DigitPrefix(t))
  }

  /** `atoi(s)` has a defined result: the value fits a 32-bit `int`. */
  predicate AtoiDefined(s: string)
  {
    IsInt32(Atoi(s))
  }

  function Pow10(n: nat): (r: nat)
    ensures r >= 1
  {
    if n == 0 then 1 else 10 * Pow10(n - 1)
  }

  /** A string of at most `n` digits is worth less than 10^n. */
  lemma {:induction false} DigitsValueBelow(s: string, n: nat)
    requires AllDigits(s) && |s| <= n
    ensures DigitsValue(s) < Pow10(n)
  {
    if |s| > 0 {
      var init := s[..|s| - 1];
      DigitsValueBelow(init, n - 1);
      assert DigitsValue(s) == DigitsValue(init) * 10 + DigitValue(s[|s| - 1]);
      assert DigitsValue(init) * 10 <= (Pow10(n - 1) - 1) * 10;
    }
  }

  /** Text of at most nine characters always has a defined `atoi`. */
  lemma ShortAtoiDefined(s: string)
    requires |s| <= 9
    ensures AtoiDefined(s)
  {
    var t := SkipCSpace(s);
    var u := if |t| > 0 && (t[0] == '-' || t[0] == '+') then t[1..] else t;
    DigitsValueBelow(DigitPrefix(u), 9);
    assert Pow10(9) == 1_000_000_000;
  }

  lemma AllDigitsPrefixIsWhole(s: string)
    requires AllDigits(s)
    ensures DigitPrefix(s) == s
  {
  }

  /**
   * Reading back a printed integer gives the integer, and C defines that
   * reading exactly when the integer fits an `int`.
   */
  lemma AtoiOfIntToString(i: int)
    ensures Atoi(IntToString(i)) == i
    ensures AtoiDefined(IntToString(i)) <==> IsInt32(i)
  {
    var n: nat := if i < 0 then -i else i;
    var d := NatToString(n);
    DigitsValueOfNatToString(n);
    AllDigitsPrefixIsWhole(d);
    if i < 0 {
      assert ("-" + d)[1..] == d;
    }
  }

  /** Text whose first non-blank character starts no number reads as 0. */
  lemma AtoiOfNonNumeric(s: string)
    requires var t := SkipCSpace(s); |t| == 0 || (!IsDigit(t[0]) && t[0] != '-' && t[0] != '+')
    ensures Atoi(s) == 0
  {
  }

  // -------------------------------------------------------- token replacing

  predicate HasPair(s: string, a: char, b: char)
  {
    exists i :: 0 <= i < |s| - 1 && s[i] == a && s[i + 1] == b
  }

  /**
   * Replace every occurrence of the two-character token `ab`, scanning left
   * to right without overlaps, as a global regular-expression substitution
   * of a literal does.
   */
  function ReplacePair(s: string, a: char, b: char, rep: string): (r: string)
    decreases |s|
  {
    if |s| < 2 then s
    else if s[0] == a && s[1] == b then rep + ReplacePair(s[2..], a, b, rep)
    else [s[0]] + ReplacePair(s[1..], a, b, rep)
  }

  /** Text without the token is left alone. */
  lemma {:induction false} ReplacePairAbsent(s: string, a: char, b: char, rep: string)
    requires !HasPair(s, a, b)
    ensures ReplacePair(s, a, b, rep) == s
    decreases |s|
  {
    if |s| >= 2 {
      assert !(s[0] == a && s[1] == b);
      forall i | 0 <= i < |s[1..]| - 1
        ensures !(s[1..][i] == a && s[1..][i + 1] == b)
      {
        assert s[1..][i] == s[i + 1] && s[1..][i + 1] == s[i + 2];
      }
      ReplacePairAbsent(s[1..], a, b, rep);
    }
  }

  /** With a non-empty replacement that cannot start a new token, none survives. */
  lemma {:induction false} ReplacePairRemovesAll(s: string, a: char, b: char, rep: string)
    requires |rep| > 0 && a !in rep && rep[0] != b
    ensures !HasPair(ReplacePair(s, a, b, rep), a, b)
    decreases |s|
  {
    var r := ReplacePair(s, a, b, rep);
    if |s| < 2 {
    } else if s[0] == a && s[1] == b {
      var tail := ReplacePair(s[2..], a, b, rep);
      ReplacePairRemovesAll(s[2..], a, b, rep);
      assert r == rep + tail;
      forall i | 0 <= i < |r| - 1
        ensures !(r[i] == a && r[i + 1] == b)
      {
        if i < |rep| {
          assert r[i] == rep[i];
        } else {
          assert r[i] == tail[i - |rep|] && r[i + 1] == tail[i - |rep| + 1];
        }
      }
    } else {
      var tail := ReplacePair(s[1..], a, b, rep);
      ReplacePairRemovesAll(s[1..], a, b, rep);
      assert r == [s[0]] + tail;
      forall i | 0 <= i < |r| - 1
        ensures !(r[i] == a && r[i + 1] == b)
      {
        if i == 0 {
          if |s[1..]| >= 2 && s[1] == a && s[2] == b {
            assert tail == rep + ReplacePair(s[3..], a, b, rep) by {
              assert s[1..][2..] == s[3..];
            }
            assert r[1] == rep[0];
          } else if |s[1..]| >= 2 {
            assert r[1] == s[1];
          } else {
            assert tail == s[1..];
          }
        } else {
          assert r[i] == tail[i - 1] && r[i + 1] == tail[i];
        }
      }
    }
  }

  /** Replacing one token cannot create a different token `ac` that was absent. */
  lemma {:induction false} ReplacePairCreatesNoOther(s: string, a: char, b: char, c: char, rep: string)
    requires b != c && |rep| > 0 && a !in rep && rep[0] != c
    requires !HasPair(s, a, c)
    ensures !HasPair(ReplacePair(s, a, b, rep), a, c)
    decreases |s|
  {
    var r := ReplacePair(s, a, b, rep);
    if |s| < 2 {
    } else if s[0] == a && s[1] == b {
      var tail := ReplacePair(s[2..], a, b, rep);
      forall i | 0 <= i < |s[2..]| - 1
        ensures !(s[2..][i] == a && s[2..][i + 1] == c)
      {
        assert s[2..][i] == s[i + 2] && s[2..][i + 1] == s[i + 3];
      }
      ReplacePairCreatesNoOther(s[2..], a, b, c, rep);
      assert r == rep + tail;
      forall i | 0 <= i < |r| - 1
        ensures !(r[i] == a && r[i + 1] == c)
      {
        if i < |rep| {
          assert r[i] == rep[i];
        } else {
          assert r[i] == tail[i - |rep|] && r[i + 1] == tail[i - |rep| + 1];
        }
      }
    } else {
      var tail := ReplacePair(s[1..], a, b, rep);
      forall i | 0 <= i < |s[1..]| - 1
        ensures !(s[1..][i] == a && s[1..][i + 1] == c)
      {
        assert s[1..][i] == s[i + 1] && s[1..][i + 1] == s[i + 2];
      }
      ReplacePairCreatesNoOther(s[1..], a, b, c, rep);
      assert r == [s[0]] + tail;
      forall i | 0 <= i < |r| - 1
        ensures !(r[i] == a && r[i + 1] == c)
      {
        if i == 0 {
          if |s[1..]| >= 2 && s[1] == a && s[2] == b {
            assert tail == rep + ReplacePair(s[3..], a, b, rep) by {
              assert s[1..][2..] == s[3..];
            }
            assert r[1] == rep[0];
          } else if |s[1..]| >= 2 {
            assert r[1] == s[1];
          } else {
            assert tail == s[1..];
          }
        } else {
          assert r[i] == tail[i - 1] && r[i + 1] == tail[i];
        }
      }
    }
  }

  // ---------------------------------------------------------- case, spaces

  function ToLowerChar(c: char): char
  {
    if 'A' <= c <= 'Z' then (c as int + 32) as char else c
  }

  function ToLowerAscii(s: string): (r: string)
    ensures |r| == |s|
    ensures forall i :: 0 <= i < |s| ==> r[i] == ToLowerChar(s[i])
  {
    if |s| == 0 then [] else [ToLowerChar(s[0])] + ToLowerAscii(s[1..])
  }

  /** Case-insensitive equality of ASCII text (`boost::iequals`, `strcasecmp`). */
  predicate EqualsIgnoreCase(a: string, b: string)
  {
    ToLowerAscii(a) == ToLowerAscii(b)
  }

  /**
   * Python 3's `str.isspace`: the code points whose Unicode category is
   * a separator or whose bidirectional class is white space, segment or
   * paragraph separator.
   */
  predicate IsPySpace(c: char)
  {
    var k := c as int;
    (9 <= k <= 13) || (28 <= k <= 32) || k == 0x85 || k == 0xA0 || k == 0x1680
    || (0x2000 <= k <= 0x200A) || k == 0x2028 || k == 0x2029 || k == 0x202F
    || k == 0x205F || k == 0x3000
  }

  /** Where the text left by `Strip` starts. */
  function StripStart(s: string): nat
  {
    |s| - |StripLeft(s)|
  }

  /** Python `str.strip()` with no argument. */
  function Strip(s: string): string
  {
    StripRight(StripLeft(s))
  }

  /** `Strip` keeps the middle of `s`, which neither starts nor ends with white space, and drops only white space around it. */
  lemma StripMeaning(s: string)
    ensures var r := Strip(s);
            StripStart(s) + |r| <= |s|
            && r == s[StripStart(s)..StripStart(s) + |r|]
            && (|r| > 0 ==> !IsPySpace(r[0]) && !IsPySpace(r[|r| - 1]))
            && (forall i :: 0 <= i < StripStart(s) ==> IsPySpace(s[i]))
            && (forall i :: StripStart(s) + |r| <= i < |s| ==> IsPySpace(s[i]))
  {
    var t := StripLeft(s);
    var u := StripRight(t);
    var k := |s| - |t|;
    assert u == s[k..][..|u|];
    forall i | k + |u| <= i < |s| ensures IsPySpace(s[i]) {
      assert s[i] == t[i - k];
    }
  }

  function StripLeft(s: string): (r: string)
    ensures |r| <= |s| && r == s[|s| - |r|..]
    ensures |r| > 0 ==> !IsPySpace(r[0])
    ensures forall i :: 0 <= i < |s| - |r| ==> IsPySpace(s[i])
  {
    if |s| > 0 && IsPySpace(s[0]) then StripLeft(s[1..]) else s
  }

  function StripRight(s: string): (r: string)
    ensures |r| <= |s| && r == s[..|r|]
    ensures |r| > 0 ==> !IsPySpace(r[|r| - 1])
    ensures forall i :: |r| <= i < |s| ==> IsPySpace(s[i])
  {
    if |s| > 0 && IsPySpace(s[|s| - 1]) then StripRight(s[..|s| - 1]) else s
  }

  /** Stripping is idempotent. */
  lemma StripIdempotent(s: string)
    ensures Strip(Strip(s)) == Strip(s)
  {
    var r := Strip(s);
    if |r| > 0 {
      assert StripLeft(r) == r;
      assert StripRight(r) == r;
    }
  }
}
