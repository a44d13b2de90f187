// `CubeMakerHelperFunctions::expandPattern`: a file-name pattern such as
// "image.i.[0..15].restored" expands to one name per integer of the range.
// The prefix and suffix come from the FIRST '[' and the FIRST ']', while the
// bounds come from the greedy regular expression `.*\[(\d+)\.\.(\d+)\].*`,
// whose leading `.*` makes the LAST complete `[digits..digits]` group win.

module ExpandPattern {
  import opened Common

  /** `s` holds the group "[d1..d2]" starting at position `k`. */
  predicate IsGroupAt(s: string, k: int, d1: string, d2: string)
  {
    0 <= k && |d1| > 0 && |d2| > 0 && AllDigits(d1) && AllDigits(d2)
    && k + |d1| + |d2| + 4 <= |s|
    && s[k] == '['
    && s[k + 1..k + 1 + |d1|] == d1
    && s[k + 1 + |d1|] == '.' && s[k + 2 + |d1|] == '.'
    && s[k + 3 + |d1|..k + 3 + |d1| + |d2|] == d2
    && s[k + 3 + |d1| + |d2|] == ']'
  }


  ghost predicate HasGroupAt(s: string, k: int)
  {
    exists d1, d2 :: IsGroupAt(s, k, d1, d2)
  }

  /** The digits of a group at `k` are determined by the text. */
  lemma GroupDigitsAreMaximal(s: string, k: int, d1: string, d2: string)
    requires IsGroupAt(s, k, d1, d2)
    ensures d1 == DigitPrefix(s[k + 1..])
    ensures d2 == DigitPrefix(s[k + 3 + |d1|..])
  {
    var t1 := s[k + 1..];
    var p1 := DigitPrefix(t1);
    assert t1[..|d1|] == d1;
    assert !IsDigit(t1[|d1|]);
    DigitPrefixOfDigitsThenOther(t1, d1);
    var t2 := s[k + 3 + |d1|..];
    assert t2[..|d2|] == d2;
    assert !IsDigit(t2[|d2|]);
    DigitPrefixOfDigitsThenOther(t2, d2);
  }

  lemma {:induction false} DigitPrefixOfDigitsThenOther(t: string, d: string)
    requires |d| < |t| && t[..|d|] == d && AllDigits(d) && !IsDigit(t[|d|])
    ensures DigitPrefix(t) == d
  {
    if |d| > 0 {
      assert t[1..][..|d| - 1] == d[1..];
      DigitPrefixOfDigitsThenOther(t[1..], d[1..]);
    }
  }

  /** Recognise a group at position `k`. */
  function ParseGroupAt(s: string, k: nat): (r: Option<(string, string)>)
    ensures r.Some? ==> IsGroupAt(s, k, r.value.0, r.value.1)
  {
    if k >= |s| || s[k] != '[' then None
    else
      var d1 := DigitPrefix(s[k + 1..]);
      var j := k + 1 + |d1|;
      if |d1| == 0 || j + 2 > |s| || s[j] != '.' || s[j + 1] != '.' then None
      else
        var d2 := DigitPrefix(s[j + 2..]);
        var e := j + 2 + |d2|;
        if |d2| == 0 || e >= |s| || s[e] != ']' then None
        else
          assert s[k + 1..k + 1 + |d1|] == s[k + 1..][..|d1|];
          assert s[j + 2..e] == s[j + 2..][..|d2|];
          Some((d1, d2))
  }

  /** Every group is recognised, and with the digits it holds. */
  lemma ParseGroupAtComplete(s: string, k: nat, d1: string, d2: string)
    requires IsGroupAt(s, k, d1, d2)
    ensures ParseGroupAt(s, k) == Some((d1, d2))
  {
    GroupDigitsAreMaximal(s, k, d1, d2);
  }

  lemma NoGroupWhenUnparsed(s: string, k: nat)
    requires ParseGroupAt(s, k).None?
    ensures !HasGroupAt(s, k)
  {
    forall d1, d2 | IsGroupAt(s, k, d1, d2)
      ensures false
    {
      ParseGroupAtComplete(s, k, d1, d2);
    }
  }

  /** A group holds both brackets. */
  lemma GroupHasBrackets(s: string, k: int)
    requires HasGroupAt(s, k)
    ensures '[' in s && ']' in s
  {
    var d1, d2 :| IsGroupAt(s, k, d1, d2);
    assert s[k] == '[';
    assert s[k + 3 + |d1| + |d2|] == ']';
  }

  lemma NoBracketsNoGroup(s: string)
    ensures '[' !in s || ']' !in s ==> forall k :: !HasGroupAt(s, k)
  {
    forall k | HasGroupAt(s, k)
      ensures '[' in s && ']' in s
    {
      GroupHasBrackets(s, k);
    }
  }

  /** No group starts at a position from `lo` up to, not including, `hi`. */
  ghost predicate NoGroupIn(s: string, lo: int, hi: int)
    decreases hi - lo
  {
    lo >= hi || (!HasGroupAt(s, hi - 1) && NoGroupIn(s, lo, hi - 1))
  }

  lemma {:induction false} NoGroupInMeaning(s: string, lo: int, hi: int)
    ensures NoGroupIn(s, lo, hi) <==> forall k :: lo <= k < hi ==> !HasGroupAt(s, k)
    decreases hi - lo
  {
    if lo < hi {
      NoGroupInMeaning(s, lo, hi - 1);
      assert (forall k :: lo <= k < hi ==> !HasGroupAt(s, k))
             <==> (forall k :: lo <= k < hi - 1 ==> !HasGroupAt(s, k)) && !HasGroupAt(s, hi - 1);
    }
  }

  /** The rightmost group starting below position `n`. */
  function LastGroupBelow(s: string, n: nat): Option<(nat, string, string)>
    requires n <= |s|
  {
    if n == 0 then None
    else match ParseGroupAt(s, n - 1)
      case Some(g) => Some((n - 1, g.0, g.1))
      case None => LastGroupBelow(s, n - 1)
  }

  /** The group found is one, and none starts between it and `n`; when none is found, none starts below `n`. */
  lemma {:induction false} LastGroupBelowMeaning(s: string, n: nat)
    requires n <= |s|
    ensures var r := LastGroupBelow(s, n);
            (r.Some? ==> r.value.0 < n && IsGroupAt(s, r.value.0, r.value.1, r.value.2)
                         && NoGroupIn(s, r.value.0 + 1, n))
            && (r.None? ==> NoGroupIn(s, 0, n))
  {
    if n > 0 {
      var p := ParseGroupAt(s, n - 1);
      if p.Some? {
        assert LastGroupBelow(s, n) == Some((n - 1, p.value.0, p.value.1));
        assert IsGroupAt(s, n - 1, p.value.0, p.value.1);
      } else {
        NoGroupWhenUnparsed(s, n - 1);
        LastGroupBelowMeaning(s, n - 1);
        var r := LastGroupBelow(s, n - 1);
        assert LastGroupBelow(s, n) == r;
        if r.Some? {
          assert NoGroupIn(s, r.value.0 + 1, n - 1);
        }
      }
    }
  }

  /** No group can start at or after the end of the text. */
  lemma NoGroupPastEnd(s: string, k: int)
    requires k >= |s|
    ensures !HasGroupAt(s, k)
  {
  }

  /** The group the greedy regular expression reports, if the pattern matches at all. */
  function LastGroup(s: string): (r: Option<(nat, string, string)>)
    ensures r.Some? ==> IsGroupAt(s, r.value.0, r.value.1, r.value.2)
                        && forall k :: r.value.0 < k ==> !HasGroupAt(s, k)
    ensures r.None? ==> forall k :: !HasGroupAt(s, k)
  {
    forall k | k >= |s| ensures !HasGroupAt(s, k) { NoGroupPastEnd(s, k); }
    var r := LastGroupBelow(s, |s|);
    LastGroupBelowMeaning(s, |s|);
    if r.Some? then NoGroupInMeaning(s, r.value.0 + 1, |s|); r
    else NoGroupInMeaning(s, 0, |s|); r
  }

  /** One file name: prefix, the decimal number, suffix. */
  function NameFor(prefix: string, i: int, suffix: string): string
  {
    prefix + IntToString(i) + suffix
  }

  function Prefix(pattern: string): string
  {
    match IndexOf(pattern, '[')
    case None => ""
    case Some(k) => pattern[..k]
  }

  function Suffix(pattern: string): string
  {
    match IndexOf(pattern, ']')
    case None => ""
    case Some(k) => pattern[k + 1..]
  }

  /** One name per integer from `b` up to and including `e`, in increasing order. */
  function Names(prefix: string, b: int, e: int, suffix: string): seq<string>
  {
    seq(if b <= e then e - b + 1 else 0, i => NameFor(prefix, b + i, suffix))
  }

  /** The largest value of a 32-bit `int`, the type the bounds are read into. */
  const IntMax := 0x7FFF_FFFF

  /** A digit group `fromString<int>` can convert. */
  predicate FitsInt(d: string)
  {
    AllDigits(d) && DigitsValue(d) <= IntMax
  }

  /** The error for a bound that does not convert to `int`. */
  const OutOfIntRange := "fromString<int>: range bound does not fit an int"

  /** `expandPattern`, with its three distinct errors and the failed conversion. */
  function Expand(pattern: string): (r: Result<seq<string>>)
    ensures '[' !in pattern ==> r == Err("Could not find [ in valid range expression")
    ensures '[' in pattern && ']' !in pattern ==> r == Err("Could not find ] in valid range expression")
  {
    if IndexOf(pattern, '[').None? then Err("Could not find [ in valid range expression")
    else if IndexOf(pattern, ']').None? then Err("Could not find ] in valid range expression")
    else match LastGroup(pattern)
      case None => Err("Could not find range expression")
      case Some(g) =>
        if !FitsInt(g.1) || !FitsInt(g.2) then Err(OutOfIntRange)
        else Ok(Names(Prefix(pattern), DigitsValue(g.1), DigitsValue(g.2), Suffix(pattern)))
  }

  /** The group at `k` is the last one in `s`. */
  ghost predicate IsLastGroup(s: string, k: int, d1: string, d2: string)
  {
    IsGroupAt(s, k, d1, d2) && forall j :: k < j ==> !HasGroupAt(s, j)
  }

  /**
   * The expansion succeeds exactly when the last group's bounds both fit an
   * `int`; a text holding a group either succeeds or fails on conversion.
   */
  lemma ExpandSucceedsIffGroup(pattern: string)
    ensures Expand(pattern).Ok? <==>
              exists k, d1, d2 :: IsLastGroup(pattern, k, d1, d2) && FitsInt(d1) && FitsInt(d2)
    ensures (exists k :: HasGroupAt(pattern, k)) <==>
              Expand(pattern).Ok? || Expand(pattern) == Err(OutOfIntRange)
  {
    NoBracketsNoGroup(pattern);
    if LastGroup(pattern).Some? {
      var (k, d1, d2) := LastGroup(pattern).value;
      assert HasGroupAt(pattern, k);
      assert IsLastGroup(pattern, k, d1, d2);
    }
    if exists k, d1, d2 :: IsLastGroup(pattern, k, d1, d2) && FitsInt(d1) && FitsInt(d2) {
      var k, d1, d2 :| IsLastGroup(pattern, k, d1, d2) && FitsInt(d1) && FitsInt(d2);
      LastGroupIs(pattern, k, d1, d2);
    }
  }

  /**
   * On success there is one name per integer of the last group's range,
   * in increasing order, each between the text before the first '[' and
   * the text after the first ']'.
   */
  lemma ExpandNames(pattern: string)
    ensures Expand(pattern).Ok? ==>
              LastGroup(pattern).Some?
              && var (_, d1, d2) := LastGroup(pattern).value;
                 var r := Expand(pattern).value;
                 FitsInt(d1) && FitsInt(d2)
                 && |r| == (if DigitsValue(d1) <= DigitsValue(d2) then DigitsValue(d2) - DigitsValue(d1) + 1 else 0)
                 && forall i :: 0 <= i < |r| ==> r[i] == NameFor(Prefix(pattern), DigitsValue(d1) + i, Suffix(pattern))
  {
    if Expand(pattern).Ok? {
      var (_, d1, d2) := LastGroup(pattern).value;
      assert Expand(pattern) == Ok(Names(Prefix(pattern), DigitsValue(d1), DigitsValue(d2), Suffix(pattern)));
      NamesMeaning(Prefix(pattern), DigitsValue(d1), DigitsValue(d2), Suffix(pattern));
    }
  }

  lemma NamesMeaning(prefix: string, b: int, e: int, suffix: string)
    ensures var r := Names(prefix, b, e, suffix);
            |r| == (if b <= e then e - b + 1 else 0)
            && forall i :: 0 <= i < |r| ==> r[i] == NameFor(prefix, b + i, suffix)
  {
  }

  /** Names built from one prefix and suffix are pairwise distinct. */
  lemma NamesDistinct(prefix: string, a: int, b: int, suffix: string)
    requires NameFor(prefix, a, suffix) == NameFor(prefix, b, suffix)
    ensures a == b
  {
    var sa := IntToString(a);
    var sb := IntToString(b);
    var na := NameFor(prefix, a, suffix);
    assert |sa| == |sb|;
    assert sa == na[|prefix|..|prefix| + |sa|];
    assert sb == na[|prefix|..|prefix| + |sb|];
    AtoiOfIntToString(a);
    AtoiOfIntToString(b);
  }

  /** Where the brackets of a one-group pattern are. */
  lemma SingleGroupBrackets(p: string, d1: string, d2: string, q: string)
    requires |d1| > 0 && |d2| > 0 && AllDigits(d1) && AllDigits(d2)
    requires '[' !in p && ']' !in p
    ensures var pattern := p + "[" + d1 + ".." + d2 + "]" + q;
            IndexOf(pattern, '[') == Some(|p|)
            && IndexOf(pattern, ']') == Some(|p| + 3 + |d1| + |d2|)
  {
    var pattern := p + "[" + d1 + ".." + d2 + "]" + q;
    var k := |p|;
    var e := k + 3 + |d1| + |d2|;
    assert pattern[..k] == p;
    assert '[' !in pattern[..k];
    forall i | 0 <= i < e
      ensures pattern[i] != ']'
    {
      if i < k {
        assert pattern[i] == p[i];
      } else if k < i < k + 1 + |d1| {
        assert pattern[i] == d1[i - k - 1];
      } else if k + 3 + |d1| <= i {
        assert pattern[i] == d2[i - k - 3 - |d1|];
      }
    }
    assert pattern[k] == '[' && pattern[e] == ']';
    IndexOfAt(pattern, '[', k);
    IndexOfAt(pattern, ']', e);
  }

  /** A one-group pattern has no group after its own. */
  lemma SingleGroupIsLast(p: string, d1: string, d2: string, q: string)
    requires |d1| > 0 && |d2| > 0 && AllDigits(d1) && AllDigits(d2)
    requires '[' !in q
    ensures var pattern := p + "[" + d1 + ".." + d2 + "]" + q;
            forall j :: |p| < j ==> !HasGroupAt(pattern, j)
  {
    var pattern := p + "[" + d1 + ".." + d2 + "]" + q;
    var k := |p|;
    var e := k + 3 + |d1| + |d2|;
    forall j | k < j
      ensures !HasGroupAt(pattern, j)
    {
      if j < |pattern| {
        if j < k + 1 + |d1| {
          assert pattern[j] == d1[j - k - 1];
        } else if j < k + 3 + |d1| {
          assert pattern[j] == '.';
        } else if j < e {
          assert pattern[j] == d2[j - k - 3 - |d1|];
        } else if j == e {
          assert pattern[j] == ']';
        } else {
          assert pattern[j] == q[j - e - 1];
        }
        assert pattern[j] != '[';
      }
    }
  }

  /** The group after which no other starts is the one reported. */
  lemma LastGroupIs(s: string, k: nat, d1: string, d2: string)
    requires IsGroupAt(s, k, d1, d2)
    requires forall j :: k < j ==> !HasGroupAt(s, j)
    ensures LastGroup(s) == Some((k, d1, d2))
  {
    assert HasGroupAt(s, k);
    var g := LastGroup(s);
    assert HasGroupAt(s, g.value.0);
    assert g.value.0 == k;
    ParseGroupAtComplete(s, k, d1, d2);
    ParseGroupAtComplete(s, k, g.value.1, g.value.2);
  }

  /** Once the last group is known, the names follow from it. */
  lemma ExpandFromLastGroup(pattern: string, k: nat, d1: string, d2: string)
    requires LastGroup(pattern) == Some((k, d1, d2))
    ensures Expand(pattern) ==
              if FitsInt(d1) && FitsInt(d2)
              then Ok(Names(Prefix(pattern), DigitsValue(d1), DigitsValue(d2), Suffix(pattern)))
              else Err(OutOfIntRange)
  {
    assert HasGroupAt(pattern, k);
    GroupHasBrackets(pattern, k);
  }

  /** The group written out after `p` is at position `|p|`. */
  lemma GroupAfter(p: string, d1: string, d2: string, q: string)
    requires |d1| > 0 && |d2| > 0 && AllDigits(d1) && AllDigits(d2)
    ensures IsGroupAt(p + "[" + d1 + ".." + d2 + "]" + q, |p|, d1, d2)
  {
    var pattern := p + "[" + d1 + ".." + d2 + "]" + q;
    var k := |p|;
    assert pattern[k + 1..k + 1 + |d1|] == d1;
    assert pattern[k + 3 + |d1|..k + 3 + |d1| + |d2|] == d2;
  }

  /**
   * The intended use: one group "[b..e]" with no other brackets expands to
   * prefix + i + suffix for every i from b to e, once both bounds fit an
   * `int`.
   */
  lemma SingleGroupExpansion(p: string, d1: string, d2: string, q: string)
    requires |d1| > 0 && |d2| > 0 && AllDigits(d1) && AllDigits(d2)
    requires '[' !in p && ']' !in p && '[' !in q && ']' !in q
    ensures var pattern := p + "[" + d1 + ".." + d2 + "]" + q;
            Expand(pattern) ==
              if FitsInt(d1) && FitsInt(d2) then Ok(Names(p, DigitsValue(d1), DigitsValue(d2), q))
              else Err(OutOfIntRange)
  {
    var pattern := p + "[" + d1 + ".." + d2 + "]" + q;
    var k := |p|;
    var e := k + 3 + |d1| + |d2|;
    GroupAfter(p, d1, d2, q);
    SingleGroupBrackets(p, d1, d2, q);
    SingleGroupIsLast(p, d1, d2, q);
    LastGroupIs(pattern, k, d1, d2);
    assert Prefix(pattern) == p by { assert pattern[..k] == p; }
    assert Suffix(pattern) == q by { assert pattern[e + 1..] == q; }
    ExpandFromLastGroup(pattern, k, d1, d2);
  }

  /**
   * With two groups the prefix and suffix come from the first brackets and
   * the range from the last group: the names run over the second range, and
   * each keeps the whole second group in its suffix.
   */
  lemma TwoGroupsMixFirstBracketsWithLastRange(p: string, d1: string, d2: string, m: string,
                                                e1: string, e2: string, q: string)
    requires |d1| > 0 && |d2| > 0 && AllDigits(d1) && AllDigits(d2)
    requires |e1| > 0 && |e2| > 0 && AllDigits(e1) && AllDigits(e2)
    requires '[' !in p && ']' !in p && '[' !in m && '[' !in q
    ensures var tail := m + "[" + e1 + ".." + e2 + "]" + q;
            Expand(p + "[" + d1 + ".." + d2 + "]" + tail)
            == if FitsInt(e1) && FitsInt(e2) then Ok(Names(p, DigitsValue(e1), DigitsValue(e2), tail))
               else Err(OutOfIntRange)
  {
    var tail := m + "[" + e1 + ".." + e2 + "]" + q;
    var first := p + "[" + d1 + ".." + d2 + "]";
    var pattern := first + tail;
    var before := first + m;
    assert pattern == before + "[" + e1 + ".." + e2 + "]" + q;
    GroupAfter(before, e1, e2, q);
    SingleGroupIsLast(before, e1, e2, q);
    LastGroupIs(pattern, |before|, e1, e2);
    SingleGroupBrackets(p, d1, d2, tail);
    assert Prefix(pattern) == p by { assert pattern[..|p|] == p; }
    assert Suffix(pattern) == tail by { assert pattern[|first|..] == tail; }
    ExpandFromLastGroup(pattern, |before|, e1, e2);
  }
}
