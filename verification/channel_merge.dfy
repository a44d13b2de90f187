// The data-distribution logic of the ingest pipeline's `ChannelMergeTask`:
// how ranks are grouped for merging (`configureRanks`), which received
// chunks are dropped as out of date, how slices are placed into the merged
// cube (`fillCube`) and the dimension checks (`checkChunkForConsistency`).
// MPI itself is not modelled: each collective call is replaced by the data
// it gathers, passed in as a parameter.

module ChannelMerge {
  import opened Common

  // --------------------------------------------------------------- counting

  /** The number of entries of `s` equal to `b`. */
  function Count(s: seq<bool>, b: bool): (n: nat)
    ensures n <= |s|
  {
    if s == [] then 0 else Count(s[..|s| - 1], b) + (if s[|s| - 1] == b then 1 else 0)
  }

  /** The positions of `s` holding `b`. */
  function Positions(s: seq<bool>, b: bool): set<nat>
  {
    set k: nat | k < |s| && s[k] == b
  }

  /** `Count` is the number of positions holding `b`. */
  lemma {:induction false} CountIsPositions(s: seq<bool>, b: bool)
    ensures Count(s, b) == |Positions(s, b)|
  {
    if s != [] {
      var init := s[..|s| - 1];
      CountIsPositions(init, b);
      assert Positions(s, b) == Positions(init, b) + (if s[|s| - 1] == b then {|s| - 1} else {});
    }
  }

  lemma CountStep(s: seq<bool>, b: bool, k: nat)
    requires k < |s|
    ensures Count(s[..k + 1], b) == Count(s[..k], b) + (if s[k] == b then 1 else 0)
  {
    assert s[..k + 1][..k] == s[..k];
  }

  /** Every entry is one or the other. */
  lemma {:induction false} CountSplit(s: seq<bool>)
    ensures Count(s, true) + Count(s, false) == |s|
  {
    if s != [] {
      CountSplit(s[..|s| - 1]);
    }
  }

  /** Counting over a longer prefix never gives less, and gives more past a match. */
  lemma {:induction false} CountPrefixGrows(s: seq<bool>, b: bool, i: nat, j: nat)
    requires i < j <= |s|
    ensures Count(s[..i], b) <= Count(s[..j], b)
    ensures s[i] == b ==> Count(s[..i], b) < Count(s[..j], b)
    decreases j - i
  {
    CountStep(s, b, i);
    if i + 1 < j {
      CountPrefixGrows(s, b, i + 1, j);
    }
  }

  /** Below the total there is a position holding `b` with exactly `g` earlier ones. */
  lemma {:induction false} PositionWithCount(s: seq<bool>, b: bool, g: nat)
    requires g < Count(s, b)
    ensures exists k :: 0 <= k < |s| && s[k] == b && Count(s[..k], b) == g
  {
    var t := s[..|s| - 1];
    if g < Count(t, b) {
      PositionWithCount(t, b, g);
      var k :| 0 <= k < |t| && t[k] == b && Count(t[..k], b) == g;
      assert t[..k] == s[..k];
    } else {
      assert t == s[..|s| - 1];
    }
  }

  /** Two positions holding `b` have different numbers of earlier ones. */
  lemma PositionCountInjective(s: seq<bool>, b: bool, i: nat, j: nat)
    requires i < |s| && j < |s| && s[i] == b && s[j] == b && i != j
    ensures Count(s[..i], b) != Count(s[..j], b)
  {
    if i < j { CountPrefixGrows(s, b, i, j); } else { CountPrefixGrows(s, b, j, i); }
  }

  /** A position holding `b` has fewer earlier ones than the total. */
  lemma PositionCountBelowTotal(s: seq<bool>, b: bool, i: nat)
    requires i < |s| && s[i] == b
    ensures Count(s[..i], b) < Count(s, b)
  {
    CountPrefixGrows(s, b, i, |s|);
    assert s[..|s|] == s;
  }

  // ---------------------------------------------------------- rank roles

  /** What `configureRanks` decides for one rank. */
  datatype Role = Role(
    ranksToMerge: int,            // after the default has been replaced
    numInputs: nat,
    seqNumber: int,               // -1 for an inactive rank
    colour: int,                  // the communicator-split colour; `nprocs` for unused ranks
    key: int,                     // the communicator-split key (order inside the group)
    rankInUse: bool,
    groupWithActivatedRank: bool)

  /** The number of ranks merged per group: the configured value, or every input by default. */
  function MergeSize(active: seq<bool>, ranksToMerge: int): int
  {
    if ranksToMerge > |active| then Count(active, true) else ranksToMerge
  }

  /** The checks `configureRanks` makes on the whole configuration. */
  predicate ValidConfig(active: seq<bool>, ranksToMerge: int)
  {
    var m := MergeSize(active, ranksToMerge);
    Count(active, true) > 0 && m > 1 && Count(active, true) % m == 0
  }

  /**
   * `configureRanks` for rank `rank` of `|active|` ranks, where `active[i]`
   * tells whether rank `i` receives data (the gathered activity flags).
   * `ranksToMerge` is the configured `ranks2merge` (default `nprocs + 1`,
   * meaning all inputs); `spare` is `spare_ranks`. A failed check is an error.
   */
  function ConfigureRanks(active: seq<bool>, rank: nat, ranksToMerge: int, spare: bool): (r: Result<Role>)
    requires rank < |active|
    ensures r.Ok? <==> ValidConfig(active, ranksToMerge)
    ensures r.Ok? ==> r.value.numInputs == Count(active, true)
                      && r.value.ranksToMerge == MergeSize(active, ranksToMerge)
    ensures r.Ok? ==> r.value.seqNumber == (if active[rank] then Count(active[..rank], true) else -1)
    ensures r.Ok? && !spare ==> r.value.rankInUse == active[rank] && !r.value.groupWithActivatedRank
                                && r.value.key == rank
    ensures r.Ok? && active[rank] ==> r.value.rankInUse
                                      && r.value.colour == r.value.seqNumber / r.value.ranksToMerge
    ensures r.Ok? && spare && active[rank] ==>
              (r.value.groupWithActivatedRank <==> r.value.colour < |active| - Count(active, true))
    ensures r.Ok? && spare && !active[rank] ==>
              (r.value.rankInUse <==> Count(active[..rank], false) < Count(active, true) / r.value.ranksToMerge)
    ensures r.Ok? && spare && !active[rank] && r.value.rankInUse ==>
              r.value.colour == Count(active[..rank], false) && r.value.key == 0
              && r.value.groupWithActivatedRank
    ensures r.Ok? && !r.value.rankInUse ==> r.value.colour == |active|
  {
    if !ValidConfig(active, ranksToMerge) then Err("invalid merge configuration")
    else
      var nprocs := |active|;
      var numInputs := Count(active, true);
      var m := MergeSize(active, ranksToMerge);
      var numSpare := nprocs - numInputs;
      if active[rank] then
        var seqNumber := Count(active[..rank], true);
        var colour := seqNumber / m;
        if spare then Ok(Role(m, numInputs, seqNumber, colour, rank + 1, true, colour < numSpare))
        else Ok(Role(m, numInputs, seqNumber, colour, rank, true, false))
      else if spare then
        var group := Count(active[..rank], false);
        if group < numInputs / m then Ok(Role(m, numInputs, -1, group, 0, true, true))
        else Ok(Role(m, numInputs, -1, nprocs, rank + 1, false, false))
      else Ok(Role(m, numInputs, -1, nprocs, rank, false, false))
  }

  const NoDataMsg := "Merge task seems to receive no data in this ingest configuration"
  const TooFewMsg := "Number of aggregated data chunks should be more than 1!"
  const NotMultipleMsg :=
    "Total number of MPI ranks with data should be an integral multiple of selected number of ranks to merge"

  /** The error `configureRanks` reports first, if any. */
  function ConfigError(active: seq<bool>, ranksToMerge: int): (msg: Option<string>)
    ensures msg.None? <==> ValidConfig(active, ranksToMerge)
  {
    if Count(active, true) == 0 then Some(NoDataMsg)
    else if MergeSize(active, ranksToMerge) <= 1 then Some(TooFewMsg)
    else if Count(active, true) % MergeSize(active, ranksToMerge) != 0 then Some(NotMultipleMsg)
    else None
  }

  /** Active ranks are numbered 0..numInputs-1 in rank order, without gaps or repeats. */
  lemma SeqNumbersEnumerateInputs(active: seq<bool>, ranksToMerge: int, spare: bool, i: nat, j: nat)
    requires i < j < |active| && ValidConfig(active, ranksToMerge)
    ensures active[i] ==> 0 <= ConfigureRanks(active, i, ranksToMerge, spare).value.seqNumber
                             < Count(active, true)
    ensures active[i] && active[j] ==>
              ConfigureRanks(active, i, ranksToMerge, spare).value.seqNumber
              < ConfigureRanks(active, j, ranksToMerge, spare).value.seqNumber
  {
    if active[i] {
      PositionCountBelowTotal(active, true, i);
      CountPrefixGrows(active, true, i, j);
    }
  }

  /** Rank `j` is active and takes slot `k` of merge group `g`. */
  predicate HoldsSlot(active: seq<bool>, ranksToMerge: int, spare: bool, j: int, g: int, k: int)
  {
    0 <= j < |active| && active[j] && ValidConfig(active, ranksToMerge)
    && ConfigureRanks(active, j, ranksToMerge, spare).value.seqNumber
       == g * MergeSize(active, ranksToMerge) + k
    && ConfigureRanks(active, j, ranksToMerge, spare).value.colour == g
  }

  /**
   * Every merge group is full: for each group `g` and slot `k < ranksToMerge`
   * some active rank takes sequence number `g * ranksToMerge + k`, and it is
   * in group `g`.
   */
  lemma GroupsAreFull(active: seq<bool>, ranksToMerge: int, spare: bool, g: nat, k: nat)
    requires ValidConfig(active, ranksToMerge)
    requires k < MergeSize(active, ranksToMerge) && g < Count(active, true) / MergeSize(active, ranksToMerge)
    ensures exists j :: HoldsSlot(active, ranksToMerge, spare, j, g, k)
  {
    var m := MergeSize(active, ranksToMerge);
    SlotBelowInputs(Count(active, true), m, g, k);
    var i := SlotHolder(active, g * m + k);
    SlotInGroup(active, ranksToMerge, spare, i, g, k);
    assert HoldsSlot(active, ranksToMerge, spare, i, g, k);
  }

  /** The active rank with `x` active ranks before it. */
  lemma SlotHolder(active: seq<bool>, x: nat) returns (i: nat)
    requires x < Count(active, true)
    ensures i < |active| && active[i] && Count(active[..i], true) == x
  {
    PositionWithCount(active, true, x);
    i :| 0 <= i < |active| && active[i] && Count(active[..i], true) == x;
  }

  /** The rank holding slot `k` of group `g` is given group `g`. */
  lemma SlotInGroup(active: seq<bool>, ranksToMerge: int, spare: bool, i: nat, g: nat, k: nat)
    requires ValidConfig(active, ranksToMerge) && i < |active| && active[i]
    requires k < MergeSize(active, ranksToMerge)
    requires Count(active[..i], true) == g * MergeSize(active, ranksToMerge) + k
    ensures ConfigureRanks(active, i, ranksToMerge, spare).value.seqNumber
            == g * MergeSize(active, ranksToMerge) + k
    ensures ConfigureRanks(active, i, ranksToMerge, spare).value.colour == g
  {
    DivUnique(g * MergeSize(active, ranksToMerge) + k, MergeSize(active, ranksToMerge), g);
    ActiveRole(active, ranksToMerge, spare, i);
  }

  /** The sequence number and group of one active rank. */
  lemma ActiveRole(active: seq<bool>, ranksToMerge: int, spare: bool, i: nat)
    requires ValidConfig(active, ranksToMerge) && i < |active| && active[i]
    ensures ConfigureRanks(active, i, ranksToMerge, spare).value.seqNumber == Count(active[..i], true)
    ensures ConfigureRanks(active, i, ranksToMerge, spare).value.colour
            == Count(active[..i], true) / MergeSize(active, ranksToMerge)
  {
  }

  /** No two active ranks share a sequence number, so no group slot is taken twice. */
  lemma SeqNumbersDistinct(active: seq<bool>, ranksToMerge: int, spare: bool, i: nat, j: nat)
    requires ValidConfig(active, ranksToMerge)
    requires i < |active| && j < |active| && i != j && active[i] && active[j]
    ensures ConfigureRanks(active, i, ranksToMerge, spare).value.seqNumber
            != ConfigureRanks(active, j, ranksToMerge, spare).value.seqNumber
  {
    PositionCountInjective(active, true, i, j);
  }

  lemma MulMono(a: nat, b: nat, c: nat)
    requires a <= b
    ensures a * c <= b * c
  {
  }

  lemma SlotBelowInputs(n: nat, m: int, g: nat, k: nat)
    requires m > 1 && k < m && g < n / m
    ensures g * m + k < n
  {
    MulMono(g + 1, n / m, m);
    assert (n / m) * m <= n;
  }

  /** A value between `q*m` and `(q+1)*m` has quotient `q`. */
  lemma DivUnique(x: nat, m: int, q: nat)
    requires m > 1 && q * m <= x < q * m + m
    ensures x / m == q
  {
    var d := x / m;
    assert d * m <= x < d * m + m;
    if d < q {
      MulMono(d + 1, q, m);
    } else if d > q {
      MulMono(q + 1, d, m);
    }
  }

  /** Multiplication by a non-negative factor keeps order. */
  lemma MulLe(x: nat, y: nat, m: nat)
    ensures x >= y ==> x * m >= y * m
  {
    if x >= y {
      MulMono(y, x, m);
    }
  }

  /** The quotient is monotone. */
  lemma DivMono(a: nat, b: nat, m: int)
    requires a <= b && m > 1
    ensures a / m <= b / m
  {
    var qa := a / m;
    var qb := b / m;
    assert qa * m <= a && b < qb * m + m;
    MulLe(qa, qb + 1, m);
  }

  /**
   * With spare ranks, group `g` is told it has an activated output rank
   * exactly when some inactive rank is activated into it.
   */
  lemma ActivatedRankPerGroup(active: seq<bool>, ranksToMerge: int, i: nat)
    requires i < |active| && active[i] && ValidConfig(active, ranksToMerge)
    ensures var ri := ConfigureRanks(active, i, ranksToMerge, true).value;
            ri.groupWithActivatedRank <==>
              exists j :: 0 <= j < |active| && !active[j]
                          && ConfigureRanks(active, j, ranksToMerge, true).value.rankInUse
                          && ConfigureRanks(active, j, ranksToMerge, true).value.colour == ri.colour
  {
    var ri := ConfigureRanks(active, i, ranksToMerge, true).value;
    var m := ri.ranksToMerge;
    var g := ri.colour;
    var s := Count(active[..i], true);
    PositionCountBelowTotal(active, true, i);
    CountSplit(active);
    GroupBelowGroups(s, ri.numInputs, m);
    if ri.groupWithActivatedRank {
      PositionWithCount(active, false, g);
      var j :| 0 <= j < |active| && !active[j] && Count(active[..j], false) == g;
      assert ConfigureRanks(active, j, ranksToMerge, true).value.colour == g;
    } else {
      forall j | 0 <= j < |active| && !active[j] && ConfigureRanks(active, j, ranksToMerge, true).value.rankInUse
        ensures ConfigureRanks(active, j, ranksToMerge, true).value.colour != g
      {
        PositionCountBelowTotal(active, false, j);
      }
    }
  }

  /** No two inactive ranks are activated into the same group. */
  lemma ActivatedRanksDistinct(active: seq<bool>, ranksToMerge: int, j1: nat, j2: nat)
    requires ValidConfig(active, ranksToMerge)
    requires j1 < |active| && j2 < |active| && j1 != j2 && !active[j1] && !active[j2]
    requires ConfigureRanks(active, j1, ranksToMerge, true).value.rankInUse
    requires ConfigureRanks(active, j2, ranksToMerge, true).value.rankInUse
    ensures ConfigureRanks(active, j1, ranksToMerge, true).value.colour
            != ConfigureRanks(active, j2, ranksToMerge, true).value.colour
  {
    PositionCountInjective(active, false, j1, j2);
  }

  /** An active rank's group is one of the `numInputs / ranksToMerge` groups. */
  lemma GroupBelowGroups(s: nat, n: nat, m: int)
    requires s < n && m > 1 && n % m == 0
    ensures s / m < n / m
  {
    DivMono(s, n - 1, m);
    assert n - 1 == (n / m - 1) * m + (m - 1);
    DivUnique(n - 1, m, n / m - 1);
  }

  /** An unused rank's colour is not the colour of any rank in use. */
  lemma UnusedColourIsFree(active: seq<bool>, ranksToMerge: int, spare: bool, i: nat, j: nat)
    requires i < |active| && j < |active| && ValidConfig(active, ranksToMerge)
    requires !ConfigureRanks(active, i, ranksToMerge, spare).value.rankInUse
    requires ConfigureRanks(active, j, ranksToMerge, spare).value.rankInUse
    ensures ConfigureRanks(active, j, ranksToMerge, spare).value.colour
            != ConfigureRanks(active, i, ranksToMerge, spare).value.colour
  {
    var rj := ConfigureRanks(active, j, ranksToMerge, spare).value;
    var m := rj.ranksToMerge;
    if active[j] {
      var s := Count(active[..j], true);
      PositionCountBelowTotal(active, true, j);
      DivMono(s, |active|, m);
      DivBelow(|active|, m);
    } else {
      DivBelow(Count(active, true), m);
    }
  }

  lemma DivBelow(a: nat, m: int)
    requires m > 1
    ensures a / m <= a && (a > 0 ==> a / m < a)
  {
    var q := a / m;
    assert q * m <= a;
    if q > 0 {
      MulMono(2, m, q);
    }
  }

  // --------------------------------------------------------- time alignment

  const PrecisionMsg := "It looks like comparison of time stamps failed due to floating point precision"

  /**
   * The invalidation of out-of-date chunks in `receiveVisChunks`, as written.
   * `times` holds the gathered epochs of the local ranks; the merged ranks are
   * `offset .. offset + ranksToMerge - 1` (`offset` is 1 when local rank 0 is
   * an activated output rank). Returns the latest time and the invalid flags;
   * `None` stands for the empty flag vector, meaning every chunk is used.
   * Epochs are compared exactly.
   */
  method AlignTimesAsWritten(times: seq<real>, offset: nat, ranksToMerge: nat)
    returns (r: Result<(real, Option<seq<bool>>)>)
    requires ranksToMerge > 1 && |times| == offset + ranksToMerge
    ensures r.Ok? ==> var (latest, invalid) := r.value;
                      (forall k :: offset <= k < |times| ==> times[k] <= latest)
                      && (exists k :: offset <= k < |times| && times[k] == latest)
    ensures r.Ok? ==> (r.value.1.Some? <==> exists k :: offset < k < |times| && times[k] > times[offset])
    ensures (forall k :: offset < k < |times| ==> times[k] <= times[offset]) ==> r == Ok((times[offset], None))
    ensures r.Ok? && r.value.1.Some? ==>
              |r.value.1.value| == ranksToMerge
              && forall k :: 0 <= k < ranksToMerge ==>
                   (r.value.1.value[k] <==> times[k + offset] != r.value.0)
    ensures r.Ok? && r.value.1.Some? ==>
              0 < Count(r.value.1.value, false) < ranksToMerge
  {
    var latest, changed := LatestTime(times, offset);
    if !changed {
      return Ok((latest, None));
    }
    var invalid, counter := FlagOlder(times, offset, ranksToMerge, latest);
    if counter == 0 {
      return Err(PrecisionMsg);
    }
    assert invalid[0] by {
      assert times[offset] < latest;
    }
    assert counter < ranksToMerge by {
      CountSplit(invalid);
      CountPositive(invalid, true, 0);
    }
    return Ok((latest, Some(invalid)));
  }

  /** The first loop of the invalidation: the latest time, and whether any rank after the first is newer than it. */
  method LatestTime(times: seq<real>, offset: nat) returns (latest: real, changed: bool)
    requires offset < |times|
    ensures forall k :: offset <= k < |times| ==> times[k] <= latest
    ensures exists k :: offset <= k < |times| && times[k] == latest
    ensures changed <==> exists k :: offset < k < |times| && times[k] > times[offset]
    ensures !changed ==> latest == times[offset]
  {
    latest := times[offset];
    changed := false;
    var rank := 1 + offset;
    while rank < |times|
      invariant offset < rank <= |times|
      invariant forall k :: offset <= k < rank ==> times[k] <= latest
      invariant exists k :: offset <= k < rank && times[k] == latest
      invariant changed <==> exists k :: offset < k < rank && times[k] > times[offset]
      invariant !changed ==> latest == times[offset]
    {
      if latest - times[rank] < 0.0 {
        latest := times[rank];
        changed := true;
      }
      rank := rank + 1;
    }
  }

  /** The second loop: a chunk is invalid when its time is not the latest; `counter` counts the valid ones. */
  method FlagOlder(times: seq<real>, offset: nat, ranksToMerge: nat, latest: real)
    returns (invalid: seq<bool>, counter: nat)
    requires |times| == offset + ranksToMerge
    ensures |invalid| == ranksToMerge
    ensures forall j :: 0 <= j < ranksToMerge ==> (invalid[j] <==> times[j + offset] != latest)
    ensures counter == Count(invalid, false)
  {
    invalid := [];
    counter := 0;
    var k := 0;
    while k < ranksToMerge
      invariant k <= ranksToMerge && |invalid| == k
      invariant forall j :: 0 <= j < k ==> (invalid[j] <==> times[j + offset] != latest)
      invariant counter == Count(invalid, false)
    {
      var next := invalid + [times[k + offset] != latest];
      CountStep(next, false, k);
      assert next[..k] == invalid && next[..k + 1] == next;
      if times[k + offset] == latest {
        counter := counter + 1;
      }
      invalid := next;
      k := k + 1;
    }
  }

  lemma CountPositive(s: seq<bool>, b: bool, i: nat)
    requires i < |s| && s[i] == b
    ensures Count(s, b) >= 1
  {
    PositionCountBelowTotal(s, b, i);
  }

  /**
   * The as-written rule keeps an older chunk whenever the first merged rank
   * already has the latest time: with times 10 and 9 nothing is invalidated,
   * so the chunk stamped 9 is merged with the one stamped 10.
   */
  method OlderChunkKept() returns (r: Result<(real, Option<seq<bool>>)>)
    ensures r == Ok((10.0, None))
  {
    r := AlignTimesAsWritten([10.0, 9.0], 0, 2);
    assert forall k :: 0 < k < 2 ==> [10.0, 9.0][k] <= 10.0;
  }

  /**
   * The evident intent ("we ignore all chunks which are from the past"):
   * every chunk older than the latest time is invalid, whichever rank holds it.
   */
  function AlignTimes(times: seq<real>, offset: nat, ranksToMerge: nat): (r: (real, Option<seq<bool>>))
    requires ranksToMerge > 1 && |times| == offset + ranksToMerge
    ensures forall k :: offset <= k < |times| ==> times[k] <= r.0
    ensures exists k :: offset <= k < |times| && times[k] == r.0
    ensures r.1.None? <==> forall k :: offset <= k < |times| ==> times[k] == r.0
    ensures r.1.Some? ==> |r.1.value| == ranksToMerge
                          && (forall k :: 0 <= k < ranksToMerge ==> (r.1.value[k] <==> times[k + offset] < r.0))
                          && 0 < Count(r.1.value, false) < ranksToMerge
  {
    var latest := MaxFrom(times, offset);
    var invalid := Older(times, offset, ranksToMerge, latest);
    OlderMeaning(times, offset, ranksToMerge, latest);
    if forall k :: 0 <= k < ranksToMerge ==> !invalid[k] then (latest, None)
    else (latest, Some(invalid))
  }

  /** For each merged rank, whether its chunk is older than `latest`. */
  function Older(times: seq<real>, offset: nat, ranksToMerge: nat, latest: real): (s: seq<bool>)
    requires |times| == offset + ranksToMerge
    ensures |s| == ranksToMerge && forall k :: 0 <= k < ranksToMerge ==> (s[k] <==> times[k + offset] < latest)
  {
    seq(ranksToMerge, k requires 0 <= k < ranksToMerge => times[k + offset] < latest)
  }

  /** Against the latest time no chunk is older exactly when all times agree; otherwise some but not all are. */
  lemma OlderMeaning(times: seq<real>, offset: nat, ranksToMerge: nat, latest: real)
    requires |times| == offset + ranksToMerge
    requires forall k :: offset <= k < |times| ==> times[k] <= latest
    requires exists k :: offset <= k < |times| && times[k] == latest
    ensures var invalid := Older(times, offset, ranksToMerge, latest);
            ((forall k :: 0 <= k < ranksToMerge ==> !invalid[k])
               <==> (forall k :: offset <= k < |times| ==> times[k] == latest))
            && ((exists k :: 0 <= k < ranksToMerge && invalid[k]) ==> 0 < Count(invalid, false) < ranksToMerge)
  {
    var invalid := Older(times, offset, ranksToMerge, latest);
    if forall k :: 0 <= k < ranksToMerge ==> !invalid[k] {
      forall k | offset <= k < |times| ensures times[k] == latest {
        assert !invalid[k - offset];
      }
    } else {
      var j :| offset <= j < |times| && times[j] == latest;
      var i :| 0 <= i < ranksToMerge && invalid[i];
      CountPositive(invalid, false, j - offset);
      CountPositive(invalid, true, i);
      CountSplit(invalid);
    }
  }

  /** The largest of `s[from..]`. */
  function MaxFrom(s: seq<real>, from: nat): (m: real)
    requires from < |s|
    ensures forall k :: from <= k < |s| ==> s[k] <= m
    ensures exists k :: from <= k < |s| && s[k] == m
    decreases |s| - from
  {
    if from == |s| - 1 then s[from]
    else
      var rest := MaxFrom(s, from + 1);
      if s[from] >= rest then s[from] else rest
  }

  /**
   * Where the as-written rule invalidates anything (a later rank is newer
   * than the first), the intended rule invalidates too, and the two mark the
   * same chunks.
   */
  lemma AlignTimesAgreesWhenInvalidating(times: seq<real>, offset: nat, ranksToMerge: nat)
    requires ranksToMerge > 1 && |times| == offset + ranksToMerge
    requires exists k :: offset < k < |times| && times[k] > times[offset]
    ensures var (latest, invalid) := AlignTimes(times, offset, ranksToMerge);
            invalid.Some?
            && forall k :: 0 <= k < ranksToMerge ==> (invalid.value[k] <==> times[k + offset] != latest)
  {
    var (latest, invalid) := AlignTimes(times, offset, ranksToMerge);
    var k :| offset < k < |times| && times[k] > times[offset];
    assert times[offset] < latest;
  }

  lemma {:induction false} CountNone(s: seq<bool>, b: bool)
    requires forall k :: 0 <= k < |s| ==> s[k] != b
    ensures Count(s, b) == 0
  {
    if s != [] {
      CountNone(s[..|s| - 1], b);
    }
  }

  // -------------------------------------------------------------- fillCube

  /** `n` copies of `x`. */
  function Repeat<T>(x: T, n: nat): (s: seq<T>)
    ensures |s| == n && forall i :: 0 <= i < n ==> s[i] == x
  {
    seq(n, i requires 0 <= i < n => x)
  }

  /** The channels `[r*n, (r+1)*n)` of a merged cube, where rank `r`'s slice goes. */
  function SliceOf<T>(out: seq<T>, r: nat, n: nat): seq<T>
    requires (r + 1) * n <= |out|
  {
    out[r * n..r * n + n]
  }

  /** Skipped per `invalidFlags` (an empty vector skips nothing). */
  predicate Skipped(invalid: Option<seq<bool>>, r: nat)
  {
    invalid.Some? && r < |invalid.value| && invalid.value[r]
  }

  /** The slice merged rank `r` contributes: its gathered buffer, or `fill` when it is skipped. */
  function Contribution<T>(buf: seq<seq<T>>, fill: T, invalid: Option<seq<bool>>, offset: nat, r: nat, n: nat): seq<T>
    requires r + offset < |buf|
  {
    if Skipped(invalid, r) then Repeat(fill, n) else buf[r + offset]
  }

  /** The first `rank` slices of `out` hold their contributions. */
  ghost predicate Filled<T>(out: seq<T>, buf: seq<seq<T>>, fill: T, invalid: Option<seq<bool>>, offset: nat, rank: nat, n: nat)
    requires rank + offset <= |buf|
  {
    |out| == rank * n
    && forall r :: 0 <= r < rank ==>
         (r + 1) * n <= |out| && SliceOf(out, r, n) == Contribution(buf, fill, invalid, offset, r, n)
  }

  /** Appending the next contribution keeps the earlier slices in place and fills one more. */
  lemma {:induction false} FilledStep<T>(out: seq<T>, buf: seq<seq<T>>, fill: T, invalid: Option<seq<bool>>,
                                         offset: nat, rank: nat, n: nat)
    requires rank + offset < |buf| && |buf[rank + offset]| == n
    requires Filled(out, buf, fill, invalid, offset, rank, n)
    ensures Filled(out + Contribution(buf, fill, invalid, offset, rank, n), buf, fill, invalid, offset, rank + 1, n)
  {
    var slice := Contribution(buf, fill, invalid, offset, rank, n);
    var next := out + slice;
    forall r | 0 <= r < rank + 1
      ensures (r + 1) * n <= |next| && SliceOf(next, r, n) == Contribution(buf, fill, invalid, offset, r, n)
    {
      MulMono(r + 1, rank + 1, n);
      if r < rank {
        MulMono(r + 1, rank, n);
        assert SliceOf(next, r, n) == SliceOf(out, r, n);
      } else {
        assert SliceOf(next, r, n) == slice;
      }
    }
  }

  /**
   * `fillCube` along the channel axis: the merged cube starts filled with
   * `fill` (visibility 0, flag true) and the slice of merged rank `r` is
   * copied from gathered buffer `r + offset` unless it is invalid. Each
   * element of a slice stands for one channel across all rows and
   * polarisations.
   */
  method FillCube<T>(buf: seq<seq<T>>, fill: T, invalid: Option<seq<bool>>,
                     offset: nat, ranksToMerge: nat, n: nat) returns (out: seq<T>)
    requires |buf| == offset + ranksToMerge
    requires forall k :: 0 <= k < |buf| ==> |buf[k]| == n
    ensures |out| == ranksToMerge * n
    ensures forall r :: 0 <= r < ranksToMerge ==>
              (r + 1) * n <= |out|
              && SliceOf(out, r, n) == (if Skipped(invalid, r) then Repeat(fill, n) else buf[r + offset])
  {
    out := [];
    var rank := 0;
    while rank < ranksToMerge
      invariant rank <= ranksToMerge && Filled(out, buf, fill, invalid, offset, rank, n)
    {
      FilledStep(out, buf, fill, invalid, offset, rank, n);
      out := out + Contribution(buf, fill, invalid, offset, rank, n);
      rank := rank + 1;
    }
  }

  /** Frequencies are merged from every rank, valid or not: the invalid flags play no part. */
  method MergeFrequencies(buf: seq<seq<real>>, offset: nat, ranksToMerge: nat, n: nat) returns (freq: seq<real>)
    requires |buf| == offset + ranksToMerge
    requires forall k :: 0 <= k < |buf| ==> |buf[k]| == n
    ensures |freq| == ranksToMerge * n
    ensures forall r :: 0 <= r < ranksToMerge ==> (r + 1) * n <= |freq| && SliceOf(freq, r, n) == buf[r + offset]
  {
    freq := FillCube(buf, 0.0, None, offset, ranksToMerge, n);
  }

  // ------------------------------------------------------ consistency checks

  datatype Dims = Dims(nRow: int, nChannel: int, nPol: int, nAntenna: int)

  const IdleZeroMsg := "Expect idle input stream for the zero local rank, and data for other ranks"
  const NoIdleMsg := "Expect no idle input streams for the local communicator"

  /**
   * `checkChunkForConsistency` on local rank `localRank`. `dims` are the
   * gathered dimensions of all local ranks (an activated output rank sends
   * zeros) and `own` this rank's. The result is the dimensions of the chunk
   * the rank holds afterwards: an activated output rank creates one with rank
   * 1's dimensions and `ranksToMerge` times its channels.
   */
  function CheckChunkForConsistency(dims: seq<Dims>, localRank: nat, hasChunk: bool, own: Dims,
                                    groupWithActivatedRank: bool, ranksToMerge: int): (r: Result<Dims>)
    requires |dims| == ranksToMerge + (if groupWithActivatedRank then 1 else 0)
    requires ranksToMerge > 1 && localRank < |dims|
    ensures groupWithActivatedRank && hasChunk != (localRank != 0) ==> r.Err?
    ensures !groupWithActivatedRank && !hasChunk ==> r.Err?
    ensures r.Ok? && groupWithActivatedRank && localRank == 0 ==>
              r.value == dims[1].(nChannel := dims[1].nChannel * ranksToMerge)
    ensures r.Ok? && !(groupWithActivatedRank && localRank == 0) ==>
              r.value == own
              && forall k :: (if groupWithActivatedRank then 1 else 0) <= k < |dims| ==> dims[k] == own
    ensures hasChunk == (!groupWithActivatedRank || localRank != 0)
            && !(groupWithActivatedRank && localRank == 0)
            && (forall k :: (if groupWithActivatedRank then 1 else 0) <= k < |dims| ==> dims[k] == own)
            ==> r == Ok(own)
  {
    if groupWithActivatedRank && hasChunk != (localRank != 0) then
      Err(IdleZeroMsg)
    else if !groupWithActivatedRank && !hasChunk then
      Err(NoIdleMsg)
    else if groupWithActivatedRank && localRank == 0 then
      Ok(dims[1].(nChannel := dims[1].nChannel * ranksToMerge))
    else
      FirstMismatch(dims, own, if groupWithActivatedRank then 1 else 0)
  }

  /** The rank loop of the check: the first rank whose dimensions differ fails it. */
  function FirstMismatch(dims: seq<Dims>, own: Dims, from: nat): (r: Result<Dims>)
    requires from <= |dims|
    ensures r.Ok? <==> forall k :: from <= k < |dims| ==> dims[k] == own
    ensures r.Ok? ==> r.value == own
    decreases |dims| - from
  {
    if from == |dims| then Ok(own)
    else if dims[from].nRow != own.nRow then Err("Number of rows is different")
    else if dims[from].nChannel != own.nChannel then Err("Number of channels is different")
    else if dims[from].nPol != own.nPol then Err("Number of polarisations is different")
    else if dims[from].nAntenna != own.nAntenna then Err("Number of antennas is different")
    else FirstMismatch(dims, own, from + 1)
  }
}
