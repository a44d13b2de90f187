// The sequential decisions of `DuchampParallel`: whether the cube is 2-D,
// the relaxing and restoring of the minimum-size criteria around the
// workers' search, the edge/non-edge partition of sources, the size filter,
// sort and numbering of the master's final list, the round-robin
// distribution of sources to workers, and the combination of the workers'
// means. Searching, merging, fitting and the MPI traffic are not modelled:
// where the list depends on them they are parameters.

module DuchampParallel {
  import opened Common

  // ------------------------------------------------------------------ is2D

  /** The number of axes longer than 1. */
  function LongAxes(dims: seq<int>): nat
  {
    if |dims| == 0 then 0 else LongAxes(dims[..|dims| - 1]) + (if dims[|dims| - 1] > 1 then 1 else 0)
  }

  /** The positions of the axes longer than 1. */
  function LongAxisSet(dims: seq<int>): set<nat>
  {
    set i: nat | i < |dims| && dims[i] > 1
  }

  /** `is2D`: at most two axes are longer than 1. */
  predicate Is2D(dims: seq<int>)
  {
    LongAxes(dims) <= 2
  }

  /** The count is the number of long axes, so `is2D` holds iff at most two axes are longer than 1. */
  lemma {:induction false} LongAxesCounts(dims: seq<int>)
    ensures LongAxes(dims) == |LongAxisSet(dims)|
    ensures Is2D(dims) <==> |LongAxisSet(dims)| <= 2
  {
    if |dims| > 0 {
      var n := |dims| - 1;
      var init := dims[..n];
      LongAxesCounts(init);
      if dims[n] > 1 {
        assert LongAxisSet(dims) == LongAxisSet(init) + {n};
      } else {
        assert LongAxisSet(dims) == LongAxisSet(init);
      }
    } else {
      assert LongAxisSet(dims) == {};
    }
  }

  /** Degenerate axes appended to a shape do not change whether it is 2-D. */
  lemma {:induction false} DegenerateAxesIgnored(dims: seq<int>, extra: seq<int>)
    requires forall i :: 0 <= i < |extra| ==> extra[i] <= 1
    ensures LongAxes(dims + extra) == LongAxes(dims)
    decreases |extra|
  {
    if |extra| > 0 {
      var n := |extra| - 1;
      assert (dims + extra)[..|dims + extra| - 1] == dims + extra[..n];
      DegenerateAxesIgnored(dims, extra[..n]);
    } else {
      assert dims + extra == dims;
    }
  }

  // ------------------------------------------------------ minimum sizes

  /** The minimum-size criteria of a search. */
  datatype SizeCriteria = SizeCriteria(minPix: int, minChannels: int, minVoxels: int)

  /** The criteria around a worker's search: in use during it, and afterwards. */
  datatype SearchCriteria = SearchCriteria(during: SizeCriteria, after: SizeCriteria)

  /**
   * `findSources` on a worker: in parallel mode every minimum is 1 during
   * the search, so nothing on a border is missed; afterwards the saved
   * values are back. A serial search uses the criteria as they are.
   */
  function WorkerSearchCriteria(c: SizeCriteria, parallel: bool): (r: SearchCriteria)
    ensures r.after == c
    ensures parallel ==> r.during.minPix == 1 && r.during.minChannels == 1 && r.during.minVoxels == 1
    ensures !parallel ==> r.during == c
  {
    var saved := c;
    var relaxed := if parallel then SizeCriteria(1, 1, 1) else c;
    SearchCriteria(relaxed, if parallel then saved else relaxed)
  }

  // ------------------------------------------------------------- sources

  /** A source as the cleanup sees it; the rest of a `RadioSource` is `payload`. */
  datatype Source = Source(atEdge: bool, spatialSize: int, xCentre: real, vel: real, id: int, flagText: string, payload: int)

  function Filter(s: seq<Source>, p: Source -> bool): (r: seq<Source>)
    ensures |r| <= |s|
  {
    if |s| == 0 then [] else (if p(s[0]) then [s[0]] else []) + Filter(s[1..], p)
  }

  /** The filter keeps exactly the sources that pass the test. */
  lemma {:induction false} FilterMembers(s: seq<Source>, p: Source -> bool, x: Source)
    ensures x in Filter(s, p) <==> x in s && p(x)
  {
    if |s| > 0 {
      FilterMembers(s[1..], p, x);
      assert s == [s[0]] + s[1..];
    }
  }

  /** Filtering keeps the order: it distributes over concatenation. */
  lemma {:induction false} FilterAppend(a: seq<Source>, b: seq<Source>, p: Source -> bool)
    ensures Filter(a + b, p) == Filter(a, p) + Filter(b, p)
  {
    if |a| > 0 {
      assert (a + b)[1..] == a[1..] + b;
      FilterAppend(a[1..], b, p);
    } else {
      assert a + b == b;
    }
  }

  function IsEdge(s: Source): bool { s.atEdge }

  function IsInner(s: Source): bool { !s.atEdge }

  /** `cleanup` splits the sources into edge and non-edge ones: together they are the sources. */
  lemma {:induction false} EdgePartition(s: seq<Source>)
    ensures multiset(Filter(s, IsEdge)) + multiset(Filter(s, IsInner)) == multiset(s)
  {
    if |s| > 0 {
      var t := s[1..];
      EdgePartition(t);
      var head := [s[0]];
      assert multiset(s) == multiset(head) + multiset(t) by {
        assert s == head + t;
      }
      if s[0].atEdge {
        assert multiset(Filter(s, IsEdge)) == multiset(head) + multiset(Filter(t, IsEdge)) by {
          assert Filter(s, IsEdge) == head + Filter(t, IsEdge);
        }
        assert Filter(s, IsInner) == Filter(t, IsInner);
      } else {
        assert multiset(Filter(s, IsInner)) == multiset(head) + multiset(Filter(t, IsInner)) by {
          assert Filter(s, IsInner) == head + Filter(t, IsInner);
        }
        assert Filter(s, IsEdge) == Filter(t, IsEdge);
      }
    }
  }

  /**
   * What a worker keeps after its search: the non-edge objects, passed
   * through Duchamp's `finaliseList`, followed by the edge objects in their
   * original order.
   */
  function WorkerList(objects: seq<Source>, finalise: seq<Source> -> seq<Source>): (r: seq<Source>)
    ensures |r| == |finalise(Filter(objects, IsInner))| + |Filter(objects, IsEdge)|
    ensures r[|r| - |Filter(objects, IsEdge)|..] == Filter(objects, IsEdge)
    ensures r[..|r| - |Filter(objects, IsEdge)|] == finalise(Filter(objects, IsInner))
  {
    finalise(Filter(objects, IsInner)) + Filter(objects, IsEdge)
  }

  /** The size test on a non-edge source: enough channels and at least `minPix` pixels. */
  predicate BigEnough(s: Source, enoughChannels: Source -> bool, minPix: int)
  {
    enoughChannels(s) && s.spatialSize >= minPix
  }

  // -------------------------------------------------------------- sorting

  /** An entry of the multimap: sort key and position in the unsorted list. */
  type Entry = (real, nat)

  /** Entries ordered by key, and by position among equal keys. */
  predicate SortedEntries(s: seq<Entry>)
  {
    forall i, j :: 0 <= i < j < |s| ==> Before(s[i], s[j])
  }

  /** `multimap::insert`: the new entry goes after every entry with a key not above its own. */
  function InsertUpper(s: seq<Entry>, e: Entry): (r: seq<Entry>)
    ensures multiset(r) == multiset(s) + multiset{e}
    ensures |r| == |s| + 1
  {
    if |s| == 0 then [e]
    else
      assert s == [s[0]] + s[1..];
      if s[0].0 <= e.0 then [s[0]] + InsertUpper(s[1..], e)
      else [e] + s
  }

  lemma {:induction false} InsertUpperSorted(s: seq<Entry>, e: Entry)
    requires SortedEntries(s)
    requires forall i :: 0 <= i < |s| ==> s[i].1 < e.1
    ensures SortedEntries(InsertUpper(s, e))
  {
    if |s| > 0 && s[0].0 <= e.0 {
      var rest := s[1..];
      InsertUpperSorted(rest, e);
      var t := InsertUpper(rest, e);
      assert forall x :: x in rest ==> Before(s[0], x);
      forall k | 0 <= k < |t| ensures Before(s[0], t[k]) {
        assert t[k] in multiset(t);
      }
    }
  }

  /** `a` comes before `b` in a sorted multimap. */
  predicate Before(a: Entry, b: Entry)
  {
    a.0 < b.0 || (a.0 == b.0 && a.1 < b.1)
  }

  /** The multimap after inserting (key(i), i) for every position i of `keys`, in order. */
  function Multimap(keys: seq<real>): (r: seq<Entry>)
    ensures |r| == |keys|
  {
    if |keys| == 0 then []
    else
      var n := |keys| - 1;
      InsertUpper(Multimap(keys[..n]), (keys[n], n))
  }

  /** The multimap holds the entries (key(i), i), each once. */
  lemma {:induction false} MultimapPositions(keys: seq<real>)
    ensures multiset(Multimap(keys)) == multiset(Positions(keys, |keys|))
  {
    if |keys| > 0 {
      var n := |keys| - 1;
      PositionsPrefix(keys, n);
      MultimapPositions(keys[..n]);
    }
  }

  /** The entries (key(i), i) for i < n. */
  function Positions(keys: seq<real>, n: nat): seq<Entry>
    requires n <= |keys|
  {
    if n == 0 then [] else Positions(keys, n - 1) + [(keys[n - 1], n - 1)]
  }

  lemma {:induction false} PositionsPrefix(keys: seq<real>, n: nat)
    requires n < |keys|
    ensures Positions(keys[..n], n) == Positions(keys, n)
  {
    if n > 0 {
      PositionsPrefix(keys, n - 1);
      assert Positions(keys[..n], n - 1) == Positions(keys[..n - 1], n - 1) by {
        PositionsAgree(keys[..n], keys[..n - 1], n - 1);
      }
    }
  }

  lemma {:induction false} PositionsAgree(a: seq<real>, b: seq<real>, n: nat)
    requires n <= |a| && n <= |b| && a[..n] == b[..n]
    ensures Positions(a, n) == Positions(b, n)
  {
    if n > 0 {
      assert a[n - 1] == a[..n][n - 1];
      PositionsAgree(a, b, n - 1);
    }
  }

  lemma {:induction false} PositionsBelow(keys: seq<real>, n: nat, e: Entry)
    requires n <= |keys| && e in multiset(Positions(keys, n))
    ensures e.1 < n && e.0 == keys[e.1]
  {
    if n > 0 && e != (keys[n - 1], n - 1) {
      PositionsBelow(keys, n - 1, e);
    }
  }

  /** The multimap holds every position once, ordered by key and stable among equal keys. */
  lemma {:induction false} MultimapSorted(keys: seq<real>)
    ensures SortedEntries(Multimap(keys))
    ensures forall k :: 0 <= k < |keys| ==> Multimap(keys)[k].1 < |keys| && Multimap(keys)[k].0 == keys[Multimap(keys)[k].1]
  {
    if |keys| > 0 {
      var n := |keys| - 1;
      var init := keys[..n];
      MultimapSorted(init);
      var m := Multimap(init);
      PositionsPrefix(keys, n);
      MultimapPositions(init);
      MultimapPositions(keys);
      forall i | 0 <= i < |m| ensures m[i].1 < n && m[i].0 == keys[m[i].1] {
        assert m[i] in multiset(Positions(init, n));
        PositionsBelow(init, n, m[i]);
      }
      InsertUpperSorted(m, (keys[n], n));
      var r := Multimap(keys);
      forall k | 0 <= k < |keys| ensures r[k].1 < |keys| && r[k].0 == keys[r[k].1] {
        assert r[k] in multiset(r);
        PositionsBelow(keys, |keys|, r[k]);
      }
    }
  }

  /** The sort key of a source: the x centre in a 2-D cube, the velocity otherwise. */
  function SortKey(s: Source, twoD: bool): real
  {
    if twoD then s.xCentre else s.vel
  }

  function Keys(list: seq<Source>, twoD: bool): (r: seq<real>)
    ensures |r| == |list|
    ensures forall i :: 0 <= i < |list| ==> r[i] == SortKey(list[i], twoD)
  {
    seq(|list|, i requires 0 <= i < |list| => SortKey(list[i], twoD))
  }

  /** The list read back from the multimap. */
  function SortByKey(list: seq<Source>, twoD: bool): (r: seq<Source>)
    ensures |r| == |list|
  {
    var m := Multimap(Keys(list, twoD));
    MultimapSorted(Keys(list, twoD));
    seq(|list|, k requires 0 <= k < |list| => list[m[k].1])
  }

  /**
   * The sort is by key, and stable: sources with equal keys keep their
   * order; and every source of the list appears once.
   */
  lemma SortByKeyCorrect(list: seq<Source>, twoD: bool)
    ensures forall i, j :: 0 <= i < j < |list| ==>
              SortKey(SortByKey(list, twoD)[i], twoD) <= SortKey(SortByKey(list, twoD)[j], twoD)
    ensures exists order: seq<nat> :: StablePermutation(list, twoD, order, SortByKey(list, twoD))
  {
    var keys := Keys(list, twoD);
    var m := Multimap(keys);
    MultimapSorted(keys);
    var order := seq(|list|, k requires 0 <= k < |list| => m[k].1);
    DistinctOrder(m, keys, order, |list|);
    assert StablePermutation(list, twoD, order, SortByKey(list, twoD));
  }

  /**
   * `r` lists `list` in the order `order`, a permutation of its positions
   * that keeps positions with equal keys ascending.
   */
  ghost predicate StablePermutation(list: seq<Source>, twoD: bool, order: seq<nat>, r: seq<Source>)
  {
    |order| == |list| == |r|
    && (forall k :: 0 <= k < |order| ==> order[k] < |list| && r[k] == list[order[k]])
    && (forall k, l :: 0 <= k < l < |order| ==> order[k] != order[l])
    && (forall k, l :: 0 <= k < l < |order| && SortKey(r[k], twoD) == SortKey(r[l], twoD) ==> order[k] < order[l])
  }

  /** In a sorted multimap whose keys are determined by positions, no position appears twice. */
  lemma DistinctOrder(m: seq<Entry>, keys: seq<real>, order: seq<nat>, n: nat)
    requires |m| == |order| == n && SortedEntries(m)
    requires forall k :: 0 <= k < n ==> m[k].1 < |keys| && m[k].0 == keys[m[k].1]
    requires forall k :: 0 <= k < n ==> order[k] == m[k].1
    ensures forall k, l :: 0 <= k < l < n ==> order[k] != order[l]
  {
  }

  // -------------------------------------------------------------- cleanup

  /** The final list: sources numbered 1..n in order, flagged "E" or "-" by where they now lie. */
  function Number(list: seq<Source>, atEdgeNow: Source -> bool): (r: seq<Source>)
    ensures |r| == |list|
    ensures forall k :: 0 <= k < |r| ==> r[k].id == k + 1
    ensures forall k :: 0 <= k < |r| ==> r[k].atEdge == atEdgeNow(list[k])
    ensures forall k :: 0 <= k < |r| ==> r[k].flagText == list[k].flagText + (if atEdgeNow(list[k]) then "E" else "-")
    ensures forall k :: 0 <= k < |r| ==> r[k].payload == list[k].payload
    ensures forall k :: 0 <= k < |r| ==> r[k].xCentre == list[k].xCentre && r[k].vel == list[k].vel
  {
    seq(|list|, k requires 0 <= k < |list| =>
      var edge := atEdgeNow(list[k]);
      list[k].(id := k + 1, atEdge := edge, flagText := list[k].flagText + (if edge then "E" else "-")))
  }

  /**
   * `cleanup` on the master: edge sources go through merging and parameter
   * calculation (`processEdges`), non-edge ones are kept if big enough;
   * the processed edge sources come first, then the kept ones, and the
   * whole list is sorted by key and numbered.
   */
  function Cleanup(sources: seq<Source>, processEdges: seq<Source> -> seq<Source>,
                   enoughChannels: Source -> bool, minPix: int, twoD: bool, atEdgeNow: Source -> bool)
    : (r: seq<Source>)
    ensures |r| == |processEdges(Filter(sources, IsEdge))|
                   + |Filter(Filter(sources, IsInner), s => BigEnough(s, enoughChannels, minPix))|
    ensures forall k :: 0 <= k < |r| ==> r[k].id == k + 1
  {
    var edges := processEdges(Filter(sources, IsEdge));
    var good := Filter(Filter(sources, IsInner), s => BigEnough(s, enoughChannels, minPix));
    Number(SortByKey(edges + good, twoD), atEdgeNow)
  }

  /** The final list is in key order. */
  lemma CleanupSortedByKey(sources: seq<Source>, processEdges: seq<Source> -> seq<Source>,
                           enoughChannels: Source -> bool, minPix: int, twoD: bool, atEdgeNow: Source -> bool)
    ensures var r := Cleanup(sources, processEdges, enoughChannels, minPix, twoD, atEdgeNow);
            forall i, j :: 0 <= i < j < |r| ==> SortKey(r[i], twoD) <= SortKey(r[j], twoD)
  {
    var edges := processEdges(Filter(sources, IsEdge));
    var good := Filter(Filter(sources, IsInner), s => BigEnough(s, enoughChannels, minPix));
    SortByKeyCorrect(edges + good, twoD);
  }

  /** Filtering twice is filtering by both tests. */
  lemma {:induction false} FilterTwice(s: seq<Source>, p: Source -> bool, q: Source -> bool, both: Source -> bool)
    requires forall x :: both(x) == (p(x) && q(x))
    ensures Filter(Filter(s, p), q) == Filter(s, both)
  {
    if |s| > 0 {
      FilterTwice(s[1..], p, q, both);
      var head := if p(s[0]) then [s[0]] else [];
      FilterAppend(head, Filter(s[1..], p), q);
      if p(s[0]) {
        assert head[1..] == [];
      }
    }
  }

  /** The test the master keeps a non-edge source by. */
  function Kept(enoughChannels: Source -> bool, minPix: int): Source -> bool
  {
    s => IsInner(s) && BigEnough(s, enoughChannels, minPix)
  }

  /** `b` is `a` after numbering: the ID and edge flags may change, the rest of the source is kept. */
  predicate Renumbered(a: Source, b: Source)
  {
    b.spatialSize == a.spatialSize && b.xCentre == a.xCentre && b.vel == a.vel && b.payload == a.payload
  }

  /**
   * `r` is `list` sorted stably by key and numbered from 1: `order` is a
   * permutation of the positions of `list`, `r[k]` is `list[order[k]]`
   * renumbered as k + 1, keys do not decrease and equal keys keep their
   * positions ascending.
   */
  ghost predicate StableRenumbering(list: seq<Source>, twoD: bool, order: seq<nat>, r: seq<Source>)
  {
    |order| == |list| == |r|
    && (forall k :: 0 <= k < |order| ==> order[k] < |list| && Renumbered(list[order[k]], r[k]) && r[k].id == k + 1)
    && (forall k, l :: 0 <= k < l < |order| ==> order[k] != order[l])
    && (forall k, l :: 0 <= k < l < |r| ==> SortKey(r[k], twoD) <= SortKey(r[l], twoD))
    && (forall k, l :: 0 <= k < l < |order| && SortKey(r[k], twoD) == SortKey(r[l], twoD) ==> order[k] < order[l])
  }

  /**
   * The master's final list is the processed edge sources followed by the
   * non-edge sources that are big enough, sorted stably by key and
   * numbered 1, 2, ...; every source keeps its position, size and payload.
   */
  lemma CleanupIsStableSort(sources: seq<Source>, processEdges: seq<Source> -> seq<Source>,
                            enoughChannels: Source -> bool, minPix: int, twoD: bool, atEdgeNow: Source -> bool)
    ensures var r := Cleanup(sources, processEdges, enoughChannels, minPix, twoD, atEdgeNow);
            var input := processEdges(Filter(sources, IsEdge)) + Filter(sources, Kept(enoughChannels, minPix));
            exists order: seq<nat> :: StableRenumbering(input, twoD, order, r)
  {
    var big := s => BigEnough(s, enoughChannels, minPix);
    var edges := processEdges(Filter(sources, IsEdge));
    var good := Filter(Filter(sources, IsInner), big);
    FilterTwice(sources, IsInner, big, Kept(enoughChannels, minPix));
    var input := edges + good;
    var sorted := SortByKey(input, twoD);
    SortByKeyCorrect(input, twoD);
    var order :| StablePermutation(input, twoD, order, sorted);
    NumberedStable(input, twoD, order, sorted, atEdgeNow);
    var r := Cleanup(sources, processEdges, enoughChannels, minPix, twoD, atEdgeNow);
    assert r == Number(sorted, atEdgeNow);
    assert StableRenumbering(input, twoD, order, r);
    assert exists o: seq<nat> :: StableRenumbering(processEdges(Filter(sources, IsEdge)) + Filter(sources, Kept(enoughChannels, minPix)), twoD, o, r);
  }

  /** Numbering a stable sort keeps it one. */
  lemma NumberedStable(list: seq<Source>, twoD: bool, order: seq<nat>, sorted: seq<Source>, atEdgeNow: Source -> bool)
    requires StablePermutation(list, twoD, order, sorted)
    requires forall i, j :: 0 <= i < j < |sorted| ==> SortKey(sorted[i], twoD) <= SortKey(sorted[j], twoD)
    ensures StableRenumbering(list, twoD, order, Number(sorted, atEdgeNow))
  {
    var r := Number(sorted, atEdgeNow);
    assert forall k :: 0 <= k < |r| ==> SortKey(r[k], twoD) == SortKey(sorted[k], twoD);
  }

  // ---------------------------------------------------------- distribution

  /** The worker (counted from 0, rank minus 1) that source `i` is sent to. */
  function WorkerFor(i: nat, nNodes: nat): (w: nat)
    requires nNodes >= 2
    ensures w < nNodes - 1
  {
    i % (nNodes - 1)
  }

  /** How many of the first `n` sources go to worker `w`. */
  function SentTo(n: nat, nNodes: nat, w: nat): nat
    requires nNodes >= 2
  {
    if n == 0 then 0 else SentTo(n - 1, nNodes, w) + (if WorkerFor(n - 1, nNodes) == w then 1 else 0)
  }

  /**
   * The distribution is round-robin: worker `w` of `m` gets `n / m`
   * sources, one more when `w < n % m`.
   */
  lemma {:induction false} RoundRobinBalanced(n: nat, nNodes: nat, w: nat)
    requires nNodes >= 2 && w < nNodes - 1
    ensures SentTo(n, nNodes, w) == n / (nNodes - 1) + (if w < n % (nNodes - 1) then 1 else 0)
  {
    if n > 0 {
      RoundRobinBalanced(n - 1, nNodes, w);
      DivModNext(n - 1, nNodes - 1);
    }
  }

  lemma DivModNext(a: nat, m: nat)
    requires m >= 1
    ensures a % m == m - 1 ==> (a + 1) / m == a / m + 1 && (a + 1) % m == 0
    ensures a % m < m - 1 ==> (a + 1) / m == a / m && (a + 1) % m == a % m + 1
  {
    var q, r := a / m, a % m;
    if r == m - 1 {
      DivModUnique(a + 1, m, q + 1, 0);
    } else {
      DivModUnique(a + 1, m, q, r + 1);
    }
  }

  /** Quotient and remainder are the only ones with the remainder in [0, m). */
  lemma DivModUnique(a: int, m: nat, q: int, r: int)
    requires m >= 1 && a == q * m + r && 0 <= r < m
    ensures a / m == q && a % m == r
  {
    var q2, r2 := a / m, a % m;
    assert a == q2 * m + r2;
    if q < q2 {
      MulGap(q, q2, m);
    } else if q2 < q {
      MulGap(q2, q, m);
    }
  }

  lemma MulGap(a: int, b: int, n: nat)
    requires a < b
    ensures b * n - a * n >= n
  {
    var d: nat := b - a;
    MulMono(1, d, n);
    assert b * n - a * n == d * n;
  }

  lemma MulMono(a: nat, b: nat, c: nat)
    requires a <= b
    ensures a * c <= b * c
  {
  }

  // ----------------------------------------------------------------- means

  /** What a worker reports: the mean of its pixels and how many there were. */
  datatype WorkerMean = WorkerMean(mean: real, size: int)

  function TotalSize(ws: seq<WorkerMean>): int
  {
    if |ws| == 0 then 0 else TotalSize(ws[..|ws| - 1]) + ws[|ws| - 1].size
  }

  function WeightedSum(ws: seq<WorkerMean>): real
  {
    if |ws| == 0 then 0.0 else WeightedSum(ws[..|ws| - 1]) + ws[|ws| - 1].mean * ws[|ws| - 1].size as real
  }

  /**
   * The master's combined mean: the sum of the workers' means weighted by
   * their sizes, divided by the total size when that is positive.
   */
  function CombinedMean(ws: seq<WorkerMean>): (av: real)
    ensures TotalSize(ws) > 0 ==> av * TotalSize(ws) as real == WeightedSum(ws)
    ensures TotalSize(ws) <= 0 ==> av == WeightedSum(ws)
  {
    var size := TotalSize(ws);
    var sum := WeightedSum(ws);
    if size > 0 then sum / size as real else sum
  }

  /** With no negative sizes, a total of 0 leaves the mean at 0. */
  lemma {:induction false} EmptyWorkersMeanZero(ws: seq<WorkerMean>)
    requires forall i :: 0 <= i < |ws| ==> ws[i].size >= 0
    requires TotalSize(ws) == 0
    ensures CombinedMean(ws) == 0.0
  {
    NoSizeNoSum(ws);
  }

  lemma {:induction false} NoSizeNoSum(ws: seq<WorkerMean>)
    requires forall i :: 0 <= i < |ws| ==> ws[i].size >= 0
    ensures TotalSize(ws) >= 0
    ensures TotalSize(ws) == 0 ==> WeightedSum(ws) == 0.0
  {
    if |ws| > 0 {
      NoSizeNoSum(ws[..|ws| - 1]);
    }
  }

  /** Workers that all report the same mean combine to that mean. */
  lemma EqualMeansCombine(ws: seq<WorkerMean>, m: real)
    requires forall i :: 0 <= i < |ws| ==> ws[i].mean == m
    requires TotalSize(ws) > 0
    ensures CombinedMean(ws) == m
  {
    SumOfEqualMeans(ws, m);
    DivideExact(WeightedSum(ws), TotalSize(ws) as real, m);
  }

  lemma DivideExact(w: real, t: real, m: real)
    requires t > 0.0 && w == m * t
    ensures w / t == m
  {
  }

  lemma {:induction false} SumOfEqualMeans(ws: seq<WorkerMean>, m: real)
    requires forall i :: 0 <= i < |ws| ==> ws[i].mean == m
    ensures WeightedSum(ws) == m * TotalSize(ws) as real
  {
    if |ws| > 0 {
      SumOfEqualMeans(ws[..|ws| - 1], m);
    }
  }
}
