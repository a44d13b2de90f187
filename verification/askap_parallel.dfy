// `AskapParallel`: the roles a process takes from its rank and the number of
// processes, the master/worker connection star built by `initConnections`,
// and the "%w" / "%n" substitution applied to file names.

module AskapParallel {
  import opened Common

  datatype Roles = Roles(isParallel: bool, isMaster: bool, isWorker: bool)

  /**
   * The role flags set in the constructor: rank 0 is the master, a serial
   * process also works, and a parallel process is exactly one of the two.
   */
  function RolesOf(rank: nat, nNode: int): (r: Roles)
    ensures r.isParallel <==> nNode > 1
    ensures r.isMaster <==> rank == 0
    ensures !r.isParallel ==> r.isWorker
    ensures r.isParallel ==> r.isMaster != r.isWorker
  {
    Roles(nNode > 1, rank == 0, nNode <= 1 || rank > 0)
  }

  /** How many of the ranks below `n` of an `nNode`-process job are masters, or workers. */
  function CountRole(nNode: int, n: nat, master: bool): nat
  {
    if n == 0 then 0
    else
      var r := RolesOf(n - 1, nNode);
      CountRole(nNode, n - 1, master) + (if (if master then r.isMaster else r.isWorker) then 1 else 0)
  }

  /** Counting up to `n` in a parallel job: rank 0 is the one master, every other rank works. */
  lemma {:induction false} CountRoleBelow(nNode: int, n: nat)
    requires nNode > 1
    ensures CountRole(nNode, n, true) == (if n > 0 then 1 else 0)
    ensures CountRole(nNode, n, false) == (if n > 0 then n - 1 else 0)
  {
    if n > 0 {
      CountRoleBelow(nNode, n - 1);
    }
  }

  /** In a parallel job of `nNode` processes one is the master and the other `nNode - 1` work. */
  lemma RolesPartition(nNode: nat)
    requires nNode > 1
    ensures CountRole(nNode, nNode, true) == 1
    ensures CountRole(nNode, nNode, false) == nNode - 1
  {
    CountRoleBelow(nNode, nNode);
  }

  /** The ranks this process opens a connection to, in the order they are added. */
  function Connections(rank: nat, nNode: int): (peers: seq<int>)
    ensures nNode <= 1 ==> peers == []
    ensures nNode > 1 && rank == 0 ==>
              |peers| == nNode - 1 && forall i :: 0 <= i < |peers| ==> peers[i] == i + 1
    ensures nNode > 1 && rank > 0 ==> peers == [0]
  {
    var roles := RolesOf(rank, nNode);
    if !roles.isParallel then []
    else (if roles.isMaster then Range(1, nNode) else []) + (if roles.isWorker then [0] else [])
  }

  function Range(lo: int, hi: int): (r: seq<int>)
    ensures |r| == if lo <= hi then hi - lo else 0
    ensures forall i :: 0 <= i < |r| ==> r[i] == lo + i
    decreases hi - lo
  {
    if lo >= hi then [] else [lo] + Range(lo + 1, hi)
  }

  /** In parallel mode the connections form a star around rank 0, seen from both ends. */
  lemma ConnectionsSymmetric(a: nat, b: nat, nNode: int)
    requires nNode > 1 && a < nNode && b < nNode
    ensures b in Connections(a, nNode) <==> a in Connections(b, nNode)
    ensures b in Connections(a, nNode) <==> (a == 0) != (b == 0)
  {
    var ca := Connections(a, nNode);
    var cb := Connections(b, nNode);
    if a == 0 && b > 0 {
      assert ca[b - 1] == b;
    }
    if b == 0 && a > 0 {
      assert cb[a - 1] == a;
    }
  }

  /** What "%w" becomes: the worker number, counted from 0. */
  function WorkerText(rank: int, nNode: int): string
  {
    if nNode > 1 then IntToString(rank - 1) else "0"
  }

  /** What "%n" becomes: the number of workers. */
  function NodeText(nNode: int): string
  {
    if nNode > 1 then IntToString(nNode - 1) else "1"
  }

  /** `substitute`: every "%w" first, then every "%n". */
  function Substitute(s: string, rank: int, nNode: int): string
  {
    ReplacePair(ReplacePair(s, '%', 'w', WorkerText(rank, nNode)), '%', 'n', NodeText(nNode))
  }

  lemma IntToStringHasNoPercent(i: int)
    ensures '%' !in IntToString(i)
    ensures IntToString(i)[0] != 'w' && IntToString(i)[0] != 'n'
  {
    var s := IntToString(i);
    var d := NatToString(if i < 0 then -i else i);
    assert forall k :: 0 <= k < |d| ==> IsDigit(d[k]);
    if i < 0 {
      assert forall k :: 1 <= k < |s| ==> s[k] == d[k - 1];
    }
  }

  /** A name with neither token is returned unchanged. */
  lemma SubstituteWithoutTokens(s: string, rank: int, nNode: int)
    requires !HasPair(s, '%', 'w') && !HasPair(s, '%', 'n')
    ensures Substitute(s, rank, nNode) == s
  {
    ReplacePairAbsent(s, '%', 'w', WorkerText(rank, nNode));
    ReplacePairAbsent(s, '%', 'n', NodeText(nNode));
  }

  /** After substitution no "%w" and no "%n" is left. */
  lemma SubstituteRemovesTokens(s: string, rank: int, nNode: int)
    ensures !HasPair(Substitute(s, rank, nNode), '%', 'w')
    ensures !HasPair(Substitute(s, rank, nNode), '%', 'n')
  {
    var w := WorkerText(rank, nNode);
    var n := NodeText(nNode);
    IntToStringHasNoPercent(rank - 1);
    IntToStringHasNoPercent(nNode - 1);
    var t := ReplacePair(s, '%', 'w', w);
    ReplacePairRemovesAll(s, '%', 'w', w);
    ReplacePairRemovesAll(t, '%', 'n', n);
    ReplacePairCreatesNoOther(t, '%', 'n', 'w', n);
  }

  /** Rank 3 of a five-process job is worker number 2 of 4. */
  lemma SubstituteExample()
    ensures Substitute("%w.%n", 3, 5) == "2.4"
  {
    assert IntToString(2) == "2" && IntToString(4) == "4";
    assert ReplacePair(".%n", '%', 'w', "2") == ".%n" by {
      assert ReplacePair("%n", '%', 'w', "2") == "%n";
    }
    assert ReplacePair("%w.%n", '%', 'w', "2") == "2.%n";
    assert ReplacePair("2.%n", '%', 'n', "4") == "2.4" by {
      assert ReplacePair(".%n", '%', 'n', "4") == ".4";
    }
  }
}
