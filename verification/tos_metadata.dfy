// `TosMetadata`: the telescope operating system metadata of one
// integration — a time, a scan id, a flag and a list of antennas that is
// appended to and indexed by position.

module TosMetadata {
  import opened Common

  const TwoTo64: nat := 0x1_0000_0000_0000_0000

  /** A `TosMetadataAntenna`, of which the model keeps the name. */
  datatype Antenna = Antenna(name: string)

  /** `time` is a `uLong`, `scanId` an `Int`. */
  datatype Metadata = Metadata(time: nat, scanId: int, flagged: bool, antennas: seq<Antenna>)

  predicate Valid(m: Metadata)
  {
    m.time < TwoTo64 && IsInt32(m.scanId)
  }

  const DuplicateName := "An antenna with this name already exists"
  const InvalidIndex := "Invalid antenna index"

  /** The default constructor. */
  function New(): (m: Metadata)
    ensures Valid(m) && m.time == 0 && m.scanId == -1 && !m.flagged && NAntenna(m) == 0
  {
    Metadata(0, -1, false, [])
  }

  function SetTime(m: Metadata, time: nat): (r: Metadata)
    requires time < TwoTo64
    ensures r.time == time && r.scanId == m.scanId && r.flagged == m.flagged && r.antennas == m.antennas
  {
    m.(time := time)
  }

  function SetScanId(m: Metadata, id: int): (r: Metadata)
    requires IsInt32(id)
    ensures r.scanId == id && r.time == m.time && r.flagged == m.flagged && r.antennas == m.antennas
  {
    m.(scanId := id)
  }

  function SetFlagged(m: Metadata, flag: bool): (r: Metadata)
    ensures r.flagged == flag && r.time == m.time && r.scanId == m.scanId && r.antennas == m.antennas
  {
    m.(flagged := flag)
  }

  /** `nAntenna()`: the list size returned as a `uInt`. */
  function NAntenna(m: Metadata): (n: nat)
    ensures n < TwoTo32
    ensures |m.antennas| < TwoTo32 ==> n == |m.antennas|
  {
    U32(|m.antennas|)
  }

  predicate HasName(antennas: seq<Antenna>, name: string)
  {
    exists k :: 0 <= k < |antennas| && antennas[k].name == name
  }

  /** The duplicate search in `addAntenna`. */
  function FindName(antennas: seq<Antenna>, name: string): (r: bool)
    ensures r <==> HasName(antennas, name)
  {
    if |antennas| == 0 then false
    else if antennas[0].name == name then true
    else
      var rest := FindName(antennas[1..], name);
      assert forall k :: 1 <= k < |antennas| ==> antennas[k] == antennas[1..][k - 1];
      assert HasName(antennas[1..], name) ==> HasName(antennas, name) by {
        if HasName(antennas[1..], name) {
          var k :| 0 <= k < |antennas[1..]| && antennas[1..][k].name == name;
          assert antennas[k + 1].name == name;
        }
      }
      rest
  }

  /**
   * `addAntenna`: a name already present is refused and the list is kept;
   * otherwise the antenna is appended and its index, the old size as a
   * `uInt`, is returned.
   */
  function AddAntenna(m: Metadata, name: string): (r: Result<(Metadata, nat)>)
    ensures r.Err? <==> HasName(m.antennas, name)
    ensures r.Err? ==> r.error == DuplicateName
    ensures r.Ok? ==> r.value.0.antennas == m.antennas + [Antenna(name)]
    ensures r.Ok? ==> r.value.0.time == m.time && r.value.0.scanId == m.scanId && r.value.0.flagged == m.flagged
    ensures r.Ok? ==> r.value.1 == U32(|m.antennas|)
  {
    if FindName(m.antennas, name) then Err(DuplicateName)
    else
      var m' := m.(antennas := m.antennas + [Antenna(name)]);
      Ok((m', U32(|m'.antennas| - 1)))
  }

  // ------------------------------------------------- the index check

  /**
   * `checkAntennaId` as written: `id + 1 > nAntenna()` evaluated in `uInt`.
   * The result says whether the check lets the index through.
   */
  function CheckAntennaIdAsWritten(id: nat, m: Metadata): (pass: bool)
    requires id < TwoTo32
    ensures id + 1 < TwoTo32 ==> (pass <==> id + 1 <= NAntenna(m))
  {
    !(U32(id + 1) > NAntenna(m))
  }

  /** The largest `uInt` wraps to 0 when incremented, so it passes the check on any list, even though no list can hold that index. */
  lemma MaxIdPassesCheck(m: Metadata)
    requires |m.antennas| < TwoTo32
    ensures CheckAntennaIdAsWritten(TwoTo32 - 1, m)
    ensures TwoTo32 - 1 >= |m.antennas|
  {
  }

  /** The intended check: the index names an added antenna. */
  function CheckAntennaId(id: nat, m: Metadata): bool
  {
    id < |m.antennas|
  }

  /** Below the largest `uInt` the check as written and the intended one agree. */
  lemma CheckAgreesBelowMax(id: nat, m: Metadata)
    requires id + 1 < TwoTo32 && |m.antennas| < TwoTo32
    ensures CheckAntennaIdAsWritten(id, m) == CheckAntennaId(id, m)
  {
  }

  /** `antenna(id)` with the intended check: the `id`-th added antenna, or an error. */
  function GetAntenna(m: Metadata, id: nat): (r: Result<Antenna>)
    ensures r.Ok? <==> id < |m.antennas|
    ensures r.Ok? ==> r.value == m.antennas[id]
    ensures r.Err? ==> r.error == InvalidIndex
  {
    if !CheckAntennaId(id, m) then Err(InvalidIndex) else Ok(m.antennas[id])
  }

  // ----------------------------------------------------------- properties

  /** Names in the list are pairwise distinct. */
  predicate DistinctNames(antennas: seq<Antenna>)
  {
    forall i, j :: 0 <= i < j < |antennas| ==> antennas[i].name != antennas[j].name
  }

  /** Adding keeps names distinct, grows the list by one, and the returned index reads back the new antenna. */
  lemma AddThenGet(m: Metadata, name: string)
    requires DistinctNames(m.antennas) && |m.antennas| + 1 < TwoTo32
    ensures var r := AddAntenna(m, name);
            r.Ok? ==> DistinctNames(r.value.0.antennas)
                      && NAntenna(r.value.0) == NAntenna(m) + 1
                      && GetAntenna(r.value.0, r.value.1) == Ok(Antenna(name))
                      && (forall id :: 0 <= id < |m.antennas| ==> GetAntenna(r.value.0, id) == GetAntenna(m, id))
  {
    var r := AddAntenna(m, name);
    if r.Ok? {
      var a := r.value.0.antennas;
      forall i, j | 0 <= i < j < |a| ensures a[i].name != a[j].name {
        if j == |m.antennas| {
          assert !HasName(m.antennas, name);
          assert a[i] == m.antennas[i];
        }
      }
    }
  }

  /** A refused name leaves the whole object as it was. */
  lemma DuplicateKeepsList(m: Metadata, k: nat)
    requires k < |m.antennas|
    ensures AddAntenna(m, m.antennas[k].name) == Err(DuplicateName)
  {
  }

  /** Setting a field and reading it back returns the value set, and nothing else moves. */
  lemma SettersRoundTrip(m: Metadata, time: nat, id: int, flag: bool)
    requires Valid(m) && time < TwoTo64 && IsInt32(id)
    ensures SetTime(m, time).time == time && Valid(SetTime(m, time))
    ensures SetScanId(m, id).scanId == id && Valid(SetScanId(m, id))
    ensures SetFlagged(m, flag).flagged == flag && SetFlagged(m, flag).antennas == m.antennas
  {
  }
}
