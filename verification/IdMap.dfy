/** findID of psgo.go: from a container's user or group ID to the host's. */
module IdMap {
  import opened Outcomes
  import opened Text

  /** From an ID to a name, or to the ID itself */
  type Lookup = string -> Outcome<string>

  datatype IDMap = IDMap(containerID: int, hostID: int, size: int)

  /** The test of the loop, in Go's 64-bit arithmetic. */
  predicate InRange(m: IDMap, id: int) {
    id >= m.containerID && id < Wrap64(m.containerID + m.size)
  }

  function HostOf(m: IDMap, id: int): int {
    Wrap64(m.hostID + Wrap64(id - m.containerID))
  }

  /** The first range that the ID is in, or -1 */
  function FirstRange(mapping: seq<IDMap>, id: int): (i: int)
    ensures -1 <= i < |mapping|
    ensures i >= 0 ==> InRange(mapping[i], id)
    ensures forall j :: 0 <= j < (if i == -1 then |mapping| else i) ==> !InRange(mapping[j], id)
  {
    if mapping == [] then -1
    else if InRange(mapping[0], id) then 0
    else
      var i := FirstRange(mapping[1..], id);
      if i == -1 then -1 else i + 1
  }

  /** What findID finds: a numeral is looked up after it is mapped; overflow is what the overflow file holds. */
  function FoundID(idStr: string, mapping: seq<IDMap>, lookup: Lookup, overflow: Outcome<string>): Outcome<string>
  {
    if mapping == [] then Ok(idStr)
    else
      match ParseInt(idStr)
      case Err(e) => Err(e)
      case Panic => Panic
      case Ok(id) =>
        var i := FirstRange(mapping, id);
        if i >= 0 then lookup(SignedDecimal(HostOf(mapping[i], id))) else overflow
  }

  method FindID(idStr: string, mapping: seq<IDMap>, lookup: Lookup, overflow: Outcome<string>)
    returns (r: Outcome<string>)
    ensures r == FoundID(idStr, mapping, lookup, overflow)
  {
    if |mapping| == 0 {
      return Ok(idStr);
    }
    var id := ParseInt(idStr);
    if !id.Ok? {
      return id.PropagateFailure();
    }
    for i := 0 to |mapping|
      invariant forall j :: 0 <= j < i ==> !InRange(mapping[j], id.value)
    {
      var m := mapping[i];
      if id.value >= m.containerID && id.value < Wrap64(m.containerID + m.size) {
        FoundInRange(mapping, id.value, i);
        FoundNumber(idStr, id.value, mapping, lookup, overflow);
        return lookup(SignedDecimal(HostOf(m, id.value)));
      }
    }
    FoundNumber(idStr, id.value, mapping, lookup, overflow);
    return overflow;
  }

  lemma FoundInRange(mapping: seq<IDMap>, id: int, i: nat)
    requires i < |mapping| && InRange(mapping[i], id)
    requires forall j :: 0 <= j < i ==> !InRange(mapping[j], id)
    ensures FirstRange(mapping, id) == i
  {
  }

  lemma FoundNumber(idStr: string, id: int, mapping: seq<IDMap>, lookup: Lookup, overflow: Outcome<string>)
    requires mapping != [] && ParseInt(idStr) == Ok(id)
    ensures FoundID(idStr, mapping, lookup, overflow) ==
            var i := FirstRange(mapping, id);
            if i >= 0 then lookup(SignedDecimal(HostOf(mapping[i], id))) else overflow
  {
  }

  // ---------- mappings as the kernel gives them ----------

  const TWO_32: int := 0x1_0000_0000

  /** Entries of /proc/[pid]/uid_map: user_namespaces(7) allows 32-bit numbers and no empty range. */
  predicate Kernel32(mapping: seq<IDMap>) {
    forall i :: 0 <= i < |mapping| ==>
      && 0 <= mapping[i].containerID < TWO_32
      && 0 <= mapping[i].hostID < TWO_32
      && 0 < mapping[i].size < TWO_32
  }

  /** The ranges without machine arithmetic */
  predicate Inside(start: int, size: int, id: int) {
    start <= id < start + size
  }

  ghost predicate DisjointContainerRanges(mapping: seq<IDMap>) {
    forall i, j, id :: 0 <= i < j < |mapping| && Inside(mapping[i].containerID, mapping[i].size, id) ==>
      !Inside(mapping[j].containerID, mapping[j].size, id)
  }

  ghost predicate DisjointHostRanges(mapping: seq<IDMap>) {
    forall i, j, id :: 0 <= i < j < |mapping| && Inside(mapping[i].hostID, mapping[i].size, id) ==>
      !Inside(mapping[j].hostID, mapping[j].size, id)
  }

  predicate Mapped(mapping: seq<IDMap>, id: int) {
    exists i :: 0 <= i < |mapping| && Inside(mapping[i].containerID, mapping[i].size, id)
  }

  /** No 64-bit overflow happens on such entries, for any 64-bit ID at all. */
  lemma NoOverflow(m: IDMap, id: int)
    requires Kernel32([m]) && INT64_MIN <= id <= INT64_MAX
    ensures InRange(m, id) <==> Inside(m.containerID, m.size, id)
    ensures InRange(m, id) ==> HostOf(m, id) == m.hostID + (id - m.containerID)
  {
    assert [m][0] == m;
  }

  lemma NoOverflowAt(mapping: seq<IDMap>, i: nat, id: int)
    requires Kernel32(mapping) && i < |mapping| && INT64_MIN <= id <= INT64_MAX
    ensures InRange(mapping[i], id) <==> Inside(mapping[i].containerID, mapping[i].size, id)
    ensures InRange(mapping[i], id) ==> HostOf(mapping[i], id) == mapping[i].hostID + (id - mapping[i].containerID)
  {
    NoOverflow(mapping[i], id);
  }

  function Swap(m: IDMap): IDMap {
    IDMap(m.hostID, m.containerID, m.size)
  }

  /** The mapping read the other way round */
  function Swapped(mapping: seq<IDMap>): (swapped: seq<IDMap>)
    ensures |swapped| == |mapping|
    ensures forall i :: 0 <= i < |mapping| ==> swapped[i] == Swap(mapping[i])
  {
    seq(|mapping|, i requires 0 <= i < |mapping| => Swap(mapping[i]))
  }

  function Numeric(id: string): Outcome<string> {
    Ok(id)
  }

  /** The ID x of the container is the ID y of the host: some range maps the one to the other. */
  predicate Maps(mapping: seq<IDMap>, x: int, y: int) {
    exists i :: 0 <= i < |mapping| && Translates(mapping[i], x, y)
  }

  predicate Translates(m: IDMap, x: int, y: int) {
    Inside(m.containerID, m.size, x) && y - m.hostID == x - m.containerID
  }

  predicate FirstInside(mapping: seq<IDMap>, i: int, id: int) {
    && 0 <= i < |mapping| && Inside(mapping[i].containerID, mapping[i].size, id)
    && forall j :: 0 <= j < i ==> !Inside(mapping[j].containerID, mapping[j].size, id)
  }

  /** The fallback is taken exactly for the IDs in no range; a mapped ID is looked up as the host ID that
      its first range gives, so earlier ranges win. */
  lemma FallbackExactlyUnmapped(id: int, mapping: seq<IDMap>, lookup: Lookup, overflow: Outcome<string>)
    requires mapping != [] && Kernel32(mapping) && INT64_MIN <= id <= INT64_MAX
    ensures FirstRange(mapping, id) == -1 <==> !Mapped(mapping, id)
    ensures FoundID(SignedDecimal(id), mapping, lookup, overflow) ==
            var i := FirstRange(mapping, id);
            if i >= 0 then lookup(SignedDecimal(mapping[i].hostID + (id - mapping[i].containerID))) else overflow
    ensures forall i :: FirstInside(mapping, i, id) ==> FirstRange(mapping, id) == i
  {
    ParseIntOfDecimal(id);
    FoundNumber(SignedDecimal(id), id, mapping, lookup, overflow);
    RangesWithoutOverflow(mapping, id);
    var i := FirstRange(mapping, id);
    if i >= 0 {
      NoOverflowAt(mapping, i, id);
    }
  }

  /** The same for every text of the ID. */
  lemma FoundOfText(text: string, id: int, mapping: seq<IDMap>, lookup: Lookup, overflow: Outcome<string>)
    requires mapping != [] && Kernel32(mapping) && In64(id) && Denotes(text, id)
    ensures forall i :: FirstInside(mapping, i, id) ==>
              FoundID(text, mapping, lookup, overflow) ==
              lookup(SignedDecimal(mapping[i].hostID + (id - mapping[i].containerID)))
    ensures !Mapped(mapping, id) ==> FoundID(text, mapping, lookup, overflow) == overflow
  {
    ParseIntExact(text, id);
    FoundNumber(text, id, mapping, lookup, overflow);
    RangesWithoutOverflow(mapping, id);
    var i := FirstRange(mapping, id);
    if i >= 0 {
      NoOverflowAt(mapping, i, id);
    }
  }

  /** Without a mapping any text is its own result; with one, a text that is no number is an error. */
  lemma FoundOfOthers(text: string, mapping: seq<IDMap>, lookup: Lookup, overflow: Outcome<string>)
    ensures mapping == [] ==> FoundID(text, mapping, lookup, overflow) == Ok(text)
    ensures mapping != [] && !IsNumber(text) ==> FoundID(text, mapping, lookup, overflow).Err?
  {
    ParseIntFails(text);
  }

  lemma RangesWithoutOverflow(mapping: seq<IDMap>, id: int)
    requires Kernel32(mapping) && INT64_MIN <= id <= INT64_MAX
    ensures FirstRange(mapping, id) == -1 <==> !Mapped(mapping, id)
    ensures forall i :: FirstInside(mapping, i, id) ==> FirstRange(mapping, id) == i
  {
    forall i | 0 <= i < |mapping|
      ensures InRange(mapping[i], id) <==> Inside(mapping[i].containerID, mapping[i].size, id)
    {
      NoOverflowAt(mapping, i, id);
    }
  }

  /** With disjoint container ranges the code finds y for x exactly when a range maps x to y. */
  lemma FindsExactly(mapping: seq<IDMap>, x: int, y: int, overflow: Outcome<string>)
    requires Kernel32(mapping) && mapping != [] && DisjointContainerRanges(mapping)
    requires INT64_MIN <= x <= INT64_MAX && INT64_MIN <= y <= INT64_MAX
    requires overflow != Ok(SignedDecimal(y))
    ensures FoundID(SignedDecimal(x), mapping, Numeric, overflow) == Ok(SignedDecimal(y)) <==> Maps(mapping, x, y)
  {
    FallbackExactlyUnmapped(x, mapping, Numeric, overflow);
    var i := FirstRange(mapping, x);
    if i >= 0 {
      NoOverflowAt(mapping, i, x);
      SameDecimal(y, mapping[i].hostID + (x - mapping[i].containerID));
      OnlyRange(mapping, i, x, y);
    }
  }

  lemma SameDecimal(y: int, z: int)
    requires INT64_MIN <= y <= INT64_MAX && INT64_MIN <= z <= INT64_MAX
    ensures SignedDecimal(y) == SignedDecimal(z) <==> y == z
  {
    ParseIntOfDecimal(y);
    ParseIntOfDecimal(z);
  }

  lemma OnlyRange(mapping: seq<IDMap>, i: nat, x: int, y: int)
    requires DisjointContainerRanges(mapping) && i < |mapping|
    requires Inside(mapping[i].containerID, mapping[i].size, x)
    ensures Maps(mapping, x, y) <==> y == mapping[i].hostID + (x - mapping[i].containerID)
  {
    forall j | 0 <= j < |mapping| && Inside(mapping[j].containerID, mapping[j].size, x)
      ensures j == i
    {
    }
    if y == mapping[i].hostID + (x - mapping[i].containerID) {
      assert Translates(mapping[i], x, y);
    }
  }

  /** The bijection: with the kernel's disjoint ranges, mapping x gives y exactly when mapping y the other
      way round gives x, through the decimal printing and parsing in between. */
  lemma MapsBack(mapping: seq<IDMap>, x: int, y: int, overflow: Outcome<string>)
    requires Kernel32(mapping) && mapping != []
    requires DisjointContainerRanges(mapping) && DisjointHostRanges(mapping)
    requires INT64_MIN <= x <= INT64_MAX && INT64_MIN <= y <= INT64_MAX
    requires overflow != Ok(SignedDecimal(x)) && overflow != Ok(SignedDecimal(y))
    ensures FoundID(SignedDecimal(x), mapping, Numeric, overflow) == Ok(SignedDecimal(y)) <==>
            FoundID(SignedDecimal(y), Swapped(mapping), Numeric, overflow) == Ok(SignedDecimal(x))
  {
    SwappedKernel(mapping);
    SwappedDisjoint(mapping);
    FindsExactly(mapping, x, y, overflow);
    FindsExactly(Swapped(mapping), y, x, overflow);
    SwappedMaps(mapping, x, y);
  }

  lemma SwappedKernel(mapping: seq<IDMap>)
    requires Kernel32(mapping)
    ensures Kernel32(Swapped(mapping))
  {
    assert forall i :: 0 <= i < |mapping| ==> Swapped(mapping)[i] == Swap(mapping[i]);
  }

  lemma SwappedDisjoint(mapping: seq<IDMap>)
    requires DisjointHostRanges(mapping)
    ensures DisjointContainerRanges(Swapped(mapping))
  {
    var swapped := Swapped(mapping);
    forall i, j, id | 0 <= i < j < |swapped| && Inside(swapped[i].containerID, swapped[i].size, id)
      ensures !Inside(swapped[j].containerID, swapped[j].size, id)
    {
      assert Inside(mapping[i].hostID, mapping[i].size, id);
    }
  }

  lemma SwappedMaps(mapping: seq<IDMap>, x: int, y: int)
    ensures Maps(mapping, x, y) <==> Maps(Swapped(mapping), y, x)
  {
    var swapped := Swapped(mapping);
    if i :| 0 <= i < |mapping| && Translates(mapping[i], x, y) {
      assert Translates(swapped[i], y, x);
    }
    if i :| 0 <= i < |swapped| && Translates(swapped[i], y, x) {
      assert Translates(mapping[i], x, y);
    }
  }

  /** The overflow file cannot be read, or holds no bare numeral; the kernel ends the file with a newline. */
  ghost predicate NoNumeral(overflow: Outcome<string>) {
    forall id: int :: overflow != Ok(SignedDecimal(id))
  }

  /** Every host ID that the code finds is taken back to the container ID it came from. */
  ghost predicate ComesBack(mapping: seq<IDMap>, overflow: Outcome<string>) {
    forall x: int, y: int ::
      && INT64_MIN <= x <= INT64_MAX && INT64_MIN <= y <= INT64_MAX
      && FoundID(SignedDecimal(x), mapping, Numeric, overflow) == Ok(SignedDecimal(y)) ==>
        FoundID(SignedDecimal(y), Swapped(mapping), Numeric, overflow) == Ok(SignedDecimal(x))
  }

  /** With disjoint container ranges IDs come back exactly when the host ranges are disjoint too. */
  lemma ComesBackExactly(mapping: seq<IDMap>, overflow: Outcome<string>)
    requires Kernel32(mapping) && mapping != [] && DisjointContainerRanges(mapping)
    requires NoNumeral(overflow)
    ensures ComesBack(mapping, overflow) <==> DisjointHostRanges(mapping)
  {
    if DisjointHostRanges(mapping) {
      forall x: int, y: int
        | INT64_MIN <= x <= INT64_MAX && INT64_MIN <= y <= INT64_MAX
          && FoundID(SignedDecimal(x), mapping, Numeric, overflow) == Ok(SignedDecimal(y))
        ensures FoundID(SignedDecimal(y), Swapped(mapping), Numeric, overflow) == Ok(SignedDecimal(x))
      {
        MapsBack(mapping, x, y, overflow);
      }
    } else {
      var i, j, y :| 0 <= i < j < |mapping| && Inside(mapping[i].hostID, mapping[i].size, y)
                     && Inside(mapping[j].hostID, mapping[j].size, y);
      LostInOverlap(mapping, i, j, y, overflow);
    }
  }

  /** Two container IDs on one host ID */
  const OVERLAPPING := [IDMap(0, 1000, 1), IDMap(1, 1000, 1)]

  /** The second is mapped to the host ID and does not come back. */
  lemma OverlapLost(overflow: Outcome<string>)
    ensures Kernel32(OVERLAPPING) && DisjointContainerRanges(OVERLAPPING) && !DisjointHostRanges(OVERLAPPING)
    ensures FoundID(SignedDecimal(1), OVERLAPPING, Numeric, overflow) == Ok(SignedDecimal(1000))
    ensures FoundID(SignedDecimal(1000), Swapped(OVERLAPPING), Numeric, overflow) == Ok(SignedDecimal(0))
  {
    OverlapIsKernel(OVERLAPPING);
    OverlapMapped(OVERLAPPING, 1, 1000, 0, overflow);
  }

  lemma OverlapMapped(mapping: seq<IDMap>, x: int, y: int, z: int, overflow: Outcome<string>)
    requires Kernel32(mapping) && FirstInside(mapping, 1, x) && FirstInside(Swapped(mapping), 0, y)
    requires INT64_MIN <= x <= INT64_MAX && INT64_MIN <= y <= INT64_MAX
    requires y == mapping[1].hostID + (x - mapping[1].containerID)
    requires z == mapping[0].containerID + (y - mapping[0].hostID)
    ensures FoundID(SignedDecimal(x), mapping, Numeric, overflow) == Ok(SignedDecimal(y))
    ensures FoundID(SignedDecimal(y), Swapped(mapping), Numeric, overflow) == Ok(SignedDecimal(z))
  {
    SwappedKernel(mapping);
    MappedByFirst(mapping, 1, x, overflow);
    MappedByFirst(Swapped(mapping), 0, y, overflow);
  }

  lemma OverlapIsKernel(mapping: seq<IDMap>)
    requires mapping == OVERLAPPING
    ensures Kernel32(mapping) && DisjointContainerRanges(mapping) && !DisjointHostRanges(mapping)
    ensures FirstInside(mapping, 1, 1) && FirstInside(Swapped(mapping), 0, 1000)
  {
    var a, b := mapping[0], mapping[1];
    assert Inside(a.hostID, a.size, 1000) && Inside(b.hostID, b.size, 1000);
  }

  lemma MappedByFirst(mapping: seq<IDMap>, i: nat, id: int, overflow: Outcome<string>)
    requires Kernel32(mapping) && INT64_MIN <= id <= INT64_MAX && FirstInside(mapping, i, id)
    ensures FoundID(SignedDecimal(id), mapping, Numeric, overflow) ==
            Ok(SignedDecimal(mapping[i].hostID + (id - mapping[i].containerID)))
  {
    FallbackExactlyUnmapped(id, mapping, Numeric, overflow);
  }

  /** A host ID of two ranges is taken back to the first, whichever it came from. */
  lemma LostInOverlap(mapping: seq<IDMap>, i: nat, j: nat, y: int, overflow: Outcome<string>)
    requires Kernel32(mapping) && DisjointContainerRanges(mapping) && NoNumeral(overflow)
    requires i < j < |mapping|
    requires Inside(mapping[i].hostID, mapping[i].size, y) && Inside(mapping[j].hostID, mapping[j].size, y)
    ensures !ComesBack(mapping, overflow)
  {
    var x := mapping[j].containerID + (y - mapping[j].hostID);
    assert Translates(mapping[j], x, y);
    FindsExactly(mapping, x, y, overflow);
    var k, z := BackToFirst(mapping, i, y, overflow);
    assert Inside(mapping[j].containerID, mapping[j].size, x);
    SameDecimal(x, z);
  }

  lemma BackToFirst(mapping: seq<IDMap>, i: nat, y: int, overflow: Outcome<string>) returns (k: nat, z: int)
    requires Kernel32(mapping) && i < |mapping| && Inside(mapping[i].hostID, mapping[i].size, y)
    ensures k <= i && Inside(mapping[k].containerID, mapping[k].size, z)
    ensures INT64_MIN <= z <= INT64_MAX
    ensures FoundID(SignedDecimal(y), Swapped(mapping), Numeric, overflow) == Ok(SignedDecimal(z))
  {
    var swapped := Swapped(mapping);
    SwappedKernel(mapping);
    FallbackExactlyUnmapped(y, swapped, Numeric, overflow);
    NoOverflowAt(swapped, i, y);
    k := FirstRange(swapped, y);
    NoOverflowAt(swapped, k, y);
    z := swapped[k].hostID + (y - swapped[k].containerID);
  }
}
