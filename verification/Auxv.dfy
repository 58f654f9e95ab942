/** internal/host/host_nocgo.go: a value from the auxiliary vector, and the cached tick rate. */
module Auxv {
  import opened Outcomes
  import opened Text

  newtype byte = x: int | 0 <= x < 256

  const AT_CLKTCK: nat := 17

  // ---------- words ----------

  /** binary.LittleEndian.Uint32 and Uint64 */
  function LittleEndian(b: seq<byte>): nat {
    if b == [] then 0 else b[0] as int + 256 * LittleEndian(b[1..])
  }

  /** binary.BigEndian.Uint32 and Uint64 */
  function BigEndian(b: seq<byte>): nat {
    if b == [] then 0 else BigEndian(b[..|b| - 1]) * 256 + b[|b| - 1] as int
  }

  function Word(b: seq<byte>, big: bool): nat {
    if big then BigEndian(b) else LittleEndian(b)
  }

  // ---------- the scan ----------

  /** The scan of the last `left` bytes of the file; `buffer` is what the slice of the file's bytes can
      still reach, since Go checks slice bounds against the capacity. */
  function Scan(buffer: seq<byte>, left: int, dataLen: nat, big: bool, what: nat): Outcome<nat>
    requires dataLen > 0
    decreases |buffer|
  {
    if left <= 0 then Err(Other("cannot find in auxv"))
    else if |buffer| < dataLen * 2 then Panic  // slice bounds out of range
    else if Word(buffer[..dataLen], big) == what then Ok(Word(buffer[dataLen..dataLen * 2], big))
    else Scan(buffer[dataLen * 2..], left - dataLen * 2, dataLen, big, what)
  }

  /** p is the array behind the slice that ioutil.ReadFile returned, and length the slice's length. */
  method GetFromAuxv(p: seq<byte>, length: nat, dataLen: nat, big: bool, what: nat) returns (r: Outcome<nat>)
    requires length <= |p| && (dataLen == 4 || dataLen == 8)
    ensures r == Scan(p, length, dataLen, big, what)
  {
    var i := 0;
    while i < length
      invariant i <= |p|
      invariant Scan(p[i..], length - i, dataLen, big, what) == Scan(p, length, dataLen, big, what)
      decreases length - i
    {
      if i + dataLen * 2 > |p| {
        return Panic;
      }
      EntryAt(p, i, dataLen);
      var k, v := Word(p[i..i + dataLen], big), Word(p[i + dataLen..i + dataLen * 2], big);
      i := i + dataLen * 2;
      if k == what {
        return Ok(v);
      }
    }
    return Err(Other("cannot find in auxv"));
  }

  lemma EntryAt(p: seq<byte>, i: nat, n: nat)
    requires i + n * 2 <= |p|
    ensures p[i..][..n] == p[i..i + n]
    ensures p[i..][n..n * 2] == p[i + n..i + n * 2]
    ensures p[i..][n * 2..] == p[i + n * 2..]
  {
  }

  // ---------- the kernel's side ----------

  datatype Entry = Entry(key: nat, value: nat)

  function EncodeLittle(v: nat, width: nat): (b: seq<byte>)
    ensures |b| == width
  {
    if width == 0 then [] else [(v % 256) as byte] + EncodeLittle(v / 256, width - 1)
  }

  function EncodeBig(v: nat, width: nat): (b: seq<byte>)
    ensures |b| == width
  {
    if width == 0 then [] else EncodeBig(v / 256, width - 1) + [(v % 256) as byte]
  }

  function EncodeWord(v: nat, width: nat, big: bool): (b: seq<byte>)
    ensures |b| == width
  {
    if big then EncodeBig(v, width) else EncodeLittle(v, width)
  }

  function Encode(entries: seq<Entry>, dataLen: nat, big: bool): (b: seq<byte>)
    ensures |b| == |entries| * (dataLen * 2)
  {
    if entries == [] then []
    else
      EncodeWord(entries[0].key, dataLen, big) + EncodeWord(entries[0].value, dataLen, big)
      + Encode(entries[1..], dataLen, big)
  }

  /** The first number that does not fit into the width */
  function Limit(width: nat): nat {
    if width == 0 then 1 else 256 * Limit(width - 1)
  }

  lemma {:induction false} LittleRoundTrip(v: nat, width: nat)
    requires v < Limit(width)
    ensures LittleEndian(EncodeLittle(v, width)) == v
  {
    if width > 0 {
      assert EncodeLittle(v, width)[1..] == EncodeLittle(v / 256, width - 1);
      LittleRoundTrip(v / 256, width - 1);
    }
  }

  lemma {:induction false} BigRoundTrip(v: nat, width: nat)
    requires v < Limit(width)
    ensures BigEndian(EncodeBig(v, width)) == v
  {
    if width > 0 {
      assert EncodeBig(v, width)[..width - 1] == EncodeBig(v / 256, width - 1);
      BigRoundTrip(v / 256, width - 1);
    }
  }

  lemma WordRoundTrip(v: nat, width: nat, big: bool)
    requires v < Limit(width)
    ensures Word(EncodeWord(v, width, big), big) == v
  {
    if big {
      BigRoundTrip(v, width);
    } else {
      LittleRoundTrip(v, width);
    }
  }

  predicate Encodable(entries: seq<Entry>, dataLen: nat) {
    forall i :: 0 <= i < |entries| ==> entries[i].key < Limit(dataLen) && entries[i].value < Limit(dataLen)
  }

  /** The index of the first entry with the key, or -1 */
  function FirstEntry(entries: seq<Entry>, what: nat): (i: int)
    ensures -1 <= i < |entries|
    ensures i >= 0 ==> entries[i].key == what
    ensures forall j :: 0 <= j < (if i == -1 then |entries| else i) ==> entries[j].key != what
  {
    if entries == [] then -1
    else if entries[0].key == what then 0
    else
      var i := FirstEntry(entries[1..], what);
      if i == -1 then -1 else i + 1
  }

  /** The round trip, for both word sizes and byte orders and any capacity behind the file's bytes: the scan
      returns the value of the first entry with the key, and an error exactly when no entry has it; it never
      leaves the buffer. */
  lemma {:induction false} ScanOfEncoded(entries: seq<Entry>, slack: seq<byte>, dataLen: nat, big: bool, what: nat)
    requires dataLen > 0 && Encodable(entries, dataLen)
    ensures var p := Encode(entries, dataLen, big); var i := FirstEntry(entries, what);
            Scan(p + slack, |p|, dataLen, big, what) ==
            if i >= 0 then Ok(entries[i].value) else Err(Other("cannot find in auxv"))
  {
    if entries != [] {
      var first, rest := entries[0], entries[1..];
      WordRoundTrip(first.key, dataLen, big);
      WordRoundTrip(first.value, dataLen, big);
      Front(EncodeWord(first.key, dataLen, big), EncodeWord(first.value, dataLen, big),
            Encode(rest, dataLen, big), slack, dataLen);
      ScanOfEncoded(rest, slack, dataLen, big, what);
      Lengths(|entries|, dataLen * 2);
    }
  }

  lemma Lengths(n: int, d: int)
    requires n > 0 && d > 0
    ensures n * d == (n - 1) * d + d >= d
  {
  }

  lemma Front(key: seq<byte>, value: seq<byte>, rest: seq<byte>, slack: seq<byte>, n: nat)
    requires |key| == |value| == n
    ensures var p := key + value + rest + slack;
            p[..n] == key && p[n..n * 2] == value && p[n * 2..] == rest + slack
  {
  }

  /** Whatever the bytes are: a file of whole entries is scanned without leaving it. */
  lemma {:induction false} WholeEntriesInBounds(buffer: seq<byte>, entries: nat, dataLen: nat, big: bool, what: nat)
    requires dataLen > 0 && entries * (dataLen * 2) <= |buffer|
    ensures !Scan(buffer, entries * (dataLen * 2), dataLen, big, what).Panic?
    decreases entries
  {
    if entries > 0 {
      Lengths(entries, dataLen * 2);
      WholeEntriesInBounds(buffer[dataLen * 2..], entries - 1, dataLen, big, what);
    }
  }

  lemma ScanPast(first: Entry, tail: seq<byte>, left: nat, dataLen: nat, big: bool, what: nat)
    requires dataLen > 0 && first.key < Limit(dataLen) && first.key != what
    ensures var entry := EncodeWord(first.key, dataLen, big) + EncodeWord(first.value, dataLen, big);
            Scan(entry + tail, left + dataLen * 2, dataLen, big, what) == Scan(tail, left, dataLen, big, what)
  {
    var key, value := EncodeWord(first.key, dataLen, big), EncodeWord(first.value, dataLen, big);
    WordRoundTrip(first.key, dataLen, big);
    var p := key + value + tail;
    assert p[..dataLen] == key && p[dataLen * 2..] == tail;
  }

  lemma Behind(entry: seq<byte>, others: seq<byte>, rest: seq<byte>, slack: seq<byte>)
    ensures entry + others + rest + slack == entry + (others + rest + slack)
  {
  }

  /** A piece of an entry at the end of the file is read beyond the slice: it panics exactly when the array behind the
      slice does not reach as far as the entry would. */
  lemma {:induction false} PartialEntry(entries: seq<Entry>, rest: seq<byte>, slack: seq<byte>, dataLen: nat,
                                        big: bool, what: nat)
    requires dataLen > 0 && Encodable(entries, dataLen) && FirstEntry(entries, what) == -1
    requires 0 < |rest| < dataLen * 2
    ensures var p := Encode(entries, dataLen, big) + rest;
            Scan(p + slack, |p|, dataLen, big, what).Panic? <==> |rest| + |slack| < dataLen * 2
  {
    if entries == [] {
      assert Encode(entries, dataLen, big) + rest == rest;
      PieceRead(rest, slack, dataLen, big, what);
    } else {
      var first, others := entries[0], entries[1..];
      var entry := EncodeWord(first.key, dataLen, big) + EncodeWord(first.value, dataLen, big);
      var q := Encode(others, dataLen, big);
      assert Encode(entries, dataLen, big) == entry + q;
      Behind(entry, q, rest, slack);
      ScanPast(first, q + rest + slack, |q + rest|, dataLen, big, what);
      PartialEntry(others, rest, slack, dataLen, big, what);
    }
  }

  lemma PieceRead(rest: seq<byte>, slack: seq<byte>, dataLen: nat, big: bool, what: nat)
    requires dataLen > 0 && 0 < |rest| < dataLen * 2
    ensures Scan(rest + slack, |rest|, dataLen, big, what).Panic? <==> |rest| + |slack| < dataLen * 2
  {
  }

  // ---------- the cache ----------

  /** One call of ClockTicks: what it returns, and what the cache holds afterwards. */
  function CachedTicks(cache: Option<int>, found: Outcome<nat>): (Outcome<int>, Option<int>) {
    match cache
    case Some(ticks) => (Ok(ticks), cache)
    case None =>
      if found.Ok? then (Ok(Wrap64(found.value)), Some(Wrap64(found.value)))
      else (found.PropagateFailure(), None)
  }

  class HostCache {
    var clockTicks: Option<int>

    constructor ()
      ensures clockTicks == None
    {
      clockTicks := None;
    }

    /** ClockTicks, with the bytes of /proc/self/auxv at the time of the call */
    method ClockTicks(p: seq<byte>, length: nat, dataLen: nat, big: bool) returns (r: Outcome<int>)
      requires length <= |p| && (dataLen == 4 || dataLen == 8)
      modifies this
      ensures (r, clockTicks) == CachedTicks(old(clockTicks), Scan(p, length, dataLen, big, AT_CLKTCK))
      ensures old(clockTicks).Some? ==> r == Ok(old(clockTicks).value) && clockTicks == old(clockTicks)
      ensures old(clockTicks) == None ==>
                match Scan(p, length, dataLen, big, 17)
                case Ok(v) => v <= INT64_MAX ==> r == Ok(v) && clockTicks == Some(v)
                case failed => r == failed.PropagateFailure() && clockTicks == None
    {
      if clockTicks == None {
        var ret := GetFromAuxv(p, length, dataLen, big, AT_CLKTCK);
        if !ret.Ok? {
          return ret.PropagateFailure();
        }
        clockTicks := Some(Wrap64(ret.value));
      }
      return Ok(clockTicks.value);
    }
  }

  /** The cache after a number of calls */
  function CacheAfter(found: seq<Outcome<nat>>, n: nat): Option<int>
    requires n <= |found|
  {
    if n == 0 then None else CachedTicks(CacheAfter(found, n - 1), found[n - 1]).1
  }

  function Answer(found: seq<Outcome<nat>>, i: nat): Outcome<int>
    requires i < |found|
  {
    CachedTicks(CacheAfter(found, i), found[i]).0
  }

  /** The first call on a file as the kernel writes it, whatever lies behind the file's bytes: the value of the first
      entry with key 17 is the answer and the cache's new content, wrapped around if it does not fit 64 bits; without
      such an entry there is an error and the cache stays empty.  A filled cache answers its own value, whatever the
      file holds. */
  lemma TicksOfEncoded(entries: seq<Entry>, slack: seq<byte>, dataLen: nat, big: bool, ticks: int)
    requires (dataLen == 4 || dataLen == 8) && Encodable(entries, dataLen)
    ensures var p, i := Encode(entries, dataLen, big), FirstEntry(entries, 17);
            var found := Scan(p + slack, |p|, dataLen, big, 17);
            && (i >= 0 && entries[i].value <= INT64_MAX ==>
                  CachedTicks(None, found) == (Ok(entries[i].value), Some(entries[i].value)))
            && (i >= 0 && entries[i].value > INT64_MAX ==>
                  var wrapped := entries[i].value - 0x1_0000_0000_0000_0000;
                  CachedTicks(None, found) == (Ok(wrapped), Some(wrapped)))
            && (i < 0 ==> CachedTicks(None, found).0.Err? && CachedTicks(None, found).1 == None)
            && CachedTicks(Some(ticks), found) == (Ok(ticks), Some(ticks))
  {
    ScanOfEncoded(entries, slack, dataLen, big, 17);
    WordLimit();
  }

  lemma WordLimit()
    ensures Limit(4) == 0x1_0000_0000 && Limit(8) == 0x1_0000_0000_0000_0000
  {
    assert Limit(2) == 0x1_0000;
    assert Limit(6) == 0x1_0000_0000_0000;
  }

  /** All answers are the first value that was found. */
  lemma {:induction false} FirstAnswer(found: seq<Outcome<nat>>, i: nat, n: nat)
    requires i <= n < |found| && found[i].Ok? && found[i].value <= INT64_MAX
    requires forall j :: 0 <= j < i ==> !found[j].Ok?
    ensures Answer(found, n) == Ok(found[i].value)
    ensures forall j :: 0 <= j < i ==> Answer(found, j) == found[j].PropagateFailure()
  {
    EmptyUntil(found, i);
    if i < n {
      CacheStays(found, i + 1, n);
    }
    forall j | 0 <= j < i
      ensures Answer(found, j) == found[j].PropagateFailure()
    {
      EmptyUntil(found, j);
    }
  }

  lemma {:induction false} EmptyUntil(found: seq<Outcome<nat>>, i: nat)
    requires i <= |found| && forall j :: 0 <= j < i ==> !found[j].Ok?
    ensures CacheAfter(found, i) == None
  {
    if i > 0 {
      EmptyUntil(found, i - 1);
    }
  }

  lemma {:induction false} CacheStays(found: seq<Outcome<nat>>, i: nat, n: nat)
    requires i <= n <= |found| && CacheAfter(found, i).Some?
    ensures CacheAfter(found, n) == CacheAfter(found, i)
    decreases n
  {
    if i < n {
      CacheStays(found, i, n - 1);
    }
  }

  /** All calls that succeed agree, whatever the vector holds at their times: with the first one that finds
      the rate, and from then on no call fails. */
  lemma AnswersAgree(found: seq<Outcome<nat>>, i: nat, j: nat)
    requires i < j < |found| && Answer(found, i).Ok?
    ensures Answer(found, j) == Answer(found, i)
  {
    CacheStays(found, i + 1, j);
  }
}
