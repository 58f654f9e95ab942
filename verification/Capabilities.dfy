/** internal/capabilities/capabilities.go and parseCAP of psgo.go: capability masks as text. */
module Capabilities {
  import opened Outcomes
  import opened Text

  const KNOWN: nat := 38

  /** The capability table: bit and name, as in include/uapi/linux/capability.h */
  function KnownName(bit: nat): string
    requires bit < KNOWN
  {
    if bit < 13 then FirstNames(bit) else if bit < 26 then SecondNames(bit) else ThirdNames(bit)
  }

  function FirstNames(bit: nat): string
    requires 0 <= bit < 13
  {
    match bit
    case 0 => "CHOWN"
    case 1 => "DAC_OVERRIDE"
    case 2 => "DAC_READ_SEARCH"
    case 3 => "FOWNER"
    case 4 => "FSETID"
    case 5 => "KILL"
    case 6 => "SETGID"
    case 7 => "SETUID"
    case 8 => "SETPCAP"
    case 9 => "LINUX_IMMUTABLE"
    case 10 => "NET_BIND_SERVICE"
    case 11 => "NET_BROADCAST"
    case _ => "NET_ADMIN"
  }

  function SecondNames(bit: nat): string
    requires 13 <= bit < 26
  {
    match bit
    case 13 => "NET_RAW"
    case 14 => "IPC_LOCK"
    case 15 => "IPC_OWNER"
    case 16 => "SYS_MODULE"
    case 17 => "SYS_RAWIO"
    case 18 => "SYS_CHROOT"
    case 19 => "SYS_PTRACE"
    case 20 => "SYS_PACCT"
    case 21 => "SYS_ADMIN"
    case 22 => "SYS_BOOT"
    case 23 => "SYS_NICE"
    case 24 => "SYS_RESOURCE"
    case _ => "SYS_TIME"
  }

  function ThirdNames(bit: nat): string
    requires 26 <= bit < 38
  {
    match bit
    case 26 => "SYS_TTY_CONFIG"
    case 27 => "MKNOD"
    case 28 => "LEASE"
    case 29 => "AUDIT_WRITE"
    case 30 => "AUDIT_CONTROL"
    case 31 => "SETFCAP"
    case 32 => "MAC_OVERRIDE"
    case 33 => "MAC_ADMIN"
    case 34 => "SYSLOG"
    case 35 => "WAKE_ALARM"
    case 36 => "BLOCK_SUSPEND"
    case _ => "AUDIT_READ"
  }

  const UNKNOWN: string := "unknown"

  function NameOf(bit: nat): string {
    if bit < KNOWN then KnownName(bit) else UNKNOWN
  }

  const FULL_CAPS: nat := 0x3F_FFFF_FFFF

  // ---------- bits ----------

  function Pow2(n: nat): (p: nat)
    ensures p > 0
  {
    if n == 0 then 1 else 2 * Pow2(n - 1)
  }

  /** (mask >> bit) & 1 == 1 */
  predicate Bit(mask: nat, bit: nat) {
    (mask / Pow2(bit)) % 2 == 1
  }

  lemma ModIs(m: nat, d: nat, k: nat, r: nat)
    requires m == d * k + r && r < d
    ensures m % d == r
  {
    var q, s := m / d, m % d;
    assert m == d * q + s;
    assert d * (k - q) == s - r;
    if k > q {
      MulMonotone(d, 1, k - q);
    } else if k < q {
      MulMonotone(d, k - q, -1);
    }
  }

  lemma MulMonotone(d: nat, a: int, b: int)
    requires a <= b
    ensures d * a <= d * b
  {
  }

  /** The lowest n + 1 bits of a mask are its lowest n bits and bit n. */
  lemma ModStep(mask: nat, n: nat)
    ensures mask % Pow2(n + 1) == mask % Pow2(n) + if Bit(mask, n) then Pow2(n) else 0
  {
    var p := Pow2(n);
    var q, r := mask / p, mask % p;
    var k, b := q / 2, q % 2;
    assert mask == p * q + r;
    assert q == 2 * k + b;
    assert p * q == 2 * p * k + p * b;
    assert p * b == if b == 1 then p else 0;
    ModIs(mask, 2 * p, k, p * b + r);
  }

  // ---------- the translation ----------

  /** The names of the set bits below n */
  function Names(mask: nat, n: nat): seq<string> {
    if n == 0 then [] else Names(mask, n - 1) + if Bit(mask, n - 1) then [NameOf(n - 1)] else []
  }

  method TranslateMask(mask: nat) returns (caps: seq<string>)
    requires mask <= UINT64_MAX
    ensures caps == Names(mask, 64)
  {
    caps := [];
    for i := 0 to 64
      invariant caps == Names(mask, i)
    {
      if Bit(mask, i) {
        caps := caps + [NameOf(i)];
      }
    }
  }

  // ---------- sort.Strings ----------

  /** a <= b for Go strings */
  predicate StringLe(a: string, b: string) {
    a == "" || (b != "" && (a[0] < b[0] || (a[0] == b[0] && StringLe(a[1..], b[1..]))))
  }

  lemma {:induction false} StringLeTotal(a: string, b: string)
    ensures StringLe(a, b) || StringLe(b, a)
  {
    if a != "" && b != "" && a[0] == b[0] {
      StringLeTotal(a[1..], b[1..]);
    }
  }

  lemma {:induction false} StringLeTransitive(a: string, b: string, c: string)
    requires StringLe(a, b) && StringLe(b, c)
    ensures StringLe(a, c)
  {
    if a != "" && a[0] == b[0] && b[0] == c[0] {
      StringLeTransitive(a[1..], b[1..], c[1..]);
    }
  }

  lemma {:induction false} StringLeAntisymmetric(a: string, b: string)
    requires StringLe(a, b) && StringLe(b, a)
    ensures a == b
  {
    if a != "" && b != "" {
      StringLeAntisymmetric(a[1..], b[1..]);
      assert a == [a[0]] + a[1..] && b == [b[0]] + b[1..];
    }
  }

  /** The order is that of the first character in which they differ, a prefix coming first. */
  lemma {:induction false} StringLeExact(a: string, b: string)
    ensures StringLe(a, b) <==>
            a <= b || exists i :: 0 <= i < |a| && i < |b| && a[..i] == b[..i] && a[i] < b[i]
  {
    if a != "" && b != "" {
      if a[0] != b[0] {
        DifferAtOnce(a, b);
      } else {
        StringLeExact(a[1..], b[1..]);
        SameStart(a, b);
      }
    }
  }

  lemma DifferAtOnce(a: string, b: string)
    requires a != "" && b != "" && a[0] != b[0]
    ensures !(a <= b)
    ensures a[0] < b[0] <==> exists i :: 0 <= i < |a| && i < |b| && a[..i] == b[..i] && a[i] < b[i]
  {
    assert a[..0] == b[..0];
    forall i | 0 <= i < |a| && i < |b| && a[..i] == b[..i]
      ensures i == 0
    {
      if i > 0 {
        SameFirst(a, b, i);
      }
    }
  }

  lemma SameFirst(a: string, b: string, i: nat)
    requires 0 < i <= |a| && i <= |b| && a[..i] == b[..i]
    ensures a[0] == b[0]
  {
    assert a[..i][0] == b[..i][0];
  }

  lemma SameStart(a: string, b: string)
    requires a != "" && b != "" && a[0] == b[0]
    ensures a <= b <==> a[1..] <= b[1..]
    ensures (exists i :: 0 <= i < |a| && i < |b| && a[..i] == b[..i] && a[i] < b[i]) <==>
            exists i :: 0 <= i < |a[1..]| && i < |b[1..]| && a[1..][..i] == b[1..][..i] && a[1..][i] < b[1..][i]
  {
    assert a == [a[0]] + a[1..] && b == [b[0]] + b[1..];
    if i :| 0 <= i < |a| && i < |b| && a[..i] == b[..i] && a[i] < b[i] {
      assert i > 0;
      assert a[1..][..i - 1] == a[..i][1..] && b[1..][..i - 1] == b[..i][1..];
      assert a[1..][i - 1] < b[1..][i - 1];
    }
    if i :| 0 <= i < |a[1..]| && i < |b[1..]| && a[1..][..i] == b[1..][..i] && a[1..][i] < b[1..][i] {
      assert a[..i + 1] == [a[0]] + a[1..][..i] && b[..i + 1] == [b[0]] + b[1..][..i];
      assert a[i + 1] < b[i + 1];
    }
  }

  predicate Sorted(s: seq<string>) {
    forall i :: 0 < i < |s| ==> StringLe(s[i - 1], s[i])
  }

  function Insert(x: string, s: seq<string>): seq<string> {
    if s == [] || StringLe(x, s[0]) then [x] + s else [s[0]] + Insert(x, s[1..])
  }

  function Sort(s: seq<string>): seq<string> {
    if s == [] then [] else Insert(s[0], Sort(s[1..]))
  }

  lemma {:induction false} InsertSorted(x: string, s: seq<string>)
    requires Sorted(s)
    ensures Sorted(Insert(x, s))
    ensures multiset(Insert(x, s)) == multiset(s) + multiset{x}
  {
    if s == [] || StringLe(x, s[0]) {
      SortedBehind(x, s);
    } else {
      var rest := s[1..];
      assert s == [s[0]] + rest;
      SortedRest(s[0], rest);
      InsertSorted(x, rest);
      InsertHead(x, rest);
      StringLeTotal(x, s[0]);
      var inserted := Insert(x, rest);
      assert Insert(x, s) == [s[0]] + inserted;
      SortedBehind(s[0], inserted);
    }
  }

  lemma SortedBehind(x: string, s: seq<string>)
    requires Sorted(s) && (s == [] || StringLe(x, s[0]))
    ensures Sorted([x] + s)
  {
  }

  lemma SortedRest(x: string, s: seq<string>)
    requires Sorted([x] + s)
    ensures Sorted(s) && (s == [] || StringLe(x, s[0]))
  {
    forall i | 0 <= i < |s|
      ensures StringLe(([x] + s)[i], s[i])
    {
      assert ([x] + s)[i + 1] == s[i];
    }
  }

  lemma InsertHead(x: string, s: seq<string>)
    ensures Insert(x, s) != [] && (Insert(x, s)[0] == x || (s != [] && Insert(x, s)[0] == s[0]))
  {
  }

  lemma {:induction false} SortSorted(s: seq<string>)
    ensures Sorted(Sort(s)) && multiset(Sort(s)) == multiset(s)
  {
    if s != [] {
      SortSorted(s[1..]);
      InsertSorted(s[0], Sort(s[1..]));
      assert s == [s[0]] + s[1..];
    }
  }

  // ---------- parseCAP ----------

  function CapText(mask: nat): string {
    if mask == FULL_CAPS then "full"
    else if Names(mask, 64) == [] then "none"
    else Join(Sort(Names(mask, 64)), ",")
  }

  function ParsedCap(capz: string): Outcome<string> {
    match ParseUint(capz, 16, UINT64_MAX)
    case Err(e) => Err(e)
    case Panic => Panic
    case Ok(mask) => Ok(CapText(mask))
  }

  /** Any text of a 64-bit mask in hexadecimal digits is shown, and every other text is an error. */
  lemma ParsedCapExact(capz: string)
    ensures forall mask: nat :: DenotesUnsigned(capz, 16, mask) && mask <= UINT64_MAX ==>
              ParsedCap(capz) == Ok(CapText(mask))
    ensures (forall mask: nat :: DenotesUnsigned(capz, 16, mask) ==> mask > UINT64_MAX) ==> ParsedCap(capz).Err?
  {
    forall mask: nat | DenotesUnsigned(capz, 16, mask)
      ensures ParseUint(capz, 16, UINT64_MAX) == Ok(mask) <==> mask <= UINT64_MAX
    {
      ParseUintExact(capz, 16, UINT64_MAX, mask);
    }
    var r := ParseUint(capz, 16, UINT64_MAX);
    if r.Ok? {
      ParseUintExact(capz, 16, UINT64_MAX, r.value);
    }
  }

  method ParseCAP(capz: string) returns (r: Outcome<string>)
    ensures r == ParsedCap(capz)
  {
    var mask := ParseUint(capz, 16, UINT64_MAX);
    if !mask.Ok? {
      return mask.PropagateFailure();
    }
    if mask.value == FULL_CAPS {
      return Ok("full");
    }
    var caps := TranslateMask(mask.value);
    if |caps| == 0 {
      return Ok("none");
    }
    caps := Sort(caps);
    return Ok(Join(caps, ","));
  }
}
