/** What parseCAP of psgo.go keeps of a mask: its text can be decoded. */
module CapabilityDecoder {
  import opened Outcomes
  import opened Text
  import opened Capabilities

  /** The bit that a name stands for */
  function BitOf(name: string): Option<nat> {
    if FirstBits(name).Some? then FirstBits(name)
    else if SecondBits(name).Some? then SecondBits(name)
    else ThirdBits(name)
  }

  function FirstBits(name: string): Option<nat> {
    match name
    case "CHOWN" => Some(0)
    case "DAC_OVERRIDE" => Some(1)
    case "DAC_READ_SEARCH" => Some(2)
    case "FOWNER" => Some(3)
    case "FSETID" => Some(4)
    case "KILL" => Some(5)
    case "SETGID" => Some(6)
    case "SETUID" => Some(7)
    case "SETPCAP" => Some(8)
    case "LINUX_IMMUTABLE" => Some(9)
    case "NET_BIND_SERVICE" => Some(10)
    case "NET_BROADCAST" => Some(11)
    case "NET_ADMIN" => Some(12)
    case _ => None
  }

  function SecondBits(name: string): Option<nat> {
    match name
    case "NET_RAW" => Some(13)
    case "IPC_LOCK" => Some(14)
    case "IPC_OWNER" => Some(15)
    case "SYS_MODULE" => Some(16)
    case "SYS_RAWIO" => Some(17)
    case "SYS_CHROOT" => Some(18)
    case "SYS_PTRACE" => Some(19)
    case "SYS_PACCT" => Some(20)
    case "SYS_ADMIN" => Some(21)
    case "SYS_BOOT" => Some(22)
    case "SYS_NICE" => Some(23)
    case "SYS_RESOURCE" => Some(24)
    case "SYS_TIME" => Some(25)
    case _ => None
  }

  function ThirdBits(name: string): Option<nat> {
    match name
    case "SYS_TTY_CONFIG" => Some(26)
    case "MKNOD" => Some(27)
    case "LEASE" => Some(28)
    case "AUDIT_WRITE" => Some(29)
    case "AUDIT_CONTROL" => Some(30)
    case "SETFCAP" => Some(31)
    case "MAC_OVERRIDE" => Some(32)
    case "MAC_ADMIN" => Some(33)
    case "SYSLOG" => Some(34)
    case "WAKE_ALARM" => Some(35)
    case "BLOCK_SUSPEND" => Some(36)
    case "AUDIT_READ" => Some(37)
    case _ => None
  }

  lemma FirstNamed(bit: nat)
    requires bit < 13
    ensures FirstBits(KnownName(bit)) == Some(bit)
    ensures forall c <- KnownName(bit) :: c != ','
  {
  }

  lemma SecondNamed(bit: nat)
    requires 13 <= bit < 26
    ensures FirstBits(KnownName(bit)) == None && SecondBits(KnownName(bit)) == Some(bit)
    ensures forall c <- KnownName(bit) :: c != ','
  {
  }

  lemma ThirdNamed(bit: nat)
    requires 26 <= bit < KNOWN
    ensures FirstBits(KnownName(bit)) == None && SecondBits(KnownName(bit)) == None
    ensures ThirdBits(KnownName(bit)) == Some(bit)
    ensures forall c <- KnownName(bit) :: c != ','
  {
  }

  /** Every known name stands for its bit alone and holds no comma; the unknown name stands for none. */
  lemma NamesDecode(bit: nat)
    ensures BitOf(NameOf(bit)) == if bit < KNOWN then Some(bit) else None
    ensures ',' !in NameOf(bit)
  {
    if bit < 13 {
      FirstNamed(bit);
    } else if bit < 26 {
      SecondNamed(bit);
    } else if bit < KNOWN {
      ThirdNamed(bit);
    }
  }

  // ---------- what a list of names weighs ----------

  function BitWeight(name: string): nat {
    match BitOf(name)
    case Some(bit) => Pow2(bit)
    case None => 0
  }

  /** The mask that the known names of a list add up to */
  function Weight(names: seq<string>): nat {
    if names == [] then 0 else BitWeight(names[0]) + Weight(names[1..])
  }

  function CountOf(name: string): nat {
    if BitOf(name) == None then 1 else 0
  }

  /** How many names of a list are not known */
  function Unknowns(names: seq<string>): nat {
    if names == [] then 0 else CountOf(names[0]) + Unknowns(names[1..])
  }

  lemma {:induction false} InsertWeighs(x: string, s: seq<string>)
    ensures Weight(Insert(x, s)) == BitWeight(x) + Weight(s)
    ensures Unknowns(Insert(x, s)) == CountOf(x) + Unknowns(s)
  {
    if s == [] || StringLe(x, s[0]) {
      assert Insert(x, s)[1..] == s;
    } else {
      InsertWeighs(x, s[1..]);
      assert Insert(x, s)[1..] == Insert(x, s[1..]);
    }
  }

  lemma {:induction false} SortWeighs(s: seq<string>)
    ensures Weight(Sort(s)) == Weight(s)
    ensures Unknowns(Sort(s)) == Unknowns(s)
    ensures |Sort(s)| == |s|
  {
    SortSorted(s);
    assert |multiset(Sort(s))| == |multiset(s)|;
    if s != [] {
      SortWeighs(s[1..]);
      InsertWeighs(s[0], Sort(s[1..]));
    }
  }

  lemma {:induction false} AppendWeighs(s: seq<string>, x: string)
    ensures Weight(s + [x]) == Weight(s) + BitWeight(x)
    ensures Unknowns(s + [x]) == Unknowns(s) + CountOf(x)
  {
    if s == [] {
      assert (s + [x])[1..] == [];
    } else {
      AppendWeighs(s[1..], x);
      assert (s + [x])[1..] == s[1..] + [x];
    }
  }

  /** The number of set bits from KNOWN up to n: popcount of the mask without the known bits */
  function HighBits(mask: nat, n: nat): nat {
    if n <= KNOWN then 0 else HighBits(mask, n - 1) + if Bit(mask, n - 1) then 1 else 0
  }

  lemma NamesStep(mask: nat, n: nat)
    ensures Weight(Names(mask, n + 1)) == Weight(Names(mask, n)) + if Bit(mask, n) then BitWeight(NameOf(n)) else 0
    ensures Unknowns(Names(mask, n + 1)) == Unknowns(Names(mask, n)) + if Bit(mask, n) then CountOf(NameOf(n)) else 0
  {
    if Bit(mask, n) {
      AppendWeighs(Names(mask, n), NameOf(n));
    } else {
      assert Names(mask, n + 1) == Names(mask, n);
    }
  }

  /** The known names add up to the known bits, and the unknown ones are counted. */
  lemma {:induction false} NamesWeigh(mask: nat, n: nat)
    ensures Weight(Names(mask, n)) == mask % Pow2(if n < KNOWN then n else KNOWN)
  {
    if n > 0 {
      NamesWeigh(mask, n - 1);
      NamesStep(mask, n - 1);
      NamesDecode(n - 1);
      if n <= KNOWN {
        ModStep(mask, n - 1);
      }
    }
  }

  lemma {:induction false} NamesUnknown(mask: nat, n: nat)
    ensures Unknowns(Names(mask, n)) == HighBits(mask, n)
  {
    if n > 0 {
      NamesUnknown(mask, n - 1);
      NamesStep(mask, n - 1);
      CountOfName(n - 1);
      HighStep(mask, n - 1);
    }
  }

  lemma CountOfName(bit: nat)
    ensures CountOf(NameOf(bit)) == if bit < KNOWN then 0 else 1
  {
    NamesDecode(bit);
  }

  lemma HighStep(mask: nat, n: nat)
    ensures HighBits(mask, n + 1) == HighBits(mask, n) + if Bit(mask, n) && n >= KNOWN then 1 else 0
  {
  }

  // ---------- the decoder ----------

  /** The known bits and the number of unknown ones that a text shows */
  function Decode(text: string): (nat, nat) {
    if text == "full" then (FULL_CAPS, 0)
    else if text == "none" then (0, 0)
    else (Weight(Split(text, ',')), Unknowns(Split(text, ',')))
  }

  lemma KnownPower()
    ensures Pow2(KNOWN) == FULL_CAPS + 1
  {
    assert Pow2(10) == 0x400;
    assert Pow2(20) == 0x10_0000;
    assert Pow2(30) == 0x4000_0000;
    assert Pow2(38) == 0x40_0000_0000;
  }

  lemma WordPower()
    ensures Pow2(64) == UINT64_MAX + 1
  {
    KnownPower();
    assert Pow2(48) == 0x1_0000_0000_0000;
    assert Pow2(58) == 0x400_0000_0000_0000;
    assert Pow2(64) == 0x1_0000_0000_0000_0000;
  }

  lemma {:induction false} NamesAreNames(mask: nat, n: nat, i: nat)
    requires i < |Names(mask, n)|
    ensures exists bit: nat :: bit < n && Names(mask, n)[i] == NameOf(bit)
  {
    if i < |Names(mask, n - 1)| {
      NamesAreNames(mask, n - 1, i);
    }
  }

  lemma SortedNames(mask: nat, i: nat)
    requires i < |Sort(Names(mask, 64))|
    ensures exists bit: nat :: Sort(Names(mask, 64))[i] == NameOf(bit)
  {
    var names, sorted := Names(mask, 64), Sort(Names(mask, 64));
    SortSorted(names);
    assert sorted[i] in multiset(sorted);
    assert sorted[i] in names;
    var j: nat :| j < |names| && names[j] == sorted[i];
    NamesAreNames(mask, 64, j);
  }

  /** The text of a mask that is neither full nor empty splits into its sorted names. */
  lemma ListSplits(mask: nat)
    requires mask != FULL_CAPS && Names(mask, 64) != []
    ensures Split(CapText(mask), ',') == Sort(Names(mask, 64))
    ensures CapText(mask) != "full" && CapText(mask) != "none"
  {
    var sorted := Sort(Names(mask, 64));
    SortWeighs(Names(mask, 64));
    forall i | 0 <= i < |sorted|
      ensures ',' !in sorted[i] && sorted[i] != "full" && sorted[i] != "none"
    {
      SortedNames(mask, i);
      var bit: nat :| sorted[i] == NameOf(bit);
      NamesDecode(bit);
      NotReserved(bit);
    }
    SplitOfJoin(sorted, ',');
    assert sorted[0] != "full" && sorted[0] != "none";
    OneWord("full");
    OneWord("none");
  }

  lemma OneWord(text: string)
    requires ',' !in text
    ensures Split(text, ',') == [text]
  {
  }

  lemma NotReserved(bit: nat)
    ensures NameOf(bit) != "full" && NameOf(bit) != "none"
  {
    NamesDecode(bit);
    assert BitOf("full") == None && BitOf("none") == None;
  }

  /** The decoder recovers from the text of any 64-bit mask its known bits and the number of its others. */
  lemma DecodeOfCapText(mask: nat)
    requires mask <= UINT64_MAX
    ensures Decode(CapText(mask)) == (mask % Pow2(KNOWN), HighBits(mask, 64))
  {
    NamesWeigh(mask, 64);
    NamesUnknown(mask, 64);
    if mask == FULL_CAPS {
      LowOfSmall(FULL_CAPS);
      NoHighBits(FULL_CAPS, 64);
    } else if Names(mask, 64) != [] {
      ListSplits(mask);
      SortWeighs(Names(mask, 64));
    }
  }

  // ---------- which masks share a text ----------

  lemma SmallQuotient(m: nat, d: nat)
    requires m < d
    ensures m / d == 0 && m % d == m
  {
    assert m == d * 0 + m;
    ModIs(m, d, 0, m);
    var q := m / d;
    assert m == d * q + m % d;
    if q > 0 {
      MulMonotone(d, 1, q);
    }
  }

  lemma LowOfSmall(mask: nat)
    requires mask <= FULL_CAPS
    ensures mask % Pow2(KNOWN) == mask
  {
    KnownPower();
    SmallQuotient(mask, Pow2(KNOWN));
  }

  lemma {:induction false} ModSmaller(mask: nat, n: nat)
    requires KNOWN <= n && HighBits(mask, n) == 0
    ensures mask % Pow2(n) == mask % Pow2(KNOWN)
  {
    if n > KNOWN {
      ModSmaller(mask, n - 1);
      ModStep(mask, n - 1);
    }
  }

  /** A mask without other bits is its known bits. */
  lemma LowOnly(mask: nat)
    requires mask <= UINT64_MAX && HighBits(mask, 64) == 0
    ensures mask % Pow2(KNOWN) == mask
  {
    ModSmaller(mask, 64);
    WordPower();
    SmallQuotient(mask, Pow2(64));
  }

  lemma {:induction false} NoHighBits(mask: nat, n: nat)
    requires mask <= FULL_CAPS
    ensures HighBits(mask, n) == 0
  {
    if n > KNOWN {
      NoHighBits(mask, n - 1);
      NoBit(mask, n - 1);
    }
  }

  lemma NoBit(mask: nat, n: nat)
    requires mask <= FULL_CAPS && KNOWN <= n
    ensures !Bit(mask, n)
  {
    PowGrows(n);
    SmallQuotient(mask, Pow2(n));
  }

  lemma {:induction false} PowGrows(n: nat)
    requires KNOWN <= n
    ensures Pow2(n) > FULL_CAPS
  {
    if n > KNOWN {
      PowGrows(n - 1);
    } else {
      KnownPower();
    }
  }

  /** Masks with the same low bits have the same names below them. */
  lemma {:induction false} SameLowNames(a: nat, b: nat, n: nat)
    requires n <= KNOWN && a % Pow2(n) == b % Pow2(n)
    ensures Names(a, n) == Names(b, n)
  {
    if n > 0 {
      ModStep(a, n - 1);
      ModStep(b, n - 1);
      assert Bit(a, n - 1) <==> Bit(b, n - 1);
      SameLowNames(a, b, n - 1);
    }
  }

  function Repeat(n: nat): (s: seq<string>)
    ensures |s| == n
  {
    seq(n, i => UNKNOWN)
  }

  lemma {:induction false} HighNames(mask: nat, n: nat)
    requires KNOWN <= n
    ensures Names(mask, n) == Names(mask, KNOWN) + Repeat(HighBits(mask, n))
  {
    if n > KNOWN {
      HighNames(mask, n - 1);
      assert Repeat(HighBits(mask, n - 1) + 1) == Repeat(HighBits(mask, n - 1)) + [UNKNOWN];
    }
  }

  /** Only the full mask has all known bits and no other. */
  lemma FullExactly(mask: nat)
    requires mask <= UINT64_MAX
    ensures mask == FULL_CAPS <==> mask % Pow2(KNOWN) == FULL_CAPS && HighBits(mask, 64) == 0
  {
    if mask == FULL_CAPS {
      LowOfSmall(mask);
      NoHighBits(mask, 64);
    } else if HighBits(mask, 64) == 0 {
      LowOnly(mask);
    }
  }

  /** Two masks have the same text exactly when they agree on the known bits and have equally many others;
      so within FullCAPs the text determines the mask. */
  lemma SameTextExactly(a: nat, b: nat)
    requires a <= UINT64_MAX && b <= UINT64_MAX
    ensures CapText(a) == CapText(b) <==>
            a % Pow2(KNOWN) == b % Pow2(KNOWN) && HighBits(a, 64) == HighBits(b, 64)
  {
    DecodeOfCapText(a);
    DecodeOfCapText(b);
    if a % Pow2(KNOWN) == b % Pow2(KNOWN) && HighBits(a, 64) == HighBits(b, 64) {
      SameLowNames(a, b, KNOWN);
      HighNames(a, 64);
      HighNames(b, 64);
      FullExactly(a);
      FullExactly(b);
    }
  }

  lemma {:induction false} PowerQuotient(k: nat, i: nat)
    requires i <= k
    ensures Pow2(k) == Pow2(i) * Pow2(k - i)
  {
    if i > 0 {
      PowerQuotient(k - 1, i - 1);
    }
  }

  lemma {:induction false} PowersGrow(k: nat, i: nat)
    requires k < i
    ensures Pow2(k) < Pow2(i)
  {
    if k < i - 1 {
      PowersGrow(k, i - 1);
    }
  }

  lemma BitOfPower(k: nat, i: nat)
    ensures Bit(Pow2(k), i) <==> i == k
  {
    if k < i {
      PowersGrow(k, i);
      SmallQuotient(Pow2(k), Pow2(i));
    } else {
      PowerQuotient(k, i);
      ExactQuotient(Pow2(i), Pow2(k - i));
    }
  }

  lemma ExactQuotient(d: nat, q: nat)
    requires d > 0
    ensures (d * q) / d == q
  {
    ModIs(d * q, d, q, 0);
    var n := (d * q) / d;
    assert d * q == d * n + (d * q) % d;
    if n < q {
      MulMonotone(d, n + 1, q);
    } else if n > q {
      MulMonotone(d, q + 1, n);
    }
  }

  lemma {:induction false} NamesOfPower(k: nat, n: nat)
    ensures Names(Pow2(k), n) == if k < n then [NameOf(k)] else []
  {
    if n > 0 {
      NamesOfPower(k, n - 1);
      BitOfPower(k, n - 1);
    }
  }

  /** The two texts that are no lists of names */
  lemma FullAndNone()
    ensures CapText(0x3F_FFFF_FFFF) == "full" && CapText(0) == "none"
  {
    NoNames(64);
  }

  lemma {:induction false} NoNames(n: nat)
    ensures Names(0, n) == []
  {
    if n > 0 {
      NoNames(n - 1);
      SmallQuotient(0, Pow2(n - 1));
    }
  }

  /** Each single capability from 38 on has the text "unknown", 2^38 and 2^39 for example. */
  lemma UnknownAlone(k: nat)
    requires KNOWN <= k < 64
    ensures CapText(Pow2(k)) == "unknown"
  {
    NamesOfPower(k, 64);
    PowGrows(k);
    assert Sort([UNKNOWN]) == [UNKNOWN];
  }

  lemma UnknownsShareText()
    ensures CapText(Pow2(38)) == CapText(Pow2(39)) && Pow2(38) != Pow2(39)
  {
    UnknownAlone(38);
    UnknownAlone(39);
    assert Pow2(39) == 2 * Pow2(38);
  }

  /** The round trip through the kernel's 16 hexadecimal digits: within FullCAPs the mask itself comes back. */
  lemma DecodeOfParsedCap(mask: nat)
    requires mask <= UINT64_MAX
    ensures ParsedCap(FixedHex(mask, 16)) == Ok(CapText(mask))
    ensures mask <= FULL_CAPS ==> Decode(CapText(mask)) == (mask, 0)
  {
    ParsedHex(mask);
    DecodeOfCapText(mask);
    if mask <= FULL_CAPS {
      NoHighBits(mask, 64);
      LowOfSmall(mask);
    }
  }

  lemma ParsedHex(mask: nat)
    requires mask <= UINT64_MAX
    ensures ParsedCap(FixedHex(mask, 16)) == Ok(CapText(mask))
  {
    HexPower();
    FixedHexValue(mask, 16);
  }

  lemma HexPower()
    ensures Power16(16) == UINT64_MAX + 1
  {
    assert Power16(4) == 0x1_0000;
    assert Power16(8) == 0x1_0000_0000;
    assert Power16(12) == 0x1_0000_0000_0000;
    assert Power16(16) == 0x1_0000_0000_0000_0000;
  }

  /** The list shown for any mask: sorted, each known name once exactly when its bit is set, and "unknown"
      as often as other bits are set. */
  lemma ListExact(mask: nat, bit: nat)
    requires mask <= UINT64_MAX && bit < KNOWN
    ensures var list := Sort(Names(mask, 64));
            && Sorted(list)
            && multiset(list)[NameOf(bit)] == (if Bit(mask, bit) then 1 else 0)
            && multiset(list)[UNKNOWN] == HighBits(mask, 64)
  {
    SortSorted(Names(mask, 64));
    KnownCounted(mask, 64, bit);
    UnknownCounted(mask, 64);
  }

  lemma {:induction false} KnownCounted(mask: nat, n: nat, bit: nat)
    requires bit < KNOWN
    ensures multiset(Names(mask, n))[NameOf(bit)] == if bit < n && Bit(mask, bit) then 1 else 0
  {
    if n > 0 {
      KnownCounted(mask, n - 1, bit);
      DifferentNames(n - 1, bit);
      CountStep(mask, n - 1, NameOf(bit));
    }
  }

  lemma UnknownCounted(mask: nat, n: nat)
    ensures multiset(Names(mask, n))[UNKNOWN] == HighBits(mask, n)
  {
    var f, g := (i: nat) => multiset(Names(mask, i))[UNKNOWN], (i: nat) => HighBits(mask, i);
    forall i: nat
      ensures f(i + 1) - f(i) == g(i + 1) - g(i)
    {
      UnknownStep(mask, i);
      HighStep(mask, i);
    }
    SameSteps(f, g, n);
  }

  lemma {:induction false} SameSteps(f: nat -> nat, g: nat -> nat, n: nat)
    requires f(0) == g(0) && forall i: nat :: f(i + 1) - f(i) == g(i + 1) - g(i)
    ensures f(n) == g(n)
  {
    if n > 0 {
      SameSteps(f, g, n - 1);
      assert f(n - 1 + 1) - f(n - 1) == g(n - 1 + 1) - g(n - 1);
    }
  }

  lemma UnknownStep(mask: nat, n: nat)
    ensures multiset(Names(mask, n + 1))[UNKNOWN] ==
            multiset(Names(mask, n))[UNKNOWN] + if Bit(mask, n) && n >= KNOWN then 1 else 0
  {
    DifferentNames(n, KNOWN);
    CountStep(mask, n, UNKNOWN);
  }

  lemma DifferentNames(a: nat, b: nat)
    ensures NameOf(a) == NameOf(b) <==> a == b || (a >= KNOWN && b >= KNOWN)
  {
    NamesDecode(a);
    NamesDecode(b);
  }

  lemma CountStep(mask: nat, n: nat, name: string)
    ensures multiset(Names(mask, n + 1))[name] ==
            multiset(Names(mask, n))[name] + if Bit(mask, n) && name == NameOf(n) then 1 else 0
  {
    if !Bit(mask, n) {
      assert Names(mask, n + 1) == Names(mask, n);
    }
  }

  /** One sorted list only has given members: however sort.Strings works, this is its result. */
  lemma {:induction false} SortedOnce(a: seq<string>, b: seq<string>)
    requires Sorted(a) && Sorted(b) && multiset(a) == multiset(b)
    ensures a == b
  {
    assert |multiset(a)| == |a| && |multiset(b)| == |b|;
    if a != [] {
      SameHead(a, b);
      TailMembers(a);
      TailMembers(b);
      SortedOnce(a[1..], b[1..]);
      assert a == [a[0]] + a[1..] && b == [b[0]] + b[1..];
    }
  }

  lemma SameHead(a: seq<string>, b: seq<string>)
    requires a != [] && b != [] && Sorted(a) && Sorted(b) && multiset(a) == multiset(b)
    ensures a[0] == b[0]
  {
    assert a[0] in multiset(a) && b[0] in multiset(b);
    LeastFirst(a, b[0]);
    LeastFirst(b, a[0]);
    StringLeAntisymmetric(a[0], b[0]);
  }

  lemma TailMembers(s: seq<string>)
    requires s != [] && Sorted(s)
    ensures multiset(s[1..]) == multiset(s) - multiset{s[0]}
    ensures Sorted(s[1..])
  {
    assert s == [s[0]] + s[1..];
    assert forall i :: 0 < i < |s[1..]| ==> s[1..][i - 1] == s[i] && s[1..][i] == s[i + 1];
  }

  lemma {:induction false} LeastFirst(s: seq<string>, x: string)
    requires Sorted(s) && x in s
    ensures StringLe(s[0], x)
  {
    if x == s[0] {
      StringLeTotal(x, x);
    } else {
      assert s == [s[0]] + s[1..];
      LeastFirst(s[1..], x);
      StringLeTransitive(s[0], s[1], x);
    }
  }
}
