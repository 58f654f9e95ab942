/** internal/dev/tty.go: device numbers and the search for a terminal. */
module Tty {
  import opened Outcomes

  datatype TTY = TTY(minor: bv64, major: bv64, path: string)

  function MajDevNum(rdev: bv64): bv64 {
    (rdev >> 8) & 0xFFF
  }

  function MinDevNum(rdev: bv64): bv64 {
    (rdev & 0xFF) | ((rdev >> 12) & 0xFFF00)
  }

  /** FindTTY's own reading of a terminal number */
  function TtyMajor(ttyNr: bv64): bv64 {
    (ttyNr >> 8) & 0xFF
  }

  function TtyMinor(ttyNr: bv64): bv64 {
    (ttyNr & 0xFF) | ((ttyNr >> 20) & 0xFFF)
  }

  /** The index of the first device with the numbers that FindTTY reads out of ttyNr, or -1 */
  function FirstTTY(ttyNr: bv64, devices: seq<TTY>): (i: int)
    ensures -1 <= i < |devices|
    ensures i >= 0 ==> devices[i].minor == TtyMinor(ttyNr) && devices[i].major == TtyMajor(ttyNr)
    ensures forall j :: 0 <= j < (if i == -1 then |devices| else i) ==>
              !(devices[j].minor == TtyMinor(ttyNr) && devices[j].major == TtyMajor(ttyNr))
  {
    if devices == [] then -1
    else if devices[0].minor == TtyMinor(ttyNr) && devices[0].major == TtyMajor(ttyNr) then 0
    else
      var i := FirstTTY(ttyNr, devices[1..]);
      if i == -1 then -1 else i + 1
  }

  method FindTTY(ttyNr: bv64, devices: seq<TTY>) returns (r: Option<TTY>)
    ensures var i := FirstTTY(ttyNr, devices);
            r == if i == -1 then None else Some(devices[i])
  {
    var maj := (ttyNr >> 8) & 0xFF;
    var min := (ttyNr & 0xFF) | ((ttyNr >> 20) & 0xFFF);
    for i := 0 to |devices|
      invariant forall j :: 0 <= j < i ==> !(devices[j].minor == min && devices[j].major == maj)
    {
      var t := devices[i];
      if t.minor == min && t.major == maj {
        return Some(t);
      }
    }
    return None;
  }

  // ---------- the kernel's packing ----------

  /** A device number of 32 bits: 12 bits major, 20 bits minor, the low 8 of them at the bottom. */
  function Encode(major: bv64, minor: bv64): bv64 {
    (minor & 0xFF) | (major << 8) | ((minor & 0xFFF00) << 12)
  }

  predicate InKernelRange(major: bv64, minor: bv64) {
    major < 0x1000 && minor < 0x10_0000
  }

  /** majDevNum and minDevNum undo the packing. */
  lemma DecodeOfEncode(major: bv64, minor: bv64)
    requires InKernelRange(major, minor)
    ensures MajDevNum(Encode(major, minor)) == major
    ensures MinDevNum(Encode(major, minor)) == minor
  {
  }

  /** Every 32-bit device number is packed from what they read out of it. */
  lemma EncodeOfDecode(rdev: bv64)
    requires rdev <= 0xFFFF_FFFF
    ensures InKernelRange(MajDevNum(rdev), MinDevNum(rdev))
    ensures Encode(MajDevNum(rdev), MinDevNum(rdev)) == rdev
  {
  }

  /** FindTTY's own reading agrees exactly when both numbers are below 256. */
  lemma TtyNumbersExact(major: bv64, minor: bv64)
    requires InKernelRange(major, minor)
    ensures TtyMajor(Encode(major, minor)) == major && TtyMinor(Encode(major, minor)) == minor <==>
            major < 256 && minor < 256
  {
  }

  /** What it reads out of any packed number: the low eight bits of the major number, and the two parts of the minor
      number laid over each other. */
  lemma TtyNumbersRead(major: bv64, minor: bv64)
    requires InKernelRange(major, minor)
    ensures TtyMajor(Encode(major, minor)) == major & 0xFF
    ensures TtyMinor(Encode(major, minor)) == (minor & 0xFF) | (minor >> 8)
  {
  }

  /** Bits above the 32 of a device number are not looked at. */
  lemma HighBitsIgnored(nr: bv64)
    ensures TtyMajor(nr) == TtyMajor(nr & 0xFFFF_FFFF) && TtyMinor(nr) == TtyMinor(nr & 0xFFFF_FFFF)
    ensures MajDevNum(nr) == MajDevNum(nr & 0xFFFF_FFFF) && MinDevNum(nr) == MinDevNum(nr & 0xFFFF_FFFF)
  {
  }

  // ---------- the search ----------

  /** A device as TTYs lists it */
  datatype Device = Device(rdev: bv64, path: string)

  function Listed(d: Device): TTY {
    TTY(MinDevNum(d.rdev), MajDevNum(d.rdev), d.path)
  }

  function ListedAll(ds: seq<Device>): (ttys: seq<TTY>)
    ensures |ttys| == |ds|
    ensures forall i :: 0 <= i < |ds| ==> ttys[i] == Listed(ds[i])
  {
    seq(|ds|, i requires 0 <= i < |ds| => Listed(ds[i]))
  }

  ghost predicate RealDevices(ds: seq<Device>) {
    forall i :: 0 <= i < |ds| ==> ds[i].rdev <= 0xFFFF_FFFF
  }

  /** The index of the first device with this device number, or -1 */
  function FirstDevice(rdev: bv64, ds: seq<Device>): (i: int)
    ensures -1 <= i < |ds|
    ensures i >= 0 ==> ds[i].rdev == rdev
    ensures forall j :: 0 <= j < (if i == -1 then |ds| else i) ==> ds[j].rdev != rdev
  {
    if ds == [] then -1
    else if ds[0].rdev == rdev then 0
    else
      var i := FirstDevice(rdev, ds[1..]);
      if i == -1 then -1 else i + 1
  }

  lemma SameNumbers(a: bv64, b: bv64)
    requires a <= 0xFFFF_FFFF && b <= 0xFFFF_FFFF
    requires MajDevNum(a) == MajDevNum(b) && MinDevNum(a) == MinDevNum(b)
    ensures a == b
  {
    EncodeOfDecode(a);
    EncodeOfDecode(b);
  }

  lemma EncodeFits(major: bv64, minor: bv64)
    requires InKernelRange(major, minor)
    ensures Encode(major, minor) <= 0xFFFF_FFFF
  {
  }

  /** For every list of devices the search finds the first device that is the process's terminal. */
  ghost predicate FindsTerminal(ttyNr: bv64) {
    forall ds: seq<Device> :: RealDevices(ds) ==> FirstTTY(ttyNr, ListedAll(ds)) == FirstDevice(ttyNr, ds)
  }

  lemma FindsSmall(major: bv64, minor: bv64, ds: seq<Device>)
    requires major < 256 && minor < 256 && RealDevices(ds)
    ensures FirstTTY(Encode(major, minor), ListedAll(ds)) == FirstDevice(Encode(major, minor), ds)
  {
    var nr, ttys := Encode(major, minor), ListedAll(ds);
    EncodeFits(major, minor);
    DecodeOfEncode(major, minor);
    TtyNumbersExact(major, minor);
    forall i | 0 <= i < |ds|
      ensures ttys[i].minor == TtyMinor(nr) && ttys[i].major == TtyMajor(nr) <==> ds[i].rdev == nr
    {
      if ttys[i].minor == TtyMinor(nr) && ttys[i].major == TtyMajor(nr) {
        SameNumbers(ds[i].rdev, nr);
      }
    }
  }

  /** The terminal of a process is found exactly when its major and minor numbers are below 256; any
      other terminal is not found even when it is listed. */
  lemma FindsTerminalExactly(major: bv64, minor: bv64)
    requires InKernelRange(major, minor)
    ensures FindsTerminal(Encode(major, minor)) <==> major < 256 && minor < 256
  {
    var nr := Encode(major, minor);
    if major < 256 && minor < 256 {
      forall ds: seq<Device> | RealDevices(ds)
        ensures FirstTTY(nr, ListedAll(ds)) == FirstDevice(nr, ds)
      {
        FindsSmall(major, minor, ds);
      }
    } else {
      EncodeFits(major, minor);
      DecodeOfEncode(major, minor);
      TtyNumbersExact(major, minor);
      var ds := [Device(nr, "")];
      assert ds[0].rdev == nr;
      assert RealDevices(ds) && FirstDevice(nr, ds) == 0;
      assert ListedAll(ds)[0] == Listed(ds[0]);
    }
  }

  /** Worse, another terminal can be found: pts/1 for a process on pts/256. */
  lemma OtherTerminalFound()
    ensures var pts1, pts256 := Device(Encode(136, 1), "/dev/pts/1"), Device(Encode(136, 256), "/dev/pts/256");
            FirstTTY(pts256.rdev, ListedAll([pts256, pts1])) == 1
  {
    var pts1, pts256 := Device(Encode(136, 1), "/dev/pts/1"), Device(Encode(136, 256), "/dev/pts/256");
    DecodeOfEncode(136, 1);
    DecodeOfEncode(136, 256);
    assert TtyMajor(pts256.rdev) == 136 && TtyMinor(pts256.rdev) == 1;
    var ttys := ListedAll([pts256, pts1]);
    assert ttys[0] == Listed(pts256) && ttys[1] == Listed(pts1);
  }
}
