/** internal/proc/status.go: parsing /proc/[pid]/status. */
module ProcStatus {
  import opened Outcomes
  import opened Text

  /** The fields of a status record that keep one word of their line, in the record's order. */
  datatype Field =
    | Name | Umask | State | Tgid | Ngid | Pid | PPid | TracerPid | FdSize | NStgid | NSpgid | NSsid
    | VMPeak | VMSize | VMLCK | VMPin | VMHWM | VMRSS | RssAnon | RssFile | RssShmem | VMData | VMStk
    | VMExe | VMLib | VMPTE | VMPMD | VMSwap | HugetlbPages | Threads | SigQ | SigPnd | ShdPnd | SigBlk
    | SigIgn | SigCgt | CapInh | CapPrm | CapEff | CapBnd | CapAmb | NoNewPrivs | Seccomp | CpusAllowed
    | CpusAllowedList | MemsAllowed | MemsAllowedList | VoluntaryCtxtSwitches | NonvoluntaryCtxtSwitches

  /** What a line sets: a field with one word, a list, or nothing the library knows. */
  datatype Target = Scalar(field: Field) | Uids | Gids | Groups | NSpid | Unknown

  /** The key of every target's line */
  type KeyTable = Target -> string

  /** A status record; a field that no line sets is the empty string or the empty list. */
  datatype Status = Status(
    scalars: map<Field, string>,
    uids: seq<string>,
    gids: seq<string>,
    groups: seq<string>,
    nspid: seq<string>)
  {
    function Get(f: Field): string {
      if f in scalars then scalars[f] else ""
    }
  }

  /** The switch of parseStatus, what the first word of a line stands for, cut into eight. */
  function TargetOf(key: string): (target: Target)
    ensures target != Unknown ==> key == KeyOf(target)
  {
    if ProcessKeys(key) != Unknown then ProcessKeys(key)
    else if NamespaceKeys(key) != Unknown then NamespaceKeys(key)
    else if MemoryKeys(key) != Unknown then MemoryKeys(key)
    else if SizeKeys(key) != Unknown then SizeKeys(key)
    else if SignalKeys(key) != Unknown then SignalKeys(key)
    else if CapabilityKeys(key) != Unknown then CapabilityKeys(key)
    else if CpuKeys(key) != Unknown then CpuKeys(key)
    else SwitchKeys(key)
  }

  function ProcessKeys(key: string): (target: Target)
    ensures target != Unknown ==> key == KeyOf(target)
  {
    match key
    case "Name:" => Scalar(Name)
    case "Umask:" => Scalar(Umask)
    case "State:" => Scalar(State)
    case "Tgid:" => Scalar(Tgid)
    case "Ngid:" => Scalar(Ngid)
    case "Pid:" => Scalar(Pid)
    case "PPid:" => Scalar(PPid)
    case "TracerPid:" => Scalar(TracerPid)
    case _ => Unknown
  }

  function NamespaceKeys(key: string): (target: Target)
    ensures target != Unknown ==> key == KeyOf(target)
  {
    match key
    case "Uid:" => Uids
    case "Gid:" => Gids
    case "FDSize:" => Scalar(FdSize)
    case "Groups:" => Groups
    case "NStgid:" => Scalar(NStgid)
    case "NSpid:" => NSpid
    case "NSpgid:" => Scalar(NSpgid)
    case "NSsid:" => Scalar(NSsid)
    case _ => Unknown
  }

  function MemoryKeys(key: string): (target: Target)
    ensures target != Unknown ==> key == KeyOf(target)
  {
    match key
    case "VmPeak:" => Scalar(VMPeak)
    case "VmSize:" => Scalar(VMSize)
    case "VmLck:" => Scalar(VMLCK)
    case "VmPin:" => Scalar(VMPin)
    case "VmHWM:" => Scalar(VMHWM)
    case "VmRSS:" => Scalar(VMRSS)
    case "RssAnon:" => Scalar(RssAnon)
    case "RssFile:" => Scalar(RssFile)
    case "RssShmem:" => Scalar(RssShmem)
    case _ => Unknown
  }

  function SizeKeys(key: string): (target: Target)
    ensures target != Unknown ==> key == KeyOf(target)
  {
    match key
    case "VmData:" => Scalar(VMData)
    case "VmStk:" => Scalar(VMStk)
    case "VmExe:" => Scalar(VMExe)
    case "VmLib:" => Scalar(VMLib)
    case "VmPTE:" => Scalar(VMPTE)
    case "VmPMD:" => Scalar(VMPMD)
    case "VmSwap:" => Scalar(VMSwap)
    case "HugetlbPages:" => Scalar(HugetlbPages)
    case "Threads:" => Scalar(Threads)
    case _ => Unknown
  }

  function SignalKeys(key: string): (target: Target)
    ensures target != Unknown ==> key == KeyOf(target)
  {
    match key
    case "SigQ:" => Scalar(SigQ)
    case "SigPnd:" => Scalar(SigPnd)
    case "ShdPnd:" => Scalar(ShdPnd)
    case "SigBlk:" => Scalar(SigBlk)
    case "SigIgn:" => Scalar(SigIgn)
    case "SigCgt:" => Scalar(SigCgt)
    case _ => Unknown
  }

  function CapabilityKeys(key: string): (target: Target)
    ensures target != Unknown ==> key == KeyOf(target)
  {
    match key
    case "CapInh:" => Scalar(CapInh)
    case "CapPrm:" => Scalar(CapPrm)
    case "CapEff:" => Scalar(CapEff)
    case "CapBnd:" => Scalar(CapBnd)
    case "CapAmb:" => Scalar(CapAmb)
    case "NoNewPrivs:" => Scalar(NoNewPrivs)
    case "Seccomp:" => Scalar(Seccomp)
    case _ => Unknown
  }

  function CpuKeys(key: string): (target: Target)
    ensures target != Unknown ==> key == KeyOf(target)
  {
    match key
    case "Cpus_allowed:" => Scalar(CpusAllowed)
    case "Cpus_allowed_list:" => Scalar(CpusAllowedList)
    case "Mems_allowed:" => Scalar(MemsAllowed)
    case "Mems_allowed_list:" => Scalar(MemsAllowedList)
    case _ => Unknown
  }

  function SwitchKeys(key: string): (target: Target)
    ensures target != Unknown ==> key == KeyOf(target)
  {
    match key
    case "voluntary_ctxt_switches:" => Scalar(VoluntaryCtxtSwitches)
    case "nonvoluntary_ctxt_switches:" => Scalar(NonvoluntaryCtxtSwitches)
    case _ => Unknown
  }

  /** proc(5): the key of the line that the kernel prints a field on. */
  function KeyOf(target: Target): string {
    match target
    case Uids => "Uid:"
    case Gids => "Gid:"
    case Groups => "Groups:"
    case NSpid => "NSpid:"
    case Unknown => ""
    case Scalar(f) => FieldKey(f)
  }

  function FieldKey(f: Field): string {
    match f
    case Name => "Name:"
    case Umask => "Umask:"
    case State => "State:"
    case Tgid => "Tgid:"
    case Ngid => "Ngid:"
    case Pid => "Pid:"
    case PPid => "PPid:"
    case TracerPid => "TracerPid:"
    case FdSize => "FDSize:"
    case NStgid => "NStgid:"
    case NSpgid => "NSpgid:"
    case NSsid => "NSsid:"
    case VMPeak => "VmPeak:"
    case VMSize => "VmSize:"
    case VMLCK => "VmLck:"
    case VMPin => "VmPin:"
    case VMHWM => "VmHWM:"
    case VMRSS => "VmRSS:"
    case RssAnon => "RssAnon:"
    case RssFile => "RssFile:"
    case RssShmem => "RssShmem:"
    case VMData => "VmData:"
    case VMStk => "VmStk:"
    case VMExe => "VmExe:"
    case VMLib => "VmLib:"
    case VMPTE => "VmPTE:"
    case VMPMD => "VmPMD:"
    case VMSwap => "VmSwap:"
    case HugetlbPages => "HugetlbPages:"
    case Threads => "Threads:"
    case SigQ => "SigQ:"
    case SigPnd => "SigPnd:"
    case ShdPnd => "ShdPnd:"
    case SigBlk => "SigBlk:"
    case SigIgn => "SigIgn:"
    case SigCgt => "SigCgt:"
    case CapInh => "CapInh:"
    case CapPrm => "CapPrm:"
    case CapEff => "CapEff:"
    case CapBnd => "CapBnd:"
    case CapAmb => "CapAmb:"
    case NoNewPrivs => "NoNewPrivs:"
    case Seccomp => "Seccomp:"
    case CpusAllowed => "Cpus_allowed:"
    case CpusAllowedList => "Cpus_allowed_list:"
    case MemsAllowed => "Mems_allowed:"
    case MemsAllowedList => "Mems_allowed_list:"
    case VoluntaryCtxtSwitches => "voluntary_ctxt_switches:"
    case NonvoluntaryCtxtSwitches => "nonvoluntary_ctxt_switches:"
  }

  lemma OwnProcessKey(target: Target)
    requires target != Unknown
    ensures ProcessKeys(KeyOf(target)) in {target, Unknown}
  {
  }

  lemma OwnNamespaceKey(target: Target)
    requires target != Unknown
    ensures NamespaceKeys(KeyOf(target)) in {target, Unknown}
  {
  }

  lemma OwnMemoryKey(target: Target)
    requires target != Unknown
    ensures MemoryKeys(KeyOf(target)) in {target, Unknown}
  {
  }

  lemma OwnSizeKey(target: Target)
    requires target != Unknown
    ensures SizeKeys(KeyOf(target)) in {target, Unknown}
  {
  }

  lemma OwnSignalKey(target: Target)
    requires target != Unknown
    ensures SignalKeys(KeyOf(target)) in {target, Unknown}
  {
  }

  lemma OwnCapabilityKey(target: Target)
    requires target != Unknown
    ensures CapabilityKeys(KeyOf(target)) in {target, Unknown}
  {
  }

  lemma OwnCpuKey(target: Target)
    requires target != Unknown
    ensures CpuKeys(KeyOf(target)) in {target, Unknown}
  {
  }

  lemma OwnSwitchKey(target: Target)
    requires target != Unknown
    ensures SwitchKeys(KeyOf(target)) in {target, Unknown}
  {
  }

  lemma SomeTable(target: Target)
    requires target != Unknown
    ensures var key := KeyOf(target);
            || ProcessKeys(key) != Unknown || NamespaceKeys(key) != Unknown || MemoryKeys(key) != Unknown
            || SizeKeys(key) != Unknown || SignalKeys(key) != Unknown || CapabilityKeys(key) != Unknown
            || CpuKeys(key) != Unknown || SwitchKeys(key) != Unknown
  {
  }

  /** Every key names one target, and TargetOf finds it. */
  lemma KeyNames(target: Target)
    requires target != Unknown
    ensures TargetOf(KeyOf(target)) == target
  {
    OwnProcessKey(target);
    OwnNamespaceKey(target);
    OwnMemoryKey(target);
    OwnSizeKey(target);
    OwnSignalKey(target);
    OwnCapabilityKey(target);
    OwnCpuKey(target);
    OwnSwitchKey(target);
    SomeTable(target);
  }

  lemma KeysDiffer(t: Target, u: Target)
    requires t != Unknown && u != Unknown && KeyOf(t) == KeyOf(u)
    ensures t == u
  {
    KeyNames(t);
    KeyNames(u);
  }

  // ---------- what the lines say ----------

  /** parseStatus looks at a line only when it has a key and at least one word more. */
  predicate Carries(line: string, key: string) {
    |Fields(line)| >= 2 && Fields(line)[0] == key
  }

  function LastCarrier(lines: seq<string>, key: string): (i: int)
    ensures -1 <= i < |lines|
    ensures i >= 0 ==> Carries(lines[i], key)
    ensures forall j :: i < j < |lines| ==> !Carries(lines[j], key)
  {
    if lines == [] then -1
    else if Carries(lines[|lines| - 1], key) then |lines| - 1
    else LastCarrier(lines[..|lines| - 1], key)
  }

  /** The words on the last line that carries the key. */
  function LastWords(lines: seq<string>, key: string): seq<string> {
    var i := LastCarrier(lines, key);
    if i < 0 then [] else Fields(lines[i])[1..]
  }

  /** The words of a record's field. */
  function Shown(s: Status, target: Target): seq<string> {
    match target
    case Scalar(f) => if f in s.scalars then [s.scalars[f]] else []
    case Uids => s.uids
    case Gids => s.gids
    case Groups => s.groups
    case NSpid => s.nspid
    case Unknown => []
  }

  /** A one-word field keeps the first word of its line. */
  function Kept(target: Target, words: seq<string>): seq<string> {
    if target.Scalar? && words != [] then [words[0]] else words
  }

  /** Every field of the record is what the last line carrying its key says. */
  ghost predicate Says(lines: seq<string>, s: Status, key: KeyTable) {
    forall t: Target :: t != Unknown ==> Shown(s, t) == Kept(t, LastWords(lines, key(t)))
  }

  /** Lines say one record at most. */
  lemma SaysOnce(lines: seq<string>, r: Status, s: Status, key: KeyTable)
    requires Says(lines, r, key) && Says(lines, s, key)
    ensures r == s
  {
    assert Shown(r, Uids) == Shown(s, Uids) && Shown(r, Gids) == Shown(s, Gids);
    assert Shown(r, Groups) == Shown(s, Groups) && Shown(r, NSpid) == Shown(s, NSpid);
    forall f: Field
      ensures (f in r.scalars <==> f in s.scalars) && (f in r.scalars ==> r.scalars[f] == s.scalars[f])
    {
      assert Shown(r, Scalar(f)) == Shown(s, Scalar(f));
    }
    SameScalars(r.scalars, s.scalars);
  }

  lemma SameScalars(a: map<Field, string>, b: map<Field, string>)
    requires forall f: Field :: (f in a <==> f in b) && (f in a ==> a[f] == b[f])
    ensures a == b
  {
  }

  ghost predicate Distinct(key: KeyTable) {
    forall t: Target, u: Target :: t != Unknown && u != Unknown && key(t) == key(u) ==> t == u
  }

  /** A line of user or group IDs that does not have exactly four of them. */
  predicate Malformed(line: string) {
    (Carries(line, KeyOf(Uids)) || Carries(line, KeyOf(Gids))) && |Fields(line)| != 5
  }

  function FirstMalformed(lines: seq<string>): (i: int)
    ensures -1 <= i < |lines|
    ensures i >= 0 ==> Malformed(lines[i]) && forall j :: 0 <= j < i ==> !Malformed(lines[j])
    ensures i == -1 <==> forall line <- lines :: !Malformed(line)
  {
    if lines == [] then -1
    else if Malformed(lines[0]) then 0
    else
      var i := FirstMalformed(lines[1..]);
      assert forall line <- lines :: line == lines[0] || line in lines[1..];
      if i == -1 then -1 else i + 1
  }

  /** What the switch does with the words behind a known key. */
  function Put(s: Status, target: Target, words: seq<string>): Status
    requires words != []
  {
    match target
    case Scalar(f) => s.(scalars := s.scalars[f := words[0]])
    case Uids => s.(uids := words)
    case Gids => s.(gids := words)
    case Groups => s.(groups := words)
    case NSpid => s.(nspid := words)
    case Unknown => s
  }

  /** The record after the lines are read one by one. */
  function StatusOf(lines: seq<string>): Status {
    if lines == [] then Status(map[], [], [], [], [])
    else
      var s := StatusOf(lines[..|lines| - 1]);
      var fields := Fields(lines[|lines| - 1]);
      if |fields| < 2 then s else Put(s, TargetOf(fields[0]), fields[1..])
  }

  function Meaning(lines: seq<string>): (r: Outcome<Status>)
    ensures r.Ok? <==> forall line <- lines :: !Malformed(line)
    ensures !r.Panic?
  {
    var i := FirstMalformed(lines);
    if i >= 0 then Err(Other(lines[i])) else Ok(StatusOf(lines))
  }

  // ---------- the parser ----------

  lemma OneMoreLine(lines: seq<string>, line: string, key: string)
    ensures LastWords(lines + [line], key) ==
            if Carries(line, key) then Fields(line)[1..] else LastWords(lines, key)
  {
    assert (lines + [line])[..|lines|] == lines;
  }

  lemma PutShows(s: Status, target: Target, words: seq<string>, t: Target)
    requires words != [] && t != Unknown
    ensures Shown(Put(s, target, words), t) == if t == target then Kept(t, words) else Shown(s, t)
  {
  }

  /** Storing the words of a line under its key keeps the record true to the lines. */
  lemma OneMoreSaid(lines: seq<string>, line: string, s: Status, key: KeyTable, target: Target)
    requires Distinct(key) && Says(lines, s, key) && |Fields(line)| >= 2
    requires if target == Unknown then forall t: Target :: t != Unknown ==> !Carries(line, key(t))
             else Carries(line, key(target))
    ensures Says(lines + [line], Put(s, target, Fields(line)[1..]), key)
  {
    forall t: Target | t != Unknown
      ensures Shown(Put(s, target, Fields(line)[1..]), t) == Kept(t, LastWords(lines + [line], key(t)))
    {
      OneMoreLine(lines, line, key(t));
      PutShows(s, target, Fields(line)[1..], t);
    }
  }

  /** A line without a key and a word changes nothing. */
  lemma OneMoreIdle(lines: seq<string>, line: string, s: Status, key: KeyTable)
    requires Says(lines, s, key) && |Fields(line)| < 2
    ensures Says(lines + [line], s, key)
  {
    forall t: Target | t != Unknown
      ensures Shown(s, t) == Kept(t, LastWords(lines + [line], key(t)))
    {
      OneMoreLine(lines, line, key(t));
    }
  }

  /** Reading line by line, each assignment overwriting the last one, gives the record in which every
      field is what the last line carrying its key says. */
  lemma {:induction false} StatusSaid(lines: seq<string>)
    ensures Says(lines, StatusOf(lines), KeyOf)
  {
    if lines != [] {
      var before, line := lines[..|lines| - 1], lines[|lines| - 1];
      StatusSaid(before);
      assert before + [line] == lines;
      if |Fields(line)| < 2 {
        OneMoreIdle(before, line, StatusOf(before), KeyOf);
      } else {
        KeysDistinct();
        SwitchExact(Fields(line)[0]);
        OneMoreSaid(before, line, StatusOf(before), KeyOf, TargetOf(Fields(line)[0]));
      }
    }
  }

  lemma SwitchExact(key: string)
    ensures TargetOf(key) != Unknown ==> key == KeyOf(TargetOf(key))
    ensures TargetOf(key) == Unknown ==> forall t: Target :: t != Unknown ==> key != KeyOf(t)
  {
    forall t: Target | t != Unknown && key == KeyOf(t)
      ensures t == TargetOf(key)
    {
      KeyNames(t);
    }
  }

  lemma KeysDistinct()
    ensures Distinct(KeyOf)
  {
    forall t: Target, u: Target | t != Unknown && u != Unknown && KeyOf(t) == KeyOf(u)
      ensures t == u
    {
      KeysDiffer(t, u);
    }
  }

  /** The two keys whose lines the parser rejects. */
  lemma MalformedExact(line: string)
    requires |Fields(line)| >= 2
    ensures var target := TargetOf(Fields(line)[0]);
            Malformed(line) <==> (target == Uids || target == Gids) && |Fields(line)| != 5
  {
    SwitchExact(Fields(line)[0]);
    KeyNames(Uids);
    KeyNames(Gids);
  }

  /** parseStatus fails with the first malformed line, or reads the record off all lines. */
  method ParseStatus(lines: seq<string>) returns (r: Outcome<Status>)
    ensures r == Meaning(lines)
    ensures r.Ok? ==> Says(lines, r.value, KeyOf)
  {
    var s := Status(map[], [], [], [], []);
    for i := 0 to |lines|
      invariant s == StatusOf(lines[..i])
      invariant forall j :: 0 <= j < i ==> !Malformed(lines[j])
    {
      var fields := Fields(lines[i]);
      StatusStep(lines, i);
      if |fields| < 2 {
        continue;
      }
      MalformedExact(lines[i]);
      var target := Switch(fields[0]);
      if (target == Uids || target == Gids) && |fields| != 5 {
        MalformedAt(lines, i);
        return Err(Other(lines[i]));
      }
      s := Store(s, target, fields);
    }
    assert lines[..|lines|] == lines;
    StatusSaid(lines);
    WellFormedMeaning(lines);
    return Ok(s);
  }

  lemma StatusStep(lines: seq<string>, i: nat)
    requires i < |lines|
    ensures var s, fields := StatusOf(lines[..i]), Fields(lines[i]);
            StatusOf(lines[..i + 1]) == if |fields| < 2 then s else Put(s, TargetOf(fields[0]), fields[1..])
  {
    assert lines[..i + 1][..i] == lines[..i];
  }

  lemma WellFormedMeaning(lines: seq<string>)
    requires forall j :: 0 <= j < |lines| ==> !Malformed(lines[j])
    ensures Meaning(lines) == Ok(StatusOf(lines))
  {
  }

  lemma MalformedAt(lines: seq<string>, i: nat)
    requires i < |lines| && Malformed(lines[i])
    requires forall j :: 0 <= j < i ==> !Malformed(lines[j])
    ensures Meaning(lines) == Err(Other(lines[i]))
  {
    assert lines[i] in lines;
  }

  predicate IDsWrong(line: string) {
    var fields := Fields(line);
    |fields| >= 2 && (fields[0] == "Uid:" || fields[0] == "Gid:") && |fields| != 5
  }

  /** A line of user or group IDs with at least one ID has to have four of them; the first that has not is the error. */
  lemma MeaningExact(lines: seq<string>)
    ensures Meaning(lines).Ok? <==> forall i :: 0 <= i < |lines| ==> !IDsWrong(lines[i])
    ensures !Meaning(lines).Ok? ==>
              exists i :: 0 <= i < |lines| && Meaning(lines) == Err(Other(lines[i])) && IDsWrong(lines[i])
                          && forall j :: 0 <= j < i ==> !IDsWrong(lines[j])
  {
    forall i | 0 <= i < |lines|
      ensures Malformed(lines[i]) <==> IDsWrong(lines[i])
    {
    }
    var i := FirstMalformed(lines);
    if i >= 0 {
      assert lines[i] in lines;
    }
  }

  method Switch(key: string) returns (target: Target)
    ensures target == TargetOf(key)
  {
    target := TargetOf(key);
  }

  /** The assignments of the switch's cases. */
  method Store(s: Status, target: Target, fields: seq<string>) returns (s': Status)
    requires |fields| >= 2
    requires target == Uids || target == Gids ==> |fields| == 5
    ensures s' == Put(s, target, fields[1..])
  {
    s' := s;
    match target {
      case Scalar(f) =>
        s' := s.(scalars := s.scalars[f := fields[1]]);
      case Uids =>
        s' := s.(uids := [fields[1], fields[2], fields[3], fields[4]]);
        assert s'.uids == fields[1..];
      case Gids =>
        s' := s.(gids := [fields[1], fields[2], fields[3], fields[4]]);
        assert s'.gids == fields[1..];
      case Groups =>
        s' := s.(groups := fields[1..]);
      case NSpid =>
        s' := s.(nspid := fields[1..]);
      case Unknown =>
    }
  }

  // ---------- the order of the lines ----------

  /** No two lines carry the same key. */
  predicate KeysOnce(lines: seq<string>) {
    forall i, j :: 0 <= i < j < |lines| && |Fields(lines[i])| >= 2 ==> !Carries(lines[j], Fields(lines[i])[0])
  }

  lemma CarriedOnce(lines: seq<string>, i: nat, j: nat, key: string)
    requires KeysOnce(lines) && i < |lines| && j < |lines|
    requires Carries(lines[i], key) && Carries(lines[j], key)
    ensures i == j
  {
  }

  lemma SameLines(a: seq<string>, b: seq<string>, line: string)
    requires multiset(a) == multiset(b)
    ensures line in a <==> line in b
  {
    assert line in a <==> line in multiset(a);
    assert line in b <==> line in multiset(b);
  }

  lemma PermutedWords(a: seq<string>, b: seq<string>, key: string)
    requires multiset(a) == multiset(b) && KeysOnce(a)
    ensures LastWords(a, key) == LastWords(b, key)
  {
    var i, j := LastCarrier(a, key), LastCarrier(b, key);
    if j >= 0 {
      SameLines(a, b, b[j]);
      var k :| 0 <= k < |a| && a[k] == b[j];
      CarriedOnce(a, i, k, key);
    } else if i >= 0 {
      SameLines(a, b, a[i]);
    }
  }

  /** When no key occurs twice the order of the lines does not matter: neither to whether the lines
      parse nor to the record. */
  lemma PermutedLines(a: seq<string>, b: seq<string>)
    requires multiset(a) == multiset(b) && KeysOnce(a)
    ensures Meaning(a).Ok? <==> Meaning(b).Ok?
    ensures Meaning(a).Ok? ==> Meaning(a) == Meaning(b)
  {
    forall line: string
      ensures line in a <==> line in b
    {
      SameLines(a, b, line);
    }
    StatusSaid(a);
    StatusSaid(b);
    PermutedRecord(a, b, StatusOf(a), KeyOf);
    SaysOnce(b, StatusOf(a), StatusOf(b), KeyOf);
  }

  lemma PermutedRecord(a: seq<string>, b: seq<string>, s: Status, key: KeyTable)
    requires multiset(a) == multiset(b) && KeysOnce(a) && Says(a, s, key)
    ensures Says(b, s, key)
  {
    forall t: Target | t != Unknown
      ensures Shown(s, t) == Kept(t, LastWords(b, key(t)))
    {
      PermutedWords(a, b, key(t));
    }
  }

  // ---------- the kernel's side ----------

  /** A line of a status file: either the words of a field, each with white space of its own in front of it, and
      behind them a note such as a unit; or a line that the library does not look at. */
  datatype Line = Said(target: Target, items: seq<Item>, note: string) | Idle(text: string)

  function LineText(line: Line): string {
    match line
    case Said(_, items, note) => Spread(items) + note
    case Idle(text) => text
  }

  function PrintStatus(layout: seq<Line>): (lines: seq<string>)
    ensures |lines| == |layout|
    ensures forall i :: 0 <= i < |layout| ==> lines[i] == LineText(layout[i])
  {
    seq(|layout|, i requires 0 <= i < |layout| => LineText(layout[i]))
  }

  /** The line has no word behind its first, or its first word is no key. */
  ghost predicate SaysNothing(fields: seq<string>, key: KeyTable) {
    |fields| < 2 || forall t: Target :: t != Unknown ==> fields[0] != key(t)
  }

  /** A line as the kernel prints it in the status file of a record: the key and the words of a field, with a
      note only behind the word of a one-word field; or anything that says nothing. */
  ghost predicate LineOf(s: Status, line: Line, key: KeyTable) {
    match line
    case Said(t, items, note) =>
      && t != Unknown && Spaced(items) && Words(items) == [key(t)] + Shown(s, t)
      && (note == "" || IsSpace(note[0]))
      && (Blank(note) || (t.Scalar? && Shown(s, t) != []))
    case Idle(text) => SaysNothing(Fields(text), key)
  }

  predicate IsOf(line: Line, t: Target) {
    line.Said? && line.target == t
  }

  /** The lines of a record: in any order, with a line for every field that is not empty. */
  ghost predicate Prints(s: Status, layout: seq<Line>, key: KeyTable) {
    && (forall i :: 0 <= i < |layout| ==> LineOf(s, layout[i], key))
    && (forall t: Target :: Shown(s, t) != [] ==> exists i :: 0 <= i < |layout| && IsOf(layout[i], t))
  }

  lemma BlankFields(note: string)
    requires Blank(note)
    ensures Fields(note) == []
  {
    SkipBlank(note, "");
    assert note + "" == note;
  }

  lemma SaidFields(s: Status, line: Line, key: KeyTable)
    requires line.Said? && LineOf(s, line, key)
    ensures Fields(LineText(line)) == [key(line.target)] + Shown(s, line.target) + Fields(line.note)
    ensures Shown(s, line.target) == [] || !line.target.Scalar? ==> Fields(line.note) == []
  {
    FieldsOfSpreadThen(line.items, line.note);
    if Blank(line.note) {
      BlankFields(line.note);
    }
  }

  lemma BehindKey(key: string, words: seq<string>, more: seq<string>)
    ensures ([key] + words + more)[1..] == words + more
    ensures more == [] ==> words + more == words
  {
  }

  /** A printed line carries a key exactly when it is the line of that key's field and the field is not empty. */
  lemma CarriesExactly(s: Status, line: Line, key: KeyTable, t: Target)
    requires Distinct(key) && LineOf(s, line, key) && t != Unknown
    ensures Carries(LineText(line), key(t)) <==> IsOf(line, t) && Shown(s, t) != []
  {
    if line.Said? {
      SaidFields(s, line, key);
    }
  }

  /** The last line that carries a field's key says the field's words first. */
  lemma PrintedWords(s: Status, layout: seq<Line>, key: KeyTable, t: Target)
    requires Distinct(key) && Prints(s, layout, key) && t != Unknown
    ensures Kept(t, LastWords(PrintStatus(layout), key(t))) == Shown(s, t)
  {
    var lines := PrintStatus(layout);
    var i := LastCarrier(lines, key(t));
    if i >= 0 {
      CarriesExactly(s, layout[i], key, t);
      SaidFields(s, layout[i], key);
      BehindKey(key(t), Shown(s, t), Fields(layout[i].note));
    } else if Shown(s, t) != [] {
      var k :| 0 <= k < |layout| && IsOf(layout[k], t);
      CarriesExactly(s, layout[k], key, t);
    }
  }

  lemma PrintedWellFormed(s: Status, line: Line)
    requires LineOf(s, line, KeyOf) && FourOrNone(s)
    ensures !Malformed(LineText(line))
  {
    KeysDistinct();
    CarriesExactly(s, line, KeyOf, Uids);
    CarriesExactly(s, line, KeyOf, Gids);
    if line.Said? {
      SaidFields(s, line, KeyOf);
    }
  }

  predicate FourOrNone(s: Status) {
    (s.uids == [] || |s.uids| == 4) && (s.gids == [] || |s.gids| == 4)
  }

  /** The round trip: the lines of any record with four user and four group IDs or none, in any order and with any
      white space in front of each word, with any note behind the one-word fields, without lines for empty fields
      or with them, and with lines of unknown keys and lines of a single word anywhere between, parse to that
      record; the lists of groups and of namespace pids may have any length. */
  lemma MeaningOfPrinted(s: Status, layout: seq<Line>)
    requires FourOrNone(s) && Prints(s, layout, KeyOf)
    ensures Meaning(PrintStatus(layout)) == Ok(s)
  {
    var lines := PrintStatus(layout);
    forall i | 0 <= i < |lines|
      ensures !Malformed(lines[i])
    {
      PrintedWellFormed(s, layout[i]);
    }
    KeysDistinct();
    PrintedSays(s, layout, KeyOf);
    StatusSaid(lines);
    SaysOnce(lines, s, StatusOf(lines), KeyOf);
  }

  lemma PrintedSays(s: Status, layout: seq<Line>, key: KeyTable)
    requires Distinct(key) && Prints(s, layout, key)
    ensures Says(PrintStatus(layout), s, key)
  {
    forall t: Target | t != Unknown
      ensures Shown(s, t) == Kept(t, LastWords(PrintStatus(layout), key(t)))
    {
      PrintedWords(s, layout, key, t);
    }
  }

  lemma KeysAreVisible(t: Target)
    requires t != Unknown
    ensures forall c <- KeyOf(t) :: '!' <= c <= '~'
  {
    KeyNames(t);
    VisibleProcessKeys(KeyOf(t));
    VisibleNamespaceKeys(KeyOf(t));
    VisibleMemoryKeys(KeyOf(t));
    VisibleSizeKeys(KeyOf(t));
    VisibleSignalKeys(KeyOf(t));
    VisibleCapabilityKeys(KeyOf(t));
    VisibleCpuKeys(KeyOf(t));
    VisibleSwitchKeys(KeyOf(t));
  }

  lemma VisibleProcessKeys(key: string)
    ensures ProcessKeys(key) != Unknown ==> forall c <- key :: '!' <= c <= '~'
  {
  }

  lemma VisibleNamespaceKeys(key: string)
    ensures NamespaceKeys(key) != Unknown ==> forall c <- key :: '!' <= c <= '~'
  {
  }

  lemma VisibleMemoryKeys(key: string)
    ensures MemoryKeys(key) != Unknown ==> forall c <- key :: '!' <= c <= '~'
  {
  }

  lemma VisibleSizeKeys(key: string)
    ensures SizeKeys(key) != Unknown ==> forall c <- key :: '!' <= c <= '~'
  {
  }

  lemma VisibleSignalKeys(key: string)
    ensures SignalKeys(key) != Unknown ==> forall c <- key :: '!' <= c <= '~'
  {
  }

  lemma VisibleCapabilityKeys(key: string)
    ensures CapabilityKeys(key) != Unknown ==> forall c <- key :: '!' <= c <= '~'
  {
  }

  lemma VisibleCpuKeys(key: string)
    ensures CpuKeys(key) != Unknown ==> forall c <- key :: '!' <= c <= '~'
  {
  }

  lemma VisibleSwitchKeys(key: string)
    ensures SwitchKeys(key) != Unknown ==> forall c <- key :: '!' <= c <= '~'
  {
  }

  lemma KeysAreWords(t: Target)
    requires t != Unknown
    ensures Word(KeyOf(t))
  {
    KeysAreVisible(t);
  }

  /** Words behind a tab, with one gap between them */
  function TabbedItems(first: string, gap: string, words: seq<string>): (items: seq<Item>)
    ensures Words(items) == words
    decreases |words|
  {
    if words == [] then [] else [Item(first, words[0])] + TabbedItems(gap, gap, words[1..])
  }

  lemma SpreadFirst(item: Item, rest: seq<Item>)
    ensures Spread([item] + rest) == item.gap + item.word + Spread(rest)
  {
    assert ([item] + rest)[1..] == rest;
  }

  lemma {:induction false} TabbedText(first: string, gap: string, words: seq<string>)
    ensures Spread(TabbedItems(first, gap, words)) == if words == [] then "" else first + Join(words, gap)
    decreases |words|
  {
    if words != [] {
      var rest := TabbedItems(gap, gap, words[1..]);
      TabbedText(gap, gap, words[1..]);
      assert TabbedItems(first, gap, words) == [Item(first, words[0])] + rest;
      SpreadFirst(Item(first, words[0]), rest);
      assert words[1..] == [] ==> words == [words[0]];
    }
  }

  lemma {:induction false} TabbedSpaced(first: string, gap: string, words: seq<string>)
    requires Blank(first) && first != "" && Blank(gap) && gap != ""
    requires forall w <- words :: Word(w)
    ensures Spaced(TabbedItems(first, gap, words))
    ensures forall item <- TabbedItems(first, gap, words) :: item.gap != ""
    decreases |words|
  {
    if words != [] {
      assert words[0] in words;
      TabbedSpaced(gap, gap, words[1..]);
    }
  }

  /** The kernel's own lines are such lines: the key, a tab, and the words with a tab between them, as it prints
      the user and group IDs and the namespace pids, or with blanks between and behind them, as it prints the
      groups. */
  lemma KernelLine(s: Status, t: Target, gap: string, note: string) returns (line: Line)
    requires t != Unknown && (forall w <- Shown(s, t) :: Word(w))
    requires Blank(gap) && gap != "" && Blank(note)
    ensures LineOf(s, line, KeyOf) && IsOf(line, t)
    ensures Shown(s, t) != [] ==> LineText(line) == KeyOf(t) + "\t" + Join(Shown(s, t), gap) + note
  {
    KeysAreWords(t);
    line := WordsLine(KeyOf(t), Shown(s, t), t, gap, note);
  }

  lemma WordsLine(key: string, words: seq<string>, t: Target, gap: string, note: string) returns (line: Line)
    requires Word(key) && (forall w <- words :: Word(w)) && Blank(gap) && gap != "" && Blank(note)
    ensures line.Said? && line.target == t && line.note == note && (note == "" || IsSpace(note[0]))
    ensures Spaced(line.items) && Words(line.items) == [key] + words
    ensures words != [] ==> LineText(line) == key + "\t" + Join(words, gap) + note
  {
    TabbedSpaced("\t", gap, words);
    TabbedText("\t", gap, words);
    line := BehindWord(key, TabbedItems("\t", gap, words), t, note);
    StartsBlank(note);
    assert key + ("\t" + Join(words, gap)) + note == key + "\t" + Join(words, gap) + note;
  }

  lemma StartsBlank(note: string)
    requires Blank(note)
    ensures note == "" || IsSpace(note[0])
  {
    assert note != "" ==> note[0] in note;
  }

  lemma BehindWord(key: string, items: seq<Item>, t: Target, note: string) returns (line: Line)
    requires Word(key) && Spaced(items) && forall item <- items :: item.gap != ""
    ensures line.Said? && line.target == t && line.note == note
    ensures Spaced(line.items) && Words(line.items) == [key] + Words(items)
    ensures LineText(line) == key + Spread(items) + note
  {
    line := Said(t, [Item("", key)] + items, note);
    assert line.items[1..] == items;
  }

  // ---------- reading the lines ----------

  /** bufio.MaxScanTokenSize: no line of this length or more gets through a Scanner. */
  const MAX_SCAN_TOKEN: nat := 64 * 1024

  /** The lines that a Scanner gives: it stops at the first that is too long. */
  function Scanned(file: seq<string>): (lines: seq<string>)
    ensures lines <= file
  {
    if file == [] || |file[0]| >= MAX_SCAN_TOKEN then [] else [file[0]] + Scanned(file[1..])
  }

  lemma {:induction false} ScannedUpTo(file: seq<string>, n: nat)
    requires n <= |file| && forall i :: 0 <= i < n ==> |file[i]| < MAX_SCAN_TOKEN
    requires n < |file| ==> |file[n]| >= MAX_SCAN_TOKEN
    ensures Scanned(file) == file[..n]
  {
    if n > 0 {
      ScannedUpTo(file[1..], n - 1);
      assert file[..n] == [file[0]] + file[1..][..n - 1];
    }
  }

  /** readStatusDefault does not ask the scanner why it stopped: without a long line it gives the whole file, else
      silently what stands before the first one. */
  method ReadStatusDefault(file: seq<string>) returns (lines: seq<string>)
    ensures lines == Scanned(file)
    ensures |lines| < |file| ==> |file[|lines|]| >= MAX_SCAN_TOKEN
  {
    lines := [];
    var i := 0;
    while i < |file| && |file[i]| < MAX_SCAN_TOKEN
      invariant i <= |file| && lines == file[..i]
      invariant forall j :: 0 <= j < i ==> |file[j]| < MAX_SCAN_TOKEN
    {
      lines := lines + [file[i]];
      i := i + 1;
    }
    ScannedUpTo(file, i);
  }

  /** What stands behind a long line is lost: a field whose key is not carried before it stays empty, the namespace
      pids behind a long list of groups among them. */
  lemma LongLineHides(before: seq<string>, line: string, after: seq<string>, t: Target)
    requires (forall i :: 0 <= i < |before| ==> |before[i]| < 65536) && |line| >= 65536
    ensures Scanned(before + [line] + after) == before
    ensures t != Unknown && (forall i :: 0 <= i < |before| ==> !Carries(before[i], KeyOf(t))) ==>
              Shown(StatusOf(Scanned(before + [line] + after)), t) == []
  {
    var file := before + [line] + after;
    ScannedUpTo(file, |before|);
    assert file[..|before|] == before;
    StatusSaid(before);
    if t != Unknown {
      NotCarried(before, StatusOf(before), KeyOf, t);
    }
  }

  lemma NotCarried(lines: seq<string>, s: Status, key: KeyTable, t: Target)
    requires Says(lines, s, key) && t != Unknown
    ensures (forall i :: 0 <= i < |lines| ==> !Carries(lines[i], key(t))) ==> Shown(s, t) == []
  {
    assert LastCarrier(lines, key(t)) >= 0 ==> Carries(lines[LastCarrier(lines, key(t))], key(t));
  }

  /** A value of several words does not survive: of whatever stands on the line of a one-word field,
      the command name's among them, only the first word is kept. */
  lemma ValueIsCut(f: Field, text: string)
    requires text != "" && !IsSpace(text[0])
    ensures Meaning([KeyOf(Scalar(f)) + "\t" + text]) == Ok(Status(map[f := text[..WordLength(text)]], [], [], [], []))
  {
    var line := KeyOf(Scalar(f)) + "\t" + text;
    KeysAreWords(Scalar(f));
    KeyNames(Scalar(f));
    ValueLine(KeyOf(Scalar(f)), text);
    OneLine(line, Scalar(f));
  }

  lemma OneLine(line: string, target: Target)
    requires |Fields(line)| >= 2 && TargetOf(Fields(line)[0]) == target && target.Scalar?
    ensures Meaning([line]) == Ok(Put(Status(map[], [], [], [], []), target, Fields(line)[1..]))
  {
    MalformedExact(line);
    assert [line][..0] == [];
    assert StatusOf([]) == Status(map[], [], [], [], []);
  }

  lemma ValueLine(key: string, text: string)
    requires Word(key) && text != "" && !IsSpace(text[0])
    ensures Fields(key + "\t" + text) == [key, text[..WordLength(text)]] + Fields(text[WordLength(text)..])
  {
    assert key + "\t" + text == key + ("\t" + text);
    TakeWord(key, "\t" + text);
    SkipBlank("\t", text);
  }
}
