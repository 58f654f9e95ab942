/** What every column of psgo.go shows, from the files that a record was read from. */
module Columns {
  import opened Outcomes
  import opened Text
  import opened Descriptors
  import opened Process
  import opened Report
  import J = Join
  import Capabilities
  import CmdLine
  import ProcStat
  import ProcStatus
  import Snapshot
  import Times
  import Tty

  /** What the reads of a record saw: the stat record, the status lines, the command line file, the label */
  datatype Seen = Seen(stat: ProcStat.Stat, lines: seq<string>, args: string, secLabel: Option<string>)

  ghost predicate MadeFrom(p: ProcessData, pid: string, seen: Seen) {
    && p.pid == pid && p.stat == seen.stat
    && ProcStatus.Says(seen.lines, p.status, ProcStatus.KeyOf)
    && p.cmdLine == Split(seen.args, CmdLine.NUL)
    && p.secLabel == Snapshot.LabelOf(seen.secLabel)
  }

  /** A record of a snapshot is made from what its five reads saw. */
  ghost predicate SeenBy(w: Snapshot.World, pid: string, t: nat, seen: Seen) {
    && ProcStat.ParseStat(w.files(pid, t + 1).stat) == Ok(seen.stat)
    && seen.lines == ProcStatus.Scanned(w.files(pid, t + 3).status)
    && seen.args == w.files(pid, t + 5).cmdline
    && seen.secLabel == w.files(pid, t + 8).secLabel
  }

  // ---------- what a column shows ----------

  /** The first word of the last line with the key, or nothing */
  function FirstWord(lines: seq<string>, key: string): string {
    var words := ProcStatus.LastWords(lines, key);
    if words == [] then "" else words[0]
  }

  /** The name of the i-th ID of the last line with the key */
  ghost predicate ShowsID(r: Outcome<string>, lines: seq<string>, key: string, i: nat, name: int -> Option<string>) {
    var ids := ProcStatus.LastWords(lines, key);
    if i < |ids| then NameIn(r, ids[i], name) else r.Panic?
  }

  ghost predicate ShowsCaps(r: Outcome<string>, word: string) {
    && (forall mask: nat :: DenotesUnsigned(word, 16, mask) && mask <= UINT64_MAX ==>
          r == Ok(Capabilities.CapText(mask)))
    && ((forall mask: nat :: DenotesUnsigned(word, 16, mask) ==> mask > UINT64_MAX) ==> r.Err?)
  }

  /** Kilobytes of a number of bytes, truncated towards zero */
  ghost predicate ShowsKilobytes(r: Outcome<string>, text: string) {
    && (forall n: int :: In64(n) && Denotes(text, n) ==>
          r == Ok(SignedDecimal(if n >= 0 then n / 1024 else -(-n / 1024))))
    && (!IsNumber(text) ==> r.Err?)
  }

  /** The first listed terminal with the numbers in the text, without the directory; nothing for a text that is no
      number or when the terminals cannot be listed. */
  ghost predicate ShowsTty(r: Outcome<string>, text: string, ttys: Outcome<seq<Tty.TTY>>) {
    && (!ttys.Ok? || (forall n: nat :: DenotesUnsigned(text, 10, n) ==> n > UINT64_MAX) ==> r == Ok(""))
    && (forall n: nat :: ttys.Ok? && DenotesUnsigned(text, 10, n) && n <= UINT64_MAX ==>
          ShowsTerminal(r, n as bv64, ttys.value))
  }

  ghost predicate ShowsTerminal(r: Outcome<string>, nr: bv64, ttys: seq<Tty.TTY>) {
    && (forall i :: FirstWith(nr, ttys, i) ==> ShowsPath(r, ttys[i].path))
    && ((forall i :: 0 <= i < |ttys| ==> !HasNumbers(ttys[i], nr)) ==> r == Ok("?"))
  }

  predicate HasNumbers(d: Tty.TTY, nr: bv64) {
    d.minor == Tty.TtyMinor(nr) && d.major == Tty.TtyMajor(nr)
  }

  predicate FirstWith(nr: bv64, ttys: seq<Tty.TTY>, i: int) {
    && 0 <= i < |ttys| && HasNumbers(ttys[i], nr)
    && forall j :: 0 <= j < i ==> !HasNumbers(ttys[j], nr)
  }

  ghost predicate ShowsPath(r: Outcome<string>, path: string) {
    && (forall rest: string :: path == "/dev/" + rest ==> r == Ok(rest))
    && (!("/dev/" <= path) ==> r == Ok(path))
  }

  /** The CPU time of the two counters, when they and the tick rate are as the kernel gives them */
  ghost predicate IsCpuTime(time: int, stat: ProcStat.Stat, clockTicks: Outcome<int>) {
    exists c: Times.Counters, ticks: int ::
      && Denotes(ProcStat.Position(stat, 14), c.user) && Denotes(ProcStat.Position(stat, 15), c.system)
      && Times.Fits(c) && clockTicks == Ok(ticks) && 0 < ticks && time == Times.Duration((c.user + c.system) / ticks)
  }

  ghost predicate IsStartTime(time: int, stat: ProcStat.Stat, clockTicks: Outcome<int>, bootTime: Outcome<int>) {
    exists a: int, ticks: int, boot: int ::
      && Denotes(ProcStat.Position(stat, 22), a) && 0 <= a <= INT64_MAX
      && clockTicks == Ok(ticks) && 0 < ticks && bootTime == Ok(boot) && 0 <= boot
      && a / ticks + boot <= INT64_MAX && time == a / ticks + boot
  }

  predicate NoStart(r: Outcome<string>, env: Env) {
    if !env.clockTicks.Ok? then r == env.clockTicks.PropagateFailure()
    else !env.bootTime.Ok? ==> r == env.bootTime.PropagateFailure()
  }

  ghost predicate ShowsTime(r: Outcome<string>, stat: ProcStat.Stat, env: Env) {
    && (forall cpu: int :: IsCpuTime(cpu, stat, env.clockTicks) ==> r == Ok(env.durationText(cpu)))
    && (if IsNumber(ProcStat.Position(stat, 14)) && IsNumber(ProcStat.Position(stat, 15)) then
          !env.clockTicks.Ok? ==> r == env.clockTicks.PropagateFailure()
        else r.Err?)
  }

  ghost predicate ShowsStart(r: Outcome<string>, stat: ProcStat.Stat, env: Env) {
    && (forall start: int :: IsStartTime(start, stat, env.clockTicks, env.bootTime) ==> r == Ok(env.startText(start)))
    && (if IsNumber(ProcStat.Position(stat, 22)) then NoStart(r, env) else r.Err?)
  }

  /** Here an error is shown as nothing. */
  ghost predicate ShowsElapsed(r: Outcome<string>, stat: ProcStat.Stat, env: Env) {
    && (forall start: int :: IsStartTime(start, stat, env.clockTicks, env.bootTime) ==>
          r == Ok(env.elapsedText(start)))
    && (!IsNumber(ProcStat.Position(stat, 22)) ==> r == Ok(""))
    && (env.clockTicks.Err? || (env.clockTicks.Ok? && env.bootTime.Err?) ==> r == Ok(""))
  }

  ghost predicate ShowsPercent(r: Outcome<string>, stat: ProcStat.Stat, env: Env) {
    && (forall start: int, cpu: int ::
          IsStartTime(start, stat, env.clockTicks, env.bootTime) && IsCpuTime(cpu, stat, env.clockTicks) ==>
            r == Ok(env.percentText(cpu, start)))
    && (if IsNumber(ProcStat.Position(stat, 22)) then NoStart(r, env) else r.Err?)
  }

  /** What a column that does not look at host processes shows of a process */
  ghost predicate ShowsColumn(fn: ProcFn, r: Outcome<string>, pid: string, seen: Seen, env: Env) {
    match fn
    case PID => r == Ok(pid)
    case COMM => r == Ok(ProcStat.Position(seen.stat, 2))
    case PGID => r == Ok(ProcStat.Position(seen.stat, 5))
    case NICE => r == Ok(ProcStat.Position(seen.stat, 19))
    case VSZ => ShowsKilobytes(r, ProcStat.Position(seen.stat, 23))
    case TTY => ShowsTty(r, ProcStat.Position(seen.stat, 7), env.ttys)
    case TIME => ShowsTime(r, seen.stat, env)
    case STIME => ShowsStart(r, seen.stat, env)
    case ETIME => ShowsElapsed(r, seen.stat, env)
    case PCPU => ShowsPercent(r, seen.stat, env)
    case PPID => r == Ok(FirstWord(seen.lines, "PPid:"))
    case STATE => r == Ok(FirstWord(seen.lines, "State:"))
    case RSS => r == Ok(if FirstWord(seen.lines, "VmRSS:") == "" then "0" else FirstWord(seen.lines, "VmRSS:"))
    case SECCOMP => ShowsSeccomp(r, FirstWord(seen.lines, "Seccomp:"))
    case USER => ShowsID(r, seen.lines, "Uid:", 1, env.names.user)
    case RUSER => ShowsID(r, seen.lines, "Uid:", 0, env.names.user)
    case GROUP => ShowsID(r, seen.lines, "Gid:", 1, env.names.group)
    case RGROUP => ShowsID(r, seen.lines, "Gid:", 0, env.names.group)
    case CAPAMB => ShowsCaps(r, FirstWord(seen.lines, "CapAmb:"))
    case CAPINH => ShowsCaps(r, FirstWord(seen.lines, "CapInh:"))
    case CAPPRM => ShowsCaps(r, FirstWord(seen.lines, "CapPrm:"))
    case CAPEFF => ShowsCaps(r, FirstWord(seen.lines, "CapEff:"))
    case CAPBND => ShowsCaps(r, FirstWord(seen.lines, "CapBnd:"))
    case ARGS => ShowsArgs(r, seen.args, FirstWord(seen.lines, "Name:"))
    case LABEL => ShowsLabel(r, seen.secLabel)
    case HPID => true
    case HUSER => true
    case HGROUP => true
  }

  ghost predicate ShowsSeccomp(r: Outcome<string>, word: string) {
    && (word == "0" ==> r == Ok("disabled"))
    && (word == "1" ==> r == Ok("strict"))
    && (word == "2" ==> r == Ok("filter"))
    && (word !in {"0", "1", "2"} ==> r == Ok("?"))
  }

  /** The arguments with blanks between them and one behind the last, or the bracketed name if there are none or the
      first is empty */
  ghost predicate ShowsArgs(r: Outcome<string>, args: string, name: string) {
    r == Ok(if args == "" || args[0] == '\0' then "[" + name + "]" else Replace(args, '\0', " "))
  }

  /** The label without the newlines at its ends, or a question mark when there is none */
  ghost predicate ShowsLabel(r: Outcome<string>, secLabel: Option<string>) {
    && (secLabel == None ==> r == Ok("?"))
    && (forall left: string, text: string, right: string ::
          secLabel == Some(left + text + right) && Snapshot.Newlines(left) && Snapshot.Newlines(right) && Bare(text) ==>
            r == Ok(text))
  }

  predicate Bare(text: string) {
    text != "" ==> text[0] != '\n' && text[|text| - 1] != '\n'
  }

  // ---------- the words of the status file ----------

  lemma FieldShown(p: ProcessData, lines: seq<string>, f: ProcStatus.Field, key: string)
    requires ProcStatus.Says(lines, p.status, ProcStatus.KeyOf) && key == ProcStatus.FieldKey(f)
    ensures p.status.Get(f) == FirstWord(lines, key)
  {
    FieldSaid(p.status, lines, f, ProcStatus.KeyOf);
  }

  lemma FieldSaid(s: ProcStatus.Status, lines: seq<string>, f: ProcStatus.Field, key: ProcStatus.KeyTable)
    requires ProcStatus.Says(lines, s, key)
    ensures s.Get(f) == FirstWord(lines, key(ProcStatus.Scalar(f)))
  {
    assert ProcStatus.Shown(s, ProcStatus.Scalar(f)) ==
           ProcStatus.Kept(ProcStatus.Scalar(f), ProcStatus.LastWords(lines, key(ProcStatus.Scalar(f))));
  }

  lemma IDsShown(p: ProcessData, lines: seq<string>)
    requires ProcStatus.Says(lines, p.status, ProcStatus.KeyOf)
    ensures p.status.uids == ProcStatus.LastWords(lines, "Uid:")
    ensures p.status.gids == ProcStatus.LastWords(lines, "Gid:")
  {
    IDsSaid(p.status, lines, ProcStatus.KeyOf);
  }

  lemma IDsSaid(s: ProcStatus.Status, lines: seq<string>, key: ProcStatus.KeyTable)
    requires ProcStatus.Says(lines, s, key)
    ensures s.uids == ProcStatus.LastWords(lines, key(ProcStatus.Uids))
    ensures s.gids == ProcStatus.LastWords(lines, key(ProcStatus.Gids))
  {
    assert ProcStatus.Shown(s, ProcStatus.Uids) == s.uids && ProcStatus.Shown(s, ProcStatus.Gids) == s.gids;
  }

  // ---------- one column after the other ----------

  lemma StatColumns(p: ProcessData, ctx: Ctx, env: Env)
    ensures Cell(PID, p, ctx, env) == Ok(p.pid)
    ensures Cell(COMM, p, ctx, env) == Ok(ProcStat.Position(p.stat, 2))
    ensures Cell(PGID, p, ctx, env) == Ok(ProcStat.Position(p.stat, 5))
    ensures Cell(NICE, p, ctx, env) == Ok(ProcStat.Position(p.stat, 19))
  {
  }

  lemma KilobytesShown(text: string, r: Outcome<string>)
    requires KilobytesOf(r, text)
    ensures ShowsKilobytes(r, text)
  {
    ParseIntFails(text);
    forall n: int | In64(n) && Denotes(text, n)
      ensures r == Ok(SignedDecimal(if n >= 0 then n / 1024 else -(-n / 1024)))
    {
      ParseIntExact(text, n);
      Kilobytes(n);
    }
  }

  predicate KilobytesOf(r: Outcome<string>, text: string) {
    var n := ParseInt(text);
    if n.Ok? then r == Ok(SignedDecimal(Times.Quotient(n.value, 1024))) else r.Err?
  }

  lemma Kilobytes(n: int)
    ensures Times.Quotient(n, 1024) == if n >= 0 then n / 1024 else -(-n / 1024)
  {
  }

  /** What is known of the CPU time that a record gives */
  ghost predicate CpuKnown(cpu: Outcome<int>, stat: ProcStat.Stat, env: Env) {
    && (forall c: int :: IsCpuTime(c, stat, env.clockTicks) ==> cpu == Ok(c))
    && (if IsNumber(ProcStat.Position(stat, 14)) && IsNumber(ProcStat.Position(stat, 15)) then
          !env.clockTicks.Ok? ==> cpu == env.clockTicks.PropagateFailure()
        else cpu.Err?)
  }

  lemma CpuFacts(p: ProcessData, env: Env)
    ensures CpuKnown(CPUTimeOf(p, env), p.stat, env)
  {
    CpuTimeRead(p, env);
    Times.CPUTimeFails(p.stat.utime, p.stat.stime, env.clockTicks);
  }

  lemma TimeShown(p: ProcessData, ctx: Ctx, env: Env)
    ensures ShowsTime(Cell(TIME, p, ctx, env), p.stat, env)
  {
    CpuFacts(p, env);
    TimeText(CPUTimeOf(p, env), Cell(TIME, p, ctx, env), p.stat, env);
  }

  lemma TimeText(cpu: Outcome<int>, r: Outcome<string>, stat: ProcStat.Stat, env: Env)
    requires CpuKnown(cpu, stat, env)
    requires r == if cpu.Ok? then Ok(env.durationText(cpu.value)) else cpu.PropagateFailure()
    ensures ShowsTime(r, stat, env)
  {
  }

  lemma CpuTimeRead(p: ProcessData, env: Env)
    ensures forall cpu: int :: IsCpuTime(cpu, p.stat, env.clockTicks) ==> CPUTimeOf(p, env) == Ok(cpu)
  {
    forall cpu: int | IsCpuTime(cpu, p.stat, env.clockTicks)
      ensures CPUTimeOf(p, env) == Ok(cpu)
    {
      var c: Times.Counters, ticks: int :|
        && Denotes(ProcStat.Position(p.stat, 14), c.user) && Denotes(ProcStat.Position(p.stat, 15), c.system)
        && Times.Fits(c) && env.clockTicks == Ok(ticks) && 0 < ticks
        && cpu == Times.Duration((c.user + c.system) / ticks);
      Times.CPUTimeRead(p.stat.utime, p.stat.stime, c, ticks);
    }
  }

  lemma StartTimeRead(p: ProcessData, env: Env)
    ensures forall start: int :: IsStartTime(start, p.stat, env.clockTicks, env.bootTime) ==>
              StartTimeOf(p, env) == Ok(start)
  {
    forall start: int | IsStartTime(start, p.stat, env.clockTicks, env.bootTime)
      ensures StartTimeOf(p, env) == Ok(start)
    {
      var a: int, ticks: int, boot: int :|
        && Denotes(ProcStat.Position(p.stat, 22), a) && 0 <= a <= INT64_MAX
        && env.clockTicks == Ok(ticks) && 0 < ticks && env.bootTime == Ok(boot) && 0 <= boot
        && a / ticks + boot <= INT64_MAX && start == a / ticks + boot;
      Times.StartTimeRead(p.stat.starttime, a, ticks, boot);
    }
  }

  /** What is known of the start time that a record gives */
  ghost predicate StartKnown(start: Outcome<int>, stat: ProcStat.Stat, env: Env) {
    && (forall a: int :: IsStartTime(a, stat, env.clockTicks, env.bootTime) ==> start == Ok(a))
    && (if !IsNumber(ProcStat.Position(stat, 22)) then start.Err?
        else if !env.clockTicks.Ok? then start == env.clockTicks.PropagateFailure()
        else !env.bootTime.Ok? ==> start == env.bootTime.PropagateFailure())
  }

  lemma StartFacts(p: ProcessData, env: Env)
    ensures StartKnown(StartTimeOf(p, env), p.stat, env)
  {
    StartTimeRead(p, env);
    Times.StartTimeFails(p.stat.starttime, env.clockTicks, env.bootTime);
  }

  lemma StartShown(p: ProcessData, ctx: Ctx, env: Env)
    ensures ShowsStart(Cell(STIME, p, ctx, env), p.stat, env)
  {
    StartFacts(p, env);
    StartText(StartTimeOf(p, env), Cell(STIME, p, ctx, env), p.stat, env);
  }

  lemma StartText(start: Outcome<int>, r: Outcome<string>, stat: ProcStat.Stat, env: Env)
    requires StartKnown(start, stat, env)
    requires r == if start.Ok? then Ok(env.startText(start.value)) else start.PropagateFailure()
    ensures ShowsStart(r, stat, env)
  {
  }

  lemma ElapsedShown(p: ProcessData, ctx: Ctx, env: Env)
    ensures ShowsElapsed(Cell(ETIME, p, ctx, env), p.stat, env)
  {
    StartTimeRead(p, env);
    Times.StartTimeFails(p.stat.starttime, env.clockTicks, env.bootTime);
  }

  lemma PercentShown(p: ProcessData, ctx: Ctx, env: Env)
    ensures ShowsPercent(Cell(PCPU, p, ctx, env), p.stat, env)
  {
    StartTimeRead(p, env);
    CpuTimeRead(p, env);
    Times.StartTimeFails(p.stat.starttime, env.clockTicks, env.bootTime);
  }

  lemma StatusColumns(p: ProcessData, lines: seq<string>, ctx: Ctx, env: Env)
    requires ProcStatus.Says(lines, p.status, ProcStatus.KeyOf)
    ensures Cell(PPID, p, ctx, env) == Ok(FirstWord(lines, "PPid:"))
    ensures Cell(STATE, p, ctx, env) == Ok(FirstWord(lines, "State:"))
  {
    FieldShown(p, lines, ProcStatus.PPid, "PPid:");
    FieldShown(p, lines, ProcStatus.State, "State:");
  }

  lemma MemoryColumn(p: ProcessData, lines: seq<string>, ctx: Ctx, env: Env)
    requires ProcStatus.Says(lines, p.status, ProcStatus.KeyOf)
    ensures Cell(RSS, p, ctx, env) ==
            Ok(if FirstWord(lines, "VmRSS:") == "" then "0" else FirstWord(lines, "VmRSS:"))
  {
    FieldShown(p, lines, ProcStatus.VMRSS, "VmRSS:");
  }

  lemma SeccompColumn(p: ProcessData, lines: seq<string>, ctx: Ctx, env: Env)
    requires ProcStatus.Says(lines, p.status, ProcStatus.KeyOf)
    ensures ShowsSeccomp(Cell(SECCOMP, p, ctx, env), FirstWord(lines, "Seccomp:"))
  {
    FieldShown(p, lines, ProcStatus.Seccomp, "Seccomp:");
    SeccompOf(p, FirstWord(lines, "Seccomp:"));
  }

  lemma SeccompOf(p: ProcessData, word: string)
    requires p.status.Get(ProcStatus.Seccomp) == word
    ensures ShowsSeccomp(Ok(ProcessSECCOMP(p)), word)
  {
  }

  lemma UsersShown(p: ProcessData, lines: seq<string>, ctx: Ctx, env: Env)
    requires ProcStatus.Says(lines, p.status, ProcStatus.KeyOf)
    ensures ShowsID(Cell(USER, p, ctx, env), lines, "Uid:", 1, env.names.user)
    ensures ShowsID(Cell(RUSER, p, ctx, env), lines, "Uid:", 0, env.names.user)
  {
    IDsShown(p, lines);
    IDShown(p.status.uids, 1, env.names.user);
    IDShown(p.status.uids, 0, env.names.user);
  }

  lemma GroupsShown(p: ProcessData, lines: seq<string>, ctx: Ctx, env: Env)
    requires ProcStatus.Says(lines, p.status, ProcStatus.KeyOf)
    ensures ShowsID(Cell(GROUP, p, ctx, env), lines, "Gid:", 1, env.names.group)
    ensures ShowsID(Cell(RGROUP, p, ctx, env), lines, "Gid:", 0, env.names.group)
  {
    IDsShown(p, lines);
    IDShown(p.status.gids, 1, env.names.group);
    IDShown(p.status.gids, 0, env.names.group);
  }

  lemma IDShown(ids: seq<string>, i: nat, name: int -> Option<string>)
    ensures if i < |ids| then NameIn(LookupAt(ids, i, name), ids[i], name) else LookupAt(ids, i, name).Panic?
  {
    if i < |ids| {
      LookupExact(ids[i], name);
    }
  }

  lemma CapShown(p: ProcessData, lines: seq<string>, f: ProcStatus.Field, key: string, r: Outcome<string>)
    requires ProcStatus.Says(lines, p.status, ProcStatus.KeyOf) && key == ProcStatus.FieldKey(f)
    requires r == Capabilities.ParsedCap(p.status.Get(f))
    ensures ShowsCaps(r, FirstWord(lines, key))
  {
    FieldShown(p, lines, f, key);
    Capabilities.ParsedCapExact(FirstWord(lines, key));
  }

  lemma ArgsShown(p: ProcessData, args: string, lines: seq<string>, ctx: Ctx, env: Env)
    requires ProcStatus.Says(lines, p.status, ProcStatus.KeyOf) && p.cmdLine == Split(args, CmdLine.NUL)
    ensures ShowsArgs(Cell(ARGS, p, ctx, env), args, FirstWord(lines, "Name:"))
  {
    FieldShown(p, lines, ProcStatus.Name, "Name:");
    CmdLine.ArgsOfFile(args, FirstWord(lines, "Name:"));
  }

  lemma LabelShown(p: ProcessData, secLabel: Option<string>, ctx: Ctx, env: Env)
    requires p.secLabel == Snapshot.LabelOf(secLabel)
    ensures ShowsLabel(Cell(LABEL, p, ctx, env), secLabel)
  {
    forall left: string, text: string, right: string
      | && secLabel == Some(left + text + right) && Snapshot.Newlines(left) && Snapshot.Newlines(right)
        && Bare(text)
      ensures Snapshot.LabelOf(secLabel) == text
    {
      Snapshot.TrimNewlinesOf(left, text, right);
    }
  }

  predicate TtyOf(r: Outcome<string>, text: string, ttys: Outcome<seq<Tty.TTY>>) {
    var nr := ParseUint(text, 10, UINT64_MAX);
    if !nr.Ok? || !ttys.Ok? then r == Ok("") else r == TerminalText(nr.value as bv64, ttys.value)
  }

  lemma TerminalsShown(text: string, ttys: Outcome<seq<Tty.TTY>>, r: Outcome<string>)
    requires TtyOf(r, text, ttys)
    ensures ShowsTty(r, text, ttys)
  {
    var parsed := ParseUint(text, 10, UINT64_MAX);
    if parsed.Ok? {
      ParseUintExact(text, 10, UINT64_MAX, parsed.value);
    }
    forall n: nat | ttys.Ok? && DenotesUnsigned(text, 10, n) && n <= UINT64_MAX
      ensures ShowsTerminal(r, n as bv64, ttys.value)
    {
      ParseUintExact(text, 10, UINT64_MAX, n);
      TerminalShown(n as bv64, ttys.value);
    }
  }

  lemma TerminalShown(nr: bv64, ttys: seq<Tty.TTY>)
    ensures ShowsTerminal(TerminalText(nr, ttys), nr, ttys)
  {
    var i := Tty.FirstTTY(nr, ttys);
    if i >= 0 {
      PathShown(ttys[i].path);
      assert HasNumbers(ttys[i], nr);
    }
  }

  lemma PathShown(path: string)
    ensures ShowsPath(Ok(TrimPrefix(path, "/dev/")), path)
  {
    forall rest: string | path == "/dev/" + rest
      ensures TrimPrefix(path, "/dev/") == rest
    {
    }
  }

  // ---------- all columns ----------

  lemma KilobytesColumn(p: ProcessData, ctx: Ctx, env: Env)
    ensures ShowsKilobytes(Cell(VSZ, p, ctx, env), ProcStat.Position(p.stat, 23))
  {
    KilobytesCell(p, ctx, env);
    KilobytesShown(ProcStat.Position(p.stat, 23), Cell(VSZ, p, ctx, env));
  }

  lemma KilobytesCell(p: ProcessData, ctx: Ctx, env: Env)
    ensures KilobytesOf(Cell(VSZ, p, ctx, env), ProcStat.Position(p.stat, 23))
  {
    KilobytesOfVsize(p);
    assert Cell(VSZ, p, ctx, env) == ProcessVSZ(p);
    assert ProcStat.Position(p.stat, 23) == p.stat.vsize;
  }

  lemma KilobytesOfVsize(p: ProcessData)
    ensures KilobytesOf(ProcessVSZ(p), p.stat.vsize)
  {
  }

  lemma TtyColumn(p: ProcessData, ctx: Ctx, env: Env)
    ensures ShowsTty(Cell(TTY, p, ctx, env), ProcStat.Position(p.stat, 7), env.ttys)
  {
    TtyCell(p, ctx, env);
    TerminalsShown(ProcStat.Position(p.stat, 7), env.ttys, Cell(TTY, p, ctx, env));
  }

  lemma TtyCell(p: ProcessData, ctx: Ctx, env: Env)
    ensures TtyOf(Cell(TTY, p, ctx, env), ProcStat.Position(p.stat, 7), env.ttys)
  {
  }

  lemma AmbientColumn(p: ProcessData, lines: seq<string>, ctx: Ctx, env: Env)
    requires ProcStatus.Says(lines, p.status, ProcStatus.KeyOf)
    ensures ShowsCaps(Cell(CAPAMB, p, ctx, env), FirstWord(lines, "CapAmb:"))
  {
    CapShown(p, lines, ProcStatus.CapAmb, "CapAmb:", Cell(CAPAMB, p, ctx, env));
  }

  lemma InheritedColumn(p: ProcessData, lines: seq<string>, ctx: Ctx, env: Env)
    requires ProcStatus.Says(lines, p.status, ProcStatus.KeyOf)
    ensures ShowsCaps(Cell(CAPINH, p, ctx, env), FirstWord(lines, "CapInh:"))
  {
    CapShown(p, lines, ProcStatus.CapInh, "CapInh:", Cell(CAPINH, p, ctx, env));
  }

  lemma PermittedColumn(p: ProcessData, lines: seq<string>, ctx: Ctx, env: Env)
    requires ProcStatus.Says(lines, p.status, ProcStatus.KeyOf)
    ensures ShowsCaps(Cell(CAPPRM, p, ctx, env), FirstWord(lines, "CapPrm:"))
  {
    CapShown(p, lines, ProcStatus.CapPrm, "CapPrm:", Cell(CAPPRM, p, ctx, env));
  }

  lemma EffectiveColumn(p: ProcessData, lines: seq<string>, ctx: Ctx, env: Env)
    requires ProcStatus.Says(lines, p.status, ProcStatus.KeyOf)
    ensures ShowsCaps(Cell(CAPEFF, p, ctx, env), FirstWord(lines, "CapEff:"))
  {
    CapShown(p, lines, ProcStatus.CapEff, "CapEff:", Cell(CAPEFF, p, ctx, env));
  }

  lemma BoundingColumn(p: ProcessData, lines: seq<string>, ctx: Ctx, env: Env)
    requires ProcStatus.Says(lines, p.status, ProcStatus.KeyOf)
    ensures ShowsCaps(Cell(CAPBND, p, ctx, env), FirstWord(lines, "CapBnd:"))
  {
    CapShown(p, lines, ProcStatus.CapBnd, "CapBnd:", Cell(CAPBND, p, ctx, env));
  }

  lemma FromStat(fn: ProcFn, p: ProcessData, pid: string, seen: Seen, ctx: Ctx, env: Env)
    requires MadeFrom(p, pid, seen) && fn in {PID, COMM, PGID, NICE, VSZ, TTY}
    ensures ShowsColumn(fn, Cell(fn, p, ctx, env), pid, seen, env)
  {
    if fn == PID {
      StatColumns(p, ctx, env);
    } else if fn == COMM {
      StatColumns(p, ctx, env);
    } else if fn == PGID {
      StatColumns(p, ctx, env);
    } else if fn == NICE {
      StatColumns(p, ctx, env);
    } else if fn == VSZ {
      KilobytesColumn(p, ctx, env);
    } else {
      TtyColumn(p, ctx, env);
    }
  }

  lemma FromClock(fn: ProcFn, p: ProcessData, pid: string, seen: Seen, ctx: Ctx, env: Env)
    requires MadeFrom(p, pid, seen) && fn in {TIME, STIME, ETIME, PCPU}
    ensures ShowsColumn(fn, Cell(fn, p, ctx, env), pid, seen, env)
  {
    if fn == TIME {
      TimeShown(p, ctx, env);
    } else if fn == STIME {
      StartShown(p, ctx, env);
    } else if fn == ETIME {
      ElapsedShown(p, ctx, env);
    } else {
      PercentShown(p, ctx, env);
    }
  }

  lemma FromStatus(fn: ProcFn, p: ProcessData, pid: string, seen: Seen, ctx: Ctx, env: Env)
    requires MadeFrom(p, pid, seen) && fn in {PPID, STATE, RSS, SECCOMP}
    ensures ShowsColumn(fn, Cell(fn, p, ctx, env), pid, seen, env)
  {
    if fn == PPID {
      StatusColumns(p, seen.lines, ctx, env);
    } else if fn == STATE {
      StatusColumns(p, seen.lines, ctx, env);
    } else if fn == RSS {
      MemoryColumn(p, seen.lines, ctx, env);
    } else {
      SeccompColumn(p, seen.lines, ctx, env);
    }
  }

  lemma FromNames(fn: ProcFn, p: ProcessData, pid: string, seen: Seen, ctx: Ctx, env: Env)
    requires MadeFrom(p, pid, seen) && fn in {USER, RUSER, GROUP, RGROUP, ARGS, LABEL}
    ensures ShowsColumn(fn, Cell(fn, p, ctx, env), pid, seen, env)
  {
    if fn == USER || fn == RUSER {
      UsersShown(p, seen.lines, ctx, env);
    } else if fn == GROUP || fn == RGROUP {
      GroupsShown(p, seen.lines, ctx, env);
    } else if fn == ARGS {
      ArgsShown(p, seen.args, seen.lines, ctx, env);
    } else {
      LabelShown(p, seen.secLabel, ctx, env);
    }
  }

  lemma FromCaps(fn: ProcFn, p: ProcessData, pid: string, seen: Seen, ctx: Ctx, env: Env)
    requires MadeFrom(p, pid, seen) && fn in {CAPAMB, CAPINH, CAPPRM, CAPEFF, CAPBND}
    ensures ShowsColumn(fn, Cell(fn, p, ctx, env), pid, seen, env)
  {
    if fn == CAPAMB {
      AmbientColumn(p, seen.lines, ctx, env);
    } else if fn == CAPINH {
      InheritedColumn(p, seen.lines, ctx, env);
    } else if fn == CAPPRM {
      PermittedColumn(p, seen.lines, ctx, env);
    } else if fn == CAPEFF {
      EffectiveColumn(p, seen.lines, ctx, env);
    } else {
      BoundingColumn(p, seen.lines, ctx, env);
    }
  }

  /** Every column of a record shows what the files say that the record was made from. */
  lemma ColumnShown(fn: ProcFn, p: ProcessData, pid: string, seen: Seen, ctx: Ctx, env: Env)
    requires MadeFrom(p, pid, seen)
    ensures ShowsColumn(fn, Cell(fn, p, ctx, env), pid, seen, env)
  {
    if fn in {PID, COMM, PGID, NICE, VSZ, TTY} {
      FromStat(fn, p, pid, seen, ctx, env);
    } else if fn in {TIME, STIME, ETIME, PCPU} {
      FromClock(fn, p, pid, seen, ctx, env);
    } else if fn in {PPID, STATE, RSS, SECCOMP} {
      FromStatus(fn, p, pid, seen, ctx, env);
    } else if fn in {USER, RUSER, GROUP, RGROUP, ARGS, LABEL} {
      FromNames(fn, p, pid, seen, ctx, env);
    } else if fn in {CAPAMB, CAPINH, CAPPRM, CAPEFF, CAPBND} {
      FromCaps(fn, p, pid, seen, ctx, env);
    }
  }

  // ---------- the whole report ----------

  function SeenAt(w: Snapshot.World, pid: string, t: nat, stat: ProcStat.Stat): Seen {
    Seen(stat, ProcStatus.Scanned(w.files(pid, t + 3).status), w.files(pid, t + 5).cmdline,
         w.files(pid, t + 8).secLabel)
  }

  /** A record of a snapshot is made from what its five reads saw, each at its time. */
  lemma RecordSeen(w: Snapshot.World, pid: string, t: nat) returns (seen: Seen)
    requires Snapshot.WellFormed(w) && NewData(Snapshot.Readers(w), pid, t).0.Ok?
    ensures SeenBy(w, pid, t, seen) && MadeFrom(NewData(Snapshot.Readers(w), pid, t).0.value, pid, seen)
  {
    Snapshot.RecordContents(w, pid, t);
    Snapshot.ArgsOfRecord(w, pid, t);
    var p := NewData(Snapshot.Readers(w), pid, t).0.value;
    seen := SeenAt(w, pid, t, p.stat);
    ProcStatus.StatusSaid(seen.lines);
  }

  /** The same for the i-th record of a snapshot, which turn k made */
  lemma SnapshotSeen(w: Snapshot.World, make: Maker, pids: seq<string>, t: nat, i: nat) returns (seen: Seen)
    requires Snapshot.WellFormed(w) && make == MakerOf(Snapshot.Readers(w)) && i < |Gather(make, pids, t, |pids|)|
    ensures var k := Snapshot.Kept(make, pids, t, |pids|)[i];
            && SeenBy(w, pids[k], TurnStart(make, pids, t, k), seen)
            && MadeFrom(Gather(make, pids, t, |pids|)[i], pids[k], seen)
  {
    var k := Snapshot.Kept(make, pids, t, |pids|)[i];
    Snapshot.GatherIsTurn(make, pids, t, |pids|, i);
    seen := MakerSeen(w, make, pids[k], TurnStart(make, pids, t, k));
  }

  lemma MakerSeen(w: Snapshot.World, make: Maker, pid: string, t: nat) returns (seen: Seen)
    requires Snapshot.WellFormed(w) && make == MakerOf(Snapshot.Readers(w)) && make(pid, t).0.Ok?
    ensures SeenBy(w, pid, t, seen) && MadeFrom(make(pid, t).0.value, pid, seen)
  {
    seen := RecordSeen(w, pid, t);
  }

  /** A call that takes its container processes from a snapshot and joins no user namespace. */
  ghost predicate TakesSnapshot(jw: J.World, make: Maker, t: nat) {
    && jw.pids.Ok? && jw.fromPIDs(jw.pids.value, false) == SnapshotOf(make, jw.pids.value, t)
    && (jw.currentUserNS.Ok? ==> !J.JoinsUserNS(jw.currentUserNS.value, jw.pidUserNS))
  }

  /** A call that succeeds gives the table of its snapshot. */
  lemma JoinedSnapshot(descriptors: seq<string>, o: Option<OptsData>, jw: J.World, make: Maker, t: nat)
    returns (ctx: Ctx)
    requires TakesSnapshot(jw, make, t) && J.Joined(descriptors, o, jw).0.Ok?
    ensures Translated(descriptors).Ok?
    ensures J.Joined(descriptors, o, jw).0 ==
            TableOf(Translated(descriptors).value, Gather(make, jw.pids.value, t, |jw.pids.value|),
                    CellsOf(ctx, jw.env))
  {
    J.JoinedDone(descriptors, o, jw);
    J.JoinedReads(descriptors, o, jw);
    ctx := Ctx(if J.WantsHosts(Translated(descriptors).value) then jw.hostProcesses.value else [],
               J.Joined(descriptors, o, jw).1);
  }

  /** From the request and the files to the cells: in the report of a call that succeeds, each column has the heading of
      the name in the request that it stands for, and row i shows in it what that name says, of the files of the i-th
      process that was not gone, each as it was when it was read. */
  lemma ReportShown(descriptors: seq<string>, ds: seq<string>, o: Option<OptsData>, jw: J.World, w: Snapshot.World,
                    make: Maker, t: nat, records: seq<ProcessData>, table: Table, i: nat, m: nat, c: nat, shown: Shown)
    returns (seen: Seen, k: nat)
    requires TakesSnapshot(jw, make, t) && Snapshot.WellFormed(w) && make == MakerOf(Snapshot.Readers(w))
    requires J.Joined(descriptors, o, jw).0 == Ok(table)
    requires records == Gather(make, jw.pids.value, t, |jw.pids.value|) && i < |records|
    requires ds == (if descriptors == [] then DEFAULT_DESCRIPTORS else descriptors) && StandsAt(ds, m, c, shown)
    ensures |table| == 1 + |records| && c < |table[0]| == |table[i + 1]| && table[0][c] == shown.header
    ensures i < |Snapshot.Kept(make, jw.pids.value, t, |jw.pids.value|)|
    ensures k == Snapshot.Kept(make, jw.pids.value, t, |jw.pids.value|)[i] && k < |jw.pids.value|
    ensures SeenBy(w, jw.pids.value[k], TurnStart(make, jw.pids.value, t, k), seen)
    ensures ShowsColumn(shown.procFn, Ok(table[i + 1][c]), jw.pids.value[k], seen, jw.env)
  {
    var ctx := JoinedSnapshot(descriptors, o, jw, make, t);
    ColumnAt(ds, m, c, shown);
    seen := SnapshotSeen(w, make, jw.pids.value, t, i);
    k := Snapshot.Kept(make, jw.pids.value, t, |jw.pids.value|)[i];
    TableShown(Translated(descriptors).value, records, ctx, jw.env, table, i, c, jw.pids.value[k], seen);
  }

  lemma TableShown(descs: seq<Descriptor>, ps: seq<ProcessData>, ctx: Ctx, env: Env, table: Table, i: nat, m: nat,
                   pid: string, seen: Seen)
    requires TableOf(descs, ps, CellsOf(ctx, env)) == Ok(table) && i < |ps| && m < |descs|
    requires MadeFrom(ps[i], pid, seen)
    ensures |table| == 1 + |ps| && |table[0]| == |table[i + 1]| == |descs| && table[0][m] == descs[m].header
    ensures ShowsColumn(descs[m].procFn, Ok(table[i + 1][m]), pid, seen, env)
  {
    TableExact(descs, ps, CellsOf(ctx, env));
    assert RowOf(descs, ps[i], CellsOf(ctx, env), table[i + 1]);
    ColumnShown(descs[m].procFn, ps[i], pid, seen, ctx, env);
  }
}
