/** processDescriptors of psgo.go: the table of a report, and the columns it is made of. */
module Report {
  import opened Outcomes
  import opened Text
  import opened Descriptors
  import P = Process
  import CmdLine
  import HostMatch
  import I = IdMap
  import Capabilities
  import Tty
  import Times

  // ---------- the table ----------

  /** A column of a process: what one processFunc returns for it. */
  type Cells = (ProcFn, P.ProcessData) -> Outcome<string>

  type Table = seq<seq<string>>

  function Header(descs: seq<Descriptor>): (header: seq<string>)
    ensures |header| == |descs|
    ensures forall j :: 0 <= j < |descs| ==> header[j] == descs[j].header
  {
    seq(|descs|, j requires 0 <= j < |descs| => descs[j].header)
  }

  /** The first n cells of a row, or the first failure among them */
  function Row(descs: seq<Descriptor>, p: P.ProcessData, cells: Cells, n: nat): Outcome<seq<string>>
    requires n <= |descs|
  {
    if n == 0 then Ok([]) else
    var before :- Row(descs, p, cells, n - 1);
    var cell :- cells(descs[n - 1].procFn, p);
    Ok(before + [cell])
  }

  /** The first n rows, or the failure of the first that fails */
  function Rows(descs: seq<Descriptor>, ps: seq<P.ProcessData>, cells: Cells, n: nat): Outcome<Table>
    requires n <= |ps|
  {
    if n == 0 then Ok([]) else
    var before :- Rows(descs, ps, cells, n - 1);
    var row :- Row(descs, ps[n - 1], cells, |descs|);
    Ok(before + [row])
  }

  function TableOf(descs: seq<Descriptor>, ps: seq<P.ProcessData>, cells: Cells): Outcome<Table> {
    var rows :- Rows(descs, ps, cells, |ps|);
    Ok([Header(descs)] + rows)
  }

  method ProcessDescriptors(descs: seq<Descriptor>, ps: seq<P.ProcessData>, cells: Cells) returns (r: Outcome<Table>)
    ensures r == TableOf(descs, ps, cells)
  {
    var header: seq<string> := [];
    for j := 0 to |descs|
      invariant header == Header(descs)[..j]
    {
      header := header + [descs[j].header];
    }
    var data: Table := [header];
    assert Header(descs)[..|descs|] == Header(descs);
    for i := 0 to |ps|
      invariant Rows(descs, ps, cells, i).Ok? && data == [Header(descs)] + Rows(descs, ps, cells, i).value
    {
      var pData: seq<string> := [];
      for j := 0 to |descs|
        invariant Row(descs, ps[i], cells, j) == Ok(pData)
      {
        var dataStr := cells(descs[j].procFn, ps[i]);
        if !dataStr.Ok? {
          RowFails(descs, ps[i], cells, j + 1, |descs|);
          RowsFail(descs, ps, cells, i + 1, |ps|);
          return dataStr.PropagateFailure();
        }
        pData := pData + [dataStr.value];
      }
      data := data + [pData];
    }
    return Ok(data);
  }

  lemma {:induction false} RowFails(descs: seq<Descriptor>, p: P.ProcessData, cells: Cells, m: nat, n: nat)
    requires m <= n <= |descs| && !Row(descs, p, cells, m).Ok?
    ensures Row(descs, p, cells, n) == Row(descs, p, cells, m)
  {
    if m < n {
      RowFails(descs, p, cells, m, n - 1);
    }
  }

  lemma {:induction false} RowsFail(descs: seq<Descriptor>, ps: seq<P.ProcessData>, cells: Cells, m: nat, n: nat)
    requires m <= n <= |ps| && !Rows(descs, ps, cells, m).Ok?
    ensures Rows(descs, ps, cells, n) == Rows(descs, ps, cells, m)
  {
    if m < n {
      RowsFail(descs, ps, cells, m, n - 1);
    }
  }

  /** A complete row: one cell for every column. */
  predicate RowOf(descs: seq<Descriptor>, p: P.ProcessData, cells: Cells, row: seq<string>) {
    |row| == |descs| && forall j :: 0 <= j < |descs| ==> cells(descs[j].procFn, p) == Ok(row[j])
  }

  /** The first failing cell of a process is the one in column j. */
  predicate FailsAt(descs: seq<Descriptor>, p: P.ProcessData, cells: Cells, j: nat) {
    && j < |descs| && !cells(descs[j].procFn, p).Ok?
    && forall k :: 0 <= k < j ==> cells(descs[k].procFn, p).Ok?
  }

  lemma {:induction false} RowExact(descs: seq<Descriptor>, p: P.ProcessData, cells: Cells, n: nat)
    requires n <= |descs|
    ensures match Row(descs, p, cells, n)
            case Ok(row) => |row| == n && forall j :: 0 <= j < n ==> cells(descs[j].procFn, p) == Ok(row[j])
            case failed => exists j: nat :: j < n && FailsAt(descs, p, cells, j)
                                            && failed == cells(descs[j].procFn, p).PropagateFailure()
  {
    if n > 0 {
      RowExact(descs, p, cells, n - 1);
      if Row(descs, p, cells, n - 1).Ok? && !cells(descs[n - 1].procFn, p).Ok? {
        assert FailsAt(descs, p, cells, n - 1);
      }
    }
  }

  lemma {:induction false} RowsExact(descs: seq<Descriptor>, ps: seq<P.ProcessData>, cells: Cells, n: nat)
    requires n <= |ps|
    ensures match Rows(descs, ps, cells, n)
            case Ok(rows) => |rows| == n && forall i :: 0 <= i < n ==> RowOf(descs, ps[i], cells, rows[i])
            case failed => exists i: nat, j: nat :: i < n && FirstFailure(descs, ps, cells, i, j)
                                                    && failed == cells(descs[j].procFn, ps[i]).PropagateFailure()
  {
    if n > 0 {
      RowsExact(descs, ps, cells, n - 1);
      RowExact(descs, ps[n - 1], cells, |descs|);
      var before, row := Rows(descs, ps, cells, n - 1), Row(descs, ps[n - 1], cells, |descs|);
      if before.Ok? && !row.Ok? {
        var j: nat :| j < |descs| && FailsAt(descs, ps[n - 1], cells, j)
                      && row == cells(descs[j].procFn, ps[n - 1]).PropagateFailure();
        RowsWhole(descs, ps, cells, before.value, n - 1);
        assert FirstFailure(descs, ps, cells, n - 1, j);
      }
    }
  }

  lemma RowsWhole(descs: seq<Descriptor>, ps: seq<P.ProcessData>, cells: Cells, rows: Table, n: nat)
    requires n <= |ps| && |rows| == n && forall i :: 0 <= i < n ==> RowOf(descs, ps[i], cells, rows[i])
    ensures forall i: nat, j: nat :: i < n && j < |descs| ==> cells(descs[j].procFn, ps[i]).Ok?
  {
    forall i: nat, j: nat | i < n && j < |descs|
      ensures cells(descs[j].procFn, ps[i]).Ok?
    {
      assert RowOf(descs, ps[i], cells, rows[i]);
    }
  }

  /** The first failing cell of the table in row-major order. */
  predicate FirstFailure(descs: seq<Descriptor>, ps: seq<P.ProcessData>, cells: Cells, i: nat, j: nat) {
    && i < |ps| && FailsAt(descs, ps[i], cells, j)
    && forall k: nat, l: nat :: k < i && l < |descs| ==> cells(descs[l].procFn, ps[k]).Ok?
  }

  /** The report: 1 + |processes| rows, all as wide as the header, cell (i, j) being column j of process i;
      or the failure of the first failing cell in row-major order. */
  lemma TableExact(descs: seq<Descriptor>, ps: seq<P.ProcessData>, cells: Cells)
    ensures match TableOf(descs, ps, cells)
            case Ok(table) =>
              && |table| == 1 + |ps| && table[0] == Header(descs)
              && forall i :: 0 <= i < |ps| ==> RowOf(descs, ps[i], cells, table[i + 1])
            case failed => exists i: nat, j: nat :: FirstFailure(descs, ps, cells, i, j)
                                                    && failed == cells(descs[j].procFn, ps[i]).PropagateFailure()
  {
    RowsExact(descs, ps, cells, |ps|);
    var rows := Rows(descs, ps, cells, |ps|);
    if rows.Ok? {
      BehindHeader(Header(descs), rows.value);
    }
  }

  lemma BehindHeader(header: seq<string>, rows: Table)
    ensures var table := [header] + rows;
            |table| == 1 + |rows| && table[0] == header && forall i :: 0 <= i < |rows| ==> table[i + 1] == rows[i]
  {
  }

  // ---------- when two ways to compute cells give the same table ----------

  predicate Agree(descs: seq<Descriptor>, ps: seq<P.ProcessData>, a: Cells, b: Cells) {
    forall i, j :: 0 <= i < |ps| && 0 <= j < |descs| ==> a(descs[j].procFn, ps[i]) == b(descs[j].procFn, ps[i])
  }

  lemma {:induction false} SameRow(descs: seq<Descriptor>, ps: seq<P.ProcessData>, i: nat, a: Cells, b: Cells, n: nat)
    requires Agree(descs, ps, a, b) && i < |ps| && n <= |descs|
    ensures Row(descs, ps[i], a, n) == Row(descs, ps[i], b, n)
  {
    if n > 0 {
      SameRow(descs, ps, i, a, b, n - 1);
    }
  }

  lemma {:induction false} SameRows(descs: seq<Descriptor>, ps: seq<P.ProcessData>, a: Cells, b: Cells, n: nat)
    requires Agree(descs, ps, a, b) && n <= |ps|
    ensures Rows(descs, ps, a, n) == Rows(descs, ps, b, n)
  {
    if n > 0 {
      SameRows(descs, ps, a, b, n - 1);
      SameRow(descs, ps, n - 1, a, b, |descs|);
    }
  }

  lemma SameTable(descs: seq<Descriptor>, ps: seq<P.ProcessData>, a: Cells, b: Cells)
    requires Agree(descs, ps, a, b)
    ensures TableOf(descs, ps, a) == TableOf(descs, ps, b)
  {
    SameRows(descs, ps, a, b, |ps|);
  }

  // ---------- the columns ----------

  datatype OptsData = OptsData(uidMap: seq<I.IDMap>, gidMap: seq<I.IDMap>, fillMappings: bool)

  /** What the columns look at besides the process: host processes and options of the context, the user
      databases, the overflow files, the tick rate, the boot time, the terminals, and the formatting that is not
      modelled: of a CPU time, of a start time, of the time elapsed since a start time, and of the percentage of
      CPU time in elapsed time (a division of floating-point numbers, which never panics). */
  datatype Env = Env(
    names: P.Names,
    overflowUid: Outcome<string>,
    overflowGid: Outcome<string>,
    clockTicks: Outcome<int>,
    bootTime: Outcome<int>,
    ttys: Outcome<seq<Tty.TTY>>,
    durationText: int -> string,
    startText: int -> string,
    elapsedText: int -> string,
    percentText: (int, int) -> string)

  datatype Ctx = Ctx(hostProcesses: seq<P.ProcessData>, opts: Option<OptsData>)

  function At(list: seq<string>, i: nat): Outcome<string> {
    if i < |list| then Ok(list[i]) else Panic  // index out of range
  }

  function ProcessTTY(p: P.ProcessData, env: Env): Outcome<string> {
    var ttyNr := ParseUint(p.stat.ttyNr, 10, UINT64_MAX);
    if !ttyNr.Ok? || !env.ttys.Ok? then Ok("")
    else TerminalText(ttyNr.value as bv64, env.ttys.value)
  }

  function TerminalText(nr: bv64, ttys: seq<Tty.TTY>): Outcome<string> {
    var i := Tty.FirstTTY(nr, ttys);
    if i == -1 then Ok("?") else Ok(TrimPrefix(ttys[i].path, "/dev/"))
  }

  /** strings.TrimPrefix */
  function TrimPrefix(s: string, prefix: string): string {
    if prefix <= s then s[|prefix|..] else s
  }

  function StartTimeOf(p: P.ProcessData, env: Env): Outcome<int> {
    Times.StartTime(p.stat.starttime, env.clockTicks, env.bootTime)
  }

  function CPUTimeOf(p: P.ProcessData, env: Env): Outcome<int> {
    Times.CPUTime(p.stat.utime, p.stat.stime, env.clockTicks)
  }

  /** processETIME drops the error of a start time that cannot be told. */
  function ProcessETIME(p: P.ProcessData, env: Env): Outcome<string> {
    match StartTimeOf(p, env)
    case Ok(start) => Ok(env.elapsedText(start))
    case Err(_) => Ok("")
    case Panic => Panic
  }

  function ProcessVSZ(p: P.ProcessData): Outcome<string> {
    var vmsize :- ParseInt(p.stat.vsize);
    Ok(SignedDecimal(Times.Quotient(vmsize, 1024)))
  }

  function ProcessSECCOMP(p: P.ProcessData): string {
    match p.status.Get(P.ProcStatus.Seccomp)
    case "0" => "disabled"
    case "1" => "strict"
    case "2" => "filter"
    case _ => "?"
  }

  function ProcessHPID(p: P.ProcessData, ctx: Ctx): Outcome<string> {
    match HostMatch.FoundHost(p, ctx.hostProcesses)
    case None => Ok("?")
    case Some(hp) => Ok(hp.pid)
  }

  function UserLookup(names: P.Names): I.Lookup {
    id => P.LookupUID(id, names)
  }

  function GroupLookup(names: P.Names): I.Lookup {
    id => P.LookupGID(id, names)
  }

  function ProcessHUSER(p: P.ProcessData, ctx: Ctx, env: Env): Outcome<string> {
    match HostMatch.FoundHost(p, ctx.hostProcesses)
    case None => Ok("?")
    case Some(hp) =>
      if ctx.opts.Some? && ctx.opts.value.uidMap != [] then
        var uid :- At(hp.status.uids, 1);
        I.FoundID(uid, ctx.opts.value.uidMap, UserLookup(env.names), env.overflowUid)
      else Ok(hp.huser)
  }

  function ProcessHGROUP(p: P.ProcessData, ctx: Ctx, env: Env): Outcome<string> {
    match HostMatch.FoundHost(p, ctx.hostProcesses)
    case None => Ok("?")
    case Some(hp) =>
      if ctx.opts.Some? && ctx.opts.value.gidMap != [] then
        var gid :- At(hp.status.gids, 1);
        I.FoundID(gid, ctx.opts.value.gidMap, GroupLookup(env.names), env.overflowGid)
      else Ok(hp.hgroup)
  }

  function LookupAt(ids: seq<string>, i: nat, name: int -> Option<string>): Outcome<string> {
    var id :- At(ids, i);
    P.Lookup(id, name)
  }

  function Cell(fn: ProcFn, p: P.ProcessData, ctx: Ctx, env: Env): Outcome<string> {
    match fn
    case GROUP => LookupAt(p.status.gids, 1, env.names.group)
    case RGROUP => LookupAt(p.status.gids, 0, env.names.group)
    case USER => LookupAt(p.status.uids, 1, env.names.user)
    case RUSER => LookupAt(p.status.uids, 0, env.names.user)
    case PPID => Ok(p.status.Get(P.ProcStatus.PPid))
    case ARGS => CmdLine.ProcessArgs(p.cmdLine, p.status.Get(P.ProcStatus.Name))
    case COMM => Ok(p.stat.comm)
    case NICE => Ok(p.stat.nice)
    case PID => Ok(p.pid)
    case PGID => Ok(p.stat.pgrp)
    case TIME =>
      var cpu :- CPUTimeOf(p, env);
      Ok(env.durationText(cpu))
    case TTY => ProcessTTY(p, env)
    case VSZ => ProcessVSZ(p)
    case CAPAMB => Capabilities.ParsedCap(p.status.Get(P.ProcStatus.CapAmb))
    case CAPINH => Capabilities.ParsedCap(p.status.Get(P.ProcStatus.CapInh))
    case CAPPRM => Capabilities.ParsedCap(p.status.Get(P.ProcStatus.CapPrm))
    case CAPEFF => Capabilities.ParsedCap(p.status.Get(P.ProcStatus.CapEff))
    case CAPBND => Capabilities.ParsedCap(p.status.Get(P.ProcStatus.CapBnd))
    case SECCOMP => Ok(ProcessSECCOMP(p))
    case LABEL => Ok(p.secLabel)
    case HPID => ProcessHPID(p, ctx)
    case HUSER => ProcessHUSER(p, ctx, env)
    case HGROUP => ProcessHGROUP(p, ctx, env)
    case RSS => Ok(if p.status.Get(P.ProcStatus.VMRSS) == "" then "0" else p.status.Get(P.ProcStatus.VMRSS))
    case STATE => Ok(p.status.Get(P.ProcStatus.State))
    case PCPU =>
      var start :- StartTimeOf(p, env);
      var cpu :- CPUTimeOf(p, env);
      Ok(env.percentText(cpu, start))
    case ETIME => ProcessETIME(p, env)
    case STIME =>
      var start :- StartTimeOf(p, env);
      Ok(env.startText(start))
  }

  function CellsOf(ctx: Ctx, env: Env): Cells {
    (fn, p) => Cell(fn, p, ctx, env)
  }

  predicate OnHost(descs: seq<Descriptor>) {
    exists j :: 0 <= j < |descs| && descs[j].onHost
  }

  lemma CellIgnoresHosts(fn: ProcFn, p: P.ProcessData, ctx: Ctx, hosts: seq<P.ProcessData>, env: Env)
    requires fn !in {HPID, HUSER, HGROUP}
    ensures Cell(fn, p, ctx, env) == Cell(fn, p, ctx.(hostProcesses := hosts), env)
  {
  }

  /** Without a column flagged onHost the report is the same whatever the host processes are. */
  lemma HostsIrrelevant(requests: seq<string>, ps: seq<P.ProcessData>, ctx: Ctx, hosts: seq<P.ProcessData>, env: Env)
    requires Translated(requests).Ok? && !OnHost(Translated(requests).value)
    ensures var descs := Translated(requests).value;
            TableOf(descs, ps, CellsOf(ctx, env)) == TableOf(descs, ps, CellsOf(ctx.(hostProcesses := hosts), env))
  {
    var ds := if requests == [] then DEFAULT_DESCRIPTORS else requests;
    var descs := Translated(requests).value;
    var a, b := CellsOf(ctx, env), CellsOf(ctx.(hostProcesses := hosts), env);
    forall i, j | 0 <= i < |ps| && 0 <= j < |descs|
      ensures a(descs[j].procFn, ps[i]) == b(descs[j].procFn, ps[i])
    {
      ResolvedFlagged(ds, j);
      CellIgnoresHosts(descs[j].procFn, ps[i], ctx, hosts, env);
    }
    SameTable(descs, ps, a, b);
  }
}
