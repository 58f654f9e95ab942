/** The columns of psgo.go index lists without looking at their lengths and divide by the tick rate; a report on
    what the library itself has read never fails that way. */
module ReportSafety {
  import opened Outcomes
  import opened Text
  import opened Descriptors
  import opened Process
  import opened Report
  import HostMatch
  import Snapshot
  import Hosts

  /** A system whose own answers are values or errors, with a tick rate that is not zero */
  predicate Sane(env: Env) {
    && !env.overflowUid.Panic? && !env.overflowGid.Panic?
    && !env.clockTicks.Panic? && env.clockTicks != Ok(0) && !env.bootTime.Panic?
  }

  ghost predicate AllWhole(ps: seq<ProcessData>) {
    forall i :: 0 <= i < |ps| ==> Snapshot.Whole(ps[i])
  }

  lemma HostCellsSafe(p: ProcessData, ctx: Ctx, env: Env)
    requires Sane(env) && AllWhole(ctx.hostProcesses)
    ensures !ProcessHPID(p, ctx).Panic?
    ensures !ProcessHUSER(p, ctx, env).Panic?
    ensures !ProcessHGROUP(p, ctx, env).Panic?
  {
    var i := HostMatch.FirstMatch(p, ctx.hostProcesses);
    if i >= 0 {
      assert Snapshot.Whole(ctx.hostProcesses[i]);
    }
  }

  lemma CellSafe(fn: ProcFn, p: ProcessData, ctx: Ctx, env: Env)
    requires Sane(env) && Snapshot.Whole(p) && AllWhole(ctx.hostProcesses)
    ensures !Cell(fn, p, ctx, env).Panic?
  {
    HostCellsSafe(p, ctx, env);
  }

  /** What Sane asks of the tick rate is needed: at rate 0 the time column divides by zero on every record whose
      counters are numbers, and the start time, the elapsed time and the percentage of CPU time do so once the boot
      time is known, on every record whose start time is a number. */
  lemma ZeroTicksPanic(p: ProcessData, ctx: Ctx, env: Env)
    requires env.clockTicks == Ok(0)
    ensures Cell(TIME, p, ctx, env).Panic? <==> ParseInt(p.stat.utime).Ok? && ParseInt(p.stat.stime).Ok?
    ensures env.bootTime.Ok? ==>
              && (Cell(STIME, p, ctx, env).Panic? <==> ParseInt(p.stat.starttime).Ok?)
              && (Cell(ETIME, p, ctx, env).Panic? <==> ParseInt(p.stat.starttime).Ok?)
              && (Cell(PCPU, p, ctx, env).Panic? <==> ParseInt(p.stat.starttime).Ok?)
  {
    assert !ParseInt(p.stat.utime).Panic? && !ParseInt(p.stat.stime).Panic? && !ParseInt(p.stat.starttime).Panic?;
  }

  /** No report on whole records panics, with any columns and any whole host records. */
  lemma TableSafe(descs: seq<Descriptor>, ps: seq<ProcessData>, ctx: Ctx, env: Env)
    requires Sane(env) && AllWhole(ps) && AllWhole(ctx.hostProcesses)
    ensures !TableOf(descs, ps, CellsOf(ctx, env)).Panic?
  {
    var cells := CellsOf(ctx, env);
    TableExact(descs, ps, cells);
    if TableOf(descs, ps, cells).Panic? {
      var i: nat, j: nat :| FirstFailure(descs, ps, cells, i, j)
                            && TableOf(descs, ps, cells) == cells(descs[j].procFn, ps[i]).PropagateFailure();
      CellSafe(descs[j].procFn, ps[i], ctx, env);
    }
  }

  /** End to end: a snapshot of the container's processes and one of the host's, taken while any of them exit,
      then the host data, then the table of any columns under any options.  Whatever was read, no index is out
      of range on the way. */
  lemma ReportNeverPanics(w: Snapshot.World, pids: seq<string>, t: nat,
                          hw: Snapshot.World, hostPids: seq<string>, ht: nat,
                          make: Maker, hostMake: Maker, names: Names, hosts: seq<ProcessData>,
                          descs: seq<Descriptor>, opts: Option<OptsData>, env: Env)
    requires Snapshot.WellFormed(w) && make == MakerOf(Snapshot.Readers(w))
    requires Snapshot.WellFormed(hw) && hostMake == MakerOf(Snapshot.Readers(hw))
    requires var records := Gather(hostMake, hostPids, ht, |hostPids|);
             Hosts.WithAll(records, Hosts.HostDataOf(names), |records|) == Ok(hosts)
    requires Sane(env)
    ensures !TableOf(descs, Gather(make, pids, t, |pids|), CellsOf(Ctx(hosts, opts), env)).Panic?
  {
    Snapshot.SnapshotExact(w, make, pids, t);
    Snapshot.SnapshotExact(hw, hostMake, hostPids, ht);
    HostsWhole(Gather(hostMake, hostPids, ht, |hostPids|), hosts, names);
    TableSafe(descs, Gather(make, pids, t, |pids|), Ctx(hosts, opts), env);
  }

  lemma HostsWhole(records: seq<ProcessData>, hosts: seq<ProcessData>, names: Names)
    requires AllWhole(records) && Hosts.WithAll(records, Hosts.HostDataOf(names), |records|) == Ok(hosts)
    ensures AllWhole(hosts)
  {
    forall i | 0 <= i < |hosts|
      ensures Snapshot.Whole(hosts[i])
    {
      Hosts.WithAllLength(records, Hosts.HostDataOf(names), |records|);
      Hosts.HostDataKeepsWhole(records, names, |records|, i);
    }
  }
}
