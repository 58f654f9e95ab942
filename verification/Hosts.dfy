/** hostProcesses of psgo.go: the records of the host processes with their user and group names. */
module Hosts {
  import opened Outcomes
  import opened Process
  import Snapshot

  /** What hostProcesses gives on values */
  function HostSnapshot(make: Maker, pids: seq<string>, t: nat, names: Names): Outcome<seq<ProcessData>> {
    var records :- SnapshotOf(make, pids, t);
    WithAll(records, HostDataOf(names), |records|)
  }

  function HostDataOf(names: Names): ProcessData -> Outcome<ProcessData> {
    p => WithHostData(p, names)
  }

  /** The records among the first n with their host data, or the first failure */
  function WithAll(ps: seq<ProcessData>, host: ProcessData -> Outcome<ProcessData>, n: nat): Outcome<seq<ProcessData>>
    requires n <= |ps|
  {
    if n == 0 then Ok([]) else
    var before :- WithAll(ps, host, n - 1);
    var p :- host(ps[n - 1]);
    Ok(before + [p])
  }

  lemma {:induction false} WithAllFails(ps: seq<ProcessData>, host: ProcessData -> Outcome<ProcessData>, m: nat, n: nat)
    requires m <= n <= |ps| && !WithAll(ps, host, m).Ok?
    ensures WithAll(ps, host, n) == WithAll(ps, host, m)
  {
    if m < n {
      WithAllFails(ps, host, m, n - 1);
    }
  }

  /** SetHostData on every record in place: all of them get their names, or the first failure is returned. */
  method SetAllHostData(ps: seq<Process>, ghost before: seq<ProcessData>, names: Names,
                        ghost host: ProcessData -> Outcome<ProcessData>) returns (r: Outcome<()>)
    requires Separate(ps) && Show(ps, before) && host == HostDataOf(names)
    modifies ps
    ensures var all := WithAll(before, host, |before|);
            if all.Ok? then r == Ok(()) && Show(ps, all.value) else r == all.PropagateFailure()
  {
    ghost var done;
    r, done := SetEach(ps, before, names, host);
    if !r.Ok? {
      FailsAt(before, host, |done|, done);
    }
  }

  /** The loop, with the records that have their names when it ends */
  method SetEach(ps: seq<Process>, ghost before: seq<ProcessData>, names: Names,
                 ghost host: ProcessData -> Outcome<ProcessData>)
    returns (r: Outcome<()>, ghost done: seq<ProcessData>)
    requires Separate(ps) && Show(ps, before) && host == HostDataOf(names)
    modifies ps
    ensures |done| <= |ps| == |before| && WithAll(before, host, |done|) == Ok(done)
    ensures if r.Ok? then r == Ok(()) && |done| == |ps| && Progress(ps, before, done)
            else |done| < |ps| && !host(before[|done|]).Ok? && r == host(before[|done|]).PropagateFailure()
  {
    done := [];
    for i := 0 to |ps|
      invariant |done| == i && WithAll(before, host, i) == Ok(done)
      invariant Progress(ps, before, done)
    {
      r := SetOne(ps, i, before, done, names, host);
      if !r.Ok? {
        return;
      }
      OneMoreDone(before, host, i, done);
      done := done + [host(before[i]).value];
    }
    r := Ok(());
  }

  /** The first records have their names, the others are as before. */
  ghost predicate Progress(ps: seq<Process>, before: seq<ProcessData>, done: seq<ProcessData>)
    reads ps
  {
    && |done| <= |ps| == |before|
    && (forall k :: 0 <= k < |done| ==> ps[k].View() == done[k])
    && (forall k :: |done| <= k < |ps| ==> ps[k].View() == before[k])
  }

  lemma OneMoreDone(ps: seq<ProcessData>, host: ProcessData -> Outcome<ProcessData>, i: nat, done: seq<ProcessData>)
    requires i < |ps| && WithAll(ps, host, i) == Ok(done) && host(ps[i]).Ok?
    ensures WithAll(ps, host, i + 1) == Ok(done + [host(ps[i]).value])
  {
  }

  lemma FailsAt(ps: seq<ProcessData>, host: ProcessData -> Outcome<ProcessData>, i: nat, done: seq<ProcessData>)
    requires i < |ps| && WithAll(ps, host, i) == Ok(done) && !host(ps[i]).Ok?
    ensures WithAll(ps, host, |ps|) == host(ps[i]).PropagateFailure()
  {
    WithAllFails(ps, host, i + 1, |ps|);
  }

  method SetOne(ps: seq<Process>, i: nat, ghost before: seq<ProcessData>, ghost done: seq<ProcessData>, names: Names,
                ghost host: ProcessData -> Outcome<ProcessData>) returns (r: Outcome<()>)
    requires i == |done| < |ps| && Separate(ps) && Progress(ps, before, done) && host == HostDataOf(names)
    modifies ps[i]
    ensures var p := host(before[i]);
            if p.Ok? then r == Ok(()) && Progress(ps, before, done + [p.value]) else r == p.PropagateFailure()
  {
    r := ps[i].SetHostData(names);
  }

  method HostProcesses(pids: Outcome<seq<string>>, f: Proc, t: nat, names: Names, ghost make: Maker)
    returns (r: Outcome<seq<Process>>)
    requires make == MakerOf(f)
    ensures !pids.Ok? ==> r == pids.PropagateFailure()
    ensures pids.Ok? ==>
              var all := HostSnapshot(make, pids.value, t, names);
              if all.Ok? then r.Ok? && fresh(r.value) && Show(r.value, all.value) else r == all.PropagateFailure()
    ensures pids.Ok? && r.Ok? ==>
              var records := Gather(make, pids.value, t, |pids.value|);
              && |r.value| == |records|
              && forall i :: 0 <= i < |records| ==> NamedRecord(records[i], names, r.value[i].View())
  {
    if !pids.Ok? {
      return pids.PropagateFailure();
    }
    var processes := FromPIDs(pids.value, f, t, make);
    if !processes.Ok? {
      return processes.PropagateFailure();
    }
    var e := SetAllHostData(processes.value, Gather(make, pids.value, t, |pids.value|), names, HostDataOf(names));
    if !e.Ok? {
      return e.PropagateFailure();
    }
    NamedRecords(Gather(make, pids.value, t, |pids.value|), names, HostSnapshot(make, pids.value, t, names).value);
    return processes;
  }

  lemma {:induction false} WithAllLength(ps: seq<ProcessData>, host: ProcessData -> Outcome<ProcessData>, n: nat)
    requires n <= |ps| && WithAll(ps, host, n).Ok?
    ensures |WithAll(ps, host, n).value| == n
  {
    if n > 0 {
      WithAllLength(ps, host, n - 1);
    }
  }

  /** The names do not touch what else is in the records. */
  lemma {:induction false} HostDataKeepsWhole(ps: seq<ProcessData>, names: Names, n: nat, i: nat)
    requires n <= |ps| && WithAll(ps, HostDataOf(names), n).Ok? && i < n
    requires forall k :: 0 <= k < |ps| ==> Snapshot.Whole(ps[k])
    ensures |WithAll(ps, HostDataOf(names), n).value| == n
    ensures Snapshot.Whole(WithAll(ps, HostDataOf(names), n).value[i])
    ensures WithAll(ps, HostDataOf(names), n).value[i].status == ps[i].status
  {
    if n > 1 {
      HostDataKeepsWhole(ps, names, n - 1, if i < n - 1 then i else 0);
    }
  }

  /** Every record has its own host data, at its own place. */
  lemma {:induction false} WithAllEach(ps: seq<ProcessData>, host: ProcessData -> Outcome<ProcessData>, n: nat, i: nat)
    requires n <= |ps| && WithAll(ps, host, n).Ok? && i < n
    ensures |WithAll(ps, host, n).value| == n && host(ps[i]) == Ok(WithAll(ps, host, n).value[i])
  {
    WithAllLength(ps, host, n);
    WithAllLength(ps, host, n - 1);
    if i < n - 1 {
      WithAllEach(ps, host, n - 1, i);
    }
  }

  /** All records get their host data if each can, and else the first that cannot decides how it ends. */
  lemma {:induction false} WithAllEnds(ps: seq<ProcessData>, host: ProcessData -> Outcome<ProcessData>, n: nat)
    requires n <= |ps|
    ensures WithAll(ps, host, n).Ok? <==> forall i :: 0 <= i < n ==> host(ps[i]).Ok?
    ensures forall i :: 0 <= i < n && !host(ps[i]).Ok? && (forall j :: 0 <= j < i ==> host(ps[j]).Ok?) ==>
              WithAll(ps, host, n) == host(ps[i]).PropagateFailure()
  {
    if n > 0 {
      WithAllEnds(ps, host, n - 1);
    }
  }

  /** The records have the names of their own second IDs, and nothing else is changed. */
  lemma NamedRecords(records: seq<ProcessData>, names: Names, hosts: seq<ProcessData>)
    requires WithAll(records, HostDataOf(names), |records|) == Ok(hosts)
    ensures |hosts| == |records|
    ensures forall i :: 0 <= i < |hosts| ==> NamedRecord(records[i], names, hosts[i])
  {
    WithAllLength(records, HostDataOf(names), |records|);
    forall i | 0 <= i < |hosts|
      ensures NamedRecord(records[i], names, hosts[i])
    {
      WithAllEach(records, HostDataOf(names), |records|, i);
      HostDataExact(records[i], names);
    }
  }

  lemma {:induction false} NoPanicOnFullIDs(ps: seq<ProcessData>, names: Names, n: nat)
    requires n <= |ps| && forall i :: 0 <= i < |ps| ==> Snapshot.FullIDs(ps[i].status)
    ensures !WithAll(ps, HostDataOf(names), n).Panic?
  {
    if n > 0 {
      NoPanicOnFullIDs(ps, names, n - 1);
    }
  }

  /** SetHostData takes the second of the user and of the group IDs without looking.  On the records of a
      snapshot it finds them, however the processes exit meanwhile: a status file that could no longer be
      read gives a status without IDs, but never a record. */
  lemma HostDataNeverPanics(w: Snapshot.World, make: Maker, pids: seq<string>, t: nat, names: Names)
    requires Snapshot.WellFormed(w) && make == MakerOf(Snapshot.Readers(w))
    ensures var records := Gather(make, pids, t, |pids|);
            !WithAll(records, HostDataOf(names), |records|).Panic?
  {
    Snapshot.SnapshotExact(w, make, pids, t);
    var records := Gather(make, pids, t, |pids|);
    NoPanicOnFullIDs(records, names, |records|);
  }
}
