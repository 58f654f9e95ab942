/** The host columns of a report on the processes of a running kernel. */
module HostColumns {
  import opened Outcomes
  import opened Text
  import opened Descriptors
  import opened Process
  import opened Report
  import Kernel
  import HostMatch
  import I = IdMap
  import ProcStatus
  import Snapshot

  // ---------- from the text of /proc to the records ----------

  /** The last NSpid line of a status file that the scanner gives holds the pids of a process from the level of
      the /proc inwards. */
  ghost predicate StatusShows(status: seq<string>, task: Kernel.Task, level: nat) {
    && level < |task.numbers|
    && PidsFrom(ProcStatus.LastWords(ProcStatus.Scanned(status), "NSpid:"), task, level)
  }

  predicate PidsFrom(words: seq<string>, task: Kernel.Task, level: nat)
    requires level < |task.numbers|
  {
    && |words| == |task.numbers| - level
    && forall i :: 0 <= i < |words| ==> words[i] == Decimal(task.numbers[level + i].nr)
  }

  /** A record made while the NSpid line and the link are those of a process, whatever else stands in its status
      file, is a record of that process, at the level of the /proc it was read from, and readable as its link is. */
  lemma RecordIsReadAt(w: Snapshot.World, pid: string, t: nat, task: Kernel.Task, level: nat)
    requires Snapshot.WellFormed(w) && NewData(Snapshot.Readers(w), pid, t).0.Ok?
    requires StatusShows(w.files(pid, t + 3).status, task, level)
    requires w.nsReadable(pid) ==> w.files(pid, t + 6).pidNS == HostMatch.NsLink(task.Own())
    requires pid == Decimal(task.numbers[level].nr)
    ensures HostMatch.ReadAt(NewData(Snapshot.Readers(w), pid, t).0.value, task, level, w.nsReadable(pid))
  {
    Snapshot.StatusOfRecord(w, pid, t);
    Snapshot.LinkOfRecord(w, pid, t);
    StatusPids(ProcStatus.Scanned(w.files(pid, t + 3).status), NewData(Snapshot.Readers(w), pid, t).0.value.status);
  }

  /** The status lines that the kernel prints of a record show the process whose pids the record holds, if none of
      them is too long. */
  lemma PrintedShows(s: ProcStatus.Status, layout: seq<ProcStatus.Line>, task: Kernel.Task, level: nat)
    requires ProcStatus.Prints(s, layout, ProcStatus.KeyOf)
    requires forall i :: 0 <= i < |layout| ==> |ProcStatus.LineText(layout[i])| < ProcStatus.MAX_SCAN_TOKEN
    requires level < |task.numbers| && PidsFrom(s.nspid, task, level)
    ensures StatusShows(ProcStatus.PrintStatus(layout), task, level)
  {
    AllScanned(ProcStatus.PrintStatus(layout));
    ProcStatus.KeysDistinct();
    PrintedPids(s, layout, ProcStatus.KeyOf);
  }

  lemma AllScanned(lines: seq<string>)
    requires forall i :: 0 <= i < |lines| ==> |lines[i]| < ProcStatus.MAX_SCAN_TOKEN
    ensures ProcStatus.Scanned(lines) == lines
  {
    ProcStatus.ScannedUpTo(lines, |lines|);
    assert lines[..|lines|] == lines;
  }

  lemma PrintedPids(s: ProcStatus.Status, layout: seq<ProcStatus.Line>, key: ProcStatus.KeyTable)
    requires ProcStatus.Distinct(key) && ProcStatus.Prints(s, layout, key)
    ensures ProcStatus.LastWords(ProcStatus.PrintStatus(layout), key(ProcStatus.NSpid)) == s.nspid
  {
    ProcStatus.PrintedWords(s, layout, key, ProcStatus.NSpid);
  }

  lemma StatusPids(lines: seq<string>, s: ProcStatus.Status)
    requires ProcStatus.Meaning(lines) == Ok(s)
    ensures s.nspid == ProcStatus.LastWords(lines, "NSpid:")
  {
    ProcStatus.StatusSaid(lines);
    ShownPids(lines, s, ProcStatus.KeyOf);
  }

  lemma ShownPids(lines: seq<string>, s: ProcStatus.Status, key: ProcStatus.KeyTable)
    requires ProcStatus.Says(lines, s, key)
    ensures s.nspid == ProcStatus.LastWords(lines, key(ProcStatus.NSpid))
  {
    assert ProcStatus.Shown(s, ProcStatus.NSpid) == s.nspid;
  }

  // ---------- from the records to the columns ----------

  predicate Unmapped(opts: Option<OptsData>) {
    opts.None? || (opts.value.uidMap == [] && opts.value.gidMap == [])
  }

  lemma ColumnsOfMatch(p: ProcessData, hosts: seq<ProcessData>, opts: Option<OptsData>, env: Env)
    ensures var i, ctx := HostMatch.FirstMatch(p, hosts), Ctx(hosts, opts);
            && Cell(HPID, p, ctx, env) == Ok(if i >= 0 then hosts[i].pid else "?")
            && (i < 0 || Unmapped(opts) ==>
                  && Cell(HUSER, p, ctx, env) == Ok(if i >= 0 then hosts[i].huser else "?")
                  && Cell(HGROUP, p, ctx, env) == Ok(if i >= 0 then hosts[i].hgroup else "?"))
  {
  }

  /** The name of an ID in a database, or the ID itself */
  function NameOr(name: int -> Option<string>, id: int): string {
    if name(id).Some? then name(id).value else SignedDecimal(id)
  }

  /** An ID under a mapping: the name of what its first range makes of it, or the overflow text if it is in none. */
  ghost predicate NamesMapped(r: Outcome<string>, id: int, mapping: seq<I.IDMap>, name: int -> Option<string>,
                              overflow: Outcome<string>) {
    && (forall j :: I.FirstInside(mapping, j, id) ==>
          r == Ok(NameOr(name, mapping[j].hostID + (id - mapping[j].containerID))))
    && (!I.Mapped(mapping, id) ==> r == overflow)
  }

  lemma FoundNamesMapped(text: string, id: int, mapping: seq<I.IDMap>, lookup: I.Lookup, name: int -> Option<string>,
                         overflow: Outcome<string>)
    requires mapping != [] && I.Kernel32(mapping) && In64(id) && Denotes(text, id)
    requires forall n: int :: In64(n) ==> lookup(SignedDecimal(n)) == Ok(NameOr(name, n))
    ensures NamesMapped(I.FoundID(text, mapping, lookup, overflow), id, mapping, name, overflow)
  {
    I.FoundOfText(text, id, mapping, lookup, overflow);
    forall j | I.FirstInside(mapping, j, id)
      ensures In64(mapping[j].hostID + (id - mapping[j].containerID))
    {
    }
  }

  lemma LooksUpUsers(names: Names)
    ensures forall n: int :: In64(n) ==> UserLookup(names)(SignedDecimal(n)) == Ok(NameOr(names.user, n))
  {
    forall n: int | In64(n)
      ensures UserLookup(names)(SignedDecimal(n)) == Ok(NameOr(names.user, n))
    {
      DecimalDenotes(n);
      LookupExact(SignedDecimal(n), names.user);
    }
  }

  lemma LooksUpGroups(names: Names)
    ensures forall n: int :: In64(n) ==> GroupLookup(names)(SignedDecimal(n)) == Ok(NameOr(names.group, n))
  {
    forall n: int | In64(n)
      ensures GroupLookup(names)(SignedDecimal(n)) == Ok(NameOr(names.group, n))
    {
      DecimalDenotes(n);
      LookupExact(SignedDecimal(n), names.group);
    }
  }

  lemma UserUnmapped(p: ProcessData, hosts: seq<ProcessData>, opts: Option<OptsData>, env: Env)
    requires HostMatch.FirstMatch(p, hosts) >= 0 && (opts.None? || opts.value.uidMap == [])
    ensures Cell(HUSER, p, Ctx(hosts, opts), env) == Ok(hosts[HostMatch.FirstMatch(p, hosts)].huser)
  {
  }

  lemma GroupUnmapped(p: ProcessData, hosts: seq<ProcessData>, opts: Option<OptsData>, env: Env)
    requires HostMatch.FirstMatch(p, hosts) >= 0 && (opts.None? || opts.value.gidMap == [])
    ensures Cell(HGROUP, p, Ctx(hosts, opts), env) == Ok(hosts[HostMatch.FirstMatch(p, hosts)].hgroup)
  {
  }

  lemma UserIsFound(p: ProcessData, hosts: seq<ProcessData>, opts: OptsData, env: Env)
    requires HostMatch.FirstMatch(p, hosts) >= 0
    requires |hosts[HostMatch.FirstMatch(p, hosts)].status.uids| > 1 && opts.uidMap != []
    ensures Cell(HUSER, p, Ctx(hosts, Some(opts)), env) ==
            I.FoundID(hosts[HostMatch.FirstMatch(p, hosts)].status.uids[1], opts.uidMap, UserLookup(env.names),
                      env.overflowUid)
  {
  }

  lemma MappedUser(p: ProcessData, hosts: seq<ProcessData>, opts: OptsData, env: Env, uid: int)
    requires HostMatch.FirstMatch(p, hosts) >= 0
    requires var uids := hosts[HostMatch.FirstMatch(p, hosts)].status.uids; |uids| > 1 && Denotes(uids[1], uid)
    requires opts.uidMap != [] && I.Kernel32(opts.uidMap) && INT64_MIN <= uid <= INT64_MAX
    ensures NamesMapped(Cell(HUSER, p, Ctx(hosts, Some(opts)), env), uid, opts.uidMap, env.names.user,
                        env.overflowUid)
  {
    UserIsFound(p, hosts, opts, env);
    LooksUpUsers(env.names);
    FoundNamesMapped(hosts[HostMatch.FirstMatch(p, hosts)].status.uids[1], uid, opts.uidMap, UserLookup(env.names),
                     env.names.user, env.overflowUid);
  }

  lemma GroupIsFound(p: ProcessData, hosts: seq<ProcessData>, opts: OptsData, env: Env)
    requires HostMatch.FirstMatch(p, hosts) >= 0
    requires |hosts[HostMatch.FirstMatch(p, hosts)].status.gids| > 1 && opts.gidMap != []
    ensures Cell(HGROUP, p, Ctx(hosts, Some(opts)), env) ==
            I.FoundID(hosts[HostMatch.FirstMatch(p, hosts)].status.gids[1], opts.gidMap, GroupLookup(env.names),
                      env.overflowGid)
  {
  }

  lemma MappedGroup(p: ProcessData, hosts: seq<ProcessData>, opts: OptsData, env: Env, gid: int)
    requires HostMatch.FirstMatch(p, hosts) >= 0
    requires var gids := hosts[HostMatch.FirstMatch(p, hosts)].status.gids; |gids| > 1 && Denotes(gids[1], gid)
    requires opts.gidMap != [] && I.Kernel32(opts.gidMap) && INT64_MIN <= gid <= INT64_MAX
    ensures NamesMapped(Cell(HGROUP, p, Ctx(hosts, Some(opts)), env), gid, opts.gidMap, env.names.group,
                        env.overflowGid)
  {
    GroupIsFound(p, hosts, opts, env);
    LooksUpGroups(env.names);
    FoundNamesMapped(hosts[HostMatch.FirstMatch(p, hosts)].status.gids[1], gid, opts.gidMap, GroupLookup(env.names),
                     env.names.group, env.overflowGid);
  }

  /** A record of a process shows its pid at the record's level, whenever it was read. */
  lemma OwnPid(states: seq<Kernel.State>, first: nat, last: nat, n: nat, m: nat, t: Kernel.TaskId,
               hp: ProcessData, level: nat)
    requires HostMatch.Observation(states, first, last) && first <= n <= last && first <= m <= last
    requires t in states[n].tasks && t in states[m].tasks
    requires HostMatch.ReadAt(hp, states[m].tasks[t], level, true)
    ensures level < |states[n].tasks[t].numbers| && hp.pid == Decimal(states[n].tasks[t].numbers[level].nr)
  {
    HostMatch.Retained(states, first, n, last, t);
    HostMatch.Retained(states, first, m, last, t);
  }

  /** While processes start and exit, the hpid column of a container process shows its own pid on the host, or
      a question mark exactly when the host records hold none of it with a readable namespace, under any options;
      and the huser and hgroup columns, without ID maps, are those of its own first such record. */
  lemma ShowsItself(states: seq<Kernel.State>, first: nat, last: nat, n: nat, t: Kernel.TaskId, p: ProcessData,
                    level: nat, hosts: seq<ProcessData>, origins: seq<HostMatch.Origin>, times: seq<nat>,
                    opts: Option<OptsData>, env: Env) returns (i: int)
    requires HostMatch.Observation(states, first, last) && first <= n <= last
    requires t in states[n].live && t in states[n].tasks
    requires HostMatch.ReadAt(p, states[n].tasks[t], level + 1, true)
    requires HostMatch.HostsReadDuring(states, first, last, level, hosts, origins, times)
    ensures -1 <= i < |hosts|
    ensures if i >= 0 then origins[i] == HostMatch.Origin(t, true) && HostMatch.Origin(t, true) !in origins[..i]
            else HostMatch.Origin(t, true) !in origins
    ensures var ctx := Ctx(hosts, opts);
            && Cell(HPID, p, ctx, env) == Ok(if i >= 0 then Decimal(states[n].tasks[t].numbers[level].nr) else "?")
            && (i < 0 || Unmapped(opts) ==>
                  && Cell(HUSER, p, ctx, env) == Ok(if i >= 0 then hosts[i].huser else "?")
                  && Cell(HGROUP, p, ctx, env) == Ok(if i >= 0 then hosts[i].hgroup else "?"))
    ensures i == HostMatch.FirstMatch(p, hosts)
  {
    HostMatch.FindsItselfWhileRunning(states, first, last, n, t, p, level, hosts, origins, times);
    i := HostMatch.FirstMatch(p, hosts);
    ColumnsOfMatch(p, hosts, opts, env);
    if i >= 0 {
      OwnPid(states, first, last, n, times[i], t, hosts[i], level);
    }
  }

  /** With ID maps the huser and hgroup columns are the second user and group ID of the process's own first record
      mapped through the ranges: the name of what the first range makes of it, or the overflow text. */
  lemma ShowsItselfMapped(states: seq<Kernel.State>, first: nat, last: nat, n: nat, t: Kernel.TaskId, p: ProcessData,
                          level: nat, hosts: seq<ProcessData>, origins: seq<HostMatch.Origin>, times: seq<nat>,
                          opts: OptsData, env: Env, uid: int, gid: int) returns (i: int)
    requires HostMatch.Observation(states, first, last) && first <= n <= last
    requires t in states[n].live && t in states[n].tasks
    requires HostMatch.ReadAt(p, states[n].tasks[t], level + 1, true)
    requires HostMatch.HostsReadDuring(states, first, last, level, hosts, origins, times)
    requires HostMatch.Origin(t, true) in origins
    requires I.Kernel32(opts.uidMap) && I.Kernel32(opts.gidMap)
    requires INT64_MIN <= uid <= INT64_MAX && INT64_MIN <= gid <= INT64_MAX
    ensures 0 <= i < |hosts| && origins[i] == HostMatch.Origin(t, true) && HostMatch.Origin(t, true) !in origins[..i]
    ensures opts.uidMap != [] && |hosts[i].status.uids| > 1 && Denotes(hosts[i].status.uids[1], uid) ==>
              NamesMapped(Cell(HUSER, p, Ctx(hosts, Some(opts)), env), uid, opts.uidMap, env.names.user,
                          env.overflowUid)
    ensures opts.gidMap != [] && |hosts[i].status.gids| > 1 && Denotes(hosts[i].status.gids[1], gid) ==>
              NamesMapped(Cell(HGROUP, p, Ctx(hosts, Some(opts)), env), gid, opts.gidMap, env.names.group,
                          env.overflowGid)
  {
    i := ShowsItself(states, first, last, n, t, p, level, hosts, origins, times, Some(opts), env);
    if opts.uidMap != [] && |hosts[i].status.uids| > 1 && Denotes(hosts[i].status.uids[1], uid) {
      MappedUser(p, hosts, opts, env, uid);
    }
    if opts.gidMap != [] && |hosts[i].status.gids| > 1 && Denotes(hosts[i].status.gids[1], gid) {
      MappedGroup(p, hosts, opts, env, gid);
    }
  }
}
