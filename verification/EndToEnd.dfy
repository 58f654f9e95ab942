/** From a run of the kernel to the hpid column: a container's process and the host's candidates, read from two
    /proc file systems while processes start and exit. */
module EndToEnd {
  import opened Outcomes
  import opened Text
  import opened Descriptors
  import opened Process
  import opened Report
  import opened Kernel
  import opened HostMatch
  import HostColumns
  import Hosts
  import I = IdMap
  import J = Join
  import ProcStatus
  import Snapshot

  /** A /proc file system: the PID namespace that it shows, the level of that namespace, and the state of the run
      that each access falls into. */
  datatype View = View(ns: NsId, level: nat, when: nat -> nat)

  predicate NamedIn(task: Task, v: View, pid: string) {
    v.level < |task.numbers| && task.numbers[v.level].ns == v.ns && pid == Decimal(task.numbers[v.level].nr)
  }

  /** What a directory of /proc holds is about process u. */
  ghost predicate IsAbout(files: Snapshot.Files, pid: string, v: View, s: State, u: TaskId) {
    && u in s.live && u in s.tasks && NamedIn(s.tasks[u], v, pid)
    && HostColumns.StatusShows(files.status, s.tasks[u], v.level)
    && files.pidNS == NsLink(s.tasks[u].Own())
  }

  /** From one access to another a world shows the run under a pid: while the directory is there it is about a
      process that lives then and has the pid in the namespace shown; and it is there as long as a process lives
      that had the pid when the observation began. */
  ghost predicate Shows(w: Snapshot.World, pid: string, from: nat, until: nat,
                        states: seq<State>, first: nat, last: nat, v: View) {
    && first <= last < |states|
    && (forall t :: from <= t <= until ==> first <= v.when(t) <= last)
    && (forall t :: from <= t <= until && Snapshot.Alive(w.exits, pid, t) ==>
          exists u: TaskId :: IsAbout(w.files(pid, t), pid, v, states[v.when(t)], u))
    && (forall t, u: TaskId :: from <= t <= until && LivesOn(states, first, v.when(t), v, pid, u) ==>
          Snapshot.Alive(w.exits, pid, t))
  }

  ghost predicate LivesOn(states: seq<State>, first: nat, n: nat, v: View, pid: string, u: TaskId) {
    && first < |states| && n < |states|
    && u in states[first].live && u in states[n].live
    && u in states[first].tasks && NamedIn(states[first].tasks[u], v, pid)
  }

  // ---------- one record ----------

  /** In a reachable state a pid of a namespace names one process. */
  lemma OneTask(s: State, t: TaskId, u: TaskId, v: View, pid: string)
    requires Valid(s) && t in s.tasks && u in s.tasks
    requires NamedIn(s.tasks[t], v, pid) && NamedIn(s.tasks[u], v, pid)
    ensures t == u
  {
    var a, b := s.tasks[t].numbers[v.level], s.tasks[u].numbers[v.level];
    DecimalInjective(a.nr, b.nr);
    assert a in s.tasks[t].numbers && b in s.tasks[u].numbers;
  }

  /** Whatever the directory of a pid is about at two moments of an observation is the same process. */
  lemma SameProcess(states: seq<State>, first: nat, last: nat, m: nat, n: nat, t: TaskId, u: TaskId,
                    v: View, pid: string)
    requires Observation(states, first, last) && first <= m <= last && first <= n <= last
    requires t in states[m].tasks && u in states[n].tasks
    requires NamedIn(states[m].tasks[t], v, pid) && NamedIn(states[n].tasks[u], v, pid)
    ensures t == u && t in states[last].tasks
    ensures states[last].tasks[t] == states[m].tasks[t] == states[n].tasks[u]
  {
    Retained(states, first, m, last, t);
    Retained(states, first, n, last, u);
    RunsStayValid(states, last);
    OneTask(states[last], t, u, v, pid);
  }

  /** Although the status file and the namespace link are read at different times, with forks and exits in
      between, a record is a record of one process. */
  lemma RecordIsOfOne(w: Snapshot.World, pid: string, t: nat, from: nat, until: nat,
                      states: seq<State>, first: nat, last: nat, v: View) returns (u: TaskId)
    requires Observation(states, first, last) && Snapshot.WellFormed(w)
    requires Shows(w, pid, from, until, states, first, last, v)
    requires NewData(Snapshot.Readers(w), pid, t).0.Ok?
    requires from <= t && NewData(Snapshot.Readers(w), pid, t).1 <= until
    ensures u in states[last].tasks && NamedIn(states[last].tasks[u], v, pid)
    ensures ReadAt(NewData(Snapshot.Readers(w), pid, t).0.value, states[last].tasks[u], v.level, w.nsReadable(pid))
  {
    Snapshot.AliveWhileRead(w, pid, t);
    u := AboutOne(w, pid, t + 3, t + 6, from, until, states, first, last, v);
    HostColumns.RecordIsReadAt(w, pid, t, states[last].tasks[u], v.level);
  }

  lemma AboutOne(w: Snapshot.World, pid: string, r: nat, t: nat, from: nat, until: nat,
                 states: seq<State>, first: nat, last: nat, v: View) returns (u: TaskId)
    requires Observation(states, first, last) && Shows(w, pid, from, until, states, first, last, v)
    requires from <= r <= t <= until && Snapshot.Alive(w.exits, pid, r) && Snapshot.Alive(w.exits, pid, t)
    ensures u in states[last].tasks && NamedIn(states[last].tasks[u], v, pid)
    ensures HostColumns.StatusShows(w.files(pid, r).status, states[last].tasks[u], v.level)
    ensures w.files(pid, t).pidNS == NsLink(states[last].tasks[u].Own())
    ensures IsAbout(w.files(pid, r), pid, v, states[v.when(r)], u)
  {
    u :| IsAbout(w.files(pid, r), pid, v, states[v.when(r)], u);
    var u': TaskId :| IsAbout(w.files(pid, t), pid, v, states[v.when(t)], u');
    SameProcess(states, first, last, v.when(r), v.when(t), u, u', v, pid);
  }

  // ---------- the host's records ----------

  /** A snapshot of a /proc that shows the run */
  ghost predicate ShowsAll(w: Snapshot.World, make: Maker, pids: seq<string>, t: nat,
                           states: seq<State>, first: nat, last: nat, v: View) {
    && Snapshot.WellFormed(w) && make == MakerOf(Snapshot.Readers(w))
    && forall k :: 0 <= k < |pids| ==>
         Shows(w, pids[k], t, TurnStart(make, pids, t, |pids|), states, first, last, v)
  }

  /** A record as the host's snapshot has it: of which process, and whether its link could be read. */
  ghost predicate Comes(w: Snapshot.World, s: State, v: View, p: ProcessData, origin: Origin) {
    && origin.task in s.tasks && NamedIn(s.tasks[origin.task], v, p.pid)
    && origin.readable == w.nsReadable(p.pid)
    && ReadAt(p, s.tasks[origin.task], v.level, origin.readable)
  }

  lemma HostOrigin(w: Snapshot.World, make: Maker, pids: seq<string>, t: nat, states: seq<State>,
                   first: nat, last: nat, v: View, i: nat) returns (origin: Origin)
    requires Observation(states, first, last) && ShowsAll(w, make, pids, t, states, first, last, v)
    requires i < |Gather(make, pids, t, |pids|)|
    ensures Comes(w, states[last], v, Gather(make, pids, t, |pids|)[i], origin)
  {
    var k := Snapshot.Kept(make, pids, t, |pids|)[i];
    Snapshot.GatherIsTurn(make, pids, t, |pids|, i);
    TurnWithin(w, make, pids, t, k);
    var u := MadeOfOne(w, make, pids[k], TurnStart(make, pids, t, k), t, TurnStart(make, pids, t, |pids|),
                       states, first, last, v);
    origin := Origin(u, w.nsReadable(pids[k]));
  }

  /** The turns of a snapshot lie between its start and its end. */
  lemma TurnWithin(w: Snapshot.World, make: Maker, pids: seq<string>, t: nat, k: nat)
    requires Snapshot.WellFormed(w) && make == MakerOf(Snapshot.Readers(w)) && k < |pids|
    ensures t <= TurnStart(make, pids, t, k)
    ensures make(pids[k], TurnStart(make, pids, t, k)).1 <= TurnStart(make, pids, t, |pids|)
  {
    Snapshot.MakerExact(w);
    TurnBetween(make, w.exits, pids, t, k);
  }

  lemma TurnBetween(make: Maker, exits: Snapshot.Exits, pids: seq<string>, t: nat, k: nat)
    requires Snapshot.AllExact(make, exits) && k < |pids|
    ensures t <= TurnStart(make, pids, t, k)
    ensures make(pids[k], TurnStart(make, pids, t, k)).1 <= TurnStart(make, pids, t, |pids|)
  {
    Snapshot.TurnsInOrder(make, exits, pids, t, 0, k);
    Snapshot.TurnsInOrder(make, exits, pids, t, k + 1, |pids|);
  }

  lemma MadeOfOne(w: Snapshot.World, make: Maker, pid: string, t: nat, from: nat, until: nat,
                  states: seq<State>, first: nat, last: nat, v: View) returns (u: TaskId)
    requires Observation(states, first, last) && Snapshot.WellFormed(w) && make == MakerOf(Snapshot.Readers(w))
    requires Shows(w, pid, from, until, states, first, last, v)
    requires make(pid, t).0.Ok? && from <= t && make(pid, t).1 <= until
    ensures u in states[last].tasks && NamedIn(states[last].tasks[u], v, pid)
    ensures ReadAt(make(pid, t).0.value, states[last].tasks[u], v.level, w.nsReadable(pid))
    ensures make(pid, t).0.value.pid == pid
  {
    Snapshot.RecordContents(w, pid, t);
    u := RecordIsOfOne(w, pid, t, from, until, states, first, last, v);
  }

  lemma HostOrigins(w: Snapshot.World, make: Maker, pids: seq<string>, t: nat, states: seq<State>,
                    first: nat, last: nat, v: View, hosts: seq<ProcessData>) returns (origins: seq<Origin>)
    requires Observation(states, first, last) && ShowsAll(w, make, pids, t, states, first, last, v)
    requires hosts == Gather(make, pids, t, |pids|)
    ensures |origins| == |hosts|
    ensures forall i :: 0 <= i < |hosts| ==> Comes(w, states[last], v, hosts[i], origins[i])
  {
    forall i | 0 <= i < |hosts|
      ensures HasOrigin(w, states[last], v, hosts[i])
    {
      var origin := HostOrigin(w, make, pids, t, states, first, last, v, i);
    }
    origins := OriginsOf(w, states[last], v, hosts);
  }

  ghost predicate HasOrigin(w: Snapshot.World, s: State, v: View, p: ProcessData) {
    exists origin :: Comes(w, s, v, p, origin)
  }

  ghost function OriginOf(w: Snapshot.World, s: State, v: View, p: ProcessData): (origin: Origin)
    requires HasOrigin(w, s, v, p)
    ensures Comes(w, s, v, p, origin)
  {
    var origin :| Comes(w, s, v, p, origin);
    origin
  }

  ghost function OriginsOf(w: Snapshot.World, s: State, v: View, hosts: seq<ProcessData>): (origins: seq<Origin>)
    requires forall i :: 0 <= i < |hosts| ==> HasOrigin(w, s, v, hosts[i])
    ensures |origins| == |hosts|
    ensures forall i :: 0 <= i < |hosts| ==> Comes(w, s, v, hosts[i], origins[i])
  {
    seq(|hosts|, i requires 0 <= i < |hosts| && HasOrigin(w, s, v, hosts[i]) => OriginOf(w, s, v, hosts[i]))
  }

  // ---------- the search ----------

  /** The namespace of the container hangs directly below the host's. */
  ghost predicate Below(s: State, v: View, hv: View) {
    v.level == hv.level + 1 && v.ns in s.namespaces && s.namespaces[v.ns].parent == hv.ns
  }

  /** A process of the container has its host pid in the host's namespace. */
  lemma NamedAbove(s: State, u: TaskId, v: View, hv: View, pid: string)
    requires Valid(s) && u in s.tasks && NamedIn(s.tasks[u], v, pid) && Below(s, v, hv)
    ensures exists hpid :: NamedIn(s.tasks[u], hv, hpid)
  {
    assert Chained(s.namespaces, s.tasks[u].numbers);
    assert NamedIn(s.tasks[u], hv, Decimal(s.tasks[u].numbers[hv.level].nr));
  }

  /** Among records of the host, those of process u are those with its pid. */
  lemma OwnByPid(w: Snapshot.World, s: State, u: TaskId, hv: View, hpid: string, p: ProcessData, origin: Origin)
    requires Valid(s) && u in s.tasks && NamedIn(s.tasks[u], hv, hpid) && Comes(w, s, hv, p, origin)
    ensures origin == Origin(u, true) <==> p.pid == hpid && w.nsReadable(hpid)
  {
    if p.pid == hpid {
      OneTask(s, u, origin.task, hv, hpid);
    }
  }

  /** What the search gives among the host's records: the first with the process's own host pid, if its link could
      be read. */
  predicate FindsPid(i: int, hosts: seq<ProcessData>, hpid: string, readable: bool) {
    && -1 <= i < |hosts|
    && if i >= 0 then readable && hosts[i].pid == hpid && forall j :: 0 <= j < i ==> hosts[j].pid != hpid
       else !readable || forall j :: 0 <= j < |hosts| ==> hosts[j].pid != hpid
  }

  lemma FindsOwnPid(states: seq<State>, last: nat, u: TaskId, p: ProcessData, level: nat, hpid: string,
                    w: Snapshot.World, hv: View, hosts: seq<ProcessData>, origins: seq<Origin>)
    requires Run(states) && last < |states| && level == hv.level + 1
    requires u in states[last].tasks && NamedIn(states[last].tasks[u], hv, hpid)
    requires ReadAt(p, states[last].tasks[u], level, true)
    requires |origins| == |hosts|
    requires forall i :: 0 <= i < |hosts| ==> Comes(w, states[last], hv, hosts[i], origins[i])
    ensures FindsPid(FirstMatch(p, hosts), hosts, hpid, w.nsReadable(hpid))
  {
    RunsStayValid(states, last);
    FindsItself(states, last, u, p, hv.level, hosts, origins);
    forall i | 0 <= i < |hosts|
      ensures origins[i] == Origin(u, true) <==> hosts[i].pid == hpid && w.nsReadable(hpid)
    {
      OwnByPid(w, states[last], u, hv, hpid, hosts[i], origins[i]);
    }
  }

  /** The names that the host data adds do not change what is found. */
  lemma {:induction false} SameMatch(p: ProcessData, a: seq<ProcessData>, b: seq<ProcessData>)
    requires |a| == |b|
    requires forall i :: 0 <= i < |a| ==> b[i] == a[i].(huser := b[i].huser, hgroup := b[i].hgroup)
    ensures FirstMatch(p, a) == FirstMatch(p, b)
  {
    if a != [] {
      SameMatch(p, a[1..], b[1..]);
    }
  }

  lemma NamedHosts(records: seq<ProcessData>, names: Names, hosts: seq<ProcessData>)
    requires Hosts.WithAll(records, Hosts.HostDataOf(names), |records|) == Ok(hosts)
    ensures |hosts| == |records|
    ensures forall i :: 0 <= i < |hosts| ==>
              hosts[i] == records[i].(huser := hosts[i].huser, hgroup := hosts[i].hgroup)
  {
    Hosts.NamedRecords(records, names, hosts);
    assert forall i :: 0 <= i < |hosts| ==> NamedRecord(records[i], names, hosts[i]);
  }

  // ---------- the columns ----------

  /** The process that a record is a record of */
  ghost predicate RecordOf(s: State, u: TaskId, v: View, pid: string, p: ProcessData, readable: bool) {
    u in s.tasks && NamedIn(s.tasks[u], v, pid) && ReadAt(p, s.tasks[u], v.level, readable)
  }

  /** The host's named records, read from the view above that of the container, in one observation */
  ghost predicate HostView(states: seq<State>, first: nat, last: nat, v: View,
                           hw: Snapshot.World, make: Maker, pids: seq<string>, ht: nat, hv: View,
                           names: Names, hosts: seq<ProcessData>) {
    && Observation(states, first, last) && Below(states[last], v, hv)
    && ShowsAll(hw, make, pids, ht, states, first, last, hv)
    && var records := Gather(make, pids, ht, |pids|);
       Hosts.WithAll(records, Hosts.HostDataOf(names), |records|) == Ok(hosts)
  }

  /** Whatever the moments of its reads, a container record with a readable link is found among the host's records by
      the pid that its process has in the host's namespace. */
  lemma FoundByPid(states: seq<State>, first: nat, last: nat, u: TaskId, v: View, pid: string, p: ProcessData,
                   hw: Snapshot.World, make: Maker, pids: seq<string>, ht: nat, hv: View,
                   names: Names, hosts: seq<ProcessData>) returns (hpid: string)
    requires HostView(states, first, last, v, hw, make, pids, ht, hv, names, hosts)
    requires RecordOf(states[last], u, v, pid, p, true)
    ensures NamedIn(states[last].tasks[u], hv, hpid)
    ensures FindsPid(FirstMatch(p, hosts), hosts, hpid, hw.nsReadable(hpid))
  {
    RunsStayValid(states, last);
    NamedAbove(states[last], u, v, hv, pid);
    hpid :| NamedIn(states[last].tasks[u], hv, hpid);
    var records := Gather(make, pids, ht, |pids|);
    var origins := HostOrigins(hw, make, pids, ht, states, first, last, hv, records);
    FindsOwnPid(states, last, u, p, v.level, hpid, hw, hv, records, origins);
    NamedHosts(records, names, hosts);
    SameMatch(p, records, hosts);
  }

  /** A container record and the host's named records, read from two views of one observation */
  ghost predicate TwoViews(states: seq<State>, first: nat, last: nat,
                           w: Snapshot.World, pid: string, t: nat, v: View,
                           hw: Snapshot.World, make: Maker, pids: seq<string>, ht: nat, hv: View,
                           names: Names, hosts: seq<ProcessData>) {
    && HostView(states, first, last, v, hw, make, pids, ht, hv, names, hosts)
    && Snapshot.WellFormed(w) && NewData(Snapshot.Readers(w), pid, t).0.Ok?
    && Shows(w, pid, t, NewData(Snapshot.Readers(w), pid, t).1, states, first, last, v)
  }

  /** Both file systems are read while processes start and exit, each file at its own time.  With a readable link a
      container process is shown the pid that it has itself in the host's namespace if the host's snapshot holds a
      record with that pid and a readable link, and a question mark if it holds none; never another process's. */
  lemma HpidExact(states: seq<State>, first: nat, last: nat, w: Snapshot.World, pid: string, t: nat, v: View,
                  hw: Snapshot.World, make: Maker, pids: seq<string>, ht: nat, hv: View,
                  names: Names, hosts: seq<ProcessData>, opts: Option<OptsData>, env: Env)
    returns (u: TaskId, hpid: string)
    requires TwoViews(states, first, last, w, pid, t, v, hw, make, pids, ht, hv, names, hosts)
    requires w.nsReadable(pid)
    ensures RecordOf(states[last], u, v, pid, NewData(Snapshot.Readers(w), pid, t).0.value, true)
    ensures NamedIn(states[last].tasks[u], hv, hpid)
    ensures var p := NewData(Snapshot.Readers(w), pid, t).0.value;
            && FindsPid(FirstMatch(p, hosts), hosts, hpid, hw.nsReadable(hpid))
            && Cell(HPID, p, Ctx(hosts, opts), env) ==
               Ok(if hw.nsReadable(hpid) && exists i :: 0 <= i < |hosts| && hosts[i].pid == hpid then hpid else "?")
  {
    var p := NewData(Snapshot.Readers(w), pid, t).0.value;
    u := RecordIsOfOne(w, pid, t, t, NewData(Snapshot.Readers(w), pid, t).1, states, first, last, v);
    hpid := FoundByPid(states, first, last, u, v, pid, p, hw, make, pids, ht, hv, names, hosts);
    HostColumns.ColumnsOfMatch(p, hosts, opts, env);
  }

  /** A process that lives from the beginning of the observation to the end of the host's snapshot, whose host pid was
      requested and whose link could be read, has its record there. */
  lemma SurvivorRecorded(states: seq<State>, first: nat, last: nat, hw: Snapshot.World, make: Maker,
                         pids: seq<string>, ht: nat, hv: View, hpid: string, u: TaskId)
    requires ShowsAll(hw, make, pids, ht, states, first, last, hv) && hpid in pids
    requires LivesOn(states, first, hv.when(TurnStart(make, pids, ht, |pids|)), hv, hpid, u)
    ensures exists i :: 0 <= i < |Gather(make, pids, ht, |pids|)| && Gather(make, pids, ht, |pids|)[i].pid == hpid
  {
    var n := |pids|;
    var k :| 0 <= k < n && pids[k] == hpid;
    Snapshot.MakerExact(hw);
    Snapshot.TurnsInOrder(make, hw.exits, pids, ht, 0, n);
    assert Snapshot.Alive(hw.exits, hpid, TurnStart(make, pids, ht, n));
    Snapshot.SnapshotExact(hw, make, pids, ht);
    var i :| 0 <= i < |Snapshot.Kept(make, pids, ht, n)| && Snapshot.Kept(make, pids, ht, n)[i] == k;
    assert Gather(make, pids, ht, n)[i].pid == hpid;
  }

  /** So such a process never has a question mark for its host pid. */
  lemma SurvivorShown(states: seq<State>, first: nat, last: nat, w: Snapshot.World, pid: string, t: nat, v: View,
                      hw: Snapshot.World, make: Maker, pids: seq<string>, ht: nat, hv: View,
                      names: Names, hosts: seq<ProcessData>, opts: Option<OptsData>, env: Env, u: TaskId, hpid: string)
    requires TwoViews(states, first, last, w, pid, t, v, hw, make, pids, ht, hv, names, hosts)
    requires w.nsReadable(pid)
    requires u in states[last].tasks && NamedIn(states[last].tasks[u], v, pid)
    requires LivesOn(states, first, hv.when(TurnStart(make, pids, ht, |pids|)), hv, hpid, u)
    requires hpid in pids && hw.nsReadable(hpid)
    ensures Cell(HPID, NewData(Snapshot.Readers(w), pid, t).0.value, Ctx(hosts, opts), env) == Ok(hpid)
  {
    var u', hpid' := HpidExact(states, first, last, w, pid, t, v, hw, make, pids, ht, hv, names, hosts, opts, env);
    RunsStayValid(states, last);
    OneTask(states[last], u, u', v, pid);
    Retained(states, first, first, last, u);
    assert hpid == hpid';
    SurvivorRecorded(states, first, last, hw, make, pids, ht, hv, hpid, u);
    NamedHosts(Gather(make, pids, ht, |pids|), names, hosts);
  }

  // ---------- all three columns ----------

  /** The host's first record of a process with a readable link is made in turn k, or there is none. */
  ghost predicate OwnTurn(kept: seq<nat>, pids: seq<string>, hpid: string, readable: bool, k: int) {
    && -1 <= k < |pids|
    && if k >= 0 then readable && k in kept && pids[k] == hpid
                      && forall j: nat :: j < k && j in kept ==> pids[j] != hpid
       else !readable || forall j: nat :: j < |pids| && j in kept ==> pids[j] != hpid
  }

  /** The status that turn k reads: it stands in a directory that is then about process u. */
  ghost predicate StatusRead(w: Snapshot.World, make: Maker, pids: seq<string>, t: nat, k: nat,
                             states: seq<State>, v: View, u: TaskId, s: ProcStatus.Status) {
    && k < |pids|
    && var r := TurnStart(make, pids, t, k) + 3;
    && v.when(r) < |states|
    && IsAbout(w.files(pids[k], r), pids[k], v, states[v.when(r)], u)
    && ProcStatus.Meaning(ProcStatus.Scanned(w.files(pids[k], r).status)) == Ok(s)
  }

  /** The name shown for the second of some IDs: that of the host's database, or with a mapping, behind its ranges, that
      of the database that the report is made with. */
  ghost predicate ShowsName(r: Outcome<string>, ids: seq<string>, mapping: seq<I.IDMap>,
                            hostName: int -> Option<string>, name: int -> Option<string>, overflow: Outcome<string>) {
    && |ids| > 1
    && (mapping == [] ==> NameIn(r, ids[1], hostName))
    && (mapping != [] && I.Kernel32(mapping) ==>
          forall id: int :: In64(id) && Denotes(ids[1], id) ==>
            HostColumns.NamesMapped(r, id, mapping, name, overflow))
  }

  function UidMap(opts: Option<OptsData>): seq<I.IDMap> {
    if opts.Some? then opts.value.uidMap else []
  }

  function GidMap(opts: Option<OptsData>): seq<I.IDMap> {
    if opts.Some? then opts.value.gidMap else []
  }

  /** What a host column shows of a process with this host pid and this status on the host */
  ghost predicate ShowsOwn(fn: ProcFn, r: Outcome<string>, hpid: string, s: ProcStatus.Status,
                           names: Names, opts: Option<OptsData>, env: Env) {
    && (fn == HPID ==> r == Ok(hpid))
    && (fn == HUSER ==>
          ShowsName(r, s.uids, UidMap(opts), names.user, env.names.user, env.overflowUid))
    && (fn == HGROUP ==>
          ShowsName(r, s.gids, GidMap(opts), names.group, env.names.group, env.overflowGid))
  }

  /** A turn of the host's snapshot reads the status file of one process. */
  lemma TurnReads(w: Snapshot.World, make: Maker, pids: seq<string>, t: nat, states: seq<State>,
                  first: nat, last: nat, v: View, i: nat) returns (u: TaskId)
    requires Observation(states, first, last) && ShowsAll(w, make, pids, t, states, first, last, v)
    requires i < |Gather(make, pids, t, |pids|)|
    ensures var k, p := Snapshot.Kept(make, pids, t, |pids|)[i], Gather(make, pids, t, |pids|)[i];
            && StatusRead(w, make, pids, t, k, states, v, u, p.status) && p.pid == pids[k]
            && u in states[last].tasks && NamedIn(states[last].tasks[u], v, pids[k])
  {
    var k := Snapshot.Kept(make, pids, t, |pids|)[i];
    Snapshot.GatherIsTurn(make, pids, t, |pids|, i);
    TurnWithin(w, make, pids, t, k);
    u := StatusOfOne(w, make, pids[k], TurnStart(make, pids, t, k), t, TurnStart(make, pids, t, |pids|),
                     states, first, last, v);
  }

  lemma StatusOfOne(w: Snapshot.World, make: Maker, pid: string, t: nat, from: nat, until: nat,
                    states: seq<State>, first: nat, last: nat, v: View) returns (u: TaskId)
    requires Observation(states, first, last) && Snapshot.WellFormed(w) && make == MakerOf(Snapshot.Readers(w))
    requires Shows(w, pid, from, until, states, first, last, v)
    requires make(pid, t).0.Ok? && from <= t && make(pid, t).1 <= until
    ensures v.when(t + 3) <= last && IsAbout(w.files(pid, t + 3), pid, v, states[v.when(t + 3)], u)
    ensures ProcStatus.Meaning(ProcStatus.Scanned(w.files(pid, t + 3).status)) == Ok(make(pid, t).0.value.status)
    ensures u in states[last].tasks && NamedIn(states[last].tasks[u], v, pid) && make(pid, t).0.value.pid == pid
  {
    Snapshot.StatusOfRecord(w, pid, t);
    u := AboutTurn(w, pid, t, make(pid, t), from, until, states, first, last, v);
  }

  lemma AboutTurn(w: Snapshot.World, pid: string, t: nat, made: (Outcome<ProcessData>, nat), from: nat, until: nat,
                  states: seq<State>, first: nat, last: nat, v: View) returns (u: TaskId)
    requires Observation(states, first, last) && Snapshot.WellFormed(w)
    requires Shows(w, pid, from, until, states, first, last, v)
    requires made == NewData(Snapshot.Readers(w), pid, t) && made.0.Ok? && from <= t && made.1 <= until
    ensures v.when(t + 3) <= last && IsAbout(w.files(pid, t + 3), pid, v, states[v.when(t + 3)], u)
    ensures u in states[last].tasks && NamedIn(states[last].tasks[u], v, pid)
  {
    Snapshot.AliveWhileRead(w, pid, t);
    u := AboutOne(w, pid, t + 3, t + 6, from, until, states, first, last, v);
  }

  /** The three cells of a found host record */
  lemma CellsOfFound(p: ProcessData, records: seq<ProcessData>, names: Names, hosts: seq<ProcessData>,
                     opts: Option<OptsData>, env: Env, fn: ProcFn)
    requires Hosts.WithAll(records, Hosts.HostDataOf(names), |records|) == Ok(hosts) && |hosts| == |records|
    requires var i := FirstMatch(p, hosts); i >= 0
    requires fn in {HPID, HUSER, HGROUP}
    ensures var i := FirstMatch(p, hosts);
            ShowsOwn(fn, Cell(fn, p, Ctx(hosts, opts), env), records[i].pid, records[i].status, names, opts, env)
  {
    var i := FirstMatch(p, hosts);
    Hosts.NamedRecords(records, names, hosts);
    assert NamedRecord(records[i], names, hosts[i]);
    if fn == HPID {
      HostColumns.ColumnsOfMatch(p, hosts, opts, env);
    } else if fn == HUSER {
      UserShown(p, names, hosts, opts, env);
    } else {
      GroupShown(p, names, hosts, opts, env);
    }
  }

  lemma UserShown(p: ProcessData, names: Names, hosts: seq<ProcessData>, opts: Option<OptsData>, env: Env)
    requires var i := FirstMatch(p, hosts);
             && i >= 0 && |hosts[i].status.uids| > 1
             && NameIn(Ok(hosts[i].huser), hosts[i].status.uids[1], names.user)
    ensures ShowsName(Cell(HUSER, p, Ctx(hosts, opts), env), hosts[FirstMatch(p, hosts)].status.uids, UidMap(opts),
                      names.user, env.names.user, env.overflowUid)
  {
    var ids := hosts[FirstMatch(p, hosts)].status.uids;
    if UidMap(opts) == [] {
      HostColumns.UserUnmapped(p, hosts, opts, env);
    } else if I.Kernel32(UidMap(opts)) {
      forall id: int | In64(id) && Denotes(ids[1], id)
        ensures HostColumns.NamesMapped(Cell(HUSER, p, Ctx(hosts, opts), env), id, UidMap(opts),
                                        env.names.user, env.overflowUid)
      {
        HostColumns.MappedUser(p, hosts, opts.value, env, id);
      }
    }
  }

  lemma GroupShown(p: ProcessData, names: Names, hosts: seq<ProcessData>, opts: Option<OptsData>, env: Env)
    requires var i := FirstMatch(p, hosts);
             && i >= 0 && |hosts[i].status.gids| > 1
             && NameIn(Ok(hosts[i].hgroup), hosts[i].status.gids[1], names.group)
    ensures ShowsName(Cell(HGROUP, p, Ctx(hosts, opts), env), hosts[FirstMatch(p, hosts)].status.gids, GidMap(opts),
                      names.group, env.names.group, env.overflowGid)
  {
    var ids := hosts[FirstMatch(p, hosts)].status.gids;
    if GidMap(opts) == [] {
      HostColumns.GroupUnmapped(p, hosts, opts, env);
    } else if I.Kernel32(GidMap(opts)) {
      forall id: int | In64(id) && Denotes(ids[1], id)
        ensures HostColumns.NamesMapped(Cell(HGROUP, p, Ctx(hosts, opts), env), id, GidMap(opts),
                                        env.names.group, env.overflowGid)
      {
        HostColumns.MappedGroup(p, hosts, opts.value, env, id);
      }
    }
  }

  /** What a host column shows when the host's record is made in turn k, or a question mark when there is none */
  ghost predicate HostCell(fn: ProcFn, r: Outcome<string>, k: int, hpid: string, s: ProcStatus.Status,
                           names: Names, opts: Option<OptsData>, env: Env) {
    if k >= 0 then ShowsOwn(fn, r, hpid, s, names, opts, env) else r == Ok("?")
  }

  ghost predicate HostCells(cells: Cells, p: ProcessData, k: int, hpid: string, s: ProcStatus.Status,
                            names: Names, opts: Option<OptsData>, env: Env) {
    && HostCell(HPID, cells(HPID, p), k, hpid, s, names, opts, env)
    && HostCell(HUSER, cells(HUSER, p), k, hpid, s, names, opts, env)
    && HostCell(HGROUP, cells(HGROUP, p), k, hpid, s, names, opts, env)
  }

  const HOST_COLUMNS: set<ProcFn> := {HPID, HUSER, HGROUP}

  /** The found record is made in the first kept turn with the host pid. */
  lemma FoundTurn(states: seq<State>, first: nat, last: nat, u: TaskId, v: View, hw: Snapshot.World, make: Maker,
                  pids: seq<string>, ht: nat, hv: View, names: Names, hosts: seq<ProcessData>, hpid: string, i: int)
    returns (k: int, s: ProcStatus.Status)
    requires HostView(states, first, last, v, hw, make, pids, ht, hv, names, hosts)
    requires u in states[last].tasks && NamedIn(states[last].tasks[u], hv, hpid)
    requires FindsPid(i, hosts, hpid, hw.nsReadable(hpid))
    ensures OwnTurn(Snapshot.Kept(make, pids, ht, |pids|), pids, hpid, hw.nsReadable(hpid), k) && (k >= 0 <==> i >= 0)
    ensures i >= 0 ==> StatusRead(hw, make, pids, ht, k, states, hv, u, s) && i < |Gather(make, pids, ht, |pids|)|
    ensures i >= 0 ==> Gather(make, pids, ht, |pids|)[i].status == s && Gather(make, pids, ht, |pids|)[i].pid == hpid
  {
    var records, kept := Gather(make, pids, ht, |pids|), Snapshot.Kept(make, pids, ht, |pids|);
    Snapshot.SnapshotExact(hw, make, pids, ht);
    NamedHosts(records, names, hosts);
    FirstTurn(pids, kept, hosts, hpid, hw.nsReadable(hpid), i);
    if i >= 0 {
      k, s := kept[i], records[i].status;
      var u' := TurnReads(hw, make, pids, ht, states, first, last, hv, i);
      RunsStayValid(states, last);
      OneTask(states[last], u, u', hv, hpid);
    } else {
      k, s := -1, NO_STATUS;
    }
  }

  lemma FirstTurn(pids: seq<string>, kept: seq<nat>, hosts: seq<ProcessData>, hpid: string, readable: bool, i: int)
    requires |hosts| == |kept|
    requires forall j :: 0 <= j < |kept| ==> kept[j] < |pids| && hosts[j].pid == pids[kept[j]]
    requires forall j, l :: 0 <= j < l < |kept| ==> kept[j] < kept[l]
    requires FindsPid(i, hosts, hpid, readable)
    ensures OwnTurn(kept, pids, hpid, readable, if i >= 0 then kept[i] else -1)
  {
    forall k: nat | k in kept && (i >= 0 ==> k < kept[i])
      ensures k < |pids| && (i >= 0 || readable ==> pids[k] != hpid)
    {
      var j :| 0 <= j < |kept| && kept[j] == k;
      assert i >= 0 ==> j < i;
      assert hosts[j].pid == pids[k];
    }
  }

  /** The three host columns of a container record with a readable link, whatever the moments of all reads: its own host
      pid, and the names of the second user and group ID in the status file that the host's snapshot read of the same
      process; or question marks exactly if the snapshot has no record of that pid with a readable link. */
  lemma HostColumnsExact(states: seq<State>, first: nat, last: nat, u: TaskId, v: View, pid: string, p: ProcessData,
                         hw: Snapshot.World, make: Maker, pids: seq<string>, ht: nat, hv: View,
                         names: Names, hosts: seq<ProcessData>, opts: Option<OptsData>, env: Env)
    returns (hpid: string, k: int, s: ProcStatus.Status)
    requires HostView(states, first, last, v, hw, make, pids, ht, hv, names, hosts)
    requires RecordOf(states[last], u, v, pid, p, true)
    ensures NamedIn(states[last].tasks[u], hv, hpid)
    ensures OwnTurn(Snapshot.Kept(make, pids, ht, |pids|), pids, hpid, hw.nsReadable(hpid), k)
    ensures k >= 0 ==> StatusRead(hw, make, pids, ht, k, states, hv, u, s)
    ensures HostCells(CellsOf(Ctx(hosts, opts), env), p, k, hpid, s, names, opts, env)
  {
    hpid := FoundByPid(states, first, last, u, v, pid, p, hw, make, pids, ht, hv, names, hosts);
    var i := FirstMatch(p, hosts);
    k, s := FoundTurn(states, first, last, u, v, hw, make, pids, ht, hv, names, hosts, hpid, i);
    NamedHosts(Gather(make, pids, ht, |pids|), names, hosts);
    CellShown(p, Gather(make, pids, ht, |pids|), names, hosts, opts, env, k, hpid, s, HPID);
    CellShown(p, Gather(make, pids, ht, |pids|), names, hosts, opts, env, k, hpid, s, HUSER);
    CellShown(p, Gather(make, pids, ht, |pids|), names, hosts, opts, env, k, hpid, s, HGROUP);
  }

  lemma CellShown(p: ProcessData, records: seq<ProcessData>, names: Names, hosts: seq<ProcessData>,
                  opts: Option<OptsData>, env: Env, k: int, hpid: string, s: ProcStatus.Status, fn: ProcFn)
    requires Hosts.WithAll(records, Hosts.HostDataOf(names), |records|) == Ok(hosts) && |hosts| == |records|
    requires var i := FirstMatch(p, hosts);
             && (k >= 0 <==> i >= 0)
             && (i >= 0 ==> records[i].status == s && records[i].pid == hpid)
    requires fn in HOST_COLUMNS
    ensures HostCell(fn, Cell(fn, p, Ctx(hosts, opts), env), k, hpid, s, names, opts, env)
  {
    if k >= 0 {
      CellsOfFound(p, records, names, hosts, opts, env, fn);
    } else {
      NoneShown(p, hosts, opts, env, fn);
    }
  }

  lemma NoneShown(p: ProcessData, hosts: seq<ProcessData>, opts: Option<OptsData>, env: Env, fn: ProcFn)
    requires FirstMatch(p, hosts) < 0 && fn in HOST_COLUMNS
    ensures Cell(fn, p, Ctx(hosts, opts), env) == Ok("?")
  {
    HostColumns.ColumnsOfMatch(p, hosts, opts, env);
    if fn == HPID {
    } else if fn == HUSER {
    } else {
    }
  }

  // ---------- the whole report ----------

  /** A call that takes its host processes, with their names in the host's databases, and its container processes from
      these two snapshots, and joins no user namespace. */
  ghost predicate Takes(jw: J.World, make: Maker, t: nat, hmake: Maker, hpids: seq<string>, ht: nat, names: Names) {
    && jw.pids.Ok?
    && (jw.currentUserNS.Ok? ==> jw.currentUserNS.value == if jw.pidUserNS.Ok? then jw.pidUserNS.value else "")
    && jw.fromPIDs(jw.pids.value, false) == SnapshotOf(make, jw.pids.value, t)
    && jw.hostProcesses == Hosts.HostSnapshot(hmake, hpids, ht, names)
  }

  /** A call that succeeds with a host column: its table is that of the two snapshots. */
  lemma JoinedTable(descriptors: seq<string>, o: Option<OptsData>, jw: J.World, make: Maker, t: nat,
                    hmake: Maker, hpids: seq<string>, ht: nat, names: Names) returns (hosts: seq<ProcessData>)
    requires Takes(jw, make, t, hmake, hpids, ht, names)
    requires J.Joined(descriptors, o, jw).0.Ok?
    requires Translated(descriptors).Ok? && OnHost(Translated(descriptors).value)
    ensures Hosts.HostSnapshot(hmake, hpids, ht, names) == Ok(hosts)
    ensures SnapshotOf(make, jw.pids.value, t) == Ok(Gather(make, jw.pids.value, t, |jw.pids.value|))
    ensures J.Joined(descriptors, o, jw).0 ==
            TableOf(Translated(descriptors).value, Gather(make, jw.pids.value, t, |jw.pids.value|),
                    CellsOf(Ctx(hosts, J.FilledOption(o, jw).1), jw.env))
  {
    J.JoinedDone(descriptors, o, jw);
    J.JoinedReads(descriptors, o, jw);
    J.WantsExactly(descriptors, Translated(descriptors).value);
    J.OptionsAfter(descriptors, o, jw);
    FilledAfter(o, jw);
    hosts := jw.hostProcesses.value;
  }

  lemma FilledAfter(o: Option<OptsData>, jw: J.World)
    ensures J.FilledOption(o, jw).1 ==
            if o.Some? && o.value.fillMappings && jw.uidMap.Ok? && jw.gidMap.Ok?
            then Some(OptsData(jw.uidMap.value, jw.gidMap.value, false)) else o
  {
  }

  /** The whole way: in the report of a call, whose two snapshots are taken file by file while processes start and exit,
      the host columns of every process with a readable link show that process's own host pid and names, as
      `HostColumnsExact` says. */
  lemma ReportedHostColumns(descriptors: seq<string>, o: Option<OptsData>, jw: J.World,
                            states: seq<State>, first: nat, last: nat,
                            w: Snapshot.World, make: Maker, t: nat, v: View,
                            hw: Snapshot.World, hmake: Maker, hpids: seq<string>, ht: nat, hv: View, names: Names,
                            ds: seq<string>, m: nat, shown: Shown, records: seq<ProcessData>, table: Table,
                            i: nat, j: nat)
    returns (u: TaskId, hpid: string, k: int, s: ProcStatus.Status)
    requires Observation(states, first, last) && Below(states[last], v, hv)
    requires Takes(jw, make, t, hmake, hpids, ht, names)
    requires ShowsAll(w, make, jw.pids.value, t, states, first, last, v)
    requires ShowsAll(hw, hmake, hpids, ht, states, first, last, hv)
    requires J.Joined(descriptors, o, jw).0 == Ok(table)
    requires records == Gather(make, jw.pids.value, t, |jw.pids.value|)
    requires i < |records| && w.nsReadable(records[i].pid)
    requires ds == (if descriptors == [] then DEFAULT_DESCRIPTORS else descriptors) && StandsAt(ds, m, j, shown)
    requires shown.procFn in HOST_COLUMNS
    ensures RecordOf(states[last], u, v, records[i].pid, records[i], true)
    ensures NamedIn(states[last].tasks[u], hv, hpid)
    ensures OwnTurn(Snapshot.Kept(hmake, hpids, ht, |hpids|), hpids, hpid, hw.nsReadable(hpid), k)
    ensures k >= 0 ==> StatusRead(hw, hmake, hpids, ht, k, states, hv, u, s)
    ensures |table| == 1 + |records| && j < |table[0]| == |table[i + 1]| && table[0][j] == shown.header
    ensures HostCell(shown.procFn, Ok(table[i + 1][j]), k, hpid, s, names, J.FilledOption(o, jw).1, jw.env)
  {
    J.JoinedDone(descriptors, o, jw);
    var descs := Translated(descriptors).value;
    ColumnAt(ds, m, j, shown);
    FlaggedColumn(descriptors, descs, j);
    var hosts := JoinedTable(descriptors, o, jw, make, t, hmake, hpids, ht, names);
    var opts := J.FilledOption(o, jw).1;
    HostSnapshotOk(hmake, hpids, ht, names, hosts);
    var origin := HostOrigin(w, make, jw.pids.value, t, states, first, last, v, i);
    u := origin.task;
    hpid, k, s := HostColumnsExact(states, first, last, u, v, records[i].pid, records[i], hw, hmake, hpids, ht, hv,
                                   names, hosts, opts, jw.env);
    HostCellInTable(descs, records, CellsOf(Ctx(hosts, opts), jw.env), table, i, j, k, hpid, s, names, opts, jw.env);
  }

  lemma HostCellInTable(descs: seq<Descriptor>, ps: seq<ProcessData>, cells: Cells, table: Table, i: nat, j: nat,
                        k: int, hpid: string, s: ProcStatus.Status, names: Names, opts: Option<OptsData>, env: Env)
    requires TableOf(descs, ps, cells) == Ok(table) && i < |ps| && j < |descs| && descs[j].procFn in HOST_COLUMNS
    requires HostCells(cells, ps[i], k, hpid, s, names, opts, env)
    ensures |table| == 1 + |ps| && |table[0]| == |table[i + 1]| == |descs| && table[0][j] == descs[j].header
    ensures HostCell(descs[j].procFn, Ok(table[i + 1][j]), k, hpid, s, names, opts, env)
  {
    CellInTable(descs, ps, cells, table, i, j);
  }

  /** The names of the host columns */
  lemma HostNames()
    ensures ShownFor("hpid") == Some(Shown("HPID", HPID))
    ensures ShownFor("huser") == Some(Shown("HUSER", HUSER))
    ensures ShownFor("hgroup") == Some(Shown("HGROUP", HGROUP))
  {
  }

  lemma HostSnapshotOk(make: Maker, pids: seq<string>, t: nat, names: Names, hosts: seq<ProcessData>)
    requires Hosts.HostSnapshot(make, pids, t, names) == Ok(hosts)
    ensures var records := Gather(make, pids, t, |pids|);
            Hosts.WithAll(records, Hosts.HostDataOf(names), |records|) == Ok(hosts)
  {
  }

  lemma FlaggedColumn(descriptors: seq<string>, descs: seq<Descriptor>, j: nat)
    requires Translated(descriptors) == Ok(descs) && j < |descs| && descs[j].procFn in HOST_COLUMNS
    ensures OnHost(descs)
  {
    ResolvedFlagged(if descriptors == [] then DEFAULT_DESCRIPTORS else descriptors, j);
  }

  lemma CellInTable(descs: seq<Descriptor>, ps: seq<ProcessData>, cells: Cells, table: Table, i: nat, j: nat)
    requires TableOf(descs, ps, cells) == Ok(table) && i < |ps| && j < |descs|
    ensures |table| == 1 + |ps| && |table[0]| == |table[i + 1]| == |descs| && table[0][j] == descs[j].header
    ensures cells(descs[j].procFn, ps[i]) == Ok(table[i + 1][j])
  {
    TableExact(descs, ps, cells);
    assert RowOf(descs, ps[i], cells, table[i + 1]);
  }
}
