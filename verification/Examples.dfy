/** Files and runs at which a claim about snapshots or reports fails, or at which the hypotheses of the theorems
    about them hold. */
module Examples {
  import opened Outcomes
  import opened Text
  import opened Process
  import opened Report
  import Descriptors
  import EndToEnd
  import HostColumns
  import HostMatch
  import Hosts
  import J = Join
  import Kernel
  import MatchLimits
  import Merge
  import ProcStat
  import ProcStatus
  import Snapshot

  // ---------- files ----------

  function Zeros(n: nat): (items: seq<Item>)
    ensures |items| == n
    ensures forall i :: 0 <= i < n ==> items[i] == Item(" ", "0")
  {
    seq(n, i => Item(" ", "0"))
  }

  lemma {:induction false} NoParen(items: seq<Item>)
    requires forall i :: 0 <= i < |items| ==> items[i] == Item(" ", "0")
    ensures ')' !in Spread(items)
  {
    if items != [] {
      NoParen(items[1..]);
    }
  }

  lemma SampleStat() returns (stat: string)
    ensures ProcStat.ParseStat(stat).Ok?
  {
    NoParen(Zeros(21));
    ProcStat.ParseStatOfPrinted("1", "sh", Zeros(21), "");
    stat := ProcStat.PrintStat("1", ' ', "sh", Spread(Zeros(21)) + "");
  }

  const ROOT: seq<string> := ["0", "0", "0", "0"]

  predicate Short(words: seq<string>) {
    |words| <= 9 && forall i :: 0 <= i < |words| ==> Word(words[i]) && |words[i]| <= 20
  }

  lemma {:induction false} JoinShort(words: seq<string>)
    requires forall i :: 0 <= i < |words| ==> |words[i]| <= 20
    ensures |Text.Join(words, "\t")| <= 21 * |words|
  {
    if |words| > 1 {
      JoinShort(words[1..]);
    }
  }

  /** The status of a process of root with these namespace pids */
  function RootStatus(nspid: seq<string>): ProcStatus.Status {
    ProcStatus.Status(map[], ROOT, ROOT, [], nspid)
  }

  lemma SampleLine(s: ProcStatus.Status, t: ProcStatus.Target) returns (line: ProcStatus.Line)
    requires t != ProcStatus.Unknown && Short(ProcStatus.Shown(s, t)) && ProcStatus.Shown(s, t) != []
    ensures ProcStatus.LineOf(s, line, ProcStatus.KeyOf) && ProcStatus.IsOf(line, t)
    ensures |ProcStatus.LineText(line)| <= |ProcStatus.KeyOf(t)| + 190
  {
    line := ProcStatus.KernelLine(s, t, "\t", "");
    JoinShort(ProcStatus.Shown(s, t));
  }

  /** A status file of three lines as the kernel prints them. */
  lemma SampleLayout(nspid: seq<string>) returns (layout: seq<ProcStatus.Line>)
    requires Short(nspid) && nspid != []
    ensures ProcStatus.Prints(RootStatus(nspid), layout, ProcStatus.KeyOf)
    ensures forall i :: 0 <= i < |layout| ==> |ProcStatus.LineText(layout[i])| <= 196
  {
    var s := RootStatus(nspid);
    var uids := SampleLine(s, ProcStatus.Uids);
    var gids := SampleLine(s, ProcStatus.Gids);
    var pids := SampleLine(s, ProcStatus.NSpid);
    layout := [uids, gids, pids];
    assert ProcStatus.IsOf(layout[0], ProcStatus.Uids) && ProcStatus.IsOf(layout[1], ProcStatus.Gids);
    assert ProcStatus.IsOf(layout[2], ProcStatus.NSpid);
  }

  lemma SampleStatus(nspid: seq<string>) returns (status: seq<string>)
    requires Short(nspid) && nspid != []
    ensures ProcStatus.Meaning(ProcStatus.Scanned(status)) == Ok(RootStatus(nspid))
    ensures ProcStatus.LastWords(ProcStatus.Scanned(status), "NSpid:") == nspid
  {
    var layout := SampleLayout(nspid);
    status := ProcStatus.PrintStatus(layout);
    HostColumns.AllScanned(status);
    ProcStatus.MeaningOfPrinted(RootStatus(nspid), layout);
    HostColumns.StatusPids(status, RootStatus(nspid));
  }

  /** A /proc in which some pids live forever and the others exit at a given time, all with the same files. */
  function Still(files: Snapshot.Files, forever: set<string>, exit: nat): Snapshot.World {
    Snapshot.World(pid => if pid in forever then None else Some(exit), (pid, t) => files, pid => true)
  }

  lemma StillWellFormed(files: Snapshot.Files, forever: set<string>, exit: nat, nspid: seq<string>)
    requires ProcStat.ParseStat(files.stat).Ok?
    requires ProcStatus.Meaning(ProcStatus.Scanned(files.status)) == Ok(RootStatus(nspid))
    ensures Snapshot.WellFormed(Still(files, forever, exit))
  {
  }

  // ---------- a snapshot that fails ----------

  /** One process that exits right after its stat file was opened ends the whole snapshot with an error, although the
      kernel's files are as they should be. */
  lemma TornSnapshot() returns (w: Snapshot.World)
    ensures Snapshot.WellFormed(w)
    ensures FirstFatal(MakerOf(Snapshot.Readers(w)), ["1"], 0, 1) == 0
    ensures Turn(MakerOf(Snapshot.Readers(w)), ["1"], 0, 0) == Err(Gone)
  {
    var stat := SampleStat();
    var status := SampleStatus(["1"]);
    var files := Snapshot.Files(stat, status, "", "", None);
    w := Still(files, {}, 1);
    StillWellFormed(files, {}, 1, ["1"]);
    Snapshot.ReadersHonest(w);
    assert Snapshot.TellsFile(w.exits, "1", 0, Snapshot.Readers(w).parseStat("1", 0));
    assert Turn(MakerOf(Snapshot.Readers(w)), ["1"], 0, 0) == NewData(Snapshot.Readers(w), "1", 0).0;
  }

  // ---------- a merged report without a header ----------

  /** A container that is gone when its mount namespace is joined, and one with a single process */
  function Container(gone: bool, p: ProcessData, env: Env): J.World {
    J.World(Ok([]), Ok([]), Ok([]), Ok(""), Ok(""), if gone then Err(NotExist) else Ok(()), Ok(()), Ok(()),
            Ok([p.pid]), (pids, joinUserNS) => Ok([p]), env)
  }

  lemma PidColumn()
    ensures Descriptors.Translated(["pid"]) == Ok([Descriptors.Entry(8)])
  {
    PidEntry();
    Descriptors.HitsOfRequest("pid");
    Descriptors.ResolvedStep(["pid"], 0);
    assert ["pid"][..1] == ["pid"];
    Alone(Descriptors.Entry(8));
  }

  lemma Alone<T>(x: T)
    ensures [] + [x] == [x]
  {
  }

  lemma PidEntry()
    ensures TrimSpace("pid") == "pid" && Descriptors.NamedEntry("pid") == Some(8)
  {
    Descriptors.EntryNamed(8);
    assert TrimLeft("pid") == "pid" && TrimRight("pid") == "pid";
  }

  lemma PidTable(p: ProcessData, ctx: Ctx, env: Env)
    ensures TableOf([Descriptors.Entry(8)], [p], CellsOf(ctx, env)) == Ok([["PID"], [p.pid]])
  {
    var descs, cells := [Descriptors.Entry(8)], CellsOf(ctx, env);
    assert cells(Descriptors.PID, p) == Ok(p.pid);
    Alone(p.pid);
    Alone([p.pid]);
    assert Row(descs, p, cells, 1) == Ok([p.pid]);
    assert Rows(descs, [p], cells, 1) == Ok([[p.pid]]);
    assert Header(descs) == ["PID"];
    assert [Header(descs)] + [[p.pid]] == [["PID"], [p.pid]];
    assert |[p]| == 1;
  }

  lemma GoneJoined(p: ProcessData, env: Env)
    ensures J.Joined(["pid"], None, Container(true, p, env)) == (Err(NotExist), None)
  {
    PidColumn();
  }

  lemma OneJoined(p: ProcessData, env: Env)
    ensures J.Joined(["pid"], None, Container(false, p, env)) == (Ok([["PID"], [p.pid]]), None)
  {
    PidColumn();
    PidTable(p, Ctx([], None), env);
  }

  /** Of two containers the first is gone before it is joined: the report is the row of the second one's process, and
      nothing says what its column is. */
  lemma HeaderLost(p: ProcessData, env: Env)
    ensures var links: Merge.Links := [Ok("pid:[1]"), Ok("pid:[2]")];
            var worlds := [Container(true, p, env), Container(false, p, env)];
            var join := Merge.JoinerOf(["pid"], Merge.KeptWorlds(links, worlds));
            && Merge.Firsts(links, 2) == [0, 1]
            && Merge.Result(join, None, 0) == Err(NotExist) && Merge.Result(join, None, 1).Ok?
            && Merge.Merged(join, None, 2) == [[p.pid]]
  {
    var links: Merge.Links := [Ok("pid:[1]"), Ok("pid:[2]")];
    var worlds := [Container(true, p, env), Container(false, p, env)];
    BothKept(links);
    assert Merge.KeptWorlds(links, worlds) == worlds;
    GoneJoined(p, env);
    OneJoined(p, env);
    SecondOnly(Merge.JoinerOf(["pid"], worlds), [["PID"], [p.pid]]);
  }

  lemma BothKept(links: Merge.Links)
    requires links == [Ok("pid:[1]"), Ok("pid:[2]")]
    ensures Merge.Firsts(links, 2) == [0, 1]
  {
    assert Merge.Seen(links, 0) == {} && Merge.Seen(links, 1) == {"pid:[1]"};
    assert Merge.Firsts(links, 1) == [0];
  }

  lemma SecondOnly(join: Merge.Joiner, table: Table)
    requires join(None, 0) == (Err(NotExist), None) && join(None, 1) == (Ok(table), None) && table != []
    ensures Merge.Result(join, None, 0) == Err(NotExist) && Merge.Result(join, None, 1).Ok?
    ensures Merge.Merged(join, None, 2) == table[1..]
  {
    assert Merge.OptsBefore(join, None, 0) == None && Merge.OptsBefore(join, None, 1) == None;
    assert Merge.Result(join, None, 0) == Err(NotExist) && Merge.Result(join, None, 1) == Ok(table);
    assert Merge.Merged(join, None, 0) == [] && Merge.Merged(join, None, 1) == [];
  }

  // ---------- two views of one run ----------

  /** A world with one process only, which lives forever */
  ghost predicate OneWorld(w: Snapshot.World, pid: string, nspid: seq<string>) {
    && Snapshot.WellFormed(w)
    && (forall p: string, t: nat :: Snapshot.Alive(w.exits, p, t) <==> p == pid)
    && (forall p: string :: w.nsReadable(p))
    && (forall p: string, t: nat :: OneFile(w.files(p, t), nspid))
  }

  ghost predicate OneFile(files: Snapshot.Files, nspid: seq<string>) {
    && files.pidNS == HostMatch.NsLink(1)
    && ProcStatus.Meaning(ProcStatus.Scanned(files.status)) == Ok(RootStatus(nspid))
    && ProcStatus.LastWords(ProcStatus.Scanned(files.status), "NSpid:") == nspid
  }

  lemma OneProcess(pid: string, nspid: seq<string>) returns (w: Snapshot.World)
    requires Short(nspid) && nspid != []
    ensures OneWorld(w, pid, nspid)
  {
    var stat := SampleStat();
    var status := SampleStatus(nspid);
    var files := Snapshot.Files(stat, status, "", HostMatch.NsLink(1), None);
    w := Still(files, {pid}, 0);
    StillWellFormed(files, {pid}, 0, nspid);
  }

  /** The first process of a container */
  const TASK: Kernel.Task := Kernel.Task([Kernel.Upid(2, Kernel.INITIAL), Kernel.Upid(1, 1)])

  /** An observation of states 1 to 3, throughout which the first process lives */
  ghost predicate Running(states: seq<Kernel.State>) {
    && |states| == 4 && HostMatch.Observation(states, 1, 3)
    && forall i :: 1 <= i <= 3 ==> 1 in states[i].live && 1 in states[i].tasks && states[i].tasks[1] == TASK
  }

  /** A /proc that is read during the observation */
  ghost predicate RunningView(v: EndToEnd.View, ns: Kernel.NsId, level: nat) {
    v.ns == ns && v.level == level && forall t: nat :: 1 <= v.when(t) <= 3
  }

  lemma ShownOne(w: Snapshot.World, pid: string, nspid: seq<string>, from: nat, until: nat,
                 states: seq<Kernel.State>, v: EndToEnd.View)
    requires Running(states) && RunningView(v, v.ns, v.level) && OneWorld(w, pid, nspid)
    requires EndToEnd.NamedIn(TASK, v, pid) && HostColumns.PidsFrom(nspid, TASK, v.level)
    ensures EndToEnd.Shows(w, pid, from, until, states, 1, 3, v)
  {
    forall t | from <= t <= until && Snapshot.Alive(w.exits, pid, t)
      ensures exists u: Kernel.TaskId :: EndToEnd.IsAbout(w.files(pid, t), pid, v, states[v.when(t)], u)
    {
      assert OneFile(w.files(pid, t), nspid) && states[v.when(t)].tasks[1] == TASK && TASK.Own() == 1;
      assert EndToEnd.IsAbout(w.files(pid, t), pid, v, states[v.when(t)], 1);
    }
  }

  lemma HostShown(hw: Snapshot.World, make: Maker, states: seq<Kernel.State>, hv: EndToEnd.View)
    requires Running(states) && OneWorld(hw, "2", ["2", "1"]) && make == MakerOf(Snapshot.Readers(hw))
    requires RunningView(hv, Kernel.INITIAL, 0)
    ensures EndToEnd.ShowsAll(hw, make, ["2"], 0, states, 1, 3, hv)
  {
    HostDecimals();
    ShownOne(hw, "2", ["2", "1"], 0, TurnStart(make, ["2"], 0, 1), states, hv);
  }

  lemma HostDecimals()
    ensures Decimal(1) == "1" && Decimal(2) == "2"
  {
  }

  lemma HostLives(states: seq<Kernel.State>, hv: EndToEnd.View, t: nat)
    requires Running(states) && RunningView(hv, Kernel.INITIAL, 0)
    ensures EndToEnd.LivesOn(states, 1, hv.when(t), hv, "2", 1)
  {
    HostDecimals();
  }

  lemma ContainerShown(w: Snapshot.World, until: nat, states: seq<Kernel.State>, v: EndToEnd.View)
    requires Running(states) && OneWorld(w, "1", ["1"]) && RunningView(v, 1, 1)
    ensures EndToEnd.Shows(w, "1", 0, until, states, 1, 3, v)
  {
    HostDecimals();
    ShownOne(w, "1", ["1"], 0, until, states, v);
  }

  lemma RunOfTwo() returns (states: seq<Kernel.State>)
    ensures Running(states)
    ensures 1 in states[3].namespaces && states[3].namespaces[1].parent == Kernel.INITIAL
    ensures 2 !in states[1].tasks && 2 in states[2].live && 2 !in states[3].live
  {
    states := [MatchLimits.Reusing(0), MatchLimits.Reusing(1), MatchLimits.Reusing(2), MatchLimits.Reusing(3)];
    MatchLimits.ReusingSteps();
  }

  lemma ContainerMade(w: Snapshot.World)
    requires OneWorld(w, "1", ["1"])
    ensures NewData(Snapshot.Readers(w), "1", 0).0.Ok?
  {
    Snapshot.ReadersHonest(w);
    Snapshot.NewExact(Snapshot.Readers(w), w.exits, "1", 0);
    assert Snapshot.Alive(w.exits, "1", NewData(Snapshot.Readers(w), "1", 0).1 - 1);
  }

  /** The records of such a world have their names. */
  lemma NamesOfOne(w: Snapshot.World, make: Maker, pids: seq<string>, t: nat, pid: string, nspid: seq<string>,
                   names: Names)
    requires OneWorld(w, pid, nspid) && make == MakerOf(Snapshot.Readers(w))
    ensures var records := Gather(make, pids, t, |pids|);
            Hosts.WithAll(records, Hosts.HostDataOf(names), |records|).Ok?
  {
    var records := Gather(make, pids, t, |pids|);
    forall i | 0 <= i < |records|
      ensures RootIDs(records[i])
    {
      Snapshot.GatherIsTurn(make, pids, t, |pids|, i);
      var k := Snapshot.Kept(make, pids, t, |pids|)[i];
      RootRecord(w, make, pids[k], TurnStart(make, pids, t, k), pid, nspid);
    }
    RootNames(records, names, |records|);
  }

  predicate RootIDs(p: ProcessData) {
    p.status.uids == ROOT && p.status.gids == ROOT
  }

  lemma RootRecord(w: Snapshot.World, make: Maker, p: string, t: nat, pid: string, nspid: seq<string>)
    requires OneWorld(w, pid, nspid) && make == MakerOf(Snapshot.Readers(w)) && make(p, t).0.Ok?
    ensures RootIDs(make(p, t).0.value)
  {
    Snapshot.RecordContents(w, p, t);
    assert OneFile(w.files(p, t + 3), nspid);
  }

  lemma {:induction false} RootNames(records: seq<ProcessData>, names: Names, n: nat)
    requires n <= |records| && forall i :: 0 <= i < |records| ==> RootIDs(records[i])
    ensures Hosts.WithAll(records, Hosts.HostDataOf(names), n).Ok?
  {
    if n > 0 {
      RootNames(records, names, n - 1);
      RootNamed(records[n - 1], names);
    }
  }

  lemma RootNamed(p: ProcessData, names: Names)
    requires RootIDs(p)
    ensures WithHostData(p, names).Ok?
  {
    ParseIntOfDecimal(0);
    assert SignedDecimal(0) == "0";
  }

  predicate Named(states: seq<Kernel.State>, n: nat, t: Kernel.TaskId, v: EndToEnd.View, pid: string) {
    n < |states| && t in states[n].tasks && EndToEnd.NamedIn(states[n].tasks[t], v, pid)
  }

  predicate Starts(states: seq<Kernel.State>, m: nat, n: nat, t: Kernel.TaskId) {
    m < n < |states| && t !in states[m].tasks && t in states[n].live
  }

  predicate Exits(states: seq<Kernel.State>, m: nat, n: nat, t: Kernel.TaskId) {
    m < n < |states| && t in states[m].live && t !in states[n].live
  }

  /** A container whose first process is 2 on the host and 1 in the container is read from both sides.  Another process
      of the container starts between the two reads of the host's record and exits between those of the
      container's.  So what the theorems about the host columns ask of the file systems can be had. */
  lemma TwoViewsOfOne(names: Names) returns (states: seq<Kernel.State>, w: Snapshot.World, hw: Snapshot.World,
                                             v: EndToEnd.View, hv: EndToEnd.View, hosts: seq<ProcessData>)
    ensures EndToEnd.TwoViews(states, 1, 3, w, "1", 0, v, hw, MakerOf(Snapshot.Readers(hw)), ["2"], 0, hv, names, hosts)
    ensures w.nsReadable("1") && hw.nsReadable("2")
    ensures forall t: nat :: EndToEnd.LivesOn(states, 1, hv.when(t), hv, "2", 1)
    ensures Named(states, 3, 1, v, "1")
    ensures Starts(states, hv.when(3), hv.when(6), 2) && Exits(states, v.when(3), v.when(6), 2)
  {
    states := RunOfTwo();
    v := EndToEnd.View(1, 1, t => if t < 5 then 2 else 3);
    hv := EndToEnd.View(Kernel.INITIAL, 0, t => if t < 5 then 1 else 2);
    w := OneProcess("1", ["1"]);
    hw := OneProcess("2", ["2", "1"]);
    ContainerMade(w);
    ContainerShown(w, NewData(Snapshot.Readers(w), "1", 0).1, states, v);
    hosts := HostSide(hw, MakerOf(Snapshot.Readers(hw)), states, v, hv, names);
    HostDecimals();
    forall t: nat
      ensures EndToEnd.LivesOn(states, 1, hv.when(t), hv, "2", 1)
    {
      HostLives(states, hv, t);
    }
  }

  lemma HostSide(hw: Snapshot.World, make: Maker, states: seq<Kernel.State>, v: EndToEnd.View, hv: EndToEnd.View,
                 names: Names) returns (hosts: seq<ProcessData>)
    requires Running(states) && OneWorld(hw, "2", ["2", "1"]) && make == MakerOf(Snapshot.Readers(hw))
    requires RunningView(v, 1, 1) && RunningView(hv, Kernel.INITIAL, 0)
    requires 1 in states[3].namespaces && states[3].namespaces[1].parent == Kernel.INITIAL
    ensures EndToEnd.HostView(states, 1, 3, v, hw, make, ["2"], 0, hv, names, hosts)
  {
    HostShown(hw, make, states, hv);
    NamesOfOne(hw, make, ["2"], 0, "2", ["2", "1"], names);
    var records := Gather(make, ["2"], 0, 1);
    hosts := Hosts.WithAll(records, Hosts.HostDataOf(names), |records|).value;
  }

  /** There the container's process 1 is shown the host pid 2. */
  lemma HostPidOfOne(opts: Option<OptsData>, env: Env) returns (w: Snapshot.World, hosts: seq<ProcessData>)
    ensures Snapshot.WellFormed(w) && NewData(Snapshot.Readers(w), "1", 0).0.Ok?
    ensures Cell(Descriptors.HPID, NewData(Snapshot.Readers(w), "1", 0).0.value, Ctx(hosts, opts), env) == Ok("2")
  {
    var states, hw, v, hv;
    states, w, hw, v, hv, hosts := TwoViewsOfOne(env.names);
    EndToEnd.SurvivorShown(states, 1, 3, w, "1", 0, v, hw, MakerOf(Snapshot.Readers(hw)), ["2"], 0, hv, env.names,
                           hosts, opts, env, 1, "2");
  }
}
