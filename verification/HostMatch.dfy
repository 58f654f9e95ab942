/** findHostProcess of psgo.go: which host process is a container process? */
module HostMatch {
  import opened Outcomes
  import opened Text
  import opened Process
  import opened Kernel

  // ---------- the search ----------

  predicate Matches(p: ProcessData, hp: ProcessData) {
    && |hp.status.nspid| >= 2
    && p.pid == hp.status.nspid[1] && p.pidNS == hp.pidNS
  }

  /** The index of the first host process that matches, or -1 */
  function FirstMatch(p: ProcessData, hosts: seq<ProcessData>): (i: int)
    ensures -1 <= i < |hosts|
    ensures i >= 0 ==> Matches(p, hosts[i])
    ensures forall j :: 0 <= j < (if i == -1 then |hosts| else i) ==> !Matches(p, hosts[j])
  {
    if hosts == [] then -1
    else if Matches(p, hosts[0]) then 0
    else
      var i := FirstMatch(p, hosts[1..]);
      if i == -1 then -1 else i + 1
  }

  function FoundHost(p: ProcessData, hosts: seq<ProcessData>): Option<ProcessData> {
    var i := FirstMatch(p, hosts);
    if i == -1 then None else Some(hosts[i])
  }

  method FindHostProcess(p: ProcessData, hosts: seq<ProcessData>) returns (r: Option<ProcessData>)
    ensures r == FoundHost(p, hosts)
  {
    for i := 0 to |hosts|
      invariant forall j :: 0 <= j < i ==> !Matches(p, hosts[j])
    {
      var hp := hosts[i];
      if |hp.status.nspid| < 2 {
        continue;
      }
      if p.pid == hp.status.nspid[1] && p.pidNS == hp.pidNS {
        assert Matches(p, hosts[i]);
        return Some(hp);
      }
    }
    return None;
  }

  // ---------- what /proc shows of the kernel ----------

  /** The content of the link /proc/[pid]/ns/pid */
  function NsLink(ns: NsId): (link: string)
    ensures link != ""
  {
    "pid:[" + Decimal(ns) + "]"
  }

  lemma NsLinkNames(a: NsId, b: NsId)
    requires NsLink(a) == NsLink(b)
    ensures a == b
  {
    assert NsLink(a)[5..|NsLink(a)| - 1] == Decimal(a);
    assert NsLink(b)[5..|NsLink(b)| - 1] == Decimal(b);
    DecimalInjective(a, b);
  }

  /** The record of a process read through a /proc whose namespace is at the given level of the process's
      chain: its pid there, the pids from there inwards, and its own namespace if the link may be read. */
  ghost predicate ReadAt(p: ProcessData, task: Task, level: nat, readable: bool) {
    && level < |task.numbers|
    && p.pid == Decimal(task.numbers[level].nr)
    && |p.status.nspid| == |task.numbers| - level
    && (forall i :: 0 <= i < |p.status.nspid| ==> p.status.nspid[i] == Decimal(task.numbers[level + i].nr))
    && p.pidNS == if readable then NsLink(task.Own()) else ""
  }

  /** Where a record comes from. */
  datatype Origin = Origin(task: TaskId, readable: bool)

  /** Host records, all read through the /proc at one level. */
  ghost predicate HostsRead(s: State, level: nat, hosts: seq<ProcessData>, origins: seq<Origin>) {
    && |hosts| == |origins|
    && forall i :: 0 <= i < |hosts| ==>
         origins[i].task in s.tasks && ReadAt(hosts[i], s.tasks[origins[i].task], level, origins[i].readable)
  }

  // ---------- the match ----------

  /** A container process read one level below the host's /proc, with its namespace readable, matches
      exactly the readable host records of itself. */
  lemma MatchExact(s: State, t: TaskId, p: ProcessData, u: TaskId, hp: ProcessData, level: nat, readable: bool)
    requires Valid(s) && t in s.tasks && u in s.tasks
    requires ReadAt(p, s.tasks[t], level + 1, true) && ReadAt(hp, s.tasks[u], level, readable)
    ensures Matches(p, hp) <==> t == u && readable
  {
    if Matches(p, hp) {
      NsLinkNames(s.tasks[t].Own(), s.tasks[u].Own());
      DecimalInjective(s.tasks[t].numbers[level + 1].nr, s.tasks[u].numbers[level + 1].nr);
      PidNames(s, t, u, level + 1);
    }
  }

  /** In every reachable state: the search gives the first readable record of the process itself, so never
      another process, and nothing exactly when the candidates hold no such record. */
  lemma FindsItself(states: seq<State>, n: nat, t: TaskId, p: ProcessData, level: nat,
                    hosts: seq<ProcessData>, origins: seq<Origin>)
    requires Run(states) && n < |states|
    requires t in states[n].tasks && ReadAt(p, states[n].tasks[t], level + 1, true)
    requires HostsRead(states[n], level, hosts, origins)
    ensures var i := FirstMatch(p, hosts);
            if i >= 0 then origins[i] == Origin(t, true) && Origin(t, true) !in origins[..i]
            else Origin(t, true) !in origins
  {
    RunsStayValid(states, n);
    forall i | 0 <= i < |hosts|
      ensures Matches(p, hosts[i]) <==> origins[i] == Origin(t, true)
    {
      MatchExact(states[n], t, p, origins[i].task, hosts[i], level, origins[i].readable);
    }
  }

  // ---------- reading while the kernel moves on ----------

  /** An observation: a stretch of a run in which no new one begins. */
  ghost predicate Observation(states: seq<State>, first: nat, last: nat) {
    && Run(states) && first <= last < |states|
    && forall i :: first < i <= last ==> StepWithin(states[i - 1], states[i])
  }

  /** Nothing is forgotten in an observation, and no process changes its pids. */
  lemma {:induction false} Retained(states: seq<State>, first: nat, i: nat, last: nat, t: TaskId)
    requires Observation(states, first, last) && first <= i <= last
    requires t in states[i].tasks
    ensures t in states[last].tasks && states[last].tasks[t] == states[i].tasks[t]
    decreases last
  {
    if i < last {
      Retained(states, first, i, last - 1, t);
      assert StepWithin(states[last - 1], states[last]);
    }
  }

  /** Host records, each read in its own state of the observation. */
  ghost predicate HostsReadDuring(states: seq<State>, first: nat, last: nat, level: nat,
                                  hosts: seq<ProcessData>, origins: seq<Origin>, times: seq<nat>) {
    && |hosts| == |origins| == |times|
    && forall i :: 0 <= i < |hosts| ==>
         && first <= times[i] <= last < |states|
         && origins[i].task in states[times[i]].live && origins[i].task in states[times[i]].tasks
         && ReadAt(hosts[i], states[times[i]].tasks[origins[i].task], level, origins[i].readable)
  }

  /** The same when every record is read at its own time while processes start and exit: the search still
      gives the process itself or nothing, as long as pids of exited processes are not reused meanwhile. */
  lemma FindsItselfWhileRunning(states: seq<State>, first: nat, last: nat, n: nat, t: TaskId, p: ProcessData,
                                level: nat, hosts: seq<ProcessData>, origins: seq<Origin>, times: seq<nat>)
    requires Observation(states, first, last) && first <= n <= last
    requires t in states[n].live && t in states[n].tasks && ReadAt(p, states[n].tasks[t], level + 1, true)
    requires HostsReadDuring(states, first, last, level, hosts, origins, times)
    ensures var i := FirstMatch(p, hosts);
            if i >= 0 then origins[i] == Origin(t, true) && Origin(t, true) !in origins[..i]
            else Origin(t, true) !in origins
  {
    Retained(states, first, n, last, t);
    forall i | 0 <= i < |hosts|
      ensures origins[i].task in states[last].tasks
              && ReadAt(hosts[i], states[last].tasks[origins[i].task], level, origins[i].readable)
    {
      Retained(states, first, times[i], last, origins[i].task);
    }
    FindsItself(states, last, t, p, level, hosts, origins);
  }
}
