/** Where findHostProcess of psgo.go can be trusted: exactly for readers one level below the host whose
    namespace link is readable. */
module MatchLimits {
  import opened Text
  import ProcStatus
  import opened Process
  import opened Kernel
  import opened HostMatch

  /** A container reader at this level of nesting, with its link readable or not, is never given another
      process, whatever the run and whichever host records there are. */
  ghost predicate Trustworthy(level: nat, readable: bool) {
    forall states: seq<State>, n: nat, t: TaskId, p: ProcessData, u: TaskId, hp: ProcessData, hostReadable: bool ::
      Confusable(states, n, t, p, level, readable, u, hp, hostReadable) ==> t == u
  }

  /** Records of two processes of one reachable state that the search takes for the same process. */
  ghost predicate Confusable(states: seq<State>, n: nat, t: TaskId, p: ProcessData, level: nat, readable: bool,
                             u: TaskId, hp: ProcessData, hostReadable: bool) {
    && Run(states) && n < |states| && t in states[n].tasks && u in states[n].tasks
    && ReadAt(p, states[n].tasks[t], level, readable)
    && ReadAt(hp, states[n].tasks[u], 0, hostReadable)
    && Matches(p, hp)
  }

  /** The code compares with NSpid[1] whatever the nesting, and takes two unreadable links, both empty,
      for the same namespace: so it is right exactly at level 1 with a readable link. */
  lemma TrustworthyExactly(level: nat, readable: bool)
    ensures Trustworthy(level, readable) <==> level == 1 && readable
  {
    if level == 1 && readable {
      forall states: seq<State>, n: nat, t: TaskId, p: ProcessData, u: TaskId, hp: ProcessData, hostReadable: bool
        | Confusable(states, n, t, p, level, readable, u, hp, hostReadable)
        ensures t == u
      {
        RunsStayValid(states, n);
        MatchExact(states[n], t, p, u, hp, 0, hostReadable);
      }
    } else if level == 1 {
      SiblingsConfused();
    } else {
      NestedConfused(level, readable);
    }
  }

  // ---------- records ----------

  function RecordAt(task: Task, level: nat, readable: bool): (p: ProcessData)
    requires level < |task.numbers|
    ensures ReadAt(p, task, level, readable)
  {
    ProcessData(
      Decimal(task.numbers[level].nr), NO_STAT,
      ProcStatus.Status(map[], [], [], [],
             seq(|task.numbers| - level,
                 i requires 0 <= i < |task.numbers| - level => Decimal(task.numbers[level + i].nr))),
      [], "", if readable then NsLink(task.Own()) else "", "", "")
  }

  // ---------- nested containers ----------

  /** Process j of a run that first nests `depth` namespaces and then forks in the innermost one. */
  function Numbers(j: nat, depth: nat): (numbers: seq<Upid>)
    ensures |numbers| == (if j < depth then j else depth) + 1
    ensures forall i :: 0 <= i < |numbers| ==> numbers[i] == Upid(j - i + 1, i)
  {
    var n := (if j < depth then j else depth) + 1;
    seq(n, i requires 0 <= i < n => Upid(j - i + 1, i))
  }

  function NamespaceAt(i: nat): Namespace {
    Namespace(if i == 0 then INITIAL else i - 1, i)
  }

  function Nested(n: nat, depth: nat): State {
    var tasks := map j: nat | j <= n :: Task(Numbers(j, depth));
    State(map i: nat | i <= n && i <= depth :: NamespaceAt(i), tasks, tasks.Keys)
  }

  function NestedRun(n: nat, depth: nat): (states: seq<State>)
    ensures |states| == n + 1
    ensures forall i :: 0 <= i <= n ==> states[i] == Nested(i, depth)
  {
    seq(n + 1, i requires 0 <= i => Nested(i, depth))
  }

  lemma NumbersFree(n: nat, depth: nat)
    ensures forall upid <- Numbers(n + 1, depth) :: Free(Nested(n, depth), upid)
  {
  }

  lemma NestedTasks(n: nat, depth: nat)
    ensures var s, s' := Nested(n, depth), Nested(n + 1, depth);
            && s'.tasks == s.tasks[n + 1 := Task(Numbers(n + 1, depth))]
            && s'.live == s.live + {n + 1}
  {
  }

  lemma NestedNamespaces(n: nat, depth: nat)
    ensures var s, s' := Nested(n, depth), Nested(n + 1, depth);
            s'.namespaces == if n < depth then s.namespaces[n + 1 := NamespaceAt(n + 1)] else s.namespaces
  {
  }

  lemma NumbersChained(n: nat, depth: nat)
    ensures Chained(Nested(n, depth).namespaces, Numbers(n, depth))
  {
  }

  lemma NestedStep(n: nat, depth: nat)
    ensures Step(Nested(n, depth), Nested(n + 1, depth))
  {
    var s, s' := Nested(n, depth), Nested(n + 1, depth);
    var numbers := Numbers(n + 1, depth);
    NumbersFree(n, depth);
    NumbersChained(n + 1, depth);
    NestedTasks(n, depth);
    NestedNamespaces(n, depth);
    if n < depth {
      NestedClone(s, s', n, depth);
    } else {
      assert Fork(s, s', n + 1, numbers);
    }
  }

  lemma NestedClone(s: State, s': State, n: nat, depth: nat)
    requires n < depth && s == Nested(n, depth) && s' == Nested(n + 1, depth)
    requires forall upid <- Numbers(n + 1, depth) :: Free(s, upid)
    requires Chained(s'.namespaces, Numbers(n + 1, depth))
    requires s'.tasks == s.tasks[n + 1 := Task(Numbers(n + 1, depth))] && s'.live == s.live + {n + 1}
    requires s'.namespaces == s.namespaces[n + 1 := NamespaceAt(n + 1)]
    ensures Step(s, s')
  {
    NestedCreator(n, depth);
    var numbers := Numbers(n + 1, depth);
    assert |numbers| == n + 2 && numbers[n + 1] == Upid(1, n + 1);
    assert s.tasks[n].Own() == n && NamespaceAt(n + 1) == Namespace(n, n + 1);
    assert s' == State(s'.namespaces, s.tasks[n + 1 := Task(numbers)], s.live + {n + 1});
    Cloned(s, s', n, numbers);
  }

  lemma Cloned(s: State, s': State, n: nat, numbers: seq<Upid>)
    requires n in s.live && n in s.tasks && s.tasks[n].numbers != [] && s.tasks[n].Own() == n
    requires n + 1 !in s.tasks && n in s.namespaces && s.namespaces[n].level == n && n + 1 !in s.namespaces
    requires s' == State(s.namespaces[n + 1 := Namespace(n, n + 1)], s.tasks[n + 1 := Task(numbers)], s.live + {n + 1})
    requires Chained(s'.namespaces, numbers) && numbers[|numbers| - 1] == Upid(1, n + 1)
    requires forall upid <- numbers :: Free(s, upid)
    ensures Step(s, s')
  {
    assert CloneNewPid(s, s', n, n + 1, n + 1, numbers);
  }

  lemma NestedCreator(n: nat, depth: nat)
    requires n < depth
    ensures var s := Nested(n, depth);
            && n in s.live && n in s.tasks && s.tasks[n].numbers != [] && s.tasks[n].Own() == n
            && n in s.namespaces && s.namespaces[n].level == n && n + 1 !in s.namespaces
  {
  }

  lemma NestedRuns(n: nat, depth: nat)
    ensures Run(NestedRun(n, depth))
  {
    var s := Nested(0, depth);
    assert s.namespaces == map[INITIAL := Namespace(INITIAL, 0)];
    assert Numbers(0, depth) == [Upid(1, INITIAL)];
    assert s.tasks == map[0 := Task([Upid(1, INITIAL)])];
    assert s.live == {0};
    forall i | 0 < i < n + 1
      ensures Step(NestedRun(n, depth)[i - 1], NestedRun(n, depth)[i])
    {
      NestedStep(i - 1, depth);
    }
  }

  /** A process whose pid at the container's level is the pid of another one at level 1: two processes of
      the innermost of `level` nested namespaces, or of the first one when the reader is not nested. */
  lemma NestedConfused(level: nat, readable: bool)
    requires level != 1
    ensures !Trustworthy(level, readable)
  {
    var depth := if level == 0 then 1 else level;
    var t := if level == 0 then 1 else 2 * level - 1;
    var u := if level == 0 then 2 else level;
    var n := if level == 0 then 2 else 2 * level - 1;
    var states := NestedRun(n, depth);
    NestedRuns(n, depth);
    var p := RecordAt(states[n].tasks[t], level, readable);
    var hp := RecordAt(states[n].tasks[u], 0, readable);
    assert states[n] == Nested(n, depth);
    assert Numbers(t, depth)[level].nr == Numbers(u, depth)[1].nr;
    assert Confusable(states, n, t, p, level, readable, u, hp, readable);
  }

  // ---------- two containers ----------

  function Siblings(n: nat): State {
    if n == 0 then
      State(map[INITIAL := Namespace(INITIAL, 0)], map[0 := Task([Upid(1, INITIAL)])], {0})
    else
      var s := Siblings(n - 1);
      State(s.namespaces[n := Namespace(INITIAL, 1)],
            s.tasks[n := Task([Upid(n + 1, INITIAL), Upid(1, n)])],
            s.live + {n})
  }

  /** Both are process 1 of their own container, and neither link may be read. */
  lemma SiblingsConfused()
    ensures !Trustworthy(1, false)
  {
    var s0, s1, s2 := Siblings(0), Siblings(1), Siblings(2);
    var states := [s0, s1, s2];
    assert CloneNewPid(s0, s1, 0, 1, 1, [Upid(2, INITIAL), Upid(1, 1)]);
    assert CloneNewPid(s1, s2, 0, 2, 2, [Upid(3, INITIAL), Upid(1, 2)]);
    assert Run(states);
    var p, hp := RecordAt(s2.tasks[1], 1, false), RecordAt(s2.tasks[2], 0, false);
    assert Confusable(states, 2, 1, p, 1, false, 2, hp, false);
  }

  // ---------- pids that are used again ----------

  /** The same own namespace, and the same pid at a level of it */
  predicate SamePidAt(a: Task, b: Task, level: nat) {
    && level < |a.numbers| && level < |b.numbers|
    && a.Own() == b.Own() && a.numbers[level].nr == b.numbers[level].nr
  }

  /** What a match says of records of any two processes, read whenever: that they had the same pid in the same
      namespace. */
  lemma MatchSaysSamePid(p: ProcessData, t: Task, hp: ProcessData, u: Task, level: nat, readable: bool)
    requires ReadAt(p, t, level + 1, true) && ReadAt(hp, u, level, readable)
    ensures Matches(p, hp) <==> readable && SamePidAt(t, u, level + 1)
  {
    if Matches(p, hp) {
      NsLinkNames(t.Own(), u.Own());
      DecimalInjective(t.numbers[level + 1].nr, u.numbers[level + 1].nr);
    }
  }

  /** Of two states of a run: a match says that the host record is of the process itself, or of one that no longer
      counts when the container is read and whose pid another process has by then. */
  lemma MatchAcross(states: seq<State>, m: nat, n: nat, t: TaskId, p: ProcessData, u: TaskId, hp: ProcessData,
                    level: nat, readable: bool)
    requires Run(states) && m < |states| && n < |states| && t in states[n].tasks && u in states[m].tasks
    requires ReadAt(p, states[n].tasks[t], level + 1, true) && ReadAt(hp, states[m].tasks[u], level, readable)
    ensures Matches(p, hp) <==> readable && SamePidAt(states[n].tasks[t], states[m].tasks[u], level + 1)
    ensures Matches(p, hp) && u in states[n].tasks && states[n].tasks[u] == states[m].tasks[u] ==> t == u
  {
    MatchSaysSamePid(p, states[n].tasks[t], hp, states[m].tasks[u], level, readable);
    if u in states[n].tasks && states[n].tasks[u] == states[m].tasks[u] {
      RunsStayValid(states, n);
      MatchExact(states[n], t, p, u, hp, level, readable);
    }
  }

  /** A process that lives on keeps its pids, across observations too. */
  lemma {:induction false} LivingKept(states: seq<State>, m: nat, n: nat, u: TaskId)
    requires Run(states) && m <= n < |states|
    requires forall i :: m <= i <= n ==> u in states[i].live
    ensures u in states[m].tasks && u in states[n].tasks && states[n].tasks[u] == states[m].tasks[u]
    decreases n
  {
    RunsStayValid(states, n);
    if m < n {
      LivingKept(states, m, n - 1, u);
      assert Step(states[n - 1], states[n]);
    }
  }

  /** So a host process that lives on until the container is read is never taken for another. */
  lemma LivingNeverConfused(states: seq<State>, m: nat, n: nat, t: TaskId, p: ProcessData, u: TaskId, hp: ProcessData,
                            level: nat, readable: bool)
    requires Run(states) && m <= n < |states| && t in states[n].tasks && u in states[m].tasks
    requires ReadAt(p, states[n].tasks[t], level + 1, true) && ReadAt(hp, states[m].tasks[u], level, readable)
    requires forall i :: m <= i <= n ==> u in states[i].live
    ensures Matches(p, hp) <==> t == u && readable
  {
    LivingKept(states, m, n, u);
    RunsStayValid(states, n);
    MatchExact(states[n], t, p, u, hp, level, readable);
  }

  /** A container with an init process; a second process in it exits, and after that no longer counts a third one
      gets its pid in the container. */
  function Reusing(n: nat): State
    requires n < 6
  {
    var s0 := Siblings(0);
    var s1 := Siblings(1);
    var second, third := Task([Upid(3, INITIAL), Upid(2, 1)]), Task([Upid(4, INITIAL), Upid(2, 1)]);
    if n == 0 then s0
    else if n == 1 then s1
    else if n == 2 then s1.(tasks := s1.tasks[2 := second], live := {0, 1, 2})
    else if n == 3 then s1.(tasks := s1.tasks[2 := second], live := {0, 1})
    else if n == 4 then s1
    else s1.(tasks := s1.tasks[3 := third], live := {0, 1, 3})
  }

  /** The host's snapshot is taken while the second process lives, the container's when the third one does: the third
      one, which is 4 on the host, is shown the host pid 3 of the second. */
  lemma ReusedPidConfused() returns (states: seq<State>, p: ProcessData, hp: ProcessData)
    ensures Run(states) && |states| == 6
    ensures 2 in states[2].live && 2 in states[2].tasks && ReadAt(hp, states[2].tasks[2], 0, true)
    ensures 3 in states[5].live && 3 in states[5].tasks && ReadAt(p, states[5].tasks[3], 1, true)
    ensures FirstMatch(p, [hp]) == 0
    ensures hp.pid == Decimal(3) && states[5].tasks[3].numbers[0].nr == 4
  {
    states := [Reusing(0), Reusing(1), Reusing(2), Reusing(3), Reusing(4), Reusing(5)];
    ReusingSteps();
    p, hp := RecordAt(states[5].tasks[3], 1, true), RecordAt(states[2].tasks[2], 0, true);
    MatchSaysSamePid(p, states[5].tasks[3], hp, states[2].tasks[2], 0, true);
    assert Matches(p, [hp][0]);
  }

  lemma ReusingSteps()
    ensures Init(Reusing(0))
    ensures Step(Reusing(0), Reusing(1)) && StepWithin(Reusing(1), Reusing(2)) && StepWithin(Reusing(2), Reusing(3))
    ensures Step(Reusing(3), Reusing(4)) && Step(Reusing(4), Reusing(5))
  {
    assert CloneNewPid(Reusing(0), Reusing(1), 0, 1, 1, [Upid(2, INITIAL), Upid(1, 1)]);
    ReusingSecond();
    ReusingThird();
  }

  lemma ReusingSecond()
    ensures StepWithin(Reusing(1), Reusing(2)) && StepWithin(Reusing(2), Reusing(3))
  {
    assert Fork(Reusing(1), Reusing(2), 2, [Upid(3, INITIAL), Upid(2, 1)]);
    assert Exit(Reusing(2), Reusing(3), 2);
  }

  lemma ReusingThird()
    ensures Step(Reusing(3), Reusing(4)) && Step(Reusing(4), Reusing(5))
  {
    assert Observe(Reusing(3), Reusing(4));
    assert Fork(Reusing(4), Reusing(5), 3, [Upid(4, INITIAL), Upid(2, 1)]);
  }
}
