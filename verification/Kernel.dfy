/** The kernel as the library sees it: processes with one pid in each PID namespace they can be seen
    from (pid_namespaces(7)), starting and exiting while the library reads /proc. */
module Kernel {

  type TaskId = nat
  type NsId = nat

  /** A PID namespace other than the initial one hangs below its parent. */
  datatype Namespace = Namespace(parent: NsId, level: nat)

  /** The pid of a process in one of its namespaces. */
  datatype Upid = Upid(nr: nat, ns: NsId)

  /** A process is its pids, from the initial namespace down to its own. */
  datatype Task = Task(numbers: seq<Upid>)
  {
    function Own(): NsId
      requires numbers != []
    {
      numbers[|numbers| - 1].ns
    }
  }

  /** `tasks` keeps the processes that exited since the observation began; their pids are not given
      out again before the next one begins. */
  datatype State = State(namespaces: map<NsId, Namespace>, tasks: map<TaskId, Task>, live: set<TaskId>)

  const INITIAL: NsId := 0

  ghost predicate Init(s: State) {
    && s.namespaces == map[INITIAL := Namespace(INITIAL, 0)]
    && s.tasks == map[0 := Task([Upid(1, INITIAL)])]
    && s.live == {0}
  }

  /** Pids for a process whose own namespace is ns: one for ns and for each of its ancestors. */
  ghost predicate Chained(namespaces: map<NsId, Namespace>, numbers: seq<Upid>) {
    && numbers != []
    && (forall i :: 0 <= i < |numbers| ==> numbers[i].ns in namespaces && namespaces[numbers[i].ns].level == i)
    && (forall i :: 0 < i < |numbers| ==> namespaces[numbers[i].ns].parent == numbers[i - 1].ns)
  }

  /** A pid is free when no process that still counts has it in that namespace. */
  ghost predicate Free(s: State, upid: Upid) {
    forall t <- s.tasks :: upid !in s.tasks[t].numbers
  }

  /** fork: a new process gets a free pid in every namespace of its chain; a parent that called
      setns(2) on a PID namespace starts its children there, so any namespace may be the child's. */
  ghost predicate Fork(s: State, s': State, t: TaskId, numbers: seq<Upid>) {
    && t !in s.tasks
    && Chained(s.namespaces, numbers)
    && (forall upid <- numbers :: Free(s, upid))
    && s' == s.(tasks := s.tasks[t := Task(numbers)], live := s.live + {t})
  }

  /** clone(CLONE_NEWPID): the new process is the first in a new namespace below its parent's. */
  ghost predicate CloneNewPid(s: State, s': State, creator: TaskId, t: TaskId, ns: NsId, numbers: seq<Upid>) {
    && creator in s.live && creator in s.tasks && s.tasks[creator].numbers != []
    && t !in s.tasks && ns !in s.namespaces
    && var own := s.tasks[creator].Own();
    && own in s.namespaces
    && var namespaces := s.namespaces[ns := Namespace(own, s.namespaces[own].level + 1)];
    && Chained(namespaces, numbers)
    && numbers[|numbers| - 1] == Upid(1, ns)
    && (forall upid <- numbers :: Free(s, upid))
    && s' == State(namespaces, s.tasks[t := Task(numbers)], s.live + {t})
  }

  ghost predicate Exit(s: State, s': State, t: TaskId) {
    t in s.live && s' == s.(live := s.live - {t})
  }

  /** An observation begins: what exited before it no longer counts. */
  ghost predicate Observe(s: State, s': State) {
    s' == s.(tasks := map t | t in s.tasks && t in s.live :: s.tasks[t])
  }

  /** A namespace that no process and no other namespace refers to is gone, and its name is free. */
  ghost predicate Release(s: State, s': State, ns: NsId) {
    && ns in s.namespaces && ns != INITIAL
    && (forall t <- s.tasks :: forall upid <- s.tasks[t].numbers :: upid.ns != ns)
    && (forall n <- s.namespaces :: s.namespaces[n].parent != ns)
    && s' == s.(namespaces := map n | n in s.namespaces && n != ns :: s.namespaces[n])
  }

  /** A step that goes on with the observation. */
  ghost predicate StepWithin(s: State, s': State) {
    || (exists t: TaskId, numbers: seq<Upid> :: Fork(s, s', t, numbers))
    || (exists creator: TaskId, t: TaskId, ns: NsId, numbers: seq<Upid> :: CloneNewPid(s, s', creator, t, ns, numbers))
    || (exists t: TaskId :: Exit(s, s', t))
    || (exists ns: NsId :: Release(s, s', ns))
  }

  ghost predicate Step(s: State, s': State) {
    StepWithin(s, s') || Observe(s, s')
  }

  ghost predicate Run(states: seq<State>) {
    && states != []
    && Init(states[0])
    && forall i :: 0 < i < |states| ==> Step(states[i - 1], states[i])
  }

  // ---------- what every reachable state keeps ----------

  ghost predicate TasksChained(s: State) {
    forall t <- s.tasks :: Chained(s.namespaces, s.tasks[t].numbers)
  }

  /** No two processes that still count have the same pid in the same namespace. */
  ghost predicate PidsUnique(s: State) {
    forall t <- s.tasks, u <- s.tasks, upid: Upid ::
      upid in s.tasks[t].numbers && upid in s.tasks[u].numbers ==> t == u
  }

  ghost predicate Valid(s: State) {
    && s.live <= s.tasks.Keys
    && TasksChained(s)
    && PidsUnique(s)
  }

  lemma ForkKeepsValid(s: State, s': State, t: TaskId, numbers: seq<Upid>)
    requires Valid(s) && Fork(s, s', t, numbers)
    ensures Valid(s')
  {
  }

  lemma ChainedMore(a: map<NsId, Namespace>, b: map<NsId, Namespace>, numbers: seq<Upid>)
    requires Chained(a, numbers)
    requires forall upid <- numbers :: upid.ns in b && b[upid.ns] == a[upid.ns]
    ensures Chained(b, numbers)
  {
    assert forall i :: 0 <= i < |numbers| ==> numbers[i] in numbers;
  }

  lemma CloneKeepsValid(s: State, s': State, creator: TaskId, t: TaskId, ns: NsId, numbers: seq<Upid>)
    requires Valid(s) && CloneNewPid(s, s', creator, t, ns, numbers)
    ensures Valid(s')
  {
    forall u | u in s.tasks
      ensures Chained(s'.namespaces, s.tasks[u].numbers)
    {
      ChainedMore(s.namespaces, s'.namespaces, s.tasks[u].numbers);
    }
  }

  lemma ReleaseKeepsValid(s: State, s': State, ns: NsId)
    requires Valid(s) && Release(s, s', ns)
    ensures Valid(s')
  {
    forall u | u in s.tasks
      ensures Chained(s'.namespaces, s.tasks[u].numbers)
    {
      ChainedMore(s.namespaces, s'.namespaces, s.tasks[u].numbers);
    }
  }

  lemma StepKeepsValid(s: State, s': State)
    requires Valid(s) && Step(s, s')
    ensures Valid(s')
  {
    if t: TaskId, numbers: seq<Upid> :| Fork(s, s', t, numbers) {
      ForkKeepsValid(s, s', t, numbers);
    } else if creator: TaskId, t: TaskId, ns: NsId, numbers: seq<Upid> :| CloneNewPid(s, s', creator, t, ns, numbers) {
      CloneKeepsValid(s, s', creator, t, ns, numbers);
    } else if ns: NsId :| Release(s, s', ns) {
      ReleaseKeepsValid(s, s', ns);
    }
  }

  /** Every state of every run is valid, whatever forks, namespaces, exits and observations led to it. */
  lemma {:induction false} RunsStayValid(states: seq<State>, i: nat)
    requires Run(states) && i < |states|
    ensures Valid(states[i])
  {
    if i == 0 {
      assert states[0].tasks.Keys == {0};
    } else {
      RunsStayValid(states, i - 1);
      StepKeepsValid(states[i - 1], states[i]);
    }
  }

  // ---------- what the invariant is for ----------

  /** Processes of the same own namespace share all their namespaces. */
  lemma {:induction false} SameChain(s: State, t: TaskId, u: TaskId, k: nat)
    requires Valid(s) && t in s.tasks && u in s.tasks
    requires s.tasks[t].numbers != [] && s.tasks[u].numbers != []
    requires s.tasks[t].Own() == s.tasks[u].Own()
    requires k < |s.tasks[t].numbers|
    ensures |s.tasks[t].numbers| == |s.tasks[u].numbers|
    ensures s.tasks[t].numbers[k].ns == s.tasks[u].numbers[k].ns
    decreases |s.tasks[t].numbers| - k
  {
    var a, b := s.tasks[t].numbers, s.tasks[u].numbers;
    assert Chained(s.namespaces, a) && Chained(s.namespaces, b);
    assert s.namespaces[a[|a| - 1].ns].level == |a| - 1 && s.namespaces[b[|b| - 1].ns].level == |b| - 1;
    if k < |a| - 1 {
      SameChain(s, t, u, k + 1);
      assert s.namespaces[a[k + 1].ns].parent == a[k].ns && s.namespaces[b[k + 1].ns].parent == b[k].ns;
    }
  }

  /** In one own namespace a pid at any level names one process. */
  lemma PidNames(s: State, t: TaskId, u: TaskId, k: nat)
    requires Valid(s) && t in s.tasks && u in s.tasks
    requires s.tasks[t].numbers != [] && s.tasks[u].numbers != []
    requires s.tasks[t].Own() == s.tasks[u].Own()
    requires k < |s.tasks[t].numbers| && k < |s.tasks[u].numbers|
    requires s.tasks[t].numbers[k].nr == s.tasks[u].numbers[k].nr
    ensures t == u
  {
    SameChain(s, t, u, k);
    var upid := s.tasks[t].numbers[k];
    assert upid == s.tasks[u].numbers[k];
    assert upid in s.tasks[t].numbers && upid in s.tasks[u].numbers;
  }
}
