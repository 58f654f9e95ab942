/** What joining every PID namespace once, as JoinNamespaceAndProcessInfoByPidsWithOptions of psgo.go does, is for: that
    no process is reported twice. */
module Duplicates {
  import opened Outcomes
  import opened Kernel
  import HostMatch
  import MatchLimits
  import Merge

  /** The process has a pid in the namespace, so the namespace's /proc lists it. */
  predicate SeenFrom(task: Task, ns: NsId) {
    exists k :: 0 <= k < |task.numbers| && task.numbers[k].ns == ns
  }

  /** Namespace a is b or one of its ancestors. */
  predicate IsAbove(namespaces: map<NsId, Namespace>, a: NsId, b: NsId)
    decreases if b in namespaces then namespaces[b].level else 0
  {
    || a == b
    || (&& b in namespaces && namespaces[b].parent in namespaces
        && namespaces[namespaces[b].parent].level < namespaces[b].level
        && IsAbove(namespaces, a, namespaces[b].parent))
  }

  /** The namespaces of a process are those above its innermost one. */
  lemma {:induction false} ChainIsAbove(namespaces: map<NsId, Namespace>, numbers: seq<Upid>, a: NsId, k: nat)
    requires Chained(namespaces, numbers) && k < |numbers|
    ensures IsAbove(namespaces, a, numbers[k].ns) <==> exists j :: 0 <= j <= k && numbers[j].ns == a
  {
    if k > 0 {
      ChainIsAbove(namespaces, numbers, a, k - 1);
    } else if a != numbers[0].ns {
      assert namespaces[numbers[0].ns].level == 0;
    }
  }

  lemma SeenIsAbove(s: State, t: TaskId, a: NsId)
    requires Valid(s) && t in s.tasks && s.tasks[t].numbers != []
    ensures SeenFrom(s.tasks[t], a) <==> IsAbove(s.namespaces, a, s.tasks[t].Own())
  {
    var numbers := s.tasks[t].numbers;
    assert Chained(s.namespaces, numbers);
    ChainIsAbove(s.namespaces, numbers, a, |numbers| - 1);
  }

  /** Of two namespaces of one process one is above the other. */
  lemma BothAbove(s: State, x: TaskId, a: NsId, b: NsId)
    requires Valid(s) && x in s.tasks && SeenFrom(s.tasks[x], a) && SeenFrom(s.tasks[x], b)
    ensures IsAbove(s.namespaces, a, b) || IsAbove(s.namespaces, b, a)
  {
    var numbers := s.tasks[x].numbers;
    assert Chained(s.namespaces, numbers);
    var i :| 0 <= i < |numbers| && numbers[i].ns == a;
    var j :| 0 <= j < |numbers| && numbers[j].ns == b;
    if i <= j {
      ChainIsAbove(s.namespaces, numbers, a, j);
    } else {
      ChainIsAbove(s.namespaces, numbers, b, i);
    }
  }

  /** Some living process is seen from both namespaces. */
  ghost predicate Shared(s: State, a: NsId, b: NsId) {
    exists x :: x in s.live && x in s.tasks && SeenFrom(s.tasks[x], a) && SeenFrom(s.tasks[x], b)
  }

  /** In every reachable state: the namespaces of two living processes share a process exactly when one of them is
      above the other. */
  lemma SharedExactly(states: seq<State>, n: nat, t: TaskId, u: TaskId)
    requires Run(states) && n < |states| && t in states[n].live && u in states[n].live
    requires t in states[n].tasks && u in states[n].tasks
    requires states[n].tasks[t].numbers != [] && states[n].tasks[u].numbers != []
    ensures var s := states[n];
            var a, b := s.tasks[t].Own(), s.tasks[u].Own();
            Shared(s, a, b) <==> IsAbove(s.namespaces, a, b) || IsAbove(s.namespaces, b, a)
  {
    var s := states[n];
    var a, b := s.tasks[t].Own(), s.tasks[u].Own();
    RunsStayValid(states, n);
    if x :| x in s.live && x in s.tasks && SeenFrom(s.tasks[x], a) && SeenFrom(s.tasks[x], b) {
      BothAbove(s, x, a, b);
    }
    SeenIsAbove(s, t, a);
    SeenIsAbove(s, t, b);
    SeenIsAbove(s, u, a);
    SeenIsAbove(s, u, b);
  }

  /** links[i] is the namespace link of a living process. */
  ghost predicate LinkOf(s: State, links: Merge.Links, i: nat, t: TaskId) {
    && i < |links| && t in s.live && t in s.tasks && s.tasks[t].numbers != []
    && links[i] == Ok(HostMatch.NsLink(s.tasks[t].Own()))
  }

  /** Two kept requests are in different namespaces; they share a process, which the reports of both then list,
      exactly when their namespaces are nested. */
  lemma KeptShareExactly(states: seq<State>, n: nat, links: Merge.Links, i: nat, j: nat, t: TaskId, u: TaskId)
    requires Run(states) && n < |states|
    requires LinkOf(states[n], links, i, t) && LinkOf(states[n], links, j, u) && i != j
    requires i in Merge.Firsts(links, |links|) && j in Merge.Firsts(links, |links|)
    ensures var s := states[n];
            var a, b := s.tasks[t].Own(), s.tasks[u].Own();
            a != b && (Shared(s, a, b) <==> IsAbove(s.namespaces, a, b) || IsAbove(s.namespaces, b, a))
  {
    Merge.FirstsExact(links, |links|, i);
    Merge.FirstsExact(links, |links|, j);
    SharedExactly(states, n, t, u);
  }

  /** A container in a container: process 2, in the inner one, is 2 in the outer one, where process 1 is 1.  Both are
      kept, and 2 is seen from both. */
  lemma NestedListedTwice() returns (states: seq<State>, links: Merge.Links)
    ensures Run(states) && |states| == 3 && |links| == 2
    ensures LinkOf(states[2], links, 0, 1) && LinkOf(states[2], links, 1, 2)
    ensures Merge.Firsts(links, 2) == [0, 1]
    ensures SeenFrom(states[2].tasks[2], states[2].tasks[1].Own())
    ensures SeenFrom(states[2].tasks[2], states[2].tasks[2].Own())
  {
    states := MatchLimits.NestedRun(2, 2);
    MatchLimits.NestedRuns(2, 2);
    var s := states[2];
    assert s == MatchLimits.Nested(2, 2);
    var outer, inner := s.tasks[1], s.tasks[2];
    assert outer.Own() == 1 && inner.Own() == 2;
    links := [Ok(HostMatch.NsLink(1)), Ok(HostMatch.NsLink(2))];
    TwoKept(links, 1, 2);
    assert inner.numbers[1].ns == 1 && inner.numbers[2].ns == 2;
  }

  lemma TwoKept(links: Merge.Links, a: NsId, b: NsId)
    requires links == [Ok(HostMatch.NsLink(a)), Ok(HostMatch.NsLink(b))] && a != b
    ensures Merge.Firsts(links, 2) == [0, 1]
  {
    if HostMatch.NsLink(a) == HostMatch.NsLink(b) {
      HostMatch.NsLinkNames(a, b);
    }
    assert Merge.Seen(links, 0) == {} && Merge.Firsts(links, 0) == [];
    assert Merge.Seen(links, 1) == {HostMatch.NsLink(a)} && Merge.Firsts(links, 1) == [0];
  }
}
