/** JoinNamespaceAndProcessInfoWithOptions and contextFromOptions of psgo.go: one report from inside a
    container. */
module Join {
  import opened Outcomes
  import opened Descriptors
  import opened Report
  import P = Process
  import I = IdMap

  /** What one call meets: the ID maps of the current process, the host processes in the container's
      cgroup, the user namespaces, the steps of joining the mount namespace, and what is read in there. */
  datatype World = World(
    uidMap: Outcome<seq<I.IDMap>>,
    gidMap: Outcome<seq<I.IDMap>>,
    hostProcesses: Outcome<seq<P.ProcessData>>,
    currentUserNS: Outcome<string>,
    pidUserNS: Outcome<string>,
    mountNS: Outcome<()>,
    unshare: Outcome<()>,
    setns: Outcome<()>,
    pids: Outcome<seq<string>>,
    fromPIDs: (seq<string>, bool) -> Outcome<seq<P.ProcessData>>,
    env: Env)

  // ---------- the options ----------

  /** contextFromOptions on values: the maps are filled in together, once. */
  function Filled(o: OptsData, w: World): (Outcome<()>, OptsData) {
    if !o.fillMappings then (Ok(()), o)
    else if !w.uidMap.Ok? then (w.uidMap.PropagateFailure(), o)
    else if !w.gidMap.Ok? then (w.gidMap.PropagateFailure(), o)
    else (Ok(()), OptsData(w.uidMap.value, w.gidMap.value, false))
  }

  class JoinNamespaceOpts {
    var uidMap: seq<I.IDMap>
    var gidMap: seq<I.IDMap>
    var fillMappings: bool

    constructor (fillMappings: bool)
      ensures View() == OptsData([], [], fillMappings)
    {
      uidMap, gidMap := [], [];
      this.fillMappings := fillMappings;
    }

    function View(): OptsData
      reads this
    {
      OptsData(uidMap, gidMap, fillMappings)
    }

    method Fill(w: World) returns (r: Outcome<()>)
      modifies this
      ensures (r, View()) == Filled(old(View()), w)
    {
      if fillMappings {
        var uidMappings := w.uidMap;
        if !uidMappings.Ok? {
          return uidMappings.PropagateFailure();
        }
        var gidMappings := w.gidMap;
        if !gidMappings.Ok? {
          return gidMappings.PropagateFailure();
        }
        uidMap := uidMappings.value;
        gidMap := gidMappings.value;
        fillMappings := false;
      }
      return Ok(());
    }
  }

  function ViewOf(options: JoinNamespaceOpts?): Option<OptsData>
    reads options
  {
    if options == null then None else Some(options.View())
  }

  function FilledOption(o: Option<OptsData>, w: World): (Outcome<()>, Option<OptsData>) {
    if o == None then (Ok(()), None)
    else (Filled(o.value, w).0, Some(Filled(o.value, w).1))
  }

  // ---------- inside the container ----------

  /** The work of the joined thread.  A failed read of the process's user namespace is forgotten unless a
      later step fails: the namespace then counts as a different one. */
  function Extracted(descs: seq<Descriptor>, ctx: Ctx, w: World): Outcome<Table> {
    var currentUserNS :- w.currentUserNS;
    var _ :- w.mountNS;
    var _ :- w.unshare;
    var _ :- w.setns;
    var pids :- w.pids;
    var joinUserNS := currentUserNS != if w.pidUserNS.Ok? then w.pidUserNS.value else "";
    var processes :- w.fromPIDs(pids, joinUserNS);
    TableOf(descs, processes, CellsOf(ctx, w.env))
  }

  /** The host processes are fetched only when a column wants them. */
  function HostsFor(descs: seq<Descriptor>, w: World): Outcome<seq<P.ProcessData>> {
    if OnHost(descs) then w.hostProcesses else Ok([])
  }

  /** The result of a call and the options after it */
  function Joined(descriptors: seq<string>, o: Option<OptsData>, w: World): (Outcome<Table>, Option<OptsData>) {
    var descs := Translated(descriptors);
    if !descs.Ok? then (descs.PropagateFailure(), o) else
    var (filled, o') := FilledOption(o, w);
    if !filled.Ok? then (filled.PropagateFailure(), o') else
    var hosts := HostsFor(descs.value, w);
    if !hosts.Ok? then (hosts.PropagateFailure(), o') else
    (Extracted(descs.value, Ctx(hosts.value, o'), w), o')
  }

  method ContextFromOptions(options: JoinNamespaceOpts?, w: World) returns (r: Outcome<()>)
    modifies options
    ensures (r, ViewOf(options)) == FilledOption(old(ViewOf(options)), w)
  {
    if options == null {
      return Ok(());
    }
    r := options.Fill(w);
  }

  method JoinNamespaceAndProcessInfoWithOptions(descriptors: seq<string>, options: JoinNamespaceOpts?, w: World)
    returns (r: Outcome<Table>)
    modifies options
    ensures (r, ViewOf(options)) == Joined(descriptors, old(ViewOf(options)), w)
  {
    var aixDescriptors := TranslateDescriptors(descriptors);
    if !aixDescriptors.Ok? {
      return aixDescriptors.PropagateFailure();
    }
    var descs := aixDescriptors.value;
    var filled := ContextFromOptions(options, w);
    if !filled.Ok? {
      return filled.PropagateFailure();
    }
    var hostProcesses := FetchHosts(descs, w);
    if !hostProcesses.Ok? {
      return hostProcesses.PropagateFailure();
    }
    r := Extract(descs, Ctx(hostProcesses.value, ViewOf(options)), w);
  }

  /** The loop that fetches the host processes for the first column that wants them. */
  method FetchHosts(descs: seq<Descriptor>, w: World) returns (r: Outcome<seq<P.ProcessData>>)
    ensures r == HostsFor(descs, w)
  {
    for j := 0 to |descs|
      invariant forall k :: 0 <= k < j ==> !descs[k].onHost
    {
      if descs[j].onHost {
        return w.hostProcesses;
      }
    }
    return Ok([]);
  }

  method Extract(descs: seq<Descriptor>, ctx: Ctx, w: World) returns (r: Outcome<Table>)
    ensures r == Extracted(descs, ctx, w)
  {
    if !w.currentUserNS.Ok? {
      return w.currentUserNS.PropagateFailure();
    }
    var pidUserNS := if w.pidUserNS.Ok? then w.pidUserNS.value else "";
    if !w.mountNS.Ok? {
      return w.mountNS.PropagateFailure();
    }
    if !w.unshare.Ok? {
      return w.unshare.PropagateFailure();
    }
    if !w.setns.Ok? {
      return w.setns.PropagateFailure();
    }
    if !w.pids.Ok? {
      return w.pids.PropagateFailure();
    }
    var joinUserNS := w.currentUserNS.value != pidUserNS;
    var processes := w.fromPIDs(w.pids.value, joinUserNS);
    if !processes.Ok? {
      return processes.PropagateFailure();
    }
    r := ProcessDescriptors(descs, processes.value, CellsOf(ctx, w.env));
  }

  // ---------- on demand ----------

  /** The same call with the host processes always fetched */
  function JoinedEagerly(descriptors: seq<string>, o: Option<OptsData>, w: World): (Outcome<Table>, Option<OptsData>) {
    var descs := Translated(descriptors);
    if !descs.Ok? then (descs.PropagateFailure(), o) else
    var (filled, o') := FilledOption(o, w);
    if !filled.Ok? then (filled.PropagateFailure(), o') else
    var hosts := w.hostProcesses;
    if !hosts.Ok? then (hosts.PropagateFailure(), o') else
    (Extracted(descs.value, Ctx(hosts.value, o'), w), o')
  }

  lemma ExtractedWithoutHosts(descriptors: seq<string>, hosts: seq<P.ProcessData>, o: Option<OptsData>, w: World)
    requires Translated(descriptors).Ok? && !OnHost(Translated(descriptors).value)
    ensures var descs := Translated(descriptors).value;
            Extracted(descs, Ctx([], o), w) == Extracted(descs, Ctx(hosts, o), w)
  {
    var pidUserNS := if w.pidUserNS.Ok? then w.pidUserNS.value else "";
    if w.currentUserNS.Ok? && w.pids.Ok? {
      var processes := w.fromPIDs(w.pids.value, w.currentUserNS.value != pidUserNS);
      if processes.Ok? {
        HostsIrrelevant(descriptors, processes.value, Ctx([], o), hosts, w.env);
      }
    }
  }

  /** Fetching on demand changes nothing: it gives what an eager fetch that succeeds gives, for all requests,
      options and processes; and it still does so when no column wants hosts, whatever they are, while an
      eager fetch that fails would lose the report. */
  lemma OnDemandIsEager(descriptors: seq<string>, o: Option<OptsData>, w: World, hosts: seq<P.ProcessData>)
    ensures w.hostProcesses.Ok? ==> Joined(descriptors, o, w) == JoinedEagerly(descriptors, o, w)
    ensures Translated(descriptors).Ok? && !OnHost(Translated(descriptors).value) ==>
              Joined(descriptors, o, w) == JoinedEagerly(descriptors, o, w.(hostProcesses := Ok(hosts)))
  {
    if Translated(descriptors).Ok? && !OnHost(Translated(descriptors).value) {
      var (_, o') := FilledOption(o, w);
      if w.hostProcesses.Ok? {
        ExtractedWithoutHosts(descriptors, w.hostProcesses.value, o', w);
      }
      ExtractedWithoutHosts(descriptors, hosts, o', w);
      SameExtract(Translated(descriptors).value, Ctx(hosts, o'), w, w.(hostProcesses := Ok(hosts)));
    }
  }

  lemma SameExtract(descs: seq<Descriptor>, ctx: Ctx, v: World, w: World)
    requires v == w.(hostProcesses := v.hostProcesses)
    ensures Extracted(descs, ctx, v) == Extracted(descs, ctx, w)
  {
  }

  // ---------- how a call ends ----------

  /** The steps of a call before the processes are read, in the order of the source; the ID maps are read only into
      options that ask for them, and the host processes only for a host column. */
  function StepsOf(fills: bool, wantsHosts: bool, w: World): seq<Outcome<()>> {
    [if fills then Done(w.uidMap) else Ok(()),
     if fills then Done(w.gidMap) else Ok(()),
     if wantsHosts then Done(w.hostProcesses) else Ok(()),
     Done(w.currentUserNS), Done(w.mountNS), Done(w.unshare), Done(w.setns), Done(w.pids)]
  }

  predicate WantsHosts(descs: seq<Descriptor>) {
    exists j :: 0 <= j < |descs| && descs[j].procFn in {HPID, HUSER, HGROUP}
  }

  lemma WantsExactly(descriptors: seq<string>, descs: seq<Descriptor>)
    requires Translated(descriptors) == Ok(descs)
    ensures OnHost(descs) <==> WantsHosts(descs)
  {
    forall j | 0 <= j < |descs|
      ensures descs[j].onHost <==> descs[j].procFn in {HPID, HUSER, HGROUP}
    {
      ResolvedFlagged(if descriptors == [] then DEFAULT_DESCRIPTORS else descriptors, j);
    }
  }

  /** The options after a call: both maps together, or as they were. */
  lemma OptionsAfter(descriptors: seq<string>, o: Option<OptsData>, w: World)
    ensures var fills := Translated(descriptors).Ok? && o.Some? && o.value.fillMappings && w.uidMap.Ok? && w.gidMap.Ok?;
            Joined(descriptors, o, w).1 ==
            if fills then Some(OptsData(w.uidMap.value, w.gidMap.value, false)) else o
  {
  }

  /** A call ends with the first step that fails, whatever the later ones would give. */
  lemma JoinedEnds(descriptors: seq<string>, o: Option<OptsData>, w: World)
    ensures !Translated(descriptors).Ok? ==> Joined(descriptors, o, w).0 == Translated(descriptors).PropagateFailure()
    ensures Translated(descriptors).Ok? ==>
              EndsWithFirst(Joined(descriptors, o, w).0,
                            StepsOf(o.Some? && o.value.fillMappings, WantsHosts(Translated(descriptors).value), w))
  {
    if Translated(descriptors).Ok? {
      var descs := Translated(descriptors).value;
      WantsExactly(descriptors, descs);
      StepsFirst(Joined(descriptors, o, w).0, o.Some? && o.value.fillMappings, WantsHosts(descs), w);
    }
  }

  lemma StepsFirst(r: Outcome<Table>, fills: bool, wantsHosts: bool, w: World)
    requires fills && !w.uidMap.Ok? ==> r == w.uidMap.PropagateFailure()
    requires fills && w.uidMap.Ok? && !w.gidMap.Ok? ==> r == w.gidMap.PropagateFailure()
    requires var prepared := fills ==> w.uidMap.Ok? && w.gidMap.Ok?;
             && (prepared && wantsHosts && !w.hostProcesses.Ok? ==> r == w.hostProcesses.PropagateFailure())
             && (prepared && (wantsHosts ==> w.hostProcesses.Ok?) ==> EndsInside(r, w))
    ensures EndsWithFirst(r, StepsOf(fills, wantsHosts, w))
  {
    var steps := StepsOf(fills, wantsHosts, w);
    forall i | 0 <= i < |steps| && !steps[i].Ok? && (forall j :: 0 <= j < i ==> steps[j].Ok?)
      ensures r == steps[i].PropagateFailure()
    {
      assert i > 0 ==> steps[0].Ok?;
      assert i > 1 ==> steps[1].Ok?;
      assert i > 2 ==> steps[2].Ok?;
      assert i > 3 ==> steps[3].Ok?;
      assert i > 4 ==> steps[4].Ok?;
      assert i > 5 ==> steps[5].Ok?;
      assert i > 6 ==> steps[6].Ok?;
    }
  }

  /** The joined thread ends with the first of its five steps that fails. */
  ghost predicate EndsInside(r: Outcome<Table>, w: World) {
    && (!w.currentUserNS.Ok? ==> r == w.currentUserNS.PropagateFailure())
    && (w.currentUserNS.Ok? && !w.mountNS.Ok? ==> r == w.mountNS.PropagateFailure())
    && (w.currentUserNS.Ok? && w.mountNS.Ok? && !w.unshare.Ok? ==> r == w.unshare.PropagateFailure())
    && (w.currentUserNS.Ok? && w.mountNS.Ok? && w.unshare.Ok? && !w.setns.Ok? ==> r == w.setns.PropagateFailure())
    && (w.currentUserNS.Ok? && w.mountNS.Ok? && w.unshare.Ok? && w.setns.Ok? && !w.pids.Ok? ==>
          r == w.pids.PropagateFailure())
  }

  /** The user namespace of the process is joined when it is known and another one, or not known while the caller's own
      has a name. */
  predicate JoinsUserNS(current: string, pidUserNS: Outcome<string>) {
    (pidUserNS.Ok? && pidUserNS.value != current) || (!pidUserNS.Ok? && current != "")
  }

  /** A call whose steps are all done gives the table of the processes read with or without joining the user namespace,
      or the failure of that reading. */
  lemma JoinedReads(descriptors: seq<string>, o: Option<OptsData>, w: World)
    requires Translated(descriptors).Ok?
    requires AllDone(StepsOf(o.Some? && o.value.fillMappings, WantsHosts(Translated(descriptors).value), w))
    ensures var descs, r := Translated(descriptors).value, Joined(descriptors, o, w);
            && w.currentUserNS.Ok? && w.pids.Ok? && (WantsHosts(descs) ==> w.hostProcesses.Ok?)
            && var ps := w.fromPIDs(w.pids.value, JoinsUserNS(w.currentUserNS.value, w.pidUserNS));
               var hosts := if WantsHosts(descs) then w.hostProcesses.value else [];
               r.0 == if ps.Ok? then TableOf(descs, ps.value, CellsOf(Ctx(hosts, r.1), w.env))
                      else ps.PropagateFailure()
  {
    var descs := Translated(descriptors).value;
    WantsExactly(descriptors, descs);
    var steps := StepsOf(o.Some? && o.value.fillMappings, WantsHosts(descs), w);
    assert steps[0].Ok? && steps[1].Ok? && steps[2].Ok? && steps[3].Ok?;
    assert steps[4].Ok? && steps[5].Ok? && steps[6].Ok? && steps[7].Ok?;
    ThreadReads(descs, Ctx(if WantsHosts(descs) then w.hostProcesses.value else [], Joined(descriptors, o, w).1), w);
  }

  lemma ThreadReads(descs: seq<Descriptor>, ctx: Ctx, w: World)
    requires w.currentUserNS.Ok? && w.mountNS.Ok? && w.unshare.Ok? && w.setns.Ok? && w.pids.Ok?
    ensures var ps := w.fromPIDs(w.pids.value, JoinsUserNS(w.currentUserNS.value, w.pidUserNS));
            Extracted(descs, ctx, w) ==
            if ps.Ok? then TableOf(descs, ps.value, CellsOf(ctx, w.env)) else ps.PropagateFailure()
  {
  }

  /** So a call that succeeds has done all its steps. */
  lemma JoinedDone(descriptors: seq<string>, o: Option<OptsData>, w: World)
    requires Joined(descriptors, o, w).0.Ok?
    ensures Translated(descriptors).Ok?
    ensures AllDone(StepsOf(o.Some? && o.value.fillMappings, WantsHosts(Translated(descriptors).value), w))
  {
    JoinedEnds(descriptors, o, w);
    AllDoneIfOk(Joined(descriptors, o, w).0,
                StepsOf(o.Some? && o.value.fillMappings, WantsHosts(Translated(descriptors).value), w));
  }

  lemma AllDoneIfOk(r: Outcome<Table>, steps: seq<Outcome<()>>)
    requires EndsWithFirst(r, steps) && r.Ok?
    ensures AllDone(steps)
  {
    DoneUpTo(r, steps, |steps|);
  }

  lemma {:induction false} DoneUpTo(r: Outcome<Table>, steps: seq<Outcome<()>>, n: nat)
    requires EndsWithFirst(r, steps) && r.Ok? && n <= |steps|
    ensures forall i :: 0 <= i < n ==> steps[i].Ok?
  {
    if n > 0 {
      DoneUpTo(r, steps, n - 1);
    }
  }

  /** A report that succeeds starts with its header, so its first row can be taken. */
  lemma JoinedHeader(descriptors: seq<string>, o: Option<OptsData>, w: World)
    ensures var (r, _) := Joined(descriptors, o, w);
            r.Ok? ==> Translated(descriptors).Ok? && r.value != []
                      && r.value[0] == Header(Translated(descriptors).value)
  {
    if Joined(descriptors, o, w).0.Ok? {
      JoinedDone(descriptors, o, w);
      JoinedReads(descriptors, o, w);
      var ps := w.fromPIDs(w.pids.value, JoinsUserNS(w.currentUserNS.value, w.pidUserNS));
      var hosts := if WantsHosts(Translated(descriptors).value) then w.hostProcesses.value else [];
      TableExact(Translated(descriptors).value, ps.value, CellsOf(Ctx(hosts, Joined(descriptors, o, w).1), w.env));
    }
  }
}
