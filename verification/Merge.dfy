/** JoinNamespaceAndProcessInfoByPidsWithOptions of psgo.go: one report for many containers. */
module Merge {
  import opened Outcomes
  import opened Descriptors
  import opened Report
  import opened Join

  // ---------- one process for each PID namespace ----------

  /** links[i] is what reading the PID namespace of pids[i] gives. */
  type Links = seq<Outcome<string>>

  /** The namespaces of the readable pids among the first n */
  function Seen(links: Links, n: nat): set<string>
    requires n <= |links|
  {
    if n == 0 then {} else Seen(links, n - 1) + if links[n - 1].Ok? then {links[n - 1].value} else {}
  }

  /** The pids kept among the first n, by their index */
  function Firsts(links: Links, n: nat): (kept: seq<nat>)
    requires n <= |links|
    ensures forall k :: 0 <= k < |kept| ==> kept[k] < n
    ensures forall k, l :: 0 <= k < l < |kept| ==> kept[k] < kept[l]
  {
    if n == 0 then []
    else
      var link := links[n - 1];
      Firsts(links, n - 1) + if link.Ok? && link.value !in Seen(links, n - 1) then [n - 1] else []
  }

  lemma {:induction false} SeenExact(links: Links, n: nat, ns: string)
    requires n <= |links|
    ensures ns in Seen(links, n) <==> exists i :: 0 <= i < n && links[i] == Ok(ns)
  {
    if n > 0 {
      SeenExact(links, n - 1, ns);
      if links[n - 1] == Ok(ns) {
        assert links[n - 1] == Ok(ns);
      }
    }
  }

  /** The kept pids are exactly the first readable one of every namespace; they are kept in the order of the
      request. */
  lemma {:induction false} FirstsExact(links: Links, n: nat, i: nat)
    requires i < n <= |links|
    ensures i in Firsts(links, n) <==> links[i].Ok? && forall j :: 0 <= j < i ==> links[j] != links[i]
    ensures forall k, l :: 0 <= k < l < |Firsts(links, n)| ==> Firsts(links, n)[k] < Firsts(links, n)[l]
    decreases n
  {
    if i < n - 1 {
      FirstsExact(links, n - 1, i);
    } else if links[i].Ok? {
      SeenExact(links, i, links[i].value);
    }
  }

  // ---------- the merge ----------

  /** One report for the k-th kept pid, with the options as they are then */
  type Joiner = (Option<OptsData>, nat) -> (Outcome<Table>, Option<OptsData>)

  function OptsBefore(join: Joiner, o: Option<OptsData>, k: nat): Option<OptsData> {
    if k == 0 then o else join(OptsBefore(join, o, k - 1), k - 1).1
  }

  function Result(join: Joiner, o: Option<OptsData>, k: nat): Outcome<Table> {
    join(OptsBefore(join, o, k), k).0
  }

  function Tail(table: Table): Table {
    if table == [] then [] else table[1..]
  }

  /** The rows of the merged report after the first n kept pids */
  function Merged(join: Joiner, o: Option<OptsData>, n: nat): Table {
    if n == 0 then []
    else
      var r := Result(join, o, n - 1);
      Merged(join, o, n - 1)
      + if r.Ok? then (if n - 1 == 0 then r.value else Tail(r.value)) else []
  }

  /** The data rows of all pids that are not skipped, one pid after the other */
  function DataRows(join: Joiner, o: Option<OptsData>, n: nat): Table {
    if n == 0 then []
    else
      var r := Result(join, o, n - 1);
      DataRows(join, o, n - 1) + if r.Ok? then Tail(r.value) else []
  }

  ghost predicate HeadersAre(join: Joiner, header: seq<string>) {
    forall o: Option<OptsData>, k: nat :: join(o, k).0.Ok? ==>
      join(o, k).0.value != [] && join(o, k).0.value[0] == header
  }

  /** The merged report is the data rows behind one header, if the first kept pid is not skipped; if it is
      skipped there is no header, because the header is taken from the first pid only. */
  lemma {:induction false} MergedExact(join: Joiner, o: Option<OptsData>, header: seq<string>, n: nat)
    requires HeadersAre(join, header)
    ensures Merged(join, o, n) ==
            (if n > 0 && Result(join, o, 0).Ok? then [header] else []) + DataRows(join, o, n)
  {
    if n == 1 {
      var r := Result(join, o, 0);
      assert Merged(join, o, 0) == [] && DataRows(join, o, 0) == [];
      assert join(OptsBefore(join, o, 0), 0).0 == r;
      if r.Ok? {
        assert r.value == [header] + Tail(r.value);
      }
    } else if n > 1 {
      MergedExact(join, o, header, n - 1);
    }
  }

  /** How many data rows the first n kept pids have */
  function RowsOf(join: Joiner, o: Option<OptsData>, n: nat): nat {
    if n == 0 then 0
    else
      var r := Result(join, o, n - 1);
      RowsOf(join, o, n - 1) + if r.Ok? && r.value != [] then |r.value| - 1 else 0
  }

  /** Where every row stands: row i of the k-th kept pid behind the header, if there is one, and behind all rows of the
      pids before. */
  lemma {:induction false} MergedRowAt(join: Joiner, o: Option<OptsData>, header: seq<string>, n: nat, k: nat, i: nat)
    requires HeadersAre(join, header) && k < n && Result(join, o, k).Ok? && i + 1 < |Result(join, o, k).value|
    ensures var m, before := Merged(join, o, n), if Result(join, o, 0).Ok? then 1 else 0;
            && |m| == before + RowsOf(join, o, n)
            && (before == 1 ==> m[0] == header)
            && before + RowsOf(join, o, k) + i < |m|
            && m[before + RowsOf(join, o, k) + i] == Result(join, o, k).value[i + 1]
  {
    MergedExact(join, o, header, n);
    DataRowAt(join, o, header, n, k, i);
  }

  lemma {:induction false} DataRowAt(join: Joiner, o: Option<OptsData>, header: seq<string>, n: nat, k: nat, i: nat)
    requires HeadersAre(join, header) && k < n && Result(join, o, k).Ok? && i + 1 < |Result(join, o, k).value|
    ensures |DataRows(join, o, n)| == RowsOf(join, o, n)
    ensures RowsOf(join, o, k) + i < |DataRows(join, o, n)|
    ensures DataRows(join, o, n)[RowsOf(join, o, k) + i] == Result(join, o, k).value[i + 1]
  {
    DataRowsCounted(join, o, n);
    DataRowsCounted(join, o, n - 1);
    if k < n - 1 {
      DataRowAt(join, o, header, n - 1, k, i);
    }
  }

  lemma {:induction false} DataRowsCounted(join: Joiner, o: Option<OptsData>, n: nat)
    ensures |DataRows(join, o, n)| == RowsOf(join, o, n)
  {
    if n > 0 {
      DataRowsCounted(join, o, n - 1);
    }
  }

  // ---------- the options over a whole run ----------

  /** The k-th kept pid gets as far as its context. */
  predicate Contextual(join: Joiner, o: Option<OptsData>, k: nat, worlds: seq<World>)
    requires k < |worlds|
  {
    FilledOption(OptsBefore(join, o, k), worlds[k]).0.Ok?
  }

  /** A joiner that treats the options as the calls do */
  ghost predicate Fills(join: Joiner, worlds: seq<World>) {
    forall o: Option<OptsData>, k: nat :: k < |worlds| ==> join(o, k).1 == FilledOption(o, worlds[k]).1
  }

  predicate BothRead(w: World) {
    w.uidMap.Ok? && w.gidMap.Ok?
  }

  /** The options after both maps are read */
  function Installed(w: World): OptsData
    requires BothRead(w)
  {
    OptsData(w.uidMap.value, w.gidMap.value, false)
  }

  /** The maps are installed at most once and together: until some pid reads both the options are the
      caller's, from then on they hold what that pid read. */
  lemma {:induction false} InstalledOnce(join: Joiner, o: OptsData, worlds: seq<World>, n: nat)
    requires Fills(join, worlds) && o.fillMappings && n <= |worlds|
    ensures (forall k :: 0 <= k < n ==> !BothRead(worlds[k])) ==> OptsBefore(join, Some(o), n) == Some(o)
    ensures forall k :: 0 <= k < n && BothRead(worlds[k]) && (forall l :: 0 <= l < k ==> !BothRead(worlds[l])) ==>
              OptsBefore(join, Some(o), n) == Some(Installed(worlds[k]))
  {
    if n > 0 {
      InstalledOnce(join, o, worlds, n - 1);
      FillStep(join, o, worlds, n - 1);
      if m :| 0 <= m < n - 1 && BothRead(worlds[m]) {
        var k := FirstBothRead(worlds, n - 1);
        assert OptsBefore(join, Some(o), n - 1) == Some(Installed(worlds[k]));
      }
    }
  }

  lemma FillStep(join: Joiner, o: OptsData, worlds: seq<World>, k: nat)
    requires Fills(join, worlds) && k < |worlds|
    ensures var before, after := OptsBefore(join, Some(o), k), OptsBefore(join, Some(o), k + 1);
            && (before == Some(o) && o.fillMappings ==>
                  after == if BothRead(worlds[k]) then Some(Installed(worlds[k]))
                           else before)
            && (before.Some? && !before.value.fillMappings ==> after == before)
  {
    var before := OptsBefore(join, Some(o), k);
    assert OptsBefore(join, Some(o), k + 1) == FilledOption(before, worlds[k]).1;
  }

  lemma {:induction false} FirstBothRead(worlds: seq<World>, n: nat) returns (k: nat)
    requires n <= |worlds| && exists m :: 0 <= m < n && BothRead(worlds[m])
    ensures k < n && BothRead(worlds[k]) && forall l :: 0 <= l < k ==> !BothRead(worlds[l])
  {
    if m :| 0 <= m < n - 1 && BothRead(worlds[m]) {
      k := FirstBothRead(worlds, n - 1);
    } else {
      k := n - 1;
    }
  }

  /** All pids whose context is built work with the same two maps, whatever the pattern of failed reads. */
  lemma SameMapsForAll(join: Joiner, o: OptsData, worlds: seq<World>, i: nat, j: nat)
    requires Fills(join, worlds) && o.fillMappings && i < |worlds| && j < |worlds|
    requires Contextual(join, Some(o), i, worlds) && Contextual(join, Some(o), j, worlds)
    ensures OptsBefore(join, Some(o), i + 1) == OptsBefore(join, Some(o), j + 1)
    ensures OptsBefore(join, Some(o), i + 1).Some? && !OptsBefore(join, Some(o), i + 1).value.fillMappings
  {
    var k := ContextReads(join, o, worlds, i);
    var l := ContextReads(join, o, worlds, j);
    InstalledOnce(join, o, worlds, i + 1);
    InstalledOnce(join, o, worlds, j + 1);
  }

  /** A context is built only when some pid up to this one has read both maps. */
  lemma ContextReads(join: Joiner, o: OptsData, worlds: seq<World>, i: nat) returns (k: nat)
    requires Fills(join, worlds) && o.fillMappings && i < |worlds| && Contextual(join, Some(o), i, worlds)
    ensures k <= i && BothRead(worlds[k]) && forall l :: 0 <= l < k ==> !BothRead(worlds[l])
  {
    InstalledOnce(join, o, worlds, i);
    assert BothRead(worlds[i]) || exists m :: 0 <= m < i && BothRead(worlds[m]);
    k := FirstBothRead(worlds, i + 1);
  }

  // ---------- the call ----------

  /** What the kept pids meet, one world each */
  function KeptWorlds(links: Links, worlds: seq<World>): (ws: seq<World>)
    requires |links| == |worlds|
    ensures |ws| == |Firsts(links, |links|)|
    ensures forall k :: 0 <= k < |ws| ==>
              Firsts(links, |links|)[k] < |worlds| && ws[k] == worlds[Firsts(links, |links|)[k]]
  {
    var kept := Firsts(links, |links|);
    seq(|kept|, k requires 0 <= k < |kept| && kept[k] < |worlds| => worlds[kept[k]])
  }

  function JoinerOf(descriptors: seq<string>, ws: seq<World>): Joiner {
    (o: Option<OptsData>, k: nat) => if k < |ws| then Joined(descriptors, o, ws[k]) else (Panic, o)
  }

  lemma JoinerHeaders(descriptors: seq<string>, ws: seq<World>)
    requires Translated(descriptors).Ok?
    ensures HeadersAre(JoinerOf(descriptors, ws), Header(Translated(descriptors).value))
  {
    forall o: Option<OptsData>, k: nat | JoinerOf(descriptors, ws)(o, k).0.Ok?
      ensures var r := JoinerOf(descriptors, ws)(o, k).0.value;
              r != [] && r[0] == Header(Translated(descriptors).value)
    {
      JoinedHeader(descriptors, o, ws[k]);
    }
  }

  lemma JoinerFills(descriptors: seq<string>, ws: seq<World>)
    requires Translated(descriptors).Ok?
    ensures Fills(JoinerOf(descriptors, ws), ws)
  {
  }

  /** The first link that is neither readable nor of a process that is gone ends the call. */
  ghost predicate EndsWithLink<T>(links: Links, r: Outcome<T>) {
    forall i ::
      (&& 0 <= i < |links| && !links[i].Ok? && links[i] != Err(NotExist)
       && (forall j :: 0 <= j < i ==> links[j].Ok? || links[j] == Err(NotExist))) ==>
        r == links[i].PropagateFailure()
  }

  /** The first loop: the pids to join, each by its place in the request. */
  method SelectPids(links: Links) returns (r: Outcome<seq<nat>>)
    ensures r.Ok? <==> forall i :: 0 <= i < |links| ==> links[i].Ok? || links[i] == Err(NotExist)
    ensures r.Ok? ==> r.value == Firsts(links, |links|)
    ensures EndsWithLink(links, r)
  {
    var nsMap: map<string, bool> := map[];
    var pidList: seq<nat> := [];
    for i := 0 to |links|
      invariant forall j :: 0 <= j < i ==> links[j].Ok? || links[j] == Err(NotExist)
      invariant nsMap.Keys == Seen(links, i) && pidList == Firsts(links, i)
    {
      var ns := links[i];
      if !ns.Ok? {
        if ns.IsNotExist() {
          continue;
        }
        return ns.PropagateFailure();
      }
      if ns.value !in nsMap {
        nsMap := nsMap[ns.value := true];
        pidList := pidList + [i];
      }
    }
    return Ok(pidList);
  }

  /** Each of the first n kept pids gave its report or was gone. */
  predicate NoneFailed(join: Joiner, o: Option<OptsData>, n: nat) {
    n == 0 ||
    (NoneFailed(join, o, n - 1) && (Result(join, o, n - 1).Ok? || Result(join, o, n - 1) == Err(NotExist)))
  }

  lemma {:induction false} NoneFailedExact(join: Joiner, o: Option<OptsData>, n: nat)
    ensures NoneFailed(join, o, n) <==>
            forall k :: 0 <= k < n ==> Result(join, o, k).Ok? || Result(join, o, k) == Err(NotExist)
  {
    if n > 0 {
      NoneFailedExact(join, o, n - 1);
    }
  }

  /** What the second loop leaves: the merged rows, when every kept pid gave its report or was gone, and the options
      after all of them; else the first other failure, and the options after that. */
  ghost predicate Merges(join: Joiner, o: Option<OptsData>, n: nat, r: Outcome<Table>, o': Option<OptsData>) {
    && (r.Ok? <==> forall k :: 0 <= k < n ==> Result(join, o, k).Ok? || Result(join, o, k) == Err(NotExist))
    && (r.Ok? ==> r == Ok(Merged(join, o, n)) && o' == OptsBefore(join, o, n))
    && forall k ::
         (&& 0 <= k < n && !Result(join, o, k).Ok? && Result(join, o, k) != Err(NotExist)
          && (forall l :: 0 <= l < k ==> Result(join, o, l).Ok? || Result(join, o, l) == Err(NotExist))) ==>
           r == Result(join, o, k).PropagateFailure() && o' == OptsBefore(join, o, k + 1)
  }

  lemma MergesAll(join: Joiner, o: Option<OptsData>, n: nat)
    requires NoneFailed(join, o, n)
    ensures Merges(join, o, n, Ok(Merged(join, o, n)), OptsBefore(join, o, n))
  {
    NoneFailedExact(join, o, n);
  }

  lemma MergesFailed(join: Joiner, o: Option<OptsData>, n: nat, k: nat, r: Outcome<Table>)
    requires k < n && NoneFailed(join, o, k) && !Result(join, o, k).Ok? && Result(join, o, k) != Err(NotExist)
    requires r == Result(join, o, k).PropagateFailure()
    ensures Merges(join, o, n, r, OptsBefore(join, o, k + 1))
  {
    NoneFailedExact(join, o, k);
    forall l
      | && 0 <= l < n && !Result(join, o, l).Ok? && Result(join, o, l) != Err(NotExist)
        && forall i :: 0 <= i < l ==> Result(join, o, i).Ok? || Result(join, o, i) == Err(NotExist)
      ensures l == k
    {
      assert k < l ==> Result(join, o, k).Ok? || Result(join, o, k) == Err(NotExist);
    }
  }

  /** One iteration of the second loop */
  method JoinNext(descriptors: seq<string>, options: JoinNamespaceOpts?, ws: seq<World>, k: nat,
                  ghost join: Joiner, ghost o: Option<OptsData>) returns (pidData: Outcome<Table>)
    requires k < |ws| && join == JoinerOf(descriptors, ws) && ViewOf(options) == OptsBefore(join, o, k)
    modifies options
    ensures pidData == Result(join, o, k) && ViewOf(options) == OptsBefore(join, o, k + 1)
    ensures pidData.Ok? ==> pidData.value != []
  {
    JoinedHeader(descriptors, ViewOf(options), ws[k]);
    pidData := JoinNamespaceAndProcessInfoWithOptions(descriptors, options, ws[k]);
  }

  /** The second loop: one report after the other, with the options that the ones before left behind; `stop` is where it
      ends. */
  method MergeLoop(descriptors: seq<string>, options: JoinNamespaceOpts?, ws: seq<World>, ghost join: Joiner,
                   ghost o: Option<OptsData>) returns (r: Outcome<Table>, ghost stop: nat)
    requires join == JoinerOf(descriptors, ws) && o == ViewOf(options)
    modifies options
    ensures stop <= |ws| && NoneFailed(join, o, stop)
    ensures r.Ok? ==> stop == |ws| && r.value == Merged(join, o, stop)
    ensures r.Ok? ==> ViewOf(options) == OptsBefore(join, o, stop)
    ensures !r.Ok? ==> stop < |ws| && Result(join, o, stop) == r && r != Err(NotExist)
    ensures !r.Ok? ==> ViewOf(options) == OptsBefore(join, o, stop + 1)
  {
    var data: Table := [];
    for k := 0 to |ws|
      invariant NoneFailed(join, o, k)
      invariant data == Merged(join, o, k)
      invariant ViewOf(options) == OptsBefore(join, o, k)
    {
      var pidData;
      pidData, data := MergeNext(descriptors, options, ws, k, join, o, data);
      if !pidData.Ok? && !pidData.IsNotExist() {
        return pidData, k;
      }
    }
    return Ok(data), |ws|;
  }

  method MergeReports(descriptors: seq<string>, options: JoinNamespaceOpts?, ws: seq<World>,
                      ghost join: Joiner) returns (r: Outcome<Table>)
    requires join == JoinerOf(descriptors, ws)
    modifies options
    ensures Merges(join, old(ViewOf(options)), |ws|, r, ViewOf(options))
  {
    ghost var o := ViewOf(options);
    ghost var stop;
    r, stop := MergeLoop(descriptors, options, ws, join, o);
    if r.Ok? {
      MergesAll(join, o, |ws|);
    } else {
      MergesFailed(join, o, |ws|, stop, r);
    }
  }

  /** One iteration: the next report, and its rows behind the others if it is one */
  method MergeNext(descriptors: seq<string>, options: JoinNamespaceOpts?, ws: seq<World>, k: nat,
                   ghost join: Joiner, ghost o: Option<OptsData>, data: Table)
    returns (pidData: Outcome<Table>, data': Table)
    requires k < |ws| && join == JoinerOf(descriptors, ws) && ViewOf(options) == OptsBefore(join, o, k)
    requires NoneFailed(join, o, k) && data == Merged(join, o, k)
    modifies options
    ensures pidData == Result(join, o, k) && ViewOf(options) == OptsBefore(join, o, k + 1)
    ensures pidData.Ok? || pidData == Err(NotExist) ==> NoneFailed(join, o, k + 1)
    ensures pidData.Ok? || pidData == Err(NotExist) ==> data' == Merged(join, o, k + 1)
  {
    pidData := JoinNext(descriptors, options, ws, k, join, o);
    data' := data;
    if pidData.Ok? {
      data' := AppendReport(data, pidData.value, k);
      OneMoreMerged(join, o, k, pidData);
    } else if pidData.IsNotExist() {
      OneMoreMerged(join, o, k, pidData);
    }
  }

  lemma OneMoreMerged(join: Joiner, o: Option<OptsData>, k: nat, r: Outcome<Table>)
    requires NoneFailed(join, o, k) && r == Result(join, o, k) && (r.Ok? || r == Err(NotExist))
    ensures Merged(join, o, k + 1) ==
            Merged(join, o, k) + if r.Ok? then (if k == 0 then r.value else Tail(r.value)) else []
    ensures NoneFailed(join, o, k + 1)
  {
    EmptyMore(Merged(join, o, k));
  }

  lemma EmptyMore(data: Table)
    ensures data + [] == data
  {
  }

  /** The rows of a report behind those of the ones before; its header only if it is the first */
  method AppendReport(data: Table, pidData: Table, k: nat) returns (data': Table)
    requires pidData != []
    ensures data' == data + if k == 0 then pidData else Tail(pidData)
  {
    data' := data;
    if k == 0 {
      data' := data' + [pidData[0]];
      assert data + pidData == data + [pidData[0]] + pidData[1..];
    }
    data' := data' + pidData[1..];
  }

  /** links[i] and worlds[i] are what the i-th requested pid meets. */
  method JoinNamespaceAndProcessInfoByPidsWithOptions(descriptors: seq<string>, options: JoinNamespaceOpts?,
                                                      links: Links, worlds: seq<World>) returns (r: Outcome<Table>)
    requires |links| == |worlds|
    modifies options
    ensures EndsWithLink(links, r)
    ensures if forall i :: 0 <= i < |links| ==> links[i].Ok? || links[i] == Err(NotExist) then
              var ws := KeptWorlds(links, worlds);
              Merges(JoinerOf(descriptors, ws), old(ViewOf(options)), |ws|, r, ViewOf(options))
            else !r.Ok? && ViewOf(options) == old(ViewOf(options))
  {
    var pidList := SelectPids(links);
    if !pidList.Ok? {
      return pidList.PropagateFailure();
    }
    var ws := KeptWorlds(links, worlds);
    r := MergeReports(descriptors, options, ws, JoinerOf(descriptors, ws));
  }

  /** A merged report that succeeds: the rows of the pids that are not skipped, in the order of the kept
      pids, behind exactly one header if the first kept pid is not skipped, and without one if it is. */
  lemma MergedReport(descriptors: seq<string>, o: Option<OptsData>, links: Links, worlds: seq<World>)
    requires |links| == |worlds| && Translated(descriptors).Ok?
    ensures var join, n := JoinerOf(descriptors, KeptWorlds(links, worlds)), |Firsts(links, |links|)|;
            Merged(join, o, n) ==
            (if n > 0 && Result(join, o, 0).Ok? then [Header(Translated(descriptors).value)] else [])
            + DataRows(join, o, n)
  {
    var ws := KeptWorlds(links, worlds);
    JoinerHeaders(descriptors, ws);
    MergedExact(JoinerOf(descriptors, ws), o, Header(Translated(descriptors).value), |ws|);
  }

  /** With FillMappings every container whose context is built is reported with the same two maps. */
  lemma MergedMaps(descriptors: seq<string>, o: OptsData, links: Links, worlds: seq<World>, i: nat, j: nat)
    requires |links| == |worlds| && Translated(descriptors).Ok? && o.fillMappings
    requires var ws := KeptWorlds(links, worlds); var join := JoinerOf(descriptors, ws);
             && i < |ws| && j < |ws|
             && Contextual(join, Some(o), i, ws) && Contextual(join, Some(o), j, ws)
    ensures var join := JoinerOf(descriptors, KeptWorlds(links, worlds));
            && OptsBefore(join, Some(o), i + 1) == OptsBefore(join, Some(o), j + 1)
            && exists k: nat :: k <= i && k < |KeptWorlds(links, worlds)| && BothRead(KeptWorlds(links, worlds)[k])
                 && OptsBefore(join, Some(o), i + 1).Some?
                 && OptsBefore(join, Some(o), i + 1).value.uidMap == KeptWorlds(links, worlds)[k].uidMap.value
                 && OptsBefore(join, Some(o), i + 1).value.gidMap == KeptWorlds(links, worlds)[k].gidMap.value
  {
    var ws := KeptWorlds(links, worlds);
    var join := JoinerOf(descriptors, ws);
    JoinerFills(descriptors, ws);
    SameMapsForAll(join, o, ws, i, j);
    var k := ContextReads(join, o, ws, i);
    InstalledOnce(join, o, ws, i + 1);
  }
}
