/** internal/process/process.go: the record of one process, and the snapshot of many while they exit. */
module Process {
  import opened Outcomes
  import opened Text
  import opened ProcStat
  import opened ProcStatus

  /** The fields of a process record, as one value. */
  datatype ProcessData = ProcessData(
    pid: string, stat: Stat, status: Status, cmdLine: seq<string>, secLabel: string, pidNS: string,
    huser: string, hgroup: string)

  /** The functions of package proc that this package calls.  Each takes the pid and the time at which
      it starts, and returns what it read and the time when it is done. */
  datatype Proc = Proc(
    parseStat: (string, nat) -> (Outcome<Stat>, nat),
    parseStatus: (string, nat) -> (Outcome<Status>, nat),
    parseCmdLine: (string, nat) -> (Outcome<seq<string>>, nat),
    parsePIDNamespace: (string, nat) -> (Outcome<string>, nat),
    parseAttrCurrent: (string, nat) -> (Outcome<string>, nat))

  /** What New makes of a pid when it starts at t, and the time when it is done. */
  function NewData(f: Proc, pid: string, t: nat): (Outcome<ProcessData>, nat) {
    var (stat, t1) := f.parseStat(pid, t);
    if !stat.Ok? then (stat.PropagateFailure(), t1) else
    var (status, t2) := f.parseStatus(pid, t1);
    if !status.Ok? then (status.PropagateFailure(), t2) else
    var (cmdLine, t3) := f.parseCmdLine(pid, t2);
    if !cmdLine.Ok? then (cmdLine.PropagateFailure(), t3) else
    var (pidNS, t4) := f.parsePIDNamespace(pid, t3);
    if !pidNS.Ok? && pidNS != Err(Permission) then (pidNS.PropagateFailure(), t4) else
    var (secLabel, t5) := f.parseAttrCurrent(pid, t4);
    if !secLabel.Ok? then (secLabel.PropagateFailure(), t5) else
    (Ok(ProcessData(pid, stat.value, status.value, cmdLine.value, secLabel.value,
                    if pidNS.Ok? then pidNS.value else "", "", "")), t5)
  }

  /** The five reads in order, each from the end of the one before: a record holds what they gave, with an empty
      namespace link where it may not be read; else the first failure, other than that one, ends it. */
  lemma NewDataExact(f: Proc, pid: string, t: nat)
    ensures var stat := f.parseStat(pid, t);
            var status := f.parseStatus(pid, stat.1);
            var cmdLine := f.parseCmdLine(pid, status.1);
            var link := f.parsePIDNamespace(pid, cmdLine.1);
            var attr := f.parseAttrCurrent(pid, link.1);
            var steps := [Done(stat.0), Done(status.0), Done(cmdLine.0),
                          if link.0 == Err(Permission) then Ok(()) else Done(link.0), Done(attr.0)];
            && EndsWithFirst(NewData(f, pid, t).0, steps)
            && (stat.0.Ok? && status.0.Ok? && cmdLine.0.Ok? && (link.0.Ok? || link.0 == Err(Permission))
                && attr.0.Ok? ==>
                  NewData(f, pid, t) ==
                  (Ok(ProcessData(pid, stat.0.value, status.0.value, cmdLine.0.value, attr.0.value,
                                  if link.0.Ok? then link.0.value else "", "", "")), attr.1))
  {
    var stat := f.parseStat(pid, t);
    var status := f.parseStatus(pid, stat.1);
    var cmdLine := f.parseCmdLine(pid, status.1);
    var link := f.parsePIDNamespace(pid, cmdLine.1);
    var attr := f.parseAttrCurrent(pid, link.1);
    var steps := [Done(stat.0), Done(status.0), Done(cmdLine.0),
                  if link.0 == Err(Permission) then Ok(()) else Done(link.0), Done(attr.0)];
    forall i | 0 <= i < |steps| && !steps[i].Ok? && (forall j :: 0 <= j < i ==> steps[j].Ok?)
      ensures NewData(f, pid, t).0 == steps[i].PropagateFailure()
    {
      assert i > 0 ==> steps[0].Ok?;
      assert i > 1 ==> steps[1].Ok?;
      assert i > 2 ==> steps[2].Ok?;
      assert i > 3 ==> steps[3].Ok?;
    }
  }

  /** A way to make a record of a pid from a given time on. */
  type Maker = (string, nat) -> (Outcome<ProcessData>, nat)

  function MakerOf(f: Proc): Maker {
    (pid, t) => NewData(f, pid, t)
  }

  /** The time when the turn of pids[k] starts. */
  function TurnStart(make: Maker, pids: seq<string>, t: nat, k: nat): nat
    requires k <= |pids|
  {
    if k == 0 then t else make(pids[k - 1], TurnStart(make, pids, t, k - 1)).1
  }

  function Turn(make: Maker, pids: seq<string>, t: nat, k: nat): Outcome<ProcessData>
    requires k < |pids|
  {
    make(pids[k], TurnStart(make, pids, t, k)).0
  }

  /** The records of the first k turns. */
  function Gather(make: Maker, pids: seq<string>, t: nat, k: nat): seq<ProcessData>
    requires k <= |pids|
  {
    if k == 0 then []
    else
      var r := Turn(make, pids, t, k - 1);
      Gather(make, pids, t, k - 1) + if r.Ok? then [r.value] else []
  }

  /** A turn that ends the snapshot with its error. */
  predicate Fatal(r: Outcome<ProcessData>) {
    !r.Ok? && !r.IsNotExist()
  }

  /** The first fatal turn among the first k, or -1 */
  function FirstFatal(make: Maker, pids: seq<string>, t: nat, k: nat): (i: int)
    requires k <= |pids|
    ensures -1 <= i < k
    ensures i >= 0 ==> Fatal(Turn(make, pids, t, i))
    ensures forall j :: 0 <= j < (if i == -1 then k else i) ==> !Fatal(Turn(make, pids, t, j))
  {
    if k == 0 then -1
    else
      var i := FirstFatal(make, pids, t, k - 1);
      if i == -1 && Fatal(Turn(make, pids, t, k - 1)) then k - 1 else i
  }

  /** What FromPIDs gives on values: the records of the turns that did not find their process gone, or the error of
      the first turn that failed otherwise. */
  function SnapshotOf(make: Maker, pids: seq<string>, t: nat): Outcome<seq<ProcessData>> {
    var bad := FirstFatal(make, pids, t, |pids|);
    if bad == -1 then Ok(Gather(make, pids, t, |pids|)) else Turn(make, pids, t, bad).PropagateFailure()
  }

  /** A snapshot is had exactly when every turn gives a record or finds its process gone; else it ends as the first
      other turn. */
  lemma SnapshotEnds(make: Maker, pids: seq<string>, t: nat)
    ensures var r := SnapshotOf(make, pids, t);
            && (r.Ok? <==> forall k :: 0 <= k < |pids| ==>
                             Turn(make, pids, t, k).Ok? || Turn(make, pids, t, k) == Err(NotExist))
            && forall k ::
                 (&& 0 <= k < |pids| && !Turn(make, pids, t, k).Ok? && Turn(make, pids, t, k) != Err(NotExist)
                  && (forall j :: 0 <= j < k ==>
                        Turn(make, pids, t, j).Ok? || Turn(make, pids, t, j) == Err(NotExist))) ==>
                   r == Turn(make, pids, t, k).PropagateFailure()
  {
    var bad := FirstFatal(make, pids, t, |pids|);
    if bad >= 0 {
      assert Fatal(Turn(make, pids, t, bad));
    }
  }

  const NO_STAT := Stat("", "", "", "", "", "", "", "", "", "", "", "", "", "", "", "", "", "", "", "", "", "", "")
  const NO_STATUS := Status(map[], [], [], [], [])

  // ---------- user names ----------

  /** The user and group databases. */
  datatype Names = Names(user: int -> Option<string>, group: int -> Option<string>)

  function Lookup(id: string, name: int -> Option<string>): Outcome<string> {
    match ParseInt(id)
    case Ok(n) => Ok(if name(n).Some? then name(n).value else id)
    case Err(e) => Err(e)
    case Panic => Panic
  }

  function LookupUID(uid: string, names: Names): Outcome<string> {
    Lookup(uid, names.user)
  }

  function LookupGID(gid: string, names: Names): Outcome<string> {
    Lookup(gid, names.group)
  }

  /** What a database says of an ID as /proc shows it: the name of that number, or the text as it is when there is
      none; and an error for a text that is no number of 64 bits. */
  ghost predicate NameIn(r: Outcome<string>, text: string, name: int -> Option<string>) {
    && (forall n: int :: In64(n) && Denotes(text, n) ==> r == Ok(if name(n).Some? then name(n).value else text))
    && (!IsNumber(text) ==> r.Err?)
  }

  lemma LookupExact(text: string, name: int -> Option<string>)
    ensures NameIn(Lookup(text, name), text, name)
    ensures Lookup(text, name).Ok? <==> IsNumber(text)
  {
    ParseIntFails(text);
    forall n: int | In64(n) && Denotes(text, n)
      ensures ParseInt(text) == Ok(n)
    {
      ParseIntExact(text, n);
    }
  }

  /** User IDs are looked up among the users, and group IDs among the groups. */
  lemma LookupsExact(text: string, names: Names)
    ensures NameIn(LookupUID(text, names), text, names.user)
    ensures NameIn(LookupGID(text, names), text, names.group)
  {
    LookupExact(text, names.user);
    LookupExact(text, names.group);
  }

  /** SetHostData on a value */
  function WithHostData(p: ProcessData, names: Names): Outcome<ProcessData> {
    if |p.status.uids| < 2 then Panic else
    var huser :- LookupUID(p.status.uids[1], names);
    if |p.status.gids| < 2 then Panic else
    var hgroup :- LookupGID(p.status.gids[1], names);
    Ok(p.(huser := huser, hgroup := hgroup))
  }

  /** The record with the names of its second user and group ID in the databases, and nothing else changed */
  ghost predicate NamedRecord(p: ProcessData, names: Names, q: ProcessData) {
    && q == p.(huser := q.huser, hgroup := q.hgroup)
    && |p.status.uids| > 1 && NameIn(Ok(q.huser), p.status.uids[1], names.user)
    && |p.status.gids| > 1 && NameIn(Ok(q.hgroup), p.status.gids[1], names.group)
  }

  /** Both names are found, or there is an error for an ID that is no number; it panics exactly when the list whose turn
      it is has no second ID. */
  lemma HostDataExact(p: ProcessData, names: Names)
    ensures var r, uids, gids := WithHostData(p, names), p.status.uids, p.status.gids;
            && (r.Ok? <==> |uids| > 1 && IsNumber(uids[1]) && |gids| > 1 && IsNumber(gids[1]))
            && (r.Ok? ==> NamedRecord(p, names, r.value))
            && (r.Panic? <==> |uids| < 2 || (IsNumber(uids[1]) && |gids| < 2))
  {
    if |p.status.uids| > 1 {
      LookupExact(p.status.uids[1], names.user);
    }
    if |p.status.gids| > 1 {
      LookupExact(p.status.gids[1], names.group);
    }
  }

  // ---------- the record as the program builds it ----------

  class Process {
    var pid: string
    var stat: Stat
    var status: Status
    var cmdLine: seq<string>
    var secLabel: string
    var pidNS: string
    var huser: string
    var hgroup: string

    function View(): ProcessData
      reads this
    {
      ProcessData(pid, stat, status, cmdLine, secLabel, pidNS, huser, hgroup)
    }

    /** Process{Pid: pid}: everything else is empty. */
    constructor Empty(pid: string)
      ensures View() == ProcessData(pid, NO_STAT, NO_STATUS, [], "", "", "", "")
    {
      this.pid := pid;
      stat, status, cmdLine := NO_STAT, NO_STATUS, [];
      secLabel, pidNS, huser, hgroup := "", "", "", "";
    }

    method ParseStat(f: Proc, t: nat) returns (r: Outcome<()>, t': nat)
      modifies this`stat
      ensures var (s, u) := f.parseStat(pid, t);
              t' == u && r == (if s.Ok? then Ok(()) else s.PropagateFailure())
              && stat == (if s.Ok? then s.value else old(stat))
    {
      var (s, u) := f.parseStat(pid, t);
      if !s.Ok? {
        return s.PropagateFailure(), u;
      }
      stat := s.value;
      return Ok(()), u;
    }

    method ParseStatus(f: Proc, t: nat) returns (r: Outcome<()>, t': nat)
      modifies this`status
      ensures var (s, u) := f.parseStatus(pid, t);
              t' == u && r == (if s.Ok? then Ok(()) else s.PropagateFailure())
              && status == (if s.Ok? then s.value else old(status))
    {
      var (s, u) := f.parseStatus(pid, t);
      if !s.Ok? {
        return s.PropagateFailure(), u;
      }
      status := s.value;
      return Ok(()), u;
    }

    method ParseCmdLine(f: Proc, t: nat) returns (r: Outcome<()>, t': nat)
      modifies this`cmdLine
      ensures var (s, u) := f.parseCmdLine(pid, t);
              t' == u && r == (if s.Ok? then Ok(()) else s.PropagateFailure())
              && cmdLine == (if s.Ok? then s.value else old(cmdLine))
    {
      var (s, u) := f.parseCmdLine(pid, t);
      if !s.Ok? {
        return s.PropagateFailure(), u;
      }
      cmdLine := s.value;
      return Ok(()), u;
    }

    method ParsePIDNamespace(f: Proc, t: nat) returns (r: Outcome<()>, t': nat)
      modifies this`pidNS
      ensures var (s, u) := f.parsePIDNamespace(pid, t);
              t' == u && r == (if s.Ok? then Ok(()) else s.PropagateFailure())
              && pidNS == (if s.Ok? then s.value else old(pidNS))
    {
      var (s, u) := f.parsePIDNamespace(pid, t);
      if !s.Ok? {
        return s.PropagateFailure(), u;
      }
      pidNS := s.value;
      return Ok(()), u;
    }

    method ParseLabel(f: Proc, t: nat) returns (r: Outcome<()>, t': nat)
      modifies this`secLabel
      ensures var (s, u) := f.parseAttrCurrent(pid, t);
              t' == u && r == (if s.Ok? then Ok(()) else s.PropagateFailure())
              && secLabel == (if s.Ok? then s.value else old(secLabel))
    {
      var (s, u) := f.parseAttrCurrent(pid, t);
      if !s.Ok? {
        return s.PropagateFailure(), u;
      }
      secLabel := s.value;
      return Ok(()), u;
    }

    /** Sets both names, or fails; nothing else of the record changes.  A user that was looked up stays set when
        the group fails, and a name whose lookup fails is emptied. */
    method SetHostData(names: Names) returns (r: Outcome<()>)
      modifies this`huser, this`hgroup
      ensures r.Ok? ==> r == Ok(()) && NamedRecord(old(View()), names, View())
      ensures var p := WithHostData(old(View()), names);
              r == (if p.Ok? then Ok(()) else p.PropagateFailure()) && (p.Ok? ==> View() == p.value)
      ensures r.Panic? <==> |status.uids| < 2 || (IsNumber(status.uids[1]) && |status.gids| < 2)
      ensures r.Err? <==> |status.uids| > 1 && (IsNumber(status.uids[1]) ==> |status.gids| > 1)
                          && (!IsNumber(status.uids[1]) || !IsNumber(status.gids[1]))
      ensures if |status.uids| < 2 then huser == old(huser)
              else if IsNumber(status.uids[1]) then NameIn(Ok(huser), status.uids[1], names.user)
              else huser == ""
      ensures if |status.uids| < 2 || !IsNumber(status.uids[1]) || |status.gids| < 2 then hgroup == old(hgroup)
              else if IsNumber(status.gids[1]) then NameIn(Ok(hgroup), status.gids[1], names.group)
              else hgroup == ""
    {
      HostDataExact(View(), names);
      if |status.uids| < 2 {
        return Panic;
      }
      LookupExact(status.uids[1], names.user);
      var user := LookupUID(status.uids[1], names);
      huser := if user.Ok? then user.value else "";
      if !user.Ok? {
        return user.PropagateFailure();
      }
      if |status.gids| < 2 {
        return Panic;
      }
      LookupExact(status.gids[1], names.group);
      var group := LookupGID(status.gids[1], names);
      hgroup := if group.Ok? then group.value else "";
      if !group.Ok? {
        return group.PropagateFailure();
      }
      return Ok(());
    }
  }

  /** New: the five reads in order; a namespace link that may not be read is left empty. */
  method New(pid: string, f: Proc, t: nat) returns (r: Outcome<Process>, t': nat)
    ensures var (p, u) := NewData(f, pid, t);
            t' == u && (if p.Ok? then r.Ok? && fresh(r.value) && r.value.View() == p.value
                        else r == p.PropagateFailure())
  {
    var p := new Process.Empty(pid);
    var e;
    e, t' := p.ParseStat(f, t);
    if !e.Ok? {
      return e.PropagateFailure(), t';
    }
    e, t' := p.ParseStatus(f, t');
    if !e.Ok? {
      return e.PropagateFailure(), t';
    }
    e, t' := p.ParseCmdLine(f, t');
    if !e.Ok? {
      return e.PropagateFailure(), t';
    }
    e, t' := p.ParsePIDNamespace(f, t');
    if !e.Ok? && e != Err(Permission) {
      return e.PropagateFailure(), t';
    }
    e, t' := p.ParseLabel(f, t');
    if !e.Ok? {
      return e.PropagateFailure(), t';
    }
    return Ok(p), t';
  }

  /** The records have these values. */
  ghost predicate Show(ps: seq<Process>, values: seq<ProcessData>)
    reads ps
  {
    |ps| == |values| && forall i :: 0 <= i < |ps| ==> ps[i].View() == values[i]
  }

  predicate Separate(ps: seq<Process>) {
    forall i, j :: 0 <= i < j < |ps| ==> ps[i] != ps[j]
  }

  /** The snapshot on records */
  ghost predicate Collects(make: Maker, pids: seq<string>, t: nat, r: Outcome<seq<Process>>)
    reads if r.Ok? then r.value else []
  {
    var s := SnapshotOf(make, pids, t);
    if s.Ok? then r.Ok? && Show(r.value, s.value) else r == s.PropagateFailure()
  }

  /** FromPIDs; `make` stands for New with these readers. */
  method FromPIDs(pids: seq<string>, f: Proc, t: nat, ghost make: Maker) returns (r: Outcome<seq<Process>>)
    requires make == MakerOf(f)
    ensures Collects(make, pids, t, r)
    ensures r.Ok? ==> fresh(r.value) && Separate(r.value)
  {
    var processes: seq<Process> := [];
    var now := t;
    for k := 0 to |pids|
      invariant now == TurnStart(make, pids, t, k)
      invariant fresh(processes) && Separate(processes) && Show(processes, Gather(make, pids, t, k))
      invariant FirstFatal(make, pids, t, k) == -1
    {
      var p;
      p, now := Take(pids, f, t, k, now, make);
      if !p.Ok? {
        if p.IsNotExist() {
          continue;
        }
        FatalAt(make, pids, t, k);
        return p.PropagateFailure();
      }
      ShowMore(processes, Gather(make, pids, t, k), p.value, Turn(make, pids, t, k).value);
      processes := processes + [p.value];
    }
    return Ok(processes);
  }

  lemma ShowMore(ps: seq<Process>, values: seq<ProcessData>, p: Process, value: ProcessData)
    requires Show(ps, values) && p.View() == value
    ensures Show(ps + [p], values + [value])
  {
  }

  lemma FatalAt(make: Maker, pids: seq<string>, t: nat, k: nat)
    requires k < |pids| && FirstFatal(make, pids, t, k) == -1 && Fatal(Turn(make, pids, t, k))
    ensures FirstFatal(make, pids, t, |pids|) == k
  {
  }

  /** One turn of the snapshot. */
  method Take(pids: seq<string>, f: Proc, ghost t: nat, k: nat, now: nat, ghost make: Maker)
    returns (p: Outcome<Process>, next: nat)
    requires make == MakerOf(f) && k < |pids| && now == TurnStart(make, pids, t, k)
    ensures next == TurnStart(make, pids, t, k + 1)
    ensures var turn := Turn(make, pids, t, k);
            if turn.Ok? then p.Ok? && fresh(p.value) && p.value.View() == turn.value
            else p == turn.PropagateFailure()
  {
    p, next := New(pids[k], f, now);
  }
}
