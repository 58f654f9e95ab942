/** Reading many processes while they exit: what FromPIDs of internal/process/process.go gives on the
    readers of internal/proc/. */
module Snapshot {
  import opened Outcomes
  import opened Text
  import opened ProcStat
  import opened ProcStatus
  import opened Process
  import CmdLine

  /** What /proc/[pid] holds at one moment; without a security module there is no label to read. */
  datatype Files = Files(stat: string, status: seq<string>, cmdline: string, pidNS: string, secLabel: Option<string>)

  /** When each process exits, if it does; its pid is not reused while the library reads. */
  type Exits = string -> Option<nat>

  predicate Alive(exits: Exits, pid: string, t: nat) {
    exits(pid).None? || t < exits(pid).value
  }

  /** The clock ticks once with every access of the library; between two accesses any number of
      processes may exit, and the files of the others may change. */
  datatype World = World(exits: Exits, files: (string, nat) -> Files, nsReadable: string -> bool)

  /** The kernel prints all user and group IDs. */
  predicate FullIDs(s: Status) {
    |s.uids| == 4 && |s.gids| == 4
  }

  /** The kernel's files have the format of proc(5); a status file is seen through the scanner. */
  ghost predicate WellFormed(w: World) {
    forall pid: string, t: nat
      {:trigger ParseStat(w.files(pid, t).stat)} {:trigger Meaning(Scanned(w.files(pid, t).status))} ::
      && ParseStat(w.files(pid, t).stat).Ok?
      && Meaning(Scanned(w.files(pid, t).status)).Ok? && FullIDs(Meaning(Scanned(w.files(pid, t).status)).value)
  }

  // ---------- the readers ----------

  /** ioutil.ReadFile: the file is opened at t and read at t + 1; a file of a process that exits in
      between can be opened but not read. */
  function ReadFile(exits: Exits, pid: string, t: nat): (Outcome<()>, nat) {
    if !Alive(exits, pid, t) then (Err(NotExist), t + 1)
    else if !Alive(exits, pid, t + 1) then (Err(Gone), t + 2)
    else (Ok(()), t + 2)
  }

  function ReadStat(w: World, pid: string, t: nat): (Outcome<Stat>, nat) {
    var (r, t') := ReadFile(w.exits, pid, t);
    (if r.Ok? then ParseStat(w.files(pid, t + 1).stat) else r.PropagateFailure(), t')
  }

  /** readStatusDefault does not look at the scanner's error: a file that cannot be read any more has
      no lines. */
  function ReadStatus(w: World, pid: string, t: nat): (Outcome<Status>, nat) {
    var (r, t') := ReadFile(w.exits, pid, t);
    (if r.IsNotExist() then Err(NotExist)
     else Meaning(if r.Ok? then Scanned(w.files(pid, t + 1).status) else []), t')
  }

  function ReadCmdLine(w: World, pid: string, t: nat): (Outcome<seq<string>>, nat) {
    var (r, t') := ReadFile(w.exits, pid, t);
    (if r.Ok? then Ok(Split(w.files(pid, t + 1).cmdline, CmdLine.NUL)) else r.PropagateFailure(), t')
  }

  /** os.Readlink of /proc/[pid]/ns/pid */
  function ReadPidNS(w: World, pid: string, t: nat): (Outcome<string>, nat) {
    (if !Alive(w.exits, pid, t) then Err(NotExist)
     else if !w.nsReadable(pid) then Err(Permission)
     else Ok(w.files(pid, t).pidNS), t + 1)
  }

  /** ParseAttrCurrent: when the label cannot be read, one more access tells why. */
  function ReadLabel(w: World, pid: string, t: nat): (Outcome<string>, nat) {
    var (r, t') := ReadFile(w.exits, pid, t);
    if r.Ok? && w.files(pid, t + 1).secLabel.Some? then (Ok(TrimNewlines(w.files(pid, t + 1).secLabel.value)), t')
    else if !Alive(w.exits, pid, t') then (Err(NotExist), t' + 1)
    else (Ok("?"), t' + 1)
  }

  /** strings.Trim(s, "\n") */
  function TrimNewlines(s: string): string {
    if s != "" && s[0] == '\n' then TrimNewlines(s[1..])
    else if s != "" && s[|s| - 1] == '\n' then TrimNewlines(s[..|s| - 1])
    else s
  }

  predicate Newlines(s: string) {
    forall i :: 0 <= i < |s| ==> s[i] == '\n'
  }

  /** Newlines go at both ends, and nothing else. */
  lemma {:induction false} TrimNewlinesOf(left: string, s: string, right: string)
    requires Newlines(left) && Newlines(right)
    requires s != "" ==> s[0] != '\n' && s[|s| - 1] != '\n'
    ensures TrimNewlines(left + s + right) == s
    decreases |left| + |right|
  {
    if left != "" {
      assert (left + s + right)[1..] == left[1..] + s + right;
      TrimNewlinesOf(left[1..], s, right);
    } else if right == "" {
      assert left + s + right == s;
    } else if s == "" {
      assert (left + s + right)[1..] == left + s + right[1..];
      TrimNewlinesOf(left, s, right[1..]);
    } else {
      TrimLastNewline(s, right);
      assert left + s + right == s + right;
      assert left + s + right[..|right| - 1] == s + right[..|right| - 1];
      TrimNewlinesOf(left, s, right[..|right| - 1]);
    }
  }

  lemma TrimLastNewline(s: string, right: string)
    requires s != "" && s[0] != '\n' && right != "" && Newlines(right)
    ensures TrimNewlines(s + right) == TrimNewlines(s + right[..|right| - 1])
  {
    assert (s + right)[..|s + right| - 1] == s + right[..|right| - 1];
  }

  function Readers(w: World): Proc {
    Proc(
      (pid, t) => ReadStat(w, pid, t),
      (pid, t) => ReadStatus(w, pid, t),
      (pid, t) => ReadCmdLine(w, pid, t),
      (pid, t) => ReadPidNS(w, pid, t),
      (pid, t) => ReadLabel(w, pid, t))
  }

  // ---------- what the readers tell about life and death ----------

  /** A reader that opens and reads one file. */
  predicate TellsFile<T>(exits: Exits, pid: string, t: nat, read: (Outcome<T>, nat)) {
    if !Alive(exits, pid, t) then read == (Err(NotExist), t + 1)
    else (if Alive(exits, pid, t + 1) then read.0.Ok? else read.0 == Err(Gone)) && read.1 == t + 2
  }

  /** The status reader takes a file that can no longer be read for an empty one. */
  predicate TellsStatus(exits: Exits, pid: string, t: nat, read: (Outcome<Status>, nat)) {
    if !Alive(exits, pid, t) then read == (Err(NotExist), t + 1)
    else read.0.Ok? && read.1 == t + 2 && (Alive(exits, pid, t + 1) ==> FullIDs(read.0.value))
  }

  predicate TellsLink(exits: Exits, pid: string, t: nat, read: (Outcome<string>, nat)) {
    && read.1 == t + 1
    && if Alive(exits, pid, t) then read.0.Ok? || read.0 == Err(Permission) else read.0 == Err(NotExist)
  }

  predicate TellsLabel(exits: Exits, pid: string, t: nat, read: (Outcome<string>, nat)) {
    && read.1 > t
    && if Alive(exits, pid, read.1 - 1) then read.0.Ok? else read.0 == Err(NotExist)
  }

  /** The command line is never an empty list. */
  predicate TellsCmdLine(exits: Exits, pid: string, t: nat, read: (Outcome<seq<string>>, nat)) {
    TellsFile(exits, pid, t, read) && (read.0.Ok? ==> read.0.value != [])
  }

  /** Which reads succeed is decided by when the process exits. */
  ghost predicate Honest(f: Proc, exits: Exits) {
    && (forall pid: string, t: nat :: TellsFile(exits, pid, t, f.parseStat(pid, t)))
    && (forall pid: string, t: nat :: TellsStatus(exits, pid, t, f.parseStatus(pid, t)))
    && (forall pid: string, t: nat :: TellsCmdLine(exits, pid, t, f.parseCmdLine(pid, t)))
    && (forall pid: string, t: nat :: TellsLink(exits, pid, t, f.parsePIDNamespace(pid, t)))
    && (forall pid: string, t: nat :: TellsLabel(exits, pid, t, f.parseAttrCurrent(pid, t)))
  }

  lemma StatHonest(w: World, pid: string, t: nat)
    requires WellFormed(w)
    ensures TellsFile(w.exits, pid, t, ReadStat(w, pid, t))
  {
    assert ParseStat(w.files(pid, t + 1).stat).Ok?;
  }

  lemma StatusHonest(w: World, pid: string, t: nat)
    requires WellFormed(w)
    ensures TellsStatus(w.exits, pid, t, ReadStatus(w, pid, t))
  {
    assert Meaning(Scanned(w.files(pid, t + 1).status)).Ok?;
  }

  lemma ReadersHonest(w: World)
    requires WellFormed(w)
    ensures Honest(Readers(w), w.exits)
  {
    var f := Readers(w);
    forall pid: string, t: nat
      ensures TellsFile(w.exits, pid, t, f.parseStat(pid, t))
    {
      StatHonest(w, pid, t);
    }
    forall pid: string, t: nat
      ensures TellsStatus(w.exits, pid, t, f.parseStatus(pid, t))
    {
      StatusHonest(w, pid, t);
    }
  }

  // ---------- one process ----------

  /** A process that exits between the opening and the reading of its stat or its cmdline file. */
  predicate Torn(exits: Exits, pid: string, t: nat) {
    exits(pid) == Some(t + 1) || exits(pid) == Some(t + 5)
  }

  /** What the columns of a report take for granted of a record */
  predicate Whole(p: ProcessData) {
    FullIDs(p.status) && p.cmdLine != []
  }

  /** A record is made exactly of a process that is alive at the last access, and the making fails with
      another error than "does not exist" exactly when the stat or the cmdline file is torn; a status file
      that could not be read never gets into a record. */
  ghost predicate Exact(exits: Exits, pid: string, t: nat, made: (Outcome<ProcessData>, nat)) {
    && t < made.1
    && (made.0.Ok? <==> Alive(exits, pid, made.1 - 1))
    && (Fatal(made.0) <==> Torn(exits, pid, t))
    && (made.0.Ok? ==> made.0.value.pid == pid && Whole(made.0.value))
  }

  lemma NewExact(f: Proc, exits: Exits, pid: string, t: nat)
    requires Honest(f, exits)
    ensures Exact(exits, pid, t, NewData(f, pid, t))
  {
  }

  /** A record is made of five reads at times that are known beforehand, of a process alive to the last. */
  ghost predicate MadeOf(f: Proc, exits: Exits, pid: string, t: nat, p: ProcessData, done: nat) {
    && t < done && Alive(exits, pid, done - 1)
    && p.pid == pid && p.huser == "" && p.hgroup == ""
    && f.parseStat(pid, t).0 == Ok(p.stat)
    && f.parseStatus(pid, t + 2).0 == Ok(p.status)
    && f.parseCmdLine(pid, t + 4).0 == Ok(p.cmdLine)
    && (match f.parsePIDNamespace(pid, t + 6).0 case Ok(link) => p.pidNS == link case _ => p.pidNS == "")
    && f.parseAttrCurrent(pid, t + 7) == (Ok(p.secLabel), done)
  }

  lemma NewMadeOf(f: Proc, exits: Exits, pid: string, t: nat)
    requires Honest(f, exits) && NewData(f, pid, t).0.Ok?
    ensures MadeOf(f, exits, pid, t, NewData(f, pid, t).0.value, NewData(f, pid, t).1)
  {
    assert TellsFile(exits, pid, t, f.parseStat(pid, t));
    assert TellsStatus(exits, pid, t + 2, f.parseStatus(pid, t + 2));
    assert TellsCmdLine(exits, pid, t + 4, f.parseCmdLine(pid, t + 4));
    assert TellsLink(exits, pid, t + 6, f.parsePIDNamespace(pid, t + 6));
    assert TellsLabel(exits, pid, t + 7, f.parseAttrCurrent(pid, t + 7));
  }

  lemma LabelRead(w: World, pid: string, t: nat)
    requires ReadLabel(w, pid, t).0.Ok? && Alive(w.exits, pid, ReadLabel(w, pid, t).1 - 1)
    ensures t + 1 < ReadLabel(w, pid, t).1
    ensures ReadLabel(w, pid, t).0.value == LabelOf(w.files(pid, t + 1).secLabel)
  {
  }

  function LabelOf(secLabel: Option<string>): string {
    if secLabel.Some? then TrimNewlines(secLabel.value) else "?"
  }

  /** What a record made from t on holds: each file as it was when that file was read, an empty namespace link when
      the link may not be read, and a question mark when there is no label. */
  ghost predicate Holds(w: World, pid: string, t: nat, p: ProcessData) {
    && Ok(p.stat) == ParseStat(w.files(pid, t + 1).stat)
    && Ok(p.status) == Meaning(Scanned(w.files(pid, t + 3).status))
    && Join(p.cmdLine, [CmdLine.NUL]) == w.files(pid, t + 5).cmdline
    && p.pidNS == (if w.nsReadable(pid) then w.files(pid, t + 6).pidNS else "")
    && p.secLabel == LabelOf(w.files(pid, t + 8).secLabel)
    && p.pid == pid && p.huser == "" && p.hgroup == ""
  }

  /** And its process is alive from the first access to the last. */
  lemma RecordContents(w: World, pid: string, t: nat)
    requires WellFormed(w) && NewData(Readers(w), pid, t).0.Ok?
    ensures Holds(w, pid, t, NewData(Readers(w), pid, t).0.value)
    ensures t + 8 < NewData(Readers(w), pid, t).1 && Alive(w.exits, pid, NewData(Readers(w), pid, t).1 - 1)
  {
    ReadersHonest(w);
    NewMadeOf(Readers(w), w.exits, pid, t);
    HeldByMade(w, pid, t, NewData(Readers(w), pid, t).0.value, NewData(Readers(w), pid, t).1);
  }

  /** The arguments are what the NUL characters of the file separate. */
  lemma ArgsOfRecord(w: World, pid: string, t: nat)
    requires WellFormed(w) && NewData(Readers(w), pid, t).0.Ok?
    ensures NewData(Readers(w), pid, t).0.value.cmdLine == Split(w.files(pid, t + 5).cmdline, CmdLine.NUL)
  {
    ReadersHonest(w);
    NewMadeOf(Readers(w), w.exits, pid, t);
    ArgsOfMade(w, pid, t, NewData(Readers(w), pid, t).0.value, NewData(Readers(w), pid, t).1);
  }

  lemma ArgsOfMade(w: World, pid: string, t: nat, p: ProcessData, done: nat)
    requires MadeOf(Readers(w), w.exits, pid, t, p, done)
    ensures p.cmdLine == Split(w.files(pid, t + 5).cmdline, CmdLine.NUL)
  {
    assert ReadCmdLine(w, pid, t + 4).0 == Ok(p.cmdLine);
  }

  lemma StatusOfRecord(w: World, pid: string, t: nat)
    requires WellFormed(w) && NewData(Readers(w), pid, t).0.Ok?
    ensures Meaning(Scanned(w.files(pid, t + 3).status)) == Ok(NewData(Readers(w), pid, t).0.value.status)
    ensures NewData(Readers(w), pid, t).0.value.pid == pid
  {
    RecordContents(w, pid, t);
  }

  lemma LinkOfRecord(w: World, pid: string, t: nat)
    requires WellFormed(w) && NewData(Readers(w), pid, t).0.Ok?
    ensures NewData(Readers(w), pid, t).0.value.pidNS == if w.nsReadable(pid) then w.files(pid, t + 6).pidNS else ""
  {
    RecordContents(w, pid, t);
  }

  lemma AliveWhileRead(w: World, pid: string, t: nat)
    requires WellFormed(w) && NewData(Readers(w), pid, t).0.Ok?
    ensures t + 8 < NewData(Readers(w), pid, t).1
    ensures Alive(w.exits, pid, t + 3) && Alive(w.exits, pid, t + 6)
  {
    RecordContents(w, pid, t);
  }

  lemma HeldByMade(w: World, pid: string, t: nat, p: ProcessData, done: nat)
    requires MadeOf(Readers(w), w.exits, pid, t, p, done)
    ensures Holds(w, pid, t, p) && t + 8 < done
  {
    assert ReadLabel(w, pid, t + 7) == (Ok(p.secLabel), done);
    LabelRead(w, pid, t + 7);
    assert ReadStat(w, pid, t).0 == Ok(p.stat) && ReadStatus(w, pid, t + 2).0 == Ok(p.status);
    assert ReadCmdLine(w, pid, t + 4).0 == Ok(p.cmdLine);
    JoinOfSplit(w.files(pid, t + 5).cmdline, CmdLine.NUL);
  }

  // ---------- the snapshot ----------

  ghost predicate AllExact(make: Maker, exits: Exits) {
    forall pid: string, t: nat :: Exact(exits, pid, t, make(pid, t))
  }

  lemma NewAllExact(f: Proc, exits: Exits)
    requires Honest(f, exits)
    ensures AllExact(MakerOf(f), exits)
  {
    forall pid: string, t: nat
      ensures Exact(exits, pid, t, MakerOf(f)(pid, t))
    {
      NewExact(f, exits, pid, t);
    }
  }

  /** The turns among the first k that gave a record. */
  function Kept(make: Maker, pids: seq<string>, t: nat, k: nat): (kept: seq<nat>)
    requires k <= |pids|
    ensures |kept| == |Gather(make, pids, t, k)|
    ensures forall i :: 0 <= i < |kept| ==> kept[i] < k
    ensures forall i, j :: 0 <= i < j < |kept| ==> kept[i] < kept[j]
  {
    if k == 0 then []
    else Kept(make, pids, t, k - 1) + if Turn(make, pids, t, k - 1).Ok? then [k - 1] else []
  }

  lemma TurnExact(make: Maker, exits: Exits, pids: seq<string>, t: nat, k: nat)
    requires AllExact(make, exits) && k < |pids|
    ensures TurnStart(make, pids, t, k) < TurnStart(make, pids, t, k + 1)
    ensures Turn(make, pids, t, k).Ok? <==> Alive(exits, pids[k], TurnStart(make, pids, t, k + 1) - 1)
    ensures Fatal(Turn(make, pids, t, k)) <==> Torn(exits, pids[k], TurnStart(make, pids, t, k))
    ensures var turn := Turn(make, pids, t, k);
            turn.Ok? ==> turn.value.pid == pids[k] && Whole(turn.value)
  {
    var start := TurnStart(make, pids, t, k);
    assert Exact(exits, pids[k], start, make(pids[k], start));
  }

  /** A turn is kept exactly when its process is still alive at the turn's last access. */
  lemma {:induction false} KeptExact(make: Maker, exits: Exits, pids: seq<string>, t: nat, k: nat, i: nat)
    requires AllExact(make, exits) && i < k <= |pids|
    ensures i in Kept(make, pids, t, k) <==> Alive(exits, pids[i], TurnStart(make, pids, t, i + 1) - 1)
    decreases k
  {
    if i < k - 1 {
      KeptExact(make, exits, pids, t, k - 1, i);
    } else {
      TurnExact(make, exits, pids, t, i);
    }
  }

  /** The records are those of the kept turns, in the order of the request. */
  lemma {:induction false} GatherIsKept(make: Maker, exits: Exits, pids: seq<string>, t: nat, k: nat, i: nat)
    requires AllExact(make, exits) && k <= |pids| && i < |Kept(make, pids, t, k)|
    ensures Gather(make, pids, t, k)[i].pid == pids[Kept(make, pids, t, k)[i]]
    ensures Whole(Gather(make, pids, t, k)[i])
    decreases k
  {
    if i < |Kept(make, pids, t, k - 1)| {
      GatherIsKept(make, exits, pids, t, k - 1, i);
    } else {
      TurnExact(make, exits, pids, t, k - 1);
    }
  }

  /** Every record is that of its turn. */
  lemma {:induction false} GatherIsTurn(make: Maker, pids: seq<string>, t: nat, k: nat, i: nat)
    requires k <= |pids| && i < |Kept(make, pids, t, k)|
    ensures var turn := Turn(make, pids, t, Kept(make, pids, t, k)[i]);
            turn.Ok? && Gather(make, pids, t, k)[i] == turn.value
    decreases k
  {
    if i < |Kept(make, pids, t, k - 1)| {
      GatherIsTurn(make, pids, t, k - 1, i);
    }
  }

  lemma {:induction false} TurnsInOrder(make: Maker, exits: Exits, pids: seq<string>, t: nat, i: nat, k: nat)
    requires AllExact(make, exits) && i <= k <= |pids|
    ensures TurnStart(make, pids, t, i) <= TurnStart(make, pids, t, k)
    decreases k
  {
    if i < k {
      TurnsInOrder(make, exits, pids, t, i, k - 1);
      TurnExact(make, exits, pids, t, k - 1);
    }
  }

  lemma MakerExact(w: World)
    requires WellFormed(w)
    ensures AllExact(MakerOf(Readers(w)), w.exits)
  {
    ReadersHonest(w);
    NewAllExact(Readers(w), w.exits);
  }

  /** The snapshot fails exactly when some process is torn in its turn; so with atomic reads, when no
      process exits between the opening and the reading of a file, it never fails. */
  lemma SnapshotFailsExactlyWhenTorn(w: World, make: Maker, pids: seq<string>, t: nat)
    requires WellFormed(w) && make == MakerOf(Readers(w))
    ensures FirstFatal(make, pids, t, |pids|) >= 0 <==>
            exists k :: 0 <= k < |pids| && Torn(w.exits, pids[k], TurnStart(make, pids, t, k))
  {
    MakerExact(w);
    FatalIsTorn(make, w.exits, pids, t);
  }

  lemma FatalIsTorn(make: Maker, exits: Exits, pids: seq<string>, t: nat)
    requires AllExact(make, exits)
    ensures FirstFatal(make, pids, t, |pids|) >= 0 <==>
            exists k :: 0 <= k < |pids| && Torn(exits, pids[k], TurnStart(make, pids, t, k))
  {
    forall k | 0 <= k < |pids|
      ensures Fatal(Turn(make, pids, t, k)) <==> Torn(exits, pids[k], TurnStart(make, pids, t, k))
    {
      TurnExact(make, exits, pids, t, k);
    }
    var i := FirstFatal(make, pids, t, |pids|);
    if i >= 0 {
      assert Torn(exits, pids[i], TurnStart(make, pids, t, i));
    }
  }

  /** What a snapshot that does not fail holds: an order-preserving selection of the requested pids,
      with the record of every process alive to the end of the snapshot, and of none that is dead
      before its turn. */
  ghost predicate Selects(exits: Exits, make: Maker, pids: seq<string>, t: nat,
                          kept: seq<nat>, records: seq<ProcessData>)
  {
    && |records| == |kept|
    && (forall i :: 0 <= i < |kept| ==> kept[i] < |pids|)
    && (forall i :: 0 <= i < |kept| ==> records[i].pid == pids[kept[i]] && Whole(records[i]))
    && (forall i, j :: 0 <= i < j < |kept| ==> kept[i] < kept[j])
    && (forall i: nat :: i < |pids| && Alive(exits, pids[i], TurnStart(make, pids, t, |pids|)) ==> i in kept)
    && (forall i: nat :: i < |pids| && !Alive(exits, pids[i], TurnStart(make, pids, t, i)) ==> i !in kept)
  }

  lemma SnapshotExact(w: World, make: Maker, pids: seq<string>, t: nat)
    requires WellFormed(w) && make == MakerOf(Readers(w))
    ensures Selects(w.exits, make, pids, t, Kept(make, pids, t, |pids|), Gather(make, pids, t, |pids|))
  {
    MakerExact(w);
    SurvivorsKept(make, w.exits, pids, t);
  }

  lemma SurvivorsKept(make: Maker, exits: Exits, pids: seq<string>, t: nat)
    requires AllExact(make, exits)
    ensures Selects(exits, make, pids, t, Kept(make, pids, t, |pids|), Gather(make, pids, t, |pids|))
  {
    var n := |pids|;
    var kept := Kept(make, pids, t, n);
    forall i | 0 <= i < |kept|
      ensures Gather(make, pids, t, n)[i].pid == pids[kept[i]] && Whole(Gather(make, pids, t, n)[i])
    {
      GatherIsKept(make, exits, pids, t, n, i);
    }
    forall i: nat | i < n
      ensures Alive(exits, pids[i], TurnStart(make, pids, t, n)) ==> i in kept
      ensures !Alive(exits, pids[i], TurnStart(make, pids, t, i)) ==> i !in kept
    {
      KeptExact(make, exits, pids, t, n, i);
      TurnsInOrder(make, exits, pids, t, i + 1, n);
      TurnExact(make, exits, pids, t, i);
    }
  }
}
