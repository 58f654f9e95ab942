/** internal/proc/stat.go: parsing /proc/[pid]/stat. */
module ProcStat {
  import opened Outcomes
  import opened Text

  /** The fields of proc(5) /proc/[pid]/stat, (1) to (23), in that order. */
  datatype Stat = Stat(
    pid: string, comm: string, state: string, ppid: string, pgrp: string, session: string,
    ttyNr: string, tpgid: string, flags: string, minflt: string, cminflt: string, majflt: string,
    cmajflt: string, utime: string, stime: string, cutime: string, cstime: string,
    priority: string, nice: string, numThreads: string, itrealvalue: string, starttime: string,
    vsize: string)

  const LAST_FIELD: nat := 23

  function Record(fields: seq<string>): Stat
    requires |fields| >= LAST_FIELD
  {
    Stat(
      fields[0], fields[1], fields[2], fields[3], fields[4], fields[5], fields[6], fields[7],
      fields[8], fields[9], fields[10], fields[11], fields[12], fields[13], fields[14], fields[15],
      fields[16], fields[17], fields[18], fields[19], fields[20], fields[21], fields[22])
  }

  /** The texts in front of, between and behind the outermost parentheses. */
  function Locate(data: string): Outcome<(string, string, string)> {
    var firstParen := IndexOf(data, '(');
    var lastParen := LastIndexOf(data, ')');
    if firstParen == -1 || lastParen == -1 then Err(Other("invalid format in stat"))
    else if firstParen == 0 || lastParen < firstParen + 1 then Panic  // slice bounds out of range
    else Ok((data[0..firstParen - 1], data[firstParen + 1..lastParen], data[lastParen + 1..]))
  }

  function Assemble(pidstr: string, comm: string, rest: string): Outcome<Stat> {
    var fields := [pidstr, comm] + Fields(rest);
    if |fields| < LAST_FIELD then Panic  // index out of range in fieldAt
    else Ok(Record(fields))
  }

  function ParseStat(data: string): Outcome<Stat> {
    var (pidstr, comm, rest) :- Locate(data);
    Assemble(pidstr, comm, rest)
  }

  // ---------- the kernel's side ----------

  /** Field (n) of proc(5) in a record. */
  function Position(s: Stat, n: nat): string
    requires 1 <= n <= LAST_FIELD
  {
    if n == 1 then s.pid else if n == 2 then s.comm else if n == 3 then s.state
    else if n == 4 then s.ppid else if n == 5 then s.pgrp else if n == 6 then s.session
    else if n == 7 then s.ttyNr else if n == 8 then s.tpgid else if n == 9 then s.flags
    else if n == 10 then s.minflt else if n == 11 then s.cminflt else if n == 12 then s.majflt
    else if n == 13 then s.cmajflt else if n == 14 then s.utime else if n == 15 then s.stime
    else if n == 16 then s.cutime else if n == 17 then s.cstime else if n == 18 then s.priority
    else if n == 19 then s.nice else if n == 20 then s.numThreads else if n == 21 then s.itrealvalue
    else if n == 22 then s.starttime else s.vsize
  }

  lemma RecordPosition(fields: seq<string>, n: nat)
    requires |fields| >= LAST_FIELD && 1 <= n <= LAST_FIELD
    ensures Position(Record(fields), n) == fields[n - 1]
  {
  }

  lemma SameRecord(s: Stat, t: Stat)
    requires forall n :: 1 <= n <= LAST_FIELD ==> Position(s, n) == Position(t, n)
    ensures s == t
  {
    assert Position(s, 1) == Position(t, 1) && Position(s, 2) == Position(t, 2) && Position(s, 3) == Position(t, 3);
    assert Position(s, 4) == Position(t, 4) && Position(s, 5) == Position(t, 5) && Position(s, 6) == Position(t, 6);
    assert Position(s, 7) == Position(t, 7) && Position(s, 8) == Position(t, 8) && Position(s, 9) == Position(t, 9);
    assert Position(s, 10) == Position(t, 10) && Position(s, 11) == Position(t, 11);
    assert Position(s, 12) == Position(t, 12) && Position(s, 13) == Position(t, 13);
    assert Position(s, 14) == Position(t, 14) && Position(s, 15) == Position(t, 15);
    assert Position(s, 16) == Position(t, 16) && Position(s, 17) == Position(t, 17);
    assert Position(s, 18) == Position(t, 18) && Position(s, 19) == Position(t, 19);
    assert Position(s, 20) == Position(t, 20) && Position(s, 21) == Position(t, 21);
    assert Position(s, 22) == Position(t, 22) && Position(s, 23) == Position(t, 23);
  }

  /** The record of a pid, a command name and the words behind it. */
  predicate Holds(s: Stat, pid: string, comm: string, tail: seq<string>)
    requires |tail| >= LAST_FIELD - 2
  {
    && s.pid == pid && s.comm == comm
    && forall n :: 3 <= n <= LAST_FIELD ==> Position(s, n) == tail[n - 3]
  }

  lemma RecordHolds(s: Stat, pid: string, comm: string, tail: seq<string>)
    requires |tail| >= LAST_FIELD - 2
    ensures Holds(s, pid, comm, tail) <==> s == Record([pid, comm] + tail)
  {
    var fields := [pid, comm] + tail;
    var r := Record(fields);
    forall n | 3 <= n <= LAST_FIELD
      ensures Position(r, n) == tail[n - 3]
    {
      RecordPosition(fields, n);
    }
    RecordPosition(fields, 1);
    RecordPosition(fields, 2);
    if Holds(s, pid, comm, tail) {
      assert Position(s, 1) == pid && Position(s, 2) == comm;
      SameRecord(s, r);
    }
  }

  /** The text `pid (comm) rest`, with any character at all between the pid and the parenthesis. */
  function PrintStat(pid: string, space: char, comm: string, rest: string): string {
    pid + [space] + "(" + comm + ")" + rest
  }

  /** A printed text has its first `(` right before the command name and its last `)` right behind
      it, so the parser takes it apart where the printer put it together. */
  lemma Parentheses(pid: string, space: char, comm: string, rest: string)
    requires '(' !in pid && space != '(' && ')' !in rest
    ensures Locate(PrintStat(pid, space, comm, rest)) == Ok((pid, comm, rest))
  {
    FirstParen(pid, space, comm, rest);
    LastParen(pid + [space], |pid| + 1, comm, rest);
    LocatePrinted(PrintStat(pid, space, comm, rest), |pid| + 1, pid, comm, rest);
  }

  lemma LocatePrinted(data: string, f: nat, pid: string, comm: string, rest: string)
    requires f == |pid| + 1 && IndexOf(data, '(') == f && data[0..|pid|] == pid
    requires var l := f + 1 + |comm|; LastIndexOf(data, ')') == l && data[f + 1..l] == comm && data[l + 1..] == rest
    ensures Locate(data) == Ok((pid, comm, rest))
  {
    LocateAt(data, f, f + 1 + |comm|, pid, comm, rest);
  }

  lemma LocateAt(data: string, f: nat, l: nat, pid: string, comm: string, rest: string)
    requires 1 <= f == IndexOf(data, '(') < l == LastIndexOf(data, ')')
    requires pid == data[0..f - 1] && comm == data[f + 1..l] && rest == data[l + 1..]
    ensures Locate(data) == Ok((pid, comm, rest))
  {
  }

  lemma FirstParen(pid: string, space: char, comm: string, rest: string)
    requires '(' !in pid && space != '('
    ensures var data := pid + [space] + "(" + comm + ")" + rest;
            IndexOf(data, '(') == |pid| + 1 && data[0..|pid|] == pid
  {
    var before := pid + [space];
    var behind := comm + ")" + rest;
    Regroup(before, "(", comm, ")", rest);
    IndexOfFirst(before, '(', behind);
    assert (before + "(" + behind)[0..|pid|] == pid;
  }

  lemma Regroup(a: string, b: string, c: string, d: string, e: string)
    ensures a + b + c + d + e == a + b + (c + d + e)
  {
  }

  lemma LastParen(before: string, n: nat, comm: string, rest: string)
    requires ')' !in rest && n == |before|
    ensures var data := before + "(" + comm + ")" + rest; var l := n + 1 + |comm|;
            && LastIndexOf(data, ')') == l
            && data[n + 1..l] == comm && data[l + 1..] == rest
  {
    LastIndexOfLast(before + "(" + comm, ')', rest);
  }

  /** Conversely, every text with a `(` behind its first character and a later `)` is a printed text. */
  lemma Unprint(data: string, f: nat, l: nat)
    requires 1 <= f == IndexOf(data, '(') < l == LastIndexOf(data, ')')
    ensures data == PrintStat(data[0..f - 1], data[f - 1], data[f + 1..l], data[l + 1..])
    ensures '(' !in data[0..f - 1] && data[f - 1] != '(' && ')' !in data[l + 1..]
  {
    PidPart(data, f);
    CommPart(data, f, l);
  }

  lemma PidPart(data: string, f: nat)
    requires 1 <= f == IndexOf(data, '(')
    ensures data[..f] == data[0..f - 1] + [data[f - 1]]
    ensures '(' !in data[0..f - 1] && data[f - 1] != '('
  {
    var before := data[..f];
    assert before[f - 1] in before;
    assert before == before[..f - 1] + [before[f - 1]];
  }

  lemma CommPart(data: string, f: nat, l: nat)
    requires f < l < |data| && data[f] == '(' && data[l] == ')'
    ensures data == data[..f] + "(" + data[f + 1..l] + ")" + data[l + 1..]
  {
    var init := data[..l];
    assert data == init + ")" + data[l + 1..];
    assert init == init[..f] + "(" + init[f + 1..];
    assert init[..f] == data[..f] && init[f + 1..] == data[f + 1..l];
  }

  /** The text shows the record: `rest` starts with fields (3) to (23). */
  ghost predicate Shows(data: string, s: Stat, space: char, rest: string) {
    && data == PrintStat(s.pid, space, s.comm, rest)
    && '(' !in s.pid && space != '('
    && ')' !in rest
    && |Fields(rest)| >= LAST_FIELD - 2
    && Holds(s, s.pid, s.comm, Fields(rest))
  }

  lemma ParseStatOfShown(data: string, s: Stat, space: char, rest: string)
    requires Shows(data, s, space, rest)
    ensures ParseStat(data) == Ok(s)
  {
    Parentheses(s.pid, space, s.comm, rest);
    RecordHolds(s, s.pid, s.comm, Fields(rest));
  }

  lemma ShownByParseStat(data: string, s: Stat)
    requires ParseStat(data) == Ok(s)
    ensures exists space: char, rest: string :: Shows(data, s, space, rest)
  {
    var f, l := IndexOf(data, '('), LastIndexOf(data, ')');
    var rest := data[l + 1..];
    Unprint(data, f, l);
    RecordHolds(s, data[0..f - 1], data[f + 1..l], Fields(rest));
    assert Shows(data, s, data[f - 1], rest);
  }

  /** ParseStat succeeds with a record exactly on the texts that show that record, whatever
      parentheses and white space the command name holds. */
  lemma ParseStatExact(data: string, s: Stat)
    ensures ParseStat(data) == Ok(s) <==> exists space: char, rest: string :: Shows(data, s, space, rest)
  {
    if space: char, rest: string :| Shows(data, s, space, rest) {
      ParseStatOfShown(data, s, space, rest);
    }
    if ParseStat(data) == Ok(s) {
      ShownByParseStat(data, s);
    }
  }

  /** The round trip: any pid text without `(`, any command name, and a tail of at least 21 words
      without `)`, set apart by any white space. */
  lemma ParseStatOfPrinted(pid: string, comm: string, items: seq<Item>, end: string)
    requires '(' !in pid
    requires Spaced(items) && |items| >= LAST_FIELD - 2
    requires Blank(end) && ')' !in Spread(items)
    ensures var r := ParseStat(PrintStat(pid, ' ', comm, Spread(items) + end));
            r.Ok? && Holds(r.value, pid, comm, Words(items))
  {
    var rest := Spread(items) + end;
    assert !IsSpace(')');
    FieldsOfSpread(items, end);
    var s := Record([pid, comm] + Words(items));
    RecordHolds(s, pid, comm, Words(items));
    assert Shows(PrintStat(pid, ' ', comm, rest), s, ' ', rest);
    ParseStatOfShown(PrintStat(pid, ' ', comm, rest), s, ' ', rest);
  }

  /** Every other text: an error exactly when a parenthesis is missing altogether; an index out of
      bounds exactly when both occur but the text starts with `(`, no `)` stands behind a `(`, or fewer
      than 21 fields stand behind the last `)`. */
  lemma ParseStatFailures(data: string)
    ensures ParseStat(data).Err? <==> '(' !in data || ')' !in data
    ensures '(' in data && ')' in data ==>
      (ParseStat(data).Panic? <==>
        || data[0] == '('
        || (forall i, j :: 0 <= i < j < |data| && data[i] == '(' ==> data[j] != ')')
        || |Fields(data[LastIndexOf(data, ')') + 1..])| < LAST_FIELD - 2)
  {
    if '(' in data && ')' in data {
      ParenOrder(data);
    }
  }

  lemma ParenOrder(data: string)
    requires '(' in data && ')' in data
    ensures IndexOf(data, '(') < LastIndexOf(data, ')') <==>
            exists i, j :: 0 <= i < j < |data| && data[i] == '(' && data[j] == ')'
  {
    var f, l := IndexOf(data, '('), LastIndexOf(data, ')');
    if i, j :| 0 <= i < j < |data| && data[i] == '(' && data[j] == ')' {
      NotBefore(data, f, i, '(');
      NotBehind(data, l, j, ')');
    }
    if f < l {
      assert data[f] == '(' && data[l] == ')';
    }
  }

  lemma NotBefore(data: string, f: nat, i: nat, c: char)
    requires f < |data| && i < |data| && c !in data[..f] && data[i] == c
    ensures f <= i
  {
    assert forall n :: 0 <= n < f ==> data[..f][n] == data[n];
  }

  lemma NotBehind(data: string, l: nat, j: nat, c: char)
    requires l < |data| && j < |data| && c !in data[l + 1..] && data[j] == c
    ensures j <= l
  {
    assert forall n :: l < n < |data| ==> data[l + 1..][n - l - 1] == data[n];
  }
}
