/** The format descriptors of psgo.go, and translateDescriptors. */
module Descriptors {
  import opened Outcomes
  import opened Text

  /** The functions that compute a column. */
  datatype ProcFn =
    | PCPU | GROUP | PPID | USER | ARGS | COMM | RGROUP | NICE | PID | PGID | ETIME | RUSER | TIME | TTY | VSZ
    | CAPAMB | CAPINH | CAPPRM | CAPEFF | CAPBND | SECCOMP | LABEL | HPID | HUSER | HGROUP | RSS | STATE | STIME

  datatype Descriptor = Descriptor(code: string, normal: string, header: string, onHost: bool, procFn: ProcFn)

  const TABLE_SIZE: nat := 28
  const WITHOUT_CODE: nat := 13

  /** The entries of aixFormatDescriptors, in order */
  function Entry(i: nat): Descriptor
    requires i < TABLE_SIZE
  {
    if i < 8 then FirstEntries(i) else if i < 15 then SecondEntries(i)
    else if i < 22 then ThirdEntries(i) else LastEntries(i)
  }

  function FirstEntries(i: nat): Descriptor
    requires 0 <= i < 8
  {
    match i
    case 0 => Descriptor("%C", "pcpu", "%CPU", false, PCPU)
    case 1 => Descriptor("%G", "group", "GROUP", false, GROUP)
    case 2 => Descriptor("%P", "ppid", "PPID", false, PPID)
    case 3 => Descriptor("%U", "user", "USER", false, USER)
    case 4 => Descriptor("%a", "args", "COMMAND", false, ARGS)
    case 5 => Descriptor("%c", "comm", "COMMAND", false, COMM)
    case 6 => Descriptor("%g", "rgroup", "RGROUP", false, RGROUP)
    case _ => Descriptor("%n", "nice", "NI", false, NICE)
  }

  function SecondEntries(i: nat): Descriptor
    requires 8 <= i < 15
  {
    match i
    case 8 => Descriptor("%p", "pid", "PID", false, PID)
    case 9 => Descriptor("%r", "pgid", "PGID", false, PGID)
    case 10 => Descriptor("%t", "etime", "ELAPSED", false, ETIME)
    case 11 => Descriptor("%u", "ruser", "RUSER", false, RUSER)
    case 12 => Descriptor("%x", "time", "TIME", false, TIME)
    case 13 => Descriptor("%y", "tty", "TTY", false, TTY)
    case _ => Descriptor("%z", "vsz", "VSZ", false, VSZ)
  }

  function ThirdEntries(i: nat): Descriptor
    requires 15 <= i < 22
  {
    match i
    case 15 => Descriptor("", "capamb", "AMBIENT CAPS", false, CAPAMB)
    case 16 => Descriptor("", "capinh", "INHERITED CAPS", false, CAPINH)
    case 17 => Descriptor("", "capprm", "PERMITTED CAPS", false, CAPPRM)
    case 18 => Descriptor("", "capeff", "EFFECTIVE CAPS", false, CAPEFF)
    case 19 => Descriptor("", "capbnd", "BOUNDING CAPS", false, CAPBND)
    case 20 => Descriptor("", "seccomp", "SECCOMP", false, SECCOMP)
    case _ => Descriptor("", "label", "LABEL", false, LABEL)
  }

  function LastEntries(i: nat): Descriptor
    requires 22 <= i < 28
  {
    match i
    case 22 => Descriptor("", "hpid", "HPID", true, HPID)
    case 23 => Descriptor("", "huser", "HUSER", true, HUSER)
    case 24 => Descriptor("", "hgroup", "HGROUP", true, HGROUP)
    case 25 => Descriptor("", "rss", "RSS", false, RSS)
    case 26 => Descriptor("", "state", "STATE", false, STATE)
    case _ => Descriptor("", "stime", "STIME", false, STIME)
  }

  const DEFAULT_DESCRIPTORS: seq<string> := ["user", "pid", "ppid", "pcpu", "etime", "tty", "time", "args"]

  predicate Hit(d: string, i: nat)
    requires i < TABLE_SIZE
  {
    d == Entry(i).code || d == Entry(i).normal
  }

  /** The entries among the first k that a trimmed descriptor hits */
  function Hits(d: string, k: nat): seq<Descriptor>
    requires k <= TABLE_SIZE
  {
    if k == 0 then [] else Hits(d, k - 1) + if Hit(d, k - 1) then [Entry(k - 1)] else []
  }

  /** The descriptors resolved one by one; an unknown one is an error. */
  function Resolved(ds: seq<string>): Outcome<seq<Descriptor>> {
    if ds == [] then Ok([])
    else
      var before := Resolved(ds[..|ds| - 1]);
      var d := TrimSpace(ds[|ds| - 1]);
      if !before.Ok? then before
      else if Hits(d, TABLE_SIZE) == [] then Err(Other(d))
      else Ok(before.value + Hits(d, TABLE_SIZE))
  }

  function Translated(descriptors: seq<string>): Outcome<seq<Descriptor>> {
    Resolved(if descriptors == [] then DEFAULT_DESCRIPTORS else descriptors)
  }

  method TranslateDescriptors(descriptors: seq<string>) returns (r: Outcome<seq<Descriptor>>)
    ensures r == Translated(descriptors)
  {
    var ds := if |descriptors| == 0 then DEFAULT_DESCRIPTORS else descriptors;
    var formatDescriptors: seq<Descriptor> := [];
    for n := 0 to |ds|
      invariant Resolved(ds[..n]) == Ok(formatDescriptors)
    {
      var d := TrimSpace(ds[n]);
      var found;
      formatDescriptors, found := AppendHits(formatDescriptors, d);
      ResolvedStep(ds, n);
      if !found {
        ResolvedFailure(ds, n + 1);
        return Err(Other(d));
      }
    }
    assert ds[..|ds|] == ds;
    return Ok(formatDescriptors);
  }

  /** The inner loop */
  method AppendHits(before: seq<Descriptor>, d: string) returns (formatDescriptors: seq<Descriptor>, found: bool)
    ensures formatDescriptors == before + Hits(d, TABLE_SIZE)
    ensures found <==> Hits(d, TABLE_SIZE) != []
  {
    formatDescriptors, found := before, false;
    for i := 0 to TABLE_SIZE
      invariant formatDescriptors == before + Hits(d, i)
      invariant found <==> Hits(d, i) != []
    {
      var aix := Entry(i);
      if d == aix.code || d == aix.normal {
        formatDescriptors := formatDescriptors + [aix];
        found := true;
      }
    }
  }

  lemma ResolvedStep(ds: seq<string>, n: nat)
    requires n < |ds| && Resolved(ds[..n]).Ok?
    ensures var hits := Hits(TrimSpace(ds[n]), TABLE_SIZE);
            Resolved(ds[..n + 1]) ==
            if hits == [] then Err(Other(TrimSpace(ds[n]))) else Ok(Resolved(ds[..n]).value + hits)
  {
    assert ds[..n + 1][..n] == ds[..n];
  }

  lemma {:induction false} ResolvedFailure(ds: seq<string>, n: nat)
    requires n <= |ds| && !Resolved(ds[..n]).Ok?
    ensures Resolved(ds) == Resolved(ds[..n])
    decreases |ds| - n
  {
    if n < |ds| {
      assert ds[..n + 1][..n] == ds[..n];
      ResolvedFailure(ds, n + 1);
    } else {
      assert ds[..n] == ds;
    }
  }

  // ---------- what a name hits ----------

  /** The entry that a code or a normal form names */
  function NamedEntry(name: string): (i: Option<nat>)
    ensures i.Some? ==> i.value < TABLE_SIZE && Hit(name, i.value) && name != ""
  {
    if FirstNames(name).Some? then FirstNames(name)
    else if SecondNames(name).Some? then SecondNames(name)
    else if ThirdNames(name).Some? then ThirdNames(name)
    else LastNames(name)
  }

  function FirstNames(name: string): (i: Option<nat>)
    ensures i.Some? ==> 0 <= i.value < 8 && Hit(name, i.value) && name != ""
  {
    match name
    case "%C" => Some(0)
    case "pcpu" => Some(0)
    case "%G" => Some(1)
    case "group" => Some(1)
    case "%P" => Some(2)
    case "ppid" => Some(2)
    case "%U" => Some(3)
    case "user" => Some(3)
    case "%a" => Some(4)
    case "args" => Some(4)
    case "%c" => Some(5)
    case "comm" => Some(5)
    case "%g" => Some(6)
    case "rgroup" => Some(6)
    case "%n" => Some(7)
    case "nice" => Some(7)
    case _ => None
  }

  function SecondNames(name: string): (i: Option<nat>)
    ensures i.Some? ==> 8 <= i.value < 15 && Hit(name, i.value) && name != ""
  {
    match name
    case "%p" => Some(8)
    case "pid" => Some(8)
    case "%r" => Some(9)
    case "pgid" => Some(9)
    case "%t" => Some(10)
    case "etime" => Some(10)
    case "%u" => Some(11)
    case "ruser" => Some(11)
    case "%x" => Some(12)
    case "time" => Some(12)
    case "%y" => Some(13)
    case "tty" => Some(13)
    case "%z" => Some(14)
    case "vsz" => Some(14)
    case _ => None
  }

  function ThirdNames(name: string): (i: Option<nat>)
    ensures i.Some? ==> 15 <= i.value < 22 && Hit(name, i.value) && name != ""
  {
    match name
    case "capamb" => Some(15)
    case "capinh" => Some(16)
    case "capprm" => Some(17)
    case "capeff" => Some(18)
    case "capbnd" => Some(19)
    case "seccomp" => Some(20)
    case "label" => Some(21)
    case _ => None
  }

  function LastNames(name: string): (i: Option<nat>)
    ensures i.Some? ==> 22 <= i.value < 28 && Hit(name, i.value) && name != ""
  {
    match name
    case "hpid" => Some(22)
    case "huser" => Some(23)
    case "hgroup" => Some(24)
    case "rss" => Some(25)
    case "state" => Some(26)
    case "stime" => Some(27)
    case _ => None
  }

  lemma FirstEntriesNamed(i: nat)
    requires 0 <= i < 8
    ensures NamedEntry(Entry(i).normal) == Some(i)
    ensures Entry(i).code != "" ==> NamedEntry(Entry(i).code) == Some(i)
    ensures Entry(i).code == "" <==> i >= TABLE_SIZE - WITHOUT_CODE
    ensures Entry(i).onHost <==> Entry(i).procFn in {HPID, HUSER, HGROUP}
  {
  }

  lemma SecondEntriesNamed(i: nat)
    requires 8 <= i < 15
    ensures NamedEntry(Entry(i).normal) == Some(i)
    ensures Entry(i).code != "" ==> NamedEntry(Entry(i).code) == Some(i)
    ensures Entry(i).code == "" <==> i >= TABLE_SIZE - WITHOUT_CODE
    ensures Entry(i).onHost <==> Entry(i).procFn in {HPID, HUSER, HGROUP}
  {
  }

  lemma ThirdEntriesNamed(i: nat)
    requires 15 <= i < 22
    ensures NamedEntry(Entry(i).normal) == Some(i)
    ensures Entry(i).code != "" ==> NamedEntry(Entry(i).code) == Some(i)
    ensures Entry(i).code == "" <==> i >= TABLE_SIZE - WITHOUT_CODE
    ensures Entry(i).onHost <==> Entry(i).procFn in {HPID, HUSER, HGROUP}
  {
  }

  lemma LastEntriesNamed(i: nat)
    requires 22 <= i < 28
    ensures NamedEntry(Entry(i).normal) == Some(i)
    ensures Entry(i).code != "" ==> NamedEntry(Entry(i).code) == Some(i)
    ensures Entry(i).code == "" <==> i >= TABLE_SIZE - WITHOUT_CODE
    ensures Entry(i).onHost <==> Entry(i).procFn in {HPID, HUSER, HGROUP}
  {
  }

  lemma EntryNamed(i: nat)
    requires i < TABLE_SIZE
    ensures NamedEntry(Entry(i).normal) == Some(i)
    ensures Entry(i).code != "" ==> NamedEntry(Entry(i).code) == Some(i)
    ensures Entry(i).code == "" <==> i >= TABLE_SIZE - WITHOUT_CODE
    ensures Entry(i).onHost <==> Entry(i).procFn in {HPID, HUSER, HGROUP}
  {
    if i < 8 {
      FirstEntriesNamed(i);
    } else if i < 15 {
      SecondEntriesNamed(i);
    } else if i < 22 {
      ThirdEntriesNamed(i);
    } else {
      LastEntriesNamed(i);
    }
  }

  lemma HitExact(d: string, i: nat)
    requires i < TABLE_SIZE
    ensures Hit(d, i) <==> if d == "" then i >= TABLE_SIZE - WITHOUT_CODE else NamedEntry(d) == Some(i)
  {
    EntryNamed(i);
  }

  /** A name hits the one entry that it names, if any. */
  lemma {:induction false} HitsOfName(d: string, k: nat)
    requires d != "" && k <= TABLE_SIZE
    ensures Hits(d, k) == var i := NamedEntry(d); if i.Some? && i.value < k then [Entry(i.value)] else []
  {
    if k > 0 {
      HitsOfName(d, k - 1);
      HitExact(d, k - 1);
    }
  }

  /** A blank hits every entry without a code. */
  lemma {:induction false} HitsOfBlank(k: nat)
    requires k <= TABLE_SIZE
    ensures |Hits("", k)| == if k <= TABLE_SIZE - WITHOUT_CODE then 0 else k - (TABLE_SIZE - WITHOUT_CODE)
    ensures forall j :: 0 <= j < |Hits("", k)| ==> Hits("", k)[j] == Entry(TABLE_SIZE - WITHOUT_CODE + j)
  {
    if k > 0 {
      HitsOfBlank(k - 1);
      HitExact("", k - 1);
    }
  }

  // ---------- what a request resolves to ----------

  predicate BlankRequest(d: string) {
    TrimSpace(d) == ""
  }

  predicate Known(d: string) {
    BlankRequest(d) || NamedEntry(TrimSpace(d)).Some?
  }

  function Blanks(ds: seq<string>): nat {
    if ds == [] then 0 else Blanks(ds[..|ds| - 1]) + if BlankRequest(ds[|ds| - 1]) then 1 else 0
  }

  lemma HitsOfRequest(d: string)
    ensures var hits := Hits(TrimSpace(d), TABLE_SIZE);
            && (hits == [] <==> !Known(d))
            && (BlankRequest(d) ==> |hits| == WITHOUT_CODE)
            && (!BlankRequest(d) && Known(d) ==> hits == [Entry(NamedEntry(TrimSpace(d)).value)])
  {
    if BlankRequest(d) {
      HitsOfBlank(TABLE_SIZE);
    } else {
      HitsOfName(TrimSpace(d), TABLE_SIZE);
    }
  }

  /** The first request that is not known, or -1 */
  function FirstUnknown(ds: seq<string>, known: string -> bool): (n: int)
    ensures -1 <= n < |ds|
    ensures n >= 0 ==> !known(ds[n])
    ensures forall m :: 0 <= m < (if n == -1 then |ds| else n) ==> known(ds[m])
  {
    if ds == [] then -1
    else
      var n := FirstUnknown(ds[..|ds| - 1], known);
      if n == -1 && !known(ds[|ds| - 1]) then |ds| - 1 else n
  }

  /** The resolution fails exactly with the first request that names nothing; else there is one column for
      every request, and for a blank one thirteen. */
  lemma {:induction false} ResolvedExact(ds: seq<string>)
    ensures var n, r := FirstUnknown(ds, Known), Resolved(ds);
            if n >= 0 then r == Err(Other(TrimSpace(ds[n])))
            else r.Ok? && |r.value| == |ds| + (WITHOUT_CODE - 1) * Blanks(ds)
  {
    if ds != [] {
      ResolvedExact(ds[..|ds| - 1]);
      HitsOfRequest(ds[|ds| - 1]);
    }
  }

  /** A single blank as the request gives thirteen columns, from capamb to stime. */
  lemma BlankSelects()
    ensures var r := Resolved([" "]);
            && r.Ok? && |r.value| == 13
            && forall j :: 0 <= j < 13 ==> r.value[j] == Entry(15 + j) && r.value[j].code == ""
  {
    assert TrimSpace(" ") == "";
    HitsOfBlank(TABLE_SIZE);
    assert [" "][..0] == [];
    assert Resolved([]) == Ok([]);
    forall i: nat | 15 <= i < TABLE_SIZE
      ensures Entry(i).code == ""
    {
      EntryNamed(i);
    }
  }

  /** The column that a known request names */
  function Column(d: string): Descriptor {
    var i := NamedEntry(TrimSpace(d));
    if i.Some? then Entry(i.value) else Entry(0)
  }

  /** Without blanks the columns are the requested ones, one to one and in order, whether a request is the
      code or the normal form of its entry. */
  lemma ResolvedOneToOne(ds: seq<string>)
    requires Resolved(ds).Ok?
    requires forall m :: 0 <= m < |ds| ==> !BlankRequest(ds[m])
    ensures |Resolved(ds).value| == |ds|
    ensures forall m :: 0 <= m < |ds| ==> Known(ds[m]) && Resolved(ds).value[m] == Column(ds[m])
  {
    ResolvedExact(ds);
    forall m | 0 <= m < |ds|
      ensures Known(ds[m]) && Hits(TrimSpace(ds[m]), TABLE_SIZE) == [Column(ds[m])]
    {
      HitsOfRequest(ds[m]);
    }
    OneColumnEach(ds, Column);
  }

  lemma {:induction false} OneColumnEach(ds: seq<string>, column: string -> Descriptor)
    requires Resolved(ds).Ok?
    requires forall m :: 0 <= m < |ds| ==> Hits(TrimSpace(ds[m]), TABLE_SIZE) == [column(ds[m])]
    ensures |Resolved(ds).value| == |ds|
    ensures forall m :: 0 <= m < |ds| ==> Resolved(ds).value[m] == column(ds[m])
  {
    if ds != [] {
      OneColumnEach(ds[..|ds| - 1], column);
    }
  }

  /** Requests that name the same entries, by code or by normal form, resolve to the same columns. */
  lemma {:induction false} CodeOrNormal(ds: seq<string>, es: seq<string>)
    requires |ds| == |es|
    requires forall m :: 0 <= m < |ds| ==>
               NamedEntry(TrimSpace(ds[m])).Some? && NamedEntry(TrimSpace(ds[m])) == NamedEntry(TrimSpace(es[m]))
    ensures Resolved(ds) == Resolved(es)
  {
    if ds != [] {
      var last := |ds| - 1;
      CodeOrNormal(ds[..last], es[..last]);
      HitsOfRequest(ds[last]);
      HitsOfRequest(es[last]);
    }
  }

  // ---------- what each name shows ----------

  /** What a column shows: its heading, and the function that computes it */
  datatype Shown = Shown(header: string, procFn: ProcFn)

  /** The column of each name, be it a normal form or a code */
  function ShownFor(name: string): Option<Shown> {
    if FirstShown(name).Some? then FirstShown(name)
    else if SecondShown(name).Some? then SecondShown(name)
    else if ThirdShown(name).Some? then ThirdShown(name)
    else LastShown(name)
  }

  function FirstShown(name: string): Option<Shown> {
    match name
    case "pcpu" => Some(Shown("%CPU", PCPU))
    case "%C" => Some(Shown("%CPU", PCPU))
    case "group" => Some(Shown("GROUP", GROUP))
    case "%G" => Some(Shown("GROUP", GROUP))
    case "ppid" => Some(Shown("PPID", PPID))
    case "%P" => Some(Shown("PPID", PPID))
    case "user" => Some(Shown("USER", USER))
    case "%U" => Some(Shown("USER", USER))
    case "args" => Some(Shown("COMMAND", ARGS))
    case "%a" => Some(Shown("COMMAND", ARGS))
    case "comm" => Some(Shown("COMMAND", COMM))
    case "%c" => Some(Shown("COMMAND", COMM))
    case "rgroup" => Some(Shown("RGROUP", RGROUP))
    case "%g" => Some(Shown("RGROUP", RGROUP))
    case "nice" => Some(Shown("NI", NICE))
    case "%n" => Some(Shown("NI", NICE))
    case _ => None
  }

  function SecondShown(name: string): Option<Shown> {
    match name
    case "pid" => Some(Shown("PID", PID))
    case "%p" => Some(Shown("PID", PID))
    case "pgid" => Some(Shown("PGID", PGID))
    case "%r" => Some(Shown("PGID", PGID))
    case "etime" => Some(Shown("ELAPSED", ETIME))
    case "%t" => Some(Shown("ELAPSED", ETIME))
    case "ruser" => Some(Shown("RUSER", RUSER))
    case "%u" => Some(Shown("RUSER", RUSER))
    case "time" => Some(Shown("TIME", TIME))
    case "%x" => Some(Shown("TIME", TIME))
    case "tty" => Some(Shown("TTY", TTY))
    case "%y" => Some(Shown("TTY", TTY))
    case "vsz" => Some(Shown("VSZ", VSZ))
    case "%z" => Some(Shown("VSZ", VSZ))
    case _ => None
  }

  function ThirdShown(name: string): Option<Shown> {
    match name
    case "capamb" => Some(Shown("AMBIENT CAPS", CAPAMB))
    case "capinh" => Some(Shown("INHERITED CAPS", CAPINH))
    case "capprm" => Some(Shown("PERMITTED CAPS", CAPPRM))
    case "capeff" => Some(Shown("EFFECTIVE CAPS", CAPEFF))
    case "capbnd" => Some(Shown("BOUNDING CAPS", CAPBND))
    case "seccomp" => Some(Shown("SECCOMP", SECCOMP))
    case "label" => Some(Shown("LABEL", LABEL))
    case _ => None
  }

  function LastShown(name: string): Option<Shown> {
    match name
    case "hpid" => Some(Shown("HPID", HPID))
    case "huser" => Some(Shown("HUSER", HUSER))
    case "hgroup" => Some(Shown("HGROUP", HGROUP))
    case "rss" => Some(Shown("RSS", RSS))
    case "state" => Some(Shown("STATE", STATE))
    case "stime" => Some(Shown("STIME", STIME))
    case _ => None
  }

  lemma FirstShownExact(name: string)
    ensures FirstShown(name).Some? <==> FirstNames(name).Some?
    ensures FirstNames(name).Some? ==>
              var e := FirstEntries(FirstNames(name).value); FirstShown(name) == Some(Shown(e.header, e.procFn))
  {
  }

  lemma SecondShownExact(name: string)
    ensures SecondShown(name).Some? <==> SecondNames(name).Some?
    ensures SecondNames(name).Some? ==>
              var e := SecondEntries(SecondNames(name).value); SecondShown(name) == Some(Shown(e.header, e.procFn))
  {
  }

  lemma ThirdShownExact(name: string)
    ensures ThirdShown(name).Some? <==> ThirdNames(name).Some?
    ensures ThirdNames(name).Some? ==>
              var e := ThirdEntries(ThirdNames(name).value); ThirdShown(name) == Some(Shown(e.header, e.procFn))
  {
  }

  lemma LastShownExact(name: string)
    ensures LastShown(name).Some? <==> LastNames(name).Some?
    ensures LastNames(name).Some? ==>
              var e := LastEntries(LastNames(name).value); LastShown(name) == Some(Shown(e.header, e.procFn))
  {
  }

  /** Every name that is known resolves to the one column with its heading and its function. */
  lemma ShownExact(name: string)
    ensures NamedEntry(name).Some? <==> ShownFor(name).Some?
    ensures NamedEntry(name).Some? ==>
              var e := Entry(NamedEntry(name).value); ShownFor(name) == Some(Shown(e.header, e.procFn))
  {
    FirstShownExact(name);
    SecondShownExact(name);
    ThirdShownExact(name);
    LastShownExact(name);
  }

  /** A request without blanks: the columns are those of its names, in order. */
  lemma RequestShown(ds: seq<string>)
    requires Resolved(ds).Ok? && forall m :: 0 <= m < |ds| ==> !BlankRequest(ds[m])
    ensures |Resolved(ds).value| == |ds|
    ensures forall m :: 0 <= m < |ds| ==>
              var c := Resolved(ds).value[m]; ShownFor(TrimSpace(ds[m])) == Some(Shown(c.header, c.procFn))
  {
    ResolvedOneToOne(ds);
    forall m | 0 <= m < |ds|
      ensures var c := Resolved(ds).value[m]; ShownFor(TrimSpace(ds[m])) == Some(Shown(c.header, c.procFn))
    {
      HitsOfRequest(ds[m]);
      ShownExact(TrimSpace(ds[m]));
    }
  }

  /** The request succeeds exactly if each of its names, without the white space around it, is known or empty. */
  lemma RequestKnown(ds: seq<string>)
    ensures Resolved(ds).Ok? <==>
            forall m :: 0 <= m < |ds| ==> TrimSpace(ds[m]) == "" || ShownFor(TrimSpace(ds[m])).Some?
  {
    ResolvedExact(ds);
    forall m | 0 <= m < |ds|
      ensures Known(ds[m]) <==> TrimSpace(ds[m]) == "" || ShownFor(TrimSpace(ds[m])).Some?
    {
      ShownExact(TrimSpace(ds[m]));
    }
  }

  const DEFAULT_SHOWN: seq<Shown> := [
    Shown("USER", USER), Shown("PID", PID), Shown("PPID", PPID), Shown("%CPU", PCPU), Shown("ELAPSED", ETIME),
    Shown("TTY", TTY), Shown("TIME", TIME), Shown("COMMAND", ARGS)
  ]

  /** The empty request */
  lemma DefaultShown()
    ensures Translated([]).Ok? && |Translated([]).value| == 8
    ensures forall m :: 0 <= m < 8 ==>
              DEFAULT_SHOWN[m] == Shown(Translated([]).value[m].header, Translated([]).value[m].procFn)
  {
    DefaultKnown();
    RequestKnown(DEFAULT_DESCRIPTORS);
    RequestShown(DEFAULT_DESCRIPTORS);
  }

  lemma DefaultKnown()
    ensures |DEFAULT_DESCRIPTORS| == 8
    ensures forall m :: 0 <= m < 8 ==> TrimSpace(DEFAULT_DESCRIPTORS[m]) != ""
    ensures forall m :: 0 <= m < 8 ==> ShownFor(TrimSpace(DEFAULT_DESCRIPTORS[m])) == Some(DEFAULT_SHOWN[m])
  {
    DefaultTrimmed(DEFAULT_DESCRIPTORS);
    forall m | 0 <= m < 8
      ensures ShownFor(DEFAULT_DESCRIPTORS[m]) == Some(DEFAULT_SHOWN[m])
    {
    }
  }

  lemma DefaultTrimmed(ds: seq<string>)
    requires forall m :: 0 <= m < |ds| ==> Word(ds[m])
    ensures forall m :: 0 <= m < |ds| ==> TrimSpace(ds[m]) == ds[m]
  {
    forall m | 0 <= m < |ds|
      ensures TrimSpace(ds[m]) == ds[m]
    {
      assert ds[m][0] in ds[m] && ds[m][|ds[m]| - 1] in ds[m];
      TrimSpaceOf("", ds[m], "");
      assert "" + ds[m] + "" == ds[m];
    }
  }

  /** The thirteen columns of a blank request */
  const BLANK_SHOWN: seq<Shown> := [
    Shown("AMBIENT CAPS", CAPAMB), Shown("INHERITED CAPS", CAPINH), Shown("PERMITTED CAPS", CAPPRM),
    Shown("EFFECTIVE CAPS", CAPEFF), Shown("BOUNDING CAPS", CAPBND), Shown("SECCOMP", SECCOMP), Shown("LABEL", LABEL),
    Shown("HPID", HPID), Shown("HUSER", HUSER), Shown("HGROUP", HGROUP), Shown("RSS", RSS), Shown("STATE", STATE),
    Shown("STIME", STIME)
  ]

  lemma BlankShown(j: nat)
    requires j < 13
    ensures |Hits("", TABLE_SIZE)| == 13
    ensures var c := Hits("", TABLE_SIZE)[j]; BLANK_SHOWN[j] == Shown(c.header, c.procFn)
  {
    HitsOfBlank(TABLE_SIZE);
    assert Hits("", TABLE_SIZE)[j] == Entry(15 + j);
    BlankEntry(j);
  }

  lemma BlankEntry(j: nat)
    requires j < 13
    ensures BLANK_SHOWN[j] == Shown(Entry(15 + j).header, Entry(15 + j).procFn)
  {
    if j < 7 {
      assert Entry(15 + j) == ThirdEntries(15 + j);
    } else {
      assert Entry(15 + j) == LastEntries(15 + j);
    }
  }

  /** What stands in column c of a request: request m has one column, that of its name, or thirteen if it is blank,
      behind those of the requests before it. */
  predicate StandsAt(ds: seq<string>, m: nat, c: nat, shown: Shown) {
    && m < |ds|
    && var first := m + 12 * Blanks(ds[..m]);
       if TrimSpace(ds[m]) != "" then c == first && ShownFor(TrimSpace(ds[m])) == Some(shown)
       else first <= c < first + 13 && shown == BLANK_SHOWN[c - first]
  }

  lemma {:induction false} ColumnAt(ds: seq<string>, m: nat, c: nat, shown: Shown)
    requires Resolved(ds).Ok? && StandsAt(ds, m, c, shown)
    ensures c < |Resolved(ds).value|
    ensures Shown(Resolved(ds).value[c].header, Resolved(ds).value[c].procFn) == shown
  {
    var init, last := ds[..|ds| - 1], ds[|ds| - 1];
    ResolvedLast(ds, init, last);
    if m < |ds| - 1 {
      assert init[..m] == ds[..m];
      ColumnAt(init, m, c, shown);
    } else {
      ResolvedExact(init);
      LastColumn(last, c - |Resolved(init).value|, shown);
    }
  }

  lemma LastColumn(d: string, j: int, shown: Shown)
    requires if TrimSpace(d) != "" then j == 0 && ShownFor(TrimSpace(d)) == Some(shown)
             else 0 <= j < 13 && shown == BLANK_SHOWN[j]
    ensures 0 <= j < |Hits(TrimSpace(d), TABLE_SIZE)|
    ensures var c := Hits(TrimSpace(d), TABLE_SIZE)[j]; Shown(c.header, c.procFn) == shown
  {
    if TrimSpace(d) != "" {
      HitsOfRequest(d);
      ShownExact(TrimSpace(d));
    } else {
      BlankShown(j);
    }
  }

  /** Exactly the columns that look at host processes are flagged. */
  predicate Flagged(d: Descriptor) {
    d.onHost <==> d.procFn in {HPID, HUSER, HGROUP}
  }

  lemma {:induction false} HitsFlagged(d: string, k: nat, j: nat)
    requires k <= TABLE_SIZE && j < |Hits(d, k)|
    ensures Flagged(Hits(d, k)[j])
  {
    if j < |Hits(d, k - 1)| {
      HitsFlagged(d, k - 1, j);
    } else {
      EntryNamed(k - 1);
    }
  }

  lemma ResolvedLast(ds: seq<string>, init: seq<string>, last: string)
    requires ds != [] && init == ds[..|ds| - 1] && last == ds[|ds| - 1] && Resolved(ds).Ok?
    ensures Resolved(init).Ok? && Resolved(ds).value == Resolved(init).value + Hits(TrimSpace(last), TABLE_SIZE)
  {
  }

  lemma {:induction false} ResolvedFlagged(ds: seq<string>, j: nat)
    requires Resolved(ds).Ok? && j < |Resolved(ds).value|
    ensures Flagged(Resolved(ds).value[j])
  {
    if ds != [] {
      var init, last := ds[..|ds| - 1], ds[|ds| - 1];
      ResolvedLast(ds, init, last);
      var before := Resolved(init).value;
      if j < |before| {
        ResolvedFlagged(init, j);
      } else {
        HitsFlagged(TrimSpace(last), TABLE_SIZE, j - |before|);
      }
    }
  }
}
