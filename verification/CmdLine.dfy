/** internal/proc/cmdline.go and processARGS of psgo.go: the command line of a process. */
module CmdLine {
  import opened Outcomes
  import opened Text

  const NUL: char := '\0'

  /** The arguments are what the NUL characters of the file separate: joined again they give back
      the file, and no argument holds a NUL. */
  method ParseCmdLine(data: string) returns (cmdLine: seq<string>)
    ensures cmdLine == Split(data, NUL)
    ensures cmdLine != [] && Join(cmdLine, [NUL]) == data
  {
    var rawCmds := Split(data, NUL);
    cmdLine := [];
    for i := 0 to |rawCmds|
      invariant cmdLine == rawCmds[..i]
    {
      cmdLine := cmdLine + [rawCmds[i]];
    }
    JoinOfSplit(data, NUL);
  }

  /** processARGS, on the arguments and the name of a process */
  function ProcessArgs(cmdLine: seq<string>, name: string): Outcome<string> {
    if cmdLine == [] then Panic  // index out of range
    else if cmdLine[0] == "" then Ok("[" + name + "]")
    else Ok(Join(cmdLine, " "))
  }

  /** For every command-line file processARGS succeeds: with the bracketed name exactly when the file
      is empty or starts with a NUL, and else with the file's text, each NUL turned into a space. */
  lemma ArgsOfFile(data: string, name: string)
    ensures ProcessArgs(Split(data, NUL), name) ==
            Ok(if data == "" || data[0] == NUL then "[" + name + "]" else Replace(data, NUL, " "))
  {
    var parts := Split(data, NUL);
    JoinOfSplit(data, NUL);
    if parts[0] != "" {
      assert parts[0] in parts;
      assert data[0] == parts[0][0] && parts[0][0] in parts[0];
      JoinIsReplace(parts, NUL, " ");
    }
  }

  /** The kernel's file: every argument is followed by a NUL. */
  function PrintCmdLine(args: seq<string>): string {
    if args == [] then "" else args[0] + [NUL] + PrintCmdLine(args[1..])
  }

  lemma Reassemble(args: seq<string>, end: seq<string>)
    requires args != []
    ensures [args[0]] + (args[1..] + end) == args + end
  {
  }

  lemma {:induction false} SplitOfPrinted(args: seq<string>)
    requires forall i :: 0 <= i < |args| ==> NUL !in args[i]
    ensures Split(PrintCmdLine(args), NUL) == args + [""]
  {
    if args == [] {
      assert Split("", NUL) == [""];
    } else {
      SplitOfPrinted(args[1..]);
      SplitFirst(args[0], NUL, PrintCmdLine(args[1..]));
      Reassemble(args, [""]);
    }
  }

  lemma {:induction false} JoinWithEnd(args: seq<string>)
    requires args != []
    ensures Join(args + [""], " ") == Join(args, " ") + " "
  {
    assert (args + [""])[1..] == args[1..] + [""];
    if |args| > 1 {
      JoinWithEnd(args[1..]);
    } else {
      assert (args + [""])[1..] == [""];
    }
  }

  /** On the kernel's own files the parser finds every argument, and an empty one behind the last;
      the report shows the arguments with that empty one's separator, a trailing space. */
  lemma ArgsOfPrinted(args: seq<string>, name: string)
    requires forall arg <- args :: NUL !in arg
    ensures Split(PrintCmdLine(args), NUL) == args + [""]
    ensures ProcessArgs(args + [""], name) ==
            Ok(if args == [] || args[0] == "" then "[" + name + "]" else Join(args, " ") + " ")
  {
    SplitOfPrinted(args);
    if args != [] {
      JoinWithEnd(args);
    }
  }
}
