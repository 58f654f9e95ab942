# gfpsgo: a Dafny model and its proofs

gfpsgo reports on processes: it reads /proc, joins the mount namespace of a container, matches the
container's processes with their counterparts on the host, and prints a table of requested columns.  This
project models that library in Dafny and proves what its design relies on.  `dafny verify dfyconfig.toml`
checks everything.

Strings are sequences of characters.  A call ends in a value, an error with its root cause, or a panic (an index
out of range, a division by zero); see `Outcomes`.  Reads of the system are inputs: file contents, the times
at which processes exit, the results of system calls.

| modules | what they model |
|---|---|
| Kernel, HostMatch, MatchLimits, HostColumns, EndToEnd | PID namespaces as a transition system, `findHostProcess` on it, and the way from a run to the host columns |
| Process, Snapshot, Hosts | `process.New`, `FromPIDs` and `SetHostData` on mutable records while processes exit |
| Descriptors, Report, Columns, ReportSafety, Join, Merge, Duplicates | from descriptors to the columns and the merged report, with the shared options object |
| ProcStat, ProcStatus, CmdLine, Auxv | the parsers, each with the kernel's printer |
| IdMap, Capabilities, CapabilityDecoder, Tty, Times | ID ranges, capability masks, device numbers, tick arithmetic |
| Outcomes, Text | errors and panics; the string functions of Go's library that the code calls |
| Examples | files and runs at which a claim fails, or at which the hypotheses of a theorem hold |

## What is not so

The obvious claim is false of the code in these places; each has its exact condition among the members below,
with an input at which it fails where the condition does not show one.

- `findHostProcess` compares with `NSpid[1]` and with the namespace link only. It is right exactly for readers one
  level below the host whose link is readable (`TrustworthyExactly`, with `NestedConfused` and `SiblingsConfused`).
- A host process that is dead by the time the container is read can be given for another one that has its pid by then
  (`MatchAcross`, `ReusedPidConfused`).
- `FromPIDs` ignores processes that are gone, but a process that exits between the opening and the reading of its
  stat or cmdline file ends the whole snapshot with an error (`SnapshotFailsExactlyWhenTorn`, `TornSnapshot`).
- A status file is cut silently at its first line of 64 KiB, and the process then has no namespace pids if they stand
  behind it (`ReadStatusDefault`, `LongLineHides`).
- The merged report has no header when its first container is gone by the time it is joined (`MergedReport`,
  `HeaderLost`).
- Joining every PID namespace once avoids duplicate rows only among namespaces that are not nested
  (`KeptShareExactly`, `NestedListedTwice`).
- Several unknown capabilities share the one name "unknown" (`SameTextExactly`,
  `UnknownAlone`, `UnknownsShareText`).
- `FindTTY` reads the minor number without shifting its high part, although its comment describes the packed
  number (`FindsTerminalExactly`, `OtherTerminalFound`).
- A blank descriptor selects all thirteen columns without a code (`ResolvedExact`, `BlankSelects`).
- A `Name:` with blanks is cut at the first (`ValueIsCut`).
- An unmapped ID is shown as the whole text of the overflow file, a final newline included
  (`FallbackExactlyUnmapped`).
- IDs do not come back through swapped ranges when host ranges overlap (`ComesBackExactly`, `OverlapLost`).
- A CPU time of more than 9223372037.85 seconds, 292 years, is reported a second or more too short
  (`LosesLessThanOneSecond`, `LosesMoreThanOneSecond`).
- A CPU time whose two counters do not fit 64 bits together is not positive (`OverflowingCounters`).
- The columns time, stime, etime and pcpu divide by the tick rate without a look at it (`TableSafe`, `ZeroTicksPanic`).

The repository's README says that an empty descriptor list returns only headers; the code uses the default
descriptors, and so does the model (`TranslateDescriptors`).

## Model

| member | source | states |
|---|---|---|
| Kernel.RunsStayValid | internal/proc/status.go:61-68 | The invariant behind the namespace pids: in every state of every run of forks, new nested namespaces, exits, observations and released namespaces, each process has one pid in each namespace of its chain of ancestors, and no two processes share a pid in any one namespace. |
| Kernel.SameChain | internal/proc/status.go:67-69 | Processes with the same own PID namespace have the same namespace at every level, hence equally long pid lists. |
| Kernel.PidNames | psgo.go:679-681 | Within one own namespace a pid at any single level already names one process. |
| HostMatch.FindHostProcess | psgo.go:672-686 | The early-return search returns the first candidate with at least two namespace pids, the second of them the process's pid, and the same namespace link; none if there is no such candidate. |
| HostMatch.MatchExact | psgo.go:676-683 | For a container process read one level below the host with a readable link, a host record matches if and only if it is a readable record of the same process. |
| HostMatch.FindsItself | psgo.go:672-686 | In every reachable state the search returns the first readable record of the process itself, and nothing exactly when the candidates hold none; never another process. |
| HostMatch.Retained | internal/process/process.go:79-103 | During an observation no process changes its pids and none that was seen is forgotten, although processes exit and others start. |
| HostMatch.FindsItselfWhileRunning | psgo.go:617-638 | The same when the container record and every host record are each taken whole in a state of their own, while a run goes on in between, as long as pids of exited processes are not reused meanwhile; `EndToEnd` spreads the reads of one record over several states. |
| MatchLimits.TrustworthyExactly | psgo.go:674-681 | For all nesting levels: a reader is never given another process, over all runs and candidates, if and only if it is exactly one level below the host and its namespace link is readable; NSpid[1] is fixed in the code and two unreadable links compare equal. |
| MatchLimits.NestedRuns | internal/proc/status.go:61-68 | For every depth there is a run of the kernel that nests that many namespaces and forks in the innermost, the family of states on which deeper readers are confused. |
| MatchLimits.NestedConfused | psgo.go:679-681 | At every level other than 1 some reachable state has two processes that the comparison takes for one. |
| MatchLimits.SiblingsConfused | internal/process/process.go:91-97 | With unreadable links the first processes of two sibling containers are taken for one. |
| MatchLimits.MatchAcross | psgo.go:672-686 | For records from any two states of a run: a match says exactly that both processes had the same pid in the same namespace one level down; so it is the process itself, or one that no longer counts when the container is read. |
| MatchLimits.LivingNeverConfused | psgo.go:672-686 | A host process that lives on until the container is read is matched exactly by records of itself, across observations and reused pids. |
| MatchLimits.ReusedPidConfused | psgo.go:672-686 | A run in which a pid of the container is used again between the two snapshots, and the search gives the dead process: hpid 3 for a process that is 4 on the host. |
| HostColumns.RecordIsReadAt | internal/process/process.go:79-103 | From text to records: when the last NSpid line that the scanner gives holds the pids of a process from the level of the /proc inwards, and the link is that of its namespace, at the times of those two reads, then what New makes is a record of that process at that level, whatever else stands in the status file. |
| HostColumns.PrintedShows | internal/proc/status.go:61-68 | The status lines of any record, as `MeaningOfPrinted` has them, show the process whose pids the record holds, if none of them is too long for the scanner. |
| HostColumns.ShowsItself | psgo.go:902-945 | From records to columns, each record taken whole in a state of its own: hpid shows the process's own pid on the host or "?", exactly by whether a readable record of it is among the candidates, under any options; huser and hgroup without ID maps are those of its first own record. |
| HostColumns.ShowsItselfMapped | psgo.go:914-945 | With ID maps huser and hgroup are the second user and group ID of the process's own first readable record: the name of what the first range that holds the ID makes of it, or the overflow text exactly if none does. |
| EndToEnd.RecordIsOfOne | internal/process/process.go:79-103 | Although the status file and the namespace link are read at different moments of a run with forks and exits in between, a record that New makes is a record of a single process. |
| EndToEnd.HpidExact | psgo.go:617-686 | End to end, from a run of the kernel and two /proc file systems of neighbouring namespaces, read file by file while processes start and exit: for every container record with a readable link the search among the host's snapshot gives the first record with the host pid of that same process if its link was readable, and none exactly if the snapshot holds none; hpid shows that pid or "?" accordingly. |
| EndToEnd.SurvivorShown | psgo.go:902-909 | So hpid is never "?" for a process that lives from the beginning of the observation to the end of the host's snapshot, if its host pid was requested and both its links could be read. |
| EndToEnd.HostColumnsExact | psgo.go:902-945 | All three host columns, end to end over any run and two racing views: the host pid of the same process, and the names of the second user and group ID in the status file that the host's snapshot read of that process, as the host's user and group databases have them, or with maps, as the report's databases have what the first range makes of the ID; question marks exactly if the snapshot has no record of that pid with a readable link. |
| EndToEnd.ReportedHostColumns | psgo.go:415-509 | The same for a whole report, from the requested name to the cell: a successful call whose host and container processes are two such snapshots shows under hpid, huser and hgroup, for every process with a readable link, what `HostColumnsExact` says. |
| EndToEnd.HostNames | psgo.go:311-328 | The names hpid, huser and hgroup stand for the headings and the functions of the same name. |
| Examples.TwoViewsOfOne | psgo.go:672-686 | A run and two /proc file systems, all of whose files are as the kernel prints them, that meet everything these theorems ask of them, the lookup of the host names included; another process starts between the reads of the host's record and exits between those of the container's. |
| Examples.HostPidOfOne | psgo.go:902-909 | There the container's process 1 is shown its host pid 2. |
| Snapshot.NewExact | internal/process/process.go:79-103 | Whenever the process exits: New succeeds if and only if it is alive at the last access, fails with an error other than "does not exist" if and only if it exits between opening and reading its stat or its cmdline file, and never returns a record whose status could not be read. |
| Snapshot.ReadersHonest | internal/proc/attr.go:27-39 | The readers of stat, status, cmdline, namespace link and label report "does not exist" for a process that has exited, with the status reader's swallowed read error and the label reader's second look. |
| Snapshot.SnapshotFailsExactlyWhenTorn | internal/process/process.go:106-121 | For any exit times the snapshot fails if and only if some process exits between the opening and the reading of its stat or cmdline file in its own turn; so it never fails when reads are atomic. |
| Examples.TornSnapshot | internal/process/process.go:106-121 | Such a failure with files as the kernel prints them: one process that exits right after its stat file was opened. |
| Snapshot.SnapshotExact | internal/process/process.go:106-121 | The records are an order-preserving selection of the requested pids: every process alive to the end has its record, none dead before its turn has one, and every record has its four user and group IDs. |
| Snapshot.KeptExact | internal/process/process.go:108-119 | A turn gives a record exactly when its process is alive at the turn's last access. |
| Snapshot.RecordContents | internal/process/process.go:79-103 | A record holds each file as it was when that file was read, five reads in order: stat, status through the scanner, the arguments, an empty link when the link may not be read, the trimmed label or "?"; and its process is alive from the first access to the last. |
| Snapshot.TrimNewlinesOf | internal/proc/attr.go:39 | Of a label the newlines at both ends go, and nothing else. |
| Process.New | internal/process/process.go:79-103 | The record built field by field in place is the composition of the five reads, with an unreadable namespace link left empty and any other error returned. |
| Process.NewDataExact | internal/process/process.go:79-103 | For any five reads: a record is had exactly when each gives a value, or the namespace link a permission error, and holds those values; else the first other failure ends it. |
| Process.FromPIDs | internal/process/process.go:106-121 | The loop with its `continue` collects fresh, separate records equal to those of the turns that did not find their process gone, or returns the error of the first other failure. |
| Process.SnapshotEnds | internal/process/process.go:106-121 | A snapshot is had if and only if every turn gives a record or the error "does not exist"; else it ends as the first other turn, a permission error included. |
| Process.LookupsExact | internal/process/process.go:51-75 | For every text of a 64-bit number the name that the user or the group database has for it, or the text itself if it has none; for every other text an error. |
| Process.HostDataExact | internal/process/process.go:174-188 | Both names are had if and only if both second IDs are there and numbers, and they are those of the databases; an error for the first that is no number, an index out of range for the first that is missing. |
| Process.Process.SetHostData | internal/process/process.go:174-188 | In place: after every outcome both names, as the user and the group database have them for the second IDs, emptied where the lookup fails, and as before where it is not reached; nothing else of the record changes. |
| Hosts.HostProcesses | psgo.go:617-638 | A failed pid list or snapshot is passed on; else every record gets in place the names of its second IDs in the databases, or the first failure is returned. |
| Hosts.NamedRecords | psgo.go:627-636 | Every host record has the names of its own second IDs in the databases, in its own place, and is otherwise unchanged. |
| Hosts.WithAllEnds | psgo.go:630-634 | The records get their names if and only if each can; else the first that cannot decides. |
| Hosts.HostDataNeverPanics | internal/process/process.go:177-182 | Taking the second ID without a length check never goes out of range on the records of a snapshot, whatever processes exit during it. |
| Merge.FirstsExact | psgo.go:525-540 | The kept pids are exactly the first readable one of each distinct namespace, in input order. |
| Merge.SeenExact | psgo.go:525-537 | The namespaces marked as seen are exactly those of the readable pids so far. |
| Merge.SelectPids | psgo.go:525-540 | The map-and-list loop succeeds if and only if every link is readable or of a process that does not exist, and gives the kept pids; else it returns the failure of the first other link. |
| Duplicates.SharedExactly | psgo.go:519-524 | What the deduplication relies on: in every reachable state of the kernel the namespaces of two living processes share a process if and only if one of them is the other or an ancestor of it. |
| Duplicates.KeptShareExactly | psgo.go:519-540 | Two kept requests are in different namespaces, and share a process, which the reports of both then list, if and only if one namespace is nested in the other. |
| Duplicates.NestedListedTwice | psgo.go:519-540 | A run with a container in a container: both are kept, and the inner process is seen from both. |
| Merge.MergedExact | psgo.go:542-560 | Over any sequence of reports: the merged rows are the data rows of the pids that are not skipped, in order, behind one header if the first kept pid is not skipped and without any header if it is. |
| Merge.MergedRowAt | psgo.go:542-560 | Where every row of the merged report stands: row i of the k-th kept pid behind the header, if there is one, and all rows of the pids before. |
| Merge.MergedReport | psgo.go:515-563 | The same for the calls themselves, with the header of the resolved columns. |
| Examples.HeaderLost | psgo.go:542-560 | Such a report for any process: the first of two containers is gone when its mount namespace is joined, and the result is the single row of the second. |
| Merge.MergeReports | psgo.go:542-562 | The loop that shares and changes one options object succeeds if and only if every kept pid gives its report or does not exist any more, with the merge and the options of the whole sequence; else it returns the first other failure. |
| Merge.JoinNamespaceAndProcessInfoByPidsWithOptions | psgo.go:515-563 | Both loops in sequence: rows, error and final options of the whole call, pids that are gone being skipped in either. |
| Merge.InstalledOnce | psgo.go:393-407 | Over a run with FillMappings: until some container's call reads both maps the options are the caller's; from then on they hold exactly what that call read. The maps come together or not at all. |
| Merge.SameMapsForAll | psgo.go:390-409 | Any two calls whose contexts are built see the same two maps, for any pattern of failed reads and skipped pids. |
| Merge.MergedMaps | psgo.go:390-409 | The same for the merged report, with the call whose reads they are. |
| Join.JoinNamespaceOpts.Fill | psgo.go:393-407 | On the options object in place: a failed read of either map leaves all three fields as they were; success sets both maps and clears the flag. |
| Join.JoinNamespaceAndProcessInfoWithOptions | psgo.go:415-509 | The call with its on-demand host fetch, its joined thread and its change of the caller's options, including that a failed read of the process's user namespace is forgotten when the later steps succeed. |
| Join.JoinedEnds | psgo.go:421-503 | Of the steps of a call, in the order of the source, the first that fails decides how it ends; the ID maps are read only when asked for, the host processes only for a host column, and a failed read of the process's user namespace is no such step. |
| Join.JoinedReads | psgo.go:458-503 | When all steps are done the table is that of the processes read with joining the user namespace, if the process's is known and another one, or not known while the caller's has a name, and else without; or the failure of that reading. |
| Join.JoinedDone | psgo.go:415-509 | A call that succeeds has done all its steps. |
| Join.OptionsAfter | psgo.go:390-409 | The options after a call: both maps and the cleared flag together when they were asked for and read, else as before. |
| Join.OnDemandIsEager | psgo.go:436-446 | For all requests, options and processes, fetching host processes on demand gives what an eager fetch that succeeds gives, and without a host column it gives that whatever the fetch would have done. |
| Join.JoinedHeader | psgo.go:549-551 | A call that succeeds returns at least the header row, so taking row 0 is in bounds. |
| Report.ProcessDescriptors | psgo.go:642-668 | The nested loops build the table or stop at the first failing cell. |
| Report.TableExact | psgo.go:640-668 | On success one row more than there are processes, all as wide as the header, with cell (i, j) being column j of process i; on failure the failure of the first failing cell in row-major order. |
| Report.HostsIrrelevant | psgo.go:100-101 | For every request that resolves to no column flagged onHost the table is the same for any two lists of host processes. |
| Columns.ColumnShown | psgo.go:688-960 | For each of the 25 columns that do not look at host processes, what its cell shows is stated from the files the record was read from: fields of stat by their proc(5) numbers, words of status by their keys, IDs through the databases, masks, numbers, times, the terminal, the arguments and the label. |
| Columns.ReportShown | psgo.go:415-509 | From the request and the files to the cells: in the report of a successful call each column has the heading of the name it was requested by, and each row shows in it what that name says of the files of its process, each as it was when it was read. |
| ReportSafety.TableSafe | psgo.go:688-960 | On records with all IDs and a non-empty argument list no column indexes out of range or divides by zero, for any columns and options and any tick rate but 0; start time, elapsed time and percentage take their division from `Times.StartTime` and `Times.CPUTime`. |
| ReportSafety.ZeroTicksPanic | internal/process/process.go:199-235 | At tick rate 0 the time column divides by zero exactly on records whose counters are numbers, and with a known boot time stime, etime and pcpu do exactly if the start time is one. |
| ReportSafety.ReportNeverPanics | psgo.go:599-638 | End to end, whatever processes exit meanwhile: two snapshots, the host data and the table of any columns never index out of range, although the columns never check a length, nor divide by zero, if the tick rate is not 0. |
| Descriptors.TranslateDescriptors | psgo.go:144-167 | The nested loops resolve the request, an empty one as the default descriptors. |
| Descriptors.ResolvedExact | psgo.go:151-166 | Resolution fails exactly with the first request that is neither blank nor a code nor a normal form; else there are as many columns as requests and 12 more for every blank one. |
| Descriptors.BlankSelects | psgo.go:155-160 | The request of a single blank gives the thirteen columns from capamb to stime. |
| Descriptors.ResolvedOneToOne | psgo.go:151-166 | Without blank requests the columns are one to one with the request and in its order. |
| Descriptors.CodeOrNormal | psgo.go:155-160 | Requests that name the same entries by code or by normal form resolve to the same columns. |
| Descriptors.EntryNamed | psgo.go:185-344 | All codes and normal forms of the table are distinct, the last thirteen entries have no code, and exactly hpid, huser and hgroup are flagged onHost. |
| Descriptors.ShownExact | psgo.go:185-344 | Each of the 28 names and 15 codes resolves to the one column with its heading and its function, by a table keyed by the name. |
| Descriptors.RequestKnown | psgo.go:151-166 | A request resolves if and only if each of its names, without the white space around it, is one of these or empty. |
| Descriptors.ColumnAt | psgo.go:151-166 | What stands in each column of any request: the column of its name, or one of the thirteen of a blank, behind those of the requests before. |
| Descriptors.DefaultShown | psgo.go:171-182 | The empty request gives USER, PID, PPID, %CPU, ELAPSED, TTY, TIME and COMMAND with their functions. |
| Descriptors.ResolvedFlagged | psgo.go:311-328 | A resolved column is flagged onHost exactly if it looks at host processes. |
| ProcStat.ParseStatExact | internal/proc/stat.go:126-170 | The parser returns a record if and only if the text shows that record: pid text without "(", one character, the command name in parentheses whatever it holds, and a rest without ")" whose first 21 words are fields (3) to (23) in their proc(5) positions. |
| ProcStat.ParseStatOfPrinted | internal/proc/stat.go:132-170 | Round trip: any pid text without "(", any command name, at least 21 words without ")" set apart by any white space. |
| ProcStat.ParseStatFailures | internal/proc/stat.go:132-144 | An error exactly when a parenthesis is missing altogether; an index or slice out of range exactly when both occur but the text starts with "(", no ")" stands behind a "(", or fewer than 21 fields follow. |
| ProcStat.RecordHolds | internal/proc/stat.go:146-170 | A record holds a pid, a name and tail words at their positions exactly if it is the one built from them. |
| ProcStatus.ParseStatus | internal/proc/status.go:234-363 | The loop returns the record of the lines or the first malformed line, and the record says for every key what the last line carrying it says. |
| ProcStatus.Meaning | internal/proc/status.go:263-272 | Success exactly when every user- or group-ID line with at least two words has exactly five; never an index out of range. |
| ProcStatus.MeaningExact | internal/proc/status.go:263-272 | The parser fails exactly on a line of user or group IDs with at least one but not four of them, and names the first such line. |
| ProcStatus.StatusSaid | internal/proc/status.go:240-360 | Reading line by line with overwriting refines "for each key, the last line carrying that key", for every field. |
| ProcStatus.SaysOnce | internal/proc/status.go:32-180 | The lines determine the record: two records that say what the last lines say are equal. |
| ProcStatus.KeyNames | internal/proc/status.go:246-359 | The switch finds for the key of each of the 53 fields that field. |
| ProcStatus.PermutedLines | internal/proc/status.go:240-362 | When no key occurs twice, permuting the lines changes neither success nor the record. |
| ProcStatus.MeaningOfPrinted | internal/proc/status.go:234-363 | Round trip for any record with four user and four group IDs or none: its lines in any order and as often as one likes, white space of its own in front of every word, any note behind one-word values, lines of empty fields printed or not, group and namespace-pid lists of any length, and lines of unknown keys or of a single word anywhere between. |
| ProcStatus.KernelLine | internal/proc/status.go:241 | The kernel's own format is among them: the key, a tab, and words set apart by tabs, or by blanks with one behind the last as in its line of groups. |
| ProcStatus.ReadStatusDefault | internal/proc/status.go:202-214 | The scanner loop, whose error nobody asks for: the whole file, or silently what stands before the first line of 64 KiB or more. |
| ProcStatus.LongLineHides | internal/proc/status.go:208-213 | Everything behind such a line is lost: a field whose key is not carried before it is empty in the record, the namespace pids behind a huge list of groups for instance. |
| ProcStatus.ValueIsCut | internal/proc/status.go:247-252 | The round trip fails for a value of several words: of any text on the line of a one-word field only the first word is kept, a command name with blanks included. |
| CmdLine.ParseCmdLine | internal/proc/cmdline.go:25-37 | The split-and-append loop gives a non-empty list whose NUL-join is the file. |
| CmdLine.ArgsOfFile | psgo.go:726-733 | For every command-line file processARGS stays in bounds: the bracketed name exactly if the file is empty or starts with a NUL, else the file with each NUL turned into a space. |
| CmdLine.ArgsOfPrinted | psgo.go:726-733 | On files as the kernel prints them every argument is recovered, an empty one is found behind the last, and the column ends in a space for it. |
| Auxv.GetFromAuxv | internal/host/host_nocgo.go:49-73 | The index loop equals the scan entry by entry, with slice bounds checked against the capacity; the bytes left over are the termination measure. |
| Auxv.ScanOfEncoded | internal/host/host_nocgo.go:56-72 | Round trip for any entries, word size and byte order: the value of the first entry with the key, an error exactly when none has it. |
| Auxv.WholeEntriesInBounds | internal/host/host_nocgo.go:56-67 | Whatever the bytes, a length that is a multiple of two words is scanned without leaving the slice. |
| Auxv.PartialEntry | internal/host/host_nocgo.go:56-67 | A piece of an entry at the end of the file is an index out of range exactly when the array behind the slice ends before the entry would. |
| Auxv.HostCache.ClockTicks | internal/host/host_nocgo.go:76-86 | The cache is filled by the first success and only then; a filled cache answers without reading. |
| Auxv.TicksOfEncoded | internal/host/host_nocgo.go:76-86 | The first call on a file as the kernel writes it answers and caches the value of the first entry with key 17, or fails and leaves the cache empty exactly when there is none; a filled cache answers its own value. |
| Auxv.AnswersAgree | internal/host/host_nocgo.go:30-34 | Over any sequence of calls all successful answers agree with the first, and after it no call fails. |
| Auxv.FirstAnswer | internal/host/host_nocgo.go:76-86 | Over any sequence of calls every answer from the first successful read on is the value read then. |
| IdMap.FindID | psgo.go:108-136 | The early-return loop in 64-bit arithmetic: the ID itself without a mapping, a parse error, the looked-up host ID of the first range, or the overflow file. |
| IdMap.FallbackExactlyUnmapped | psgo.go:122-135 | For entries below 2^32 nothing overflows: the overflow file is used exactly for IDs in no range, and the first of overlapping ranges wins. |
| IdMap.FoundOfText | psgo.go:108-136 | For every text of an ID, not only the shortest: the looked-up host ID of the first range that holds it, or the overflow text if none does. |
| IdMap.FoundOfOthers | psgo.go:113-120 | Without a mapping every text is its own result; with one, a text that is no number is an error. |
| IdMap.FindsExactly | psgo.go:122-128 | With disjoint container ranges the code finds y for x exactly when some range maps x to y. |
| IdMap.MapsBack | psgo.go:108-136 | With disjoint container and host ranges, x is mapped to y if and only if y is mapped back to x by the swapped ranges, through decimal printing and parsing. |
| IdMap.ComesBackExactly | psgo.go:108-136 | Given disjoint container ranges, every mapped ID comes back if and only if the host ranges are disjoint as well. |
| IdMap.OverlapLost | psgo.go:122-128 | Two container IDs on one host ID: 1 is mapped to 1000 and comes back as 0. |
| Capabilities.TranslateMask | internal/capabilities/capabilities.go:77-89 | The loop over 64 bits gives the names of the set bits in order. |
| Capabilities.ParseCAP | psgo.go:830-844 | Parse, translate, sort and join, with "full" and "none" as the extremes. |
| Capabilities.ParsedCapExact | psgo.go:831-834 | Every text of hexadecimal digits up to 2^64-1 is shown as its mask, and every other text is an error. |
| Capabilities.StringLeExact | psgo.go:842 | The order of the names is that of the first character in which they differ, a prefix coming first. |
| CapabilityDecoder.SameTextExactly | psgo.go:830-844 | Two 64-bit masks have the same text if and only if they agree on the 38 known bits and have equally many others; within FullCAPs the text determines the mask. |
| CapabilityDecoder.UnknownAlone | psgo.go:830-844 | Each single capability from 38 to 63 has the text "unknown". |
| CapabilityDecoder.FullAndNone | psgo.go:835-841 | All 38 known capabilities are shown as "full" and none as "none". |
| CapabilityDecoder.UnknownsShareText | psgo.go:830-844 | 2^38 and 2^39 are different masks with one text. |
| CapabilityDecoder.DecodeOfCapText | psgo.go:827-844 | A decoder recovers from the text of any 64-bit mask its known bits and the number of its unknown ones. |
| CapabilityDecoder.DecodeOfParsedCap | psgo.go:831-843 | Through the kernel's 16 hexadecimal digits every mask is shown as its text, and within FullCAPs the mask itself comes back. |
| CapabilityDecoder.ListExact | internal/capabilities/capabilities.go:73-89 | The list is sorted, holds each known name once exactly if its bit is set, and "unknown" as often as other bits are set. |
| CapabilityDecoder.SortedOnce | psgo.go:842 | Sorted lists with the same members are equal, so the result does not depend on how the list is sorted. |
| Tty.FindTTY | internal/dev/tty.go:37-59 | The loop returns the first device with the numbers that the code reads out of the terminal number, or none. |
| Tty.DecodeOfEncode | internal/dev/tty.go:61-69 | majDevNum and minDevNum undo the kernel's packing of 12-bit majors and 20-bit minors. |
| Tty.EncodeOfDecode | internal/dev/tty.go:61-69 | Every 32-bit device number is packed from the two numbers read out of it. |
| Tty.TtyNumbersExact | internal/dev/tty.go:38-42 | FindTTY's own reading agrees with them if and only if both numbers are below 256. |
| Tty.TtyNumbersRead | internal/dev/tty.go:38-42 | What FindTTY reads out of any packed number: the low eight bits of the major number, and the two parts of the minor number laid over each other. |
| Tty.FindsTerminalExactly | internal/dev/tty.go:37-59 | Over all device lists the search finds the first device that is the process's terminal if and only if both its numbers are below 256. |
| Tty.OtherTerminalFound | internal/dev/tty.go:41-42 | Beyond that another terminal can be found: pts/1 for pts/256. |
| Times.TimeOfCounters | internal/process/process.go:219-235 | On counters whose sum fits 64 bits nothing wraps: the CPU time is the whole seconds in the sum. |
| Times.OverflowingCounters | internal/process/process.go:232-234 | For counters that fit 64 bits while their sum does not, the time is not positive, and its exact value. |
| Times.QuotientTruncates | internal/process/process.go:214-232 | Division truncates towards zero for either sign of both numbers. |
| Times.LosesLessThanOneSecond | internal/process/process.go:232-234 | Against the exact quotient of ticks nothing is ever gained; and less than one second is lost if and only if the quotient is less than one second beyond the largest duration. |
| Times.LosesMoreThanOneSecond | internal/process/process.go:232-234 | Beyond that more is lost: ten thousand million seconds are reported as the largest duration. |
| Times.TimeNeverFalls | internal/process/process.go:218-235 | Along any run of growing counters the reported CPU time never falls. |
| Times.SummedCounters | internal/process/process.go:232-234 | Reporting summed counters exceeds the sum of two reports by one second at most, saturated or not. |
| Times.SummedCountersExact | internal/process/process.go:232-234 | Below the largest duration it also loses nothing: the two ways differ by nothing or by exactly one second. |
| Times.StartTimeOfTicks | internal/process/process.go:200-216 | A start time is the boot time and the whole seconds of the ticks behind it, if and only if their sum fits 64 bits; else it is 2^64 seconds before that. |
| Times.StartTimesInOrder | internal/process/process.go:200-216 | As long as the sum for the later one fits, later starts are never reported earlier, and the seconds behind the boot time are those in the ticks. |
| Times.DurationExact | internal/process/process.go:233-234 | The duration is exact exactly up to 9223372036 seconds either way, and the largest or smallest duration beyond. |
| Text.FieldsOfSpreadThen | internal/proc/status.go:241 | Words set apart by any white space are found as the first fields of a line, whatever follows. |
| Text.IsSpaceExact | internal/proc/status.go:241 | White space is the 25 characters that the Unicode standard calls so. |
| Text.SpreadOfFields | internal/proc/status.go:241 | Conversely every line is its fields set apart by white space. |
| Text.ParseIntExact | internal/process/process.go:201-223 | A text parses to n if and only if it is decimal digits, with or without a sign, that read from the left give n, and n fits 64 bits. |
| Text.TrimSpaceOf | psgo.go:153 | White space goes at both ends of a text, and nothing else. |

## Left out

- Opening, listing and reading files and directories, `nsenter`, `unshare`, `setns`, threads: their results are
  inputs of the model, in `Snapshot.World`, `Join.World` and the parameters of the parsers.
- Joining the user namespace for the status file: `ReadStatus` models the default reader; an error of the `nsenter`
  command is never "does not exist", so the theorems about snapshots, `EndToEnd` and `Columns.ReportShown` do
  not cover it; `Join.JoinedReads` says when it is joined.
- The scanner's limit is counted in characters, where the code counts bytes.
- Reading a file in several pieces: a file is opened once and read once, so a status file cut in the middle is not
  modelled.
- Reuse of a pid within one snapshot or one observation: `Snapshot` has one exit time for each pid, and in `Kernel` free
  pids exclude those of processes that exited since the observation began.  What a match says when pids are reused
  between two observations is `MatchLimits.MatchAcross`.
- HostMatch.FindsItselfWhileRunning: takes every record whole in one state; `EndToEnd` spreads the reads of a record.
- HostColumns.ShowsItself: takes every record whole in one state, with the names that stand in it;
  `EndToEnd.HostColumnsExact` starts from the files.
- HostColumns.ShowsItselfMapped: takes every record whole in one state, as `ShowsItself` does.
- `ReadMappings` and the user and group databases: the parsed ranges and a lookup function are parameters.
- cgroup paths and cgroup modes: the list of candidate pids is any list.
- Formatting of durations, start times, elapsed times and CPU percentages, and the wall clock: the texts of pcpu, etime,
  stime and time are arbitrary functions of the start time and the CPU time, which are computed.
- Text of bytes that are not UTF-8, and in stat a character of several bytes before the first parenthesis, of which
  the code would cut one byte: strings are sequences of characters.
- Distinguishing the syntax and range errors of `strconv`: both are errors with a message.
- Times.TimeOfCounters: `time.Unix` has no time for the last 62135596800 seconds of 64 bits, which no counter reaches at a
  tick rate above 1; the model takes its difference to the Epoch as exact before it is saturated.
- Capabilities.TranslateMask: the mask is a natural number below 2^64, and its shift and mask are division and remainder.
- Capabilities.ParseCAP: the sort in place is a function, with `SortedOnce` saying that any sort gives the same list.
- Merge.JoinNamespaceAndProcessInfoByPidsWithOptions: a pid stands by its place in the request, which fixes what its
  call meets, so that the same pid may be requested twice and met differently.
- `ListDescriptors`, the command line and the table writer.
