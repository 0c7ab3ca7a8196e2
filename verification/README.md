# Verified model of the OpenVAS scanner core

The project models the parts of the scanner whose correctness rests on state, loops or
arithmetic, in the form the program has them: classes and arrays where the program changes
things in place, functions where it only computes.

- `ScanState.dfy`, `ScanWorld.dfy`, `ScanWaiting.dfy`, `ScanHistory.dfy`, `ConnectScanner.dfy`: the TCP connect
  scanner. The first holds its bookkeeping as a value, its elementary steps and the invariant; the second the
  kernel and clock, which may answer anything, and the connection window; the third what becomes of the sockets
  `select` reports; the fourth what is known from pass to pass; the last is the scanner itself, with its tables in
  place. `ScanWitness.dfy` has two runs.
- `PortLists.dfy`, `TcpScan.dfy`: the two parsers of port lists, and the scan of a listed set of ports.
- `NaslSemantics.dfy`, `NaslLaws.dfy`, `NaslInterpreter.dfy`, `NaslFuel.dfy`: a structured semantics of NASL
  with completions of statements, laws of it that a script writer would state, and the interpreter, which encodes
  completions as flags of its contexts.
- `Exponent.dfy`: the exponentiation operator.
- `Stream.dfy`: buffered reading over an unreliable transport.
- `Md5Block.dfy`, `Md5.dfy`, `Md5Vector.dfy`, `Hmac.dfy`, `Arc4.dfy`, `TlsPrf.dfy`: incremental digests, the stream cipher and the
  pseudorandom functions, against the definitions of their RFCs.
- `DnParser.dfy`, `CertObjects.dfy`: the common name of a distinguished name, and object ids.
- `ProbeList.dfy`, `SynScan.dfy`, `Checksum.dfy`: the probe list, the retries and the checksum of
  the SYN scanner.
- `Routes.dfy`: route selection.
- `Bytes.dfy`, `Options.dfy`, `Sequences.dfy`: shared types and facts.

`dafny verify dfyconfig.toml` checks everything.

## Where the code and its promises differ

Where a property holds only on a condition, the members named state the condition and, where it is not
given as exact, show a case outside it. For long HMAC keys and for a scan that uses up its passes they
state what the code does instead.

- A buffered read that offers room for no byte while the buffer holds data overwrites that
  data when the source supplies more (`Stream.Connection.ReadMin`, `Stream.LoseByte`).
- The connection limits are in order exactly when the process may open three descriptors
  (`ScanWorld.LimitsOk`).
- A port lost to a resource error stays under test, and a change of pass takes it out of the totals, so
  the full-scan mark can be set with ports undecided (`ScanWitness.FullScanCanBeWrong`); without
  such errors it is exact (`ConnectScanner.ReportExact`).
- A descriptor beyond FD_SETSIZE can close the window and end a pass with ports unknown; that needs the
  connection limit and the descriptors open elsewhere to reach FD_SETSIZE together (`ScanWorld.HighFd`,
  `ScanWitness.HighFdEndsPass`).
- A change of pass after a round without dropped sockets takes a third of the second connection limit, and
  the scan gives up when nothing is left of it. A round that drops sockets makes up for that exactly when
  the minimum of connections is at least six, which takes a descriptor limit of thirteen
  (`ConnectScanner.BannerGrab`, `ScanWorld.SixIsLeast`, `ScanWorld.WindowWearsOut`, `ScanWorld.SafeLimits`).
- A scan that uses up its sixteen passes counts the ports last found silent both as filtered and as
  untested (`ConnectScanner.Published`).
- The parsers read different ports from an untagged list whose UDP part contains `T:`
  (`PortLists.ParsersDiffer`, `PortLists.SevenOrFive`).
- Ports listed twice are counted twice (`PortLists.CountIsRight`).
- The distinguished-name parser ends a value at an unescaped equals sign. Section 2.4 of RFC 2253
  does not require it to be escaped; the grammar in section 3 does (`DnParser.ReadBackExactly`).
- HMAC keys above 64 bytes are cut, not hashed (`Hmac.Mac`).
- Two folds of the checksum suffice up to 65538 words (`Checksum.FoldsCanFail`).
- A negative power of -1 is zero (`Exponent.NegativeExponent`).
- After `exit` an assignment is still made (`NaslSemantics.AssignedAfterExit`), a function is still called
  (`NaslSemantics.CalleeRunsAfterExit`), and a constant operand keeps its value
  (`NaslSemantics.ConstantAfterExit`); everything else in the contexts that existed then does nothing and yields the
  code of the exit. The structured semantics has these rules, and the interpreter refines it for all programs.

## Model

| member | source | states |
|---|---|---|
| `ScanState.LaunchKeeps` | nasl/nasl_builtin_openvas_tcp_scanner.c:440-448 | a connection under way keeps the whole invariant (sockets and port states match, live sockets have distinct ports and descriptors, every counter is the count it stands for, verdicts are answers) and lowers the measure by one |
| `ScanState.LaunchConnectedKeeps` | nasl/nasl_builtin_openvas_tcp_scanner.c:481-492 | the same for a connection that succeeds at once; the measure falls by two |
| `ScanState.HearKeeps` | nasl/nasl_builtin_openvas_tcp_scanner.c:457-472 | the same for a refusal or an unreachable network; the measure falls by three |
| `ScanState.LoseKeeps` | nasl/nasl_builtin_openvas_tcp_scanner.c:346-364 | a port dropped for want of a descriptor stays under test without a socket, is remembered as lost, and keeps the invariant |
| `ScanState.AnsweredKeeps` | nasl/nasl_builtin_openvas_tcp_scanner.c:649-744 | the pending error of a socket being opened turns it into a verdict, or into a connected socket; invariant kept, measure lower |
| `ScanState.DroppedKeeps` | nasl/nasl_builtin_openvas_tcp_scanner.c:616-638 | a socket closed by a timeout makes a port that never answered silent; invariant kept, measure lower |
| `ScanState.LiveCut` | nasl/nasl_builtin_openvas_tcp_scanner.c:863-875 | cutting a run of unused entries out of the table loses no live socket and keeps their order |
| `ScanState.CompactKeeps` | nasl/nasl_builtin_openvas_tcp_scanner.c:863-878 | the live sockets alone satisfy the invariant with the same counts and the same measure |
| `ScanState.NextPassKeeps` | nasl/nasl_builtin_openvas_tcp_scanner.c:928-936 | the table and counters a retry pass starts from satisfy the invariant; the ports the reset takes out of the totals are accounted for |
| `ScanState.RecheckPassKeeps` | nasl/nasl_builtin_openvas_tcp_scanner.c:961-964 | the same for the pass over the ports left unknown |
| `ScanWorld.WindowAfterAttempt` | nasl/nasl_builtin_openvas_tcp_scanner.c:346-376 | no resource error lets the window outgrow the connection limits, and only a descriptor beyond FD_SETSIZE can close it while the second limit stays positive |
| `ScanWorld.AdjustedInWindow` | nasl/nasl_builtin_openvas_tcp_scanner.c:834-862 | no round of increases and decreases lets the window outgrow the limits or close |
| `ScanWorld.AdjustedWide` | nasl/nasl_builtin_openvas_tcp_scanner.c:834-862 | with a minimum of at least six, a round that drops sockets leaves a second limit of at least three, and no round brings one of two or more below two |
| `ScanWorld.PassWindows` | nasl/nasl_builtin_openvas_tcp_scanner.c:937-971 | no change of pass lets the window outgrow the limits |
| `ScanWorld.RetryWide` | nasl/nasl_builtin_openvas_tcp_scanner.c:937-953 | so a retry of silent ports starts with a second limit of at least two, and any retry with at least one |
| `ScanWorld.DropRound` | nasl/nasl_builtin_openvas_tcp_scanner.c:843-862 | a round that drops sockets at the minimum window takes the second limit a quarter of the way towards the minimum and sets the flag |
| `ScanWorld.SixIsLeast` | nasl/nasl_builtin_openvas_tcp_scanner.c:834-953 | six is the least minimum for which a pass that drops a socket gives back a second limit of two |
| `ScanWorld.WindowWearsOut` | nasl/nasl_builtin_openvas_tcp_scanner.c:834-953 | with any smaller minimum, rounds that drop sockets and changes of pass bring the second limit from the maximum down to nothing |
| `ScanWorld.SafeLimits` | nasl/nasl_builtin_openvas_tcp_scanner.c:1095-1178 | the minimum is at least six exactly when the descriptor limit is not below thirteen |
| `ScanWorld.ChooseLimits` | nasl/nasl_builtin_openvas_tcp_scanner.c:1080-1178 | the limits as the code computes them step by step |
| `ScanWorld.UsualLimits` | nasl/nasl_builtin_openvas_tcp_scanner.c:1095-1178 | on an idle machine with descriptors to spare the minimum is eight connections for each check, and the maximum eighty, or twenty-four but at least thirty-two in all with safe checks |
| `ScanWorld.LimitsOk` | nasl/nasl_builtin_openvas_tcp_scanner.c:1095-1178 | the connection limits satisfy 1 <= min and 2 min <= max <= table size exactly when the descriptor limit is not below three |
| `ScanWorld.AttemptedKeeps` | nasl/nasl_builtin_openvas_tcp_scanner.c:323-500 | whatever the kernel answers to an attempt, short of an error that ends the scan, the invariant holds, the measure falls and the total of the pass is unchanged |
| `ScanWorld.AttemptedSteps` | nasl/nasl_builtin_openvas_tcp_scanner.c:323-500 | the same as one step of the pass: verdicts are never revised and the table grows by at most one socket |
| `ConnectScanner.Scanner.Connect` | nasl/nasl_builtin_openvas_tcp_scanner.c:434-493 | the new state is the one the answer to connect stands for |
| `ConnectScanner.Scanner.TryPort` | nasl/nasl_builtin_openvas_tcp_scanner.c:338-499 | the new state, window and overflow mark are those of the attempt; it gives up exactly on the fatal answers |
| `ConnectScanner.Scanner.OpenSockets` | nasl/nasl_builtin_openvas_tcp_scanner.c:327-500 | the opening loop keeps the invariant and the window; it ends with the window full, with no port left unknown, or after an attempt that was writable at once, and without sockets only when no port is left unknown, unless a descriptor was beyond FD_SETSIZE; it fails only on an error of the system |
| `ConnectScanner.Scanner.CloseAll` | nasl/nasl_builtin_openvas_tcp_scanner.c:616-639 | after a silent select every socket is closed, every port being opened is silent, and the measure is lower |
| `ConnectScanner.Scanner.Serve` | nasl/nasl_builtin_openvas_tcp_scanner.c:644-799 | a socket reported as writable is asked for its error and its port gets the verdict that answer calls for; one reported as readable is closed; any other is left alone |
| `ConnectScanner.Scanner.HandleReady` | nasl/nasl_builtin_openvas_tcp_scanner.c:640-802 | the same for the whole table: every reported socket is served and no other; the measure is lower |
| `ConnectScanner.Scanner.Poll` | nasl/nasl_builtin_openvas_tcp_scanner.c:608-802 | if select reported any socket in use, no port is given up and each reported socket is served: its question is on record and its port is open for success, rejected for an unreachable network, closed otherwise; if it reported none, every socket is closed and every port being opened is silent |
| `ConnectScanner.Scanner.Expire` | nasl/nasl_builtin_openvas_tcp_scanner.c:803-832 | exactly the overdue sockets are closed, their ports being opened are silent, and the two counts are the numbers of sockets of either kind closed |
| `ConnectScanner.Scanner.CloseGap` | nasl/nasl_builtin_openvas_tcp_scanner.c:871-874 | the memmove removes exactly the entries from i to j, within the table |
| `ConnectScanner.Scanner.Compact` | nasl/nasl_builtin_openvas_tcp_scanner.c:863-878 | the table in use becomes exactly its live sockets in their original order |
| `ConnectScanner.Scanner.Tidy` | nasl/nasl_builtin_openvas_tcp_scanner.c:803-878 | expiry, window and compaction together: the new window is that of the round’s counts, and all remaining sockets are live |
| `ConnectScanner.Scanner.Turn` | nasl/nasl_builtin_openvas_tcp_scanner.c:608-878 | from the call of select on, a round lowers the measure and keeps the window wide; each socket in use is served if reported, closed if overdue or if none was reported, and kept otherwise, with the verdicts written out for each case |
| `ConnectScanner.Scanner.Round` | nasl/nasl_builtin_openvas_tcp_scanner.c:323-878 | a round lowers the measure 3 unknown + 2 opening + connected, or ends the pass with no port unknown unless a descriptor overflowed |
| `ConnectScanner.Scanner.Pass` | nasl/nasl_builtin_openvas_tcp_scanner.c:312-880 | every pass terminates, keeps the invariant and the total, and leaves no port unknown unless a descriptor overflowed |
| `ConnectScanner.Scanner.DoubleCheckStdPorts` | nasl/nasl_builtin_openvas_tcp_scanner.c:122-141 | counts the ports still unknown |
| `ConnectScanner.Scanner.PrepareRetry` | nasl/nasl_builtin_openvas_tcp_scanner.c:928-953 | the state for the next pass over the silent ports |
| `ConnectScanner.Scanner.PrepareRecheck` | nasl/nasl_builtin_openvas_tcp_scanner.c:957-971 | the state for the pass over the ports still unknown |
| `ConnectScanner.Scanner.WorthRetrying` | nasl/nasl_builtin_openvas_tcp_scanner.c:884-923 | exactly when filtered ports are tried again, and what is remembered of the decision |
| `ConnectScanner.Scanner.EndPass` | nasl/nasl_builtin_openvas_tcp_scanner.c:880-975 | exactly when another pass follows and which: a retry if the pass dropped sockets or left ports filtered, as far as that is worth while, else a recheck if ports were left unknown; otherwise nothing changes. What is remembered for the next decision is fixed as well |
| `ConnectScanner.Scanner.AdjustWindow` | nasl/nasl_builtin_openvas_tcp_scanner.c:834-862 | the window is grown, shrunk and bounded as the counts of the round say |
| `ConnectScanner.Scanner.ShrinkWindow` | nasl/nasl_builtin_openvas_tcp_scanner.c:937-953 | the window of a retry pass |
| `ConnectScanner.Scanner.RecheckingWindow` | nasl/nasl_builtin_openvas_tcp_scanner.c:965-971 | the window of a recheck pass |
| `ConnectScanner.Scanner.ChangePass` | nasl/nasl_builtin_openvas_tcp_scanner.c:880-975 | the change made after a pass: the table at its end joins the history, which fixes what the change takes out of the totals, and without a change there was no reason for one |
| `ConnectScanner.Scanner.OnePass` | nasl/nasl_builtin_openvas_tcp_scanner.c:312-975 | one pass and the change to the next, with both of these |
| `ConnectScanner.Scanner.Passes` | nasl/nasl_builtin_openvas_tcp_scanner.c:312-981 | at most sixteen passes over the requested ports, with the history of the tables at every change; unless an error of the system was met or descriptors ran out, the scan does not fail if the minimum of connections is at least six, and has at most two passes more than ports |
| `ScanHistory.ChronicleMore` | nasl/nasl_builtin_openvas_tcp_scanner.c:880-975 | a pass added to the history is a pass of the same world, begun with the table the last change left |
| `ScanHistory.ShrinksAgain` | nasl/nasl_builtin_openvas_tcp_scanner.c:884-936 | in a world without errors every further pass has at least one port less to test |
| `ScanHistory.RetryBegun` | nasl/nasl_builtin_openvas_tcp_scanner.c:928-953 | a retry pass starts with the history, totals and window the change leaves |
| `ScanHistory.NothingToTest` | nasl/nasl_builtin_openvas_tcp_scanner.c:884-923 | a pass with nothing to test finds nothing, and no other follows |
| `ScanHistory.RoomyAgain` | nasl/nasl_builtin_openvas_tcp_scanner.c:834-953 | a pass begun with a second limit of two, or with nothing to test, is followed only by passes begun so |
| `ScanHistory.WhyOver` | nasl/nasl_builtin_openvas_tcp_scanner.c:884-975 | a scan is over only if the first pass left few ports filtered or few closed and none unknown beside filtered ones, or a later one left no port filtered, as many as it was to test, or found no open port |
| `ScanHistory.NextRemembers` | nasl/nasl_builtin_openvas_tcp_scanner.c:888-964 | a change of pass after the first was made because the number of filtered ports was not the one to test, and what is remembered of the pass is kept |
| `ScanHistory.KindBegun` | nasl/nasl_builtin_openvas_tcp_scanner.c:312-953 | so in such a world no pass begins without a window, and the number of passes is bounded by the ports |
| `ScanWorld.HighFd` | nasl/nasl_builtin_openvas_tcp_scanner.c:367-376 | a descriptor beyond FD_SETSIZE, which POSIX gives out lowest first, needs the connection limit and the descriptors open elsewhere to reach FD_SETSIZE together |
| `ScanWorld.FdIsLowest` | nasl/nasl_builtin_openvas_tcp_scanner.c:338-345 | every lower descriptor is held by a socket of the table or open elsewhere |
| `ScanWorld.HarshAttempt` | nasl/nasl_builtin_openvas_tcp_scanner.c:346-477 | only an error of the system or the descriptor limit ends the scan or changes the window |
| `ScanWorld.AttemptedGrounded` | nasl/nasl_builtin_openvas_tcp_scanner.c:434-493 | an attempt records only answers the kernel gave |
| `ScanHistory.VerdictsTruthful` | nasl/nasl_builtin_openvas_tcp_scanner.c:880-1044 | at the end of a pass every verdict is an answer to a question that was asked about its port, and a port still under test met a resource error |
| `ScanWaiting.AttemptPatient` | nasl/nasl_builtin_openvas_tcp_scanner.c:323-345 | an attempt leaves what is known of all other sockets as it was |
| `ScanWaiting.SelectPatient` | nasl/nasl_builtin_openvas_tcp_scanner.c:608-612 | after a select only the sockets it reported are no longer waiting |
| `ScanWaiting.DroppedPatient` | nasl/nasl_builtin_openvas_tcp_scanner.c:616-638 | a port given up while its socket was waiting was never reported since its last attempt |
| `ScanWaiting.RoundTurned` | nasl/nasl_builtin_openvas_tcp_scanner.c:608-878 | serving, expiry and compaction together do to each socket what the whole round is said to do |
| `ConnectScanner.ReportComplete` | nasl/nasl_builtin_openvas_tcp_scanner.c:977-1044 | what a faithful report leaves open: with descriptors enough no port is unknown, except that a scan that used up its passes has exactly the ports last found silent, and their number is the filtered count; after one pass both counts are those of the table |
| `ConnectScanner.ReportExact` | nasl/nasl_builtin_openvas_tcp_scanner.c:1041-1044 | if no port meets a resource error and the descriptors suffice, the untested count is the number of undecided ports and the full-scan mark means that there are none |
| `ScanWitness.FullScanCanBeWrong` | nasl/nasl_builtin_openvas_tcp_scanner.c:312-981 | a scan of three ports, with its windows and decisions, that ends with the mark set and a port undecided: one is lost to a resource error, one refuses, and one is dropped and refuses on retry |
| `ScanWitness.SomeStart` | nasl/nasl_builtin_openvas_tcp_scanner.c:218-292 | such a scan can be started |
| `ScanWitness.HighFdEndsPass` | nasl/nasl_builtin_openvas_tcp_scanner.c:367-376 | a descriptor beyond FD_SETSIZE that closes the window and leaves a port unknown, with the second limit positive |
| `ConnectScanner.Published` | nasl/nasl_builtin_openvas_tcp_scanner.c:977-1044 | the published counts are those of the verdicts, less what the last change of pass took out of the totals, which the history fixes; after the last pass allowed they are those of the table at its end |
| `ConnectScanner.BannerGrab` | nasl/nasl_builtin_openvas_tcp_scanner.c:143-1047 | for every behaviour of kernel and clock: exactly the requested ports get verdicts, each verdict is an answer the kernel gave about that port, a silent port had a connection under way on a descriptor that no select reported from its last attempt until it was given up, each open port is reported once, every published count is fixed by the verdicts and the history of the passes, without resource errors the untested count and the full-scan mark are exact, a scan that ends before its sixteenth pass had no reason for another, and the scan is given up only for an error of the system that was met, for want of descriptors below FD_SETSIZE, or with a minimum of connections below six |
| `TcpScan.ScanList` | nasl/nasl_builtin_openvas_tcp_scanner.c:218-1047 | for every well-formed list without repetitions, parser and scanner together give every listed port a verdict, and no other, with the guarantees of the scanner |
| `TcpScan.ScanNumbers` | nasl/nasl_builtin_openvas_tcp_scanner.c:218-1047 | the same for ports and ranges given as numbers and written in decimal: a port is tested exactly when it is listed |
| `PortLists.InsertKeeps` | misc/network.c:2273-2284 | insertion in the order in which zero is greatest keeps the order and the multiset |
| `PortLists.StripInPlace` | misc/network.c:2332-2335 | the compaction in place leaves the characters that are not spaces, in order |
| `PortLists.NoSectionBefore` | misc/network.c:2337-2345 | the mark of a section that is found is the first |
| `PortLists.TcpPartIs` | misc/network.c:2337-2345 | what is left between the marks of a well-formed list is exactly its TCP items |
| `PortLists.ItemBounds` | misc/network.c:2351-2363 | a written port or range is read as its bounds |
| `PortLists.ElementsAre` | misc/network.c:2347-2396 | the ports collected from a well-formed list are the listed ones in order |
| `PortLists.ParseList` | misc/network.c:2331-2405 | for every string: the list, the refusal of an empty range, or the overflow of the array, as the code decides them |
| `PortLists.JoinIsMarked` | nasl/nasl_builtin_openvas_tcp_scanner.c:222-292 | the scanner’s parser reads the same ports from every well-formed list, whatever separator it left unread |
| `PortLists.MarkPorts` | nasl/nasl_builtin_openvas_tcp_scanner.c:218-292 | for every string: success exactly when it can be read, and then a table with exactly the listed ports and a count of all mentions |
| `PortLists.ParsersAgree` | misc/network.c:2331-2405 | for every well-formed list, with or without tags and a UDP part, both parsers name the same ports; the list is sorted, ended by its only zero, and has each port as often as it is listed |
| `PortLists.NumeralRead` | misc/network.c:2351-2363 | a number written in decimal is read back |
| `PortLists.LeadingZeros` | misc/network.c:2351-2363 | zeros before a number change nothing |
| `PortLists.NumberRead` | nasl/nasl_builtin_openvas_tcp_scanner.c:243-262 | nor do white space and a sign before it, but for the sign, or what follows it |
| `PortLists.NumbersAgree` | misc/network.c:2331-2405 | for every list of ports and ranges given as numbers and written in decimal, both parsers read exactly those ports; the list parser returns them in ascending order with a zero at the end |
| `PortLists.ParsersDiffer` | misc/network.c:2337-2345 | in the one other case, an untagged list before a UDP part that contains T:, the list parser reads from that mark on and the scanner’s parser what comes before |
| `PortLists.SevenOrFive` | misc/network.c:2337-2345 | from 5,U:T:7 one reads 7, the other 5 |
| `PortLists.CountIsRight` | nasl/nasl_builtin_openvas_tcp_scanner.c:287-291 | the number of ports to test equals the number of ports marked exactly when no port is listed twice, and is otherwise larger |
| `NaslSemantics.ExitYields` | nasl/nasl_misc_funcs.c:312-332 | exit yields its code, and the current context is left with it |
| `NaslSemantics.AssignedAfterExit` | nasl/exec.c:1072-1079 | an assignment whose right-hand side exits is still made, with the code of the exit |
| `NaslSemantics.CalleeRunsAfterExit` | nasl/nasl_func.c:127-190 | a function called with an argument that exits still runs, and its effects stay |
| `NaslSemantics.ConstantAfterExit` | nasl/exec.c:193-215 | a constant operand after one that exits keeps its value |
| `NaslLaws.IfLaw` | nasl/exec.c:809-822 | a condition whose value is null, fake, zero or the empty string selects the second branch, any other value the first |
| `NaslLaws.IfConstant` | nasl/exec.c:43-73 | the constants zero and the empty string are false, every other number, string and array is true |
| `NaslLaws.AndLaw` | nasl/exec.c:1174-1181 | a conjunction is zero or one, and evaluates its second operand exactly if the first is true |
| `NaslLaws.OrLaw` | nasl/exec.c:1182-1188 | a disjunction is one or zero, and evaluates its second operand exactly if the first is false |
| `NaslLaws.NotLaw` | nasl/exec.c:1189-1193 | a negation is one for a false value and zero for a true one |
| `NaslLaws.WhileLaw` | nasl/exec.c:841-879 | a while loop is over if its condition is false, and otherwise its body followed by the loop, unless it breaks or returns |
| `NaslLaws.RepeatLaw` | nasl/exec.c:921-953 | a repeat loop is its body, followed by the loop if the condition is false |
| `NaslLaws.FindLaw` | nasl/nasl_var.c:103-138 | a variable belongs to the innermost context that has it, and to the current one if none has |
| `NaslLaws.ReadLaw` | nasl/nasl_var.c:103-138 | it reads as what that context holds |
| `NaslLaws.UndefinedLaw` | nasl/nasl_var.c:103-138 | a variable no context has reads as null |
| `NaslLaws.AssignLaw` | nasl/exec.c:1072-1079 | an assigned variable holds the value, and every other variable what it held |
| `NaslLaws.AssignNothing` | nasl/exec.c:1072-1079 | a variable assigned from a function without a return value is null |
| `NaslLaws.FindFunLaw` | nasl/nasl_func.c:25-38 | a function is found exactly if a context has it, the innermost first |
| `NaslLaws.ReturnLaw` | nasl/nasl_func.c:40-227 | a function defined to return a constant yields it when called |
| `NaslLaws.NamedArgument` | nasl/nasl_func.c:129-165 | an argument reaches the function under its name; the same name twice is an error |
| `NaslLaws.NumberedArguments` | nasl/nasl_func.c:129-165 | unnamed arguments reach a built-in function in their order |
| `NaslLaws.ForeachLaw` | nasl/exec.c:957-996 | after a foreach with nothing to do its variable holds the last element |
| `NaslLaws.ForeachNothing` | nasl/exec.c:957-996 | a foreach over something that is not an array changes no variable |
| `NaslLaws.ScriptLaw` | nasl/exec.c:809-822 | the script if (n) x = 7; leaves seven in x for every n but zero, for which it does nothing |
| `NaslInterpreter.SettledTwice` | nasl/exec.c:784-795 | two evaluations in turn leave every context as one to the second world does: an exit is never undone |
| `NaslInterpreter.ReturnStops` | nasl/nasl_func.c:252-259 | a return value reaches the current function context and no caller |
| `NaslInterpreter.Popped` | nasl/nasl_func.c:225-227 | dropping the callee’s context gives back the caller’s chain with its loop flags and functions untouched |
| `NaslInterpreter.CalleeFlags` | nasl/nasl_func.c:198-212 | of what a callee leaves pending only an exit reaches its callers, and it reaches all of them |
| `NaslInterpreter.Consumed` | nasl/exec.c:865-871 | a loop consumes exactly a break or continue of its own body and never a return |
| `NaslInterpreter.DefineKeeps` | nasl/nasl_func.c:40-63 | a new definition keeps function names distinct along the chain and apart from the built-ins |
| `NaslInterpreter.DeclareDone` | nasl/nasl_func.c:40-63 | a name already visible is refused and changes nothing; otherwise it is defined as the semantics has it |
| `NaslInterpreter.FunctionDone` | nasl/nasl_func.c:95-227 | a call yields what the structured meaning of the body returned or exited with, evaluated in a fresh context even if an argument exited |
| `NaslInterpreter.ExitDone` | nasl/nasl_misc_funcs.c:312-332 | making every context of the chain return is what the structured meaning of exit says |
| `NaslInterpreter.HeldBack` | nasl/exec.c:784-795 | while a completion is pending nothing is evaluated or executed, and its value is the result |
| `NaslInterpreter.ForLapGoes` | nasl/exec.c:841-879 | one turn of a for or while loop: the flags after it mean what the structured loop says |
| `NaslInterpreter.UntilLapGoes` | nasl/exec.c:921-953 | the same for repeat-until |
| `NaslInterpreter.EachDone` | nasl/exec.c:968-990 | the same for foreach |
| `NaslInterpreter.Interpreter.Evaluate` | nasl/exec.c:784-805 | for every expression: nothing happens while a completion is pending, and otherwise value and effect are those of the structured semantics, in every context of the chain |
| `NaslInterpreter.Interpreter.Operand` | nasl/exec.c:193-215 | the same for operands and arguments, where a constant is taken even after an exit |
| `NaslInterpreter.Interpreter.EvalCall` | nasl/nasl_func.c:95-227 | the same for calls, over every call tree |
| `NaslInterpreter.Interpreter.BindArgs` | nasl/nasl_func.c:129-165 | arguments are evaluated in the caller up to the first that cannot be bound |
| `NaslInterpreter.Interpreter.Execute` | nasl/exec.c:784-1062 | for every statement: at most one completion is pending afterwards, exactly the one its structured meaning has, and of its callers’ return values only an exit touches any |
| `NaslInterpreter.Interpreter.ExecBlock` | nasl/exec.c:824-830 | a block runs its tail only if its head completed normally |
| `NaslInterpreter.Interpreter.ExecIf` | nasl/exec.c:809-822 | a condition runs the branch its structured meaning selects |
| `NaslInterpreter.Interpreter.RunLoop` | nasl/exec.c:832-955 | for, while and repeat-until refine the structured loops |
| `NaslInterpreter.Interpreter.RunEach` | nasl/exec.c:957-996 | foreach refines iteration over the elements the array had at the start |
| `NaslInterpreter.Interpreter.ExecRepeated` | nasl/exec.c:1015-1036 | a repeated statement runs its call that many times |
| `NaslInterpreter.Interpreter.ExecReturn` | nasl/nasl_func.c:235-263 | return sets the value of the nearest function context |
| `NaslInterpreter.Interpreter.SetReturn` | nasl/nasl_func.c:252-259 | the walk up the chain marks every context up to the nearest function |
| `NaslInterpreter.RunScript` | nasl/exec.c:1613-1750 | every script ends exactly as the structured semantics says, with the same variables |
| `NaslFuel.ExecStable` | nasl/exec.c:784-1062 | the bound on iterations and calls never changes the result of a run that ends |
| `Exponent.ExpoIsPower` | nasl/exec.c:743-764 | repeated squaring computes the power, for every base and every exponent from zero |
| `Exponent.NegativeExponent` | nasl/exec.c:750-754 | a negative exponent gives the truncated reciprocal exactly when the base is not -1 |
| `Stream.LineEnds` | misc/network.c:2050-2070 | a line ends at its first zero byte or newline, at the limit or with the stream, and nowhere else |
| `Stream.Connection.ReadUnbuffered` | misc/network.c:1231-1394 | the contract of the unbuffered read: a prefix of the source, exactly as long as the transport, the room and the source allow; an error exactly when the transport reports one |
| `Stream.Connection.Fill` | misc/network.c:1436-1442 | the buffer receives the next bytes of the source, as many as the transport, the buffer and the source allow; nothing is lost if it was empty |
| `Stream.Connection.ReadMin` | misc/network.c:1396-1454 | what is delivered followed by what is unread is what was unread before, exactly unless no room for a byte is offered while the buffer holds some and the source gives any; then the source is read over them. What is buffered is delivered as far as there is room, and nothing else if it reaches the minimum; a transport that gives the minimum when the source has it makes the whole read give it |
| `Stream.LoseByte` | misc/network.c:1436-1442 | two such reads on a stream of two bytes with a buffer of one: none is handed out and one is left |
| `Stream.Connection.SetBuffer` | misc/network.c:2167-2211 | a resize succeeds exactly when the buffered bytes fit, and never loses a byte |
| `Stream.ReadOn` | misc/network.c:2050-2070 | one byte more ends the line at a terminator or the limit, and otherwise goes on with the line begun |
| `Stream.Connection.RecvLine` | misc/network.c:2039-2084 | for every limit, also zero, for which one byte is read: the bytes taken are a prefix of the unread ones up to a terminator; from a source that always supplies their number does not depend on the buffer |
| `Stream.Connection.Step` | misc/network.c:1396-2211 | one operation of either kind; only a resize that fits changes the size of the buffer |
| `Stream.Run` | misc/network.c:1396-2211 | any interleaving of reads, line reads and resizes hands out the stream in order, losing and repeating nothing, each operation taking what its kind takes and a read over an obliging transport at least its minimum, up to the first read that loses bytes, if there is one |
| `Stream.Replay` | misc/network.c:1396-2211 | the same from a fresh connection, where only a read that offers no room can be one; over a source that always supplies, every line taken is the line of the stream, whatever the buffer sizes |
| `Md5Block.F1` | nasl/md5.c:169-170 | the optimised form is the function F of section 3.4 of RFC 1321 |
| `Md5Block.F2` | nasl/md5.c:171 | swapping its arguments gives the function G |
| `Md5Block.Step` | nasl/md5.c:176-177 | a step is the operation of section 3.4 whose word, constant and rotation it is given, with the words left in place |
| `Md5Block.FirstRound` | nasl/md5.c:194-209 | the sixteen steps of the first round are the first sixteen operations |
| `Md5Block.SecondRound` | nasl/md5.c:211-226 | those of the second the next |
| `Md5Block.ThirdRound` | nasl/md5.c:228-243 | and of the third |
| `Md5Block.FourthRound` | nasl/md5.c:245-260 | and of the fourth |
| `Md5Block.Transform` | nasl/md5.c:184-266 | the 64 steps and the final sums are the block function of section 3.4 |
| `Md5.AddBitsCounts` | nasl/md5.c:77-80 | the two words with their carry count the bits modulo 2^64 |
| `Md5.OneBlock` | nasl/md5.c:150-161 | padding that fits the block begun gives the digest of the padded message |
| `Md5.TwoBlocks` | nasl/md5.c:139-161 | so does padding that needs a block of its own |
| `Md5.Context.Update` | nasl/md5.c:70-116 | the context afterwards stands for all bytes fed so far |
| `Md5.Context.Final` | nasl/md5.c:122-165 | the digest is the one-shot digest of RFC 1321 of all bytes fed, and the context is cleared |
| `Md5.Sum` | nasl/md5.c:54-165 | every split of a message into updates gives the digest of RFC 1321 |
| `Md5Vector.EmptyMessage` | nasl/md5.c:54-165 | the digest of the empty message is the one in section A.5 of RFC 1321 |
| `Md5.SplitWords` | nasl/md5.c:157-159 | the two words of the count, low bytes first, are the eight bytes of the length |
| `Hmac.MakePads` | nasl/hmacmd5.c:34-45 | the pads are the filled key masked with either constant |
| `Hmac.Context.constructor` | nasl/hmacmd5.c:23-49 | the context stands for the first 64 bytes of the key and no text |
| `Hmac.Context.Update` | nasl/hmacmd5.c:54-58 | the text grows by the data |
| `Hmac.Context.Final` | nasl/hmacmd5.c:63-75 | the digest is that of section 2 of RFC 2104 for the key and text of the context |
| `Hmac.Mac` | nasl/hmacmd5.c:23-91 | every chunking of the text gives the HMAC of RFC 2104 on the first 64 key bytes, which is that of the key itself up to 64 bytes |
| `Arc4.SchedulePermutes` | nasl/arc4.c:22-36 | every step of the key schedule leaves a permutation of the bytes |
| `Arc4.KeyedPermutes` | nasl/arc4.c:15-72 | after key setup and any amount of output every byte occurs in the table exactly once |
| `Arc4.StepOfKey` | nasl/arc4.c:28-36 | each step of the key schedule exchanges two entries, and the new index differs from the old one by the entry and the key byte |
| `Arc4.KeyFor` | nasl/arc4.c:28-36 | every sequence of exchanges is made by some key |
| `Arc4.ExchangesTellKey` | nasl/arc4.c:28-36 | no two keys of the same length make the same exchanges |
| `Arc4.ChunksConcatenate` | nasl/arc4.c:46-72 | crypting in chunks is crypting the concatenation, in data and state |
| `Arc4.TwiceRestores` | nasl/arc4.c:46-72 | crypting twice from equal states restores every buffer |
| `Arc4.Init` | nasl/arc4.c:15-39 | the array holds the key schedule with both indices zero, a permutation |
| `Arc4.Crypt` | nasl/arc4.c:46-72 | the data is combined with the key stream, nothing after it is touched, and the array holds the state that many bytes later |
| `TlsPrf.ShorterIsPrefix` | nasl/nasl_crypto.c:335-370 | a shorter output is a prefix of a longer one, so the length determines the output |
| `TlsPrf.Prf` | nasl/nasl_crypto.c:298-375 | the output is P_hash of section 5 of RFC 2246 cut to the length, on the label up to its terminator followed by the seed |
| `TlsPrf.HalvesOverlap` | nasl/nasl_crypto.c:392-411 | the two halves cover the secret and share the middle byte exactly when its length is odd |
| `TlsPrf.Tls1Prf` | nasl/nasl_crypto.c:384-434 | the output is the exclusive or of P_MD5 on the first half and P_SHA1 on the second, as in section 5 of RFC 4346 |
| `DnParser.PassesReadBack` | nasl/nasl_cert.c:327-383 | both passes over a printed value read it back, up to the end of the part |
| `DnParser.AcceptsPrinted` | nasl/nasl_cert.c:329-353 | the counting pass accepts printed text only |
| `DnParser.HexWritten` | nasl/nasl_cert.c:366-374 | two hexadecimal digits in either case are read as the number they write, zero as one |
| `DnParser.Quoted` | nasl/nasl_cert.c:335-346 | the ten characters a backslash takes as they are, and no other but hexadecimal digits |
| `DnParser.Ended` | nasl/nasl_cert.c:347-352 | the six characters that end a value; a quotation mark is refused, and any other character belongs to it |
| `DnParser.PassesAgree` | nasl/nasl_cert.c:327-383 | on every text the counting and the copying pass agree on length and end |
| `DnParser.PrintedIsRead` | nasl/nasl_cert.c:280-420 | for every printed name the first common name is returned, unless an unescaped equals sign comes before its end |
| `DnParser.ReadBackExactly` | nasl/nasl_cert.c:280-420 | a name printed as section 2.4 of RFC 2253 allows is read back exactly when no such equals sign occurs |
| `DnParser.EqualsIsNotReadBack` | nasl/nasl_cert.c:348-350 | a name that is not read back |
| `DnParser.EscapedRoundTrip` | nasl/nasl_cert.c:280-420 | for every list of attributes printed with escapes, the first common name comes back with zero bytes turned into ones, or nothing if there is none |
| `DnParser.ScanValue` | nasl/nasl_cert.c:329-353 | the counting loop, without reading past the terminator |
| `DnParser.CopyValue` | nasl/nasl_cert.c:355-382 | the copying loop, which stays inside a buffer of the counted size |
| `DnParser.ParsePartAt` | nasl/nasl_cert.c:280-385 | one part as the two passes read it |
| `DnParser.FindCommonName` | nasl/nasl_cert.c:392-420 | the loop over the parts, without reading past the terminator |
| `CertObjects.SomeFree` | nasl/nasl_cert.c:113-126 | fewer live objects than ids leave an id unused |
| `CertObjects.Table.NextId` | nasl/nasl_cert.c:97-128 | the search terminates with a positive id that is not in use, also after the counter wrapped, and every id it passed over was in use |
| `CertObjects.Table.Open` | nasl/nasl_cert.c:216-219 | a new node is put in front of the linked ones with an id no live object has |
| `CertObjects.Table.Close` | nasl/nasl_cert.c:244-277 | exactly the object with that id leaves the links; zero, negative and unknown ids change nothing |
| `CertObjects.Table.Push` | nasl/nasl_cert.c:216-219 | the node put in front makes the list one longer and leaves the rest linked as it was |
| `CertObjects.Table.Unlink` | nasl/nasl_cert.c:268-271 | exactly that node leaves the list, by the head or by the link of the node before |
| `CertObjects.WithoutAt` | nasl/nasl_cert.c:259-272 | unlinking the object found removes that one and no other |
| `CertObjects.Replay` | nasl/nasl_cert.c:97-277 | over every sequence of opens and closes, however long, a new id is positive and none of the live ones, and the list is exactly the objects opened and not closed; only with all ids in use does the run stop |
| `ProbeList.List.Get` | nasl/nasl_builtin_synscan.c:261-272 | the first probe of the port, or none |
| `ProbeList.List.Add` | nasl/nasl_builtin_synscan.c:278-304 | a known port is counted up in place, a new one is put in front; the links stay those of a doubly linked list |
| `ProbeList.List.Unlink` | nasl/nasl_builtin_synscan.c:314-323 | exactly that node leaves the list and the links stay consistent |
| `ProbeList.List.Remove` | nasl/nasl_builtin_synscan.c:306-324 | the first probe of the port is removed and no other |
| `ProbeList.List.RemoveDead` | nasl/nasl_builtin_synscan.c:326-370 | exactly the dead probes without retries are removed, and the port returned is that of the last dead probe with retries left |
| `SynScan.FirstKeeps` | nasl/nasl_builtin_synscan.c:547-560 | a first packet keeps one probe per port, whose retries count the packets sent |
| `SynScan.AgainKeeps` | nasl/nasl_builtin_synscan.c:547-560 | so does another packet to a port that has retries left |
| `SynScan.RemoveKeeps` | nasl/nasl_builtin_synscan.c:592 | so does a captured packet |
| `SynScan.Scan.Settle` | nasl/nasl_builtin_synscan.c:575-592 | a captured packet removes the probe of its port, which is reported if the packet accepts the connection |
| `SynScan.Scan.Sniff` | nasl/nasl_builtin_synscan.c:575-592 | after a sniffing no port captured in it is pending |
| `SynScan.SniffSettles` | nasl/nasl_builtin_synscan.c:575-592 | so a captured port stays settled, and no later packet goes to it |
| `SynScan.SweepKeeps` | nasl/nasl_builtin_synscan.c:326-370 | so does a sweep; a port it drops was sent all its packets |
| `SynScan.RetryPending` | nasl/nasl_builtin_synscan.c:336-346 | the port to try again still has a probe with retries left |
| `SynScan.SweepCosts` | nasl/nasl_builtin_synscan.c:326-370 | a sweep never raises the number of packets still to come; if it removes nothing and names no port to try again, no probe was overdue |
| `SynScan.Scan.SendFirst` | nasl/nasl_builtin_synscan.c:727-744 | every listed port is sent exactly one packet, in order, with a sniffing after every second |
| `SynScan.Scan.RetryRound` | nasl/nasl_builtin_synscan.c:749-764 | a turn of the retry loop sends at most three packets, only to ports probed before, and lowers the number still to come unless no probe was overdue |
| `SynScan.WaitEnds` | nasl/nasl_builtin_synscan.c:326-370 | if every probe is overdue at least once in any period of sweeps, none waits a whole period |
| `SynScan.Scan.RetryLoop` | nasl/nasl_builtin_synscan.c:749-764 | under that condition the list is empty after as many periods as there were packets to come |
| `SynScan.RunScan` | nasl/nasl_builtin_synscan.c:727-765 | over any number of rounds: only listed ports are probed, all of them are, none more than three times and none after a packet from it was captured; the ports settled are exactly those captured, and the ports reported those of the captured packets that accept the connection, in order; when the list is empty every port was captured or probed exactly three times, and if every probe is overdue at least once in any period of sweeps, three periods for each port empty it |
| `Checksum.OnesSumIsOnes` | nasl/nasl_builtin_synscan.c:62-72 | end-around-carry addition is the plain sum reduced modulo 65535 |
| `Checksum.TwoFoldsExact` | nasl/nasl_builtin_synscan.c:74-75 | two folds are right exactly when the second leaves no carry of its own |
| `Checksum.FoldsSuffice` | nasl/nasl_builtin_synscan.c:55-78 | up to 65538 words the folds give the one’s complement sum of section 1 of RFC 1071 |
| `Checksum.FoldsCanFail` | nasl/nasl_builtin_synscan.c:55-78 | with one word more they need not |
| `Checksum.StoredChecksumCancels` | nasl/nasl_builtin_synscan.c:445-492 | data that carries its checksum in a field that was zero has checksum zero |
| `Checksum.FieldIsWord` | nasl/nasl_builtin_synscan.c:467 | storing a word at an even offset, in the byte order of the machine, replaces exactly that word of the sum |
| `Checksum.StoredFieldCancels` | nasl/nasl_builtin_synscan.c:464-490 | a packet whose checksum is stored in the field that was zero when it was computed has checksum zero |
| `Checksum.StoreCksum` | nasl/nasl_builtin_synscan.c:464-467 | the same in place, with no other byte touched |
| `Checksum.OrderIrrelevant` | nasl/nasl_builtin_synscan.c:55-78 | the order of the words does not matter |
| `Checksum.ByteOrderIrrelevant` | nasl/nasl_builtin_synscan.c:55-78 | either byte order of the machine stores the same two bytes |
| `Checksum.InCksum` | nasl/nasl_builtin_synscan.c:55-78 | the loop with its odd byte computes the complement of the folded sum |
| `Routes.PrefixToMask` | misc/pcap.c:80-104 | bit k of the mask is set exactly when k is below the prefix length; an error exactly above 128 |
| `Routes.MaskedIffCovers` | misc/pcap.c:940-948 | the masked address equals the route’s exactly when the prefixes agree and the route has no further bits |
| `Routes.Consider` | misc/pcap.c:952-971 | the update keeps the best route so far |
| `Routes.BestUnique` | misc/pcap.c:934-973 | there is one best route: longest prefix, smallest metric, lowest index |
| `Routes.SelectV6` | misc/pcap.c:934-973 | the loop finds it among the routes whose prefix covers the address, or fails exactly on a prefix above 128 |
| `Routes.MaskOrder` | misc/pcap.c:1220-1223 | masks whose set bits are the first ones are ordered as numbers exactly as by prefix length, in either byte order |
| `Routes.NetmaskIs` | misc/pcap.c:1220-1223 | there is one such mask for each prefix length |
| `Routes.MatchIffCovers` | misc/pcap.c:1210 | comparing the masked address with the route’s is comparing the first bits and asking that the route has no others |
| `Routes.SelectV4` | misc/pcap.c:1207-1232 | the loop finds the best of the matching routes by mask, metric and index, or that there is none |
| `Routes.LongestPrefixV4` | misc/pcap.c:1207-1232 | with contiguous masks that is the best route among those whose prefix covers the address, by prefix length, metric and index |

## Left out

- Sockets, TLS, packet capture, the clock, the knowledge base and fork: their results are inputs of the model.
- Connect scanner: round-trip times and the timeouts chosen from them (any timeout is allowed), banner text, and knowledge-base entries other than the published counts. `socket` is taken to return the lowest positive descriptor not in use.
- NASL: array elements, increments, compound assignments, `local_var` and `global_var`, `include`, `on_exit`, reference counting, and the host detail that `exit` registers for one code. Operators and built-in functions are parameters of the semantics.
- NaslSemantics: a run is observed up to a bound on calls and iterations; a run that does not end within it is reported as out of fuel.
- Stream: delivered bytes are returned as a value and not written into the caller's array; the terminator `recv_line` stores after a line and its branch for plain sockets are not modelled.
- Md5: the byte reversal of big-endian machines is not modelled. MD4 is not modelled.
- Arc4.Init: an empty key, for which the program divides by zero, is excluded.
- TlsPrf: the keyed hashes are parameters of fixed output length; a hash that fails after its first use is not modelled.
- DnParser: values written as '#' and hexadecimal digits are reported as unmodelled.
- SynScan: packets are sent without error, only IPv4 has a retry loop and only it is modelled; the building of packets is reduced to the checksum.
- Routes: reading the route tables, the source address, and what follows when no IPv6 route matches. IPv4 masks are given.
- PortLists: the memory of the last call, and numbers too large for a C integer. A list that overflows the array of ports, or a port outside the table, is an outcome of its own.
- The linter, HTTP/2, service detection, character sets, the wrappers of foreign libraries and the daemon around the interpreter.
