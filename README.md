# CSdict: a DICT client's protocol engine, in Dafny

CSdict is a command-line client for the DICT protocol (RFC 2229). The user
types commands: `open`, `dict`, `set`, `currdict`, `define`, `match`,
`prefixmatch`, `close` and `quit`. The client checks each command against its
state, sends one request line to the server and then reads and prints the
reply. This project models that engine and proves properties of it. It covers:

- the static state: the status, the current database (`currDict`), the
  per-cycle flag `validAndExpectedCommand` and the debug switch;
- the command gate (`isCmdValid`, `isCmdExpected`, `processCmd`) and the
  handlers;
- the request lines;
- the four reply interpreters (`processOpenResponse`, `processDictResponse`,
  `processDefineResponse` with its match fallback, and `processMatchResponse`);
- one pass of `main`'s loop, and the loop itself.

The files:

- `java_text.dfy` (module `JavaText`) covers the pieces of the Java library
  the client relies on:
  - `String.trim`;
  - `split("\\s+")`, computed in one pass and proved equal to the
    regular-expression definition, including the empty and whitespace-only
    cases;
  - ASCII `toLowerCase`;
  - `Integer.parseInt`;
  - int rendering;
  - the wrapping int decrement.
- `protocol.dfy` (module `DictProtocol`) holds:
  - the verbs;
  - the validity and expectation checks, as one verdict;
  - the argument-count table;
  - the request formats, each proved to split back into its words;
  - the three-digit response-code test;
  - the client's diagnostics.
- `responses.dfy` (module `Responses`) holds the reply interpreters.
  - Each one is a function over the reply lines from a cursor. It returns
    what was printed to standard output and to standard error, the requests
    sent, the new cursor, and whether a runtime exception ended the program.
  - Each `while` loop of the client is a method proved equal to its function.
- `session.dfy` (module `Session`) holds:
  - the client's state as a value;
  - each handler as a state transition;
  - one cycle of the command loop (`Step`, `Cycle`) and the loop over all
    input lines (`Run`);
  - the properties of sessions.
- `client.dfy` (module `Client`) is the client as it runs. Class `CSdict`
  has the static fields as fields, and each routine is a method that updates
  them, proved to make exactly the transition `Session` gives it.

The socket is modelled as two sequences: the request lines written, and the
reply lines with a read position. Connecting is modelled as a `Server` input:
whether the connection succeeds, and which lines that server will send.

A define reply prints its `.` lines. Take the reply `150 1 …`,
`151 "hello" wn "WordNet"`, `Hello`, `.`, `250 ok` to `define hello`.
processDefineResponse (CSdict.java:477-531) prints `@ wn "WordNet"`, `Hello`
and `.`, and stops after reading `250 ok`:

- `.` is not a status line, so the printer shows it;
- no dot-unstuffing is done;
- the count is decremented only on the line after a `.` (CSdict.java:524-526).

`Responses.DefineReplyExample` proves this outcome for that reply.
`Responses.DefineRunCounted` states the general rule: while the count holds,
each line is printed as `DefineShown` says. `Responses.TextShownVerbatim` adds
that text lines, `.` included, are printed verbatim.

## Model

| member | source | states |
|---|---|---|
| JavaText.Trim | CSdict.java:55 | the trimmed line is no longer than the line, begins and ends with characters above U+0020, and is empty exactly when the line holds only characters up to U+0020 |
| JavaText.TrimIsSlice | CSdict.java:55 | the trimmed line is the slice of the line between a prefix and a suffix made only of characters up to U+0020 |
| JavaText.TrimIdempotent | CSdict.java:55 | trimming twice is trimming once |
| JavaText.SplitIsRegexSplit | CSdict.java:400 | the one-pass splitter equals `split("\\s+")` as the regular expression defines it: pieces between whitespace runs, trailing empty pieces removed, and the whole string when nothing matches |
| JavaText.SplitTokens | CSdict.java:400 | no token holds whitespace; only the first can be empty; there are no tokens exactly when the line is non-empty and all whitespace; the first token runs up to the first whitespace |
| JavaText.SplitJoinSpace | CSdict.java:258 | splitting words joined by single spaces gives the words back |
| JavaText.ToLower | CSdict.java:334 | same length, each character lower-cased |
| JavaText.ToLowerIdempotent | CSdict.java:334 | lower-casing twice is lower-casing once |
| JavaText.ParseInt | CSdict.java:499 | a parsed value fits a Java int and comes from an optional sign followed by decimal digits |
| JavaText.ParseIntToString | CSdict.java:107 | `Integer.parseInt` reads back every int written in decimal |
| JavaText.NatToString | CSdict.java:109 | the decimal rendering is non-empty, all digits, and has no leading zero |
| JavaText.NatToStringValue | CSdict.java:109 | the decimal rendering of n has the value n |
| JavaText.Decrement32 | CSdict.java:525 | `numDefs--` stays a Java int and agrees with n - 1 modulo 2^32, wrapping at the minimum |
| DictProtocol.ParseVerb | CSdict.java:332-351 | a verb is recognised exactly when the lower-cased token is its name |
| DictProtocol.ParseVerbName | CSdict.java:333-343 | any token whose lower-casing is a verb's name is that verb |
| DictProtocol.Gate | CSdict.java:403-408 | 900 exactly for an unknown token; 903 exactly for a known verb the status does not expect; accepted otherwise, validity checked before expectation |
| DictProtocol.DefineRequestWords | CSdict.java:258 | the DEFINE line splits into DEFINE, the database and the word |
| DictProtocol.MatchExactRequestWords | CSdict.java:297 | the exact MATCH line splits into MATCH, the database, exact and the word |
| DictProtocol.MatchPrefixRequestWords | CSdict.java:318 | the prefix MATCH line splits into MATCH, the database, prefix and the word |
| DictProtocol.MatchDefaultRequestWords | CSdict.java:277 | the fallback line splits into MATCH, `*`, `.` and the word |
| DictProtocol.ResponseCodeOfNumber | CSdict.java:459-462 | every code from 100 to 999 written in decimal is a response code and parses back to itself |
| Responses.FirstWordSplit | CSdict.java:586-587 | `split()[0]` throws exactly on a non-empty all-whitespace line, and otherwise is the text before the first whitespace |
| Responses.PrinterShows | CSdict.java:541-554 | a line is a status line exactly when its first token is three decimal digits; other lines print verbatim; a status line prints only as `<-- line`, only in debug mode |
| Responses.PrintLineExceptResponseCodeUnlessDebug | CSdict.java:541-554 | the printer method outputs what `Shown` specifies |
| Responses.ReaderRun | CSdict.java:581-641 | a run never moves the cursor backwards, always consumes a line when one remains, sends nothing, and crashes only on a line it read |
| Responses.ProcessDictResponse | CSdict.java:622-641 | the dict loop equals the dict reader's run from the cursor |
| Responses.ReadMatchLine | CSdict.java:586-613 | one match line prints its message on 552, reports 930 on 550, and ends the loop exactly on 552 or 550 |
| Responses.MatchIteration | CSdict.java:585-619 | one pass of the match loop either finishes the run or is the first step of it |
| Responses.ProcessMatchResponse | CSdict.java:581-620 | the match loop equals the match reader's run, with the given nothing-found message |
| Responses.ProcessExactMatchResponse | CSdict.java:561-563 | the exact-match interpreter is the match reader with `****No matching word(s) found****` |
| Responses.ProcessPrefixMatchResponse | CSdict.java:570-572 | the prefix-match interpreter is the match reader with `*****No prefix matches found*****` |
| Responses.BuildHeader | CSdict.java:504-509 | the StringBuilder loop builds `@` followed by the tokens from the third on, each after one space |
| Responses.DefineLineEffects | CSdict.java:478-523 | one define line: a counted line (not 150, 550 or 552) is printed as the printer or the 151 header shows it, with the count unchanged; 150 prints its trace, crashes exactly when the second token is missing or not an int, and otherwise sets the count to it; 550 prints its trace, reports 930 and stops |
| Responses.DefineRun | CSdict.java:471-533 | a define run never moves the cursor backwards and consumes a line whenever one remains |
| Responses.ReadDefineLine | CSdict.java:478-523 | the body of the define loop for one line is `DefineLine` |
| Responses.DefineIteration | CSdict.java:477-532 | one pass of the define loop either finishes the run or is its first step, with the updated count |
| Responses.ProcessDefineResponse | CSdict.java:471-533 | the define loop, with the fallback sharing the cursor, equals the define run from count 1 |
| Responses.OpenRun | CSdict.java:643-664 | the banner check sends nothing and reads at most one line; it rejects exactly when a line remains that is not blank and whose first token is not 220 |
| Responses.StopLineIsFirst | CSdict.java:615-618 | the stop line is the first line on which the reader stops, and it stops on no line before it |
| Responses.ReaderRunStops | CSdict.java:615-618 | dict and match runs end just after their first stop line (554, 552, 550, the line after `.`, or a blank line), crashing exactly on a blank one, with that line's diagnostic as their only standard-error output |
| Responses.ReaderRunOutput | CSdict.java:589-613 | dict and match runs print every line they consume, in order, each through the reader's printer |
| Responses.ReaderRunReportsOnce | CSdict.java:599-601 | a match run reports 930 at most once |
| Responses.DefineRunReports | CSdict.java:486-514 | a define run sends at most the one fallback MATCH and reports 930 at most once |
| Responses.HeaderSplits | CSdict.java:501-510 | splitting the printed 151 header gives `@` and exactly the line's tokens from the third on |
| Responses.DefineRunCounted | CSdict.java:477-531 | while the number of lines read right after a `.` is below the count and every line read is counted, the define run prints each line as `DefineShown` says, sends and reports nothing, does not crash, and stops right after the line with which that number reaches the count, or at the end of the reply |
| Responses.TextShownVerbatim | CSdict.java:521-522 | definition text with no status line, `.` included, is printed verbatim |
| Responses.DefineRunAfterCount | CSdict.java:497-500 | after a `150 n …` line the define run goes on with count n from the next line, having printed only that line's trace |
| Responses.FirstWordOf | CSdict.java:478-479 | the first token of a word, alone or followed by a space and more text, is that word |
| Responses.DefineReplyExample | CSdict.java:471-533 | the reply `150 1 …`, `151 "hello" wn "WordNet"`, `Hello`, `.`, `250 ok` prints `@ wn "WordNet"`, `Hello` and `.`, sends and reports nothing, and is read to its end |
| Responses.DefineRunFallback | CSdict.java:486-496 | on 552 the define run prints the line's trace and `***No definition found***`, sends exactly the fallback MATCH, then prints and ends exactly as the match reader with `***No dictionaries have a definition for this word***` does from the next line |
| Responses.DefineRunStopsOnMissingDatabase | CSdict.java:511-514 | on 550 the define run reports 930 and stops right after that line, whatever the count |
| Responses.CountLineSetsCount | CSdict.java:497-500 | a `150 n …` line sets the count to n without crashing or stopping |
| Session.Initial | CSdict.java:24-29 | the client starts disconnected with currDict `*`, in a valid state |
| Session.EstablishConnection | CSdict.java:95-134 | 901 on a wrong count; nothing sent and currDict kept; it connects only to a server that accepts the connection, then reads that server's reply from the start; the flag survives only on a connection |
| Session.EstablishConnectionOutcomes | CSdict.java:95-134 | with the right count: a port that does not parse gives 902 and nothing else; a port outside 0..65535 gives 902; a valid port on a server that refuses gives 920 naming host and port; a valid port on a server that accepts connects and reads its reply from the start, with no diagnostic |
| Session.OpenWithPortConnects | CSdict.java:107-118 | `open host port` with any port in 0..65535 written in decimal connects to a server that accepts |
| Session.CloseConnections | CSdict.java:142-169 | 901 with parameters; otherwise quit is written and the client is disconnected |
| Session.Exit | CSdict.java:177-189 | 901 with parameters; otherwise the program ends disconnected |
| Session.Dispatch | CSdict.java:410-449 | no handler moves the reader past the reply |
| Session.ProcessCmd | CSdict.java:398-451 | processCmd never moves the reader past the reply |
| Session.ProcessResponse | CSdict.java:672-697 | reading a reply keeps the reply stream and stays within it |
| Session.Step | CSdict.java:55-71 | a cycle keeps the reader within the reply |
| Session.Run | CSdict.java:48-72 | the loop keeps the reader within the reply |
| Session.WordsAreWords | CSdict.java:400 | every token of a trimmed command line is non-empty and holds no whitespace |
| Session.StepCases | CSdict.java:55-71 | blank and `#` lines change nothing; `^D` exits disconnected; any other line is a cycle on its tokens |
| Session.CycleRefused | CSdict.java:405-408 | a refused command only adds its diagnostic; no reply is read and the flag is set again |
| Session.InvalidCommandRefused | CSdict.java:332-351 | an unknown first token gives exactly `900 Invalid command.` in either status, and nothing else changes |
| Session.UnexpectedCommandRefused | CSdict.java:360-390 | a verb the status does not expect gives exactly 903, and nothing else changes |
| Session.ArgCountRefused | CSdict.java:96-100 | a wrong parameter count for the accepted verb gives exactly 901: nothing sent, no field changed |
| Session.DispatchRefused | CSdict.java:143-147 | every handler refuses a count outside its table with 901 and nothing else |
| Session.CycleWithoutReply | CSdict.java:672-697 | set, currdict and close read no reply |
| Session.SetReplacesCurrDict | CSdict.java:217-226 | `set d` makes currDict exactly d, replacing the old value, and changes nothing else |
| Session.CurrDictPrints | CSdict.java:234-243 | currdict prints currDict once and changes nothing |
| Session.QuerySendsOneRequest | CSdict.java:250-323 | define, match and prefixmatch write exactly one request line, whose tokens are the command, currDict, the strategy and the word; nothing else changes but the trace |
| Session.DictSendsShowDb | CSdict.java:197-209 | an admitted `dict` writes exactly `show db`, whose tokens are show and db |
| Session.DisconnectedDispatchSendsNothing | CSdict.java:360-390 | no handler of a verb admitted while disconnected writes a request line |
| Session.ReaderCycleStops | CSdict.java:622-641 | after dict, match or prefixmatch the client stands just after the reply's first stop line, has crashed exactly when that line is blank, has reported only what that line calls for, and keeps status and currDict |
| Session.CycleReads | CSdict.java:69-71 | once the reply interpreter has run, the flag is set again unless the run crashed |
| Session.DefineCycleReports | CSdict.java:250-265 | define writes its request, then at most the fallback MATCH, and reports 930 at most once |
| Session.OpenResponseBanner | CSdict.java:643-664 | a non-blank first line whose first token is not 220 gives 999, writes quit and disconnects; any other reply keeps the connection |
| Session.OpenCycle | CSdict.java:95-134 | `open host` or `open host port` with a port in 0..65535, to a server that accepts: connected unless the banner is refused, in which case 999, quit, disconnected |
| Session.DisconnectedCycle | CSdict.java:120 | while disconnected, a cycle connects only through an admitted open to a server that accepts, and writes nothing but quit after a refused banner |
| Session.DisconnectedOpen | CSdict.java:95-134 | open while disconnected connects only to a server that accepts, and writes at most quit |
| Session.DisconnectedQuit | CSdict.java:177-189 | quit while disconnected writes nothing |
| Session.CloseDisconnects | CSdict.java:165-168 | close always disconnects and writes quit, keeping currDict |
| Session.QuitExits | CSdict.java:177-189 | quit ends the program disconnected, writing quit only when connected |
| Session.ResponseKeepsFields | CSdict.java:672-697 | reading a reply changes neither currDict nor the flag |
| Session.HandlerFields | CSdict.java:398-451 | only set changes currDict, and then to its one parameter |
| Session.DispatchFields | CSdict.java:217-226 | only set changes currDict; a handler that ends the program leaves the flag alone |
| Session.CycleFields | CSdict.java:55-71 | across a cycle only set changes currDict, and the flag is set for the next cycle |
| Session.CycleKeepsValid | CSdict.java:55-71 | a cycle on whitespace-free tokens keeps the state valid |
| Session.StepKeepsValid | CSdict.java:29 | every cycle keeps currDict a non-empty, whitespace-free token and the flag set |
| Session.CommandKeepsValid | CSdict.java:67-71 | a command cycle keeps the state valid |
| Session.RunKeepsValid | CSdict.java:48-72 | the whole session keeps the state valid |
| Session.RunUnreachableSendsNothing | CSdict.java:114-120 | while every connection attempt fails, the session stays disconnected and sends nothing |
| Session.StepUnreachable | CSdict.java:55-71 | one line while disconnected and unreachable: still disconnected, nothing sent |
| Session.CommandUnreachable | CSdict.java:67-71 | one command while disconnected and unreachable: still disconnected, nothing sent |
| Client.CSdict.constructor | CSdict.java:24-29 | the fields start as the initial state |
| Client.CSdict.Refuse | CSdict.java:96-100 | a diagnostic, and the flag cleared |
| Client.CSdict.Send | CSdict.java:206-208 | the request echoed in debug mode and written |
| Client.CSdict.EstablishConnection | CSdict.java:95-134 | the fields make exactly the establishConnection transition |
| Client.CSdict.CloseConnections | CSdict.java:142-169 | the fields make exactly the closeConnections transition |
| Client.CSdict.Exit | CSdict.java:177-189 | the fields make exactly the exit transition |
| Client.CSdict.GetSupportedDicts | CSdict.java:197-209 | the fields make exactly the getSupportedDicts transition |
| Client.CSdict.SetCurrDict | CSdict.java:217-226 | the fields make exactly the setCurrDict transition |
| Client.CSdict.GetCurrDict | CSdict.java:234-243 | the fields make exactly the getCurrDict transition |
| Client.CSdict.Define | CSdict.java:250-265 | the fields make exactly the define transition |
| Client.CSdict.Match | CSdict.java:289-303 | the fields make exactly the match transition |
| Client.CSdict.PrefixMatch | CSdict.java:310-323 | the fields make exactly the prefixmatch transition |
| Client.CSdict.IsCmdValid | CSdict.java:332-351 | returns true exactly for a verb name; prints 900 otherwise |
| Client.CSdict.IsCmdExpected | CSdict.java:360-390 | returns true exactly when the status expects the verb; prints 903 otherwise |
| Client.CSdict.ProcessCmd | CSdict.java:398-451 | the fields make exactly the processCmd transition on the line's tokens |
| Client.CSdict.Apply | CSdict.java:477-532 | the fields take in an interpreter's run |
| Client.CSdict.ProcessOpenResponse | CSdict.java:643-664 | the fields make exactly the processOpenResponse transition |
| Client.CSdict.ProcessResponse | CSdict.java:672-697 | the fields make exactly the processResponse transition, through the interpreter loops |
| Client.CSdict.Step | CSdict.java:55-71 | one pass of main's loop makes exactly the Step transition |
| Client.CSdict.Run | CSdict.java:48-72 | main's loop makes exactly the Run transition |

## Left out

- Reading bytes from standard input, `flushByteArray`, the prompt and the
  `-d` option parsing (CSdict.java:31-53) are not modelled. The model starts
  from the typed line and takes the debug switch as a parameter.
- Sockets, streams, DNS and the 30-second connect timeout are left out. A
  connection attempt is the `Server` input: whether it connects, and the
  reply lines that server sends. The reply is a finite sequence, so reading
  never blocks, and the end of the sequence is the `null` of `readLine`.
- Which connect failure occurred is not modelled. Timeout and other I/O
  errors give the same 920 message, so they are one outcome.
- The `SocketException` and `IOException` handlers of `main` (CSdict.java:73-79)
  are left out, and so is the 925 path of `closeConnections` (CSdict.java:163-164).
  These are transport errors, which the reply model cannot produce.
- The `null` check of `matchDefault` (CSdict.java:272-275) cannot trigger: the
  word comes from a split token. It is not modelled.
- `Integer.parseInt` and `toLowerCase` cover ASCII only. The model recognises
  only ASCII digits and ASCII letters.
- `System.exit` and uncaught runtime exceptions are not modelled as control
  flow. The model records them as the `Exited` and `Crashed` halt states. An
  uncaught exception is `split("\\s+")[0]` on a whitespace-only reply line, or
  a `150` line without a parsable count.
- The model does not capture a reply stream that ends mid-definition and then
  continues on the same connection. Each interpreter stops at the end of the
  sequence, as `readLine` returning `null` makes it stop.
