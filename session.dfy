/** The command side of the client as state transitions: the fields the client
    keeps between commands, what each handler does to them, the gate in front of
    the handlers, the reply interpreters run after a command, and one cycle of
    the command loop. The class in module Client performs the same steps by
    updating its fields; these functions say what each step means. */
module Session {
  import opened JavaText
  import opened DictProtocol
  import opened Responses

  /** Whether the program is still reading commands, left through System.exit,
      or ended by an uncaught runtime exception. */
  datatype Halt = Running | Exited | Crashed

  /** What connecting to a server gives: whether the socket connects, and the
      lines that server then sends on the new connection. */
  datatype Server = Server(reachable: bool, replies: seq<string>)

  /** The client's fields, the reply lines of the current connection with the
      reader's position in them, and everything written so far: requests to the
      server, lines to standard output and to standard error. */
  datatype State = State(
    status: Status,
    currDict: string,
    validAndExpectedCommand: bool,
    debugOn: bool,
    replies: seq<string>,
    next: nat,
    sent: seq<string>,
    stdout: seq<string>,
    stderr: seq<string>,
    halt: Halt)

  /** The client as it starts: disconnected, every database ("*"), nothing read or
      written. */
  function Initial(debugOn: bool): (s: State)
    ensures Valid(s) && s.status == Disconnected && s.halt == Running
  {
    State(Disconnected, "*", true, debugOn, [], 0, [], [], [], Running)
  }

  /** What every reachable state satisfies: the reader is within the reply, the
      current database is a single non-empty token, and the flag is set between
      cycles. */
  predicate Valid(s: State) {
    s.next <= |s.replies| && IsWord(s.currDict) && s.validAndExpectedCommand
  }

  // ---------------------------------------------------------------- handlers

  /** A diagnostic on standard error, and the command is not followed by reading
      a reply. */
  function Refuse(s: State, message: string): State {
    s.(stderr := s.stderr + [message], validAndExpectedCommand := false)
  }

  /** A request line written to the server, traced first in debug mode. */
  function Request(s: State, request: string): State {
    s.(stdout := s.stdout + Echo(request, s.debugOn), sent := s.sent + [request])
  }

  /** The line the debug trace of close shows: the next reply line, or "null" when
      the reply is exhausted. */
  function NextLineOrNull(s: State): string
    requires s.next <= |s.replies|
  {
    if s.next < |s.replies| then s.replies[s.next] else "null"
  }

  /** establishConnection: a server and an optional port, 2628 by default. A port
      that does not parse, or lies outside 0 to 65535, is an invalid argument; the
      debug trace of OPEN comes after the port has parsed. An unreachable server
      gives 920; a reachable one makes the client connected, reading that
      server's reply from its first line. */
  function EstablishConnection(s: State, params: seq<string>, server: Server): (r: State)
    ensures !ArgCountOk(Open, |params|) ==> r == Refuse(s, WrongArgCount)
    ensures r.sent == s.sent && r.currDict == s.currDict
    ensures r.status == s.status || (r.status == Connected && server.reachable)
    ensures r.status == Connected && s.status == Disconnected ==> r.replies == server.replies && r.next == 0
    ensures s.next <= |s.replies| ==> r.next <= |r.replies|
    ensures r.validAndExpectedCommand ==> r.status == Connected && server.reachable
  {
    if !ArgCountOk(Open, |params|) then Refuse(s, WrongArgCount)
    else
      var host := params[0];
      var port := if |params| == 1 then Some(DefaultPort) else ParseInt(params[1]);
      if port.None? then Refuse(s, InvalidArgument)
      else
        var traced := s.(stdout := s.stdout + Echo("OPEN " + host + " " + IntToString(port.value), s.debugOn));
        if !(0 <= port.value <= 65535) then Refuse(traced, InvalidArgument)
        else if !server.reachable then Refuse(traced, ConnectFailed(host, port.value))
        else traced.(status := Connected, replies := server.replies, next := 0)
  }

  /** The outcomes of open with one or two parameters, by its port (the second
      parameter read by Integer.parseInt, 2628 without one) and the server: a port
      that does not parse gives 902 and nothing else; one outside 0 to 65535 gives
      902 after the debug trace; an unreachable server gives 920 naming the server
      and the port; a reachable one connects, with no diagnostic. */
  lemma EstablishConnectionOutcomes(s: State, params: seq<string>, server: Server)
    requires ArgCountOk(Open, |params|)
    ensures var r := EstablishConnection(s, params, server);
      var port := if |params| == 1 then Some(DefaultPort) else ParseInt(params[1]);
      (port.None? ==> r == Refuse(s, InvalidArgument)) &&
      (port.Some? && !(0 <= port.value <= 65535) ==>
         r.stderr == s.stderr + [InvalidArgument] && !r.validAndExpectedCommand && r.status == s.status) &&
      (port.Some? && 0 <= port.value <= 65535 && !server.reachable ==>
         r.stderr == s.stderr + [ConnectFailed(params[0], port.value)] && !r.validAndExpectedCommand && r.status == s.status) &&
      (port.Some? && 0 <= port.value <= 65535 && server.reachable ==>
         r.status == Connected && r.replies == server.replies && r.next == 0 && r.stderr == s.stderr &&
         r.validAndExpectedCommand == s.validAndExpectedCommand)
  {
  }

  /** open with a port written in decimal, from 0 to 65535, to a reachable server
      connects: Integer.parseInt reads the port back. */
  lemma OpenWithPortConnects(s: State, host: string, port: int, server: Server)
    requires 0 <= port <= 65535 && server.reachable
    ensures var r := EstablishConnection(s, [host, IntToString(port)], server);
      r.status == Connected && r.replies == server.replies && r.next == 0 && r.stderr == s.stderr
  {
    ParseIntToString(port);
    EstablishConnectionOutcomes(s, [host, IntToString(port)], server);
  }

  /** closeConnections: "quit" is written to the server, traced with the server's
      next line in debug mode, and the client is disconnected. */
  function CloseConnections(s: State, params: seq<string>): (r: State)
    requires s.next <= |s.replies|
    ensures |params| != 0 ==> r == Refuse(s, WrongArgCount)
    ensures |params| == 0 ==> r.status == Disconnected && r.sent == s.sent + [QuitRequest]
  {
    if |params| != 0 then Refuse(s, WrongArgCount)
    else
      var trace := if s.debugOn then ["--> " + QuitRequest, "<-- " + NextLineOrNull(s)] else [];
      var next := if s.debugOn && s.next < |s.replies| then s.next + 1 else s.next;
      s.(sent := s.sent + [QuitRequest], stdout := s.stdout + trace, next := next, status := Disconnected)
  }

  /** exit: closes the connection first when connected, then ends the program. */
  function Exit(s: State, params: seq<string>): (r: State)
    requires s.next <= |s.replies|
    ensures |params| != 0 ==> r == Refuse(s, WrongArgCount)
    ensures |params| == 0 ==> r.halt == Exited && r.status == Disconnected
  {
    if |params| != 0 then Refuse(s, WrongArgCount)
    else if s.status == Connected then CloseConnections(s, params).(halt := Exited)
    else
      assert s.status == Disconnected;
      s.(halt := Exited)
  }

  /** getSupportedDicts: SHOW DB. */
  function GetSupportedDicts(s: State, params: seq<string>): State {
    if |params| != 0 then Refuse(s, WrongArgCount) else Request(s, ShowDbRequest)
  }

  /** setCurrDict: the one parameter becomes the current database. */
  function SetCurrDict(s: State, params: seq<string>): State {
    if |params| != 1 then Refuse(s, WrongArgCount) else s.(currDict := params[0])
  }

  /** getCurrDict: the current database is printed. */
  function GetCurrDict(s: State, params: seq<string>): State {
    if |params| != 0 then Refuse(s, WrongArgCount) else s.(stdout := s.stdout + [s.currDict])
  }

  /** define: DEFINE in the current database. */
  function DefineCmd(s: State, params: seq<string>): State {
    if |params| != 1 then Refuse(s, WrongArgCount) else Request(s, DefineRequest(s.currDict, params[0]))
  }

  /** match: MATCH in the current database with the exact strategy. */
  function MatchCmd(s: State, params: seq<string>): State {
    if |params| != 1 then Refuse(s, WrongArgCount) else Request(s, MatchExactRequest(s.currDict, params[0]))
  }

  /** prefixmatch: MATCH in the current database with the prefix strategy. */
  function PrefixMatchCmd(s: State, params: seq<string>): State {
    if |params| != 1 then Refuse(s, WrongArgCount) else Request(s, MatchPrefixRequest(s.currDict, params[0]))
  }

  /** The handler each admitted verb runs. */
  function Dispatch(s: State, v: Verb, params: seq<string>, server: Server): (r: State)
    requires s.next <= |s.replies|
    ensures r.next <= |r.replies|
  {
    match v
    case Open => EstablishConnection(s, params, server)
    case Dict => GetSupportedDicts(s, params)
    case Set => SetCurrDict(s, params)
    case CurrDict => GetCurrDict(s, params)
    case Define => DefineCmd(s, params)
    case Match => MatchCmd(s, params)
    case PrefixMatch => PrefixMatchCmd(s, params)
    case Close => CloseConnections(s, params)
    case Quit => Exit(s, params)
  }

  /** processCmd on the tokens of the command line: the first names the verb, the
      others are its parameters; an unknown verb gives 900, a verb not expected
      in this status 903, and an admitted one runs its handler. */
  function ProcessCmd(s: State, words: seq<string>, server: Server): (r: State)
    requires s.next <= |s.replies| && words != []
    ensures r.next <= |r.replies|
  {
    match Gate(words[0], s.status)
    case Invalid => Refuse(s, InvalidCommand)
    case Unexpected => Refuse(s, NotExpected)
    case Accepted(v) => Dispatch(s, v, words[1..], server)
  }

  // ---------------------------------------------------------------- replies

  /** The effect of an interpreter run on the client. */
  function Apply(s: State, t: Transcript): State {
    s.(stdout := s.stdout + t.stdout, stderr := s.stderr + t.stderr, sent := s.sent + t.sent,
       next := t.next, halt := if t.crashed then Crashed else s.halt)
  }

  /** processOpenResponse: the banner is read and printed; a line that is not 220
      is followed by 999 and the connection is closed. */
  function ProcessOpenResponse(s: State): (r: State)
    requires s.next <= |s.replies|
    ensures r.next <= |r.replies|
  {
    var b := OpenRun(s.replies, s.next, s.debugOn);
    var read := Apply(s, b.t);
    if b.rejected then CloseConnections(read, []) else read
  }

  /** processResponse on the tokens of the command line: the interpreter for the
      command just sent, chosen by the lower-cased first token; define takes the
      word from the second token. */
  function ProcessResponse(s: State, words: seq<string>): (r: State)
    requires s.next <= |s.replies| && words != []
    ensures r.next <= |r.replies| && r.replies == s.replies
  {
    var verb := ToLower(words[0]);
    if verb == "open" then ProcessOpenResponse(s)
    else if verb == "dict" then Apply(s, ReaderRun(DictReader, s.replies, s.next, "", s.debugOn))
    else if verb == "define" then
      if |words| < 2 then s.(halt := Crashed)
      else Apply(s, DefineRun(s.replies, s.next, "", 1, words[1], s.debugOn))
    else if verb == "match" then Apply(s, ReaderRun(MatchReader(NoMatchingWords), s.replies, s.next, "", s.debugOn))
    else if verb == "prefixmatch" then Apply(s, ReaderRun(MatchReader(NoPrefixMatches), s.replies, s.next, "", s.debugOn))
    else s
  }

  // ---------------------------------------------------------------- the loop

  /** A line the command loop skips: empty after trimming, or a # comment. */
  predicate Skipped(cmd: string) {
    cmd == [] || cmd[0] == '#'
  }

  /** One cycle of the command loop on a line typed by the user. The line is
      trimmed; blank lines and comments are skipped; "^D" quits; any other line
      is split into tokens and processed. */
  function Step(s: State, line: string, server: Server): (r: State)
    requires s.next <= |s.replies| && s.halt == Running
    ensures r.next <= |r.replies|
  {
    var cmd := Trim(line);
    if Skipped(cmd) then s
    else if cmd == "^D" then Exit(s, [])
    else
      TrimmedSplits(line);
      Cycle(s, Split(cmd), server)
  }

  /** A command on its tokens: processCmd, then the reply read only while the
      command is still valid and expected, then the flag set again for the next
      cycle unless the program has ended. */
  function Cycle(s: State, words: seq<string>, server: Server): (r: State)
    requires s.next <= |s.replies| && s.halt == Running && words != []
    ensures r.next <= |r.replies|
  {
    var a := ProcessCmd(s, words, server);
    if a.halt != Running then a
    else
      var b := if a.validAndExpectedCommand then ProcessResponse(a, words) else a;
      if b.halt != Running then b
      else b.(validAndExpectedCommand := true)
  }

  /** The command loop over the lines typed, each paired with the server an open
      on that line would reach; it stops at the end of the input or when the
      program has ended. */
  function Run(s: State, lines: seq<string>, servers: seq<Server>): (r: State)
    requires s.next <= |s.replies| && |servers| == |lines|
    ensures r.next <= |r.replies|
    decreases |lines|
  {
    if lines == [] || s.halt != Running then s
    else Run(Step(s, lines[0], servers[0]), lines[1..], servers[1..])
  }

  /** A trimmed line that is not empty splits into at least one token, the first
      of them non-empty. */
  lemma TrimmedSplits(line: string)
    requires Trim(line) != []
    ensures Split(Trim(line)) != [] && Split(Trim(line))[0] != []
  {
    var cmd := Trim(line);
    SplitTokens(cmd);
    assert !IsSpace(cmd[0]);
    assert SpaceFrom(cmd, 0) > 0;
  }

  // ------------------------------------------------------- properties: lines

  /** A line that carries a command: not skipped, not "^D". */
  predicate IsCommand(line: string) {
    var cmd := Trim(line);
    !Skipped(cmd) && cmd != "^D"
  }

  /** The tokens of a command line. */
  function Words(line: string): (words: seq<string>)
    requires IsCommand(line)
    ensures words != [] && words == Split(Trim(line))
  {
    TrimmedSplits(line);
    Split(Trim(line))
  }

  /** Every token of a command line is a non-empty run without whitespace. */
  lemma WordsAreWords(line: string)
    requires IsCommand(line)
    ensures forall k :: 0 <= k < |Words(line)| ==> IsWord(Words(line)[k])
  {
    TrimmedSplits(line);
    SplitTokens(Trim(line));
  }

  /** Blank lines and comments leave the client as it was; "^D" ends it as quit
      does; any other line is a command cycle on its tokens. */
  lemma StepCases(s: State, line: string, server: Server)
    requires s.next <= |s.replies| && s.halt == Running
    ensures Skipped(Trim(line)) ==> Step(s, line, server) == s
    ensures Trim(line) == "^D" ==> Step(s, line, server) == Exit(s, [])
    ensures Trim(line) == "^D" ==> Step(s, line, server).halt == Exited && Step(s, line, server).status == Disconnected
    ensures IsCommand(line) ==> Step(s, line, server) == Cycle(s, Words(line), server)
  {
  }

  // ------------------------------------------------------ properties: gate

  /** A command refused before any handler runs, or by its handler's argument
      count, only adds its diagnostic: no request, no reply read, no field
      changed, and the flag is set again for the next cycle. */
  lemma CycleRefused(s: State, words: seq<string>, server: Server, message: string)
    requires s.next <= |s.replies| && s.halt == Running && words != []
    requires ProcessCmd(s, words, server) == Refuse(s, message)
    ensures Cycle(s, words, server) == s.(stderr := s.stderr + [message], validAndExpectedCommand := true)
  {
  }

  /** A first token that names no verb gives 900, in either status. */
  lemma InvalidCommandRefused(s: State, words: seq<string>, server: Server)
    requires s.next <= |s.replies| && s.halt == Running && words != []
    requires ParseVerb(words[0]).None?
    ensures Cycle(s, words, server) == s.(stderr := s.stderr + [InvalidCommand], validAndExpectedCommand := true)
  {
    CycleRefused(s, words, server, InvalidCommand);
  }

  /** A verb the status does not admit gives 903: only open and quit while
      disconnected, everything but open while connected. */
  lemma UnexpectedCommandRefused(s: State, words: seq<string>, server: Server)
    requires s.next <= |s.replies| && s.halt == Running && words != []
    requires ParseVerb(words[0]).Some? && !IsExpected(s.status, ParseVerb(words[0]).value)
    ensures Cycle(s, words, server) == s.(stderr := s.stderr + [NotExpected], validAndExpectedCommand := true)
  {
    CycleRefused(s, words, server, NotExpected);
  }

  /** Each handler checks the argument count in the table ArgCountOk: a mismatch
      gives 901 and nothing else. */
  lemma ArgCountRefused(s: State, words: seq<string>, server: Server)
    requires s.next <= |s.replies| && s.halt == Running && words != []
    requires Gate(words[0], s.status).Accepted?
    requires !ArgCountOk(Gate(words[0], s.status).verb, |words| - 1)
    ensures Cycle(s, words, server) == s.(stderr := s.stderr + [WrongArgCount], validAndExpectedCommand := true)
  {
    DispatchRefused(s, Gate(words[0], s.status).verb, words[1..], server);
    CycleRefused(s, words, server, WrongArgCount);
  }

  lemma DispatchRefused(s: State, v: Verb, params: seq<string>, server: Server)
    requires s.next <= |s.replies| && !ArgCountOk(v, |params|)
    ensures Dispatch(s, v, params, server) == Refuse(s, WrongArgCount)
  {
  }

  // ---------------------------------------------- properties: local commands

  /** A verb without a reply interpreter reads nothing: the cycle ends by setting
      the flag again. */
  lemma CycleWithoutReply(s: State, words: seq<string>, server: Server, v: Verb)
    requires s.next <= |s.replies| && s.halt == Running && words != []
    requires Gate(words[0], s.status) == Accepted(v) && v in {Set, CurrDict, Close}
    ensures Cycle(s, words, server) == ProcessCmd(s, words, server).(validAndExpectedCommand := true)
  {
    assert ToLower(words[0]) == VerbName(v);
  }

  /** set overwrites the current database with its one argument and does
      nothing else. */
  lemma SetReplacesCurrDict(s: State, words: seq<string>, server: Server)
    requires s.next <= |s.replies| && s.halt == Running && words != []
    requires Gate(words[0], s.status) == Accepted(Set) && |words| == 2
    ensures Cycle(s, words, server) == s.(currDict := words[1], validAndExpectedCommand := true)
  {
    CycleWithoutReply(s, words, server, Set);
  }

  /** currdict prints the current database and changes nothing. */
  lemma CurrDictPrints(s: State, words: seq<string>, server: Server)
    requires s.next <= |s.replies| && s.halt == Running && words != []
    requires Gate(words[0], s.status) == Accepted(CurrDict) && |words| == 1
    ensures Cycle(s, words, server) == s.(stdout := s.stdout + [s.currDict], validAndExpectedCommand := true)
  {
    CycleWithoutReply(s, words, server, CurrDict);
  }

  // --------------------------------------------------- properties: requests

  /** The tokens of the request each query verb sends, in the current database. */
  function QueryTokens(v: Verb, dict: string, word: string): seq<string>
    requires v in {Define, Match, PrefixMatch}
  {
    match v
    case Define => ["DEFINE", dict, word]
    case Match => ["MATCH", dict, "exact", word]
    case PrefixMatch => ["MATCH", dict, "prefix", word]
  }

  /** define, match and prefixmatch each write exactly one request line, made of
      the command word, the current database, the strategy for match, and the
      word asked for; nothing else changes but the debug trace. */
  lemma QuerySendsOneRequest(s: State, words: seq<string>, server: Server, v: Verb)
    requires Valid(s) && words != [] && v in {Define, Match, PrefixMatch}
    requires Gate(words[0], s.status) == Accepted(v) && |words| == 2 && IsWord(words[1])
    ensures var r := ProcessCmd(s, words, server);
      |r.sent| == |s.sent| + 1 && r == Request(s, r.sent[|s.sent|]) &&
      Split(r.sent[|s.sent|]) == QueryTokens(v, s.currDict, words[1])
  {
    var w := words[1];
    match v
    case Define => DefineRequestWords(s.currDict, w);
    case Match => MatchExactRequestWords(s.currDict, w);
    case PrefixMatch => MatchPrefixRequestWords(s.currDict, w);
  }

  /** dict writes exactly "show db", which splits into SHOW and DB. */
  lemma DictSendsShowDb(s: State, words: seq<string>, server: Server)
    requires s.next <= |s.replies| && words != []
    requires Gate(words[0], s.status) == Accepted(Dict) && |words| == 1
    ensures ProcessCmd(s, words, server) == Request(s, ShowDbRequest)
    ensures Split(ShowDbRequest) == ["show", "db"]
  {
    var ts := ["show", "db"];
    assert ts[1..] == ["db"] && ["db"][..0] == [];
    assert JoinSpace(ts) == "show" + ("" + " " + "db") == ShowDbRequest;
    assert IsWord(ts[0]) && IsWord(ts[1]);
    SplitJoinSpace(ts);
  }

  /** No handler admitted while disconnected writes to the server: open only
      connects, and quit closes nothing when there is no connection. */
  lemma DisconnectedDispatchSendsNothing(s: State, v: Verb, params: seq<string>, server: Server)
    requires s.next <= |s.replies| && s.status == Disconnected && IsExpected(Disconnected, v)
    ensures Dispatch(s, v, params, server).sent == s.sent
  {
  }

  // ---------------------------------------------------- properties: replies

  /** The interpreter each reader-driven verb runs on its reply. */
  function ReaderOf(v: Verb): Reader
    requires v in {Dict, Match, PrefixMatch}
  {
    match v
    case Dict => DictReader
    case Match => MatchReader(NoMatchingWords)
    case PrefixMatch => MatchReader(NoPrefixMatches)
  }

  /** dict, match and prefixmatch read their reply up to the first line that stops
      their interpreter, and no further: the client then stands just after it, has
      crashed exactly when it is blank, and has reported only what that line
      calls for. Nothing else of the session changes. */
  lemma ReaderCycleStops(s: State, words: seq<string>, server: Server, v: Verb)
    requires s.next <= |s.replies| && s.halt == Running && s.validAndExpectedCommand && words != []
    requires v in {Dict, Match, PrefixMatch} && Gate(words[0], s.status) == Accepted(v)
    requires ArgCountOk(v, |words| - 1)
    ensures var r := Cycle(s, words, server);
      var reader := ReaderOf(v);
      |s.stderr| <= |r.stderr| &&
      (r.next, r.halt == Crashed, r.stderr[|s.stderr|..]) ==
        EndingAt(reader, s.replies, StopLine(reader, s.replies, s.next, "")) &&
      r.replies == s.replies && r.status == s.status && r.currDict == s.currDict
  {
    assert ToLower(words[0]) == VerbName(v);
    var reader := ReaderOf(v);
    var t := ReaderRun(reader, s.replies, s.next, "", s.debugOn);
    ReaderRunStops(reader, s.replies, s.next, "", s.debugOn);
    var a := ProcessCmd(s, words, server);
    assert a.halt == Running && a.validAndExpectedCommand && a.stderr == s.stderr;
    assert ProcessResponse(a, words) == Apply(a, t);
    CycleReads(s, words, server, t);
    var r := Cycle(s, words, server);
    assert r.stderr[|s.stderr|..] == t.stderr;
    assert (r.next, r.halt == Crashed, r.stderr[|s.stderr|..]) == Ending(t);
  }

  /** A command admitted with its reply interpreter run: the cycle ends with that
      run applied, the flag set again unless it crashed. */
  lemma CycleReads(s: State, words: seq<string>, server: Server, t: Transcript)
    requires s.next <= |s.replies| && s.halt == Running && words != []
    requires var a := ProcessCmd(s, words, server);
      a.halt == Running && a.validAndExpectedCommand && ProcessResponse(a, words) == Apply(a, t)
    ensures var a := ProcessCmd(s, words, server);
      Cycle(s, words, server) == if t.crashed then Apply(a, t) else Apply(a, t).(validAndExpectedCommand := true)
  {
  }

  /** define writes its request, then at most the one fallback MATCH, and reports
      at most one missing database, whatever the server replies. */
  lemma DefineCycleReports(s: State, words: seq<string>, server: Server)
    requires s.next <= |s.replies| && s.halt == Running && words != []
    requires Gate(words[0], s.status) == Accepted(Define) && |words| == 2
    ensures var r := Cycle(s, words, server);
      |s.sent| < |r.sent| && r.sent[|s.sent|] == DefineRequest(s.currDict, words[1]) &&
      AtMostOnce(r.sent[|s.sent| + 1..], MatchDefaultRequest(words[1])) &&
      |s.stderr| <= |r.stderr| && AtMostOnce(r.stderr[|s.stderr|..], DictionaryDoesNotExist)
  {
    assert ToLower(words[0]) == VerbName(Define);
    var t := DefineRun(s.replies, s.next, "", 1, words[1], s.debugOn);
    DefineRunReports(s.replies, s.next, "", 1, words[1], s.debugOn);
    var a := ProcessCmd(s, words, server);
    assert ProcessResponse(a, words) == Apply(a, t);
    var r := Apply(a, t);
    assert r.sent == s.sent + [DefineRequest(s.currDict, words[1])] + t.sent;
    assert r.sent[|s.sent| + 1..] == t.sent;
    assert r.stderr[|s.stderr|..] == t.stderr;
  }

  // ----------------------------------------------------- properties: status

  /** processOpenResponse: a first reply line whose first token is 220 keeps the
      connection; any other non-blank line adds 999 and closes it, writing quit;
      a reply with no line at all, or a blank one, leaves it connected. */
  lemma OpenResponseBanner(a: State)
    requires a.next <= |a.replies| && a.status == Connected
    ensures var r := ProcessOpenResponse(a);
      r.currDict == a.currDict &&
      if a.next < |a.replies| && !Blank(a.replies[a.next]) && FirstWord(a.replies[a.next]) != Banner then
        r.status == Disconnected && r.sent == a.sent + [QuitRequest] && r.stderr == a.stderr + [ProcessingError]
      else
        r.status == Connected && r.sent == a.sent && r.stderr == a.stderr
  {
  }

  /** open with a server name and either no port (2628) or one that parses to a
      number from 0 to 65535, to a server that accepts the connection: the client
      reads that server's reply from its start, and stays connected unless the
      first line is not the 220 banner, in which case it reports 999, writes quit
      and is disconnected again. */
  lemma OpenCycle(s: State, words: seq<string>, server: Server)
    requires s.next <= |s.replies| && s.halt == Running && s.validAndExpectedCommand && words != []
    requires s.status == Disconnected && Gate(words[0], s.status) == Accepted(Open)
    requires |words| == 2 || (|words| == 3 && ParseInt(words[2]).Some? && 0 <= ParseInt(words[2]).value <= 65535)
    requires server.reachable
    ensures var r := Cycle(s, words, server);
      r.replies == server.replies && r.currDict == s.currDict &&
      if server.replies != [] && !Blank(server.replies[0]) && FirstWord(server.replies[0]) != Banner then
        r.status == Disconnected && r.sent == s.sent + [QuitRequest] && r.stderr == s.stderr + [ProcessingError]
      else
        r.status == Connected && r.sent == s.sent && r.stderr == s.stderr
  {
    assert ToLower(words[0]) == VerbName(Open);
    var a := ProcessCmd(s, words, server);
    assert 0 <= DefaultPort <= 65535;
    assert a == Dispatch(s, Open, words[1..], server);
    assert a.status == Connected && a.replies == server.replies && a.next == 0;
    assert a.validAndExpectedCommand && a.halt == Running && a.sent == s.sent && a.stderr == s.stderr;
    OpenResponseBanner(a);
  }

  /** The status a cycle can leave while disconnected, and what it can write to
      the server: the client becomes connected only through an admitted open to a
      server that accepts the connection, and it writes nothing but, when that
      server's banner is refused, quit. */
  lemma DisconnectedCycle(s: State, words: seq<string>, server: Server)
    requires s.next <= |s.replies| && s.halt == Running && words != [] && s.status == Disconnected
    ensures var r := Cycle(s, words, server);
      (r.status == Connected ==> Gate(words[0], s.status) == Accepted(Open) && server.reachable) &&
      (r.sent == s.sent || (server.reachable && r.sent == s.sent + [QuitRequest]))
  {
    match Gate(words[0], s.status)
    case Invalid => CycleRefused(s, words, server, InvalidCommand);
    case Unexpected => CycleRefused(s, words, server, NotExpected);
    case Accepted(v) =>
      if v == Open {
        DisconnectedOpen(s, words, server);
      } else {
        DisconnectedQuit(s, words, server);
      }
  }

  lemma DisconnectedOpen(s: State, words: seq<string>, server: Server)
    requires s.next <= |s.replies| && s.halt == Running && words != [] && s.status == Disconnected
    requires Gate(words[0], s.status) == Accepted(Open)
    ensures var r := Cycle(s, words, server);
      (r.status == Connected ==> server.reachable) &&
      (r.sent == s.sent || (server.reachable && r.sent == s.sent + [QuitRequest]))
  {
    assert ToLower(words[0]) == VerbName(Open);
    var a := ProcessCmd(s, words, server);
    if a.validAndExpectedCommand {
      OpenResponseBanner(a);
    }
  }

  lemma DisconnectedQuit(s: State, words: seq<string>, server: Server)
    requires s.next <= |s.replies| && s.halt == Running && words != [] && s.status == Disconnected
    requires Gate(words[0], s.status) == Accepted(Quit)
    ensures var r := Cycle(s, words, server);
      r.status == Disconnected && r.sent == s.sent
  {
    assert ToLower(words[0]) == VerbName(Quit);
  }

  /** close writes quit and disconnects, keeping everything else but the trace. */
  lemma CloseDisconnects(s: State, words: seq<string>, server: Server)
    requires s.next <= |s.replies| && s.halt == Running && words != []
    requires Gate(words[0], s.status) == Accepted(Close) && |words| == 1
    ensures var r := Cycle(s, words, server);
      r.status == Disconnected && r.sent == s.sent + [QuitRequest] && r.halt == Running &&
      r.currDict == s.currDict && r.stderr == s.stderr
  {
    CycleWithoutReply(s, words, server, Close);
  }

  /** quit ends the program, writing quit first only when connected. */
  lemma QuitExits(s: State, words: seq<string>, server: Server)
    requires s.next <= |s.replies| && s.halt == Running && words != []
    requires Gate(words[0], s.status) == Accepted(Quit) && |words| == 1
    ensures var r := Cycle(s, words, server);
      r.halt == Exited && r.status == Disconnected &&
      r.sent == s.sent + (if s.status == Connected then [QuitRequest] else [])
  {
  }

  // -------------------------------------------------- properties: invariant

  /** Reading a reply never changes the current database or the flag. */
  lemma ResponseKeepsFields(a: State, words: seq<string>)
    requires a.next <= |a.replies| && words != []
    ensures var b := ProcessResponse(a, words);
      b.currDict == a.currDict && b.validAndExpectedCommand == a.validAndExpectedCommand
  {
  }

  /** Only set changes the current database, and then to its one argument; a
      handler that ends the program leaves the flag alone. */
  lemma HandlerFields(s: State, words: seq<string>, server: Server)
    requires s.next <= |s.replies| && words != []
    ensures var a := ProcessCmd(s, words, server);
      (a.currDict == s.currDict || (Gate(words[0], s.status) == Accepted(Set) && |words| == 2 && a.currDict == words[1])) &&
      (a.halt != s.halt ==> a.validAndExpectedCommand == s.validAndExpectedCommand)
  {
    match Gate(words[0], s.status)
    case Invalid =>
    case Unexpected =>
    case Accepted(v) => DispatchFields(s, v, words[1..], server);
  }

  lemma DispatchFields(s: State, v: Verb, params: seq<string>, server: Server)
    requires s.next <= |s.replies|
    ensures var a := Dispatch(s, v, params, server);
      (a.currDict == s.currDict || (v == Set && |params| == 1 && a.currDict == params[0])) &&
      (a.halt != s.halt ==> a.validAndExpectedCommand == s.validAndExpectedCommand)
  {
    match v
    case Open =>
    case Dict =>
    case Set =>
    case CurrDict =>
    case Define =>
    case Match =>
    case PrefixMatch =>
    case Close =>
    case Quit =>
  }

  /** Across a cycle only set changes the current database, and then to its one
      argument; and the flag is set for the next cycle whenever it was set for
      this one. */
  lemma CycleFields(s: State, words: seq<string>, server: Server)
    requires s.next <= |s.replies| && s.halt == Running && words != []
    ensures var r := Cycle(s, words, server);
      (r.currDict == s.currDict || (Gate(words[0], s.status) == Accepted(Set) && |words| == 2 && r.currDict == words[1])) &&
      (s.validAndExpectedCommand ==> r.validAndExpectedCommand)
  {
    var a := ProcessCmd(s, words, server);
    HandlerFields(s, words, server);
    if a.halt == Running && a.validAndExpectedCommand {
      ResponseKeepsFields(a, words);
    }
  }

  /** A cycle on tokens without whitespace keeps the state valid. */
  lemma CycleKeepsValid(s: State, words: seq<string>, server: Server)
    requires Valid(s) && s.halt == Running && words != []
    requires forall k :: 1 <= k < |words| ==> IsWord(words[k])
    ensures Valid(Cycle(s, words, server))
  {
    CycleFields(s, words, server);
  }

  /** Every cycle of the command loop keeps the state valid: in particular the
      current database, "*" at the start, is never empty. */
  lemma StepKeepsValid(s: State, line: string, server: Server)
    requires Valid(s) && s.halt == Running
    ensures Valid(Step(s, line, server))
  {
    StepCases(s, line, server);
    if IsCommand(line) {
      CommandKeepsValid(s, line, server);
    } else if Trim(line) == "^D" {
      assert Valid(Exit(s, []));
    }
  }

  lemma CommandKeepsValid(s: State, line: string, server: Server)
    requires Valid(s) && s.halt == Running && IsCommand(line)
    ensures Valid(Step(s, line, server))
  {
    StepCases(s, line, server);
    WordsAreWords(line);
    CycleKeepsValid(s, Words(line), server);
  }

  /** The whole session keeps the state valid, from the initial state on. */
  lemma {:induction false} RunKeepsValid(s: State, lines: seq<string>, servers: seq<Server>)
    requires Valid(s) && |servers| == |lines|
    ensures Valid(Run(s, lines, servers))
    decreases |lines|
  {
    if lines != [] && s.halt == Running {
      StepKeepsValid(s, lines[0], servers[0]);
      RunKeepsValid(Step(s, lines[0], servers[0]), lines[1..], servers[1..]);
    }
  }

  /** The client never writes to a server it has not connected to: while every
      open is refused its connection, the session stays disconnected and sends
      nothing. */
  lemma {:induction false} RunUnreachableSendsNothing(s: State, lines: seq<string>, servers: seq<Server>)
    requires s.next <= |s.replies| && |servers| == |lines| && s.status == Disconnected
    requires forall k :: 0 <= k < |servers| ==> !servers[k].reachable
    ensures var r := Run(s, lines, servers);
      r.status == Disconnected && r.sent == s.sent
    decreases |lines|
  {
    if lines != [] && s.halt == Running {
      StepUnreachable(s, lines[0], servers[0]);
      RunUnreachableSendsNothing(Step(s, lines[0], servers[0]), lines[1..], servers[1..]);
    }
  }

  /** One line typed while disconnected, with the server refusing the connection. */
  lemma StepUnreachable(s: State, line: string, server: Server)
    requires s.next <= |s.replies| && s.halt == Running && s.status == Disconnected
    requires !server.reachable
    ensures var r := Step(s, line, server);
      r.status == Disconnected && r.sent == s.sent
  {
    StepCases(s, line, server);
    if Trim(line) == "^D" {
      assert Exit(s, []) == s.(halt := Exited);
    } else if IsCommand(line) {
      CommandUnreachable(s, line, server);
    }
  }

  lemma CommandUnreachable(s: State, line: string, server: Server)
    requires s.next <= |s.replies| && s.halt == Running && s.status == Disconnected
    requires !server.reachable && IsCommand(line)
    ensures var r := Step(s, line, server);
      r.status == Disconnected && r.sent == s.sent
  {
    StepCases(s, line, server);
    DisconnectedCycle(s, Words(line), server);
  }
}
