/** The reply interpreters. Each one reads server lines from a cursor until its own
    stopping condition and reports what it printed, what it sent and where it
    stopped. The functions ReaderRun, DefineRun and OpenRun say what a run
    means; the methods are the loops of the client, proved equal to them. */
module Responses {
  import opened JavaText
  import opened DictProtocol

  /** The effect of one interpreter run: lines written to standard output and to
      standard error, request lines written to the server, the index of the first
      reply line left unread, and whether a runtime exception (an index past the end
      of a split line, a count that does not parse) ended the program. */
  datatype Transcript = Transcript(stdout: seq<string>, stderr: seq<string>, sent: seq<string>, next: nat, crashed: bool)

  function Prepend(out: seq<string>, err: seq<string>, sent: seq<string>, t: Transcript): Transcript {
    Transcript(out + t.stdout, err + t.stderr, sent + t.sent, t.next, t.crashed)
  }

  lemma PrependPrepend(o1: seq<string>, e1: seq<string>, s1: seq<string>,
                       o2: seq<string>, e2: seq<string>, s2: seq<string>, t: Transcript)
    ensures Prepend(o1, e1, s1, Prepend(o2, e2, s2, t)) == Prepend(o1 + o2, e1 + e2, s1 + s2, t)
  {
    assert o1 + (o2 + t.stdout) == o1 + o2 + t.stdout;
    assert e1 + (e2 + t.stderr) == e1 + e2 + t.stderr;
    assert s1 + (s2 + t.sent) == s1 + s2 + t.sent;
  }

  lemma PrependNothing(t: Transcript)
    ensures Prepend([], [], [], t) == t
  {
    assert [] + t.stdout == t.stdout && [] + t.stderr == t.stderr && [] + t.sent == t.sent;
  }

  lemma PrependToEmpty(out: seq<string>, err: seq<string>, sent: seq<string>, next: nat, crashed: bool)
    ensures Prepend(out, err, sent, Transcript([], [], [], next, crashed)) == Transcript(out, err, sent, next, crashed)
  {
    assert out + [] == out && err + [] == err && sent + [] == sent;
  }

  /** The debug trace of a received status line. */
  function Received(line: string, debug: bool): seq<string> {
    if debug then ["<-- " + line] else []
  }

  /** The debug trace of a request line before it is written. */
  function Echo(request: string, debug: bool): seq<string> {
    if debug then ["--> " + request] else []
  }

  /** A line on which split("\\s+")[0] throws: non-empty and all whitespace. */
  predicate Blank(line: string) {
    line != [] && WordFrom(line, 0) == |line|
  }

  /** The first token of a reply line: everything before the first whitespace
      character, "" for a line of whitespace only. */
  function FirstWord(line: string): string {
    line[..SpaceFrom(line, 0)]
  }

  /** Blank and FirstWord are what the client gets from split("\\s+"). */
  lemma FirstWordSplit(line: string)
    ensures Split(line) == [] <==> Blank(line)
    ensures Split(line) != [] ==> Split(line)[0] == FirstWord(line)
  {
    SplitTokens(line);
    if line != [] && AllSpace(line) {
      assert WordFrom(line, 0) == |line|;
    }
  }

  /** A status line: its first token is a three-digit code. */
  predicate IsStatusLine(line: string) {
    IsResponseCode(FirstWord(line))
  }

  /** printLineExceptResponseCodeUnlessDebug: a plain line is shown as it is, a
      status line only as a trace and only in debug mode. */
  function Shown(line: string, debug: bool): seq<string> {
    if IsStatusLine(line) then Received(line, debug) else [line]
  }

  /** The "@" header of a 151 line: "@" and then, each after one space, the tokens
      from the third on (the database name and its description). */
  function Header(words: seq<string>): string {
    "@" + SpaceJoined(if |words| > 2 then words[2..] else [])
  }

  // ---------------------------------------------------------------- one line

  /** What a line of a match reply writes to standard output: a plain line itself;
      a status line its debug trace and, for 552, the nothing-found message. */
  function MatchOut(line: string, message: string, debug: bool): seq<string> {
    var code := FirstWord(line);
    if IsResponseCode(code) then Received(line, debug) + (if code == NoMatch then [message] else [])
    else [line]
  }

  /** What a line of a match reply writes to standard error. */
  function MatchErr(line: string): seq<string> {
    if FirstWord(line) == NoSuchDatabase then [DictionaryDoesNotExist] else []
  }

  /** The effect of one line of a define reply other than 552: what it prints,
      whether it crashes the client or ends the reply, and the definition count
      after it (before the "." rule is applied). */
  datatype LineEffect = LineEffect(out: seq<string>, err: seq<string>, crashed: bool, stop: bool, numDefs: int)

  function DefineLine(line: string, numDefs: int, debug: bool): (f: LineEffect)
    requires MinInt <= numDefs <= MaxInt
    ensures MinInt <= f.numDefs <= MaxInt
  {
    var words := Split(line);
    var code := FirstWord(line);
    if !IsResponseCode(code) then LineEffect([line], [], false, false, numDefs)
    else
      var echo := Received(line, debug);
      if code == DefinitionsFollow then
        var count := if |words| > 1 then ParseInt(words[1]) else None;
        if count.None? then LineEffect(echo, [], true, false, numDefs)
        else LineEffect(echo, [], false, false, count.value)
      else if code == DefinitionHeader then LineEffect(echo + [Header(words)], [], false, false, numDefs)
      else if code == NoSuchDatabase then LineEffect(echo, [DictionaryDoesNotExist], false, true, numDefs)
      else LineEffect(echo, [], false, false, numDefs)
  }

  // ---------------------------------------------------------------- specifications

  /** The dict loop breaks after a 554 line and after the line that follows ".". */
  predicate DictEnds(line: string, prev: string) {
    FirstWord(line) == NoDatabases || prev == "."
  }

  /** The match loop breaks after a 552 or 550 line and after the line that
      follows ".". */
  predicate MatchEnds(line: string, prev: string) {
    prev == "." || FirstWord(line) == NoMatch || FirstWord(line) == NoSuchDatabase
  }

  /** The two line-by-line readers, the dict one and the match one with its
      nothing-found message, described by what one line does. */
  datatype Reader = DictReader | MatchReader(message: string)

  /** Whether the reader breaks out of its loop after this line. */
  predicate Ends(reader: Reader, line: string, prev: string) {
    match reader
    case DictReader => DictEnds(line, prev)
    case MatchReader(_) => MatchEnds(line, prev)
  }

  /** What the reader prints for one line it can split. */
  function LineOut(reader: Reader, line: string, debug: bool): seq<string> {
    match reader
    case DictReader => Shown(line, debug)
    case MatchReader(message) => MatchOut(line, message, debug)
  }

  /** What the reader writes to standard error for one line. */
  function LineErr(reader: Reader, line: string): seq<string> {
    match reader
    case DictReader => []
    case MatchReader(_) => MatchErr(line)
  }

  /** processDictResponse (DictReader) and processMatchResponse (MatchReader)
      from line i on, prev being the line read before: each line is printed as
      the reader prints it; a line split() cannot take apart ends the client;
      reading stops after a line the reader ends on, or at the end of the reply. */
  function ReaderRun(reader: Reader, lines: seq<string>, i: nat, prev: string, debug: bool): (t: Transcript)
    requires i <= |lines|
    ensures i <= t.next <= |lines| && (i < |lines| ==> i < t.next)
    ensures t.sent == [] && (t.crashed ==> i < t.next)
    decreases |lines| - i
  {
    if i == |lines| then Transcript([], [], [], i, false)
    else if Blank(lines[i]) then Transcript([], [], [], i + 1, true)
    else
      var out, err := LineOut(reader, lines[i], debug), LineErr(reader, lines[i]);
      if Ends(reader, lines[i], prev) then Transcript(out, err, [], i + 1, false)
      else Prepend(out, err, [], ReaderRun(reader, lines, i + 1, lines[i], debug))
  }

  /** processDefineResponse(word) from line i on, with numDefs definitions still
      expected. A 552 line prints that nothing was found, sends the fallback MATCH
      and hands the rest of the reply to the match interpreter, after which the
      define reply is over. Any other line has the effect DefineLine gives it;
      then the count drops by one when the previous line was ".", and reading
      stops once it is not positive. */
  function DefineRun(lines: seq<string>, i: nat, prev: string, numDefs: int, word: string, debug: bool): (t: Transcript)
    requires i <= |lines|
    requires MinInt <= numDefs <= MaxInt
    ensures i <= t.next <= |lines| && (i < |lines| ==> i < t.next)
    decreases |lines| - i
  {
    if i == |lines| then Transcript([], [], [], i, false)
    else if FirstWord(lines[i]) == NoMatch then
      var request := MatchDefaultRequest(word);
      Prepend(Received(lines[i], debug) + [NoDefinitionFound] + Echo(request, debug), [], [request],
              ReaderRun(MatchReader(NoDictionaryHasWord), lines, i + 1, "", debug))
    else
      var f := DefineLine(lines[i], numDefs, debug);
      var n := if prev == "." then Decrement32(f.numDefs) else f.numDefs;
      if f.crashed then Transcript(f.out, [], [], i + 1, true)
      else if f.stop || n <= 0 then Transcript(f.out, f.err, [], i + 1, false)
      else Prepend(f.out, f.err, [], DefineRun(lines, i + 1, lines[i], n, word, debug))
  }

  /** The outcome of processOpenResponse: what reading the banner printed, and
      whether the connection must now be closed. */
  datatype BannerCheck = BannerCheck(t: Transcript, rejected: bool)

  /** processOpenResponse: one line is read; unless its first token is 220 the
      client reports a processing error and closes. */
  function OpenRun(lines: seq<string>, i: nat, debug: bool): (b: BannerCheck)
    requires i <= |lines|
    ensures b.t.sent == [] && i <= b.t.next <= |lines| && b.t.next <= i + 1
    ensures b.rejected <==> i < |lines| && !Blank(lines[i]) && FirstWord(lines[i]) != Banner
  {
    if i == |lines| then BannerCheck(Transcript([], [], [], i, false), false)
    else if Blank(lines[i]) then BannerCheck(Transcript([], [], [], i + 1, true), false)
    else
      var out := Shown(lines[i], debug);
      if FirstWord(lines[i]) == Banner then BannerCheck(Transcript(out, [], [], i + 1, false), false)
      else BannerCheck(Transcript(out, [ProcessingError], [], i + 1, false), true)
  }

  // ---------------------------------------------------------------- the loops

  /** The printer, called on a line that splits into at least one token. */
  method PrintLineExceptResponseCodeUnlessDebug(line: string, debug: bool) returns (out: seq<string>)
    requires Split(line) != []
    ensures out == Shown(line, debug)
  {
    var words := Split(line);
    FirstWordSplit(line);
    var firstWord := words[0];
    if !IsResponseCode(firstWord) {
      return [line];
    }
    out := [];
    if debug {
      out := ["<-- " + line];
    }
  }

  /** A reply line is a status line exactly when its first split("\\s+") token
      is three decimal digits; the printer shows any other line as it is, and a
      status line only as its trace, and only in debug mode. */
  lemma PrinterShows(line: string, debug: bool)
    requires Split(line) != []
    ensures IsStatusLine(line) <==>
      |Split(line)[0]| == 3 && forall k :: 0 <= k < 3 ==> '0' <= Split(line)[0][k] <= '9'
    ensures !IsStatusLine(line) ==> Shown(line, debug) == [line]
    ensures IsStatusLine(line) ==>
      (Shown(line, debug) != [] <==> debug) && (debug ==> Shown(line, debug) == ["<-- " + line])
  {
    FirstWordSplit(line);
  }

  method ProcessDictResponse(lines: seq<string>, start: nat, debug: bool) returns (t: Transcript)
    requires start <= |lines|
    ensures t == ReaderRun(DictReader, lines, start, "", debug)
  {
    var out: seq<string> := [];
    var i := start;
    var prevLine := "";
    PrependNothing(ReaderRun(DictReader, lines, start, "", debug));
    while i < |lines|
      invariant start <= i <= |lines|
      invariant Prepend(out, [], [], ReaderRun(DictReader, lines, i, prevLine, debug)) == ReaderRun(DictReader, lines, start, "", debug)
      decreases |lines| - i
    {
      var fromServer := lines[i];
      i := i + 1;
      FirstWordSplit(fromServer);
      if Split(fromServer) == [] {
        return Transcript(out, [], [], i, true);
      }
      var firstWord := FirstWord(fromServer);
      var shown := PrintLineExceptResponseCodeUnlessDebug(fromServer, debug);
      PrependPrepend(out, [], [], shown, [], [], ReaderRun(DictReader, lines, i, fromServer, debug));
      out := out + shown;
      if firstWord == NoDatabases || prevLine == "." {
        return Transcript(out, [], [], i, false);
      }
      prevLine := fromServer;
    }
    PrependToEmpty(out, [], [], i, false);
    t := Transcript(out, [], [], i, false);
  }

  /** The body of the match loop for one line: what it prints and whether it is
      an error reply. */
  method ReadMatchLine(fromServer: string, nothingFoundMessage: string, debug: bool)
    returns (out: seq<string>, err: seq<string>, errorEncountered: bool)
    requires Split(fromServer) != []
    ensures out == MatchOut(fromServer, nothingFoundMessage, debug)
    ensures err == MatchErr(fromServer)
    ensures errorEncountered <==> FirstWord(fromServer) == NoMatch || FirstWord(fromServer) == NoSuchDatabase
  {
    var words := Split(fromServer);
    FirstWordSplit(fromServer);
    var firstWord := words[0];
    out, err, errorEncountered := [], [], false;
    if IsResponseCode(firstWord) {
      if debug {
        out := out + ["<-- " + fromServer];
      }
      if firstWord == NoMatch {
        out := out + [nothingFoundMessage];
        errorEncountered := true;
      } else if firstWord == NoSuchDatabase {
        err := err + [DictionaryDoesNotExist];
        errorEncountered := true;
      }
    } else {
      out := out + [fromServer];
    }
  }

  /** One pass of the match loop: reads line i, prints what it calls for and
      reports whether the loop ends there. */
  method MatchIteration(lines: seq<string>, i: nat, prevLine: string, nothingFoundMessage: string, debug: bool)
    returns (t: Transcript, stop: bool)
    requires i < |lines|
    ensures stop ==> t == ReaderRun(MatchReader(nothingFoundMessage), lines, i, prevLine, debug)
    ensures !stop ==> t.sent == [] && t.next == i + 1 && !t.crashed
    ensures !stop ==>
              (ReaderRun(MatchReader(nothingFoundMessage), lines, i, prevLine, debug) ==
               Prepend(t.stdout, t.stderr, [], ReaderRun(MatchReader(nothingFoundMessage), lines, i + 1, lines[i], debug)))
  {
    var fromServer := lines[i];
    FirstWordSplit(fromServer);
    if Split(fromServer) == [] {
      return Transcript([], [], [], i + 1, true), true;
    }
    var lineOut, lineErr, errorEncountered := ReadMatchLine(fromServer, nothingFoundMessage, debug);
    t := Transcript(lineOut, lineErr, [], i + 1, false);
    stop := prevLine == "." || errorEncountered;
  }

  method ProcessMatchResponse(lines: seq<string>, start: nat, nothingFoundMessage: string, debug: bool)
    returns (t: Transcript)
    requires start <= |lines|
    ensures t == ReaderRun(MatchReader(nothingFoundMessage), lines, start, "", debug)
  {
    ghost var whole := ReaderRun(MatchReader(nothingFoundMessage), lines, start, "", debug);
    var out: seq<string>, err: seq<string> := [], [];
    var i := start;
    var prevLine := "";
    PrependNothing(whole);
    while i < |lines|
      invariant start <= i <= |lines|
      invariant Prepend(out, err, [], ReaderRun(MatchReader(nothingFoundMessage), lines, i, prevLine, debug)) == whole
      decreases |lines| - i
    {
      var step, stop := MatchIteration(lines, i, prevLine, nothingFoundMessage, debug);
      if stop {
        return Prepend(out, err, [], step);
      }
      PrependPrepend(out, err, [], step.stdout, step.stderr, [], ReaderRun(MatchReader(nothingFoundMessage), lines, i + 1, lines[i], debug));
      out, err := out + step.stdout, err + step.stderr;
      prevLine, i := lines[i], i + 1;
    }
    PrependToEmpty(out, err, [], i, false);
    t := Transcript(out, err, [], i, false);
  }

  /** The exact-match overload of processMatchResponse. */
  method ProcessExactMatchResponse(lines: seq<string>, start: nat, debug: bool) returns (t: Transcript)
    requires start <= |lines|
    ensures t == ReaderRun(MatchReader(NoMatchingWords), lines, start, "", debug)
  {
    t := ProcessMatchResponse(lines, start, NoMatchingWords, debug);
  }

  /** processPrefixMatchResponse. */
  method ProcessPrefixMatchResponse(lines: seq<string>, start: nat, debug: bool) returns (t: Transcript)
    requires start <= |lines|
    ensures t == ReaderRun(MatchReader(NoPrefixMatches), lines, start, "", debug)
  {
    t := ProcessMatchResponse(lines, start, NoPrefixMatches, debug);
  }

  /** The 151 header, built as the client's StringBuilder loop builds it. */
  method BuildHeader(words: seq<string>) returns (header: string)
    ensures header == Header(words)
  {
    header := "@";
    var k := 2;
    while k < |words|
      invariant 2 <= k
      invariant |words| >= 2 ==> k <= |words| && header == "@" + SpaceJoined(words[2..k])
      invariant |words| < 2 ==> header == "@"
      decreases |words| - k
    {
      assert words[2..k + 1][..k - 2] == words[2..k];
      header := header + " " + words[k];
      k := k + 1;
    }
    if |words| >= 2 {
      assert words[2..k] == words[2..];
    }
  }

  /** DefineRun on a line other than 552, one step. */
  lemma DefineRunStep(lines: seq<string>, i: nat, prev: string, numDefs: int, word: string, debug: bool)
    requires i < |lines| && MinInt <= numDefs <= MaxInt
    requires FirstWord(lines[i]) != NoMatch
    ensures var f := DefineLine(lines[i], numDefs, debug);
            var n := if prev == "." then Decrement32(f.numDefs) else f.numDefs;
            DefineRun(lines, i, prev, numDefs, word, debug) ==
              (if f.crashed then Transcript(f.out, [], [], i + 1, true)
               else if f.stop || n <= 0 then Transcript(f.out, f.err, [], i + 1, false)
               else Prepend(f.out, f.err, [], DefineRun(lines, i + 1, lines[i], n, word, debug)))
  {
  }

  /** What one line other than 552 does to the define loop: a 150 line sets the
      count to the number in its second token, and ends the client when that
      token is missing or does not parse; a 550 line reports the missing database
      and stops the loop; a 151 line prints the "@" header; any other line is
      printed as the printer shows it and leaves the count alone. */
  lemma DefineLineEffects(line: string, numDefs: int, debug: bool)
    requires MinInt <= numDefs <= MaxInt
    ensures var f := DefineLine(line, numDefs, debug);
      CountedLine(line) ==> f == LineEffect(DefineShown(line, debug), [], false, false, numDefs)
    ensures var f := DefineLine(line, numDefs, debug);
      var words := Split(line);
      FirstWord(line) == DefinitionsFollow ==>
        f.out == Received(line, debug) && f.err == [] && !f.stop &&
        (f.crashed <==> |words| < 2 || ParseInt(words[1]).None?) &&
        (!f.crashed ==> f.numDefs == ParseInt(words[1]).value)
    ensures FirstWord(line) == NoSuchDatabase ==>
      DefineLine(line, numDefs, debug) == LineEffect(Received(line, debug), [DictionaryDoesNotExist], false, true, numDefs)
  {
    assert IsResponseCode(DefinitionsFollow) && IsResponseCode(NoSuchDatabase) && IsResponseCode(DefinitionHeader);
  }

  /** The body of the define loop for a line other than 552. */
  method ReadDefineLine(fromServer: string, numDefs: int, debug: bool) returns (f: LineEffect)
    requires MinInt <= numDefs <= MaxInt
    requires FirstWord(fromServer) != NoMatch
    ensures f == DefineLine(fromServer, numDefs, debug)
  {
    var words := Split(fromServer);
    FirstWordSplit(fromServer);
    var firstWord := if |words| > 0 then words[0] else "";
    var out: seq<string> := [];
    if !IsResponseCode(firstWord) {
      return LineEffect([fromServer], [], false, false, numDefs);
    }
    if debug {
      out := out + ["<-- " + fromServer];
    }
    if firstWord == DefinitionsFollow {
      if |words| < 2 {
        return LineEffect(out, [], true, false, numDefs);
      }
      var count := ParseInt(words[1]);
      if count.None? {
        return LineEffect(out, [], true, false, numDefs);
      }
      f := LineEffect(out, [], false, false, count.value);
    } else if firstWord == DefinitionHeader {
      var header := BuildHeader(words);
      f := LineEffect(out + [header], [], false, false, numDefs);
    } else if firstWord == NoSuchDatabase {
      f := LineEffect(out, [DictionaryDoesNotExist], false, true, numDefs);
    } else {
      f := LineEffect(out, [], false, false, numDefs);
    }
  }

  /** One pass of the define loop: reads line i, prints and sends what it calls
      for, and reports whether the loop ends there (stop) or goes on with the
      count numDefsAfter and prevLine set to the line just read. */
  method DefineIteration(lines: seq<string>, i: nat, prevLine: string, numDefs: int, word: string, debug: bool)
    returns (t: Transcript, stop: bool, numDefsAfter: int)
    requires i < |lines| && MinInt <= numDefs <= MaxInt
    ensures MinInt <= numDefsAfter <= MaxInt
    ensures stop ==> t == DefineRun(lines, i, prevLine, numDefs, word, debug)
    ensures !stop ==> t.next == i + 1 && !t.crashed
    ensures !stop ==>
              (DefineRun(lines, i, prevLine, numDefs, word, debug) ==
               Prepend(t.stdout, t.stderr, t.sent, DefineRun(lines, i + 1, lines[i], numDefsAfter, word, debug)))
  {
    var fromServer := lines[i];
    if FirstWord(fromServer) == NoMatch {
      var command := MatchDefaultRequest(word);
      var lineOut := Received(fromServer, debug) + [NoDefinitionFound] + Echo(command, debug);
      var m := ProcessMatchResponse(lines, i + 1, NoDictionaryHasWord, debug);
      return Transcript(lineOut + m.stdout, m.stderr, [command] + m.sent, m.next, m.crashed), true, numDefs;
    }
    var f := ReadDefineLine(fromServer, numDefs, debug);
    DefineRunStep(lines, i, prevLine, numDefs, word, debug);
    if f.crashed {
      return Transcript(f.out, [], [], i + 1, true), true, numDefs;
    }
    numDefsAfter := f.numDefs;
    if prevLine == "." {
      numDefsAfter := Decrement32(numDefsAfter);
    }
    t := Transcript(f.out, f.err, [], i + 1, false);
    stop := numDefsAfter <= 0 || f.stop;
  }

  /** One pass of the define loop on top of what the earlier passes printed and
      sent: the returned transcript holds everything so far, and is the whole
      outcome when the loop stops here. */
  method DefineLoopStep(lines: seq<string>, i: nat, prevLine: string, numDefs: int, word: string, debug: bool,
                        out: seq<string>, err: seq<string>, sent: seq<string>)
    returns (t: Transcript, stop: bool, numDefsAfter: int)
    requires i < |lines| && MinInt <= numDefs <= MaxInt
    ensures MinInt <= numDefsAfter <= MaxInt
    ensures stop ==> t == Prepend(out, err, sent, DefineRun(lines, i, prevLine, numDefs, word, debug))
    ensures !stop ==>
              (Prepend(t.stdout, t.stderr, t.sent, DefineRun(lines, i + 1, lines[i], numDefsAfter, word, debug)) ==
               Prepend(out, err, sent, DefineRun(lines, i, prevLine, numDefs, word, debug)))
  {
    var step;
    step, stop, numDefsAfter := DefineIteration(lines, i, prevLine, numDefs, word, debug);
    if stop {
      return Prepend(out, err, sent, step), true, numDefsAfter;
    }
    PrependPrepend(out, err, sent, step.stdout, step.stderr, step.sent,
                   DefineRun(lines, i + 1, lines[i], numDefsAfter, word, debug));
    t := Transcript(out + step.stdout, err + step.stderr, sent + step.sent, i + 1, false);
  }

  method ProcessDefineResponse(lines: seq<string>, start: nat, word: string, debug: bool) returns (t: Transcript)
    requires start <= |lines|
    ensures t == DefineRun(lines, start, "", 1, word, debug)
  {
    ghost var whole := DefineRun(lines, start, "", 1, word, debug);
    var out: seq<string>, err: seq<string>, sent: seq<string> := [], [], [];
    var i := start;
    var prevLine := "";
    var numDefs := 1;
    PrependNothing(whole);
    while i < |lines|
      invariant start <= i <= |lines|
      invariant MinInt <= numDefs <= MaxInt
      invariant Prepend(out, err, sent, DefineRun(lines, i, prevLine, numDefs, word, debug)) == whole
      decreases |lines| - i
    {
      var stop;
      t, stop, numDefs := DefineLoopStep(lines, i, prevLine, numDefs, word, debug, out, err, sent);
      if stop {
        return;
      }
      out, err, sent := t.stdout, t.stderr, t.sent;
      prevLine, i := lines[i], i + 1;
    }
    PrependToEmpty(out, err, sent, i, false);
    t := Transcript(out, err, sent, i, false);
  }

  // ---------------------------------------------------------------- properties

  /** The line read just before line k of a run that started at line i after prev. */
  function PrevLine(lines: seq<string>, i: nat, prev: string, k: nat): string
    requires i <= k <= |lines|
  {
    if k == i then prev else lines[k - 1]
  }

  /** The lines on which a reader stops: a line split() cannot take apart, or one
      after which its loop breaks. */
  predicate StopsAt(reader: Reader, lines: seq<string>, i: nat, prev: string, k: nat)
    requires i <= k < |lines|
  {
    Blank(lines[k]) || Ends(reader, lines[k], PrevLine(lines, i, prev, k))
  }

  /** Past the first line, a run from i and a run from i + 1 agree on where to stop. */
  lemma StopsAtShift(reader: Reader, lines: seq<string>, i: nat, prev: string, k: nat)
    requires i < k < |lines|
    ensures StopsAt(reader, lines, i + 1, lines[i], k) == StopsAt(reader, lines, i, prev, k)
  {
    assert PrevLine(lines, i + 1, lines[i], k) == PrevLine(lines, i, prev, k);
  }

  /** The first line at or after i on which the reader stops, or |lines|
      (StopLineIsFirst). */
  function StopLine(reader: Reader, lines: seq<string>, i: nat, prev: string): (e: nat)
    requires i <= |lines|
    ensures i <= e <= |lines|
    decreases |lines| - i
  {
    if i == |lines| || StopsAt(reader, lines, i, prev, i) then i
    else StopLine(reader, lines, i + 1, lines[i])
  }

  /** StopLine is the reader's first stop: it stops there, and on no line before. */
  lemma {:induction false} StopLineIsFirst(reader: Reader, lines: seq<string>, i: nat, prev: string)
    requires i <= |lines|
    ensures var e := StopLine(reader, lines, i, prev);
      (e < |lines| ==> StopsAt(reader, lines, i, prev, e)) &&
      forall k :: i <= k < e ==> !StopsAt(reader, lines, i, prev, k)
    decreases |lines| - i
  {
    if i < |lines| && !StopsAt(reader, lines, i, prev, i) {
      var e := StopLine(reader, lines, i + 1, lines[i]);
      StopLineIsFirst(reader, lines, i + 1, lines[i]);
      StopsAtShiftAt(reader, lines, i, prev, e);
      StopsAtShiftBelow(reader, lines, i, prev, e, i + 1, lines[i]);
    }
  }

  lemma StopsAtShiftAt(reader: Reader, lines: seq<string>, i: nat, prev: string, k: nat)
    requires i < k <= |lines|
    ensures k < |lines| ==> StopsAt(reader, lines, i + 1, lines[i], k) == StopsAt(reader, lines, i, prev, k)
  {
    if k < |lines| {
      StopsAtShift(reader, lines, i, prev, k);
    }
  }

  lemma StopsAtShiftBelow(reader: Reader, lines: seq<string>, i: nat, prev: string, e: nat, j: nat, last: string)
    requires i < e <= |lines| && j == i + 1 && last == lines[i]
    requires forall k :: j <= k < e ==> !StopsAt(reader, lines, j, last, k)
    requires !StopsAt(reader, lines, i, prev, i)
    ensures forall k :: i <= k < e ==> !StopsAt(reader, lines, i, prev, k)
  {
    forall k | i < k < e
      ensures !StopsAt(reader, lines, i, prev, k)
    {
      StopsAtShift(reader, lines, i, prev, k);
    }
  }

  /** How a run ended: the first unread line, whether it crashed, and what it
      wrote to standard error. */
  function Ending(t: Transcript): (nat, bool, seq<string>) {
    (t.next, t.crashed, t.stderr)
  }

  /** How a run whose first stop is line e (or e == |lines|) ends: just after
      that line, or at the end of the reply; crashed exactly when the line is
      blank; and with the reader's standard error output for the line. */
  function EndingAt(reader: Reader, lines: seq<string>, e: nat): (nat, bool, seq<string>)
    requires e <= |lines|
  {
    if e == |lines| then (e, false, [])
    else if Blank(lines[e]) then (e + 1, true, [])
    else (e + 1, false, LineErr(reader, lines[e]))
  }

  /** A run from line i after prev ends on the first line the reader stops on. */
  predicate EndsAtStop(reader: Reader, lines: seq<string>, i: nat, prev: string, t: Transcript)
    requires i <= |lines|
  {
    Ending(t) == EndingAt(reader, lines, StopLine(reader, lines, i, prev))
  }

  lemma EndsAtStopHere(reader: Reader, lines: seq<string>, i: nat, prev: string, t: Transcript)
    requires i < |lines| && StopsAt(reader, lines, i, prev, i)
    requires t.next == i + 1 && (t.crashed <==> Blank(lines[i]))
    requires t.stderr == (if Blank(lines[i]) then [] else LineErr(reader, lines[i]))
    ensures EndsAtStop(reader, lines, i, prev, t)
  {
    assert StopLine(reader, lines, i, prev) == i;
  }

  lemma EndsAtStopCons(reader: Reader, lines: seq<string>, i: nat, prev: string, out: seq<string>, r: Transcript)
    requires i < |lines| && !StopsAt(reader, lines, i, prev, i)
    requires EndsAtStop(reader, lines, i + 1, lines[i], r)
    ensures EndsAtStop(reader, lines, i, prev, Prepend(out, LineErr(reader, lines[i]), [], r))
  {
    assert StopLine(reader, lines, i, prev) == StopLine(reader, lines, i + 1, lines[i]);
    assert LineErr(reader, lines[i]) == [];
    assert [] + r.stderr == r.stderr;
    assert Ending(Prepend(out, [], [], r)) == Ending(r);
  }

  /** Every line of ls through the reader's printer, in order. */
  function OutAll(reader: Reader, ls: seq<string>, debug: bool): seq<string>
    decreases |ls|
  {
    if ls == [] then [] else LineOut(reader, ls[0], debug) + OutAll(reader, ls[1..], debug)
  }

  lemma OutAllCons(reader: Reader, line: string, rest: seq<string>, debug: bool)
    ensures OutAll(reader, [line] + rest, debug) == LineOut(reader, line, debug) + OutAll(reader, rest, debug)
  {
    assert ([line] + rest)[1..] == rest;
  }

  lemma SliceFront(lines: seq<string>, i: nat, m: nat)
    requires i < m <= |lines|
    ensures lines[i..m] == [lines[i]] + lines[i + 1..m]
  {
  }

  /** The end of the lines a run from i printed: every line it consumed, less a
      final blank line it crashed on. */
  function PrintedEnd(i: nat, t: Transcript): (m: nat)
    requires i <= t.next
    ensures i <= m <= t.next
  {
    if t.crashed && i < t.next then t.next - 1 else t.next
  }

  /** The printed output of a run is the reader's printer applied to the lines it
      printed, in order. */
  predicate PrintsConsumed(reader: Reader, lines: seq<string>, i: nat, t: Transcript, debug: bool)
    requires i <= t.next <= |lines|
  {
    t.stdout == OutAll(reader, lines[i..PrintedEnd(i, t)], debug)
  }

  lemma PrintsNothing(reader: Reader, lines: seq<string>, i: nat, next: nat, crashed: bool, debug: bool)
    requires next == (if crashed then i + 1 else i) <= |lines|
    ensures PrintsConsumed(reader, lines, i, Transcript([], [], [], next, crashed), debug)
  {
    assert lines[i..i] == [];
  }

  lemma PrintsLast(reader: Reader, lines: seq<string>, i: nat, out: seq<string>, err: seq<string>, debug: bool)
    requires i < |lines| && out == LineOut(reader, lines[i], debug)
    ensures PrintsConsumed(reader, lines, i, Transcript(out, err, [], i + 1, false), debug)
  {
    OutAllCons(reader, lines[i], [], debug);
    assert [lines[i]] + [] == lines[i..i + 1];
  }

  lemma PrintsConsumedCons(reader: Reader, lines: seq<string>, i: nat, err: seq<string>, r: Transcript, debug: bool)
    requires i < r.next <= |lines| && (r.crashed ==> i + 1 < r.next)
    requires PrintsConsumed(reader, lines, i + 1, r, debug)
    ensures PrintsConsumed(reader, lines, i, Prepend(LineOut(reader, lines[i], debug), err, [], r), debug)
  {
    var m := PrintedEnd(i + 1, r);
    assert PrintedEnd(i, Prepend(LineOut(reader, lines[i], debug), err, [], r)) == m;
    SliceFront(lines, i, m);
    OutAllCons(reader, lines[i], lines[i + 1..m], debug);
  }

  /** processDictResponse and processMatchResponse read up to the first line
      they stop on, or to the end of the reply; they crash exactly when that line
      is blank, and the match reader reports 930 exactly when it is a 550 line. */
  lemma {:induction false} ReaderRunStops(reader: Reader, lines: seq<string>, i: nat, prev: string, debug: bool)
    requires i <= |lines|
    ensures EndsAtStop(reader, lines, i, prev, ReaderRun(reader, lines, i, prev, debug))
    decreases |lines| - i
  {
    if i < |lines| {
      ReaderRunStops(reader, lines, i + 1, lines[i], debug);
    }
    ReaderRunStopsStep(reader, lines, i, prev, debug);
  }

  lemma ReaderRunStopsStep(reader: Reader, lines: seq<string>, i: nat, prev: string, debug: bool)
    requires i <= |lines|
    requires i < |lines| ==>
      EndsAtStop(reader, lines, i + 1, lines[i], ReaderRun(reader, lines, i + 1, lines[i], debug))
    ensures EndsAtStop(reader, lines, i, prev, ReaderRun(reader, lines, i, prev, debug))
  {
    if i == |lines| {
      assert StopLine(reader, lines, i, prev) == i;
    } else if StopsAt(reader, lines, i, prev, i) {
      EndsAtStopHere(reader, lines, i, prev, ReaderRun(reader, lines, i, prev, debug));
    } else {
      EndsAtStopCons(reader, lines, i, prev, LineOut(reader, lines[i], debug), ReaderRun(reader, lines, i + 1, lines[i], debug));
    }
  }

  /** What the two readers print: every line they read, other than a blank one
      that ended the run, through the reader's printer. */
  lemma {:induction false} ReaderRunOutput(reader: Reader, lines: seq<string>, i: nat, prev: string, debug: bool)
    requires i <= |lines|
    ensures PrintsConsumed(reader, lines, i, ReaderRun(reader, lines, i, prev, debug), debug)
    decreases |lines| - i
  {
    if i < |lines| {
      ReaderRunOutput(reader, lines, i + 1, lines[i], debug);
    }
    ReaderRunOutputStep(reader, lines, i, prev, debug);
  }

  lemma ReaderRunOutputStep(reader: Reader, lines: seq<string>, i: nat, prev: string, debug: bool)
    requires i <= |lines|
    requires i < |lines| ==>
      PrintsConsumed(reader, lines, i + 1, ReaderRun(reader, lines, i + 1, lines[i], debug), debug)
    ensures PrintsConsumed(reader, lines, i, ReaderRun(reader, lines, i, prev, debug), debug)
  {
    if i == |lines| {
      PrintsNothing(reader, lines, i, i, false, debug);
    } else if Blank(lines[i]) {
      PrintsNothing(reader, lines, i, i + 1, true, debug);
    } else if StopsAt(reader, lines, i, prev, i) {
      PrintsLast(reader, lines, i, LineOut(reader, lines[i], debug), LineErr(reader, lines[i]), debug);
    } else {
      PrintsConsumedCons(reader, lines, i, LineErr(reader, lines[i]), ReaderRun(reader, lines, i + 1, lines[i], debug), debug);
    }
  }

  // ---------------------------------------------------------------- define properties

  /** s is empty or holds x once. */
  predicate AtMostOnce(s: seq<string>, x: string) {
    s == [] || s == [x]
  }

  /** The match reader reports a missing database at most once. */
  lemma ReaderRunReportsOnce(reader: Reader, lines: seq<string>, i: nat, prev: string, debug: bool)
    requires i <= |lines|
    ensures AtMostOnce(ReaderRun(reader, lines, i, prev, debug).stderr, DictionaryDoesNotExist)
  {
    ReaderRunStops(reader, lines, i, prev, debug);
  }

  /** processDefineResponse sends at most one request, the fallback MATCH, and
      writes at most one diagnostic, 930, whatever the reply. */
  lemma {:induction false} DefineRunReports(lines: seq<string>, i: nat, prev: string, numDefs: int, word: string, debug: bool)
    requires i <= |lines| && MinInt <= numDefs <= MaxInt
    ensures var t := DefineRun(lines, i, prev, numDefs, word, debug);
      AtMostOnce(t.sent, MatchDefaultRequest(word)) && AtMostOnce(t.stderr, DictionaryDoesNotExist)
    decreases |lines| - i
  {
    if i < |lines| && FirstWord(lines[i]) != NoMatch {
      var f := DefineLine(lines[i], numDefs, debug);
      var n := if prev == "." then Decrement32(f.numDefs) else f.numDefs;
      if !f.crashed && !f.stop && n > 0 {
        DefineRunReports(lines, i + 1, lines[i], n, word, debug);
      }
    } else if i < |lines| {
      ReaderRunReportsOnce(MatchReader(NoDictionaryHasWord), lines, i + 1, "", debug);
    }
    DefineRunReportsStep(lines, i, prev, numDefs, word, debug);
  }

  lemma DefineRunReportsStep(lines: seq<string>, i: nat, prev: string, numDefs: int, word: string, debug: bool)
    requires i <= |lines| && MinInt <= numDefs <= MaxInt
    requires i < |lines| && FirstWord(lines[i]) == NoMatch ==>
      AtMostOnce(ReaderRun(MatchReader(NoDictionaryHasWord), lines, i + 1, "", debug).stderr, DictionaryDoesNotExist)
    requires i < |lines| && FirstWord(lines[i]) != NoMatch ==>
      var f := DefineLine(lines[i], numDefs, debug);
      var n := if prev == "." then Decrement32(f.numDefs) else f.numDefs;
      !f.crashed && !f.stop && n > 0 ==>
      var r := DefineRun(lines, i + 1, lines[i], n, word, debug);
      AtMostOnce(r.sent, MatchDefaultRequest(word)) && AtMostOnce(r.stderr, DictionaryDoesNotExist)
    ensures var t := DefineRun(lines, i, prev, numDefs, word, debug);
      AtMostOnce(t.sent, MatchDefaultRequest(word)) && AtMostOnce(t.stderr, DictionaryDoesNotExist)
  {
    if i < |lines| && FirstWord(lines[i]) != NoMatch {
      var f := DefineLine(lines[i], numDefs, debug);
      var n := if prev == "." then Decrement32(f.numDefs) else f.numDefs;
      if !f.crashed && !f.stop && n > 0 {
        var r := DefineRun(lines, i + 1, lines[i], n, word, debug);
        assert f.err == [];
        assert [] + r.sent == r.sent && [] + r.stderr == r.stderr;
      }
    } else if i < |lines| {
      var r := ReaderRun(MatchReader(NoDictionaryHasWord), lines, i + 1, "", debug);
      assert [] + r.stderr == r.stderr && [MatchDefaultRequest(word)] + r.sent == [MatchDefaultRequest(word)];
    }
  }

  /** How many lines of ls come right after a "." line, prev being the line read
      before ls[0]: the number of times the define loop decrements its count. */
  function DotsAfter(prev: string, ls: seq<string>): nat
    decreases |ls|
  {
    if ls == [] then 0 else (if prev == "." then 1 else 0) + DotsAfter(ls[0], ls[1..])
  }

  lemma DotsAfterCons(prev: string, lines: seq<string>, i: nat, m: nat)
    requires i < m <= |lines|
    ensures DotsAfter(prev, lines[i..m]) == (if prev == "." then 1 else 0) + DotsAfter(lines[i], lines[i + 1..m])
  {
    assert lines[i..m][1..] == lines[i + 1..m];
  }

  /** A line on which the define loop neither sets its count (150), nor stops
      (550), nor falls back to MATCH (552): definition text, "." and any other
      status line, 151 and 250 among them. */
  predicate CountedLine(line: string) {
    var code := FirstWord(line);
    code != DefinitionsFollow && code != NoSuchDatabase && code != NoMatch
  }

  /** What the define loop prints for such a line: a 151 line its trace and the
      "@" header; any other line what the printer shows of it. */
  function DefineShown(line: string, debug: bool): seq<string> {
    if FirstWord(line) == DefinitionHeader then Received(line, debug) + [Header(Split(line))]
    else Shown(line, debug)
  }

  function DefineShownAll(ls: seq<string>, debug: bool): seq<string>
    decreases |ls|
  {
    if ls == [] then [] else DefineShown(ls[0], debug) + DefineShownAll(ls[1..], debug)
  }

  /** Where a define run with count n stops when it meets only counted lines:
      right after the line with which the number of lines read after a "."
      reaches n, or at the end of the reply if it never does. */
  predicate StopsOnCount(lines: seq<string>, i: nat, prev: string, n: int, next: nat)
    requires i <= next <= |lines|
  {
    (DotsAfter(prev, lines[i..next]) == n || (next == |lines| && DotsAfter(prev, lines[i..next]) < n)) &&
    (i < next ==> DotsAfter(prev, lines[i..next - 1]) < n)
  }

  /** processDefineResponse while the count holds: if every line it reads before
      the number of lines read right after a "." reaches n is a counted line, it
      prints each of them as DefineShown says (text lines verbatim, "." included,
      for there is no dot-unstuffing), sends and reports nothing, and stops
      exactly where StopsOnCount says. */
  lemma {:induction false} DefineRunCounted(lines: seq<string>, i: nat, prev: string, n: int, word: string, debug: bool)
    requires i <= |lines| && 1 <= n <= MaxInt
    requires forall k :: i <= k < |lines| && DotsAfter(prev, lines[i..k]) < n ==> CountedLine(lines[k])
    ensures var t := DefineRun(lines, i, prev, n, word, debug);
      t == Transcript(DefineShownAll(lines[i..t.next], debug), [], [], t.next, false) &&
      StopsOnCount(lines, i, prev, n, t.next)
    decreases |lines| - i
  {
    if i < |lines| {
      assert lines[i..i] == [];
      var n' := if prev == "." then n - 1 else n;
      if n' > 0 {
        forall k | i + 1 <= k < |lines| && DotsAfter(lines[i], lines[i + 1..k]) < n'
          ensures CountedLine(lines[k])
        {
          DotsAfterCons(prev, lines, i, k);
        }
        DefineRunCounted(lines, i + 1, lines[i], n', word, debug);
      }
    }
    DefineRunCountedStep(lines, i, prev, n, word, debug);
  }

  lemma DefineRunCountedStep(lines: seq<string>, i: nat, prev: string, n: int, word: string, debug: bool)
    requires i <= |lines| && 1 <= n <= MaxInt
    requires i < |lines| ==> CountedLine(lines[i])
    requires i < |lines| ==>
      var n' := if prev == "." then n - 1 else n;
      n' > 0 ==>
      var r := DefineRun(lines, i + 1, lines[i], n', word, debug);
      r == Transcript(DefineShownAll(lines[i + 1..r.next], debug), [], [], r.next, false) &&
      StopsOnCount(lines, i + 1, lines[i], n', r.next)
    ensures var t := DefineRun(lines, i, prev, n, word, debug);
      t == Transcript(DefineShownAll(lines[i..t.next], debug), [], [], t.next, false) &&
      StopsOnCount(lines, i, prev, n, t.next)
  {
    if i == |lines| {
      assert lines[i..i] == [];
    } else {
      var n' := if prev == "." then n - 1 else n;
      DefineCountedLine(lines, i, prev, n, word, debug);
      if n' <= 0 {
        assert lines[i..i + 1] == [lines[i]];
        CountReachedHere(lines, i, prev, n);
      } else {
        var r := DefineRun(lines, i + 1, lines[i], n', word, debug);
        ShownCons(lines, i, r, debug);
        CountReachedLater(lines, i, prev, n, n', r.next);
      }
    }
  }

  /** One counted line of a define reply: printed as DefineShown says, then the
      count drops when the line before was ".". */
  lemma DefineCountedLine(lines: seq<string>, i: nat, prev: string, n: int, word: string, debug: bool)
    requires i < |lines| && CountedLine(lines[i]) && 1 <= n <= MaxInt
    ensures var n' := if prev == "." then n - 1 else n;
      DefineRun(lines, i, prev, n, word, debug) ==
        if n' <= 0 then Transcript(DefineShown(lines[i], debug), [], [], i + 1, false)
        else Prepend(DefineShown(lines[i], debug), [], [], DefineRun(lines, i + 1, lines[i], n', word, debug))
  {
    DefineLineEffects(lines[i], n, debug);
    if prev == "." {
      assert Decrement32(n) == n - 1;
    }
  }

  lemma ShownCons(lines: seq<string>, i: nat, r: Transcript, debug: bool)
    requires i < r.next <= |lines| && r == Transcript(DefineShownAll(lines[i + 1..r.next], debug), [], [], r.next, false)
    ensures Prepend(DefineShown(lines[i], debug), [], [], r) == Transcript(DefineShownAll(lines[i..r.next], debug), [], [], r.next, false)
  {
    SliceFront(lines, i, r.next);
    assert lines[i..r.next][1..] == lines[i + 1..r.next];
  }

  lemma CountReachedHere(lines: seq<string>, i: nat, prev: string, n: int)
    requires i < |lines| && (if prev == "." then n - 1 else n) <= 0 && 1 <= n
    ensures StopsOnCount(lines, i, prev, n, i + 1)
  {
    DotsAfterCons(prev, lines, i, i + 1);
    assert lines[i + 1..i + 1] == [] && lines[i..i] == [];
  }

  lemma CountReachedLater(lines: seq<string>, i: nat, prev: string, n: int, n': int, next: nat)
    requires i < next <= |lines| && n' == (if prev == "." then n - 1 else n) && 0 < n'
    requires StopsOnCount(lines, i + 1, lines[i], n', next)
    ensures StopsOnCount(lines, i, prev, n, next)
  {
    DotsAfterCons(prev, lines, i, next);
    if i + 1 < next {
      DotsAfterCons(prev, lines, i, next - 1);
    } else {
      assert lines[i..i] == [];
    }
  }

  /** Definition text, no line of which is a status line, is printed verbatim. */
  lemma {:induction false} TextShownVerbatim(ls: seq<string>, debug: bool)
    requires forall k :: 0 <= k < |ls| ==> !IsStatusLine(ls[k])
    ensures DefineShownAll(ls, debug) == ls
    decreases |ls|
  {
    if ls != [] {
      assert IsResponseCode(DefinitionHeader);
      TextShownVerbatim(ls[1..], debug);
      assert ls == [ls[0]] + ls[1..];
    }
  }

  /** The "@" header of a 151 line holds "@" and then exactly the line's tokens
      from the third on: split() of the printed header gives them back. */
  lemma HeaderSplits(line: string)
    ensures var words := Split(line);
      Split(Header(words)) == ["@"] + (if |words| > 2 then words[2..] else [])
  {
    var words := Split(line);
    var rest := if |words| > 2 then words[2..] else [];
    SplitTokens(line);
    var ts := ["@"] + rest;
    assert ts[0] == "@" && ts[1..] == rest;
    assert forall k :: 0 <= k < |ts| ==> IsWord(ts[k]) by {
      forall k | 0 <= k < |ts|
        ensures IsWord(ts[k])
      {
        if k > 0 {
          assert ts[k] == words[k + 1];
        }
      }
    }
    assert Header(words) == JoinSpace(ts);
    SplitJoinSpace(ts);
  }

  /** On 552 processDefineResponse sends the fallback MATCH and then reads exactly
      what the match reader reads from the next line on, and no more. */
  lemma DefineRunFallback(lines: seq<string>, i: nat, prev: string, numDefs: int, word: string, debug: bool)
    requires i < |lines| && MinInt <= numDefs <= MaxInt && FirstWord(lines[i]) == NoMatch
    ensures var t := DefineRun(lines, i, prev, numDefs, word, debug);
      var e := StopLine(MatchReader(NoDictionaryHasWord), lines, i + 1, "");
      t.sent == [MatchDefaultRequest(word)] &&
      t.stdout == Received(lines[i], debug) + [NoDefinitionFound] + Echo(MatchDefaultRequest(word), debug) +
        ReaderRun(MatchReader(NoDictionaryHasWord), lines, i + 1, "", debug).stdout &&
      Ending(t) == EndingAt(MatchReader(NoDictionaryHasWord), lines, e)
  {
    var r := ReaderRun(MatchReader(NoDictionaryHasWord), lines, i + 1, "", debug);
    ReaderRunStops(MatchReader(NoDictionaryHasWord), lines, i + 1, "", debug);
    assert [] + r.stderr == r.stderr && [MatchDefaultRequest(word)] + r.sent == [MatchDefaultRequest(word)];
  }

  /** On 550 processDefineResponse reports the missing database and stops right
      after that line, whatever the count. */
  lemma DefineRunStopsOnMissingDatabase(lines: seq<string>, i: nat, prev: string, numDefs: int, word: string, debug: bool)
    requires i < |lines| && MinInt <= numDefs <= MaxInt && FirstWord(lines[i]) == NoSuchDatabase
    ensures DefineRun(lines, i, prev, numDefs, word, debug) ==
      Transcript(Received(lines[i], debug), [DictionaryDoesNotExist], [], i + 1, false)
  {
    assert IsResponseCode(NoSuchDatabase);
  }

  /** A "150 n ..." line written with the count n sets the define count to n:
      the client's Integer.parseInt reads back the number the server wrote. */
  lemma CountLineSetsCount(n: int, rest: seq<string>, numDefs: int, debug: bool)
    requires MinInt <= n <= MaxInt && MinInt <= numDefs <= MaxInt
    requires forall k :: 0 <= k < |rest| ==> IsWord(rest[k])
    ensures FirstWord(JoinSpace([DefinitionsFollow, IntToString(n)] + rest)) == DefinitionsFollow
    ensures var f := DefineLine(JoinSpace([DefinitionsFollow, IntToString(n)] + rest), numDefs, debug);
      !f.crashed && !f.stop && f.numDefs == n
  {
    var ts := [DefinitionsFollow, IntToString(n)] + rest;
    var line := JoinSpace(ts);
    IntToStringIsWord(n);
    assert forall k :: 0 <= k < |ts| ==> IsWord(ts[k]) by {
      forall k | 0 <= k < |ts|
        ensures IsWord(ts[k])
      {
        if k >= 2 {
          assert ts[k] == rest[k - 2];
        }
      }
    }
    SplitJoinSpace(ts);
    FirstWordSplit(line);
    assert FirstWord(line) == DefinitionsFollow;
    assert IsResponseCode(DefinitionsFollow);
    ParseIntToString(n);
    assert Split(line)[1] == IntToString(n);
  }

  /** A define reply that opens with a 150 line whose count n parses: the line
      is traced in debug mode and the count becomes n, the first definition
      still to come. */
  lemma DefineRunAfterCount(lines: seq<string>, i: nat, n: int, word: string, debug: bool)
    requires i < |lines| && 1 <= n <= MaxInt
    requires FirstWord(lines[i]) == DefinitionsFollow
    requires |Split(lines[i])| >= 2 && ParseInt(Split(lines[i])[1]) == Some(n)
    ensures DefineRun(lines, i, "", 1, word, debug) ==
      Prepend(Received(lines[i], debug), [], [], DefineRun(lines, i + 1, lines[i], n, word, debug))
  {
    DefineLineEffects(lines[i], 1, debug);
  }

  /** The first token of a line that starts with a word followed by a space. */
  lemma FirstWordOf(w: string, rest: string)
    requires NoSpace(w)
    ensures FirstWord(w) == w && FirstWord(w + " " + rest) == w
  {
    assert SpaceFrom(w, 0) == |w|;
    var line := w + " " + rest;
    assert line[..|w|] == w && IsSpace(line[|w|]);
    assert forall j :: 0 <= j < |w| ==> !IsSpace(line[j]);
    SpaceFromIs(line, 0, |w|);
  }

  lemma SpaceFromIs(s: string, i: nat, k: nat)
    requires i <= k < |s| && IsSpace(s[k]) && forall j :: i <= j < k ==> !IsSpace(s[j])
    ensures SpaceFrom(s, i) == k
    decreases k - i
  {
    if i < k {
      SpaceFromIs(s, i + 1, k);
    }
  }

  /** A whole define reply with one definition: "150 1 ...", the 151 header of
      database wn, one line of text, the "." that ends it and "250 ok". Outside
      debug mode the client prints the "@" header, the text and the "." line,
      and stops right after "250 ok", the line on which the count drops to 0. */
  lemma DefineReplyExample()
    ensures var lines := ["150 1 definitions retrieved", "151 \"hello\" wn \"WordNet\"", "Hello", ".", "250 ok"];
      DefineRun(lines, 0, "", 1, "hello", false) ==
        Transcript(["@ wn \"WordNet\"", "Hello", "."], [], [], 5, false)
  {
    var lines := ["150 1 definitions retrieved", "151 \"hello\" wn \"WordNet\"", "Hello", ".", "250 ok"];
    assert lines[0] != ".";
    ExampleCountLine(lines);
    ExampleAfterCount(lines);
    PrependNothing(DefineRun(lines, 1, lines[0], 1, "hello", false));
  }

  lemma ExampleCountLine(lines: seq<string>)
    requires |lines| == 5 && lines[0] == "150 1 definitions retrieved"
    ensures DefineRun(lines, 0, "", 1, "hello", false) == Prepend([], [], [], DefineRun(lines, 1, lines[0], 1, "hello", false))
  {
    ExampleCountTokens(lines[0]);
    DefineRunAfterCount(lines, 0, 1, "hello", false);
  }

  lemma ExampleCountTokens(line: string)
    requires line == "150 1 definitions retrieved"
    ensures FirstWord(line) == DefinitionsFollow
    ensures |Split(line)| >= 2 && ParseInt(Split(line)[1]) == Some(1)
  {
    ExampleCountWords(line);
    ExampleCountParses(line);
  }

  lemma ExampleCountWords(line: string)
    requires line == "150 1 definitions retrieved"
    ensures Split(line) == ["150", "1", "definitions", "retrieved"] && FirstWord(line) == "150"
  {
    ExampleCountConcat(line);
    SplitFour("150", "1", "definitions", "retrieved", line);
  }

  lemma ExampleCountConcat(line: string)
    requires line == "150 1 definitions retrieved"
    ensures line == "150" + " " + "1" + " " + "definitions" + " " + "retrieved"
  {
  }

  lemma ExampleCountParses(line: string)
    requires Split(line) == ["150", "1", "definitions", "retrieved"]
    ensures ParseInt(Split(line)[1]) == Some(1)
  {
    ParseOne();
  }

  lemma ParseOne()
    ensures ParseInt("1") == Some(1)
  {
    assert AllDigits("1") && DigitsValue("1") == 1;
  }

  /** A line of four words separated by single spaces splits into them. */
  lemma SplitFour(a: string, b: string, c: string, d: string, line: string)
    requires IsWord(a) && IsWord(b) && IsWord(c) && IsWord(d)
    requires line == a + " " + b + " " + c + " " + d
    ensures Split(line) == [a, b, c, d] && FirstWord(line) == a
  {
    var ts := [a, b, c, d];
    JoinSpaceFour(a, b, c, d);
    assert forall k :: 0 <= k < |ts| ==> IsWord(ts[k]);
    SplitJoinSpace(ts);
    FirstWordSplit(line);
  }

  lemma ExampleAfterCount(lines: seq<string>)
    requires |lines| == 5 && lines[0] != "." && lines[1] == "151 \"hello\" wn \"WordNet\"" &&
             lines[2] == "Hello" && lines[3] == "." && lines[4] == "250 ok"
    ensures DefineRun(lines, 1, lines[0], 1, "hello", false) == Transcript(["@ wn \"WordNet\"", "Hello", "."], [], [], 5, false)
  {
    ExampleCounted(lines);
    DefineRunCounted(lines, 1, lines[0], 1, "hello", false);
    var t := DefineRun(lines, 1, lines[0], 1, "hello", false);
    ExampleStops(lines, t.next);
    ExampleShown(lines);
  }

  lemma ExampleCounted(lines: seq<string>)
    requires |lines| == 5 && lines[0] != "." && lines[1] == "151 \"hello\" wn \"WordNet\"" &&
             lines[2] == "Hello" && lines[3] == "." && lines[4] == "250 ok"
    ensures forall k :: 1 <= k < |lines| ==> CountedLine(lines[k])
  {
    ExampleHeader(lines[1]);
    FirstWordOf(lines[2], "");
    FirstWordOf(lines[3], "");
    ExampleEnd(lines[4]);
  }

  lemma ExampleEnd(line: string)
    requires line == "250 ok"
    ensures FirstWord(line) == "250" && IsStatusLine(line)
  {
    FirstWordOf("250", "ok");
    assert "250" + " " + "ok" == line;
  }

  lemma ExampleStops(lines: seq<string>, next: nat)
    requires |lines| == 5 && lines[0] != "." && lines[1] == "151 \"hello\" wn \"WordNet\"" &&
             lines[2] == "Hello" && lines[3] == "." && lines[4] == "250 ok"
    requires 1 <= next <= |lines| && StopsOnCount(lines, 1, lines[0], 1, next)
    ensures next == 5
  {
    assert lines[0] != "." && lines[1] != "." && lines[2] != "." && lines[3] == ".";
    DotsAfterCons(lines[3], lines, 4, 5);
    DotsAfterCons(lines[2], lines, 3, 4);
    DotsAfterCons(lines[2], lines, 3, 5);
    DotsAfterCons(lines[1], lines, 2, 3);
    DotsAfterCons(lines[1], lines, 2, 4);
    DotsAfterCons(lines[1], lines, 2, 5);
    DotsAfterCons(lines[0], lines, 1, 2);
    DotsAfterCons(lines[0], lines, 1, 3);
    DotsAfterCons(lines[0], lines, 1, 4);
    DotsAfterCons(lines[0], lines, 1, 5);
    assert lines[1..1] == [] && lines[2..2] == [] && lines[3..3] == [] && lines[4..4] == [] && lines[5..5] == [];
  }

  lemma ExampleShown(lines: seq<string>)
    requires |lines| == 5 && lines[0] != "." && lines[1] == "151 \"hello\" wn \"WordNet\"" &&
             lines[2] == "Hello" && lines[3] == "." && lines[4] == "250 ok"
    ensures DefineShownAll(lines[1..5], false) == ["@ wn \"WordNet\"", "Hello", "."]
  {
    ExampleHeader(lines[1]);
    ExampleEnd(lines[4]);
    FirstWordOf(lines[2], "");
    FirstWordOf(lines[3], "");
    assert !IsStatusLine(lines[2]) && !IsStatusLine(lines[3]);
    assert DefineShown(lines[4], false) == [];
    var ls := lines[1..5];
    assert ls[1..] == lines[2..5] && lines[2..5][1..] == lines[3..5] && lines[3..5][1..] == lines[4..5];
    assert DefineShownAll(lines[4..5], false) == [];
    assert DefineShownAll(lines[3..5], false) == ["."];
    assert DefineShownAll(lines[2..5], false) == ["Hello", "."];
  }

  lemma ExampleHeader(line: string)
    requires line == "151 \"hello\" wn \"WordNet\""
    ensures FirstWord(line) == DefinitionHeader && DefineShown(line, false) == ["@ wn \"WordNet\""]
  {
    var ts := ["151", "\"hello\"", "wn", "\"WordNet\""];
    assert ts[0] + " " + ts[1] + " " + ts[2] + " " + ts[3] == line;
    assert IsWord(ts[1]) && IsWord(ts[3]);
    SplitFour(ts[0], ts[1], ts[2], ts[3], line);
    ExampleHeaderText(ts);
  }

  lemma ExampleHeaderText(ts: seq<string>)
    requires ts == ["151", "\"hello\"", "wn", "\"WordNet\""]
    ensures Header(ts) == "@ wn \"WordNet\""
  {
    var ws := ts[2..];
    assert ws == ["wn", "\"WordNet\""];
    assert ws[..1] == ["wn"] && ["wn"][..0] == [];
    assert SpaceJoined(ws) == " wn" + " " + "\"WordNet\"";
    assert "@" + (" wn" + " " + "\"WordNet\"") == "@ wn \"WordNet\"";
  }

  lemma IntToStringIsWord(n: int)
    ensures IsWord(IntToString(n))
  {
    var s := IntToString(n);
    var digits := NatToString(if n < 0 then -n else n);
    assert forall j :: 0 <= j < |digits| ==> !IsSpace(digits[j]) by {
      forall j | 0 <= j < |digits|
        ensures !IsSpace(digits[j])
      {
        assert IsDigit(digits[j]);
      }
    }
    if n < 0 {
      assert s == "-" + digits;
      assert forall j :: 0 <= j < |s| ==> !IsSpace(s[j]) by {
        forall j | 0 <= j < |s|
          ensures !IsSpace(s[j])
        {
          if j > 0 {
            assert s[j] == digits[j - 1];
          }
        }
      }
    }
  }
}
