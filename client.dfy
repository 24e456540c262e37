/** The client as the program runs it: its static fields become the fields of one
    object, and each of its routines a method updating them. Every method is
    proved to perform exactly the transition module Session gives it, so the
    properties proved there hold of the program's loop. */
module Client {
  import opened JavaText
  import opened DictProtocol
  import opened Responses
  import Session

  class CSdict {
    var status: Status
    var currDict: string
    var validAndExpectedCommand: bool
    var debugOn: bool
    /** The reply stream of the current connection and the reader's position. */
    var replies: seq<string>
    var next: nat
    /** Everything written so far: to the server, to standard output and error. */
    var sent: seq<string>
    var stdout: seq<string>
    var stderr: seq<string>
    var halt: Session.Halt

    /** The fields as a value. */
    function State(): Session.State
      reads this
    {
      Session.State(status, currDict, validAndExpectedCommand, debugOn, replies, next, sent, stdout, stderr, halt)
    }

    constructor (debug: bool)
      ensures State() == Session.Initial(debug)
    {
      status := Disconnected;
      currDict := "*";
      validAndExpectedCommand := true;
      debugOn := debug;
      replies := [];
      next := 0;
      sent := [];
      stdout := [];
      stderr := [];
      halt := Session.Running;
    }

    /** A handler's 901, or the gate's 900 or 903 once processCmd clears the flag. */
    method Refuse(message: string)
      modifies this
      ensures State() == Session.Refuse(old(State()), message)
    {
      stderr := stderr + [message];
      validAndExpectedCommand := false;
    }

    /** A request written to the server, echoed first in debug mode. */
    method Send(request: string)
      modifies this
      ensures State() == Session.Request(old(State()), request)
    {
      if debugOn {
        stdout := stdout + ["--> " + request];
      }
      sent := sent + [request];
    }

    method EstablishConnection(params: seq<string>, server: Session.Server)
      modifies this
      ensures State() == Session.EstablishConnection(old(State()), params, server)
    {
      if |params| == 0 || |params| > 2 {
        Refuse(WrongArgCount);
        return;
      }
      var host := params[0];
      var port := if |params| == 1 then Some(DefaultPort) else ParseInt(params[1]);
      if port.None? {
        Refuse(InvalidArgument);
        return;
      }
      if debugOn {
        stdout := stdout + ["--> " + ("OPEN " + host + " " + IntToString(port.value))];
      }
      if !(0 <= port.value <= 65535) {
        Refuse(InvalidArgument);
      } else if !server.reachable {
        Refuse(ConnectFailed(host, port.value));
      } else {
        replies := server.replies;
        next := 0;
        status := Connected;
      }
    }

    method CloseConnections(params: seq<string>)
      requires next <= |replies|
      modifies this
      ensures State() == Session.CloseConnections(old(State()), params)
    {
      if |params| != 0 {
        Refuse(WrongArgCount);
        return;
      }
      sent := sent + [QuitRequest];
      if debugOn {
        var shown := if next < |replies| then replies[next] else "null";
        stdout := stdout + ["--> " + QuitRequest, "<-- " + shown];
        if next < |replies| {
          next := next + 1;
        }
      }
      status := Disconnected;
    }

    method Exit(params: seq<string>)
      requires next <= |replies|
      modifies this
      ensures State() == Session.Exit(old(State()), params)
    {
      if |params| != 0 {
        Refuse(WrongArgCount);
        return;
      }
      if status == Connected {
        CloseConnections(params);
      }
      halt := Session.Exited;
    }

    method GetSupportedDicts(params: seq<string>)
      modifies this
      ensures State() == Session.GetSupportedDicts(old(State()), params)
    {
      if |params| != 0 {
        Refuse(WrongArgCount);
        return;
      }
      Send(ShowDbRequest);
    }

    method SetCurrDict(params: seq<string>)
      modifies this
      ensures State() == Session.SetCurrDict(old(State()), params)
    {
      if |params| != 1 {
        Refuse(WrongArgCount);
        return;
      }
      currDict := params[0];
    }

    method GetCurrDict(params: seq<string>)
      modifies this
      ensures State() == Session.GetCurrDict(old(State()), params)
    {
      if |params| != 0 {
        Refuse(WrongArgCount);
        return;
      }
      stdout := stdout + [currDict];
    }

    method Define(params: seq<string>)
      modifies this
      ensures State() == Session.DefineCmd(old(State()), params)
    {
      if |params| != 1 {
        Refuse(WrongArgCount);
        return;
      }
      Send(DefineRequest(currDict, params[0]));
    }

    method Match(params: seq<string>)
      modifies this
      ensures State() == Session.MatchCmd(old(State()), params)
    {
      if |params| != 1 {
        Refuse(WrongArgCount);
        return;
      }
      Send(MatchExactRequest(currDict, params[0]));
    }

    method PrefixMatch(params: seq<string>)
      modifies this
      ensures State() == Session.PrefixMatchCmd(old(State()), params)
    {
      if |params| != 1 {
        Refuse(WrongArgCount);
        return;
      }
      Send(MatchPrefixRequest(currDict, params[0]));
    }

    /** isCmdValid: 900 for a token that names no verb. */
    method IsCmdValid(cmd: string) returns (valid: bool)
      modifies this
      ensures valid <==> ParseVerb(cmd).Some?
      ensures State() == if valid then old(State()) else old(State()).(stderr := old(stderr) + [InvalidCommand])
    {
      valid := ParseVerb(cmd).Some?;
      if !valid {
        stderr := stderr + [InvalidCommand];
      }
    }

    /** isCmdExpected: 903 for a verb the status does not admit. */
    method IsCmdExpected(cmd: string) returns (expected: bool)
      requires ParseVerb(cmd).Some?
      modifies this
      ensures expected <==> IsExpected(status, ParseVerb(cmd).value)
      ensures State() == if expected then old(State()) else old(State()).(stderr := old(stderr) + [NotExpected])
    {
      expected := IsExpected(status, ParseVerb(cmd).value);
      if !expected {
        stderr := stderr + [NotExpected];
      }
    }

    method ProcessCmd(cmd: string, server: Session.Server)
      requires next <= |replies| && Split(cmd) != []
      modifies this
      ensures State() == Session.ProcessCmd(old(State()), Split(cmd), server)
    {
      var splitCmd := Split(cmd);
      var verb := splitCmd[0];
      var params := splitCmd[1..];
      var valid := IsCmdValid(verb);
      if !valid {
        validAndExpectedCommand := false;
        return;
      }
      var expected := IsCmdExpected(verb);
      if !expected {
        validAndExpectedCommand := false;
        return;
      }
      match ParseVerb(verb).value
      case Open => EstablishConnection(params, server);
      case Dict => GetSupportedDicts(params);
      case Set => SetCurrDict(params);
      case CurrDict => GetCurrDict(params);
      case Define => Define(params);
      case Match => Match(params);
      case PrefixMatch => PrefixMatch(params);
      case Close => CloseConnections(params);
      case Quit => Exit(params);
    }

    /** The effect of an interpreter's run on the fields. */
    method Apply(t: Transcript)
      modifies this
      ensures State() == Session.Apply(old(State()), t)
    {
      stdout := stdout + t.stdout;
      stderr := stderr + t.stderr;
      sent := sent + t.sent;
      next := t.next;
      if t.crashed {
        halt := Session.Crashed;
      }
    }

    method ProcessOpenResponse()
      requires next <= |replies|
      modifies this
      ensures State() == Session.ProcessOpenResponse(old(State()))
    {
      var b: BannerCheck;
      if next == |replies| {
        b := BannerCheck(Transcript([], [], [], next, false), false);
      } else {
        var fromServer := replies[next];
        if Blank(fromServer) {
          b := BannerCheck(Transcript([], [], [], next + 1, true), false);
        } else {
          FirstWordSplit(fromServer);
          var shown := PrintLineExceptResponseCodeUnlessDebug(fromServer, debugOn);
          if Split(fromServer)[0] == Banner {
            b := BannerCheck(Transcript(shown, [], [], next + 1, false), false);
          } else {
            b := BannerCheck(Transcript(shown, [ProcessingError], [], next + 1, false), true);
          }
        }
      }
      assert b == OpenRun(replies, next, debugOn);
      Apply(b.t);
      if b.rejected {
        CloseConnections([]);
      }
    }

    method ProcessResponse(cmd: string)
      requires next <= |replies| && Split(cmd) != []
      modifies this
      ensures State() == Session.ProcessResponse(old(State()), Split(cmd))
    {
      var splitCmd := Split(cmd);
      var verb := ToLower(splitCmd[0]);
      if verb == "open" {
        ProcessOpenResponse();
      } else if verb == "dict" {
        var t := ProcessDictResponse(replies, next, debugOn);
        Apply(t);
      } else if verb == "define" {
        if |splitCmd| < 2 {
          halt := Session.Crashed;
        } else {
          var t := ProcessDefineResponse(replies, next, splitCmd[1], debugOn);
          Apply(t);
        }
      } else if verb == "match" {
        var t := ProcessExactMatchResponse(replies, next, debugOn);
        Apply(t);
      } else if verb == "prefixmatch" {
        var t := ProcessPrefixMatchResponse(replies, next, debugOn);
        Apply(t);
      }
    }

    /** One pass of main's loop on a typed line. */
    method Step(line: string, server: Session.Server)
      requires next <= |replies| && halt == Session.Running
      modifies this
      ensures State() == Session.Step(old(State()), line, server)
    {
      var cmd := Trim(line);
      if Session.Skipped(cmd) {
        return;
      }
      if cmd == "^D" {
        Exit([]);
        return;
      }
      Session.TrimmedSplits(line);
      ProcessCmd(cmd, server);
      if halt != Session.Running {
        return;
      }
      if validAndExpectedCommand {
        ProcessResponse(cmd);
        if halt != Session.Running {
          return;
        }
      }
      validAndExpectedCommand := true;
    }

    /** main's loop over the typed lines, until the input ends or the program
        does; each line comes with the server an open on it would reach. */
    method Run(lines: seq<string>, servers: seq<Session.Server>)
      requires next <= |replies| && |servers| == |lines|
      modifies this
      ensures State() == Session.Run(old(State()), lines, servers)
    {
      var k := 0;
      while k < |lines| && halt == Session.Running
        invariant 0 <= k <= |lines| && next <= |replies|
        invariant Session.Run(old(State()), lines, servers) == Session.Run(State(), lines[k..], servers[k..])
      {
        assert lines[k..][1..] == lines[k + 1..] && servers[k..][1..] == servers[k + 1..];
        Step(lines[k], servers[k]);
        k := k + 1;
      }
    }
  }
}
