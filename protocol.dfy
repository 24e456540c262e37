/** The vocabulary of the DICT client: the command verbs and the gate that admits
    them, the request lines it writes (RFC 2229, sections 3.2, 3.3, 3.5.1 and 3.9),
    the status-code test for reply lines, and the fixed diagnostics. */
module DictProtocol {
  import opened JavaText

  datatype Status = Connected | Disconnected

  datatype Verb = Open | Dict | Set | CurrDict | Define | Match | PrefixMatch | Close | Quit

  /** The lower-case spelling under which the command loop accepts each verb. */
  function VerbName(v: Verb): string {
    match v
    case Open => "open"
    case Dict => "dict"
    case Set => "set"
    case CurrDict => "currdict"
    case Define => "define"
    case Match => "match"
    case PrefixMatch => "prefixmatch"
    case Close => "close"
    case Quit => "quit"
  }

  /** The verb a command token names, compared after lower-casing (isCmdValid). */
  function ParseVerb(token: string): (r: Option<Verb>)
    ensures r.Some? ==> VerbName(r.value) == ToLower(token)
    ensures r.None? ==> forall v: Verb :: VerbName(v) != ToLower(token)
  {
    var t := ToLower(token);
    if t == "open" then Some(Open)
    else if t == "dict" then Some(Dict)
    else if t == "set" then Some(Set)
    else if t == "currdict" then Some(CurrDict)
    else if t == "define" then Some(Define)
    else if t == "match" then Some(Match)
    else if t == "prefixmatch" then Some(PrefixMatch)
    else if t == "close" then Some(Close)
    else if t == "quit" then Some(Quit)
    else None
  }

  /** Each verb's own spelling, in any case, is recognised as that verb. */
  lemma ParseVerbName(v: Verb, token: string)
    requires ToLower(token) == VerbName(v)
    ensures ParseVerb(token) == Some(v)
  {
  }

  /** isCmdExpected: a disconnected client admits only open and quit; a connected
      one admits every verb except open. */
  predicate IsExpected(status: Status, v: Verb) {
    match status
    case Connected => v != Open
    case Disconnected => v == Open || v == Quit
  }

  datatype Verdict = Invalid | Unexpected | Accepted(verb: Verb)

  /** The two checks processCmd runs before dispatching, validity first: an unknown
      verb is Invalid whatever the status, and expectation is only asked of a
      known verb. */
  function Gate(token: string, status: Status): (r: Verdict)
    ensures r == Invalid <==> ParseVerb(token).None?
    ensures r == Unexpected <==> ParseVerb(token).Some? && !IsExpected(status, ParseVerb(token).value)
    ensures r.Accepted? <==> ParseVerb(token).Some? && IsExpected(status, ParseVerb(token).value)
    ensures r.Accepted? ==> ParseVerb(token) == Some(r.verb)
  {
    match ParseVerb(token)
    case None => Invalid
    case Some(v) => if IsExpected(status, v) then Accepted(v) else Unexpected
  }

  /** The number of parameters each handler accepts: open takes a server and an
      optional port, set/define/match/prefixmatch exactly one, the rest none. */
  predicate ArgCountOk(v: Verb, n: nat) {
    match v
    case Open => 1 <= n <= 2
    case Set | Define | Match | PrefixMatch => n == 1
    case Dict | CurrDict | Close | Quit => n == 0
  }

  // ---------------------------------------------------------------- requests

  const DefaultPort: int := 2628
  const ShowDbRequest: string := "show db"
  const QuitRequest: string := "quit"

  function DefineRequest(dict: string, word: string): string {
    "DEFINE " + dict + " " + word
  }

  function MatchExactRequest(dict: string, word: string): string {
    "MATCH " + dict + " exact " + word
  }

  function MatchPrefixRequest(dict: string, word: string): string {
    "MATCH " + dict + " prefix " + word
  }

  /** matchDefault: all databases, the server's default strategy. */
  function MatchDefaultRequest(word: string): string {
    "MATCH * . " + word
  }

  /** DEFINE database word: the request is the three words, space-separated. */
  lemma DefineRequestWords(dict: string, word: string)
    requires IsWord(dict) && IsWord(word)
    ensures Split(DefineRequest(dict, word)) == ["DEFINE", dict, word]
  {
    var ts := ["DEFINE", dict, word];
    JoinSpaceThree("DEFINE", dict, word);
    assert "DEFINE" + " " == "DEFINE ";
    assert IsWord("DEFINE");
    assert forall k :: 0 <= k < |ts| ==> IsWord(ts[k]);
    SplitJoinSpace(ts);
  }

  /** MATCH database strategy word, with the exact strategy. */
  lemma MatchExactRequestWords(dict: string, word: string)
    requires IsWord(dict) && IsWord(word)
    ensures Split(MatchExactRequest(dict, word)) == ["MATCH", dict, "exact", word]
  {
    var ts := ["MATCH", dict, "exact", word];
    JoinSpaceFour("MATCH", dict, "exact", word);
    assert "MATCH" + " " == "MATCH ";
    var head := "MATCH " + dict;
    assert head + " " + "exact" + " " == head + (" " + "exact" + " ");
    assert " " + "exact" + " " == " exact ";
    assert IsWord("MATCH") && IsWord("exact");
    assert forall k :: 0 <= k < |ts| ==> IsWord(ts[k]);
    SplitJoinSpace(ts);
  }

  /** MATCH database strategy word, with the prefix strategy. */
  lemma MatchPrefixRequestWords(dict: string, word: string)
    requires IsWord(dict) && IsWord(word)
    ensures Split(MatchPrefixRequest(dict, word)) == ["MATCH", dict, "prefix", word]
  {
    var ts := ["MATCH", dict, "prefix", word];
    JoinSpaceFour("MATCH", dict, "prefix", word);
    assert "MATCH" + " " == "MATCH ";
    var head := "MATCH " + dict;
    assert head + " " + "prefix" + " " == head + (" " + "prefix" + " ");
    assert " " + "prefix" + " " == " prefix ";
    assert IsWord("MATCH") && IsWord("prefix");
    assert forall k :: 0 <= k < |ts| ==> IsWord(ts[k]);
    SplitJoinSpace(ts);
  }

  /** The fallback asks every database ("*") with the default strategy ("."). */
  lemma MatchDefaultRequestWords(word: string)
    requires IsWord(word)
    ensures Split(MatchDefaultRequest(word)) == ["MATCH", "*", ".", word]
  {
    var ts := ["MATCH", "*", ".", word];
    JoinSpaceFour("MATCH", "*", ".", word);
    assert "MATCH" + " " + "*" + " " + "." + " " == "MATCH * . ";
    assert IsWord("MATCH") && IsWord("*") && IsWord(".");
    assert forall k :: 0 <= k < |ts| ==> IsWord(ts[k]);
    SplitJoinSpace(ts);
  }

  // ---------------------------------------------------------------- replies

  /** isResponseCode: the token is exactly three decimal digits. */
  predicate IsResponseCode(token: string) {
    |token| == 3 && AllDigits(token)
  }

  /** Every three-digit status code, written in decimal, is recognised as one and
      reads back as its value. */
  lemma ResponseCodeOfNumber(code: nat)
    requires 100 <= code <= 999
    ensures IsResponseCode(NatToString(code))
    ensures ParseInt(NatToString(code)) == Some(code)
  {
    assert NatToString(code) == NatToString(code / 10) + [DigitChar(code % 10)];
    assert NatToString(code / 10) == NatToString(code / 100) + [DigitChar(code / 10 % 10)];
    ParseIntToString(code);
  }

  /** Status codes the interpreters react to. */
  const Banner := "220"
  const DefinitionsFollow := "150"
  const DefinitionHeader := "151"
  const NoSuchDatabase := "550"
  const NoMatch := "552"
  const NoDatabases := "554"

  // ---------------------------------------------------------------- messages

  const InvalidCommand := "900 Invalid command."
  const WrongArgCount := "901 Incorrect number of arguments."
  const InvalidArgument := "902 Invalid argument."
  const NotExpected := "903 Supplied command not expected at this time."
  const ControlIoError := "925 Control connection I/O error, closing control connection."
  const DictionaryDoesNotExist := "930 Dictionary does not exist"
  const ProcessingError := "999 Processing error. Server may not be running a DICT server. Closing connection."
  const NoDefinitionFound := "***No definition found***"
  const NoDictionaryHasWord := "***No dictionaries have a definition for this word***"
  const NoMatchingWords := "****No matching word(s) found****"
  const NoPrefixMatches := "*****No prefix matches found*****"

  /** The 920 diagnostic names the server and the port as given or defaulted. */
  function ConnectFailed(server: string, port: int): string {
    "920 Control connection to " + server + " on port " + IntToString(port) + " failed to open."
  }
}
