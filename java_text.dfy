/** The pieces of java.lang.String and java.lang.Integer that the client's protocol
    engine relies on: String.trim, String.split("\\s+"), an ASCII String.toLowerCase,
    Integer.parseInt and the decimal rendering of an int. */
module JavaText {

  datatype Option<+T> = None | Some(value: T)

  /** The range of a Java int. */
  const MinInt: int := -0x8000_0000
  const MaxInt: int := 0x7fff_ffff

  /** The characters of the regular-expression class \s: space, and tab, line feed,
      vertical tab, form feed and carriage return (U+0009 to U+000D). */
  predicate IsSpace(c: char) {
    c == ' ' || '\t' <= c <= '\r'
  }

  predicate NoSpace(t: string) {
    forall j :: 0 <= j < |t| ==> !IsSpace(t[j])
  }

  predicate AllSpace(s: string) {
    forall j :: 0 <= j < |s| ==> IsSpace(s[j])
  }

  /** A token of a split line: non-empty and free of whitespace. */
  predicate IsWord(t: string) {
    t != [] && NoSpace(t)
  }

  // ---------------------------------------------------------------- trim

  /** String.trim removes every leading and trailing character up to U+0020. */
  function TrimStart(s: string): (r: string)
    ensures |r| <= |s| && r == s[|s| - |r|..]
    ensures forall k :: 0 <= k < |s| - |r| ==> s[k] <= ' '
    ensures r == [] || r[0] > ' '
  {
    if s != [] && s[0] <= ' ' then TrimStart(s[1..]) else s
  }

  function TrimEnd(s: string): (r: string)
    ensures |r| <= |s| && r == s[..|r|]
    ensures forall k :: |r| <= k < |s| ==> s[k] <= ' '
    ensures r == [] || r[|r| - 1] > ' '
  {
    if s != [] && s[|s| - 1] <= ' ' then TrimEnd(s[..|s| - 1]) else s
  }

  /** String.trim: the result starts and ends with a character above U+0020, and
      is empty exactly when s holds nothing above U+0020. */
  function Trim(s: string): (r: string)
    ensures r == [] || (r[0] > ' ' && r[|r| - 1] > ' ')
    ensures |r| <= |s|
    ensures r == [] <==> forall k :: 0 <= k < |s| ==> s[k] <= ' '
  {
    var t := TrimStart(s);
    var r := TrimEnd(t);
    r
  }

  /** r is s[a..b], and everything outside that slice is a character up to U+0020. */
  predicate SliceBetween(s: string, r: string, a: nat, b: nat) {
    a <= b <= |s| && r == s[a..b] &&
    (forall k :: 0 <= k < a ==> s[k] <= ' ') && (forall k :: b <= k < |s| ==> s[k] <= ' ')
  }

  /** The trimmed string is the slice of s left once every character up to
      U+0020 is removed from both ends. */
  lemma TrimIsSlice(s: string)
    ensures exists a: nat, b: nat :: SliceBetween(s, Trim(s), a, b)
  {
    var t := TrimStart(s);
    var r := TrimEnd(t);
    var a := |s| - |t|;
    SuffixTail(s, a, r);
    assert SliceBetween(s, Trim(s), a, a + |r|);
  }

  lemma SuffixTail(s: string, a: nat, r: string)
    requires a <= |s| && |r| <= |s| - a && r == s[a..][..|r|]
    requires forall k :: |r| <= k < |s[a..]| ==> s[a..][k] <= ' '
    ensures r == s[a..a + |r|] && forall k :: a + |r| <= k < |s| ==> s[k] <= ' '
  {
    var t := s[a..];
    forall k | a + |r| <= k < |s|
      ensures s[k] <= ' '
    {
      assert s[k] == t[k - a];
    }
  }

  /** Trimming twice is trimming once. */
  lemma TrimIdempotent(s: string)
    ensures Trim(Trim(s)) == Trim(s)
  {
    var r := Trim(s);
    if r != [] {
      assert TrimStart(r) == r;
      assert TrimEnd(r) == r;
    }
  }

  // ---------------------------------------------------------------- split

  /** The first index at or after i that holds whitespace, or |s| when there is none. */
  function SpaceFrom(s: string, i: nat): (k: nat)
    requires i <= |s|
    ensures i <= k <= |s|
    ensures forall j :: i <= j < k ==> !IsSpace(s[j])
    ensures k < |s| ==> IsSpace(s[k])
    decreases |s| - i
  {
    if i == |s| || IsSpace(s[i]) then i else SpaceFrom(s, i + 1)
  }

  /** The first index at or after i that holds no whitespace, or |s| when there is none. */
  function WordFrom(s: string, i: nat): (k: nat)
    requires i <= |s|
    ensures i <= k <= |s|
    ensures forall j :: i <= j < k ==> IsSpace(s[j])
    ensures k < |s| ==> !IsSpace(s[k])
    decreases |s| - i
  {
    if i == |s| || !IsSpace(s[i]) then i else WordFrom(s, i + 1)
  }

  /** The substrings of s[i..] between maximal runs of whitespace, as the regular-expression
      splitter finds them before String.split drops trailing empty strings. */
  function Pieces(s: string, i: nat): (p: seq<string>)
    requires i <= |s|
    ensures |p| > 0
    decreases |s| - i
  {
    var k := SpaceFrom(s, i);
    if k == |s| then [s[i..]] else [s[i..k]] + Pieces(s, WordFrom(s, k + 1))
  }

  predicate AllEmpty(p: seq<string>) {
    forall k :: 0 <= k < |p| ==> p[k] == []
  }

  /** What String.split does with the pieces: trailing empty strings are removed. */
  function DropTrailingEmpty(p: seq<string>): (r: seq<string>)
    ensures |r| <= |p| && r == p[..|r|]
    ensures r == [] || r[|r| - 1] != []
    ensures forall k :: |r| <= k < |p| ==> p[k] == []
  {
    if p != [] && p[|p| - 1] == [] then DropTrailingEmpty(p[..|p| - 1]) else p
  }

  /** String.split as the regular-expression splitter defines it: the pieces between
      whitespace runs, trailing empty pieces removed, and [s] itself when the
      pattern never matches (so the empty line gives [""]). */
  function RegexSplit(s: string): seq<string> {
    if SpaceFrom(s, 0) == |s| then [s] else DropTrailingEmpty(Pieces(s, 0))
  }

  /** s.split("\\s+"), computed in one left-to-right pass: a leading whitespace run
      yields a leading "", a trailing one yields nothing, and a line of whitespace
      only yields no token at all. */
  function Split(s: string): seq<string> {
    var p := Scan(s, 0, 0);
    if p == [""] && s != [] then [] else p
  }

  /** The scan inside a token: s[b..i] has been read and holds no whitespace. */
  function Scan(s: string, b: nat, i: nat): seq<string>
    requires b <= i <= |s|
    decreases |s| - i, 0
  {
    if i == |s| then [s[b..]]
    else if IsSpace(s[i]) then [s[b..i]] + Skip(s, i + 1)
    else Scan(s, b, i + 1)
  }

  /** The scan inside a whitespace run, which ends at i == |s| without a token. */
  function Skip(s: string, i: nat): seq<string>
    requires i <= |s|
    decreases |s| - i, 1
  {
    if i == |s| then []
    else if IsSpace(s[i]) then Skip(s, i + 1)
    else Scan(s, i, i)
  }

  /** The regular-expression pieces with a final empty piece (from a trailing
      whitespace run) removed. */
  function DropFinalEmpty(p: seq<string>): seq<string> {
    if |p| > 1 && p[|p| - 1] == [] then p[..|p| - 1] else p
  }

  /** The one-pass scanner finds the regular-expression pieces of s[b..], except for
      the empty piece after a trailing whitespace run. */
  lemma {:induction false} ScanPieces(s: string, b: nat, i: nat)
    requires b <= i <= |s|
    requires forall j :: b <= j < i ==> !IsSpace(s[j])
    ensures Scan(s, b, i) == DropFinalEmpty(Pieces(s, b))
    decreases |s| - i, 0
  {
    if i < |s| && !IsSpace(s[i]) {
      assert Scan(s, b, i) == Scan(s, b, i + 1);
      ScanPieces(s, b, i + 1);
    } else if i == |s| {
      assert SpaceFrom(s, b) == i;
      assert Pieces(s, b) == [s[b..]];
    } else {
      var w := WordFrom(s, i + 1);
      var x := s[b..i];
      assert Scan(s, b, i) == [x] + Skip(s, i + 1);
      SkipPieces(s, i + 1);
      PiecesAtSpace(s, b, i);
      if w < |s| {
        PiecesHead(s, w);
        DropFinalEmptyCons(x, Pieces(s, w));
      } else {
        PiecesAtEnd(s);
        assert Pieces(s, b) == [x, ""];
      }
    }
  }

  lemma PiecesAtSpace(s: string, b: nat, i: nat)
    requires b <= i < |s| && IsSpace(s[i])
    requires forall j :: b <= j < i ==> !IsSpace(s[j])
    ensures Pieces(s, b) == [s[b..i]] + Pieces(s, WordFrom(s, i + 1))
  {
    assert SpaceFrom(s, b) == i;
  }

  lemma PiecesHead(s: string, w: nat)
    requires w < |s| && !IsSpace(s[w])
    ensures Pieces(s, w)[0] != []
  {
    assert SpaceFrom(s, w) > w;
  }

  lemma PiecesAtEnd(s: string)
    ensures Pieces(s, |s|) == [""]
  {
    assert s[|s|..] == "";
  }

  lemma DropFinalEmptyCons(x: string, q: seq<string>)
    requires |q| > 0 && q[0] != []
    ensures DropFinalEmpty([x] + q) == [x] + DropFinalEmpty(q)
  {
    if |q| > 1 && q[|q| - 1] == [] {
      assert ([x] + q)[..|q|] == [x] + q[..|q| - 1];
    }
  }

  lemma {:induction false} SkipPieces(s: string, i: nat)
    requires i <= |s|
    ensures Skip(s, i) == if WordFrom(s, i) == |s| then [] else DropFinalEmpty(Pieces(s, WordFrom(s, i)))
    decreases |s| - i, 1
  {
    if i < |s| {
      if IsSpace(s[i]) {
        SkipPieces(s, i + 1);
      } else {
        ScanPieces(s, i, i);
      }
    }
  }

  /** The one-pass scanner and the regular-expression definition agree. */
  lemma SplitIsRegexSplit(s: string)
    ensures Split(s) == RegexSplit(s)
  {
    ScanPieces(s, 0, 0);
    var p := Pieces(s, 0);
    if SpaceFrom(s, 0) < |s| {
      PiecesInnerNonEmpty(s, 0);
      assert p == [s[0..SpaceFrom(s, 0)]] + Pieces(s, WordFrom(s, SpaceFrom(s, 0) + 1));
      assert |p| > 1;
      var r := DropTrailingEmpty(p);
      if p[|p| - 1] == [] && |p| > 2 {
        assert p[|p| - 2] != [];
        assert |r| == |p| - 1;
      } else if p[|p| - 1] == [] {
        assert |r| <= 1;
        assert |r| == 1 ==> r == p[..1] == [p[0]];
      }
    }
  }

  /** The tokens of a split line: none holds whitespace, only the first can be
      empty (when the line starts with whitespace), there are none exactly when the
      line is non-empty and all whitespace, and the first runs up to the first
      whitespace character. */
  lemma SplitTokens(s: string)
    ensures forall k :: 0 <= k < |Split(s)| ==> NoSpace(Split(s)[k])
    ensures forall k :: 1 <= k < |Split(s)| ==> Split(s)[k] != []
    ensures Split(s) == [] <==> (s != [] && AllSpace(s))
    ensures Split(s) != [] ==> Split(s)[0] == s[..SpaceFrom(s, 0)]
  {
    SplitIsRegexSplit(s);
    if SpaceFrom(s, 0) < |s| {
      PiecesNoSpace(s, 0);
      PiecesInnerNonEmpty(s, 0);
      PiecesAllEmpty(s, 0);
      var p := Pieces(s, 0);
      var r := DropTrailingEmpty(p);
      assert r != [] ==> r[0] == p[0];
    }
  }

  lemma {:induction false} PiecesNoSpace(s: string, i: nat)
    requires i <= |s|
    ensures forall k :: 0 <= k < |Pieces(s, i)| ==> NoSpace(Pieces(s, i)[k])
    decreases |s| - i
  {
    var k := SpaceFrom(s, i);
    if k < |s| {
      PiecesNoSpace(s, WordFrom(s, k + 1));
    }
  }

  /** Only the first and the last piece can be empty. */
  lemma {:induction false} PiecesInnerNonEmpty(s: string, i: nat)
    requires i <= |s|
    ensures forall k :: 1 <= k < |Pieces(s, i)| - 1 ==> Pieces(s, i)[k] != []
    decreases |s| - i
  {
    var k := SpaceFrom(s, i);
    if k < |s| {
      var w := WordFrom(s, k + 1);
      PiecesInnerNonEmpty(s, w);
      if w < |s| {
        assert SpaceFrom(s, w) > w;
      }
    }
  }

  /** Every piece is empty exactly when s[i..] is all whitespace. */
  lemma {:induction false} PiecesAllEmpty(s: string, i: nat)
    requires i <= |s|
    ensures AllEmpty(Pieces(s, i)) <==> forall j :: i <= j < |s| ==> IsSpace(s[j])
    decreases |s| - i
  {
    var k := SpaceFrom(s, i);
    if k < |s| {
      var w := WordFrom(s, k + 1);
      PiecesAllEmpty(s, w);
      var p := Pieces(s, i);
      assert p == [s[i..k]] + Pieces(s, w);
      if k > i {
        assert !IsSpace(s[i]);
        assert p[0] != [];
      } else if w < |s| {
        assert SpaceFrom(s, w) > w;
        assert p[1] == Pieces(s, w)[0];
        assert p[1] != [];
        assert !IsSpace(s[w]);
      } else {
        assert forall j :: i <= j < |s| ==> IsSpace(s[j]);
        assert forall j :: 1 <= j < |p| ==> p[j] == Pieces(s, w)[j - 1];
      }
    } else if i < |s| {
      assert !IsSpace(s[i]);
      assert Pieces(s, i)[0] != [];
    }
  }

  /** ws joined in the way a StringBuilder appends ' ' and then each word. */
  function SpaceJoined(ws: seq<string>): string
    decreases |ws|
  {
    if ws == [] then "" else SpaceJoined(ws[..|ws| - 1]) + " " + ws[|ws| - 1]
  }

  /** The words of ts separated by single spaces. */
  function JoinSpace(ts: seq<string>): string
    requires |ts| > 0
  {
    ts[0] + SpaceJoined(ts[1..])
  }

  lemma {:induction false} SpaceJoinedFront(ws: seq<string>)
    requires |ws| > 0
    ensures SpaceJoined(ws) == " " + ws[0] + SpaceJoined(ws[1..])
    decreases |ws|
  {
    if |ws| > 1 {
      var init := ws[..|ws| - 1];
      SpaceJoinedFront(init);
      assert init[1..] == ws[1..][..|ws[1..]| - 1];
      assert init[0] == ws[0];
    } else {
      assert ws[1..] == [];
    }
  }

  lemma JoinSpaceThree(a: string, b: string, c: string)
    ensures JoinSpace([a, b, c]) == a + " " + b + " " + c
  {
    assert [a, b, c][1..] == [b, c];
    assert [b, c][..1] == [b];
    assert [b][..0] == [];
    assert SpaceJoined([b]) == " " + b;
    assert SpaceJoined([b, c]) == " " + b + " " + c;
  }

  lemma JoinSpaceFour(a: string, b: string, c: string, d: string)
    ensures JoinSpace([a, b, c, d]) == a + " " + b + " " + c + " " + d
  {
    assert [a, b, c, d][1..] == [b, c, d];
    assert [b, c, d][..2] == [b, c];
    assert [b, c][..1] == [b];
    assert [b][..0] == [];
    assert SpaceJoined([b]) == " " + b;
    assert SpaceJoined([b, c]) == " " + b + " " + c;
    assert SpaceJoined([b, c, d]) == " " + b + " " + c + " " + d;
  }

  /** Splitting a space-joined sequence of words gives the words back. */
  lemma {:induction false} SplitJoinSpace(ts: seq<string>)
    requires |ts| > 0
    requires forall k :: 0 <= k < |ts| ==> IsWord(ts[k])
    ensures Split(JoinSpace(ts)) == ts
  {
    var s := JoinSpace(ts);
    SplitIsRegexSplit(s);
    assert s[0..] == s;
    PiecesJoinSpace(s, 0, ts);
    if |ts| > 1 {
      SpaceJoinedFront(ts[1..]);
      assert s[|ts[0]|] == ' ';
    } else {
      assert s == ts[0];
    }
  }

  lemma {:induction false} PiecesJoinSpace(s: string, i: nat, ts: seq<string>)
    requires i <= |s| && |ts| > 0
    requires forall k :: 0 <= k < |ts| ==> IsWord(ts[k])
    requires s[i..] == JoinSpace(ts)
    ensures Pieces(s, i) == ts
    decreases |ts|
  {
    if |ts| == 1 {
      PiecesOneWord(s, i, ts);
    } else {
      var k := i + |ts[0]|;
      JoinSpaceLayout(s, i, ts);
      WordsTail(ts);
      PiecesJoinSpace(s, k + 1, ts[1..]);
      PiecesCons(s, i, k, ts[0], ts[1..]);
      HeadTail(ts);
    }
  }

  lemma PiecesOneWord(s: string, i: nat, ts: seq<string>)
    requires i <= |s| && |ts| == 1 && IsWord(ts[0])
    requires s[i..] == JoinSpace(ts)
    ensures Pieces(s, i) == ts
  {
    var t := ts[0];
    assert ts[1..] == [];
    assert t + "" == t;
    assert s[i..][..|t|] == t;
    WordEnds(s, i, t);
    assert [t] == ts;
  }

  lemma WordsTail(ts: seq<string>)
    requires |ts| > 0
    requires forall k :: 0 <= k < |ts| ==> IsWord(ts[k])
    ensures forall k :: 0 <= k < |ts[1..]| ==> IsWord(ts[1..][k])
  {
    forall k | 0 <= k < |ts[1..]| ensures IsWord(ts[1..][k]) {
      assert ts[1..][k] == ts[k + 1];
    }
  }

  lemma PiecesCons(s: string, i: nat, k: nat, t: string, rest: seq<string>)
    requires i <= k < |s| && SpaceFrom(s, i) == k && WordFrom(s, k + 1) == k + 1
    requires s[i..k] == t && Pieces(s, k + 1) == rest
    ensures Pieces(s, i) == [t] + rest
  {
  }

  /** Where the first word, the separating space and the remaining words of a
      space-joined sequence lie. */
  lemma JoinSpaceLayout(s: string, i: nat, ts: seq<string>)
    requires i <= |s| && |ts| > 1
    requires forall k :: 0 <= k < |ts| ==> IsWord(ts[k])
    requires s[i..] == JoinSpace(ts)
    ensures i + |ts[0]| + 1 < |s|
    ensures SpaceFrom(s, i) == i + |ts[0]|
    ensures WordFrom(s, i + |ts[0]| + 1) == i + |ts[0]| + 1
    ensures s[i..i + |ts[0]|] == ts[0]
    ensures s[i + |ts[0]| + 1..] == JoinSpace(ts[1..])
  {
    var head := ts[0];
    var rest := ts[1..];
    SpaceJoinedFront(rest);
    var tail := JoinSpace(rest);
    var k := i + |head|;
    assert s[i..] == head + (" " + tail);
    assert s[i..][..|head|] == head;
    assert s[i..][|head|] == ' ';
    WordEnds(s, i, head);
    assert s[i..][|head| + 1..] == tail;
    assert s[k + 1..] == s[i..][|head| + 1..];
    assert IsWord(rest[0]);
    assert tail[0] == rest[0][0];
    assert !IsSpace(s[k + 1]);
  }

  lemma HeadTail<T>(s: seq<T>)
    requires |s| > 0
    ensures s == [s[0]] + s[1..]
  {
  }

  /** A word at position i followed by whitespace or the end of s ends where the
      splitter looks for the next separator. */
  lemma WordEnds(s: string, i: nat, head: string)
    requires i + |head| <= |s|
    requires s[i..][..|head|] == head && NoSpace(head)
    requires i + |head| == |s| || IsSpace(s[i + |head|])
    ensures SpaceFrom(s, i) == i + |head|
    ensures s[i..i + |head|] == head
  {
    forall j | i <= j < i + |head| ensures !IsSpace(s[j]) {
      assert s[j] == head[j - i];
    }
  }

  // ---------------------------------------------------------------- case

  function LowerChar(c: char): char {
    if 'A' <= c <= 'Z' then (c as int + 32) as char else c
  }

  /** String.toLowerCase on ASCII letters; every other character is kept. */
  function ToLower(s: string): (r: string)
    ensures |r| == |s|
    ensures forall k :: 0 <= k < |s| ==> r[k] == LowerChar(s[k])
  {
    if s == [] then [] else [LowerChar(s[0])] + ToLower(s[1..])
  }

  lemma ToLowerIdempotent(s: string)
    ensures ToLower(ToLower(s)) == ToLower(s)
  {
  }

  // ---------------------------------------------------------------- numbers

  predicate IsDigit(c: char) {
    '0' <= c <= '9'
  }

  predicate AllDigits(s: string) {
    forall k :: 0 <= k < |s| ==> IsDigit(s[k])
  }

  /** The value of a string of decimal digits. */
  function DigitsValue(s: string): nat
    requires AllDigits(s)
    decreases |s|
  {
    if s == [] then 0 else 10 * DigitsValue(s[..|s| - 1]) + (s[|s| - 1] as int - '0' as int)
  }

  /** Integer.parseInt(s): an optional sign and at least one decimal digit, with a value
      that fits a Java int; None where Java throws NumberFormatException. */
  function ParseInt(s: string): (r: Option<int>)
    ensures r.Some? ==> MinInt <= r.value <= MaxInt
    ensures r.Some? ==> s != [] && (AllDigits(s) || ((s[0] == '-' || s[0] == '+') && AllDigits(s[1..])))
  {
    var signed := s != [] && (s[0] == '-' || s[0] == '+');
    var digits := if signed then s[1..] else s;
    if digits == [] || !AllDigits(digits) then None
    else
      var magnitude: int := DigitsValue(digits);
      var v: int := if s[0] == '-' then -magnitude else magnitude;
      if MinInt <= v <= MaxInt then Some(v) else None
  }

  function DigitChar(d: nat): (c: char)
    requires d < 10
    ensures IsDigit(c) && c as int - '0' as int == d
  {
    ('0' as int + d) as char
  }

  /** The decimal rendering of n, without leading zeros. */
  function NatToString(n: nat): (r: string)
    ensures r != [] && AllDigits(r)
    ensures r[0] == '0' ==> n == 0
    decreases n
  {
    if n < 10 then [DigitChar(n)] else NatToString(n / 10) + [DigitChar(n % 10)]
  }

  /** The decimal rendering of an int, as string concatenation produces it. */
  function IntToString(n: int): string {
    if n < 0 then "-" + NatToString(-n) else NatToString(n)
  }

  lemma {:induction false} NatToStringValue(n: nat)
    ensures DigitsValue(NatToString(n)) == n
    decreases n
  {
    if n >= 10 {
      NatToStringValue(n / 10);
      var s := NatToString(n);
      assert s[..|s| - 1] == NatToString(n / 10);
    }
  }

  /** Integer.parseInt reads back what string concatenation writes for an int. */
  lemma ParseIntToString(n: int)
    requires MinInt <= n <= MaxInt
    ensures ParseInt(IntToString(n)) == Some(n)
  {
    if n < 0 {
      ParseNegative(-n);
    } else {
      ParseNonNegative(n);
    }
  }

  lemma ParseNonNegative(n: nat)
    requires n <= MaxInt
    ensures ParseInt(NatToString(n)) == Some(n)
  {
    var s := NatToString(n);
    NatToStringValue(n);
    assert IsDigit(s[0]);
    assert s[0] != '-' && s[0] != '+';
  }

  lemma ParseNegative(m: int)
    requires 0 < m <= -MinInt
    ensures ParseInt("-" + NatToString(m)) == Some(-m)
  {
    var s := "-" + NatToString(m);
    NatToStringValue(m);
    assert s[0] == '-';
    assert s[1..] == NatToString(m);
  }

  /** The Java int decrement n--, which wraps from MIN_VALUE to MAX_VALUE. */
  function Decrement32(n: int): (r: int)
    requires MinInt <= n <= MaxInt
    ensures MinInt <= r <= MaxInt
    ensures (n - 1 - r) % 0x1_0000_0000 == 0
  {
    if n == MinInt then MaxInt else n - 1
  }
}
