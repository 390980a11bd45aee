/**
  The serialized HTTP/1.1 messages that cross the guest boundary. Bytes and ASCII
  characters are the same symbols here.
 */
module HttpFraming {
  import opened Basics

  const CRLF := "\r\n"
  const TERMINATOR := "\r\n\r\n"

  datatype Header = Header(name: string, value: string)

  // ---------------------------------------------------------------- text

  function Digit(n: nat): char
    requires n < 10
  {
    '0' + n as char
  }

  predicate IsSpace(c: char) {
    c == ' ' || c == '\t' || c == '\n' || c == '\r' || c == 11 as char || c == 12 as char
  }

  function TrimLeft(s: string): string {
    if s != [] && IsSpace(s[0]) then TrimLeft(s[1..]) else s
  }

  function TrimRight(s: string): string {
    if s != [] && IsSpace(s[|s| - 1]) then TrimRight(s[..|s| - 1]) else s
  }

  function Trim(s: string): string {
    TrimRight(TrimLeft(s))
  }

  predicate Trimmed(s: string) {
    s == [] || (!IsSpace(s[0]) && !IsSpace(s[|s| - 1]))
  }

  /** Tab, line feed, vertical tab, form feed, carriage return and space, by their codes. */
  predicate Blank(c: char) {
    9 <= c as int <= 13 || c as int == 32
  }

  lemma SpaceIsBlank(c: char)
    ensures IsSpace(c) <==> Blank(c)
  {
  }

  lemma {:induction false} TrimLeftIs(s: string) returns (n: nat)
    ensures n <= |s| && TrimLeft(s) == s[n..] && (forall i :: 0 <= i < n ==> IsSpace(s[i]))
    ensures n < |s| ==> !IsSpace(s[n])
  {
    if s != [] && IsSpace(s[0]) {
      n := TrimLeftIs(s[1..]);
      n := n + 1;
    } else {
      n := 0;
    }
  }

  lemma {:induction false} TrimRightIs(s: string) returns (n: nat)
    ensures n <= |s| && TrimRight(s) == s[..n] && (forall i :: n <= i < |s| ==> IsSpace(s[i]))
    ensures n > 0 ==> !IsSpace(s[n - 1])
  {
    if s != [] && IsSpace(s[|s| - 1]) {
      n := TrimRightIs(s[..|s| - 1]);
    } else {
      n := |s|;
    }
  }

  /** Nothing but white space is taken away, and what is left has none at its ends. */
  lemma TrimIs(s: string) returns (i: nat, j: nat)
    ensures i <= j <= |s| && Trim(s) == s[i..j] && (i < j ==> !Blank(s[i]) && !Blank(s[j - 1]))
    ensures forall k :: 0 <= k < |s| && !(i <= k < j) ==> Blank(s[k])
  {
    i := TrimLeftIs(s);
    var n := TrimRightIs(s[i..]);
    j := i + n;
    forall k | 0 <= k < |s|
      ensures IsSpace(s[k]) <==> Blank(s[k])
    {
      SpaceIsBlank(s[k]);
    }
    forall k | 0 <= k < |s| && !(i <= k < j)
      ensures Blank(s[k])
    {
      if k >= j { assert s[k] == s[i..][k - i]; }
    }
    if i < j { assert s[i] == s[i..][0] && s[j - 1] == s[i..][n - 1]; }
  }

  lemma TrimSpaced(s: string)
    requires Trimmed(s)
    ensures Trim(s) == s && Trim(" " + s) == s
  {
    assert (" " + s)[1..] == s;
  }

  /** Text that can stand on a line of its own. */
  predicate IsLine(s: string) {
    s != [] && '\r' !in s
  }

  // ---------------------------------------------------------------- lines

  predicate EndsAt(w: string, k: nat) {
    k + 4 <= |w| && w[k..k + 4] == TERMINATOR
  }

  ghost predicate IsFirstEnd(w: string, k: nat) {
    EndsAt(w, k) && forall j: nat :: j < k ==> !EndsAt(w, j)
  }

  /** Lines, each followed by CRLF. */
  function Join(lines: seq<string>): string {
    if lines == [] then "" else lines[0] + CRLF + Join(lines[1..])
  }

  predicate AllLines(lines: seq<string>) {
    forall i :: 0 <= i < |lines| ==> IsLine(lines[i])
  }

  lemma EndsShift(line: string, w: string, j: nat)
    ensures EndsAt(line + CRLF + w, |line| + 2 + j) <==> EndsAt(w, j)
  {
    var v := line + CRLF + w;
    assert v[|line| + 2..] == w;
    if j + 4 <= |w| {
      assert v[|line| + 2 + j..|line| + 2 + j + 4] == w[j..j + 4];
    }
  }

  /** No terminator begins inside a line, or right after one that is followed by more text. */
  lemma NoEndInLine(line: string, w: string, j: nat)
    requires IsLine(line) && j < |line| + 2 && (j == |line| ==> w == "" || w[0] != '\r')
    ensures !EndsAt(line + CRLF + w, j)
  {
    var v := line + CRLF + w;
    if j + 4 <= |v| {
      var t := v[j..j + 4];
      assert t[0] == v[j] && t[2] == v[j + 2];
      if j < |line| { assert v[j] == line[j]; }
    }
  }

  /** One line, then a blank line. */
  lemma OneLineEndsFirst(line: string, body: string)
    requires IsLine(line)
    ensures IsFirstEnd(line + CRLF + (CRLF + body), |line|)
  {
    var w := CRLF + body;
    var all := line + CRLF + w;
    assert all[|line|..|line| + 4] == TERMINATOR;
    forall j: nat | j < |line|
      ensures !EndsAt(all, j)
    {
      NoEndInLine(line, w, j);
    }
  }

  /** One more line in front. */
  lemma MoreLinesEndFirst(line: string, w: string, k: nat)
    requires IsLine(line) && IsFirstEnd(w, k) && w[0] != '\r'
    ensures IsFirstEnd(line + CRLF + w, |line| + 2 + k)
  {
    var all := line + CRLF + w;
    EndsShift(line, w, k);
    forall j: nat | j < |line| + 2 + k
      ensures !EndsAt(all, j)
    {
      if j < |line| + 2 {
        NoEndInLine(line, w, j);
      } else {
        EndsShift(line, w, j - |line| - 2);
      }
    }
  }

  /** The first terminator is the blank line after the last header, whatever the body holds. */
  lemma {:induction false} HeadEndsFirst(lines: seq<string>, body: string)
    requires lines != [] && AllLines(lines)
    ensures |Join(lines)| >= 2 && IsFirstEnd(Join(lines) + CRLF + body, |Join(lines)| - 2)
    decreases |lines|
  {
    var line, rest := lines[0], Join(lines[1..]);
    var w := rest + CRLF + body;
    assert Join(lines) + CRLF + body == line + CRLF + w;
    if |lines| == 1 {
      assert w == CRLF + body;
      OneLineEndsFirst(line, body);
    } else {
      HeadEndsFirst(lines[1..], body);
      assert w[0] == lines[1][0];
      MoreLinesEndFirst(line, w, |rest| - 2);
    }
  }

  // ---------------------------------------------------------------- headers

  function HeaderLine(h: Header): string {
    h.name + ": " + h.value
  }

  function HeaderLines(hs: seq<Header>): seq<string> {
    if hs == [] then [] else HeaderLines(hs[..|hs| - 1]) + [HeaderLine(hs[|hs| - 1])]
  }

  lemma {:induction false} JoinSnoc(lines: seq<string>, line: string)
    ensures Join(lines + [line]) == Join(lines) + line + CRLF
    decreases |lines|
  {
    if lines == [] {
      assert (lines + [line])[1..] == [];
    } else {
      assert (lines + [line])[1..] == lines[1..] + [line];
      JoinSnoc(lines[1..], line);
      assert (lines[0] + CRLF) + (Join(lines[1..]) + line + CRLF) == (lines[0] + CRLF + Join(lines[1..])) + line + CRLF;
    }
  }

  predicate CrFree(h: Header) {
    '\r' !in h.name && '\r' !in h.value
  }

  lemma {:induction false} HeaderLinesAreLines(hs: seq<Header>)
    requires forall h :: h in hs ==> CrFree(h)
    ensures |HeaderLines(hs)| == |hs| && AllLines(HeaderLines(hs))
  {
    if hs != [] {
      HeaderLinesAreLines(hs[..|hs| - 1]);
      var h := hs[|hs| - 1];
      assert h in hs;
      HeaderLineIsLine(h);
    }
  }

  lemma HeaderLineIsLine(h: Header)
    requires CrFree(h)
    ensures IsLine(HeaderLine(h))
  {
    assert HeaderLine(h)[|h.name|] == ':';
  }

  // ---------------------------------------------------------------- responses

  predicate BreakAt(s: string, i: nat) {
    i + 2 <= |s| && s[i..i + 2] == CRLF
  }

  function FindBreak(s: string, i: nat): (k: nat)
    requires i <= |s|
    ensures i <= k <= |s| && (k < |s| ==> BreakAt(s, k))
    ensures forall j :: i <= j < k ==> !BreakAt(s, j)
    decreases |s| - i
  {
    if i == |s| || BreakAt(s, i) then i else FindBreak(s, i + 1)
  }

  /** The pieces between line breaks. */
  function Split(s: string): (lines: seq<string>)
    ensures lines != []
  {
    var k := FindBreak(s, 0);
    if k == |s| then [s] else [s[..k]] + Split(s[k + 2..])
  }

  /** Lines with a break between each two. */
  function Text(lines: seq<string>): string
    requires lines != []
  {
    if |lines| == 1 then lines[0] else lines[0] + CRLF + Text(lines[1..])
  }

  lemma {:induction false} JoinIsText(lines: seq<string>)
    requires lines != []
    ensures Join(lines) == Text(lines) + CRLF
  {
    if |lines| == 1 {
      assert lines[1..] == [];
    } else {
      JoinIsText(lines[1..]);
    }
  }

  /** Splitting loses nothing, for any text. */
  lemma {:induction false} TextOfSplit(s: string)
    ensures Text(Split(s)) == s
    decreases |s|
  {
    var k := FindBreak(s, 0);
    if k < |s| {
      TextOfSplit(s[k + 2..]);
      assert Split(s)[1..] == Split(s[k + 2..]);
      assert s == s[..k] + s[k..k + 2] + s[k + 2..];
    }
  }

  lemma NoBreakAt(s: string, j: nat)
    requires j < |s| && s[j] != '\r'
    ensures !BreakAt(s, j)
  {
    if j + 2 <= |s| { assert s[j..j + 2][0] == s[j]; }
  }

  lemma FirstBreak(line: string, rest: string)
    requires '\r' !in line
    ensures FindBreak(line, 0) == |line| && FindBreak(line + CRLF + rest, 0) == |line|
  {
    var s := line + CRLF + rest;
    assert s[|line|..|line| + 2] == CRLF;
    assert BreakAt(s, |line|);
    forall j: nat | j < |line|
      ensures !BreakAt(line, j) && !BreakAt(s, j)
    {
      assert s[j] == line[j];
      NoBreakAt(line, j);
      NoBreakAt(s, j);
    }
  }

  /** Lines without CR come back from their text. */
  lemma {:induction false} SplitOfText(lines: seq<string>)
    requires lines != [] && forall i :: 0 <= i < |lines| ==> '\r' !in lines[i]
    ensures Split(Text(lines)) == lines
  {
    if |lines| == 1 {
      FirstBreak(lines[0], "");
    } else {
      var rest := Text(lines[1..]);
      FirstBreak(lines[0], rest);
      SplitOfText(lines[1..]);
      assert Text(lines)[..|lines[0]|] == lines[0];
      assert Text(lines)[|lines[0]| + 2..] == rest;
    }
  }

  predicate IsDigit(c: char) {
    '0' <= c <= '9'
  }

  function DigitValue(c: char): nat
    requires IsDigit(c)
  {
    (c - '0') as nat
  }

  predicate OneLine(s: string) {
    '\r' !in s && '\n' !in s && '\U{2028}' !in s && '\U{2029}' !in s
  }

  datatype Status = Status(code: nat, text: string)

  /** What follows the three digits, without the one space that may stand before it. */
  function Reason(rest: string): string {
    if rest != "" && rest[0] == ' ' then rest[1..] else rest
  }

  /** `HTTP/`, digit, dot, digit, space, three digits, and a reason on the same line. */
  function ParseStatus(line: string): Option<Status> {
    if |line| >= 12 && line[..5] == "HTTP/" && IsDigit(line[5]) && line[6] == '.' && IsDigit(line[7]) && line[8] == ' '
       && IsDigit(line[9]) && IsDigit(line[10]) && IsDigit(line[11]) && OneLine(Reason(line[12..]))
    then Some(Status(100 * DigitValue(line[9]) + 10 * DigitValue(line[10]) + DigitValue(line[11]), Reason(line[12..])))
    else None
  }

  /** The first `:` of a line, or -1. */
  function IndexOfColon(line: string, i: nat): (k: int)
    requires i <= |line|
    ensures k == -1 || (i <= k < |line| && line[k] == ':' && ':' !in line[i..k])
    ensures k == -1 ==> ':' !in line[i..]
    decreases |line| - i
  {
    if i == |line| then -1
    else if line[i] == ':' then i
    else
      var k := IndexOfColon(line, i + 1);
      assert line[i..] == [line[i]] + line[i + 1..];
      assert k != -1 ==> line[i..k] == [line[i]] + line[i + 1..k];
      k
  }

  function ReadHeader(line: string): Option<Header> {
    var k := IndexOfColon(line, 0);
    if k > 0 then Some(Header(Trim(line[..k]), Trim(line[k + 1..]))) else None
  }

  /**
    A line is a header if it has a colon and does not begin with one; its name is what stands
    before the first colon, its value what stands after it.
   */
  lemma ReadHeaderIs(line: string, k: nat)
    requires k < |line| && line[k] == ':' && ':' !in line[..k]
    ensures ReadHeader(line) == if k == 0 then None else Some(Header(Trim(line[..k]), Trim(line[k + 1..])))
  {
    ColonAt(line, k, 0);
  }

  lemma NoHeaderWithoutColon(line: string)
    requires ':' !in line
    ensures ReadHeader(line) == None
  {
  }

  /** What the lines leave in the headers object: a later line wins over an earlier one. */
  function HeadersOf(lines: seq<string>): map<string, string> {
    if lines == [] then map[]
    else
      var m := HeadersOf(lines[..|lines| - 1]);
      var h := ReadHeader(lines[|lines| - 1]);
      if h.Some? then m[h.value.name := h.value.value] else m
  }

  datatype Response =
    | Response(status: Status, headers: map<string, string>, body: string)
    | NoTerminator
    | BadStatus(line: string)

  /** What parsing `bytes` must give, told by where the first blank line is. */
  ghost predicate Parses(bytes: string, r: Response) {
    && (r.NoTerminator? <==> forall k: nat :: !EndsAt(bytes, k))
    && forall k: nat :: IsFirstEnd(bytes, k) ==> r == ParsedHead(bytes[..k], bytes[k + 4..])
  }

  function FromLines(lines: seq<string>, body: string): Response
    requires lines != []
  {
    var status := ParseStatus(lines[0]);
    if status.None? then BadStatus(lines[0]) else Response(status.value, HeadersOf(lines[1..]), body)
  }

  function ParsedHead(head: string, body: string): Response {
    FromLines(Split(head), body)
  }

  /** The scan for the blank line: the first one, or none at all. */
  method FindEnd(bytes: string) returns (sep: int)
    ensures sep < 0 ==> forall k: nat :: !EndsAt(bytes, k)
    ensures sep >= 0 ==> IsFirstEnd(bytes, sep)
  {
    var i := 0;
    while i + 3 < |bytes|
      invariant forall k: nat :: k < i ==> !EndsAt(bytes, k)
    {
      if bytes[i] == '\r' && bytes[i + 1] == '\n' && bytes[i + 2] == '\r' && bytes[i + 3] == '\n' {
        assert bytes[i..i + 4] == TERMINATOR;
        return i;
      }
      assert !EndsAt(bytes, i) by {
        var t := bytes[i..i + 4];
        assert t[0] == bytes[i] && t[1] == bytes[i + 1] && t[2] == bytes[i + 2] && t[3] == bytes[i + 3];
      }
      i := i + 1;
    }
    return -1;
  }

  /** The loop over the lines after the first. */
  method ReadHeaders(lines: seq<string>) returns (headers: map<string, string>)
    requires lines != []
    ensures headers == HeadersOf(lines[1..])
  {
    headers := map[];
    for i := 1 to |lines|
      invariant headers == HeadersOf(lines[1..i])
    {
      assert lines[1..i + 1][..i - 1] == lines[1..i];
      var idx := IndexOfColon(lines[i], 0);
      if idx > 0 {
        headers := headers[Trim(lines[i][..idx]) := Trim(lines[i][idx + 1..])];
      }
    }
    assert lines[1..|lines|] == lines[1..];
  }

  method ParseResponse(bytes: string) returns (r: Response)
    ensures Parses(bytes, r)
  {
    var sep := FindEnd(bytes);
    if sep < 0 {
      return NoTerminator;
    }
    var lines := Split(bytes[..sep]);
    var status := ParseStatus(lines[0]);
    if status.None? {
      return BadStatus(lines[0]);
    }
    var headers := ReadHeaders(lines);
    return Response(status.value, headers, bytes[sep + 4..]);
  }

  // ---------------------------------------------------------------- round trip

  function StatusPrefix(major: nat, minor: nat, code: nat): (p: string)
    requires major < 10 && minor < 10 && code < 1000
    ensures |p| == 12 && '\r' !in p && p[..5] == "HTTP/" && p[6] == '.' && p[8] == ' '
    ensures code == 100 * (p[9] as int - 48) + 10 * (p[10] as int - 48) + (p[11] as int - 48)
  {
    DigitsOf(code);
    ['H', 'T', 'T', 'P', '/', Digit(major), '.', Digit(minor), ' ',
     Digit(code / 100), Digit(code / 10 % 10), Digit(code % 10)]
  }

  /** A status line in the form section 4 of RFC 9112 gives. */
  function StatusLine(major: nat, minor: nat, status: Status): string
    requires major < 10 && minor < 10 && status.code < 1000
  {
    StatusPrefix(major, minor, status.code) + " " + status.text
  }

  lemma DigitsOf(code: nat)
    requires code < 1000
    ensures 100 * (code / 100) + 10 * (code / 10 % 10) + code % 10 == code
  {
  }

  lemma StatusRoundTrip(major: nat, minor: nat, status: Status)
    requires major < 10 && minor < 10 && status.code < 1000 && OneLine(status.text)
    ensures ParseStatus(StatusLine(major, minor, status)) == Some(status)
    ensures IsLine(StatusLine(major, minor, status))
  {
    var line := StatusLine(major, minor, status);
    var prefix := StatusPrefix(major, minor, status.code);
    assert line[..12] == prefix && line[..5] == prefix[..5] == "HTTP/";
    assert line[12..] == " " + status.text;
    assert Reason(line[12..]) == status.text;
    DigitsOf(status.code);
  }

  lemma DigitOf(c: char)
    requires IsDigit(c)
    ensures DigitValue(c) < 10 && Digit(DigitValue(c)) == c
  {
  }

  /** The lines with this status: the space before the reason may be missing if the reason begins with none. */
  ghost predicate IsStatusLine(line: string, status: Status) {
    status.code < 1000 && OneLine(status.text) &&
    exists major, minor :: 0 <= major < 10 && 0 <= minor < 10 &&
      var prefix := StatusPrefix(major, minor, status.code);
      line == prefix + " " + status.text || (line == prefix + status.text && !(" " <= status.text))
  }

  lemma StatusAccepts(line: string, status: Status)
    requires IsStatusLine(line, status)
    ensures ParseStatus(line) == Some(status)
  {
    var major, minor :| 0 <= major < 10 && 0 <= minor < 10 &&
      var prefix := StatusPrefix(major, minor, status.code);
      line == prefix + " " + status.text || (line == prefix + status.text && !(" " <= status.text));
    var prefix := StatusPrefix(major, minor, status.code);
    assert line[..12] == prefix && line[..5] == prefix[..5] == "HTTP/";
    assert line[12..] == " " + status.text || line[12..] == status.text;
    assert Reason(line[12..]) == status.text;
    DigitsOf(status.code);
  }

  lemma Places(x: nat, y: nat, z: nat)
    requires x < 10 && y < 10 && z < 10
    ensures var code := 100 * x + 10 * y + z;
            code < 1000 && code / 100 == x && code / 10 % 10 == y && code % 10 == z
  {
    var code := 100 * x + 10 * y + z;
    assert code / 10 == 10 * x + y;
  }

  lemma ThreeDigits(a: char, b: char, c: char)
    requires IsDigit(a) && IsDigit(b) && IsDigit(c)
    ensures var code := 100 * DigitValue(a) + 10 * DigitValue(b) + DigitValue(c);
            code < 1000 && Digit(code / 100) == a && Digit(code / 10 % 10) == b && Digit(code % 10) == c
  {
    DigitOf(a);
    DigitOf(b);
    DigitOf(c);
    Places(DigitValue(a), DigitValue(b), DigitValue(c));
  }

  lemma PrefixOf(line: string) returns (major: nat, minor: nat)
    requires ParseStatus(line).Some?
    ensures major < 10 && minor < 10 && ParseStatus(line).value.code < 1000
    ensures line[..12] == StatusPrefix(major, minor, ParseStatus(line).value.code)
  {
    major, minor := DigitValue(line[5]), DigitValue(line[7]);
    DigitOf(line[5]);
    DigitOf(line[7]);
    ThreeDigits(line[9], line[10], line[11]);
    var http := line[..5];
    assert http[0] == line[0] && http[1] == line[1] && http[2] == line[2] && http[3] == line[3] && http[4] == line[4];
    assert http == "HTTP/";
  }

  lemma StatusRefuses(line: string)
    requires ParseStatus(line).Some?
    ensures IsStatusLine(line, ParseStatus(line).value)
  {
    var status := ParseStatus(line).value;
    var major, minor := PrefixOf(line);
    assert line == line[..12] + line[12..];
    assert line[12..] == " " + status.text || line[12..] == status.text;
  }

  /** The status lines that are accepted, and what is read from them, exactly. */
  lemma StatusIff(line: string, status: Status)
    ensures ParseStatus(line) == Some(status) <==> IsStatusLine(line, status)
  {
    if ParseStatus(line) == Some(status) { StatusRefuses(line); }
    if IsStatusLine(line, status) { StatusAccepts(line, status); }
  }

  /** A header that a line can carry: a trimmed name without colon, a trimmed value, no CR. */
  predicate Carried(h: Header) {
    CrFree(h) && h.name != "" && ':' !in h.name && Trimmed(h.name) && Trimmed(h.value)
  }

  lemma {:induction false} ColonAt(line: string, k: nat, i: nat)
    requires i <= k < |line| && line[k] == ':' && ':' !in line[..k]
    ensures IndexOfColon(line, i) == k
    decreases k - i
  {
    if i < k {
      assert line[i] == line[..k][i];
      ColonAt(line, k, i + 1);
    }
  }

  lemma HeaderRoundTrip(h: Header)
    requires Carried(h)
    ensures ReadHeader(HeaderLine(h)) == Some(h)
  {
    var line := HeaderLine(h);
    var k := IndexOfColon(line, 0);
    assert line[|h.name|] == ':' && line[..|h.name|] == h.name;
    ColonAt(line, |h.name|, 0);
    assert line[k + 1..] == " " + h.value;
    TrimSpaced(h.name);
    TrimSpaced(h.value);
  }

  /** The headers as an object: a later one replaces an earlier one of the same name. */
  function AsObject(hs: seq<Header>): map<string, string> {
    if hs == [] then map[] else AsObject(hs[..|hs| - 1])[hs[|hs| - 1].name := hs[|hs| - 1].value]
  }

  lemma {:induction false} HeadersRoundTrip(hs: seq<Header>)
    requires forall h :: h in hs ==> Carried(h)
    ensures HeadersOf(HeaderLines(hs)) == AsObject(hs)
  {
    if hs != [] {
      var n := |hs| - 1;
      assert hs[n] in hs;
      HeadersRoundTrip(hs[..n]);
      HeaderRoundTrip(hs[n]);
      assert HeaderLines(hs)[..|HeaderLines(hs)| - 1] == HeaderLines(hs[..n]);
    }
  }

  /** The object has the names of the headers, each with the value of its last one. */
  lemma {:induction false} AsObjectLast(hs: seq<Header>, name: string)
    ensures name in AsObject(hs) <==> exists i :: 0 <= i < |hs| && hs[i].name == name
    ensures forall i :: 0 <= i < |hs| && hs[i].name == name && (forall j :: i < j < |hs| ==> hs[j].name != name) ==>
              AsObject(hs)[name] == hs[i].value
  {
    if hs != [] {
      var n := |hs| - 1;
      var front := hs[..n];
      AsObjectLast(front, name);
      assert forall i :: 0 <= i < n ==> front[i] == hs[i];
      if hs[n].name != name && name in AsObject(hs) {
        var i :| 0 <= i < n && front[i].name == name;
        assert hs[i].name == name;
      }
      assert name == hs[n].name ==> hs[n].name == name;
    }
  }

  /** Under distinct names the object holds exactly the headers. */
  lemma AsObjectDistinct(hs: seq<Header>, i: nat)
    requires i < |hs| && forall i, j :: 0 <= i < j < |hs| ==> hs[i].name != hs[j].name
    ensures hs[i].name in AsObject(hs) && AsObject(hs)[hs[i].name] == hs[i].value
  {
    AsObjectLast(hs, hs[i].name);
  }

  function ResponseLines(major: nat, minor: nat, status: Status, headers: seq<Header>): seq<string>
    requires major < 10 && minor < 10 && status.code < 1000
  {
    [StatusLine(major, minor, status)] + HeaderLines(headers)
  }

  /** Lines, a blank line and a body are taken apart again where they were put together. */
  lemma LinesParsed(lines: seq<string>, body: string, r: Response)
    requires lines != [] && AllLines(lines) && Parses(Join(lines) + CRLF + body, r)
    ensures r == FromLines(lines, body)
  {
    HeadEndsFirst(lines, body);
    JoinIsText(lines);
    SplitOfText(lines);
    var all := Join(lines) + CRLF + body;
    var k := |Join(lines)| - 2;
    assert all[..k] == Text(lines);
    assert all[k + 4..] == body;
  }

  /**
    Parsing a serialized response gives back its status, its headers and its body, also when
    the body holds blank lines of its own.
   */
  lemma ResponseRoundTrip(major: nat, minor: nat, status: Status, headers: seq<Header>, body: string, r: Response)
    requires major < 10 && minor < 10 && status.code < 1000 && OneLine(status.text)
    requires forall h :: h in headers ==> Carried(h)
    requires Parses(Join(ResponseLines(major, minor, status, headers)) + CRLF + body, r)
    ensures r == Response(status, AsObject(headers), body)
  {
    var lines := ResponseLines(major, minor, status, headers);
    StatusRoundTrip(major, minor, status);
    HeaderLinesAreLines(headers);
    LinesParsed(lines, body, r);
    HeadersRoundTrip(headers);
    assert lines[1..] == HeaderLines(headers);
  }
}
