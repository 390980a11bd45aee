/** The HTTP/1.1 request that goes to the guest, and what an ordinary reader finds in it. */
module HttpRequest {
  import opened Basics
  import opened HttpFraming

  function Upper(s: string): string {
    seq(|s|, i requires 0 <= i < |s| => if 'a' <= s[i] <= 'z' then s[i] - 'a' + 'A' else s[i])
  }

  function Lower(s: string): string {
    seq(|s|, i requires 0 <= i < |s| => if 'A' <= s[i] <= 'Z' then s[i] - 'A' + 'a' else s[i])
  }

  function Decimal(n: nat): string {
    if n < 10 then [Digit(n)] else Decimal(n / 10) + [Digit(n % 10)]
  }

  /** Equal but for the case of ASCII letters. */
  predicate SameIgnoringCase(a: string, b: string) {
    |a| == |b| && forall i :: 0 <= i < |a| ==>
      || a[i] == b[i]
      || ('a' <= a[i] <= 'z' && b[i] as int == a[i] as int - 32)
      || ('A' <= a[i] <= 'Z' && b[i] as int == a[i] as int + 32)
  }

  lemma UpperIs(s: string)
    ensures SameIgnoringCase(Upper(s), s) && forall c :: c in Upper(s) ==> !('a' <= c <= 'z')
  {
  }

  lemma LowerIs(s: string, t: string)
    requires forall c :: c in t ==> !('A' <= c <= 'Z')
    ensures Lower(s) == t <==> SameIgnoringCase(s, t)
  {
    if SameIgnoringCase(s, t) {
      forall i | 0 <= i < |s|
        ensures Lower(s)[i] == t[i]
      {
        assert t[i] in t;
      }
      assert Lower(s) == t;
    } else if |s| == |t| {
      var i :| 0 <= i < |s| && !(
        || s[i] == t[i]
        || ('a' <= s[i] <= 'z' && t[i] as int == s[i] as int - 32)
        || ('A' <= s[i] <= 'Z' && t[i] as int == s[i] as int + 32));
      assert Lower(s)[i] != t[i];
    }
  }

  /** A decimal number, read digit by digit. */
  function Number(s: string): nat
    requires forall c :: c in s ==> IsDigit(c)
  {
    if s == "" then 0
    else
      assert s[|s| - 1] in s;
      10 * Number(s[..|s| - 1]) + DigitValue(s[|s| - 1])
  }

  lemma {:induction false} DecimalReads(n: nat)
    ensures Decimal(n) != "" && (forall c :: c in Decimal(n) ==> IsDigit(c)) && Number(Decimal(n)) == n
    ensures Decimal(n)[0] == '0' ==> n == 0
  {
    if n < 10 {
      assert Decimal(n)[..0] == "";
    } else {
      DecimalReads(n / 10);
      assert Decimal(n)[..|Decimal(n)| - 1] == Decimal(n / 10);
    }
  }

  predicate HasLength(hs: seq<Header>) {
    exists i :: 0 <= i < |hs| && Lower(hs[i].name) == "content-length"
  }

  function RequestLine(verb: string, path: string): string {
    Upper(if verb == "" then "GET" else verb) + " " + (if path == "" then "/" else path) + " HTTP/1.1"
  }

  /** The lines of a request up to its last header. */
  function OpeningLines(verb: string, path: string, headers: seq<Header>): seq<string> {
    [RequestLine(verb, path), "Host: wasm"] + HeaderLines(headers)
  }

  /** The lines of a request's head. */
  function RequestLines(verb: string, path: string, headers: seq<Header>, body: string): seq<string> {
    OpeningLines(verb, path, headers)
    + (if |body| > 0 && !HasLength(headers) then ["Content-Length: " + Decimal(|body|)] else [])
    + ["Connection: close"]
  }

  lemma OpeningNone(verb: string, path: string)
    ensures Join(OpeningLines(verb, path, [])) == RequestLine(verb, path) + CRLF + "Host: wasm" + CRLF
  {
    var first := [RequestLine(verb, path)];
    assert OpeningLines(verb, path, []) == first + ["Host: wasm"];
    JoinSnoc([], first[0]);
    JoinSnoc(first, "Host: wasm");
    assert [] + first == first;
  }

  lemma OpeningNext(verb: string, path: string, headers: seq<Header>, i: nat)
    requires i < |headers|
    ensures Join(OpeningLines(verb, path, headers[..i + 1]))
         == Join(OpeningLines(verb, path, headers[..i])) + HeaderLine(headers[i]) + CRLF
  {
    assert headers[..i + 1][..i] == headers[..i];
    var lines := OpeningLines(verb, path, headers[..i]);
    assert OpeningLines(verb, path, headers[..i + 1]) == lines + [HeaderLine(headers[i])];
    JoinSnoc(lines, HeaderLine(headers[i]));
  }

  lemma JoinOptional(lines: seq<string>, add: bool, extra: string, last: string)
    ensures Join(lines + (if add then [extra] else []) + [last])
         == Join(lines) + (if add then extra + CRLF else "") + last + CRLF
  {
    if add {
      JoinSnoc(lines, extra);
      JoinSnoc(lines + [extra], last);
    } else {
      assert lines + [] == lines;
      JoinSnoc(lines, last);
    }
  }

  lemma LengthNext(hs: seq<Header>, i: nat)
    requires i < |hs|
    ensures HasLength(hs[..i + 1]) <==> HasLength(hs[..i]) || Lower(hs[i].name) == "content-length"
  {
    var a, b := hs[..i], hs[..i + 1];
    assert b == a + [hs[i]];
    assert Lower(b[i].name) == Lower(hs[i].name);
    assert forall k :: 0 <= k < i ==> Lower(b[k].name) == Lower(a[k].name);
  }

  lemma {:induction false} DecimalIsLine(n: nat)
    ensures IsLine(Decimal(n))
  {
    if n >= 10 { DecimalIsLine(n / 10); }
  }

  // ---------------------------------------------------------------- reading a request

  datatype Request = Request(verb: string, path: string, version: string, headers: map<string, string>, body: string)

  /** The first space of a line, or its end. */
  function FirstSpace(s: string, i: nat): (k: nat)
    requires i <= |s|
    ensures i <= k <= |s|
    decreases |s| - i
  {
    if i == |s| || s[i] == ' ' then i else FirstSpace(s, i + 1)
  }

  /** One past the last space of the first `i` characters, or zero. */
  function AfterLastSpace(s: string, i: nat): (k: nat)
    requires i <= |s|
    ensures k <= i
  {
    if i == 0 || s[i - 1] == ' ' then i else AfterLastSpace(s, i - 1)
  }

  /** Verb, path and version are cut at the first and the last space. */
  function FromRequestLines(lines: seq<string>, body: string): Option<Request>
    requires lines != []
  {
    var line := lines[0];
    var i, j := FirstSpace(line, 0), AfterLastSpace(line, |line|);
    if i + 1 < j then Some(Request(line[..i], line[i + 1..j - 1], line[j..], HeadersOf(lines[1..]), body)) else None
  }

  /** Read as head and body at the first blank line, these bytes are the request `r`. */
  ghost predicate IsRequest(bytes: string, r: Request) {
    && (exists k: nat :: IsFirstEnd(bytes, k))
    && forall k: nat :: IsFirstEnd(bytes, k) ==> FromRequestLines(Split(bytes[..k]), bytes[k + 4..]) == Some(r)
  }

  /** Some header is a length, in whatever case its name is written. */
  predicate NamesLength(hs: seq<Header>) {
    exists i :: 0 <= i < |hs| && SameIgnoringCase(hs[i].name, "content-length")
  }

  lemma HasLengthIff(hs: seq<Header>)
    ensures HasLength(hs) <==> NamesLength(hs)
  {
    forall i | 0 <= i < |hs|
      ensures Lower(hs[i].name) == "content-length" <==> SameIgnoringCase(hs[i].name, "content-length")
    {
      LowerIs(hs[i].name, "content-length");
    }
  }

  /** The headers a request goes out with; its length is added if it has a body and no header tells it. */
  function AllHeaders(headers: seq<Header>, body: string): seq<Header> {
    [Header("Host", "wasm")] + headers
    + (if |body| > 0 && !NamesLength(headers) then [Header("Content-Length", Decimal(|body|))] else [])
    + [Header("Connection", "close")]
  }

  /** What the other side should read. */
  function Sent(verb: string, path: string, headers: seq<Header>, body: string): Request {
    Request(if verb == "" then "GET" else Upper(verb), if path == "" then "/" else path, "HTTP/1.1",
            AsObject(AllHeaders(headers, body)), body)
  }

  /** A verb of one word, one line for the path, and headers that a line can carry. */
  predicate Sendable(verb: string, path: string, headers: seq<Header>) {
    '\r' !in verb && ' ' !in verb && '\r' !in path && forall h :: h in headers ==> Carried(h)
  }

  lemma {:induction false} HeaderLinesAppend(a: seq<Header>, b: seq<Header>)
    ensures HeaderLines(a + b) == HeaderLines(a) + HeaderLines(b)
    decreases |b|
  {
    if b == [] {
      assert a + b == a;
    } else {
      var n := |b| - 1;
      assert (a + b)[..|a + b| - 1] == a + b[..n];
      HeaderLinesAppend(a, b[..n]);
    }
  }

  lemma OneHeaderLine(h: Header)
    ensures HeaderLines([h]) == [HeaderLine(h)]
  {
    var none: seq<Header> := [];
    assert [h][..0] == none;
  }

  lemma SurroundedLines(first: Header, hs: seq<Header>, add: bool, extra: Header, last: Header)
    ensures HeaderLines([first] + hs + (if add then [extra] else []) + [last])
         == [HeaderLine(first)] + HeaderLines(hs) + (if add then [HeaderLine(extra)] else []) + [HeaderLine(last)]
  {
    OneHeaderLine(first);
    OneHeaderLine(extra);
    OneHeaderLine(last);
    HeaderLinesAppend([first], hs);
    HeaderLinesAppend([first] + hs, if add then [extra] else []);
    HeaderLinesAppend([first] + hs + (if add then [extra] else []), [last]);
  }

  /** The lines after the first are the lines of all headers, in order. */
  lemma LinesAreHeaders(verb: string, path: string, headers: seq<Header>, body: string)
    ensures RequestLines(verb, path, headers, body)
         == [RequestLine(verb, path)] + HeaderLines(AllHeaders(headers, body))
  {
    var length := Header("Content-Length", Decimal(|body|));
    HasLengthIff(headers);
    SurroundedLines(Header("Host", "wasm"), headers, |body| > 0 && !NamesLength(headers), length,
                    Header("Connection", "close"));
    assert HeaderLine(Header("Host", "wasm")) == "Host: wasm";
    assert HeaderLine(Header("Connection", "close")) == "Connection: close";
    assert HeaderLine(length) == "Content-Length: " + Decimal(|body|);
  }

  lemma {:induction false} FirstSpaceAt(s: string, i: nat, k: nat)
    requires i <= k < |s| && s[k] == ' ' && ' ' !in s[..k]
    ensures FirstSpace(s, i) == k
    decreases k - i
  {
    if i < k {
      assert s[i] == s[..k][i];
      FirstSpaceAt(s, i + 1, k);
    }
  }

  lemma {:induction false} AfterLastSpaceAt(s: string, i: nat, k: nat)
    requires 0 < k <= i <= |s| && s[k - 1] == ' ' && ' ' !in s[k..i]
    ensures AfterLastSpace(s, i) == k
    decreases i
  {
    if i > k {
      assert s[i - 1] == s[k..i][i - 1 - k];
      assert s[k..i - 1] == s[k..i][..i - 1 - k];
      AfterLastSpaceAt(s, i - 1, k);
    }
  }

  /** The three words of the first line are found again; the path may hold spaces of its own. */
  lemma RequestLineReads(verb: string, path: string)
    requires ' ' !in verb
    ensures var line := RequestLine(verb, path);
            var v, p := if verb == "" then "GET" else Upper(verb), if path == "" then "/" else path;
            var i, j := FirstSpace(line, 0), AfterLastSpace(line, |line|);
            i + 1 < j && line[..i] == v && line[i + 1..j - 1] == p && line[j..] == "HTTP/1.1"
  {
    var line := RequestLine(verb, path);
    var v, p := if verb == "" then "GET" else Upper(verb), if path == "" then "/" else path;
    assert Upper("GET") == "GET";
    assert line == v + " " + p + " " + "HTTP/1.1";
    var i, j := |v|, |v| + |p| + 2;
    assert line[..i] == v && line[i + 1..j - 1] == p && line[j..] == "HTTP/1.1";
    assert ' ' !in v by {
      if verb != "" { assert forall k :: 0 <= k < |v| ==> v[k] == ' ' ==> verb[k] == ' '; }
    }
    FirstSpaceAt(line, 0, i);
    assert line[j..|line|] == "HTTP/1.1";
    AfterLastSpaceAt(line, |line|, j);
  }

  lemma AddedCarried(n: nat)
    ensures Carried(Header("Host", "wasm")) && Carried(Header("Connection", "close"))
    ensures Carried(Header("Content-Length", Decimal(n)))
  {
    LengthCarried(n);
    var host, close := "Host", "Connection";
    assert !IsSpace(host[0]) && !IsSpace(host[3]) && !IsSpace(close[0]) && !IsSpace(close[9]);
  }

  lemma DigitsCarried(n: nat)
    ensures '\r' !in Decimal(n) && Trimmed(Decimal(n))
  {
    var value := Decimal(n);
    DecimalReads(n);
    assert IsDigit(value[0]) && IsDigit(value[|value| - 1]);
  }

  lemma LengthCarried(n: nat)
    ensures Carried(Header("Content-Length", Decimal(n)))
  {
    var name := "Content-Length";
    DigitsCarried(n);
    assert !IsSpace(name[0]) && !IsSpace(name[13]);
  }

  lemma AllHeadersCarried(headers: seq<Header>, body: string)
    requires forall h :: h in headers ==> Carried(h)
    ensures forall h :: h in AllHeaders(headers, body) ==> Carried(h)
  {
    AddedCarried(|body|);
  }

  lemma RequestLineIsLine(verb: string, path: string)
    requires '\r' !in verb && '\r' !in path
    ensures IsLine(RequestLine(verb, path))
  {
    assert RequestLine(verb, path)[|RequestLine(verb, path)| - 1] == '1';
  }

  /** Lines, a blank line and a body are read as what the lines say. */
  lemma LinesRead(lines: seq<string>, body: string, r: Request)
    requires lines != [] && AllLines(lines) && FromRequestLines(lines, body) == Some(r)
    ensures IsRequest(Join(lines) + CRLF + body, r)
  {
    var all, k := Join(lines) + CRLF + body, |Join(lines)| - 2;
    HeadEndsFirst(lines, body);
    JoinIsText(lines);
    SplitOfText(lines);
    assert all[..k] == Text(lines) && all[k + 4..] == body;
    forall j: nat | IsFirstEnd(all, j)
      ensures j == k
    {
    }
  }

  /**
    What was built is read as the upper-case verb, the path, the version, every header with
    those that are added, and the body.
   */
  lemma RequestReads(verb: string, path: string, headers: seq<Header>, body: string)
    requires Sendable(verb, path, headers)
    ensures IsRequest(Join(RequestLines(verb, path, headers, body)) + CRLF + body, Sent(verb, path, headers, body))
  {
    var lines, all := RequestLines(verb, path, headers, body), AllHeaders(headers, body);
    LinesAreHeaders(verb, path, headers, body);
    AllHeadersCarried(headers, body);
    HeaderLinesAreLines(all);
    RequestLineIsLine(verb, path);
    HeadersRoundTrip(all);
    assert lines[1..] == HeaderLines(all);
    RequestLineReads(verb, path);
    LinesRead(lines, body, Sent(verb, path, headers, body));
  }

  /** The loop over the headers: their lines after the first two, and whether one of them is a length. */
  method BuildOpening(verb: string, path: string, headers: seq<Header>) returns (head: string, hasLength: bool)
    ensures head == Join(OpeningLines(verb, path, headers)) && (hasLength <==> HasLength(headers))
  {
    head := RequestLine(verb, path) + CRLF + "Host: wasm" + CRLF;
    hasLength := false;
    OpeningNone(verb, path);
    for i := 0 to |headers|
      invariant head == Join(OpeningLines(verb, path, headers[..i]))
      invariant hasLength <==> HasLength(headers[..i])
    {
      OpeningNext(verb, path, headers, i);
      LengthNext(headers, i);
      if Lower(headers[i].name) == "content-length" {
        hasLength := true;
      }
      head := head + HeaderLine(headers[i]) + CRLF;
    }
    assert headers[..|headers|] == headers;
  }

  /** The head, line by line. */
  method BuildHead(verb: string, path: string, headers: seq<Header>, body: string) returns (head: string)
    ensures head == Join(RequestLines(verb, path, headers, body))
  {
    var hasLength;
    head, hasLength := BuildOpening(verb, path, headers);
    var needed := |body| > 0 && !hasLength;
    var length := "Content-Length: " + Decimal(|body|);
    JoinOptional(OpeningLines(verb, path, headers), needed, length, "Connection: close");
    if needed {
      head := head + (length + CRLF);
    }
    head := head + "Connection: close" + CRLF;
  }

  /** A request: its head, a blank line, then the body untouched. */
  method BuildRequest(verb: string, path: string, headers: seq<Header>, body: string) returns (out: string)
    ensures out == Join(RequestLines(verb, path, headers, body)) + CRLF + body
    ensures Sendable(verb, path, headers) ==> IsRequest(out, Sent(verb, path, headers, body))
  {
    var head := BuildHead(verb, path, headers, body);
    out := head + CRLF + body;
    if Sendable(verb, path, headers) { RequestReads(verb, path, headers, body); }
  }

  /**
    Whatever the body holds, the first blank line of a request is the one after its head,
    and what follows it is exactly the body.
   */
  lemma RequestSplits(verb: string, path: string, headers: seq<Header>, body: string)
    requires '\r' !in verb && '\r' !in path && forall h :: h in headers ==> CrFree(h)
    ensures var head := Join(RequestLines(verb, path, headers, body));
            var k := |head| - 2;
            k >= 0 && IsFirstEnd(head + CRLF + body, k) && (head + CRLF + body)[k + 4..] == body
  {
    var lines := RequestLines(verb, path, headers, body);
    HeaderLinesAreLines(headers);
    DecimalIsLine(|body|);
    assert IsLine(RequestLine(verb, path)) by {
      assert RequestLine(verb, path)[|RequestLine(verb, path)| - 1] == '1';
    }
    assert AllLines(lines);
    HeadEndsFirst(lines, body);
    assert (Join(lines) + CRLF + body)[|Join(lines)| + 2..] == body;
  }
}
