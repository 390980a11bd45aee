/**
  A multipart body as text, byte by byte: what section 5.1.1 of RFC 2046 describes, with
  the liberties the parser takes. Any number of spaces may follow a header's colon, and
  the blank line after the headers may hold letters and hyphens.
 */
module MultipartText {
  import opened Basics
  import opened MultipartSearch

  datatype Header = Header(name: seq<byte>, spaces: nat, value: seq<byte>)

  datatype Part = Part(headers: seq<Header>, stray: seq<byte>, data: seq<byte>)

  /** `-`, `A` to `Z`, `a` to `z`. */
  predicate IsLetterOrHyphen(c: byte) {
    c == 45 || 65 <= c <= 90 || 97 <= c <= 122
  }

  predicate IsName(s: seq<byte>) {
    forall i :: 0 <= i < |s| ==> IsLetterOrHyphen(s[i])
  }

  /** No CR, and no space at its beginning. */
  predicate IsValue(s: seq<byte>) {
    (forall i :: 0 <= i < |s| ==> s[i] != 13) && (s != [] ==> s[0] != 32)
  }

  predicate GoodHeader(h: Header) {
    IsName(h.name) && IsValue(h.value)
  }

  /** CR, LF and the boundary, which already carries its two hyphens. */
  function EndOfPart(boundary: seq<byte>): seq<byte> {
    [13, 10] + boundary
  }

  /** The data runs up to the first end of part. */
  ghost predicate GoodPart(boundary: seq<byte>, p: Part) {
    && (forall i :: 0 <= i < |p.headers| ==> GoodHeader(p.headers[i])) && IsName(p.stray)
    && IsFirst(EndOfPart(boundary), p.data + EndOfPart(boundary), |p.data|)
  }

  function Spaces(n: nat): (s: seq<byte>)
    ensures |s| == n
  {
    if n == 0 then [] else [32] + Spaces(n - 1)
  }

  function WriteHeader(h: Header): seq<byte> {
    (h.name + [58]) + Spaces(h.spaces) + (h.value + [13]) + [10]
  }

  function WriteHeaders(hs: seq<Header>): seq<byte> {
    if hs == [] then [] else WriteHeader(hs[0]) + WriteHeaders(hs[1..])
  }

  function WritePart(boundary: seq<byte>, p: Part): seq<byte> {
    WriteHeaders(p.headers) + (p.stray + [13, 10]) + (p.data + EndOfPart(boundary))
  }

  /** A part is followed by two hyphens, or by a line end and more parts. */
  function WriteParts(boundary: seq<byte>, parts: seq<Part>): seq<byte>
    requires parts != []
  {
    WritePart(boundary, parts[0]) + (if |parts| == 1 then [45, 45] else [13, 10] + WriteParts(boundary, parts[1..]))
  }

  function Write(boundary: seq<byte>, parts: seq<Part>): seq<byte>
    requires parts != []
  {
    boundary + [13, 10] + WriteParts(boundary, parts)
  }

  ghost predicate GoodParts(boundary: seq<byte>, parts: seq<Part>) {
    parts != [] && forall j :: 0 <= j < |parts| ==> GoodPart(boundary, parts[j])
  }

  /** One or more parts, and anything after them. */
  ghost predicate IsBody(boundary: seq<byte>, w: seq<byte>) {
    exists parts: seq<Part>, epilogue: seq<byte> :: GoodParts(boundary, parts) && w == Write(boundary, parts) + epilogue
  }

  /** `w` is the beginning of a body. */
  ghost predicate Viable(boundary: seq<byte>, w: seq<byte>) {
    exists v: seq<byte> :: IsBody(boundary, w + v)
  }
}
