/** When the parser ends a part at its first delimiter, and when it reads past one. */
module MultipartDelimiter {
  import opened Basics
  import opened MultipartMachine
  import opened MultipartSearch
  import opened MultipartData
  import opened MultipartRoundTrip

  /** A part that begins with its data: the opening line, and no header. */
  function Opening(boundary: seq<byte>): seq<byte> {
    boundary + CRLF + CRLF
  }

  const OPENED := Feed(EMPTY_LOG, PartBegin)

  lemma OpeningThen(boundary: seq<byte>, w: seq<byte>)
    requires boundary != []
    ensures RunOn(boundary, INITIAL, Opening(boundary) + w) == RunOn(boundary, Ready(0, OPENED), w)
  {
    OpeningRun(boundary);
    BlankLineRun(boundary, 0, OPENED);
    Then(boundary, INITIAL, boundary + CRLF, Machine(HeaderFieldStart, 0, OPENED), CRLF, Ready(0, OPENED));
    RunOnAppend(boundary, INITIAL, Opening(boundary), w);
  }

  ghost predicate EndsWithFirst(boundary: seq<byte>, w: seq<byte>) {
    var d := Delimiter(boundary);
    |d| <= |w| && IsFirst(d, w, |w| - |d|)
  }

  /** The data before a delimiter at the end of `w`. */
  function DataOf(boundary: seq<byte>, w: seq<byte>): seq<byte> {
    if |Delimiter(boundary)| <= |w| then w[..|w| - |Delimiter(boundary)|] else []
  }

  /** Wherever the data begins: if `w` ends with its first delimiter, the part ends there with the data before it. */
  ghost predicate EndsPart(boundary: seq<byte>, index: nat, l: Log, w: seq<byte>) {
    EndsWithFirst(boundary, w) ==>
      RunOn(boundary, Ready(index, l), w) ==
        Outcome(PartOver(boundary, Feed(l, HeadersComplete), DataOf(boundary, w)), 0)
  }

  /** The same for the first part of an input. */
  ghost predicate EndsFirstPart(boundary: seq<byte>, w: seq<byte>) {
    EndsWithFirst(boundary, w) ==>
      RunOn(boundary, INITIAL, Opening(boundary) + w) ==
        Outcome(PartOver(boundary, Feed(OPENED, HeadersComplete), DataOf(boundary, w)), 0)
  }

  lemma RestartableEnds(boundary: seq<byte>, index: nat, l: Log, w: seq<byte>)
    requires boundary != [] && Restartable(Delimiter(boundary))
    ensures EndsPart(boundary, index, l, w)
  {
    var d := Delimiter(boundary);
    if EndsWithFirst(boundary, w) {
      var k := |w| - |d|;
      DeliversUpToFirst(boundary, index, l, w, k);
      assert w[k + |d|..] == [] && DataOf(boundary, w) == w[..k];
    }
  }

  lemma RestartableEndsFirst(boundary: seq<byte>, w: seq<byte>)
    requires boundary != [] && Restartable(Delimiter(boundary))
    ensures EndsFirstPart(boundary, w)
  {
    RestartableEnds(boundary, 0, OPENED, w);
    OpeningThen(boundary, w);
  }

  /** The parser has read `w` after the opening and takes all of it for data so far. */
  ghost predicate StillInData(boundary: seq<byte>, w: seq<byte>) {
    var o := RunOn(boundary, INITIAL, Opening(boundary) + w);
    o.left == 0 && exists h: nat :: Accounted(boundary, o.m, Feed(OPENED, HeadersComplete), w, h)
  }

  lemma PartialIsData(boundary: seq<byte>, w: seq<byte>)
    requires boundary != [] && w != [] && Scan(Delimiter(boundary), 0, w).Partial?
    ensures StillInData(boundary, w)
  {
    OpeningThen(boundary, w);
    DataFromStart(boundary, 0, OPENED, w);
    assert [] + w == w;
  }

  /** A search that comes to nothing has read past the first delimiter too. */
  lemma PartialMisses(boundary: seq<byte>, w: seq<byte>, k: nat)
    requires boundary != [] && IsFirst(Delimiter(boundary), w, k) && Scan(Delimiter(boundary), 0, w).Partial?
    ensures !EndsFirstPart(boundary, w[..k + |Delimiter(boundary)|])
  {
    var d := Delimiter(boundary);
    var v := w[..k + |d|];
    assert w == v + w[k + |d|..];
    ScanPrefix(d, 0, v, w[k + |d|..]);
    FirstCut(d, w, k);
    PartialIsData(boundary, v);
  }

  /**
    Where a CR inside the delimiter begins no border of it, the delimiter cut off before
    that CR and followed by the whole delimiter is read as data to its end, although it
    contains the delimiter.
   */
  lemma MissesDelimiter(boundary: seq<byte>, m: nat) returns (k: nat)
    requires boundary != [] && 0 < m < |Delimiter(boundary)|
    requires Delimiter(boundary)[m] == CR && !(Delimiter(boundary)[m..] <= Delimiter(boundary))
    ensures var d := Delimiter(boundary);
            var w := d[..m] + d;
            && OccursAt(d, w, m) && StillInData(boundary, w)
            && k <= m && IsFirst(d, w, k) && !EndsFirstPart(boundary, w[..k + |d|])
  {
    var d := Delimiter(boundary);
    var w := d[..m] + d;
    MissesOne(d, m);
    PartialIsData(boundary, w);
    k := FirstOccurrence(d, w, m);
    PartialMisses(boundary, w, k);
  }

  lemma SomeInputMissed(boundary: seq<byte>) returns (w: seq<byte>)
    requires boundary != [] && !Restartable(Delimiter(boundary))
    ensures !EndsFirstPart(boundary, w)
  {
    var d := Delimiter(boundary);
    var m := Unrestartable(d);
    var k := MissesDelimiter(boundary, m);
    w := (d[..m] + d)[..k + |d|];
  }

  /**
    The parser ends the first part of every input at the first delimiter if and only if
    every CR of the boundary begins a border of the delimiter; and then every part of every
    input. A boundary without CR always qualifies.
   */
  lemma FindsFirstDelimiterIff(boundary: seq<byte>)
    requires boundary != []
    ensures Restartable(Delimiter(boundary)) <==> forall w: seq<byte> :: EndsFirstPart(boundary, w)
    ensures Restartable(Delimiter(boundary)) ==>
              forall index: nat, l: Log, w: seq<byte> :: EndsPart(boundary, index, l, w)
    ensures CR !in boundary ==> Restartable(Delimiter(boundary))
  {
    if CR !in boundary { CrFreeRestartable(boundary); }
    if Restartable(Delimiter(boundary)) {
      forall index: nat, l: Log, w: seq<byte>
        ensures EndsPart(boundary, index, l, w)
      {
        RestartableEnds(boundary, index, l, w);
      }
      forall w: seq<byte>
        ensures EndsFirstPart(boundary, w)
      {
        RestartableEndsFirst(boundary, w);
      }
    } else {
      var w := SomeInputMissed(boundary);
    }
  }
}
