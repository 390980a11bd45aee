/** A whole stream of buffers, read one after another until a byte is rejected. */
module MultipartBuffers {
  import opened Basics
  import opened MultipartMachine
  import opened MultipartBuffered

  function Concat(buffers: seq<seq<byte>>): seq<byte> {
    if buffers == [] then [] else Concat(buffers[..|buffers| - 1]) + buffers[|buffers| - 1]
  }

  lemma ConcatOne(v: seq<byte>)
    ensures Concat([v]) == v
  {
    var one: seq<seq<byte>> := [v];
    var none: seq<seq<byte>> := [];
    assert one[..0] == none;
  }

  lemma ConcatTake(buffers: seq<seq<byte>>, n: nat)
    requires n < |buffers|
    ensures Concat(buffers[..n + 1]) == Concat(buffers[..n]) + buffers[n]
  {
    assert buffers[..n + 1][..n] == buffers[..n];
  }

  lemma {:induction false} ConcatSplit(buffers: seq<seq<byte>>, n: nat)
    requires n <= |buffers|
    ensures Concat(buffers) == Concat(buffers[..n]) + Concat(buffers[n..])
    decreases |buffers|
  {
    if n == |buffers| {
      assert buffers[..n] == buffers;
    } else {
      var k := |buffers| - 1;
      ConcatSplit(buffers[..k], n);
      assert buffers[..k][..n] == buffers[..n];
      assert buffers[n..][..k - n] == buffers[..k][n..];
    }
  }

  lemma ConcatDrop(buffers: seq<seq<byte>>, n: nat)
    requires n < |buffers|
    ensures Concat(buffers[n..]) == buffers[n] + Concat(buffers[n + 1..])
  {
    ConcatSplit(buffers[n..], 1);
    assert buffers[n..][1..] == buffers[n + 1..];
    assert buffers[n..][..1] == [buffers[n]];
    ConcatOne(buffers[n]);
  }

  /** `left` counts the bytes of all buffers that were not consumed. */
  function PlayAll(boundary: seq<byte>, buffers: seq<seq<byte>>): Played {
    if buffers == [] then Played(FRESH, 0)
    else
      var n := |buffers| - 1;
      var p := PlayAll(boundary, buffers[..n]);
      if p.left > 0 then p.(left := p.left + |buffers[n]|) else Play(boundary, p.k.(pending := []), buffers[n], true)
  }

  lemma PlayAllTake(boundary: seq<byte>, buffers: seq<seq<byte>>, n: nat)
    requires n < |buffers| && PlayAll(boundary, buffers[..n]).left == 0
    ensures PlayAll(boundary, buffers[..n + 1]) ==
              Play(boundary, PlayAll(boundary, buffers[..n]).k.(pending := []), buffers[n], true)
  {
    assert buffers[..n + 1][..n] == buffers[..n];
  }

  /** Nothing happens after a rejection. */
  lemma {:induction false} PlayAllStops(boundary: seq<byte>, buffers: seq<seq<byte>>, n: nat)
    requires n <= |buffers| && PlayAll(boundary, buffers[..n]).left > 0
    ensures var p := PlayAll(boundary, buffers[..n]);
            PlayAll(boundary, buffers) == p.(left := p.left + |Concat(buffers[n..])|)
    decreases |buffers|
  {
    if n == |buffers| {
      assert buffers[..n] == buffers;
    } else {
      var k := |buffers| - 1;
      assert buffers[..k][..n] == buffers[..n];
      assert buffers[n..][..k - n] == buffers[..k][n..];
      PlayAllStops(boundary, buffers[..k], n);
    }
  }

  /**
    However an input is cut, the loop gives the state, the index and the rejected byte of
    the one-byte machine on the whole input, and its callbacks up to the slice that a
    rejection leaves undelivered.
   */
  lemma {:induction false} PlayAllFollows(boundary: seq<byte>, buffers: seq<seq<byte>>)
    ensures Tracks(PlayAll(boundary, buffers), RunOn(boundary, INITIAL, Concat(buffers)), true)
    ensures InOrder(PlayAll(boundary, buffers).k)
    decreases |buffers|
  {
    if buffers != [] {
      var n := |buffers| - 1;
      var p := PlayAll(boundary, buffers[..n]);
      PlayAllFollows(boundary, buffers[..n]);
      RunOnAppend(boundary, INITIAL, Concat(buffers[..n]), buffers[n]);
      if p.left == 0 {
        PlayFollows(boundary, p.k, RunOn(boundary, INITIAL, Concat(buffers[..n])).m, buffers[n], true);
        PlayInOrder(boundary, p.k, buffers[n], true);
      }
    }
  }
}
