/**
  The Ethernet driver's packet buffers: the chain the receive callback links, and the
  transmit descriptors filled from such a chain.
 */
module PbufChain {
  import opened Basics

  const U16: nat := 0x1_0000

  /** A packet buffer; both lengths are 16-bit. */
  class Pbuf {
    var next: Pbuf?
    const payload: nat
    var len: nat
    var totLen: nat

    constructor (payload: nat)
      ensures next == null && this.payload == payload && len == 0 && totLen == 0
    {
      this.payload := payload;
      next := null;
      len, totLen := 0, 0;
    }
  }

  /** The lengths from the `i`-th buffer to the end. */
  function SumFrom(lens: seq<nat>, i: nat): nat
    requires i <= |lens|
    decreases |lens| - i
  {
    if i == |lens| then 0 else lens[i] + SumFrom(lens, i + 1)
  }

  lemma {:induction false} SumFromAppend(lens: seq<nat>, x: nat, i: nat)
    requires i <= |lens|
    ensures SumFrom(lens + [x], i) == SumFrom(lens, i) + x
    decreases |lens| - i
  {
    if i == |lens| {
      assert SumFrom(lens + [x], i + 1) == 0;
    } else {
      SumFromAppend(lens, x, i + 1);
    }
  }

  function NodeAt(nodes: seq<Pbuf>, i: nat): Pbuf? {
    if i < |nodes| then nodes[i] else null
  }

  /** Addition in 16 bits. */
  function Add16(a: nat, b: nat): nat {
    (a + b) % U16
  }

  /** The length from the `i`-th buffer to the end, as 16 bits hold it. */
  function Total(lens: seq<nat>, i: nat): nat
    requires i <= |lens|
  {
    SumFrom(lens, i) % U16
  }

  /** `nodes` are linked in order, without repetition, and carry the lengths `lens`. */
  ghost predicate Linked(nodes: seq<Pbuf>, lens: seq<nat>)
    reads nodes`next, nodes`len
  {
    && |nodes| == |lens|
    && (forall i, j :: 0 <= i < j < |nodes| ==> nodes[i] != nodes[j])
    && (forall i :: 0 <= i < |nodes| ==> nodes[i].len == lens[i] < U16)
    && (forall i :: 0 <= i < |nodes| ==> nodes[i].next == NodeAt(nodes, i + 1))
  }

  /** Every buffer knows the length from itself to the end, modulo 2^16. */
  ghost predicate Totalled(nodes: seq<Pbuf>, lens: seq<nat>)
    requires |nodes| == |lens|
    reads nodes`totLen
  {
    forall i :: 0 <= i < |nodes| ==> nodes[i].totLen == Total(lens, i)
  }

  /** The last buffer gets a successor. */
  method LinkAfter(end: Pbuf, p: Pbuf, length: nat, ghost nodes: seq<Pbuf>, ghost lens: seq<nat>)
    requires nodes != [] && end == nodes[|nodes| - 1] && Linked(nodes, lens)
    requires p !in nodes && p.next == null && p.len == length < U16
    modifies end`next
    ensures Linked(nodes + [p], lens + [length])
  {
    end.next := p;
    ghost var n := |nodes|;
    ghost var more := nodes + [p];
    assert forall i :: 0 <= i < n ==> more[i] == nodes[i] && more[i] != p;
    assert more[n - 1].next == NodeAt(more, n);
  }

  /** A chain from `start` to `end`, with every total up to date. */
  ghost predicate Chain(start: Pbuf?, end: Pbuf?, nodes: seq<Pbuf>, lens: seq<nat>)
    reads nodes
  {
    && Linked(nodes, lens) && Totalled(nodes, lens)
    && if nodes == [] then start == null else start == nodes[0] && end == nodes[|nodes| - 1]
  }

  /** A new buffer at the end of the chain, with no total yet. */
  method Attach(start: Pbuf?, end: Pbuf?, p: Pbuf, length: nat, ghost nodes: seq<Pbuf>, ghost lens: seq<nat>)
    returns (start': Pbuf, end': Pbuf)
    requires Chain(start, end, nodes, lens) && p !in nodes && length < U16
    modifies p, nodes`next
    ensures Linked(nodes + [p], lens + [length]) && start' == (nodes + [p])[0] && end' == p
    ensures p.totLen == 0 && Totalled(nodes, lens)
  {
    p.next := null;
    p.totLen := 0;
    p.len := length;
    if start == null {
      start' := p;
    } else {
      LinkAfter(end, p, length, nodes, lens);
      start' := start;
    }
    end' := p;
  }

  /**
    The receive callback, on the chain's two end pointers: one more buffer at the end, and
    every total brought up to date.
   */
  method RxLink(start: Pbuf?, end: Pbuf?, p: Pbuf, length: nat, ghost nodes: seq<Pbuf>, ghost lens: seq<nat>)
    returns (start': Pbuf, end': Pbuf)
    requires Chain(start, end, nodes, lens) && p !in nodes && length < U16
    modifies p, nodes
    ensures Chain(start', end', nodes + [p], lens + [length])
  {
    start', end' := Attach(start, end, p, length, nodes, lens);
    ghost var more, sizes := nodes + [p], lens + [length];
    PendingAll(nodes, lens, p, length);
    AddToAll(start', length, more, sizes);
  }

  ghost predicate Distinct(buffers: seq<Pbuf>) {
    forall i, j :: 0 <= i < j < |buffers| ==> buffers[i] != buffers[j]
  }

  predicate Short(lengths: seq<nat>) {
    forall i :: 0 <= i < |lengths| ==> lengths[i] < U16
  }

  lemma NotYetLinked(buffers: seq<Pbuf>, lengths: seq<nat>, i: nat)
    requires i < |buffers| == |lengths| && Distinct(buffers)
    ensures buffers[i] !in buffers[..i]
    ensures buffers[..i + 1] == buffers[..i] + [buffers[i]] && lengths[..i + 1] == lengths[..i] + [lengths[i]]
  {
  }

  /** The callback on the `i`-th buffer. */
  method RxLinkAt(start: Pbuf?, end: Pbuf?, buffers: seq<Pbuf>, lengths: seq<nat>, i: nat)
    returns (start': Pbuf?, end': Pbuf?)
    requires i < |buffers| == |lengths| && Distinct(buffers) && Short(lengths)
    requires Chain(start, end, buffers[..i], lengths[..i])
    modifies buffers
    ensures Chain(start', end', buffers[..i + 1], lengths[..i + 1])
  {
    NotYetLinked(buffers, lengths, i);
    start', end' := RxLink(start, end, buffers[i], lengths[i], buffers[..i], lengths[..i]);
  }

  /** Any run of receive callbacks on distinct buffers. */
  method RxLinkAll(buffers: seq<Pbuf>, lengths: seq<nat>) returns (start: Pbuf?, end: Pbuf?)
    requires |buffers| == |lengths| && Distinct(buffers) && Short(lengths)
    modifies buffers
    ensures Chain(start, end, buffers, lengths)
  {
    start, end := null, null;
    for i := 0 to |buffers|
      invariant Chain(start, end, buffers[..i], lengths[..i])
    {
      start, end := RxLinkAt(start, end, buffers, lengths, i);
    }
    assert buffers[..|buffers|] == buffers && lengths[..|buffers|] == lengths;
  }

  /** The loop over the chain that adds the new length to every total. */
  method AddToAll(start: Pbuf?, length: nat, ghost nodes: seq<Pbuf>, ghost lens: seq<nat>)
    requires Linked(nodes, lens) && nodes != [] && start == nodes[0] && lens[|lens| - 1] == length
    requires Pending(nodes, lens)
    modifies nodes`totLen
    ensures Linked(nodes, lens) && Totalled(nodes, lens)
  {
    var p := start;
    ghost var k := 0;
    while p != null
      invariant 0 <= k <= |nodes| && p == NodeAt(nodes, k)
      invariant forall i :: 0 <= i < k ==> nodes[i].totLen == Total(lens, i)
      invariant forall i :: k <= i < |nodes| ==> nodes[i].totLen == Before(lens, i)
      decreases |nodes| - k
    {
      TotalNext(lens, k);
      p.totLen := Add16(p.totLen, length);
      p := p.next;
      k := k + 1;
    }
  }

  /** A total before the last length is added to it. */
  function Before(lens: seq<nat>, i: nat): nat
    requires i < |lens|
  {
    var n := |lens| - 1;
    if i < n then Total(lens[..n], i) else 0
  }

  /** The totals still miss the last length. */
  ghost predicate Pending(nodes: seq<Pbuf>, lens: seq<nat>)
    requires |nodes| == |lens|
    reads nodes`totLen
  {
    forall i :: 0 <= i < |nodes| ==> nodes[i].totLen == Before(lens, i)
  }

  lemma PendingAll(nodes: seq<Pbuf>, lens: seq<nat>, p: Pbuf, length: nat)
    requires |nodes| == |lens| && Totalled(nodes, lens) && p.totLen == 0
    ensures Pending(nodes + [p], lens + [length])
  {
    assert (lens + [length])[..|lens|] == lens;
  }

  lemma TotalNext(lens: seq<nat>, k: nat)
    requires k < |lens|
    ensures var n := |lens| - 1;
            Total(lens, k) == Add16(Before(lens, k), lens[n])
  {
    var n := |lens| - 1;
    assert lens == lens[..n] + [lens[n]];
    SumFromAppend(lens[..n], lens[n], k);
  }

  datatype TxBuffer = TxBuffer(payload: nat, len: nat, next: Option<nat>)

  /** Descriptors for the first buffers of a chain, each pointing at the next, the last at none. */
  ghost predicate DescribesSome(tx: seq<TxBuffer>, nodes: seq<Pbuf>, lens: seq<nat>) {
    && |tx| <= |nodes| == |lens|
    && forall i :: 0 <= i < |tx| ==>
         tx[i] == TxBuffer(nodes[i].payload, lens[i], if i + 1 < |tx| then Some(i + 1) else None)
  }

  /** The descriptors a chain needs: one for each buffer. */
  ghost predicate Describes(tx: seq<TxBuffer>, nodes: seq<Pbuf>, lens: seq<nat>) {
    DescribesSome(tx, nodes, lens) && |tx| == |nodes|
  }

  /** One descriptor more, hooked to the one before it. */
  function Hook(tx: seq<TxBuffer>, payload: nat, len: nat): seq<TxBuffer> {
    var n := |tx|;
    (if n == 0 then [] else tx[n - 1 := tx[n - 1].(next := Some(n))]) + [TxBuffer(payload, len, None)]
  }

  lemma HookDescribes(tx: seq<TxBuffer>, nodes: seq<Pbuf>, lens: seq<nat>)
    requires DescribesSome(tx, nodes, lens) && |tx| < |nodes|
    ensures DescribesSome(Hook(tx, nodes[|tx|].payload, lens[|tx|]), nodes, lens)
  {
  }

  /** One round of the loop. */
  method Fill(tx: array<TxBuffer>, i: nat, payload: nat, len: nat)
    requires i < tx.Length
    modifies tx
    ensures tx[..i + 1] == Hook(old(tx[..i]), payload, len)
  {
    tx[i] := TxBuffer(payload, len, None);
    if i > 0 {
      tx[i - 1] := tx[i - 1].(next := Some(i));
    }
  }

  /**
    The loop that fills the transmit descriptors; without `ok` the chain was longer than
    they are, which the driver reports as an interface error.
   */
  method FillDescriptors(p: Pbuf, descriptors: nat, ghost nodes: seq<Pbuf>, ghost lens: seq<nat>)
    returns (ok: bool, tx: array<TxBuffer>, count: nat, length: nat)
    requires nodes != [] && p == nodes[0] && Linked(nodes, lens) && Totalled(nodes, lens)
    ensures ok <==> |nodes| <= descriptors
    ensures ok ==>
              count <= tx.Length == descriptors && Describes(tx[..count], nodes, lens) && length == Total(lens, 0)
    ensures fresh(tx)
  {
    tx := new TxBuffer[descriptors](_ => TxBuffer(0, 0, None));
    var q: Pbuf? := p;
    count, ok, length := 0, true, 0;
    while q != null
      invariant 0 <= count <= |nodes| && count <= descriptors && q == NodeAt(nodes, count)
      invariant DescribesSome(tx[..count], nodes, lens)
      decreases |nodes| - count
    {
      if count >= descriptors {
        ok := false;
        return;
      }
      HookDescribes(tx[..count], nodes, lens);
      Fill(tx, count, q.payload, q.len);
      q := q.next;
      count := count + 1;
    }
    length := p.totLen;
  }

  function TxLength(tx: seq<TxBuffer>, i: nat): nat
    requires i <= |tx|
    decreases |tx| - i
  {
    if i == |tx| then 0 else tx[i].len + TxLength(tx, i + 1)
  }

  lemma {:induction false} TxLengthIsSum(tx: seq<TxBuffer>, nodes: seq<Pbuf>, lens: seq<nat>, i: nat)
    requires Describes(tx, nodes, lens) && i <= |tx|
    ensures TxLength(tx, i) == SumFrom(lens, i)
    decreases |tx| - i
  {
    if i < |tx| { TxLengthIsSum(tx, nodes, lens, i + 1); }
  }

  /**
    The descriptors' lengths add up to the configured frame length if and only if the whole
    chain is shorter than 2^16 bytes; a longer one wraps the 16-bit total.
   */
  lemma FrameLengthIff(tx: seq<TxBuffer>, nodes: seq<Pbuf>, lens: seq<nat>)
    requires Describes(tx, nodes, lens)
    ensures TxLength(tx, 0) == Total(lens, 0) <==> SumFrom(lens, 0) < U16
  {
    TxLengthIsSum(tx, nodes, lens, 0);
  }

  /** A chain linked by the receive callback and handed to the transmit descriptors. */
  method ReceiveAndFill(buffers: seq<Pbuf>, lens: seq<nat>, descriptors: nat)
    returns (ok: bool, tx: array<TxBuffer>, count: nat, length: nat)
    requires buffers != [] && |buffers| == |lens| && Distinct(buffers) && Short(lens)
    modifies buffers
    ensures ok <==> |buffers| <= descriptors
    ensures ok ==> count <= tx.Length && TxLength(tx[..count], 0) == SumFrom(lens, 0) && length == Total(lens, 0)
  {
    var start, end := RxLinkAll(buffers, lens);
    ok, tx, count, length := FillDescriptors(start, descriptors, buffers, lens);
    if ok { TxLengthIsSum(tx[..count], buffers, lens, 0); }
  }

  lemma TwoLongBuffers()
    ensures SumFrom([40000, 40000], 0) == 80000 && Total([40000, 40000], 0) == 14464
  {
    assert SumFrom([40000, 40000], 2) == 0 && SumFrom([40000, 40000], 1) == 40000;
  }

  /** A frame of 80000 bytes in two buffers is configured as one of 14464. */
  method LongFrame() returns (tx: array<TxBuffer>, count: nat, length: nat)
    ensures count <= tx.Length && TxLength(tx[..count], 0) == 80000 && length == 14464
  {
    var first := new Pbuf(0);
    var second := new Pbuf(1);
    TwoLongBuffers();
    var ok;
    ok, tx, count, length := ReceiveAndFill([first, second], [40000, 40000], 2);
  }
}
