/** How often a credit is advertised: a bound on the frames of a whole run. */
module QuicAmortised {
  import opened QuicVarint
  import opened QuicCredit

  /**
    A call on one credit; `degraded` is whether the network quality is high RTT or worse,
    `room` whether the frame fits the caller's buffer.
   */
  datatype Call = Consumes(bytes: u64) | Adjusts(degraded: bool) | Sends(room: bool, force: bool)

  /** The credit, the unforced frames it produced and the adjustments that changed its window. */
  datatype Ledger = Ledger(credit: Credit, frames: nat, doublings: nat)

  function Do(l: Ledger, most: u64, call: Call): Ledger {
    match call
    case Consumes(bytes) => l.(credit := Consume(l.credit, bytes))
    case Adjusts(degraded) =>
      if !degraded then l
      else
        var c := Grow(l.credit, most);
        Ledger(c, l.frames, if c.window != l.credit.window then l.doublings + 1 else l.doublings)
    case Sends(room, force) =>
      if !room || !(force || Due(l.credit)) then l
      else Ledger(Advertise(l.credit), if force then l.frames else l.frames + 1, l.doublings)
  }

  function Start(window: u64): Ledger {
    Ledger(Credit(0, window, window), 0, 0)
  }

  /** The calls up to the last one, in order. */
  function DoAll(window: u64, most: u64, calls: seq<Call>): Ledger {
    if calls == [] then Start(window)
    else Do(DoAll(window, most, calls[..|calls| - 1]), most, calls[|calls| - 1])
  }

  predicate InRange(calls: seq<Call>) {
    forall i :: 0 <= i < |calls| ==> calls[i].Consumes? ==> calls[i].bytes <= MAX_VARINT
  }

  function HalfUp(window: u64): nat {
    (window + 1) / 2
  }

  /**
    `base` is what had been consumed when the limit was last set, `grown` whether the
    window has changed since. Each frame is paid for by a doubling or by half a window
    consumed since the frame before it.
   */
  predicate Paid(l: Ledger, window: u64, base: nat, grown: bool) {
    && base <= l.credit.consumed && window <= l.credit.window
    && (grown ==> l.doublings > 0)
    && (!grown ==> l.credit.limit == Min(base + l.credit.window, MAX_VARINT))
    && l.frames * HalfUp(window) <= (l.doublings - (if grown then 1 else 0)) * HalfUp(window) + base
  }

  /** Half a window is still to come before the varint maximum. */
  predicate Unsaturated(c: Credit) {
    Sound(c) && c.consumed + c.window / 2 < MAX_VARINT
  }

  /** Nothing a call does makes a credit unsound or takes its counter or window back. */
  lemma DoSound(l: Ledger, most: u64, call: Call)
    requires Sound(l.credit) && l.credit.window <= most <= MAX_VARINT
    requires call.Consumes? ==> call.bytes <= MAX_VARINT
    ensures var l' := Do(l, most, call);
            && Sound(l'.credit) && l'.credit.window <= most
            && l.credit.consumed <= l'.credit.consumed && l.credit.window <= l'.credit.window
  {
    match call
    case Consumes(bytes) => ConsumeSound(l.credit, bytes);
    case Adjusts(_) => GrowSound(l.credit, most);
    case Sends(_, _) => ClampNeverFires(l.credit);
  }

  lemma {:induction false} AllSound(window: u64, most: u64, calls: seq<Call>)
    requires 0 < window <= most <= MAX_VARINT && InRange(calls)
    ensures Sound(DoAll(window, most, calls).credit) && DoAll(window, most, calls).credit.window <= most
  {
    if calls != [] {
      var n := |calls| - 1;
      AllSound(window, most, calls[..n]);
      DoSound(DoAll(window, most, calls[..n]), most, calls[n]);
    }
  }

  lemma MulSucc(n: int, h: nat)
    ensures (n + 1) * h == n * h + h
  {
  }

  lemma PaidConsume(l: Ledger, window: u64, most: u64, base: nat, grown: bool, bytes: u64)
    requires Paid(l, window, base, grown) && Unsaturated(l.credit) && bytes <= MAX_VARINT
    ensures Paid(Do(l, most, Consumes(bytes)), window, base, grown)
  {
    ConsumeSound(l.credit, bytes);
  }

  lemma PaidAdjust(l: Ledger, window: u64, most: u64, base: nat, grown: bool)
    requires Paid(l, window, base, grown) && Unsaturated(l.credit) && l.credit.window <= most <= MAX_VARINT
    ensures var l' := Do(l, most, Adjusts(true));
            Paid(l', window, base, grown || l'.credit.window != l.credit.window)
  {
    GrowSound(l.credit, most);
    MulSucc(l.doublings - 1, HalfUp(window));
  }

  /** An unforced frame with an unchanged window comes half a window after the last limit. */
  lemma PaidSend(l: Ledger, window: u64, most: u64, base: nat, grown: bool, force: bool)
    requires Paid(l, window, base, grown) && Unsaturated(l.credit) && (force || Due(l.credit))
    ensures Paid(Do(l, most, Sends(true, force)), window, l.credit.consumed, false)
  {
    var c := l.credit;
    ClampNeverFires(c);
    DueExact(c);
    MulSucc(l.frames, HalfUp(window));
    MulSucc(l.doublings - 1, HalfUp(window));
    HalfOfMore(window, c.window);
  }

  lemma HalfOfMore(window: nat, more: nat)
    requires window <= more
    ensures (window + 1) / 2 <= more - more / 2
  {
  }

  lemma {:induction false} PaidAll(window: u64, most: u64, calls: seq<Call>) returns (base: nat, grown: bool)
    requires 0 < window <= most <= MAX_VARINT && InRange(calls)
    requires Unsaturated(DoAll(window, most, calls).credit)
    ensures Paid(DoAll(window, most, calls), window, base, grown)
  {
    base, grown := 0, false;
    if calls != [] {
      var n := |calls| - 1;
      var call := calls[n];
      var l := DoAll(window, most, calls[..n]);
      AllSound(window, most, calls[..n]);
      DoSound(l, most, call);
      base, grown := PaidAll(window, most, calls[..n]);
      if call.Consumes? {
        PaidConsume(l, window, most, base, grown, call.bytes);
      } else if call.Adjusts? && call.degraded {
        PaidAdjust(l, window, most, base, grown);
        grown := grown || Do(l, most, call).credit.window != l.credit.window;
      } else if call.Sends? && call.room && (call.force || Due(l.credit)) {
        PaidSend(l, window, most, base, grown, call.force);
        base, grown := l.credit.consumed, false;
      }
    }
  }

  lemma Distribute(a: int, b: int, h: nat)
    ensures (a - b) * h == a * h - b * h
  {
  }

  lemma SmallFactor(x: int, h: nat)
    requires x * h < h
    ensures x <= 0
  {
  }

  lemma QuotientBound(a: int, b: nat, h: nat)
    requires 0 < h && a * h <= b
    ensures a <= b / h
  {
    var q := b / h;
    assert (a - q) * h == a * h - q * h;
    assert b == q * h + b % h;
    SmallFactor(a - q, h);
  }

  /** One frame for each doubling of the window and one for each half of the first window consumed. */
  function Allowance(l: Ledger, window: u64): nat
    requires window > 0
  {
    l.doublings + l.credit.consumed / HalfUp(window)
  }

  predicate Bounded(l: Ledger, window: u64)
    requires window > 0
  {
    l.frames <= Allowance(l, window)
  }

  lemma {:induction false} FrameBound(window: u64, most: u64, calls: seq<Call>)
    requires 0 < window <= most <= MAX_VARINT && InRange(calls)
    requires Unsaturated(DoAll(window, most, calls).credit)
    ensures Bounded(DoAll(window, most, calls), window)
  {
    var base, grown := PaidAll(window, most, calls);
    var l := DoAll(window, most, calls);
    var h := HalfUp(window);
    MulSucc(l.doublings - 1, h);
    Distribute(l.frames, l.doublings, h);
    QuotientBound(l.frames - l.doublings, l.credit.consumed, h);
  }

  const ASK := Sends(true, false)

  /** The calls, and then `n` more that ask for an unforced frame. */
  function Asking(calls: seq<Call>, n: nat): (asked: seq<Call>)
    ensures InRange(calls) ==> InRange(asked)
  {
    if n == 0 then calls else Asking(calls, n - 1) + [ASK]
  }

  /** Asking for a frame `n` times. */
  function Asked(l: Ledger, most: u64, n: nat): Ledger {
    if n == 0 then l else Do(Asked(l, most, n - 1), most, ASK)
  }

  lemma {:induction false} AskingIsAsked(window: u64, most: u64, calls: seq<Call>, n: nat)
    ensures DoAll(window, most, Asking(calls, n)) == Asked(DoAll(window, most, calls), most, n)
  {
    if n > 0 {
      var before := Asking(calls, n - 1);
      assert (before + [ASK])[..|before|] == before;
      AskingIsAsked(window, most, calls, n - 1);
    }
  }

  /** The same counter, window and doublings. */
  predicate SameButFrames(l: Ledger, l': Ledger) {
    l'.doublings == l.doublings && l'.credit.consumed == l.credit.consumed && l'.credit.window == l.credit.window
  }

  lemma AskOnce(l: Ledger, most: u64)
    requires Sound(l.credit)
    ensures Sound(Do(l, most, ASK).credit) && SameButFrames(l, Do(l, most, ASK))
    ensures !Unsaturated(l.credit) ==> Do(l, most, ASK).frames == l.frames + 1
  {
    ClampNeverFires(l.credit);
    DueExact(l.credit);
  }

  /** Once half a window reaches the varint maximum, every call sends a frame again. */
  lemma {:induction false} SaturatedRepeats(l: Ledger, most: u64, n: nat)
    requires Sound(l.credit)
    ensures Sound(Asked(l, most, n).credit) && SameButFrames(l, Asked(l, most, n))
    ensures l.credit.consumed + l.credit.window / 2 >= MAX_VARINT ==> Asked(l, most, n).frames == l.frames + n
  {
    if n > 0 {
      SaturatedRepeats(l, most, n - 1);
      AskOnce(Asked(l, most, n - 1), most);
    }
  }

  lemma BoundedWhileAsking(window: u64, most: u64, calls: seq<Call>, n: nat)
    requires 0 < window <= most <= MAX_VARINT && InRange(calls)
    requires Unsaturated(DoAll(window, most, calls).credit)
    ensures Bounded(DoAll(window, most, Asking(calls, n)), window)
  {
    AskingIsAsked(window, most, calls, n);
    SaturatedRepeats(DoAll(window, most, calls), most, n);
    FrameBound(window, most, Asking(calls, n));
  }

  lemma UnboundedByAsking(window: u64, most: u64, calls: seq<Call>) returns (n: nat)
    requires 0 < window <= most <= MAX_VARINT && InRange(calls)
    requires !Unsaturated(DoAll(window, most, calls).credit)
    ensures !Bounded(DoAll(window, most, Asking(calls, n)), window)
  {
    var l := DoAll(window, most, calls);
    AllSound(window, most, calls);
    n := Allowance(l, window) + 1;
    AskingIsAsked(window, most, calls, n);
    SaturatedRepeats(l, most, n);
    assert Allowance(Asked(l, most, n), window) == Allowance(l, window);
  }

  /**
    After any calls, the bound holds however often a frame is asked for, if and only if half
    a window is still to come before the varint maximum.
   */
  lemma {:induction false} FrameBoundIff(window: u64, most: u64, calls: seq<Call>)
    requires 0 < window <= most <= MAX_VARINT && InRange(calls)
    ensures var c := DoAll(window, most, calls).credit;
            (forall n: nat :: Bounded(DoAll(window, most, Asking(calls, n)), window)) <==>
              c.consumed + c.window / 2 < MAX_VARINT
  {
    AllSound(window, most, calls);
    if Unsaturated(DoAll(window, most, calls).credit) {
      forall n: nat
        ensures Bounded(DoAll(window, most, Asking(calls, n)), window)
      {
        BoundedWhileAsking(window, most, calls, n);
      }
    } else {
      var n := UnboundedByAsking(window, most, calls);
    }
  }

  /** An input past the guard: everything a varint can count has been consumed. */
  lemma {:induction false} FrameBoundFails(window: u64, most: u64) returns (n: nat)
    requires 0 < window <= most <= MAX_VARINT
    ensures !Bounded(DoAll(window, most, Asking([Consumes(MAX_VARINT)], n)), window)
  {
    var calls := [Consumes(MAX_VARINT)];
    var none: seq<Call> := [];
    assert calls[..0] == none && DoAll(window, most, none) == Start(window);
    ConsumeSound(Start(window).credit, MAX_VARINT);
    n := UnboundedByAsking(window, most, calls);
  }

  function Pow2(k: nat): nat {
    if k == 0 then 1 else 2 * Pow2(k - 1)
  }

  function DegradedAdjusts(calls: seq<Call>): nat {
    if calls == [] then 0
    else DegradedAdjusts(calls[..|calls| - 1]) + (if calls[|calls| - 1] == Adjusts(true) then 1 else 0)
  }

  lemma PowGrows(window: nat, k: nat)
    ensures window * Pow2(k + 1) == 2 * (window * Pow2(k)) && window <= window * Pow2(k)
    decreases k
  {
    assert Pow2(k + 1) == 2 * Pow2(k);
    if k > 0 { PowGrows(window, k - 1); }
  }

  lemma GrowsAsPower(c: Credit, window: u64, most: u64, k: nat)
    requires Sound(c) && 0 < window <= most <= MAX_VARINT && c.window == Min(most, window * Pow2(k))
    ensures Grow(c, most).window == Min(most, window * Pow2(k + 1))
    ensures Grow(c, most).window != c.window <==> window * Pow2(k) < most
  {
    GrowSound(c, most);
    PowGrows(window, k);
  }

  /**
    The window after `k` adjustments at high RTT or worse is the first one doubled `k`
    times, capped; so there are no more doublings than it takes to reach the cap.
   */
  lemma {:induction false} WindowAfter(window: u64, most: u64, calls: seq<Call>)
    requires 0 < window <= most <= MAX_VARINT && InRange(calls)
    ensures var l := DoAll(window, most, calls);
            && l.credit.window == Min(most, window * Pow2(DegradedAdjusts(calls)))
            && l.credit.window == Min(most, window * Pow2(l.doublings))
            && (l.doublings > 0 ==> window * Pow2(l.doublings - 1) < most)
  {
    if calls != [] {
      var n := |calls| - 1;
      WindowAfter(window, most, calls[..n]);
      AllSound(window, most, calls[..n]);
      var l := DoAll(window, most, calls[..n]);
      GrowsAsPower(l.credit, window, most, DegradedAdjusts(calls[..n]));
      GrowsAsPower(l.credit, window, most, l.doublings);
    }
  }
}
