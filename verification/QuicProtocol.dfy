/**
  A receiver that runs the flow control of one connection and its streams, against a peer
  that honours the largest limit it has decoded, over a channel that may lose, duplicate
  and reorder frames (RFC 9000, section 4.1).
 */
module QuicProtocol {
  import opened Basics
  import opened QuicWire
  import opened QuicVarint
  import opened QuicCredit

  /** One credit, its largest window, and the peer's side of it. */
  datatype Side = Side(credit: Credit, most: u64, sent: nat, peerLimit: nat)

  /** `channel` holds every frame ever sent; any of them may arrive at any time, or never. */
  datatype System = System(conn: Side, ids: seq<nat>, streams: seq<Side>, channel: set<seq<byte>>)

  datatype Action =
    | Open(id: nat, window: u64, most: u64)
    | PeerSends(stream: nat, bytes: nat)
    | ConsumesConn(bytes: nat)
    | ConsumesStream(stream: nat, bytes: nat)
    | Adjusts(stream: nat)
    | Advertises(bufLen: nat, force: bool)
    | AdvertisesStream(stream: nat, bufLen: nat, force: bool)
    | Delivers(frame: seq<byte>)

  function Opened(window: u64, most: u64): Side {
    var w := ClampWindow(window);
    Side(Credit(0, w, w), if ClampWindow(most) < w then w else ClampWindow(most), 0, w)
  }

  function Initial(window: u64, most: u64): System {
    System(Opened(window, most), [], [], {})
  }

  /** What may happen: the peer respects both limits, and only what arrived is consumed. */
  predicate Enabled(s: System, a: Action)
    requires |s.ids| == |s.streams|
  {
    match a
    case Open(id, window, most) => id !in s.ids && id <= MAX_VARINT && window <= MAX_VARINT && most <= MAX_VARINT
    case PeerSends(i, n) =>
      i < |s.streams| && s.streams[i].sent + n <= s.streams[i].peerLimit && s.conn.sent + n <= s.conn.peerLimit
    case ConsumesConn(n) => s.conn.credit.consumed + n <= s.conn.sent
    case ConsumesStream(i, n) => i < |s.streams| && s.streams[i].credit.consumed + n <= s.streams[i].sent
    case Adjusts(_) => true
    case Advertises(_, _) => true
    case AdvertisesStream(i, _, _) => i < |s.streams|
    case Delivers(f) => f in s.channel
  }

  function Sends(x: Side, n: nat): Side {
    x.(sent := x.sent + n)
  }

  function Eats(x: Side, n: nat): Side {
    if n < U64 then x.(credit := Consume(x.credit, n)) else x
  }

  function Grows(x: Side): Side {
    x.(credit := Grow(x.credit, x.most))
  }

  /** Whether a call produces its frame. */
  predicate Produces(c: Credit, f: Frame, bufLen: nat, force: bool) {
    (force || Due(c)) && |Encode(f)| <= bufLen
  }

  function Raises(x: Side, limit: nat): Side {
    if x.peerLimit < limit then x.(peerLimit := limit) else x
  }

  function Receive(s: System, f: Frame): System
    requires |s.ids| == |s.streams|
  {
    match f
    case MaxData(limit) => s.(conn := Raises(s.conn, limit))
    case MaxStreamData(id, limit) => s.(streams := ReceiveStream(s.ids, s.streams, id, limit))
  }

  function ReceiveStream(ids: seq<nat>, streams: seq<Side>, id: nat, limit: nat): (r: seq<Side>)
    requires |ids| == |streams|
    ensures |r| == |streams|
    ensures forall i :: 0 <= i < |r| ==> r[i] == if ids[i] == id then Raises(streams[i], limit) else streams[i]
  {
    if ids == [] then []
    else [if ids[0] == id then Raises(streams[0], limit) else streams[0]]
         + ReceiveStream(ids[1..], streams[1..], id, limit)
  }

  function Apply(s: System, a: Action): (s': System)
    requires |s.ids| == |s.streams| && Enabled(s, a)
    ensures |s'.ids| == |s'.streams| && s'.conn.most == s.conn.most
  {
    match a
    case Open(id, window, most) => s.(ids := s.ids + [id], streams := s.streams + [Opened(window, most)])
    case PeerSends(i, n) =>
      s.(conn := Sends(s.conn, n), streams := s.streams[i := Sends(s.streams[i], n)])
    case ConsumesConn(n) => s.(conn := Eats(s.conn, n))
    case ConsumesStream(i, n) => s.(streams := s.streams[i := Eats(s.streams[i], n)])
    case Adjusts(i) =>
      // An index beyond the streams stands for the call that adjusts the connection alone.
      s.(conn := Grows(s.conn),
         streams := if i < |s.streams| then s.streams[i := Grows(s.streams[i])] else s.streams)
    case Advertises(bufLen, force) =>
      var c := s.conn.credit;
      var f := MaxData(NewLimit(c));
      if !Produces(c, f, bufLen, force) then s
      else s.(conn := s.conn.(credit := Advertise(c)), channel := s.channel + {Encode(f)})
    case AdvertisesStream(i, bufLen, force) =>
      var c := s.streams[i].credit;
      var f := MaxStreamData(s.ids[i], NewLimit(c));
      if !Produces(c, f, bufLen, force) then s
      else s.(streams := s.streams[i := s.streams[i].(credit := Advertise(c))], channel := s.channel + {Encode(f)})
    case Delivers(f) =>
      match Decode(f)
      case None => s
      case Some((frame, _)) => Receive(s, frame)
  }

  /** consumed <= sent <= peer limit <= limit <= consumed + window, and window <= most. */
  predicate SideOk(x: Side) {
    && Sound(x.credit)
    && x.credit.consumed <= x.sent <= x.peerLimit <= x.credit.limit
    && x.credit.window <= x.most <= MAX_VARINT
  }

  function Sent(xs: seq<Side>): nat {
    if xs == [] then 0 else xs[0].sent + Sent(xs[1..])
  }

  function UnreadAll(xs: seq<Side>): int {
    if xs == [] then 0 else Unread(xs[0]) + UnreadAll(xs[1..])
  }

  lemma {:induction false} UnreadIsRest(xs: seq<Side>)
    ensures UnreadAll(xs) == Sent(xs) - Consumed(xs)
    decreases |xs|
  {
    if xs != [] { UnreadIsRest(xs[1..]); }
  }

  function Consumed(xs: seq<Side>): nat {
    if xs == [] then 0 else xs[0].credit.consumed + Consumed(xs[1..])
  }

  /** A frame on the channel never promises more than its credit's limit. */
  ghost predicate Backed(s: System, f: Frame)
    requires |s.ids| == |s.streams|
  {
    match f
    case MaxData(limit) => limit <= s.conn.credit.limit
    case MaxStreamData(id, limit) =>
      id <= MAX_VARINT && exists i :: 0 <= i < |s.ids| && s.ids[i] == id && limit <= s.streams[i].credit.limit
  }

  ghost predicate Truthful(s: System)
    requires |s.ids| == |s.streams|
  {
    forall b :: b in s.channel ==> exists f: Frame :: b == Encode(f) && f.limit <= MAX_VARINT && Backed(s, f)
  }

  predicate Distinct(ids: seq<nat>) {
    forall i, j :: 0 <= i < j < |ids| ==> ids[i] != ids[j]
  }

  predicate SidesOk(s: System) {
    && SideOk(s.conn)
    && (forall i :: 0 <= i < |s.streams| ==> SideOk(s.streams[i]))
    && s.conn.sent == Sent(s.streams)
  }

  ghost predicate Inv(s: System) {
    && |s.ids| == |s.streams| && Distinct(s.ids) && (forall i :: 0 <= i < |s.ids| ==> s.ids[i] <= MAX_VARINT)
    && SidesOk(s) && Truthful(s)
  }

  lemma {:induction false} SumUpdate(xs: seq<Side>, i: nat, x: Side)
    requires i < |xs|
    ensures Sent(xs[i := x]) == Sent(xs) - xs[i].sent + x.sent
    ensures Consumed(xs[i := x]) == Consumed(xs) - xs[i].credit.consumed + x.credit.consumed
    decreases |xs|
  {
    var ys := xs[i := x];
    if i == 0 {
      assert ys[1..] == xs[1..];
    } else {
      assert ys[1..] == xs[1..][i - 1 := x];
      SumUpdate(xs[1..], i - 1, x);
    }
  }

  lemma {:induction false} SumAppend(xs: seq<Side>, x: Side)
    ensures Sent(xs + [x]) == Sent(xs) + x.sent
    ensures Consumed(xs + [x]) == Consumed(xs) + x.credit.consumed
    decreases |xs|
  {
    if xs == [] {
      assert (xs + [x])[1..] == [];
    } else {
      assert (xs + [x])[1..] == xs[1..] + [x];
      SumAppend(xs[1..], x);
    }
  }

  /** Limits only go up, and no stream is renamed, so what was backed stays backed. */
  lemma TruthfulKept(s: System, s': System)
    requires |s.ids| == |s.streams| && |s'.ids| == |s'.streams| && |s.ids| <= |s'.ids|
    requires Truthful(s) && s'.channel == s.channel && s.conn.credit.limit <= s'.conn.credit.limit
    requires forall i :: 0 <= i < |s.ids| ==>
               s'.ids[i] == s.ids[i] && s.streams[i].credit.limit <= s'.streams[i].credit.limit
    ensures Truthful(s')
  {
    forall b | b in s'.channel
      ensures exists f: Frame :: b == Encode(f) && f.limit <= MAX_VARINT && Backed(s', f)
    {
      var f: Frame :| b == Encode(f) && f.limit <= MAX_VARINT && Backed(s, f);
      assert Backed(s', f);
    }
  }

  lemma TruthfulPlus(s: System, f: Frame)
    requires |s.ids| == |s.streams| && Truthful(s) && f.limit <= MAX_VARINT && Backed(s, f)
    ensures Truthful(s.(channel := s.channel + {Encode(f)}))
  {
    var s' := s.(channel := s.channel + {Encode(f)});
    forall b | b in s'.channel
      ensures exists g: Frame :: b == Encode(g) && g.limit <= MAX_VARINT && Backed(s', g)
    {
      if b in s.channel {
        var g: Frame :| b == Encode(g) && g.limit <= MAX_VARINT && Backed(s, g);
        assert Backed(s', g);
      } else {
        assert Backed(s', f);
      }
    }
  }

  lemma OpenedOk(window: u64, most: u64)
    requires window <= MAX_VARINT && most <= MAX_VARINT
    ensures SideOk(Opened(window, most)) && Opened(window, most).sent == 0
  {
  }

  lemma OpenKeeps(s: System, a: Action)
    requires Inv(s) && a.Open? && Enabled(s, a)
    ensures Inv(Apply(s, a))
  {
    OpenedOk(a.window, a.most);
    SumAppend(s.streams, Opened(a.window, a.most));
    TruthfulKept(s, Apply(s, a));
  }

  lemma PeerSendsKeeps(s: System, a: Action)
    requires Inv(s) && a.PeerSends? && Enabled(s, a)
    ensures Inv(Apply(s, a))
  {
    SumUpdate(s.streams, a.stream, Sends(s.streams[a.stream], a.bytes));
    TruthfulKept(s, Apply(s, a));
  }

  lemma EatsOk(x: Side, n: nat)
    requires SideOk(x) && x.credit.consumed + n <= x.sent
    ensures SideOk(Eats(x, n)) && Eats(x, n).credit.consumed == x.credit.consumed + n
  {
    ConsumeSound(x.credit, n);
  }

  lemma ConsumesConnKeeps(s: System, a: Action)
    requires Inv(s) && a.ConsumesConn? && Enabled(s, a)
    ensures Inv(Apply(s, a))
  {
    EatsOk(s.conn, a.bytes);
    TruthfulKept(s, Apply(s, a));
  }

  lemma ConsumesStreamKeeps(s: System, a: Action)
    requires Inv(s) && a.ConsumesStream? && Enabled(s, a)
    ensures Inv(Apply(s, a))
  {
    var x := s.streams[a.stream];
    EatsOk(x, a.bytes);
    SumUpdate(s.streams, a.stream, Eats(x, a.bytes));
    TruthfulKept(s, Apply(s, a));
  }

  lemma GrowsOk(x: Side)
    requires SideOk(x)
    ensures SideOk(Grows(x))
  {
    GrowSound(x.credit, x.most);
  }

  lemma AdjustsKeeps(s: System, a: Action)
    requires Inv(s) && a.Adjusts? && Enabled(s, a)
    ensures Inv(Apply(s, a))
  {
    GrowsOk(s.conn);
    if a.stream < |s.streams| {
      GrowsOk(s.streams[a.stream]);
      SumUpdate(s.streams, a.stream, Grows(s.streams[a.stream]));
    }
    TruthfulKept(s, Apply(s, a));
  }

  lemma AdvertisesKeeps(s: System, a: Action)
    requires Inv(s) && a.Advertises? && Enabled(s, a)
    ensures Inv(Apply(s, a))
  {
    var c := s.conn.credit;
    ClampNeverFires(c);
    var s1 := s.(conn := s.conn.(credit := Advertise(c)));
    TruthfulKept(s, s1);
    TruthfulPlus(s1, MaxData(NewLimit(c)));
  }

  lemma AdvertisesStreamKeeps(s: System, a: Action)
    requires Inv(s) && a.AdvertisesStream? && Enabled(s, a)
    ensures Inv(Apply(s, a))
  {
    var i := a.stream;
    var c := s.streams[i].credit;
    ClampNeverFires(c);
    var x := s.streams[i].(credit := Advertise(c));
    SumUpdate(s.streams, i, x);
    var s1 := s.(streams := s.streams[i := x]);
    TruthfulKept(s, s1);
    assert Backed(s1, MaxStreamData(s.ids[i], NewLimit(c)));
    TruthfulPlus(s1, MaxStreamData(s.ids[i], NewLimit(c)));
  }

  lemma RaisesOk(x: Side, limit: nat)
    requires SideOk(x) && limit <= x.credit.limit
    ensures SideOk(Raises(x, limit))
  {
  }

  lemma {:induction false} SumSame(xs: seq<Side>, ys: seq<Side>)
    requires |xs| == |ys|
    requires forall i :: 0 <= i < |xs| ==> xs[i].sent == ys[i].sent && xs[i].credit == ys[i].credit
    ensures Sent(xs) == Sent(ys) && Consumed(xs) == Consumed(ys)
    decreases |xs|
  {
    if xs != [] { SumSame(xs[1..], ys[1..]); }
  }

  lemma ReceiveKeeps(s: System, f: Frame)
    requires Inv(s) && Backed(s, f)
    ensures Inv(Receive(s, f))
  {
    var s' := Receive(s, f);
    if f.MaxStreamData? {
      SumSame(s.streams, s'.streams);
      forall i | 0 <= i < |s'.streams|
        ensures SideOk(s'.streams[i])
      {
        if s.ids[i] == f.id { RaisesOk(s.streams[i], f.limit); }
      }
    }
    TruthfulKept(s, s');
  }

  lemma DeliversKeeps(s: System, a: Action)
    requires Inv(s) && a.Delivers? && Enabled(s, a)
    ensures Inv(Apply(s, a))
  {
    var f: Frame :| a.frame == Encode(f) && f.limit <= MAX_VARINT && Backed(s, f);
    FrameRoundTrip(f, []);
    assert Encode(f) + [] == Encode(f);
    ReceiveKeeps(s, f);
  }

  /** Every step keeps the invariant. */
  lemma StepKeeps(s: System, a: Action)
    requires Inv(s) && Enabled(s, a)
    ensures Inv(Apply(s, a))
  {
    match a
    case Open(_, _, _) => OpenKeeps(s, a);
    case PeerSends(_, _) => PeerSendsKeeps(s, a);
    case ConsumesConn(_) => ConsumesConnKeeps(s, a);
    case ConsumesStream(_, _) => ConsumesStreamKeeps(s, a);
    case Adjusts(_) => AdjustsKeeps(s, a);
    case Advertises(_, _) => AdvertisesKeeps(s, a);
    case AdvertisesStream(_, _, _) => AdvertisesStreamKeeps(s, a);
    case Delivers(_) => DeliversKeeps(s, a);
  }

  /** Limits, once advertised, are never taken back. */
  lemma StepGrows(s: System, a: Action)
    requires Inv(s) && Enabled(s, a)
    ensures s.conn.credit.limit <= Apply(s, a).conn.credit.limit
    ensures |s.streams| <= |Apply(s, a).streams|
    ensures forall i :: 0 <= i < |s.streams| ==> s.streams[i].credit.limit <= Apply(s, a).streams[i].credit.limit
  {
    if a.Advertises? {
      ClampNeverFires(s.conn.credit);
    } else if a.AdvertisesStream? {
      ClampNeverFires(s.streams[a.stream].credit);
    }
  }

  predicate Legal(s: System, run: seq<Action>)
    requires |s.ids| == |s.streams|
    decreases |run|
  {
    run == [] || (Enabled(s, run[0]) && Legal(Apply(s, run[0]), run[1..]))
  }

  function After(s: System, run: seq<Action>): (s': System)
    requires |s.ids| == |s.streams| && Legal(s, run)
    ensures |s'.ids| == |s'.streams| && s'.conn.most == s.conn.most
    decreases |run|
  {
    if run == [] then s else After(Apply(s, run[0]), run[1..])
  }

  lemma {:induction false} RunKeeps(s: System, run: seq<Action>)
    requires Inv(s) && Legal(s, run)
    ensures Inv(After(s, run))
    ensures s.conn.credit.limit <= After(s, run).conn.credit.limit
    ensures |s.streams| <= |After(s, run).streams|
    ensures forall i :: 0 <= i < |s.streams| ==> s.streams[i].credit.limit <= After(s, run).streams[i].credit.limit
    decreases |run|
  {
    if run != [] {
      StepKeeps(s, run[0]);
      StepGrows(s, run[0]);
      RunKeeps(Apply(s, run[0]), run[1..]);
    }
  }

  /** The bytes that arrived and were not consumed yet. */
  function Unread(x: Side): int {
    x.sent - x.credit.consumed
  }

  /**
    In every run, whatever the channel does: the receiver never holds more unread bytes
    than the largest window it was configured with, on the connection or on a stream; and
    when both levels have accounted for the same bytes, the connection's unread bytes are
    those of its streams together.
   */
  lemma {:induction false} NeverOverrun(window: u64, most: u64, run: seq<Action>)
    requires window <= MAX_VARINT && most <= MAX_VARINT && Legal(Initial(window, most), run)
    ensures var s := After(Initial(window, most), run);
            && 0 <= Unread(s.conn) <= Opened(window, most).most
            && (s.conn.credit.consumed == Consumed(s.streams) ==> Unread(s.conn) == UnreadAll(s.streams))
            && forall i :: 0 <= i < |s.streams| ==> 0 <= Unread(s.streams[i]) <= s.streams[i].most
  {
    OpenedOk(window, most);
    RunKeeps(Initial(window, most), run);
    UnreadIsRest(After(Initial(window, most), run).streams);
  }

  // ---------------------------------------------------------------- accounting

  /** The bytes the peer sent in a run, on any stream. */
  function SentIn(run: seq<Action>): nat {
    if run == [] then 0 else (if run[0].PeerSends? then run[0].bytes else 0) + SentIn(run[1..])
  }

  function SentOnStream(run: seq<Action>, i: nat): nat {
    if run == [] then 0
    else (if run[0].PeerSends? && run[0].stream == i then run[0].bytes else 0) + SentOnStream(run[1..], i)
  }

  function ConsumedIn(run: seq<Action>): nat {
    if run == [] then 0 else (if run[0].ConsumesConn? then run[0].bytes else 0) + ConsumedIn(run[1..])
  }

  function ConsumedOnStream(run: seq<Action>, i: nat): nat {
    if run == [] then 0
    else (if run[0].ConsumesStream? && run[0].stream == i then run[0].bytes else 0) + ConsumedOnStream(run[1..], i)
  }

  /** A window after the adjustments of a run. */
  function WindowIn(window: nat, most: nat, run: seq<Action>): nat
    decreases |run|
  {
    if run == [] then window
    else WindowIn(if run[0].Adjusts? && window < most then Min(2 * window, most) else window, most, run[1..])
  }

  function StreamWindowIn(window: nat, most: nat, run: seq<Action>, i: nat): nat
    decreases |run|
  {
    if run == [] then window
    else
      var grows := run[0].Adjusts? && run[0].stream == i && window < most;
      StreamWindowIn(if grows then Min(2 * window, most) else window, most, run[1..], i)
  }

  lemma StepAccounts(s: System, a: Action)
    requires Inv(s) && Enabled(s, a)
    ensures var c, c' := s.conn, Apply(s, a).conn;
            && c'.sent == c.sent + SentIn([a]) && c'.credit.consumed == c.credit.consumed + ConsumedIn([a])
            && c'.credit.window == WindowIn(c.credit.window, c.most, [a]) && c'.most == c.most
  {
    assert [a][1..] == [];
    if a.ConsumesConn? {
      EatsOk(s.conn, a.bytes);
    } else if a.Adjusts? {
      GrowSound(s.conn.credit, s.conn.most);
    }
  }

  /** The connection's counters are what the run's steps add up to, and its window what they make of it. */
  lemma {:induction false} RunAccounts(s: System, run: seq<Action>)
    requires Inv(s) && Legal(s, run)
    ensures var c, c' := s.conn, After(s, run).conn;
            && c'.sent == c.sent + SentIn(run) && c'.credit.consumed == c.credit.consumed + ConsumedIn(run)
            && c'.credit.window == WindowIn(c.credit.window, c.most, run)
    decreases |run|
  {
    if run != [] {
      StepKeeps(s, run[0]);
      StepAccounts(s, run[0]);
      assert [run[0]][1..] == [];
      RunAccounts(Apply(s, run[0]), run[1..]);
    }
  }

  lemma StepAccountsStream(s: System, a: Action, i: nat)
    requires Inv(s) && Enabled(s, a) && i < |s.streams|
    ensures |s.streams| <= |Apply(s, a).streams|
    ensures var x, x' := s.streams[i], Apply(s, a).streams[i];
            && x'.sent == x.sent + SentOnStream([a], i)
            && x'.credit.consumed == x.credit.consumed + ConsumedOnStream([a], i)
            && x'.credit.window == StreamWindowIn(x.credit.window, x.most, [a], i) && x'.most == x.most
  {
    assert [a][1..] == [];
    if a.ConsumesStream? {
      EatsOk(s.streams[a.stream], a.bytes);
    } else if a.Adjusts? {
      GrowSound(s.streams[i].credit, s.streams[i].most);
    }
  }

  /** The same for each stream. */
  lemma {:induction false} RunAccountsStream(s: System, run: seq<Action>, i: nat)
    requires Inv(s) && Legal(s, run) && i < |s.streams|
    ensures |s.streams| <= |After(s, run).streams|
    ensures var x, x' := s.streams[i], After(s, run).streams[i];
            && x'.sent == x.sent + SentOnStream(run, i)
            && x'.credit.consumed == x.credit.consumed + ConsumedOnStream(run, i)
            && x'.credit.window == StreamWindowIn(x.credit.window, x.most, run, i)
    decreases |run|
  {
    if run != [] {
      StepKeeps(s, run[0]);
      StepAccountsStream(s, run[0], i);
      assert [run[0]][1..] == [];
      RunAccountsStream(Apply(s, run[0]), run[1..], i);
    }
  }

  // ---------------------------------------------------------------- lost frames

  /** The peer has used up its limit, and everything it sent has been consumed. */
  predicate Blocked(x: Side) {
    x.credit.consumed == x.sent == x.peerLimit
  }

  /** The frame that the next advertisement carries, if there is one. */
  function NextFrame(s: System): Frame {
    MaxData(NewLimit(s.conn.credit))
  }

  /** A call produces a frame that lets a blocked peer go on once it arrives. */
  predicate Unblocks(s: System, bufLen: nat, force: bool)
    requires |s.ids| == |s.streams|
  {
    var s' := Apply(s, Advertises(bufLen, force));
    && Produces(s.conn.credit, NextFrame(s), bufLen, force)
    && Encode(NextFrame(s)) in s'.channel
    && Apply(s', Delivers(Encode(NextFrame(s)))).conn.peerLimit > s'.conn.sent
  }

  /**
    The limit is raised when a frame is written, not when it arrives. So a peer that is blocked
    because frames were lost is let go by an unforced call if and only if no more than half a
    window of the advertised limit is left; otherwise only a forced call does it. At the varint
    maximum nothing does.
   */
  lemma UnblocksIff(s: System, bufLen: nat, force: bool)
    requires Inv(s) && Blocked(s.conn)
    ensures var c := s.conn.credit;
            Unblocks(s, bufLen, force) <==>
              && |Encode(NextFrame(s))| <= bufLen && c.consumed < MAX_VARINT
              && (force || c.limit - c.consumed <= c.window / 2)
  {
    var c, f := s.conn.credit, NextFrame(s);
    ClampNeverFires(c);
    DueExact(c);
    FrameRoundTrip(f, []);
    assert Encode(f) + [] == Encode(f);
  }

  function NextStreamFrame(s: System, i: nat): Frame
    requires |s.ids| == |s.streams| && i < |s.streams|
  {
    MaxStreamData(s.ids[i], NewLimit(s.streams[i].credit))
  }

  predicate UnblocksStream(s: System, i: nat, bufLen: nat, force: bool)
    requires |s.ids| == |s.streams| && i < |s.streams|
  {
    var s' := Apply(s, AdvertisesStream(i, bufLen, force));
    && Produces(s.streams[i].credit, NextStreamFrame(s, i), bufLen, force)
    && Encode(NextStreamFrame(s, i)) in s'.channel && |s'.streams| == |s.streams|
    && Apply(s', Delivers(Encode(NextStreamFrame(s, i)))).streams[i].peerLimit > s'.streams[i].sent
  }

  /** A frame that arrives raises the peer's limit for its stream. */
  lemma ArrivesAtStream(s: System, f: Frame, i: nat)
    requires |s.ids| == |s.streams| && i < |s.streams| && f.MaxStreamData? && f.id == s.ids[i]
    requires InRange(f) && Encode(f) in s.channel
    ensures |Apply(s, Delivers(Encode(f))).streams| == |s.streams|
    ensures Apply(s, Delivers(Encode(f))).streams[i] == Raises(s.streams[i], f.limit)
  {
    FrameRoundTrip(f, []);
    assert Encode(f) + [] == Encode(f);
  }

  /** The same for a stream. */
  lemma UnblocksStreamIff(s: System, i: nat, bufLen: nat, force: bool)
    requires Inv(s) && i < |s.streams| && Blocked(s.streams[i])
    ensures var c := s.streams[i].credit;
            UnblocksStream(s, i, bufLen, force) <==>
              && |Encode(NextStreamFrame(s, i))| <= bufLen && c.consumed < MAX_VARINT
              && (force || c.limit - c.consumed <= c.window / 2)
  {
    var c, f := s.streams[i].credit, NextStreamFrame(s, i);
    ClampNeverFires(c);
    DueExact(c);
    if Produces(c, f, bufLen, force) { ArrivesAtStream(Apply(s, AdvertisesStream(i, bufLen, force)), f, i); }
  }

  lemma {:induction false} Extend(s: System, run: seq<Action>, a: Action)
    requires |s.ids| == |s.streams| && Legal(s, run) && Enabled(After(s, run), a)
    ensures Legal(s, run + [a]) && After(s, run + [a]) == Apply(After(s, run), a)
    decreases |run|
  {
    if run == [] {
      assert (run + [a])[1..] == [];
    } else {
      assert (run + [a])[1..] == run[1..] + [a];
      Extend(Apply(s, run[0]), run[1..], a);
    }
  }

  lemma Extended(s0: System, run: seq<Action>, s: System, a: Action) returns (run': seq<Action>, s': System)
    requires |s0.ids| == |s0.streams| && Legal(s0, run) && s == After(s0, run) && Enabled(s, a)
    ensures Legal(s0, run') && s' == After(s0, run') == Apply(s, a)
  {
    Extend(s0, run, a);
    run', s' := run + [a], Apply(s, a);
  }

  /** The peer sends a whole window, all of it is consumed, and the one frame that says so is lost. */
  lemma LostFrame() returns (run: seq<Action>, s: System)
    ensures var w := MIN_INITIAL_WINDOW;
            && Legal(Initial(w, w), run) && s == After(Initial(w, w), run)
            && Blocked(s.conn) && s.conn.credit == Credit(w, 2 * w, w)
  {
    var w := MIN_INITIAL_WINDOW;
    var s0 := Initial(w, w);
    run, s := [], s0;
    run, s := Extended(s0, run, s, Open(0, 2 * w, 2 * w));
    run, s := Extended(s0, run, s, PeerSends(0, w));
    run, s := Extended(s0, run, s, ConsumesConn(w));
    AddSaturates(0, w);
    var c := s.conn.credit;
    assert c == Credit(w, w, w);
    AddSaturates(w, w);
    assert VarintSize(2 * w) == 4 && NewLimit(c) == 2 * w && Due(c);
    run, s := Extended(s0, run, s, Advertises(9, false));
  }

  /** After that no unforced call changes anything, and any forced one with room unblocks the peer. */
  lemma LostFrameStalls() returns (run: seq<Action>, s: System)
    ensures var w := MIN_INITIAL_WINDOW;
            && Legal(Initial(w, w), run) && s == After(Initial(w, w), run) && Blocked(s.conn)
            && (forall n: nat :: Apply(s, Advertises(n, false)) == s)
            && (forall n: nat :: n >= 9 ==> Unblocks(s, n, true))
  {
    var w := MIN_INITIAL_WINDOW;
    run, s := LostFrame();
    OpenedOk(w, w);
    RunKeeps(Initial(w, w), run);
    DueExact(s.conn.credit);
    forall n: nat | n >= 9
      ensures Unblocks(s, n, true)
    {
      UnblocksIff(s, n, true);
    }
  }
}
