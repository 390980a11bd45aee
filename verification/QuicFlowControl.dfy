/** The connection and stream flow-control state, updated in place. */
module QuicFlowControl {
  import opened Basics
  import opened QuicWire
  import opened QuicVarint
  import opened QuicCredit
  import opened QuicRtt

  /** A sound credit's new limit goes out as the standard's frame. */
  lemma SentIsFrame(c: Credit, f: Frame)
    requires Sound(c) && f.limit == NewLimit(c) && (f.MaxStreamData? ==> f.id <= MAX_VARINT)
    ensures IsFrame(Encode(f), f)
  {
    ClampNeverFires(c);
    FrameWritten(f);
  }

  class StreamFlow {
    const streamId: u64
    var maxStreamData: u64
    var streamConsumed: u64
    var streamWindowSize: u64

    function Account(): Credit
      reads this
    {
      Credit(streamConsumed, maxStreamData, streamWindowSize)
    }

    constructor (streamId: u64, initialWindow: u64)
      ensures this.streamId == streamId
      ensures Account() == Credit(0, ClampWindow(initialWindow), ClampWindow(initialWindow))
      ensures initialWindow <= MAX_VARINT ==> Sound(Account())
    {
      this.streamId := streamId;
      maxStreamData := ClampWindow(initialWindow);
      streamConsumed := 0;
      streamWindowSize := ClampWindow(initialWindow);
    }

    method ConsumeBytes(bytes: u64)
      modifies this
      ensures Account() == Consume(old(Account()), bytes)
    {
      streamConsumed := SaturatingAdd(streamConsumed, bytes);
    }

    /** The frame that advertises the limit this credit would get. */
    function NextFrame(): Frame
      reads this
    {
      MaxStreamData(streamId, NewLimit(Account()))
    }

    method MaybeSendMaxStreamData(buf: array<byte>, bufLen: nat, force: bool) returns (code: int, written: nat)
      requires bufLen <= buf.Length
      modifies this, buf
      ensures code == if !force && !Due(old(Account())) then 0
                      else if bufLen < |Encode(old(NextFrame()))| then -1 else 1
      ensures code == 1 ==>
                && Account() == Advertise(old(Account()))
                && written == |Encode(old(NextFrame()))| <= bufLen
                && buf[..written] == Encode(old(NextFrame())) && buf[written..] == old(buf[..])[written..]
      ensures code == 1 && Sound(old(Account())) && streamId <= MAX_VARINT ==>
                IsFrame(buf[..written], MaxStreamData(streamId, maxStreamData))
      ensures code != 1 ==> Account() == old(Account()) && written == 0 && buf[..] == old(buf[..])
    {
      written := 0;
      if !force && !ShouldUpdate(streamConsumed, maxStreamData, streamWindowSize) {
        return 0, 0;
      }
      var maximum := SaturatingAdd(streamConsumed, streamWindowSize);
      if maximum < maxStreamData {
        maximum := maxStreamData;
      }
      var idSize := VarintSize(streamId);
      var valueSize := VarintSize(maximum);
      if bufLen < 1 + idSize + valueSize {
        return -1, 0;
      }
      written := WriteMaxStreamData(buf, streamId, maximum);
      if Sound(Account()) && streamId <= MAX_VARINT { SentIsFrame(Account(), MaxStreamData(streamId, maximum)); }
      maxStreamData := maximum;
      return 1, written;
    }
  }

  class ConnFlow {
    var rtt: Estimator
    var quality: Quality
    var maxData: u64
    var connConsumed: u64
    var connWindowSize: u64
    const connMinWindow: u64
    const connMaxWindow: u64
    const baseStreamWindow: u64
    const streamMinWindow: u64
    const streamMaxWindow: u64

    function Account(): Credit
      reads this
    {
      Credit(connConsumed, maxData, connWindowSize)
    }

    constructor (initialConn: u64, initialStream: u64, maxConn: u64, maxStream: u64)
      ensures rtt == Estimator(false, 0, 0, 0) && quality == Normal
      ensures Account() == Credit(0, connMinWindow, connMinWindow)
      ensures connMinWindow == ClampWindow(initialConn)
      ensures baseStreamWindow == streamMinWindow == ClampWindow(initialStream)
      ensures connMaxWindow == Max(ClampWindow(maxConn), connMinWindow)
      ensures streamMaxWindow == Max(ClampWindow(maxStream), streamMinWindow)
      ensures initialConn <= MAX_VARINT ==> Sound(Account())
    {
      var conn := ClampWindow(initialConn);
      var stream := ClampWindow(initialStream);
      var mostConn := ClampWindow(maxConn);
      var mostStream := ClampWindow(maxStream);
      if mostConn < conn { mostConn := conn; }
      if mostStream < stream { mostStream := stream; }
      rtt := Estimator(false, 0, 0, 0);
      quality := Normal;
      maxData := conn;
      connConsumed := 0;
      connWindowSize := conn;
      connMinWindow := conn;
      connMaxWindow := mostConn;
      baseStreamWindow := stream;
      streamMinWindow := stream;
      streamMaxWindow := mostStream;
    }

    method UpdateRtt(sample: u64)
      modifies this`rtt, this`quality
      ensures rtt == Sample(old(rtt), sample)
      ensures quality == if sample == 0 then old(quality) else Classify(rtt.srtt)
    {
      if sample == 0 {
        return;
      }
      if !rtt.initialized {
        rtt := Estimator(true, sample, sample / 2, sample);
      } else {
        var difference := if rtt.srtt > sample then rtt.srtt - sample else sample - rtt.srtt;
        rtt := rtt.(rttvar := Wrap(Wrap(3 * rtt.rttvar) + difference) / 4);
        rtt := rtt.(srtt := Wrap(Wrap(7 * rtt.srtt) + sample) / 8);
        if sample < rtt.minRtt {
          rtt := rtt.(minRtt := sample);
        }
      }
      var _ := EvaluateQuality();
    }

    method EvaluateQuality() returns (q: Quality)
      modifies this`quality
      ensures !rtt.initialized ==> q == Normal && quality == old(quality)
      ensures rtt.initialized ==> q == quality == Classify(rtt.srtt)
    {
      if !rtt.initialized {
        return Normal;
      }
      if rtt.srtt <= 50000 {
        quality := Excellent;
      } else if rtt.srtt <= 150000 {
        quality := Normal;
      } else if rtt.srtt <= 500000 {
        quality := HighRtt;
      } else {
        quality := Poor;
      }
      return quality;
    }

    /** Degraded means high RTT or worse; the stream may be absent. */
    method AdjustWindows(stream: StreamFlow?)
      modifies this`connWindowSize, stream
      ensures Account() == if Degraded(quality) then Grow(old(Account()), connMaxWindow) else old(Account())
      ensures stream != null ==>
                stream.Account() ==
                  if Degraded(quality) then Grow(old(stream.Account()), streamMaxWindow) else old(stream.Account())
    {
      if !Degraded(quality) {
        return;
      }
      if connWindowSize < connMaxWindow {
        connWindowSize := Wrap(2 * connWindowSize);
        if connWindowSize > connMaxWindow {
          connWindowSize := connMaxWindow;
        }
      }
      if stream != null && stream.streamWindowSize < streamMaxWindow {
        stream.streamWindowSize := Wrap(2 * stream.streamWindowSize);
        if stream.streamWindowSize > streamMaxWindow {
          stream.streamWindowSize := streamMaxWindow;
        }
      }
    }

    method ConsumeBytes(bytes: u64)
      modifies this`connConsumed
      ensures Account() == Consume(old(Account()), bytes)
    {
      connConsumed := SaturatingAdd(connConsumed, bytes);
    }

    function NextFrame(): Frame
      reads this
    {
      MaxData(NewLimit(Account()))
    }

    method MaybeSendMaxData(buf: array<byte>, bufLen: nat, force: bool) returns (code: int, written: nat)
      requires bufLen <= buf.Length
      modifies this`maxData, buf
      ensures code == if !force && !Due(old(Account())) then 0
                      else if bufLen < |Encode(old(NextFrame()))| then -1 else 1
      ensures code == 1 ==>
                && Account() == Advertise(old(Account()))
                && written == |Encode(old(NextFrame()))| <= bufLen
                && buf[..written] == Encode(old(NextFrame())) && buf[written..] == old(buf[..])[written..]
      ensures code == 1 && Sound(old(Account())) ==> IsFrame(buf[..written], MaxData(maxData))
      ensures code != 1 ==> Account() == old(Account()) && written == 0 && buf[..] == old(buf[..])
    {
      written := 0;
      if !force && !ShouldUpdate(connConsumed, maxData, connWindowSize) {
        return 0, 0;
      }
      var maximum := SaturatingAdd(connConsumed, connWindowSize);
      if maximum < maxData {
        maximum := maxData;
      }
      var valueSize := VarintSize(maximum);
      if bufLen < 1 + valueSize {
        return -1, 0;
      }
      written := WriteMaxData(buf, maximum);
      if Sound(Account()) { SentIsFrame(Account(), MaxData(maximum)); }
      maxData := maximum;
      return 1, written;
    }
  }
}
