/**
  The arithmetic of one credit: how much was consumed, up to which limit the peer may
  send, and how far ahead of the consumer the limit is kept. The connection and every
  stream each have one.
 */
module QuicCredit {
  import opened QuicVarint

  const U64: nat := 0x1_0000_0000_0000_0000

  /** The source's 64-bit unsigned integers; their arithmetic wraps. */
  type u64 = x: int | 0 <= x < U64

  function Wrap(x: int): u64 {
    x % U64
  }

  lemma WrapSmall(x: int)
    requires 0 <= x < U64
    ensures Wrap(x) == x
  {
  }

  const MIN_INITIAL_WINDOW: u64 := 1024 * 1024

  function ClampWindow(window: u64): u64 {
    if window < MIN_INITIAL_WINDOW then MIN_INITIAL_WINDOW else window
  }

  /** At least one mebibyte, and otherwise as asked for. */
  lemma ClampIs(window: u64)
    ensures ClampWindow(window) >= 1024 * 1024 && ClampWindow(window) >= window
    ensures ClampWindow(window) == window || ClampWindow(window) == 1024 * 1024
  {
  }

  function SaturatingAdd(value: u64, increment: u64): u64 {
    if value > Wrap(MAX_VARINT - increment) then MAX_VARINT else Wrap(value + increment)
  }

  /** Between varints the addition is exact or saturates. */
  lemma AddSaturates(value: u64, increment: u64)
    requires value <= MAX_VARINT && increment <= MAX_VARINT
    ensures SaturatingAdd(value, increment) == Min(value + increment, MAX_VARINT)
  {
    WrapSmall(MAX_VARINT - increment);
    WrapSmall(value + increment);
  }

  /** A larger increment wraps: the sum is short by 2^64, or above the maximum. */
  lemma AddWraps(value: u64, increment: u64)
    requires value <= MAX_VARINT < increment
    ensures SaturatingAdd(value, increment) ==
              if value + increment < U64 then value + increment else value + increment - U64
  {
    assert Wrap(MAX_VARINT - increment) == MAX_VARINT - increment + U64;
    if value + increment < U64 {
      WrapSmall(value + increment);
    } else {
      WrapSmall(value + increment - U64);
      assert (value + increment) % U64 == (value + increment - U64) % U64;
    }
  }

  /**
    The addition saturates at the varint maximum exactly if the increment itself is a
    varint; a larger one wraps instead, and 2^64 - 1 even takes one off.
   */
  lemma SaturatesIff(value: u64, increment: u64)
    requires value <= MAX_VARINT
    ensures SaturatingAdd(value, increment) == Min(value + increment, MAX_VARINT) <==> increment <= MAX_VARINT
    ensures 0 < value && increment == U64 - 1 ==> SaturatingAdd(value, increment) == value - 1
  {
    if increment <= MAX_VARINT {
      AddSaturates(value, increment);
    } else {
      AddWraps(value, increment);
    }
  }

  function ShouldUpdate(consumed: u64, maximum: u64, window: u64): bool {
    consumed >= maximum || Wrap(consumed + window / 2) >= maximum
  }

  datatype Credit = Credit(consumed: u64, limit: u64, window: u64)

  function Consume(c: Credit, bytes: u64): Credit {
    c.(consumed := SaturatingAdd(c.consumed, bytes))
  }

  /** The window doubles, up to `most`. */
  function Grow(c: Credit, most: u64): Credit {
    if c.window < most then
      var w := Wrap(2 * c.window);
      c.(window := if w > most then most else w)
    else c
  }

  function Due(c: Credit): bool {
    ShouldUpdate(c.consumed, c.limit, c.window)
  }

  function NewLimit(c: Credit): u64 {
    var maximum := SaturatingAdd(c.consumed, c.window);
    if maximum < c.limit then c.limit else maximum
  }

  function Advertise(c: Credit): Credit {
    c.(limit := NewLimit(c))
  }

  /** What holds of every credit from its first window on. */
  predicate Sound(c: Credit) {
    && 0 < c.window <= MAX_VARINT && c.consumed <= MAX_VARINT
    && c.limit <= MAX_VARINT && c.limit <= c.consumed + c.window
  }

  lemma ConsumeSound(c: Credit, bytes: u64)
    requires Sound(c) && bytes <= MAX_VARINT
    ensures Sound(Consume(c, bytes)) && Consume(c, bytes).consumed == Min(c.consumed + bytes, MAX_VARINT)
  {
    AddSaturates(c.consumed, bytes);
  }

  lemma GrowSound(c: Credit, most: u64)
    requires Sound(c) && most <= MAX_VARINT
    ensures Sound(Grow(c, most))
    ensures Grow(c, most).window == if c.window < most then Min(2 * c.window, most) else c.window
  {
    WrapSmall(2 * c.window);
  }

  /** The clamp that keeps the limit from going back never has anything to do. */
  lemma ClampNeverFires(c: Credit)
    requires Sound(c)
    ensures SaturatingAdd(c.consumed, c.window) >= c.limit
    ensures NewLimit(c) == Min(c.consumed + c.window, MAX_VARINT)
    ensures Sound(Advertise(c)) && c.limit <= Advertise(c).limit
  {
    AddSaturates(c.consumed, c.window);
  }

  lemma DueExact(c: Credit)
    requires Sound(c)
    ensures Due(c) <==> c.consumed + c.window / 2 >= c.limit
  {
    WrapSmall(c.consumed + c.window / 2);
  }

  /** After a call that found no update due, or made one, more than half a window is left. */
  lemma CreditLeft(c: Credit, force: bool)
    requires Sound(c)
    ensures var c' := if force || Due(c) then Advertise(c) else c;
            c'.limit - c'.consumed > c'.window / 2 || c'.limit == MAX_VARINT
  {
    ClampNeverFires(c);
    DueExact(c);
  }

  /** An update is due again at once if and only if half a window reaches the varint maximum. */
  lemma RepeatedIff(c: Credit)
    requires Sound(c)
    ensures Due(Advertise(c)) <==> c.consumed + c.window / 2 >= MAX_VARINT
  {
    ClampNeverFires(c);
    DueExact(Advertise(c));
  }

  /** A credit on which every call repeats: everything a varint can count has been consumed. */
  lemma RepeatsForever(window: u64)
    requires 0 < window <= MAX_VARINT
    ensures var c := Advertise(Consume(Credit(0, window, window), MAX_VARINT));
            Sound(c) && Due(c) && Due(Advertise(c)) && Advertise(c) == c
  {
    var start := Credit(0, window, window);
    ConsumeSound(start, MAX_VARINT);
    ClampNeverFires(Consume(start, MAX_VARINT));
    ClampNeverFires(Advertise(Consume(start, MAX_VARINT)));
    RepeatedIff(Consume(start, MAX_VARINT));
    RepeatedIff(Advertise(Consume(start, MAX_VARINT)));
  }
}
