/**
  The streaming parser: one object fed buffer by buffer. Data is delivered as slices
  of the current buffer, bytes that may begin a delimiter are kept in `lookbehind`,
  and the cursor steps back one byte after a false match.
 */
module MultipartParser {
  import opened Basics
  import opened MultipartMachine
  import opened MultipartGrammar
  import opened MultipartBuffered

  class Parser {
    const boundary: seq<byte>
    const lookbehind: array<byte>
    var index: nat
    var state: State
    ghost var trace: seq<Event>

    /** Every index that will be touched is in bounds, and the lookbehind holds what is held back. */
    ghost predicate Safe()
      reads this, lookbehind
    {
      && |boundary| > 0
      && lookbehind.Length == |boundary| + 9
      && (state == StartBoundary ==> index <= |boundary| + 1)
      && (state == PartDataBoundary ==> index < |boundary|)
      && (state == PartDataAlmostBoundary ==> lookbehind[0] == CR)
      && (state == PartDataBoundary ==>
            && lookbehind[0] == CR && lookbehind[1] == LF
            && forall j :: 0 <= j < index ==> lookbehind[2 + j] == boundary[j])
    }

    /** The parser between two buffers. */
    ghost function View(): Cursor
      reads this
    {
      Cursor(state, index, trace, [])
    }

    /** Safe to use, with callbacks so far in the language of traces. */
    ghost predicate Valid()
      reads this, lookbehind
    {
      Safe() && InOrder(View())
    }

    constructor (boundary: seq<byte>)
      requires |boundary| > 0
      ensures Valid() && View() == FRESH
      ensures this.boundary == boundary && fresh(lookbehind)
    {
      this.boundary := boundary;
      lookbehind := new byte[|boundary| + 9];
      index := 0;
      state := Start;
      trace := [];
    }

    lemma NotBroken()
      requires Valid()
      ensures PhaseOf(trace) != Broken
    {
    }

    /** A callback. */
    ghost method Emit(e: Event)
      modifies this`trace
      ensures trace == old(trace) + [e]
    {
      trace := trace + [e];
    }

    /** The parser between two turns of the loop. */
    ghost predicate At(k: Cursor, buf: seq<byte>, i: int, mark: nat)
      reads this
    {
      && k.state == state && k.index == index && k.trace == trace
      && 0 <= i <= |buf|
      && (i < |buf| && Collecting(state) ==> mark <= i && k.pending == buf[mark..i])
    }

    /** A turn ended as `t` says, with the cursor now at `i` and the slice starting at `mark`. */
    ghost predicate Did(t: Turned, buf: seq<byte>, i: int, next: int, mark: nat, stop: bool)
      reads this
    {
      && stop == t.Stop?
      && (stop ==> next == i && state == t.k.state && index == t.k.index && trace == t.k.trace)
      && (!stop ==> next == (if t.Again? then i else i + 1) && At(t.k, buf, next, mark))
    }

    /** The opening boundary line. */
    method ReadPreamble(buf: seq<byte>, i: nat, mark: nat, ghost k: Cursor)
      returns (next: int, mark': nat, stop: bool)
      requires Safe() && i < |buf| && At(k, buf, i, mark)
      requires state == StartBoundary
      modifies this`state, this`index, this`trace
      ensures Safe()
      ensures Did(Dispatch(boundary, k, buf[i], i + 1 == |buf|), buf, i, next, mark', stop)
    {
      var c := buf[i];
      next, mark', stop := i + 1, mark, false;
      if index == |boundary| {
        if c != CR { return i, mark, true; }
        index := index + 1;
      } else if index == |boundary| + 1 {
        if c != LF { return i, mark, true; }
        index := 0;
        Emit(PartBegin);
        state := HeaderFieldStart;
      } else {
        if c != boundary[index] { return i, mark, true; }
        index := index + 1;
      }
    }

    /** A header name, or the empty line that ends the headers. */
    method ReadField(buf: seq<byte>, i: nat, mark: nat, ghost k: Cursor)
      returns (next: int, mark': nat, stop: bool)
      requires Safe() && i < |buf| && At(k, buf, i, mark)
      requires state == HeaderField || state == HeadersAlmostDone
      modifies this`state, this`index, this`trace
      ensures Safe()
      ensures Did(Dispatch(boundary, k, buf[i], i + 1 == |buf|), buf, i, next, mark', stop)
    {
      var c := buf[i];
      next, mark', stop := i + 1, mark, false;
      if state == HeadersAlmostDone {
        if c != LF { return i, mark, true; }
        state := PartDataStart;
      } else if c == CR {
        state := HeadersAlmostDone;
      } else if c == COLON {
        Emit(Slice(Field, buf[mark..i]));
        state := HeaderValueStart;
      } else if !IsNameByte(c) {
        return i, mark, true;
      } else {
        assert buf[mark..i] + [c] == buf[mark..i + 1];
        if i == |buf| - 1 {
          Emit(Slice(Field, buf[mark..i + 1]));
        }
      }
    }

    /** A header value and the line end after it. */
    method ReadValue(buf: seq<byte>, i: nat, mark: nat, ghost k: Cursor)
      returns (next: int, mark': nat, stop: bool)
      requires Safe() && i < |buf| && At(k, buf, i, mark)
      requires state == HeaderValueStart || state == HeaderValue || state == HeaderValueAlmostDone
      modifies this`state, this`index, this`trace
      ensures Safe()
      ensures Did(Dispatch(boundary, k, buf[i], i + 1 == |buf|), buf, i, next, mark', stop)
    {
      var c := buf[i];
      next, mark', stop := i + 1, mark, false;
      if state == HeaderValueAlmostDone {
        if c != LF { return i, mark, true; }
        state := HeaderFieldStart;
      } else if state == HeaderValue {
        assert buf[mark..i] + [c] == buf[mark..i + 1];
        if c == CR {
          Emit(Slice(Value, buf[mark..i]));
          state := HeaderValueAlmostDone;
        } else if i == |buf| - 1 {
          Emit(Slice(Value, buf[mark..i + 1]));
        }
      }
    }

    /** Part data; a CR may begin the delimiter. */
    method ReadData(buf: seq<byte>, i: nat, mark: nat, ghost k: Cursor)
      returns (next: int, mark': nat, stop: bool)
      requires Safe() && i < |buf| && At(k, buf, i, mark)
      requires state == PartData
      modifies this`state, this`index, this`trace, lookbehind
      ensures Safe()
      ensures Did(Dispatch(boundary, k, buf[i], i + 1 == |buf|), buf, i, next, mark', stop)
    {
      var c := buf[i];
      next, mark', stop := i + 1, mark, false;
      assert buf[mark..i] + [c] == buf[mark..i + 1];
      if c == CR {
        Emit(Slice(Data, buf[mark..i]));
        mark' := i;
        state := PartDataAlmostBoundary;
        lookbehind[0] := CR;
      } else if i == |buf| - 1 {
        Emit(Slice(Data, buf[mark..i + 1]));
      }
    }

    /** A false match: the held-back bytes are delivered as data. */
    method GiveBack(n: nat)
      requires Safe() && (state == PartDataAlmostBoundary || state == PartDataBoundary)
      requires n == |Held(boundary, state, index)|
      modifies this`state, this`trace
      ensures Safe() && state == PartData
      ensures trace == old(trace) + [Slice(Data, Held(boundary, old(state), index))]
    {
      assert lookbehind[..n] == Held(boundary, state, index);
      Emit(Slice(Data, lookbehind[..n]));
      state := PartData;
    }

    /** One more byte of the boundary; the part is over when all of them were seen. */
    method KeepBack(c: byte)
      requires Safe() && state == PartDataBoundary && c == boundary[index]
      modifies this`state, this`index, this`trace, lookbehind
      ensures Safe() && index == old(index) + 1
      ensures index < |boundary| ==> state == PartDataBoundary && trace == old(trace)
      ensures index == |boundary| ==> state == PartDataAlmostEnd && trace == old(trace) + [PartEnd]
    {
      lookbehind[2 + index] := c;
      index := index + 1;
      if index == |boundary| {
        Emit(PartEnd);
        state := PartDataAlmostEnd;
      }
    }

    /** A held-back CR: LF makes the delimiter more likely, any other byte is read again. */
    method ReadAlmostBoundary(buf: seq<byte>, i: nat, mark: nat, ghost k: Cursor)
      returns (next: int, mark': nat, stop: bool)
      requires Safe() && i < |buf| && At(k, buf, i, mark)
      requires state == PartDataAlmostBoundary
      modifies this`state, this`index, this`trace, lookbehind
      ensures Safe()
      ensures Did(Dispatch(boundary, k, buf[i], i + 1 == |buf|), buf, i, next, mark', stop)
    {
      var c := buf[i];
      next, mark', stop := i + 1, mark, false;
      if c == LF {
        state := PartDataBoundary;
        lookbehind[1] := LF;
        index := 0;
      } else {
        GiveBack(1);
        mark' := i;
        next := next - 1;
      }
    }

    /** Bytes held back while they match the delimiter; after a false match the byte is read again. */
    method ReadBoundary(buf: seq<byte>, i: nat, mark: nat, ghost k: Cursor)
      returns (next: int, mark': nat, stop: bool)
      requires Safe() && i < |buf| && At(k, buf, i, mark)
      requires state == PartDataBoundary
      modifies this`state, this`index, this`trace, lookbehind
      ensures Safe()
      ensures Did(Dispatch(boundary, k, buf[i], i + 1 == |buf|), buf, i, next, mark', stop)
    {
      var c := buf[i];
      next, mark', stop := i + 1, mark, false;
      if boundary[index] != c {
        GiveBack(2 + index);
        mark' := i;
        next := next - 1;
      } else {
        KeepBack(c);
      }
    }

    /** After a delimiter: a hyphen or a line end. */
    method ReadAlmostEnd(buf: seq<byte>, i: nat, mark: nat, ghost k: Cursor)
      returns (next: int, mark': nat, stop: bool)
      requires Safe() && i < |buf| && At(k, buf, i, mark)
      requires state == PartDataAlmostEnd
      modifies this`state, this`index, this`trace
      ensures Safe()
      ensures Did(Dispatch(boundary, k, buf[i], i + 1 == |buf|), buf, i, next, mark', stop)
    {
      var c := buf[i];
      next, mark', stop := i + 1, mark, false;
      if c == HYPHEN {
        state := PartDataFinalHyphen;
      } else if c == CR {
        state := PartDataEnd;
      } else {
        return i, mark, true;
      }
    }

    /** The end of the body. */
    method ReadFinalHyphen(buf: seq<byte>, i: nat, mark: nat, ghost k: Cursor)
      returns (next: int, mark': nat, stop: bool)
      requires Safe() && i < |buf| && At(k, buf, i, mark)
      requires state == PartDataFinalHyphen
      modifies this`state, this`index, this`trace
      ensures Safe()
      ensures Did(Dispatch(boundary, k, buf[i], i + 1 == |buf|), buf, i, next, mark', stop)
    {
      var c := buf[i];
      next, mark', stop := i + 1, mark, false;
      if c != HYPHEN { return i, mark, true; }
      Emit(BodyEnd);
      state := End;
    }

    /** The line end after a delimiter: another part begins. */
    method ReadPartDataEnd(buf: seq<byte>, i: nat, mark: nat, ghost k: Cursor)
      returns (next: int, mark': nat, stop: bool)
      requires Safe() && i < |buf| && At(k, buf, i, mark)
      requires state == PartDataEnd
      modifies this`state, this`index, this`trace
      ensures Safe()
      ensures Did(Dispatch(boundary, k, buf[i], i + 1 == |buf|), buf, i, next, mark', stop)
    {
      var c := buf[i];
      next, mark', stop := i + 1, mark, false;
      if c != LF { return i, mark, true; }
      state := HeaderFieldStart;
      Emit(PartBegin);
    }

    /** The cases of the switch that fall through into the next one. */
    method FallThrough(buf: seq<byte>, i: nat, mark: nat, ghost k: Cursor) returns (mark': nat)
      requires Safe() && i < |buf| && At(k, buf, i, mark)
      modifies this`state, this`index, this`trace
      ensures Safe()
      ensures state != Start && state != HeaderFieldStart && state != PartDataStart
      ensures At(Enter(k, buf[i]), buf, i, mark')
    {
      mark' := mark;
      if state == Start {
        index := 0;
        state := StartBoundary;
      } else if state == HeaderFieldStart {
        mark' := i;
        state := HeaderField;
      } else if state == HeaderValueStart && buf[i] != SPACE {
        mark' := i;
        state := HeaderValue;
      } else if state == PartDataStart {
        Emit(HeadersComplete);
        mark' := i;
        state := PartData;
      }
    }

    /** One turn of the loop: the switch on the state. */
    method Switch(buf: seq<byte>, i: nat, mark: nat, ghost k: Cursor)
      returns (next: int, mark': nat, stop: bool)
      requires Safe() && i < |buf| && At(k, buf, i, mark)
      modifies this`state, this`index, this`trace, lookbehind
      ensures Safe()
      ensures Did(Turn(boundary, k, buf[i], i + 1 == |buf|), buf, i, next, mark', stop)
    {
      mark' := FallThrough(buf, i, mark, k);
      ghost var k' := Enter(k, buf[i]);
      if state == StartBoundary {
        next, mark', stop := ReadPreamble(buf, i, mark', k');
      } else if state == HeaderField || state == HeadersAlmostDone {
        next, mark', stop := ReadField(buf, i, mark', k');
      } else if state == HeaderValueStart || state == HeaderValue || state == HeaderValueAlmostDone {
        next, mark', stop := ReadValue(buf, i, mark', k');
      } else if state == PartData {
        next, mark', stop := ReadData(buf, i, mark', k');
      } else if state == PartDataAlmostBoundary {
        next, mark', stop := ReadAlmostBoundary(buf, i, mark', k');
      } else if state == PartDataBoundary {
        next, mark', stop := ReadBoundary(buf, i, mark', k');
      } else if state == PartDataAlmostEnd {
        next, mark', stop := ReadAlmostEnd(buf, i, mark', k');
      } else if state == PartDataEnd {
        next, mark', stop := ReadPartDataEnd(buf, i, mark', k');
      } else if state == PartDataFinalHyphen {
        next, mark', stop := ReadFinalHyphen(buf, i, mark', k');
      } else {
        next, stop := i + 1, false;
      }
    }

    /** The parse loop: its turns, and no more than two for each byte. */
    method Loop(buf: seq<byte>) returns (consumed: nat, ghost turns: nat)
      requires Safe()
      modifies this`state, this`index, this`trace, lookbehind
      ensures Safe() && consumed <= |buf| && turns <= 2 * |buf|
      ensures var p := Play(boundary, old(View()), buf, true);
              consumed == |buf| - p.left && state == p.k.state && index == p.k.index && trace == p.k.trace
    {
      ghost var k := View();
      turns := 0;
      var i: int, mark: nat, stop := 0, 0, false;
      assert buf[0..] == buf;
      while i < |buf|
        invariant Safe() && At(k, buf, i, mark)
        invariant Play(boundary, old(View()), buf, true) == Play(boundary, k, buf[i..], true)
        invariant turns <= 2 * i || (turns <= 2 * i + 1 && state == PartData && i < |buf|)
        decreases |buf| - i, if state == PartData then 0 else 1
      {
        turns := turns + 1;
        PlayTurn(boundary, k, buf, i);
        ghost var t := Turn(boundary, k, buf[i], i + 1 == |buf|);
        i, mark, stop := Switch(buf, i, mark, k);
        if stop {
          return i, turns;
        }
        k := t.k;
      }
      return |buf|, turns;
    }

    /**
      Reads one buffer: exactly the callbacks, the state, the index and the rejected byte of
      the loop's turns, and each byte looked at no more than twice.
     */
    method Execute(buf: seq<byte>) returns (consumed: nat, ghost turns: nat)
      requires Valid()
      modifies this`state, this`index, this`trace, lookbehind
      ensures Valid() && consumed <= |buf| && turns <= 2 * |buf|
      ensures var p := Play(boundary, old(View()), buf, true);
              consumed == |buf| - p.left && View() == p.k.(pending := [])
    {
      PlayInOrder(boundary, View(), buf, true);
      consumed, turns := Loop(buf);
    }
  }
}
