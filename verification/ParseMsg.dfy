/** The message writer and reader: a bounded cursor that writes bytes, longs and strings, and one that
    reads them back. */
module ParseMsg {

  import opened CStrings

  type byte = x: int | 0 <= x < 256

  const STRING_SIZE := 2048  // of the reader's static buffer, terminator included

  // ----- the format -----

  /** A write, or what a read returns. Strings are the bytes before the terminator. */
  datatype Item = Byte(value: byte) | Long(number: int32) | Text(chars: seq<byte>)

  predicate NulFree(s: seq<byte>) { 0 !in s }

  predicate Proper(item: Item) { item.Text? ==> NulFree(item.chars) }

  function Encode(item: Item): (r: seq<byte>)
    ensures |r| > 0
  {
    match item
    case Byte(b) => [b]
    case Long(n) => [n % 256, n / 0x100 % 256, n / 0x1_0000 % 256, n / 0x100_0000 % 256]
    case Text(s) => s + [0]
  }

  lemma LongEncoded(n: int32)
    ensures Encode(Long(n)) == [n % 256, n / 0x100 % 256, n / 0x1_0000 % 256, n / 0x100_0000 % 256]
  {}

  function EncodeAll(items: seq<Item>): seq<byte> {
    if items == [] then [] else Encode(items[0]) + EncodeAll(items[1..])
  }

  /** Two's complement: the 32 bits of a sum as a signed number. */
  function Wrap(n: int): int32 {
    var m := n % 0x1_0000_0000;
    if m < 0x8000_0000 then m else m - 0x1_0000_0000
  }

  function Decode4(a: byte, b: byte, c: byte, d: byte): int32 {
    Wrap(a + b * 0x100 + c * 0x1_0000 + d * 0x100_0000)
  }

  lemma LongDigits(n: int)
    ensures n == n % 256 + 0x100 * (n / 0x100)
    ensures n / 0x100 == n / 0x100 % 256 + 0x100 * (n / 0x1_0000)
    ensures n / 0x1_0000 == n / 0x1_0000 % 256 + 0x100 * (n / 0x100_0000)
  {}

  lemma LongRoundTrip(n: int32)
    ensures Decode4(n % 256, n / 0x100 % 256, n / 0x1_0000 % 256, n / 0x100_0000 % 256) == n
  {
    LongDigits(n);
    var top := n / 0x100_0000;
    assert -128 <= top < 128;
    assert top % 256 == if top < 0 then top + 256 else top;
  }

  // ----- reading, as functions -----

  datatype Cursor = Cursor(read: nat, bad: bool)

  function ByteAt(b: seq<byte>, c: Cursor): (int, Cursor) {
    var end := c.read + 1 > |b|;
    var v: int := if end then -1 else b[c.read];
    (v, if end then c.(bad := true) else c.(read := c.read + 1))
  }

  function LongAt(b: seq<byte>, c: Cursor): (int, Cursor) {
    if c.read + 4 > |b| then (-1, c.(bad := true))
    else (Decode4(b[c.read], b[c.read + 1], b[c.read + 2], b[c.read + 3]), c.(read := c.read + 4))
  }

  /** The rest of a string of which `l` characters have been read: up to a terminator, the end of the
      data, or a full buffer. */
  function CharsAt(b: seq<byte>, c: Cursor, l: nat): (seq<byte>, Cursor)
    decreases STRING_SIZE - l
  {
    if l >= STRING_SIZE - 1 then ([], c)
    else if c.read >= |b| then ([], c.(bad := true))
    else if b[c.read] == 0 then ([], c.(read := c.read + 1))
    else
      var (s, c') := CharsAt(b, c.(read := c.read + 1), l + 1);
      ([b[c.read]] + s, c')
  }

  // ----- writing, as a function -----

  /** What a writer has come to: whether it has a buffer, the bytes written, the room left, and whether it
      has overflowed. */
  datatype Sheet = Sheet(buffered: bool, written: seq<byte>, room: nat, overflow: bool)

  /** The effect of one write. A string that does not fit leaves an empty string, if there is room for it. */
  function Write(w: Sheet, item: Item): Sheet {
    var n := |Encode(item)|;
    if w.buffered && n <= w.room then w.(written := w.written + Encode(item), room := w.room - n)
    else if w.buffered && item.Text? && 1 <= w.room then w.(written := w.written + [0], room := w.room - 1, overflow := true)
    else w.(overflow := true)
  }

  // ----- the code -----

  class BufferWriter {
    var buffer: array?<byte>
    var pos: nat          // m_buffer, as an offset from where it started
    var remaining: int
    var overflow: bool
    var overallLength: int

    predicate Valid()
      reads this
    {
      && 0 <= remaining && pos + remaining == overallLength
      && if buffer == null then pos == 0 else overallLength <= buffer.Length
    }

    function Written(): seq<byte>
      requires Valid()
      reads this, buffer
    {
      if buffer == null then [] else buffer[..pos]
    }

    function State(): Sheet
      requires Valid()
      reads this, buffer
    {
      Sheet(buffer != null, Written(), remaining, overflow)
    }

    constructor (buffer: array?<byte>, bufferLen: nat)
      requires buffer != null ==> bufferLen <= buffer.Length
      ensures Valid() && this.buffer == buffer && State() == Sheet(buffer != null, [], bufferLen, false)
    {
      this.buffer, pos, remaining, overflow, overallLength := buffer, 0, bufferLen, false, bufferLen;
    }

    method WriteByte(data: byte)
      requires Valid()
      modifies this, buffer
      ensures Valid() && buffer == old(buffer) && overallLength == old(overallLength)
      ensures State() == Write(old(State()), Byte(data))
    {
      if buffer == null || remaining == 0 {
        overflow := true;
        return;
      }
      buffer[pos] := data;
      pos := pos + 1;
      remaining := remaining - 1;
    }

    method WriteLong(data: int32)
      requires Valid()
      modifies this, buffer
      ensures Valid() && buffer == old(buffer) && overallLength == old(overallLength)
      ensures State() == Write(old(State()), Long(data))
    {
      if buffer == null || remaining < 4 {
        overflow := true;
        return;
      }
      hide Encode;
      ghost var before := buffer[..pos];
      buffer[pos] := data % 256;
      buffer[pos + 1] := data / 0x100 % 256;
      buffer[pos + 2] := data / 0x1_0000 % 256;
      buffer[pos + 3] := data / 0x100_0000 % 256;
      pos := pos + 4;
      remaining := remaining - 4;
      LongEncoded(data);
      assert buffer[..pos] == before + Encode(Long(data));
    }

    method WriteString(s: seq<byte>)
      requires Valid() && NulFree(s)
      modifies this, buffer
      ensures Valid() && buffer == old(buffer) && overallLength == old(overallLength)
      ensures State() == Write(old(State()), Text(s))
    {
      if buffer == null || remaining == 0 {
        overflow := true;
        return;
      }
      var len := |s| + 1;
      if len > remaining {
        overflow := true;
        len := 1;
        buffer[pos] := 0;
      } else {
        var text := s + [0];
        forall i | 0 <= i < len {
          buffer[pos + i] := text[i];
        }
      }
      remaining := remaining - len;
      pos := pos + len;
    }

    method GetSpaceUsed() returns (used: int)
      requires Valid()
      ensures used == |Written()|
    {
      used := overallLength - remaining;
    }
  }

  class MessageReader {
    var buf: array<byte>
    var size: nat
    var read: nat
    var bad: bool
    const text: array<byte>

    predicate Valid()
      reads this
    {
      size <= buf.Length && text.Length == STRING_SIZE && text != buf
    }

    function Data(): seq<byte>
      requires Valid()
      reads this, buf
    {
      buf[..size]
    }

    function Position(): Cursor
      reads this
    {
      Cursor(read, bad)
    }

    constructor BeginRead(buf: array<byte>, size: nat, readpos: nat)
      requires size <= buf.Length
      ensures Valid() && this.buf == buf && Data() == buf[..size] && Position() == Cursor(readpos, false)
    {
      this.buf, this.size, read, bad := buf, size, readpos, false;
      text := new byte[STRING_SIZE](_ => 0);
    }

    method ReadOk() returns (ok: bool)
      ensures ok == !Position().bad
    {
      ok := !bad;
    }

    method ReadByte() returns (c: int)
      requires Valid()
      modifies `read, `bad
      ensures (c, Position()) == ByteAt(Data(), old(Position()))
    {
      if read + 1 > size {
        bad := true;
        return -1;
      }
      c := buf[read];
      read := read + 1;
    }

    method ReadLong() returns (c: int)
      requires Valid()
      modifies `read, `bad
      ensures (c, Position()) == LongAt(Data(), old(Position()))
    {
      hide Decode4;
      if read + 4 > size {
        bad := true;
        return -1;
      }
      c := Decode4(buf[read], buf[read + 1], buf[read + 2], buf[read + 3]);
      read := read + 4;
    }

    /** The string is left in the static buffer, with a terminator. */
    method SafeReadString() returns (l: nat)
      requires Valid()
      modifies `read, `bad, text
      ensures Data() == old(Data()) && l < text.Length && text[l] == 0
      ensures (text[..l], Position()) == CharsAt(Data(), old(Position()), 0)
    {
      hide CharsAt;
      ghost var data, start := Data(), Position();
      text[0] := 0;
      l := 0;
      assert text[..0] + CharsAt(data, start, 0).0 == CharsAt(data, start, 0).0;
      while l < STRING_SIZE - 1
        invariant l < STRING_SIZE && Data() == data
        invariant CharsAt(data, start, 0).0 == text[..l] + CharsAt(data, Position(), l).0
        invariant CharsAt(data, start, 0).1 == CharsAt(data, Position(), l).1
        decreases STRING_SIZE - l
      {
        CharsStep(data, Position(), l);
        if read >= size {
          bad := true;
          break;
        }
        var c := ReadByte();
        if c == 0 {
          break;
        }
        text[l] := c;
        ghost var rest := CharsAt(data, Position(), l + 1).0;
        assert text[..l] + ([c] + rest) == text[..l + 1] + rest;
        l := l + 1;
      }
      CharsFull(data, Position(), l);
      ghost var kept := text[..l];
      assert kept + [] == kept;
      text[l] := 0;
      assert text[..l] == kept;
    }
  }

  lemma CharsFull(b: seq<byte>, c: Cursor, l: nat)
    ensures l >= STRING_SIZE - 1 ==> CharsAt(b, c, l) == ([], c)
  {}

  lemma CharsStep(b: seq<byte>, c: Cursor, l: nat)
    requires l < STRING_SIZE - 1
    ensures c.read >= |b| ==> CharsAt(b, c, l) == ([], c.(bad := true))
    ensures c.read < |b| && b[c.read] == 0 ==> CharsAt(b, c, l) == ([], c.(read := c.read + 1))
    ensures c.read < |b| && b[c.read] != 0 ==>
              var (s, c') := CharsAt(b, c.(read := c.read + 1), l + 1);
              CharsAt(b, c, l) == ([b[c.read]] + s, c')
  {}

  // ----- writing and reading back -----

  function WriteAll(w: Sheet, items: seq<Item>): Sheet
    decreases |items|
  {
    if items == [] then w else WriteAll(Write(w, items[0]), items[1..])
  }

  lemma {:induction false} OverflowSticks(w: Sheet, items: seq<Item>)
    requires w.overflow
    ensures WriteAll(w, items).overflow
    decreases |items|
  {
    if items != [] {
      OverflowSticks(Write(w, items[0]), items[1..]);
    }
  }

  /** A writer has overflowed after any number of writes exactly when it had before, or they did not all
      fit; and if not, what has been written is their encoding, in order. */
  lemma {:induction false} WriteAllFits(w: Sheet, items: seq<Item>)
    ensures WriteAll(w, items).overflow <==> w.overflow || (items != [] && !(w.buffered && |EncodeAll(items)| <= w.room))
    ensures !WriteAll(w, items).overflow ==> WriteAll(w, items).written == w.written + EncodeAll(items)
    decreases |items|
  {
    if items != [] {
      var w' := Write(w, items[0]);
      WriteAllFits(w', items[1..]);
      if w'.overflow {
        OverflowSticks(w', items[1..]);
      } else {
        assert w.written + Encode(items[0]) + EncodeAll(items[1..]) == w.written + (Encode(items[0]) + EncodeAll(items[1..]));
      }
    }
  }

  /** Writing takes from the room what it adds to the buffer, and leaves what was there. */
  lemma {:induction false} WriteAllConserves(w: Sheet, items: seq<Item>)
    ensures var w' := WriteAll(w, items);
            && w'.buffered == w.buffered && w.written <= w'.written && |w'.written| + w'.room == |w.written| + w.room
            && (w.overflow ==> w'.overflow) && (!w.buffered ==> w'.written == w.written)
    decreases |items|
  {
    if items != [] {
      var w1 := Write(w, items[0]);
      assert w.written <= w1.written;
      WriteAllConserves(w1, items[1..]);
    }
  }

  /** One write: all of the item if there is room; otherwise the overflow mark, and of a string the
      terminator alone, if there is room for that. */
  lemma WriteShort(w: Sheet, item: Item)
    requires w.buffered && w.room < |Encode(item)|
    ensures var w' := Write(w, item);
            w'.overflow && w'.written == w.written + (if item.Text? && 0 < w.room then [0] else [])
  {}

  /** Read something of the same kind as the item. */
  function ReadLike(b: seq<byte>, c: Cursor, item: Item): (Result, Cursor) {
    match item
    case Byte(_) => var (v, c') := ByteAt(b, c); (Number(v), c')
    case Long(_) => var (v, c') := LongAt(b, c); (Number(v), c')
    case Text(_) => var (s, c') := CharsAt(b, c, 0); (Chars(s), c')
  }

  datatype Result = Number(value: int) | Chars(chars: seq<byte>)

  function ValueOf(item: Item): Result {
    match item
    case Byte(b) => Number(b)
    case Long(n) => Number(n)
    case Text(s) => Chars(s)
  }

  /** Read things of the kinds of the items, in order. */
  function ReadAll(b: seq<byte>, c: Cursor, items: seq<Item>): (r: (seq<Result>, Cursor))
    ensures |r.0| == |items|
    decreases |items|
  {
    if items == [] then ([], c)
    else
      var (v, c') := ReadLike(b, c, items[0]);
      var (vs, c'') := ReadAll(b, c', items[1..]);
      ([v] + vs, c'')
  }

  /** Reading any sequence of things never takes the cursor back or past the end, and a bad mark stays. */
  lemma {:induction false} ReadAllInside(b: seq<byte>, c: Cursor, items: seq<Item>)
    requires c.read <= |b|
    ensures var c' := ReadAll(b, c, items).1;
            c.read <= c'.read <= |b| && (c.bad ==> c'.bad)
    decreases |items|
  {
    hide Decode4, CharsAt;
    if items != [] {
      if items[0].Text? {
        CharsInside(b, c, 0);
      }
      ReadAllInside(b, ReadLike(b, c, items[0]).1, items[1..]);
    }
  }

  lemma {:induction false} CharsInside(b: seq<byte>, c: Cursor, l: nat)
    requires c.read <= |b|
    ensures var (s, c') := CharsAt(b, c, l);
            c.read <= c'.read <= |b| && (c.bad ==> c'.bad) && |s| <= c'.read - c.read
    decreases STRING_SIZE - l
  {
    if l < STRING_SIZE - 1 && c.read < |b| && b[c.read] != 0 {
      CharsInside(b, c.(read := c.read + 1), l + 1);
    }
  }

  /** A number that is not all there is read as -1, marks the reader bad and takes nothing; a string that has
      no end gives what there is and marks the reader bad at the end of the data. */
  lemma {:induction false} ReadShort(b: seq<byte>, c: Cursor, l: nat)
    requires c.read <= |b|
    ensures c.read == |b| ==> ByteAt(b, c) == (-1, Cursor(c.read, true))
    ensures |b| < c.read + 4 ==> LongAt(b, c) == (-1, Cursor(c.read, true))
    ensures 0 !in b[c.read..] && l + |b| - c.read < STRING_SIZE - 1 ==> CharsAt(b, c, l) == (b[c.read..], Cursor(|b|, true))
    decreases |b| - c.read
  {
    hide Decode4;
    if 0 !in b[c.read..] && l + |b| - c.read < STRING_SIZE - 1 && c.read < |b| {
      assert b[c.read] == b[c.read..][0];
      assert b[c.read..] == [b[c.read]] + b[c.read + 1..];
      ReadShort(b, c.(read := c.read + 1), l + 1);
    }
  }

  function ValuesOf(items: seq<Item>): (r: seq<Result>)
    ensures |r| == |items| && forall i :: 0 <= i < |r| ==> r[i] == ValueOf(items[i])
  {
    seq(|items|, i requires 0 <= i < |items| => ValueOf(items[i]))
  }

  /** The data at position p is e. */
  predicate Holds(b: seq<byte>, p: nat, e: seq<byte>) { p + |e| <= |b| && b[p..p + |e|] == e }

  /** Reading a terminated string, l characters into the buffer: all of it while it fits, and the
      terminator only if there is room for one character more. */
  lemma {:induction false} CharsRead(b: seq<byte>, p: nat, s: seq<byte>, l: nat)
    requires NulFree(s) && Holds(b, p, s + [0]) && l < STRING_SIZE
    ensures var n := if |s| < STRING_SIZE - 1 - l then |s| else STRING_SIZE - 1 - l;
            CharsAt(b, Cursor(p, false), l) ==
              (s[..n], Cursor(if n < STRING_SIZE - 1 - l then p + n + 1 else p + n, false))
    decreases |s|
  {
    assert b[p] == (s + [0])[0];
    if l < STRING_SIZE - 1 && s != [] {
      assert s[0] in s;
      assert (s + [0])[1..] == s[1..] + [0];
      assert b[p + 1..p + 1 + |s|] == b[p..p + |s| + 1][1..];
      CharsRead(b, p + 1, s[1..], l + 1);
      var n := if |s| < STRING_SIZE - 1 - l then |s| else STRING_SIZE - 1 - l;
      assert [s[0]] + s[1..][..n - 1] == s[..n];
    }
  }

  predicate Fits(item: Item) { item.Text? ==> |item.chars| <= 2046 }

  lemma HoldsAt(b: seq<byte>, p: nat, e: seq<byte>, i: nat)
    requires Holds(b, p, e) && i < |e|
    ensures b[p + i] == e[i]
  {
    assert b[p..p + |e|][i] == b[p + i];
  }

  lemma HoldsFour(b: seq<byte>, p: nat, e: seq<byte>)
    requires Holds(b, p, e) && |e| == 4
    ensures b[p] == e[0] && b[p + 1] == e[1] && b[p + 2] == e[2] && b[p + 3] == e[3]
  {
    HoldsAt(b, p, e, 0);
    HoldsAt(b, p, e, 1);
    HoldsAt(b, p, e, 2);
    HoldsAt(b, p, e, 3);
  }

  /** One item read back: exactly when it fits is it read back with the cursor after it. A string of one
      character too many comes back whole with the cursor still on its terminator; a longer one is cut. */
  lemma ItemRead(b: seq<byte>, p: nat, item: Item)
    requires Proper(item) && Holds(b, p, Encode(item))
    ensures var (v, c) := ReadLike(b, Cursor(p, false), item);
            && !c.bad
            && (Fits(item) ==> v == ValueOf(item) && c.read == p + |Encode(item)|)
            && (!Fits(item) && v == ValueOf(item) ==> c.read + 1 == p + |Encode(item)| && b[c.read] == 0)
  {
    hide Wrap, CharsAt;
    match item
    case Byte(v) => HoldsAt(b, p, [v], 0);
    case Long(n) =>
      HoldsFour(b, p, Encode(item));
      LongRoundTrip(n);
    case Text(s) =>
      CharsRead(b, p, s, 0);
      HoldsAt(b, p, s + [0], |s|);
  }

  lemma HoldsParts(b: seq<byte>, p: nat, items: seq<Item>)
    requires items != [] && Holds(b, p, EncodeAll(items))
    ensures var e := Encode(items[0]);
            && Holds(b, p, e) && Holds(b, p + |e|, EncodeAll(items[1..]))
            && |EncodeAll(items)| == |e| + |EncodeAll(items[1..])|
  {
    hide Encode, Holds;
    HoldsBoth(b, p, Encode(items[0]), EncodeAll(items[1..]));
  }

  lemma HoldsBoth(b: seq<byte>, p: nat, e: seq<byte>, rest: seq<byte>)
    requires Holds(b, p, e + rest)
    ensures Holds(b, p, e) && Holds(b, p + |e|, rest)
  {
    var all := b[p..p + |e + rest|];
    assert all[..|e|] == e && all[|e|..] == rest;
    assert b[p..p + |e|] == all[..|e|];
    assert b[p + |e|..p + |e| + |rest|] == all[|e|..];
  }

  lemma ShiftStep(n: int, digit: byte, quotient: int, rest: int)
    requires n == digit + 0x100 * quotient && n == 0x100 * (digit + rest)
    ensures digit == 0 && quotient == rest
  {
    assert digit == 0x100 * (digit + rest - quotient);
  }

  lemma WrapShifts(x: int) returns (k: int)
    requires 0 <= x < 0x1_0000_0000
    ensures Wrap(x) == x - 0x1_0000_0000 * k && (x == 0 ==> k == 0)
  {
    k := if x < 0x8000_0000 then 0 else 1;
  }

  /** Only zero reads the same when it is shifted by a zero byte. */
  lemma ShiftedLong(n: int32, a: byte, b: byte, c: byte, n1: int, n2: int, n3: int)
    requires n == a + 0x100 * n1 && n1 == b + 0x100 * n2 && n2 == c + 0x100 * n3
    requires Decode4(0, a, b, c) == n
    ensures n == 0
  {
    hide Wrap;
    var k := WrapShifts(a * 0x100 + b * 0x1_0000 + c * 0x100_0000);
    ShiftStep(n, a, n1, 0x100 * (b + (0x100 * (c - 0x100 * k))));
    ShiftStep(n1, b, n2, 0x100 * (c - 0x100 * k));
    ShiftStep(n2, c, n3, -0x100 * k);
  }

  /** A reader one byte behind, on a zero, that reads the right value is again one byte behind on a zero. */
  lemma BehindItem(b: seq<byte>, p: nat, item: Item)
    requires p > 0 && Holds(b, p, Encode(item)) && b[p - 1] == 0 && Proper(item)
    requires ReadLike(b, Cursor(p - 1, false), item).0 == ValueOf(item)
    ensures var c := ReadLike(b, Cursor(p - 1, false), item).1;
            c == Cursor(p + |Encode(item)| - 1, false) && b[c.read] == 0
  {
    hide Decode4;
    match item
    case Byte(v) => HoldsAt(b, p, [v], 0);
    case Long(n) =>
      HoldsFour(b, p, Encode(item));
      LongDigits(n);
      ShiftedLong(n, n % 256, n / 0x100 % 256, n / 0x1_0000 % 256, n / 0x100, n / 0x1_0000, n / 0x100_0000);
    case Text(s) =>
      assert CharsAt(b, Cursor(p - 1, false), 0) == ([], Cursor(p, false));
      HoldsAt(b, p, [0], 0);
  }

  predicate AllProper(items: seq<Item>) { forall i :: 0 <= i < |items| ==> Proper(items[i]) }

  predicate AllFit(items: seq<Item>) { forall i :: 0 <= i < |items| ==> Fits(items[i]) }

  lemma ReadAllParts(b: seq<byte>, c: Cursor, items: seq<Item>)
    requires items != []
    ensures var (v, c') := ReadLike(b, c, items[0]);
            var rest := ReadAll(b, c', items[1..]);
            && ReadAll(b, c, items).1 == rest.1
            && (ReadAll(b, c, items).0 == ValuesOf(items) <==> v == ValueOf(items[0]) && rest.0 == ValuesOf(items[1..]))
  {
    hide ReadLike, ValueOf;
    var (v, c') := ReadLike(b, c, items[0]);
    var rest := ReadAll(b, c', items[1..]);
    assert ReadAll(b, c, items).0 == [v] + rest.0;
    assert ValuesOf(items) == [ValueOf(items[0])] + ValuesOf(items[1..]);
    assert ([v] + rest.0)[1..] == rest.0 && ValuesOf(items)[1..] == ValuesOf(items[1..]);
  }

  /** A reader that is one byte behind, on a zero, stays one byte behind for as long as what it reads is
      what was written. */
  lemma {:induction false} BehindStaysBehind(b: seq<byte>, p: nat, items: seq<Item>)
    requires 0 < p <= |b| && b[p - 1] == 0 && Holds(b, p, EncodeAll(items)) && AllProper(items)
    requires ReadAll(b, Cursor(p - 1, false), items).0 == ValuesOf(items)
    ensures ReadAll(b, Cursor(p - 1, false), items).1.read == p + |EncodeAll(items)| - 1
    decreases |items|
  {
    hide ReadLike, Encode, ValueOf, Holds, Proper;
    if items != [] {
      HoldsParts(b, p, items);
      ReadAllParts(b, Cursor(p - 1, false), items);
      BehindItem(b, p, items[0]);
      InBounds(b, p, Encode(items[0]));
      BehindStaysBehind(b, p + |Encode(items[0])|, items[1..]);
    }
  }

  lemma InBounds(b: seq<byte>, p: nat, e: seq<byte>)
    requires Holds(b, p, e)
    ensures p + |e| <= |b|
  {}

  /** Whatever was written, of strings without a zero byte, is read back exactly, with the reader in order
      and just after it, if and only if every string is at most 2046 bytes long. */
  lemma {:induction false} RoundTripIff(b: seq<byte>, p: nat, items: seq<Item>)
    requires Holds(b, p, EncodeAll(items)) && AllProper(items)
    ensures ReadAll(b, Cursor(p, false), items) == (ValuesOf(items), Cursor(p + |EncodeAll(items)|, false)) <==> AllFit(items)
    decreases |items|
  {
    hide ReadLike, Encode, ValueOf, Holds, Proper, Fits;
    if items != [] {
      var item := items[0];
      var e := Encode(item);
      HoldsParts(b, p, items);
      InBounds(b, p, e);
      ItemRead(b, p, item);
      ReadAllParts(b, Cursor(p, false), items);
      var (v, c) := ReadLike(b, Cursor(p, false), item);
      assert AllFit(items) <==> Fits(item) && AllFit(items[1..]);
      if Fits(item) {
        RoundTripIff(b, p + |e|, items[1..]);
      } else if v == ValueOf(item) && ReadAll(b, c, items[1..]).0 == ValuesOf(items[1..]) {
        BehindStaysBehind(b, p + |e|, items[1..]);
      }
    }
  }

  /** What a writer that has not overflowed wrote, a reader of it reads back - the values written, in good
      order, ending at the space used - exactly when every string is at most 2046 bytes long; and it has
      not overflowed exactly when everything fits in the buffer. */
  lemma WrittenIsReadBack(capacity: nat, items: seq<Item>)
    requires AllProper(items)
    ensures var w := WriteAll(Sheet(true, [], capacity, false), items);
            && (w.overflow <==> capacity < |EncodeAll(items)|)
            && (!w.overflow ==>
                  (ReadAll(w.written, Cursor(0, false), items) == (ValuesOf(items), Cursor(|w.written|, false)) <==>
                   AllFit(items)))
  {
    hide AllProper, AllFit, ReadAll, ValuesOf, WriteAll;
    WriteAllFits(Sheet(true, [], capacity, false), items);
    var w := WriteAll(Sheet(true, [], capacity, false), items);
    if !w.overflow {
      assert [] + EncodeAll(items) == EncodeAll(items);
      RoundTripIff(w.written, 0, items);
    }
  }
}
