/** Length-encoded integers and strings of the MySQL protocol. */
module LengthEncoded {
  import opened Bytes
  import opened Integers

  /** A Go call on a slice: a value, or the panic of an index out of range. */
  datatype Outcome<T> = Value(value: T) | Panic

  datatype Integer = Integer(num: nat, isNull: bool, read: nat)

  datatype Text = Text(data: seq<byte>, isNull: bool, read: int) | EndOfInput(read: int)

  /** readLengthEncodedInteger */
  function ReadInteger(b: seq<byte>): Outcome<Integer> {
    if b == [] then Panic
    else
      var width := Width(b[0]);
      if b[0] == 0xfb then Value(Integer(0, true, 1))
      else if width == 0 then Value(Integer(b[0], false, 1))
      else if |b| < 1 + width then Panic
      else Value(Integer(FromLittleEndian(b[1..1 + width]), false, 1 + width))
  }

  /** How many bytes follow the marker. */
  function Width(marker: byte): nat {
    if marker == 0xfc then 2 else if marker == 0xfd then 3 else if marker == 0xfe then 8 else 0
  }

  /** appendLengthEncodedInteger, on an empty slice */
  function EncodeInteger(n: nat): (r: seq<byte>)
    requires n < TWO64
    ensures 1 <= |r| <= 9
    ensures r[0] != 0xfb && r[0] != 0xff
  {
    if n <= 250 then [n]
    else if n <= 0xffff then [0xfc] + LittleEndian(n, 2)
    else if n <= 0xff_ffff then [0xfd] + LittleEndian(n, 3)
    else [0xfe] + LittleEndian(n, 8)
  }

  /** n += int(num): conversion and sum both wrap. */
  function EndOf(i: Integer): int { Wrap(i.read + Wrap(i.num)) }

  /** readLengthEncodedString */
  function ReadText(b: seq<byte>): Outcome<Text> {
    match ReadInteger(b)
    case Panic => Panic
    case Value(i) =>
      if i.num < 1 then Value(Text([], i.isNull, i.read))
      else
        var n := EndOf(i);
        if |b| >= n then
          var start := Wrap(n - Wrap(i.num));
          if 0 <= start <= n then Value(Text(b[start..n], false, n)) else Panic
        else Value(EndOfInput(n))
  }

  /** skipLengthEncodedString: the count it would read, and whether it lies within the input. */
  function SkipText(b: seq<byte>): Outcome<(int, bool)> {
    match ReadInteger(b)
    case Panic => Panic
    case Value(i) =>
      if i.num < 1 then Value((i.read, true))
      else Value((EndOf(i), |b| >= EndOf(i)))
  }

  function EncodeText(s: seq<byte>): seq<byte>
    requires |s| < TWO64
  {
    EncodeInteger(|s|) + s
  }

  // ---------------------------------------------------------------- round trips

  lemma Powers()
    ensures Power256(2) == 0x1_0000 && Power256(3) == 0x100_0000 && Power256(8) == TWO64
  {
    assert Power256(5) == 0x100_0000_0000 by { assert Power256(3) == 0x100_0000; }
  }

  lemma IntegerRoundTrip(n: nat, tail: seq<byte>)
    requires n < TWO64
    ensures ReadInteger(EncodeInteger(n) + tail) == Value(Integer(n, false, |EncodeInteger(n)|))
  {
    Powers();
    if n > 250 {
      var width := if n <= 0xffff then 2 else if n <= 0xff_ffff then 3 else 8;
      LittleEndianRoundTrip(n, width);
      assert (EncodeInteger(n) + tail)[1..1 + width] == LittleEndian(n, width);
    }
  }

  /** The bytes on the wire: a small number is itself; else a marker tells how many
      bytes follow, the k-th of which has the weight 256^k. */
  lemma {:induction false} EncodingIs(n: nat)
    requires n < TWO64
    ensures
      var r := EncodeInteger(n);
      && (n < 251 ==> r == [n])
      && (251 <= n < 0x1_0000 ==> |r| == 3 && r[0] == 252)
      && (0x1_0000 <= n < 0x100_0000 ==> |r| == 4 && r[0] == 253)
      && (0x100_0000 <= n ==> |r| == 9 && r[0] == 254)
      && (n >= 251 ==> forall k :: 0 <= k < |r| - 1 ==> r[1 + k] == n / Power256(k) % 256)
  {
    var r := EncodeInteger(n);
    if n >= 251 {
      forall k | 0 <= k < |r| - 1 ensures r[1 + k] == n / Power256(k) % 256 { LittleEndianDigit(n, |r| - 1, k); }
    }
  }

  /** NULL is the single byte 0xfb, for numbers and for strings, and nothing else is. */
  lemma {:induction false} NullIff(b: seq<byte>)
    ensures ReadInteger(b).Value? && ReadInteger(b).value.isNull <==> b != [] && b[0] == 251
    ensures ReadText(b).Value? && ReadText(b).value.Text? && ReadText(b).value.isNull <==> b != [] && b[0] == 251
    ensures b != [] && b[0] == 251 ==>
      ReadInteger(b) == Value(Integer(0, true, 1)) && ReadText(b) == Value(Text([], true, 1)) && SkipText(b) == Value((1, true))
  {}

  /** The announced end of the text does not fit an int. */
  predicate TooLong(i: Integer) { i.num >= TWO63 - i.read }

  lemma {:induction false} EndWraps(i: Integer)
    requires i.num < TWO64 && 1 <= i.read <= 9
    ensures TooLong(i) ==> EndOf(i) < i.read
    ensures !TooLong(i) ==> EndOf(i) == i.read + i.num
    ensures Wrap(EndOf(i) - Wrap(i.num)) == i.read
  {}

  /** A text that lies within the input. */
  lemma {:induction false} ReadWhole(b: seq<byte>, i: Integer)
    requires ReadInteger(b) == Value(i) && 1 <= i.num < TWO64 && 1 <= i.read <= 9
    requires !TooLong(i) && i.read + i.num <= |b|
    ensures ReadText(b) == Value(Text(b[i.read..i.read + i.num], false, i.read + i.num))
    ensures SkipText(b) == Value((i.read + i.num, true))
  {
    EndWraps(i);
  }

  /** Every string whose encoding a slice can hold is read back whole, with the exact count, and skipping agrees. */
  lemma {:induction false} TextRoundTrip(s: seq<byte>, tail: seq<byte>)
    requires |s| < TWO64 && |EncodeText(s)| < TWO63
    ensures ReadText(EncodeText(s) + tail) == Value(Text(s, false, |EncodeText(s)|))
    ensures SkipText(EncodeText(s) + tail) == Value((|EncodeText(s)|, true))
  {
    var header, b := EncodeInteger(|s|), EncodeText(s) + tail;
    assert b == header + (s + tail);
    IntegerRoundTrip(|s|, s + tail);
    if s != [] {
      ReadWhole(b, Integer(|s|, false, |header|));
      assert b[|header|..|header| + |s|] == s;
    }
  }

  // ---------------------------------------------------------------- lists

  /** What a caller does with one value: keep it and go on behind it. */
  type Taker<T> = seq<byte> -> Outcome<(T, seq<byte>)>

  function TakeInteger(b: seq<byte>): Outcome<(nat, seq<byte>)> {
    match ReadInteger(b)
    case Value(Integer(num, isNull, read)) => if isNull || read > |b| then Panic else Value((num, b[read..]))
    case Panic => Panic
  }

  function TakeText(b: seq<byte>): Outcome<(seq<byte>, seq<byte>)> {
    match ReadText(b)
    case Value(Text(data, isNull, read)) => if isNull || !(0 <= read <= |b|) then Panic else Value((data, b[read..]))
    case _ => Panic
  }

  /** The caller's loop: `n` values one behind the other, and what is left. */
  function ReadMany<T>(take: Taker<T>, b: seq<byte>, n: nat): Outcome<(seq<T>, seq<byte>)>
    decreases n
  {
    if n == 0 then Value(([], b))
    else
      var first := take(b);
      if first.Panic? then Panic
      else
        var more := ReadMany(take, first.value.1, n - 1);
        if more.Panic? then Panic else Value(([first.value.0] + more.value.0, more.value.1))
  }

  /** `part` is read as `value`, whatever follows it. */
  ghost predicate ReadsAs<T>(take: Taker<T>, part: seq<byte>, value: T) {
    forall tail :: take(part + tail) == Value((value, tail))
  }

  lemma {:induction false} ReadManyOf<T>(take: Taker<T>, parts: seq<seq<byte>>, values: seq<T>, tail: seq<byte>)
    requires |parts| == |values| && forall i :: 0 <= i < |parts| ==> ReadsAs(take, parts[i], values[i])
    ensures ReadMany(take, Concat(parts) + tail, |values|) == Value((values, tail))
  {
    if parts == [] {
      assert Concat(parts) + tail == tail;
    } else {
      var rest := Concat(parts[1..]) + tail;
      assert Concat(parts) + tail == parts[0] + rest;
      ReadManyOf(take, parts[1..], values[1..], tail);
      assert take(parts[0] + rest) == Value((values[0], rest)) by { assert ReadsAs(take, parts[0], values[0]); }
      assert [values[0]] + values[1..] == values;
    }
  }

  lemma IntegerReadsAs(n: nat)
    requires n < TWO64
    ensures ReadsAs(TakeInteger, EncodeInteger(n), n)
  {
    forall tail ensures TakeInteger(EncodeInteger(n) + tail) == Value((n, tail)) {
      IntegerRoundTrip(n, tail);
      assert (EncodeInteger(n) + tail)[|EncodeInteger(n)|..] == tail;
    }
  }

  lemma TextReadsAs(s: seq<byte>)
    requires |s| < TWO64 && |EncodeText(s)| < TWO63
    ensures ReadsAs(TakeText, EncodeText(s), s)
  {
    forall tail ensures TakeText(EncodeText(s) + tail) == Value((s, tail)) {
      TextRoundTrip(s, tail);
      assert (EncodeText(s) + tail)[|EncodeText(s)|..] == tail;
    }
  }

  /** Any list of uint64 values, encoded one behind the other, is read back and nothing more is consumed. */
  lemma {:induction false} IntegersRoundTrip(ns: seq<nat>, tail: seq<byte>)
    requires forall i :: 0 <= i < |ns| ==> ns[i] < TWO64
    ensures
      var parts := seq(|ns|, i requires 0 <= i < |ns| => EncodeInteger(ns[i]));
      ReadMany(TakeInteger, Concat(parts) + tail, |ns|) == Value((ns, tail))
  {
    var parts := seq(|ns|, i requires 0 <= i < |ns| => EncodeInteger(ns[i]));
    forall i | 0 <= i < |ns| ensures ReadsAs(TakeInteger, parts[i], ns[i]) { IntegerReadsAs(ns[i]); }
    ReadManyOf(TakeInteger, parts, ns, tail);
  }

  /** The same for strings. */
  lemma {:induction false} TextsRoundTrip(texts: seq<seq<byte>>, tail: seq<byte>)
    requires forall i :: 0 <= i < |texts| ==> |texts[i]| < TWO64 && |EncodeText(texts[i])| < TWO63
    ensures
      var parts := seq(|texts|, i requires 0 <= i < |texts| => EncodeText(texts[i]));
      ReadMany(TakeText, Concat(parts) + tail, |texts|) == Value((texts, tail))
  {
    var parts := seq(|texts|, i requires 0 <= i < |texts| => EncodeText(texts[i]));
    forall i | 0 <= i < |texts| ensures ReadsAs(TakeText, parts[i], texts[i]) { TextReadsAs(texts[i]); }
    ReadManyOf(TakeText, parts, texts, tail);
  }

  // ---------------------------------------------------------------- lengths that no slice can have

  lemma {:induction false} IntegerInRange(b: seq<byte>)
    requires ReadInteger(b).Value?
    ensures var i := ReadInteger(b).value; i.num < TWO64 && 1 <= i.read <= 9 && i.read <= |b|
  {
    Powers();
    if Width(b[0]) > 0 { LittleEndianBound(b[1..1 + Width(b[0])]); }
  }

  /** On every input: reading a string panics exactly when the header is cut off
      or announces an end that does not fit an int.  Nothing checks for the latter:
      the end turns negative or falls before the start, the input seems long
      enough, and the slice bounds are crossed. */
  lemma ReadTextPanicsIff(b: seq<byte>)
    ensures ReadText(b) == Panic <==> ReadInteger(b) == Panic || TooLong(ReadInteger(b).value)
  {
    if ReadInteger(b).Value? {
      IntegerInRange(b);
      EndWraps(ReadInteger(b).value);
    }
  }

  /** Skipping never panics on a complete header; there it reports success with a
      count that does not even cover the header. */
  lemma SkipTextOfTooLong(b: seq<byte>)
    requires ReadInteger(b).Value?
    ensures
      var i := ReadInteger(b).value;
      && SkipText(b).Value?
      && (TooLong(i) <==> SkipText(b).value.0 < i.read)
      && (TooLong(i) ==> SkipText(b).value.1)
      && (!TooLong(i) ==> SkipText(b).value == (i.read + i.num, |b| >= i.read + i.num))
  {
    IntegerInRange(b);
    EndWraps(ReadInteger(b).value);
  }

  /** Nine bytes that panic, though their length still fits an int: 2^63-1. */
  lemma LargestIntPanics()
    ensures ReadText(EncodeInteger(TWO63 - 1)) == Panic
    ensures SkipText(EncodeInteger(TWO63 - 1)) == Value((9 - TWO63 - 1, true))
  {
    var b := EncodeInteger(TWO63 - 1);
    assert b + [] == b;
    IntegerRoundTrip(TWO63 - 1, []);
  }
}
