/** The two text formats of Postgres' bytea: the printer chooses one by the
    server's version, the parser recognises which one it was given. */
module Bytea {
  import opened Bytes

  datatype Parsing = Parsed(value: seq<byte>) | Rejected

  const BACKSLASH: byte := 92
  const LETTER_X: byte := 120

  // ---------------------------------------------------------------- the formats

  function HexDigit(n: nat): (d: byte)
    requires n < 16
    ensures HexValue(d) == n
  {
    if n < 10 then 48 + n else 87 + n
  }

  /** The value of a hexadecimal digit of either case, or -1. */
  function HexValue(d: byte): (n: int)
    ensures -1 <= n < 16
  {
    if 48 <= d <= 57 then d - 48
    else if 97 <= d <= 102 then d - 87
    else if 65 <= d <= 70 then d - 55
    else -1
  }

  /** %x */
  function Hex(v: seq<byte>): seq<byte> {
    if v == [] then [] else [HexDigit(v[0] / 16), HexDigit(v[0] % 16)] + Hex(v[1..])
  }

  /** hex.Decode */
  function ParseHex(s: seq<byte>): Parsing {
    if s == [] then Parsed([])
    else if |s| == 1 then Rejected
    else if HexValue(s[0]) == -1 || HexValue(s[1]) == -1 then Rejected
    else Prepend([16 * HexValue(s[0]) + HexValue(s[1])], ParseHex(s[2..]))
  }

  function Prepend(front: seq<byte>, p: Parsing): Parsing {
    match p
    case Parsed(value) => Parsed(front + value)
    case Rejected => Rejected
  }

  /** How the escape format writes one byte: %03o behind a backslash if it is not printable. */
  function Escape(b: byte): seq<byte> {
    if b == BACKSLASH then [BACKSLASH, BACKSLASH]
    else if b < 0x20 || b > 0x7e then [BACKSLASH, 48 + b / 64, 48 + b / 8 % 8, 48 + b % 8]
    else [b]
  }

  function Escaped(v: seq<byte>): seq<byte> {
    if v == [] then [] else Escape(v[0]) + Escaped(v[1..])
  }

  predicate IsOctal(d: byte) { 48 <= d <= 55 }

  /** byte(strconv.ParseInt(s, 8, 9)) on three characters: a sign leaves two
      digits, and a value of 256 or more does not fit the nine bits. */
  function ParseOctal(s: seq<byte>): Parsing
    requires |s| == 3
  {
    if !IsOctal(s[1]) || !IsOctal(s[2]) then Rejected
    else
      var high: int, low: int := s[0] as int - 48, 8 * (s[1] - 48) + (s[2] - 48);
      if s[0] == 43 then Parsed([low])
      else if s[0] == 45 then Parsed([(256 - low) % 256])
      else if !IsOctal(s[0]) || 64 * high + low >= 256 then Rejected
      else Parsed([64 * high + low])
  }

  /** The escape format, read byte by byte. */
  function ParseEscaped(s: seq<byte>): Parsing {
    if s == [] then Parsed([])
    else if s[0] != BACKSLASH then Prepend([s[0]], ParseEscaped(s[1..]))
    else if |s| >= 2 && s[1] == BACKSLASH then Prepend([BACKSLASH], ParseEscaped(s[2..]))
    else if |s| < 4 then Rejected
    else
      match ParseOctal(s[1..4])
      case Parsed(b) => Prepend(b, ParseEscaped(s[4..]))
      case Rejected => Rejected
  }

  predicate HasHexPrefix(s: seq<byte>) {
    |s| >= 2 && s[0] == BACKSLASH && s[1] == LETTER_X
  }

  function Parse(s: seq<byte>): Parsing {
    if HasHexPrefix(s) then ParseHex(s[2..]) else ParseEscaped(s)
  }

  function Encode(serverVersion: int, v: seq<byte>): seq<byte> {
    if serverVersion >= 90000 then [BACKSLASH, LETTER_X] + Hex(v) else Escaped(v)
  }

  // ---------------------------------------------------------------- round trips

  lemma {:induction false} HexRoundTrip(v: seq<byte>)
    ensures ParseHex(Hex(v)) == Parsed(v)
  {
    if v != [] {
      HexRoundTrip(v[1..]);
      assert Hex(v)[2..] == Hex(v[1..]);
      assert [v[0]] + v[1..] == v;
    }
  }

  /** A well-formed escape sequence parses to its byte, whatever follows. */
  lemma EscapeThen(b: byte, rest: seq<byte>)
    ensures ParseEscaped(Escape(b) + rest) == Prepend([b], ParseEscaped(rest))
  {
    var s := Escape(b) + rest;
    assert s[|Escape(b)|..] == rest;
    if b != BACKSLASH && (b < 0x20 || b > 0x7e) {
      OctalRoundTrip(b);
      assert s[1..4] == Escape(b)[1..];
    }
  }

  lemma OctalRoundTrip(b: byte)
    ensures ParseOctal([48 + b / 64, 48 + b / 8 % 8, 48 + b % 8]) == Parsed([b])
  {
    assert b == 64 * (b / 64) + 8 * (b / 8 % 8) + b % 8;
  }

  lemma {:induction false} EscapedRoundTrip(v: seq<byte>)
    ensures ParseEscaped(Escaped(v)) == Parsed(v)
  {
    if v != [] {
      EscapeThen(v[0], Escaped(v[1..]));
      EscapedRoundTrip(v[1..]);
      assert [v[0]] + v[1..] == v;
    }
  }

  /** What the escape format prints is never taken for the hex format. */
  lemma EscapedIsNotHex(v: seq<byte>)
    ensures !HasHexPrefix(Escaped(v))
  {
    if v != [] { assert Escaped(v)[..|Escape(v[0])|] == Escape(v[0]); }
  }

  /** Every byte string survives printing and parsing, whatever the server's version. */
  lemma {:induction false} RoundTrip(serverVersion: int, v: seq<byte>)
    ensures Parse(Encode(serverVersion, v)) == Parsed(v)
  {
    if serverVersion >= 90000 {
      HexRoundTrip(v);
      assert Encode(serverVersion, v)[2..] == Hex(v);
    } else {
      EscapedRoundTrip(v);
      EscapedIsNotHex(v);
    }
  }

  /** Both formats print visible ASCII only. */
  lemma {:induction false} PrintableOutput(serverVersion: int, v: seq<byte>, i: nat)
    requires i < |Encode(serverVersion, v)|
    ensures 0x20 <= Encode(serverVersion, v)[i] <= 0x7e
  {
    if serverVersion >= 90000 {
      if i >= 4 {
        assert Encode(serverVersion, v)[i] == Encode(serverVersion, v[1..])[i - 2];
        PrintableOutput(serverVersion, v[1..], i - 2);
      }
    } else if i >= |Escape(v[0])| {
      PrintableOutput(serverVersion, v[1..], i - |Escape(v[0])|);
    } else {
      assert Escaped(v)[i] == Escape(v[0])[i];
    }
  }

  // ---------------------------------------------------------------- the loops

  lemma PrependTwice(a: seq<byte>, b: seq<byte>, p: Parsing)
    ensures Prepend(a, Prepend(b, p)) == Prepend(a + b, p)
  {
    if p.Parsed? { assert a + (b + p.value) == a + b + p.value; }
  }

  /** A run of raw bytes is copied in one go. */
  lemma {:induction false} RawRun(s: seq<byte>, i: nat)
    requires i <= |s| && forall k :: 0 <= k < i ==> s[k] != BACKSLASH
    ensures ParseEscaped(s) == Prepend(s[..i], ParseEscaped(s[i..]))
  {
    if i == 0 {
      PrependNothing(ParseEscaped(s));
      assert s[0..] == s;
    } else {
      RawRun(s[1..], i - 1);
      assert s[1..][i - 1..] == s[i..] && [s[0]] + s[1..][..i - 1] == s[..i];
      PrependTwice([s[0]], s[1..][..i - 1], ParseEscaped(s[i..]));
    }
  }

  lemma PrependNothing(p: Parsing)
    ensures Prepend([], p) == p
  {
    if p.Parsed? { assert [] + p.value == p.value; }
  }

  /** bytes.IndexByte */
  method IndexByte(s: seq<byte>, c: byte) returns (i: int)
    ensures -1 <= i < |s|
    ensures i == -1 ==> c !in s
    ensures i >= 0 ==> s[i] == c && c !in s[..i]
  {
    i := 0;
    while i < |s|
      invariant 0 <= i <= |s| && c !in s[..i]
    {
      if s[i] == c { return; }
      i := i + 1;
    }
    i := -1;
  }

  /** parseBytea: the loop that copies raw runs agrees with reading byte by byte. */
  method ParseBytea(text: seq<byte>) returns (r: Parsing)
    ensures r == Parse(text)
  {
    if HasHexPrefix(text) { return ParseHex(text[2..]); }
    var s, result := text, [];
    PrependNothing(ParseEscaped(text));
    while |s| > 0
      invariant Prepend(result, ParseEscaped(s)) == ParseEscaped(text)
      decreases |s|
    {
      ghost var before, seen := s, result;
      if s[0] == BACKSLASH {
        if |s| >= 2 && s[1] == BACKSLASH {
          result, s := result + [BACKSLASH], s[2..];
          PrependTwice(seen, [BACKSLASH], ParseEscaped(s));
        } else if |s| < 4 {
          return Rejected;
        } else {
          var octal := ParseOctal(s[1..4]);
          if octal.Rejected? { return Rejected; }
          result, s := result + octal.value, s[4..];
          PrependTwice(seen, octal.value, ParseEscaped(s));
        }
      } else {
        var i := IndexByte(s, BACKSLASH);
        if i == -1 { i := |s|; }
        RawRun(s, i);
        result, s := result + s[..i], s[i..];
        PrependTwice(seen, before[..i], ParseEscaped(s));
      }
    }
    r := Parsed(result);
  }

  lemma {:induction false} EscapedSnoc(v: seq<byte>, b: byte)
    ensures Escaped(v + [b]) == Escaped(v) + Escape(b)
  {
    if v == [] {
      assert v + [b] == [b];
    } else {
      EscapedSnoc(v[1..], b);
      assert (v + [b])[1..] == v[1..] + [b];
      Associative(Escape(v[0]), Escaped(v[1..]), Escape(b));
    }
  }

  /** One byte more in the escape format. */
  method AppendEscaped(text: seq<byte>, b: byte) returns (result: seq<byte>)
    ensures result == text + Escape(b)
  {
    if b == BACKSLASH {
      result := text + [BACKSLASH, BACKSLASH];
    } else if b < 0x20 || b > 0x7e {
      result := text + [BACKSLASH, 48 + b / 64, 48 + b / 8 % 8, 48 + b % 8];
    } else {
      result := text + [b];
    }
  }

  /** encodeBytea */
  method EncodeBytea(serverVersion: int, v: seq<byte>) returns (result: seq<byte>)
    ensures result == Encode(serverVersion, v)
    ensures Parse(result) == Parsed(v)
  {
    RoundTrip(serverVersion, v);
    if serverVersion >= 90000 { return [BACKSLASH, LETTER_X] + Hex(v); }
    result := [];
    for i := 0 to |v|
      invariant result == Escaped(v[..i])
    {
      EscapedSnoc(v[..i], v[i]);
      assert v[..i] + [v[i]] == v[..i + 1];
      result := AppendEscaped(result, v[i]);
    }
    assert v[..|v|] == v;
  }

  // ---------------------------------------------------------------- the formats, byte by byte

  /** The characters 0-9 and a-f. */
  predicate IsHexOf(c: byte, n: nat) { n < 16 && c == if n < 10 then 48 + n else 97 + (n - 10) }

  /** From version 9.0 on the text is the prefix and two digits for each byte. */
  lemma {:induction false} HexIs(v: seq<byte>, i: nat)
    requires i < |v|
    ensures |Hex(v)| == 2 * |v| && IsHexOf(Hex(v)[2 * i], v[i] / 16) && IsHexOf(Hex(v)[2 * i + 1], v[i] % 16)
  {
    if i > 0 {
      HexIs(v[1..], i - 1);
    } else if |v| > 1 {
      HexIs(v[1..], 0);
    }
  }

  lemma {:induction false} NewFormatIs(serverVersion: int, v: seq<byte>, i: nat)
    requires serverVersion >= 90000 && i < |v|
    ensures
      var text := Encode(serverVersion, v);
      && |text| == 2 + 2 * |v| && text[0] == 92 && text[1] == 120
      && IsHexOf(text[2 + 2 * i], v[i] / 16) && IsHexOf(text[3 + 2 * i], v[i] % 16)
  {
    HexIs(v, i);
  }

  /** A piece of the escape format that stands for `b`: the byte itself, a doubled
      backslash, or a backslash and an octal number. */
  predicate PieceOf(t: seq<byte>, b: byte) {
    || (t == [b] && b != 92)
    || (t == [92, 92] && b == 92)
    || (|t| == 4 && t[0] == 92 && OctalOf(t[1], t[2], t[3], b))
  }

  /** Three octal digits; or, as the code's number parser has it, a sign and two,
      the negative ones reduced to a byte. */
  predicate OctalOf(x: byte, y: byte, z: byte, b: byte) {
    && IsOctal(y) && IsOctal(z)
    && var low := 8 * (y - 48) + (z - 48);
       || (IsOctal(x) && 64 * (x - 48) + low == b)
       || (x == 43 && low == b)
       || (x == 45 && (low + b) % 256 == 0)
  }

  /** `t` is made of one piece for each byte of `v`. */
  ghost predicate Spells(t: seq<byte>, v: seq<byte>)
    decreases |v|
  {
    if v == [] then t == []
    else exists n :: 0 <= n <= |t| && PieceOf(t[..n], v[0]) && Spells(t[n..], v[1..])
  }

  /** Before version 9.0 the printer writes printable bytes as they are, doubles the
      backslash, and writes any other byte as three octal digits. */
  lemma {:induction false} OldFormatIs(serverVersion: int, b: byte)
    requires serverVersion < 90000
    ensures
      var text := Encode(serverVersion, [b]);
      && PieceOf(text, b)
      && (|text| == 1 <==> 0x20 <= b <= 0x7e && b != 92)
      && (|text| == 4 ==> 48 <= text[1] <= 51 && IsOctal(text[2]) && IsOctal(text[3]))
  {
    assert Escaped([b]) == Escape(b) + Escaped([b][1..]) == Escape(b);
    assert b == 64 * (b / 64) + 8 * (b / 8 % 8) + b % 8;
  }

  lemma {:induction false} OldFormatConcat(serverVersion: int, v: seq<byte>, w: seq<byte>)
    requires serverVersion < 90000
    ensures Encode(serverVersion, v + w) == Encode(serverVersion, v) + Encode(serverVersion, w)
  {
    if v == [] {
      assert v + w == w && Escaped([]) + Escaped(w) == Escaped(w);
    } else {
      assert (v + w)[1..] == v[1..] + w;
      OldFormatConcat(serverVersion, v[1..], w);
      Associative(Escape(v[0]), Escaped(v[1..]), Escaped(w));
    }
  }

  // ---------------------------------------------------------------- what the parser accepts

  lemma {:induction false} OctalIff(x: byte, y: byte, z: byte, b: byte)
    ensures ParseOctal([x, y, z]) == Parsed([b]) <==> OctalOf(x, y, z, b)
  {
    if IsOctal(y) && IsOctal(z) { Negated(8 * (y - 48) + (z - 48), b); }
  }

  lemma {:induction false} Negated(low: nat, b: byte)
    requires low < 64
    ensures (256 - low) % 256 == b <==> (low + b) % 256 == 0
  {
    if low == 0 { assert 256 % 256 == 0; } else { assert (256 - low) % 256 == 256 - low; }
    if low + b >= 256 { assert (low + b) % 256 == low + b - 256; } else { assert (low + b) % 256 == low + b; }
  }

  lemma {:induction false} OctalIsOneByte(s: seq<byte>)
    requires |s| == 3 && ParseOctal(s).Parsed?
    ensures |ParseOctal(s).value| == 1
  {}

  /** The parser reads one piece. */
  lemma {:induction false} PieceIsRead(t: seq<byte>, n: nat, b: byte)
    requires n <= |t| && PieceOf(t[..n], b)
    ensures ParseEscaped(t) == Prepend([b], ParseEscaped(t[n..]))
  {
    assert n >= 1 && t[0] == t[..n][0];
    if n == 4 && t[0] == 92 {
      assert t[1] == t[..n][1] && t[2] == t[..n][2] && t[3] == t[..n][3];
      assert t[1..4] == [t[1], t[2], t[3]];
      OctalIff(t[1], t[2], t[3], b);
    } else if n == 2 {
      assert t[1] == t[..n][1];
    }
  }

  /** And nothing else than pieces. */
  lemma {:induction false} FirstPiece(t: seq<byte>) returns (n: nat, b: byte)
    requires t != [] && ParseEscaped(t).Parsed?
    ensures 1 <= n <= |t| && PieceOf(t[..n], b) && ParseEscaped(t) == Prepend([b], ParseEscaped(t[n..]))
  {
    if t[0] != 92 {
      n, b := 1, t[0];
      assert t[..1] == [b];
    } else if |t| >= 2 && t[1] == 92 {
      n, b := 2, 92;
      assert t[..2] == [92, 92];
    } else {
      OctalIsOneByte(t[1..4]);
      n, b := 4, ParseOctal(t[1..4]).value[0];
      assert t[1..4] == [t[1], t[2], t[3]] && ParseOctal(t[1..4]).value == [b];
      OctalIff(t[1], t[2], t[3], b);
      assert t[..4] == [t[0], t[1], t[2], t[3]];
    }
  }

  lemma {:induction false} SpelledIsParsed(t: seq<byte>, v: seq<byte>)
    requires Spells(t, v)
    ensures ParseEscaped(t) == Parsed(v)
    decreases |v|
  {
    if v != [] {
      var n :| 0 <= n <= |t| && PieceOf(t[..n], v[0]) && Spells(t[n..], v[1..]);
      PieceIsRead(t, n, v[0]);
      SpelledIsParsed(t[n..], v[1..]);
      assert [v[0]] + v[1..] == v;
    }
  }

  lemma {:induction false} ParsedIsSpelled(t: seq<byte>, v: seq<byte>)
    requires ParseEscaped(t) == Parsed(v)
    ensures Spells(t, v)
    decreases |t|
  {
    if t != [] {
      var n, b := FirstPiece(t);
      assert v[0] == b && v[1..] == ParseEscaped(t[n..]).value;
      ParsedIsSpelled(t[n..], v[1..]);
    }
  }

  /** A text without the hex prefix is parsed as `v` exactly when it is made of pieces
      that stand for its bytes; everything else is rejected. */
  lemma {:induction false} ParsedIff(t: seq<byte>, v: seq<byte>)
    requires !HasHexPrefix(t)
    ensures Parse(t) == Parsed(v) <==> Spells(t, v)
  {
    if Spells(t, v) { SpelledIsParsed(t, v); }
    if ParseEscaped(t) == Parsed(v) { ParsedIsSpelled(t, v); }
  }
}
