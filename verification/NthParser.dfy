/** The argument of :nth-child (section 6.6.5.2 of Selectors Level 3): cascadia's
    hand-written parser with its cursor.  The functions here say what the parser
    does from a position on; module NthGrammar compares them with the grammar. */
module NthParser {
  import opened Integers
  import opened Options

  /** `end` is where the cursor stops. */
  datatype Parsing = Parsed(a: int, b: int, end: nat) | Failed

  datatype Number = Number(value: nat, end: nat) | NoNumber

  // ---------------------------------------------------------------- lexical parts

  predicate IsSpace(c: char) { c == ' ' || c == '\t' || c == '\r' || c == '\n' || c == '\U{000C}' }

  predicate IsDigit(c: char) { '0' <= c <= '9' }

  predicate IsN(c: char) { c == 'n' || c == 'N' }

  predicate IsSign(c: char) { c == '+' || c == '-' }

  /** The end of the first comment terminator at or behind `i`. */
  function CommentEnd(s: string, i: nat): (e: Option<nat>)
    ensures e.Some? ==> i + 2 <= e.value <= |s|
    decreases |s| - i
  {
    if i + 2 > |s| then None
    else if s[i] == '*' && s[i + 1] == '/' then Some(i + 2)
    else CommentEnd(s, i + 1)
  }

  /** The end of the comment that starts at `i`. */
  function Comment(s: string, i: nat): (e: Option<nat>)
    ensures e.Some? ==> i + 4 <= e.value <= |s|
  {
    if i + 2 <= |s| && s[i] == '/' && s[i + 1] == '*' then CommentEnd(s, i + 2) else None
  }

  /** Where skipWhitespace stops: behind spaces and comments. */
  function Skip(s: string, i: nat): (e: nat)
    requires i <= |s|
    ensures i <= e <= |s|
    decreases |s| - i
  {
    if i == |s| then i
    else if IsSpace(s[i]) then Skip(s, i + 1)
    else
      var e := Comment(s, i);
      if e.None? then i else Skip(s, e.value)
  }

  function DigitsEnd(s: string, i: nat): (e: nat)
    requires i <= |s|
    ensures i <= e <= |s| && Digits(s, i, e)
    decreases |s| - i
  {
    if i < |s| && IsDigit(s[i]) then DigitsEnd(s, i + 1) else i
  }

  predicate Digits(s: string, i: nat, j: nat) {
    j <= |s| && forall k :: i <= k < j ==> IsDigit(s[k])
  }

  /** The decimal number s[i..j]. */
  function Value(s: string, i: nat, j: nat): nat
    requires i <= j && Digits(s, i, j)
    decreases j
  {
    if i == j then 0 else 10 * Value(s, i, j - 1) + (s[j - 1] - '0') as nat
  }

  /** parseInteger: strconv.Atoi rejects what does not fit 64 bits. */
  function Integer(s: string, i: nat): (r: Number)
    requires i <= |s|
    ensures r.Number? ==> i < r.end <= |s|
  {
    var e := DigitsEnd(s, i);
    if e == i || Value(s, i, e) > MAX_INT64 then NoNumber else Number(Value(s, i, e), e)
  }

  function Signed(negative: bool, n: nat): int {
    var v: int := n;
    if negative then -v else v
  }

  // ---------------------------------------------------------------- parseNth

  /** Behind a sign at `k`: space and a number. */
  function ReadB(s: string, k: nat, a: int): (r: Parsing)
    requires k < |s|
    ensures r.Parsed? ==> k < r.end <= |s|
  {
    var n := Integer(s, Skip(s, k + 1));
    if n.NoNumber? then Failed else Parsed(a, Signed(s[k] == '-', n.value), n.end)
  }

  /** Behind the "n": an optional signed number, with space around the sign. */
  function ReadN(s: string, i: nat, a: int): (r: Parsing)
    requires i <= |s|
    ensures r.Parsed? ==> i <= r.end <= |s|
  {
    var k := Skip(s, i);
    if k == |s| then Failed
    else if IsSign(s[k]) then ReadB(s, k, a)
    else Parsed(a, 0, k)
  }

  /** Behind an optional sign: a number, "n", or both. */
  function ReadA(s: string, i: nat, negative: bool): (r: Parsing)
    requires i <= |s|
    ensures r.Parsed? ==> i <= r.end <= |s|
  {
    if i == |s| then Failed
    else if IsDigit(s[i]) then
      var n := Integer(s, i);
      if n.NoNumber? || n.end == |s| then Failed
      else if IsN(s[n.end]) then ReadN(s, n.end + 1, Signed(negative, n.value))
      else Parsed(0, Signed(negative, n.value), n.end)
    else if IsN(s[i]) then ReadN(s, i + 1, Signed(negative, 1))
    else Failed
  }

  predicate IsName(c: char) {
    'a' <= c <= 'z' || 'A' <= c <= 'Z' || c == '_' || c > '\U{007F}' || c == '-' || IsDigit(c)
  }

  predicate Letter(c: char, lower: char) {
    c == lower || ('A' <= c <= 'Z' && c as int + 32 == lower as int)
  }

  predicate IsOdd(t: string) { |t| == 3 && Letter(t[0], 'o') && Letter(t[1], 'd') && Letter(t[2], 'd') }

  predicate IsEven(t: string) {
    |t| == 4 && Letter(t[0], 'e') && Letter(t[1], 'v') && Letter(t[2], 'e') && Letter(t[3], 'n')
  }

  // ---------------------------------------------------------------- names and their escapes

  predicate IsHex(c: char) { IsDigit(c) || 'a' <= c <= 'f' || 'A' <= c <= 'F' }

  predicate AllHex(d: string) { forall k :: 0 <= k < |d| ==> IsHex(d[k]) }

  function HexDigit(c: char): (r: nat)
    requires IsHex(c)
    ensures r < 16
  {
    (if IsDigit(c) then c - '0' else if 'a' <= c then c - 'a' + 10 as char else c - 'A' + 10 as char) as nat
  }

  function HexNumber(d: string): nat
    requires AllHex(d)
  {
    if d == "" then 0 else 16 * HexNumber(d[..|d| - 1]) + HexDigit(d[|d| - 1])
  }

  /** rune(v) in a string: U+FFFD stands for what is no character. */
  function Rune(v: nat): char
    requires v < 0x10_0000
  {
    if 0xD800 <= v < 0xE000 then '\U{FFFD}' else v as char
  }

  function Pow16(n: nat): nat { if n == 0 then 1 else 16 * Pow16(n - 1) }

  lemma {:induction false} HexBelow(d: string)
    requires AllHex(d)
    ensures HexNumber(d) < Pow16(|d|)
  {
    if d != "" { HexBelow(d[..|d| - 1]); }
  }

  lemma {:induction false} SmallPowers(n: nat)
    requires n <= 5
    ensures Pow16(n) <= 0x10_0000
  {
    assert Pow16(0) == 1 && Pow16(1) == 16 && Pow16(2) == 0x100;
    assert Pow16(3) == 0x1000;
    assert Pow16(4) == 0x1_0000;
    assert Pow16(5) == 0x10_0000;
  }

  lemma {:induction false} HexBound(d: string)
    requires AllHex(d) && |d| <= 5
    ensures HexNumber(d) < 0x10_0000
  {
    HexBelow(d);
    SmallPowers(|d|);
  }

  /** The end of a run of hex digits that stops at `limit`. */
  function HexEnd(s: string, i: nat, limit: nat): (e: nat)
    requires i <= |s| && i <= limit
    ensures i <= e <= |s| && e <= limit && AllHex(s[i..e])
    ensures e < |s| && e < limit ==> !IsHex(s[e])
    decreases limit - i
  {
    if i == limit || i == |s| || !IsHex(s[i]) then i
    else
      assert s[i..HexEnd(s, i + 1, limit)] == [s[i]] + s[i + 1..HexEnd(s, i + 1, limit)];
      HexEnd(s, i + 1, limit)
  }

  predicate IsLineEnd(c: char) { c == '\r' || c == '\n' || c == '\U{000C}' }

  /** Behind the white space that may end a hexadecimal escape. */
  function SpaceEnd(s: string, i: nat): (e: nat)
    requires i <= |s|
    ensures i <= e <= |s|
  {
    if i == |s| || !IsSpace(s[i]) then i
    else if s[i] == '\r' && i + 1 < |s| && s[i + 1] == '\n' then i + 2
    else i + 1
  }

  datatype Escaping = Escaped(c: char, end: nat) | BadEscape

  /** parseEscape: up to five hex digits and one white space, or the next character itself. */
  function Escape(s: string, i: nat): (r: Escaping)
    requires i <= |s|
    ensures r.Escaped? ==> i + 2 <= r.end <= |s|
  {
    if i + 2 > |s| || s[i] != '\\' || IsLineEnd(s[i + 1]) then BadEscape
    else if IsHex(s[i + 1]) then
      var e := HexEnd(s, i + 1, i + 6);
      HexBound(s[i + 1..e]);
      Escaped(Rune(HexNumber(s[i + 1..e])), SpaceEnd(s, e))
    else Escaped(s[i + 1], i + 2)
  }

  datatype Naming = Named(text: string, end: nat) | BadName

  function Cons(c: char, r: Naming): Naming {
    if r.BadName? then BadName else Named([c] + r.text, r.end)
  }

  /** The run of name characters and escapes at `i`, decoded. */
  function Name(s: string, i: nat): (r: Naming)
    requires i <= |s|
    ensures r.Named? ==> i <= r.end <= |s|
    decreases |s| - i
  {
    if i == |s| then Named("", i)
    else if IsName(s[i]) then Cons(s[i], Name(s, i + 1))
    else if s[i] == '\\' then
      var e := Escape(s, i);
      if e.BadEscape? then BadName else Cons(e.c, Name(s, e.end))
    else Named("", i)
  }

  /** The keywords, in letters of either case, however they are spelled. */
  function Keyword(s: string, i: nat): (r: Parsing)
    requires i <= |s|
    ensures r.Parsed? ==> i <= r.end <= |s|
  {
    match Name(s, i)
    case BadName => Failed
    case Named(text, end) => if IsOdd(text) then Parsed(2, 1, end) else if IsEven(text) then Parsed(2, 0, end) else Failed
  }

  predicate StartsKeyword(c: char) { Letter(c, 'o') || Letter(c, 'e') }

  function Nth(s: string, i: nat): (r: Parsing)
    requires i <= |s|
    ensures r.Parsed? ==> i <= r.end <= |s|
  {
    if i == |s| then Failed
    else if IsSign(s[i]) then ReadA(s, i + 1, s[i] == '-')
    else if StartsKeyword(s[i]) then Keyword(s, i)
    else ReadA(s, i, false)
  }

  /** What was read so far, and the rest of the name. */
  function Prepend(t: string, r: Naming): Naming {
    if r.BadName? then BadName else Named(t + r.text, r.end)
  }

  lemma PrependOne(t: string, c: char, r: Naming)
    ensures Prepend(t, Cons(c, r)) == Prepend(t + [c], r)
  {
    if r.Named? { assert t + ([c] + r.text) == (t + [c]) + r.text; }
  }

  lemma PrependTwo(t: string, u: string, r: Naming)
    ensures Prepend(t, Prepend(u, r)) == Prepend(t + u, r)
  {
    if r.Named? { assert t + (u + r.text) == (t + u) + r.text; }
  }

  // ---------------------------------------------------------------- the parser

  class Parser {
    const s: string
    var i: nat

    ghost predicate Valid()
      reads this
    {
      i <= |s|
    }

    constructor (s: string)
      ensures this.s == s && i == 0
    {
      this.s := s;
      i := 0;
    }

    /** The comment at `j`: strings.Index looks for its end. */
    method CommentAt(j: nat) returns (e: Option<nat>)
      ensures e == Comment(s, j)
    {
      if j + 2 > |s| || s[j] != '/' || s[j + 1] != '*' { return None; }
      var k := j + 2;
      while k + 2 <= |s|
        invariant CommentEnd(s, j + 2) == CommentEnd(s, k)
      {
        if s[k] == '*' && s[k + 1] == '/' { return Some(k + 2); }
        k := k + 1;
      }
      e := None;
    }

    /** skipWhitespace */
    method SkipWhitespace() returns (skipped: bool)
      requires Valid()
      modifies this`i
      ensures Valid() && i == Skip(s, old(i)) && (skipped <==> i > old(i))
    {
      var j := i;
      while j < |s|
        invariant i == old(i) <= j <= |s|
        invariant Skip(s, i) == Skip(s, j)
      {
        if IsSpace(s[j]) {
          j := j + 1;
        } else {
          var e := CommentAt(j);
          if e.None? { break; }
          j := e.value;
        }
      }
      skipped := j > i;
      i := j;
    }

    /** parseInteger */
    method ParseInteger() returns (r: Number)
      requires Valid()
      modifies this`i
      ensures Valid() && r == Integer(s, old(i)) && (r.Number? ==> i == r.end)
    {
      var start, j := i, i;
      while j < |s| && IsDigit(s[j])
        invariant start <= j <= |s|
        invariant DigitsEnd(s, start) == DigitsEnd(s, j)
      {
        j := j + 1;
      }
      if j == start { return NoNumber; }
      i := j;
      r := if Value(s, start, j) > MAX_INT64 then NoNumber else Number(Value(s, start, j), j);
    }

    /** The label readN */
    method ParseReadN(a: int) returns (r: Parsing)
      requires Valid()
      modifies this`i
      ensures Valid() && r == ReadN(s, old(i), a) && (r.Parsed? ==> i == r.end)
    {
      var skipped := SkipWhitespace();
      if i >= |s| { return Failed; }
      var c := s[i];
      if c != '+' && c != '-' { return Parsed(a, 0, i); }
      i := i + 1;
      skipped := SkipWhitespace();
      var b := ParseInteger();
      if b.NoNumber? { return Failed; }
      r := Parsed(a, Signed(c == '-', b.value), i);
    }

    /** The labels positiveA, negativeA and readA */
    method ParseReadA(negative: bool) returns (r: Parsing)
      requires Valid()
      modifies this`i
      ensures Valid() && r == ReadA(s, old(i), negative) && (r.Parsed? ==> i == r.end)
    {
      if i >= |s| { return Failed; }
      if IsDigit(s[i]) {
        var n := ParseInteger();
        if n.NoNumber? || i >= |s| { return Failed; }
        var a := Signed(negative, n.value);
        if !IsN(s[i]) { return Parsed(0, a, i); }
        i := i + 1;
        r := ParseReadN(a);
      } else if IsN(s[i]) {
        i := i + 1;
        r := ParseReadN(Signed(negative, 1));
      } else {
        r := Failed;
      }
    }

    /** The loop over the hex digits of an escape that starts at `i`. */
    method HexRun(start: nat) returns (e: nat)
      requires Valid() && i < start <= |s|
      ensures e == HexEnd(s, start, start + 5)
    {
      e := start;
      while e < start + 5 && e < |s| && IsHex(s[e])
        invariant start <= e <= |s| && e <= start + 5
        invariant HexEnd(s, start, start + 5) == HexEnd(s, e, start + 5)
      {
        e := e + 1;
      }
    }

    /** parseEscape */
    method ParseEscape() returns (r: Escaping)
      requires Valid()
      modifies this`i
      ensures Valid() && r == Escape(s, old(i)) && (r.Escaped? ==> i == r.end)
    {
      if |s| < i + 2 || s[i] != '\\' { return BadEscape; }
      var start := i + 1;
      var c := s[start];
      if c == '\r' || c == '\n' || c == '\U{000C}' { return BadEscape; }
      if !IsHex(c) {
        i := i + 2;
        return Escaped(c, i);
      }
      var j := HexRun(start);
      HexBound(s[start..j]);
      var v := HexNumber(s[start..j]);
      if |s| > j {
        if s[j] == '\r' {
          j := j + 1;
          if |s| > j && s[j] == '\n' { j := j + 1; }
        } else if IsSpace(s[j]) {
          j := j + 1;
        }
      }
      i := j;
      r := Escaped(Rune(v), i);
    }

    /** A run of name characters is taken in one go. */
    method NameRun(start: nat) returns (j: nat)
      requires start < |s| && IsName(s[start])
      ensures start < j <= |s| && Name(s, start) == Prepend(s[start..j], Name(s, j))
    {
      j := start;
      while j < |s| && IsName(s[j])
        invariant start <= j <= |s| && Name(s, start) == Prepend(s[start..j], Name(s, j))
      {
        assert s[start..j + 1] == s[start..j] + [s[j]];
        PrependOne(s[start..j], s[j], Name(s, j + 1));
        j := j + 1;
      }
    }

    /** parseName: an empty name is an error too. */
    method ParseName() returns (r: Naming)
      requires Valid()
      modifies this`i
      ensures Valid() && (r.Named? ==> i == r.end)
      ensures r == if Name(s, old(i)).Named? && Name(s, old(i)).text == "" then BadName else Name(s, old(i))
    {
      var j, result := i, "";
      while j < |s|
        invariant Valid() && j <= |s| && Name(s, old(i)) == Prepend(result, Name(s, j))
        decreases |s| - j
      {
        if IsName(s[j]) {
          var k := NameRun(j);
          PrependTwo(result, s[j..k], Name(s, k));
          result, j := result + s[j..k], k;
        } else if s[j] == '\\' {
          i := j;
          var e := ParseEscape();
          if e.BadEscape? { return BadName; }
          PrependOne(result, e.c, Name(s, i));
          result, j := result + [e.c], i;
        } else {
          break;
        }
      }
      assert result + "" == result;
      if result == "" { return BadName; }
      i := j;
      r := Named(result, j);
    }

    /** parseNth */
    method ParseNth() returns (r: Parsing)
      requires Valid()
      modifies this`i
      ensures Valid() && r == Nth(s, old(i)) && (r.Parsed? ==> i == r.end)
    {
      if i >= |s| { return Failed; }
      if s[i] == '-' || s[i] == '+' {
        var negative := s[i] == '-';
        i := i + 1;
        r := ParseReadA(negative);
      } else if StartsKeyword(s[i]) {
        var id := ParseName();
        if id.BadName? { return Failed; }
        r := if IsOdd(id.text) then Parsed(2, 1, i) else if IsEven(id.text) then Parsed(2, 0, i) else Failed;
      } else {
        r := ParseReadA(false);
      }
    }
  }
}
