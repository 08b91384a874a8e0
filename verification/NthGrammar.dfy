/** The forms an :nth-child argument can take, what each means, and the proof
    that the parser reads every form as what it means, up to the closing
    parenthesis, and accepts nothing else. */
module NthGrammar {
  import opened NthParser
  import opened NthWords
  import opened Integers
  import opened Options

  datatype Sign = NoSign | Plus | Minus

  datatype Tail = NoTail | Tail(minus: bool, gap: string, digits: string)

  datatype Form =
    | Only(sign: Sign, digits: string)                                     // +3
    | Multiple(sign: Sign, digits: string, n: char, gap: string, tail: Tail)  // -2n + 1; digits may be empty
    | Word(text: string, word: string)                                     // odd, even, also spelled od\64

  predicate AllDigits(d: string) { Digits(d, 0, |d|) }

  function Decimal(d: string): nat
    requires AllDigits(d)
  {
    Value(d, 0, |d|)
  }

  /** A comment: opened, closed, and not closed before its end. */
  predicate IsComment(g: string, i: nat, j: nat) {
    && i + 4 <= j <= |g|
    && g[i] == '/' && g[i + 1] == '*' && g[j - 2] == '*' && g[j - 1] == '/'
    && forall k :: i + 2 <= k < j - 2 ==> !(g[k] == '*' && g[k + 1] == '/')
  }

  /** From `i` on there are only spaces and comments. */
  ghost predicate Spaced(g: string, i: nat)
    requires i <= |g|
    decreases |g| - i
  {
    || i == |g|
    || (IsSpace(g[i]) && Spaced(g, i + 1))
    || exists j :: IsComment(g, i, j) && Spaced(g, j)
  }

  ghost predicate IsGap(g: string) { Spaced(g, 0) }

  ghost predicate TailOK(t: Tail) {
    t.Tail? ==> IsGap(t.gap) && AllDigits(t.digits) && t.digits != ""
  }

  /** Only a name whose first letter stands for itself is tried as a keyword. */
  ghost predicate IsKeyword(text: string, word: string) {
    (IsOdd(word) || IsEven(word)) && Spells(text, 0, word) && text != "" && IsName(text[0])
  }

  ghost predicate WellFormed(f: Form) {
    match f
    case Only(_, digits) => AllDigits(digits) && digits != ""
    case Multiple(_, digits, n, gap, tail) => AllDigits(digits) && IsN(n) && IsGap(gap) && TailOK(tail)
    case Word(text, word) => IsKeyword(text, word)
  }

  /** All numbers fit an int. */
  predicate Fits(f: Form)
    requires WellFormed(f)
  {
    match f
    case Only(_, digits) => Decimal(digits) <= MAX_INT64
    case Multiple(_, digits, _, _, tail) =>
      Decimal(digits) <= MAX_INT64 && (tail.Tail? ==> Decimal(tail.digits) <= MAX_INT64)
    case Word(_, _) => true
  }

  /** The number before "n": one if it is left out. */
  function Coefficient(sign: Sign, digits: string): int
    requires AllDigits(digits)
  {
    Signed(sign.Minus?, if digits == "" then 1 else Decimal(digits))
  }

  /** The a and b of an+b. */
  function Meaning(f: Form): (int, int)
    requires WellFormed(f)
  {
    match f
    case Only(sign, digits) => (0, Signed(sign.Minus?, Decimal(digits)))
    case Multiple(sign, digits, _, _, tail) =>
      (Coefficient(sign, digits),
       if tail.NoTail? then 0 else Signed(tail.minus, Decimal(tail.digits)))
    case Word(_, word) => (2, if IsOdd(word) then 1 else 0)
  }

  /** The meanings, spelled out: a number alone is the offset; an omitted factor is
      one, an omitted tail zero; odd is 2n+1 and even 2n. */
  lemma {:induction false} MeaningIs(f: Form)
    requires WellFormed(f)
    ensures f.Only? ==> Meaning(f) == (0, if f.sign == Minus then 0 - Decimal(f.digits) else Decimal(f.digits))
    ensures f.Multiple? ==>
      && (f.digits == "" ==> Meaning(f).0 == if f.sign == Minus then -1 else 1)
      && (f.digits != "" ==> Meaning(f).0 == if f.sign == Minus then 0 - Decimal(f.digits) else Decimal(f.digits))
      && (f.tail == NoTail ==> Meaning(f).1 == 0)
      && (f.tail.Tail? ==> Meaning(f).1 == if f.tail.minus then 0 - Decimal(f.tail.digits) else Decimal(f.tail.digits))
    ensures f.Word? && |f.word| == 3 ==>
      Meaning(f) == (2, 1) && f.word[0] in "oO" && f.word[1] in "dD" && f.word[2] in "dD"
    ensures f.Word? && |f.word| == 4 ==>
      Meaning(f) == (2, 0) && f.word[0] in "eE" && f.word[1] in "vV" && f.word[2] in "eE" && f.word[3] in "nN"
    ensures f.Word? ==> |f.word| == 3 || |f.word| == 4
  {}

  // ---------------------------------------------------------------- what stands at a position

  /** A run of digits that ends here is read whole, with its value. */
  lemma DigitsAt(s: string, i: nat, d: string)
    requires At(s, i, d) && AllDigits(d)
    requires i + |d| < |s| ==> !IsDigit(s[i + |d|])
    ensures DigitsEnd(s, i) == i + |d|
    ensures Value(s, i, i + |d|) == Decimal(d)
  {
    DigitsFrom(s, i, d, 0);
    ValueAt(s, i, d, |d|);
  }

  lemma {:induction false} DigitsFrom(s: string, i: nat, d: string, j: nat)
    requires At(s, i, d) && AllDigits(d) && j <= |d|
    requires i + |d| < |s| ==> !IsDigit(s[i + |d|])
    ensures DigitsEnd(s, i + j) == i + |d|
    decreases |d| - j
  {
    if j < |d| {
      CharAt(s, i, d, j);
      DigitsFrom(s, i, d, j + 1);
    }
  }

  lemma {:induction false} ValueAt(s: string, i: nat, d: string, j: nat)
    requires At(s, i, d) && AllDigits(d) && j <= |d|
    ensures Digits(s, i, i + j) && Value(s, i, i + j) == Value(d, 0, j)
  {
    forall k | i <= k < i + j ensures IsDigit(s[k]) { assert s[i + (k - i)] == d[k - i]; }
    if j > 0 { ValueAt(s, i, d, j - 1); }
  }

  lemma IntegerAt(s: string, i: nat, d: string)
    requires At(s, i, d) && AllDigits(d) && d != ""
    requires i + |d| < |s| ==> !IsDigit(s[i + |d|])
    ensures Integer(s, i) == if Decimal(d) <= MAX_INT64 then Number(Decimal(d), i + |d|) else NoNumber
  {
    DigitsAt(s, i, d);
  }

  lemma {:induction false} CommentEndAt(s: string, i: nat, g: string, j: nat)
    requires At(s, i, g) && CommentEnd(g, j).Some?
    ensures CommentEnd(s, i + j) == Some(i + CommentEnd(g, j).value)
    decreases |g| - j
  {
    assert s[i + j] == g[j] && s[i + (j + 1)] == g[j + 1];
    if !(g[j] == '*' && g[j + 1] == '/') { CommentEndAt(s, i, g, j + 1); }
  }

  /** No gap goes on at `i`. */
  predicate Stops(s: string, i: nat) {
    i < |s| && !IsSpace(s[i]) && s[i] != '/'
  }

  lemma {:induction false} GapFrom(s: string, i: nat, g: string, j: nat)
    requires At(s, i, g) && j <= |g| && Skip(g, j) == |g| && Stops(s, i + |g|)
    ensures Skip(s, i + j) == i + |g|
    decreases |g| - j
  {
    if j < |g| {
      assert s[i + j] == g[j];
      if IsSpace(g[j]) {
        GapFrom(s, i, g, j + 1);
      } else {
        var e := Comment(g, j).value;
        assert s[i + (j + 1)] == g[j + 1];
        CommentEndAt(s, i, g, j + 2);
        GapFrom(s, i, g, e);
      }
    }
  }

  lemma GapAt(s: string, i: nat, g: string)
    requires At(s, i, g) && IsGap(g) && Stops(s, i + |g|)
    ensures Skip(s, i) == i + |g|
  {
    SkipIsSpaced(g, 0);
    GapFrom(s, i, g, 0);
  }

  // ---------------------------------------------------------------- what skipWhitespace skips

  /** The search for the end of a comment finds its first end. */
  lemma {:induction false} CommentEndIs(g: string, i: nat, k: nat, j: nat)
    requires IsComment(g, i, j) && i + 2 <= k <= j - 2
    ensures CommentEnd(g, k) == Some(j)
    decreases j - k
  {
    if k < j - 2 { CommentEndIs(g, i, k + 1, j); }
  }

  lemma {:induction false} CommentEndFound(g: string, k: nat)
    requires CommentEnd(g, k).Some?
    ensures
      var e := CommentEnd(g, k).value;
      && g[e - 2] == '*' && g[e - 1] == '/'
      && forall l :: k <= l < e - 2 ==> !(g[l] == '*' && g[l + 1] == '/')
    decreases |g| - k
  {
    if !(g[k] == '*' && g[k + 1] == '/') { CommentEndFound(g, k + 1); }
  }

  lemma {:induction false} CommentIff(g: string, i: nat, j: nat)
    ensures Comment(g, i) == Some(j) <==> IsComment(g, i, j)
  {
    if IsComment(g, i, j) { CommentEndIs(g, i, i + 2, j); }
    if Comment(g, i) == Some(j) { CommentEndFound(g, i + 2); }
  }

  /** skipWhitespace reaches the end exactly over spaces and comments. */
  lemma {:induction false} SkipIsSpaced(g: string, i: nat)
    requires i <= |g|
    ensures Skip(g, i) == |g| <==> Spaced(g, i)
    decreases |g| - i
  {
    if i < |g| {
      if IsSpace(g[i]) {
        SkipIsSpaced(g, i + 1);
        assert forall j :: !IsComment(g, i, j);
      } else {
        forall j ensures Comment(g, i) == Some(j) <==> IsComment(g, i, j) {
          if j >= 0 { CommentIff(g, i, j); }
        }
        if Comment(g, i).Some? { SkipIsSpaced(g, Comment(g, i).value); }
      }
    }
  }

  // ---------------------------------------------------------------- where the parts of a form stand

  function SignLength(sign: Sign): nat { if sign.NoSign? then 0 else 1 }

  predicate SignPlaced(s: string, i: nat, sign: Sign) {
    !sign.NoSign? ==> i < |s| && s[i] == if sign.Minus? then '-' else '+'
  }

  /** The tail stands from `k` to `e`. */
  predicate TailPlaced(s: string, k: nat, tail: Tail, e: nat) {
    match tail
    case NoTail => e == k <= |s|
    case Tail(minus, gap, digits) =>
      && k < |s| && s[k] == (if minus then '-' else '+')
      && At(s, k + 1, gap) && At(s, k + 1 + |gap|, digits) && e == k + 1 + |gap| + |digits|
  }

  /** The form stands from `i` to `e`, its sign apart. */
  predicate BodyPlaced(s: string, i: nat, f: Form, e: nat) {
    match f
    case Only(_, digits) => At(s, i, digits) && e == i + |digits|
    case Multiple(_, digits, n, gap, tail) =>
      var m := i + |digits|;
      At(s, i, digits) && m < |s| && s[m] == n && At(s, m + 1, gap) && TailPlaced(s, m + 1 + |gap|, tail, e)
    case Word(text, _) => At(s, i, text) && e == i + |text|
  }

  /** The form stands in the text from `i` to `e`. */
  predicate StandsAt(s: string, i: nat, f: Form, e: nat) {
    if f.Word? then BodyPlaced(s, i, f, e) else SignPlaced(s, i, f.sign) && BodyPlaced(s, i + SignLength(f.sign), f, e)
  }

  // ---------------------------------------------------------------- every form is read as what it means

  lemma {:induction false} SignedAt(s: string, k: nat, a: int, tail: Tail, e: nat)
    requires tail.Tail? && TailOK(tail) && TailPlaced(s, k, tail, e) && e < |s| && s[e] == ')'
    ensures ReadB(s, k, a) == ReadTail(a, tail, e)
  {
    var j := k + 1 + |tail.gap|;
    CharAt(s, j, tail.digits, 0);
    GapAt(s, k + 1, tail.gap);
    IntegerAt(s, j, tail.digits);
  }

  /** What ReadN makes of a tail. */
  function ReadTail(a: int, tail: Tail, e: nat): Parsing
    requires TailOK(tail)
  {
    if tail.NoTail? then Parsed(a, 0, e)
    else if Decimal(tail.digits) <= MAX_INT64 then Parsed(a, Signed(tail.minus, Decimal(tail.digits)), e)
    else Failed
  }

  lemma {:induction false} TailAt(s: string, i: nat, a: int, gap: string, tail: Tail, e: nat)
    requires IsGap(gap) && TailOK(tail) && At(s, i, gap) && TailPlaced(s, i + |gap|, tail, e) && e < |s| && s[e] == ')'
    ensures ReadN(s, i, a) == ReadTail(a, tail, e)
  {
    if tail.Tail? { SignedAt(s, i + |gap|, a, tail, e); }
    GapAt(s, i, gap);
  }

  /** Number and "n" are read; what follows is left to ReadN. */
  lemma CoefficientAt(s: string, i: nat, sign: Sign, digits: string)
    requires AllDigits(digits) && At(s, i, digits) && i + |digits| < |s| && IsN(s[i + |digits|])
    ensures ReadA(s, i, sign.Minus?) ==
      if Decimal(digits) <= MAX_INT64 then ReadN(s, i + |digits| + 1, Coefficient(sign, digits)) else Failed
  {
    if digits != "" {
      CharAt(s, i, digits, 0);
      IntegerAt(s, i, digits);
    }
  }

  /** Rejected exactly when a number does not fit. */
  lemma {:induction false} ReadTailFits(f: Form, e: nat)
    requires f.Multiple? && WellFormed(f)
    ensures
      var r := ReadTail(Coefficient(f.sign, f.digits), f.tail, e);
      (if Decimal(f.digits) <= MAX_INT64 then r else Failed) == if Fits(f) then Parsed(Meaning(f).0, Meaning(f).1, e) else Failed
  {}

  lemma {:induction false} MultipleAt(s: string, i: nat, f: Form, e: nat)
    requires f.Multiple? && WellFormed(f) && BodyPlaced(s, i, f, e) && e < |s| && s[e] == ')'
    ensures ReadA(s, i, f.sign.Minus?) == if Fits(f) then Parsed(Meaning(f).0, Meaning(f).1, e) else Failed
  {
    CoefficientAt(s, i, f.sign, f.digits);
    TailAt(s, i + |f.digits| + 1, Coefficient(f.sign, f.digits), f.gap, f.tail, e);
    ReadTailFits(f, e);
  }

  lemma {:induction false} OnlyAt(s: string, i: nat, f: Form, e: nat)
    requires f.Only? && WellFormed(f) && BodyPlaced(s, i, f, e) && e < |s| && s[e] == ')'
    ensures ReadA(s, i, f.sign.Minus?) == if Fits(f) then Parsed(Meaning(f).0, Meaning(f).1, e) else Failed
  {
    CharAt(s, i, f.digits, 0);
    IntegerAt(s, i, f.digits);
  }

  lemma {:induction false} FirstLetter(text: string, word: string)
    requires IsKeyword(text, word)
    ensures text[0] == word[0] && StartsKeyword(text[0])
  {}

  lemma {:induction false} WordAt(s: string, i: nat, f: Form, e: nat)
    requires f.Word? && WellFormed(f) && BodyPlaced(s, i, f, e) && e < |s| && s[e] == ')'
    ensures Nth(s, i) == Parsed(Meaning(f).0, Meaning(f).1, e)
  {
    NameAt(s, i, f.text, 0, f.word);
    CharAt(s, i, f.text, 0);
    FirstLetter(f.text, f.word);
  }

  /** Behind its sign a form starts with a digit or "n". */
  lemma {:induction false} BodyStart(s: string, i: nat, f: Form, e: nat)
    requires !f.Word? && WellFormed(f) && BodyPlaced(s, i, f, e)
    ensures i < |s| && (IsDigit(s[i]) || IsN(s[i]))
  {
    if f.digits != "" { CharAt(s, i, f.digits, 0); }
  }

  /** A leading sign is taken off. */
  lemma {:induction false} SignAt(s: string, i: nat, sign: Sign)
    requires var k := i + SignLength(sign); SignPlaced(s, i, sign) && k < |s| && (IsDigit(s[k]) || IsN(s[k]))
    ensures Nth(s, i) == ReadA(s, i + SignLength(sign), sign.Minus?)
  {}

  /** Every form, wherever it stands before a closing parenthesis, is read as
      what it means, with the cursor left on the parenthesis; it is rejected
      exactly when one of its numbers does not fit an int. */
  lemma {:induction false} FormIsRead(s: string, i: nat, f: Form, e: nat)
    requires WellFormed(f) && StandsAt(s, i, f, e) && e < |s| && s[e] == ')'
    ensures Nth(s, i) == if Fits(f) then Parsed(Meaning(f).0, Meaning(f).1, e) else Failed
  {
    if f.Word? {
      WordAt(s, i, f, e);
    } else {
      var k := i + SignLength(f.sign);
      BodyStart(s, k, f, e);
      SignAt(s, i, f.sign);
      if f.Only? { OnlyAt(s, k, f, e); } else { MultipleAt(s, k, f, e); }
    }
  }

  // ---------------------------------------------------------------- nothing else is accepted

  lemma {:induction false} CommentEndWithin(s: string, i: nat, g: string, j: nat)
    requires At(s, i, g) && CommentEnd(s, i + j).Some? && CommentEnd(s, i + j).value <= i + |g|
    ensures CommentEnd(g, j) == Some(CommentEnd(s, i + j).value - i)
    decreases |g| - j
  {
    assert s[i + j] == g[j] && s[i + (j + 1)] == g[j + 1];
    if !(g[j] == '*' && g[j + 1] == '/') { CommentEndWithin(s, i, g, j + 1); }
  }

  lemma {:induction false} GapWithin(s: string, i: nat, g: string, j: nat)
    requires At(s, i, g) && j <= |g| && Skip(s, i + j) == i + |g|
    ensures Skip(g, j) == |g|
    decreases |g| - j
  {
    if j < |g| {
      assert s[i + j] == g[j];
      if IsSpace(g[j]) {
        GapWithin(s, i, g, j + 1);
      } else {
        var e := Comment(s, i + j).value;
        assert Skip(s, e) >= e;
        assert s[i + (j + 1)] == g[j + 1];
        CommentEndWithin(s, i, g, j + 2);
        GapWithin(s, i, g, e - i);
      }
    }
  }

  lemma GapOf(s: string, i: nat) returns (g: string)
    requires i <= |s|
    ensures At(s, i, g) && i + |g| == Skip(s, i) && IsGap(g)
  {
    g := s[i..Skip(s, i)];
    Standing(s, i, Skip(s, i));
    GapWithin(s, i, g, 0);
    SkipIsSpaced(g, 0);
  }

  lemma DigitsOf(s: string, i: nat) returns (d: string)
    requires i <= |s| && Integer(s, i).Number?
    ensures At(s, i, d) && i + |d| == Integer(s, i).end && AllDigits(d) && d != "" && Decimal(d) == Integer(s, i).value
  {
    d := s[i..Integer(s, i).end];
    Standing(s, i, Integer(s, i).end);
    assert forall k :: 0 <= k < |d| ==> d[k] == s[i + k];
    ValueAt(s, i, d, |d|);
  }

  /** ReadB in terms of the place where the number starts. */
  lemma {:induction false} SignedReads(s: string, k: nat, a: int, j: nat, r: Parsing)
    requires k < |s| && r == ReadB(s, k, a) && r.Parsed? && j == Skip(s, k + 1)
    ensures Integer(s, j).Number? && r == Parsed(a, Signed(s[k] == '-', Integer(s, j).value), Integer(s, j).end)
  {}

  lemma {:induction false} SignedOf(s: string, k: nat, a: int, r: Parsing) returns (tail: Tail)
    requires k < |s| && IsSign(s[k]) && r == ReadB(s, k, a) && r.Parsed?
    ensures tail.Tail? && TailOK(tail) && TailPlaced(s, k, tail, r.end) && Decimal(tail.digits) <= MAX_INT64
    ensures r == ReadTail(a, tail, r.end)
  {
    var space := GapOf(s, k + 1);
    SignedReads(s, k, a, k + 1 + |space|, r);
    var digits := DigitsOf(s, k + 1 + |space|);
    tail := Tail(s[k] == '-', space, digits);
  }

  lemma {:induction false} TailOf(s: string, i: nat, a: int, r: Parsing) returns (gap: string, tail: Tail)
    requires i <= |s| && r == ReadN(s, i, a) && r.Parsed?
    ensures IsGap(gap) && TailOK(tail) && At(s, i, gap) && TailPlaced(s, i + |gap|, tail, r.end)
    ensures r == ReadTail(a, tail, r.end)
    ensures tail.Tail? ==> Decimal(tail.digits) <= MAX_INT64
  {
    gap := GapOf(s, i);
    tail := NoTail;
    if IsSign(s[i + |gap|]) { tail := SignedOf(s, i + |gap|, a, r); }
  }

  /** The form `f` stands from `i` on, its sign apart, and is what `r` says. */
  ghost predicate IsBodyOf(f: Form, s: string, i: nat, r: Parsing)
    requires r.Parsed?
  {
    !f.Word? && WellFormed(f) && Fits(f) && BodyPlaced(s, i, f, r.end) && r == Parsed(Meaning(f).0, Meaning(f).1, r.end)
  }

  lemma {:induction false} MultipleOf(s: string, i: nat, sign: Sign, digits: string, r: Parsing) returns (f: Form)
    requires AllDigits(digits) && Decimal(digits) <= MAX_INT64 && At(s, i, digits) && i + |digits| < |s| && IsN(s[i + |digits|])
    requires r == ReadN(s, i + |digits| + 1, Coefficient(sign, digits)) && r.Parsed?
    ensures IsBodyOf(f, s, i, r) && f.sign == sign
  {
    var m := i + |digits|;
    var gap, tail := TailOf(s, m + 1, Coefficient(sign, digits), r);
    f := Multiple(sign, digits, s[m], gap, tail);
    ReadTailFits(f, r.end);
  }

  lemma {:induction false} BodyOf(s: string, i: nat, sign: Sign, r: Parsing) returns (f: Form)
    requires i <= |s| && r == ReadA(s, i, sign.Minus?) && r.Parsed?
    ensures IsBodyOf(f, s, i, r) && f.sign == sign
  {
    var digits := "";
    if IsDigit(s[i]) { digits := DigitsOf(s, i); }
    if IsN(s[i + |digits|]) {
      CoefficientAt(s, i, sign, digits);
      f := MultipleOf(s, i, sign, digits, r);
    } else {
      f := Only(sign, digits);
    }
  }

  lemma {:induction false} WordOf(s: string, i: nat, r: Parsing) returns (f: Form)
    requires i < |s| && StartsKeyword(s[i]) && r == Keyword(s, i) && r.Parsed?
    ensures WellFormed(f) && Fits(f) && StandsAt(s, i, f, r.end) && r == Parsed(Meaning(f).0, Meaning(f).1, r.end)
  {
    var word := Name(s, i).text;
    var text := s[i..r.end];
    Standing(s, i, r.end);
    NameWithin(s, i, text, 0, word);
    f := Word(text, word);
  }

  /** Whatever the parser accepts is one of the forms, read as what it means. */
  lemma {:induction false} OnlyFormsAreRead(s: string, i: nat) returns (f: Form)
    requires i <= |s| && Nth(s, i).Parsed?
    ensures
      var r := Nth(s, i);
      WellFormed(f) && Fits(f) && StandsAt(s, i, f, r.end) && r == Parsed(Meaning(f).0, Meaning(f).1, r.end)
  {
    if !IsSign(s[i]) && StartsKeyword(s[i]) {
      f := WordOf(s, i, Nth(s, i));
    } else {
      f := SignedFormOf(s, i, Nth(s, i));
    }
  }

  lemma {:induction false} SignedFormOf(s: string, i: nat, r: Parsing) returns (f: Form)
    requires i < |s| && (IsSign(s[i]) || !StartsKeyword(s[i])) && r == Nth(s, i) && r.Parsed?
    ensures WellFormed(f) && Fits(f) && StandsAt(s, i, f, r.end) && r == Parsed(Meaning(f).0, Meaning(f).1, r.end)
  {
    var sign := if s[i] == '-' then Minus else if s[i] == '+' then Plus else NoSign;
    assert r == ReadA(s, i + SignLength(sign), sign.Minus?);
    f := BodyOf(s, i + SignLength(sign), sign, r);
  }

  /** The last d of odd, written as its code. */
  lemma {:induction false} EscapedOddIsRead()
    ensures Nth("od\\64)", 0) == Parsed(2, 1, 5)
  {
    var s, t := "od\\64)", "od\\64";
    CodeStands(t);
    SpelledOut(t);
    assert s[0..5] == t;
    Standing(s, 0, 5);
    FormIsRead(s, 0, Word(t, "odd"), 5);
  }

  lemma {:induction false} CodeStands(t: string)
    requires t == "od\\64"
    ensures IsCode(t, 2, 5, 5, 'd')
  {
    assert t[3..5] == "64";
    CodeOfD();
  }

  lemma {:induction false} SpelledOut(t: string)
    requires t == "od\\64" && IsCode(t, 2, 5, 5, 'd')
    ensures Spells(t, 0, "odd")
  {
    assert "d"[1..] == "" && "dd"[1..] == "d" && "odd"[1..] == "dd";
    assert IsEscape(t, 2, 5, "d"[0]);
    assert Spells(t, 5, "d"[1..]);
    assert Spells(t, 2, "dd"[1..]);
    assert Spells(t, 1, "odd"[1..]);
  }

  lemma {:induction false} CodeOfD()
    ensures AllHex("64") && HexNumber("64") == 100 && Rune(100) == 'd'
  {
    assert "64"[..1] == "6" && "6"[..0] == "";
    assert HexNumber("6") == 6;
  }

  // ---------------------------------------------------------------- numbers

  function Shown(n: nat): (d: string)
    ensures d != ""
  {
    (if n < 10 then "" else Shown(n / 10)) + ["0123456789"[n % 10]]
  }

  lemma {:induction false} ShownIsDecimal(n: nat)
    ensures AllDigits(Shown(n)) && Decimal(Shown(n)) == n
  {
    var d := Shown(n);
    var last := "0123456789"[n % 10];
    assert IsDigit(last) && (last - '0') as nat == n % 10;
    if n >= 10 {
      var front := Shown(n / 10);
      ShownIsDecimal(n / 10);
      assert d == front + [last];
      ValueAt(d, 0, front, |front|);
    } else {
      assert d == [last] && Value(d, 0, 0) == 0;
    }
  }

  function Magnitude(x: int): nat { if x < 0 then -x else x }

  /** "an+b" in plain decimal, as in -3n+5. */
  function PlainForm(a: int, b: int): Form {
    Multiple(if a < 0 then Minus else NoSign, Shown(Magnitude(a)), 'n', "", Tail(b < 0, "", Shown(Magnitude(b))))
  }

  function PlainText(a: int, b: int): string {
    (if a < 0 then "-" else "") + Shown(Magnitude(a)) + "n" + (if b < 0 then "-" else "+") + Shown(Magnitude(b))
  }

  lemma {:induction false} Inside(s: string, p: string, t: string, q: string)
    requires s == p + t + q
    ensures At(s, |p|, t)
  {
    forall k | 0 <= k < |t| ensures s[|p| + k] == t[k] { assert (p + t)[|p| + k] == t[k]; }
  }

  lemma {:induction false} InsideFirst(s: string, p: string, x: string, q: string)
    requires s == p + x + q
    ensures At(s, 0, p) && At(s, |p|, x) && At(s, |p| + |x|, q)
  {
    assert s == "" + p + (x + q) && s == (p + x) + q + "";
    Inside(s, "", p, x + q);
    Inside(s, p, x, q);
    Inside(s, p + x, q, "");
  }

  lemma {:induction false} AtLater(s: string, i: nat, t: string, j: nat, u: string)
    requires At(s, i, t) && At(t, j, u)
    ensures At(s, i + j, u)
  {
    forall k | 0 <= k < |u| ensures s[i + j + k] == u[k] {
      CharAt(t, j, u, k);
      CharAt(s, i, t, j + k);
    }
  }

  /** The parts of p x n m y. */
  lemma {:induction false} PlainParts(t: string, p: string, x: string, m: string, y: string, tail: string)
    requires |m| == 1 && tail == ("n" + m) + y && t == p + x + tail
    ensures At(t, 0, p) && At(t, |p|, x) && At(t, |p| + |x|, "n" + m) && At(t, |p| + |x| + 2, y)
  {
    InsideFirst(t, p, x, tail);
    assert tail == ("n" + m) + y + "";
    InsideFirst(tail, "n" + m, y, "");
    AtLater(t, |p| + |x|, tail, 0, "n" + m);
    AtLater(t, |p| + |x|, tail, 2, y);
  }

  lemma {:induction false} PlainTextIs(a: int, b: int, p: string, x: string, m: string, y: string)
    requires p == (if a < 0 then "-" else "") && x == Shown(Magnitude(a))
    requires m == (if b < 0 then "-" else "+") && y == Shown(Magnitude(b))
    ensures |PlainText(a, b)| == |p| + |x| + 2 + |y| && PlainText(a, b) == p + x + (("n" + m) + y)
  {}

  /** Where its parts stand, the form does. */
  lemma {:induction false} PlainStands(s: string, i: nat, a: int, b: int, p: string, x: string, m: string, y: string)
    requires p == (if a < 0 then "-" else "") && x == Shown(Magnitude(a))
    requires m == (if b < 0 then "-" else "+") && y == Shown(Magnitude(b))
    requires At(s, i, p) && At(s, i + |p|, x) && At(s, i + |p| + |x|, "n" + m) && At(s, i + |p| + |x| + 2, y)
    ensures StandsAt(s, i, PlainForm(a, b), i + |p| + |x| + 2 + |y|)
  {
    var k := i + |p| + |x|;
    if p != "" { CharAt(s, i, p, 0); }
    CharAt(s, k, "n" + m, 0);
    CharAt(s, k, "n" + m, 1);
    assert TailPlaced(s, k + 1, Tail(b < 0, "", y), k + 2 + |y|);
    assert BodyPlaced(s, i + |p|, PlainForm(a, b), k + 2 + |y|);
  }

  lemma {:induction false} PlainTextStands(s: string, i: nat, a: int, b: int, t: string)
    requires t == PlainText(a, b) && At(s, i, t)
    ensures StandsAt(s, i, PlainForm(a, b), i + |t|)
  {
    var p, m := if a < 0 then "-" else "", if b < 0 then "-" else "+";
    var x, y := Shown(Magnitude(a)), Shown(Magnitude(b));
    PlainTextIs(a, b, p, x, m, y);
    PlainParts(t, p, x, m, y, ("n" + m) + y);
    AtLater(s, i, t, 0, p);
    AtLater(s, i, t, |p|, x);
    AtLater(s, i, t, |p| + |x|, "n" + m);
    AtLater(s, i, t, |p| + |x| + 2, y);
    PlainStands(s, i, a, b, p, x, m, y);
  }

  lemma {:induction false} PlainMeaning(a: int, b: int)
    ensures
      var f := PlainForm(a, b);
      WellFormed(f) && Meaning(f) == (a, b) && (Fits(f) <==> Magnitude(a) <= MAX_INT64 && Magnitude(b) <= MAX_INT64)
  {
    ShownIsDecimal(Magnitude(a));
    ShownIsDecimal(Magnitude(b));
  }

  /** For all integers a and b: an+b, wherever it stands before ")", is read back as
      (a, b) exactly when both magnitudes fit; of the 64-bit integers only the least
      one does not. */
  lemma {:induction false} PlainRoundTrip(s: string, i: nat, a: int, b: int, e: nat)
    requires At(s, i, PlainText(a, b)) && e == i + |PlainText(a, b)| < |s| && s[e] == ')'
    ensures Nth(s, i) == if Magnitude(a) <= MAX_INT64 && Magnitude(b) <= MAX_INT64 then Parsed(a, b, e) else Failed
  {
    PlainTextStands(s, i, a, b, PlainText(a, b));
    PlainMeaning(a, b);
    FormIsRead(s, i, PlainForm(a, b), e);
  }
}
