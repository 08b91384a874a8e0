/** The matcher behind :nth-child and its variants: the walk over the siblings,
    and the test of an+b in 64-bit arithmetic with Go's truncated division,
    against the definition in section 6.6.5.2 of Selectors Level 3. */
module NthChild {
  import opened Integers

  // ---------------------------------------------------------------- arithmetic

  function Abs(x: int): nat { if x < 0 then -x else x }

  /** x / y in Go: truncated, and the least int divided by -1 wraps to itself. */
  function Quotient(x: int, y: int): int
    requires y != 0
  {
    var q: int := Abs(x) / Abs(y);
    Wrap(if (x < 0) == (y < 0) then q else -q)
  }

  /** x % y in Go: the sign is that of x. */
  function Remainder(x: int, y: int): int
    requires y != 0
  {
    var r: int := Abs(x) % Abs(y);
    if x < 0 then -r else r
  }

  /** The selector's final test, at the 1-based position `p`. */
  predicate Test(a: int, b: int, p: int) {
    var i := Wrap(p - b);
    if a == 0 then i == 0 else Remainder(i, a) == 0 && Quotient(i, a) >= 0
  }

  /** Some n >= 0 gives a*n + b == p. */
  ghost predicate Matches(a: int, b: int, p: int) {
    exists n: nat :: Term(a, b, n) == p
  }

  function Term(a: int, b: int, n: nat): int { a * n + b }

  predicate Divides(a: int, d: int)
    requires a != 0
  {
    Abs(d) % Abs(a) == 0
  }

  lemma DivideExactly(a: int, d: int) returns (n: nat)
    requires a != 0 && Divides(a, d) && (d == 0 || (a < 0) == (d < 0))
    ensures a * n == d && n == Abs(d) / Abs(a)
  {
    n := Abs(d) / Abs(a);
    assert Abs(d) == Abs(a) * n + Abs(d) % Abs(a);
    if a < 0 { assert a * n == -(Abs(a) * n); }
  }

  lemma ProductDivides(a: int, n: nat)
    requires a != 0
    ensures Divides(a, a * n) && (a * n == 0 || (a < 0) == (a * n < 0))
  {
    assert Abs(a * n) == Abs(a) * n by {
      if a < 0 { assert a * n == -(Abs(a) * n); }
    }
    MultipleHasNoRest(Abs(a), n);
    if n > 0 && a < 0 { assert a * n <= a; }
  }

  lemma MultipleHasNoRest(m: nat, n: nat)
    requires m > 0
    ensures (m * n) % m == 0
  {
    var q, r := (m * n) / m, (m * n) % m;
    assert m * n == m * q + r;
    assert m * (n - q) == r;
    AwayFromZero(m, n - q);
  }

  lemma AwayFromZero(m: int, d: int)
    requires m > 0
    ensures (d >= 1 ==> m * d >= m) && (d <= -1 ==> m * d <= -m)
  {}

  /** Without the quantifier: b is hit exactly, or a divides the distance and points towards it. */
  lemma MatchesIff(a: int, b: int, p: int)
    ensures a == 0 ==> (Matches(a, b, p) <==> p == b)
    ensures a != 0 ==> (Matches(a, b, p) <==> Divides(a, p - b) && (p == b || (a < 0) == (p - b < 0)))
  {
    if a == 0 {
      assert Term(a, b, 0) == b;
    } else {
      if Matches(a, b, p) {
        var n: nat :| Term(a, b, n) == p;
        ProductDivides(a, n);
        assert a * n == p - b;
      }
      if Divides(a, p - b) && (p == b || (a < 0) == (p - b < 0)) {
        var n := DivideExactly(a, p - b);
        assert Term(a, b, n) == p;
      }
    }
  }

  lemma RemainderIff(i: int, a: int)
    requires a != 0
    ensures Remainder(i, a) == 0 <==> Divides(a, i)
  {}

  lemma QuotientOfZero(a: int)
    requires a != 0
    ensures Quotient(0, a) == 0
  {
    var q := Abs(0) / Abs(a);
    assert Abs(0) == Abs(a) * q + Abs(0) % Abs(a);
    AwayFromZero(Abs(a), q);
  }

  /** An exact quotient by anything but 1 and -1 is small; by those it is the magnitude itself. */
  lemma QuotientSize(i: int, a: int)
    requires a != 0 && IsInt64(i) && i != 0 && Divides(a, i)
    ensures var q := Abs(i) / Abs(a); 1 <= q && (Abs(a) >= 2 ==> q < TWO63) && (Abs(a) == 1 ==> q == Abs(i))
  {
    var q := Abs(i) / Abs(a);
    assert Abs(i) == Abs(a) * q;
    if Abs(a) >= 2 { SmallQuotient(Abs(i), Abs(a)); }
  }

  /** The sign of an exact quotient; the least int divided by -1 comes out negative. */
  lemma QuotientSign(i: int, a: int)
    requires a != 0 && IsInt64(i) && IsInt64(a) && i != 0 && Divides(a, i)
    ensures Quotient(i, a) >= 0 <==> (a < 0) == (i < 0) && !(a == -1 && i == -TWO63)
  {
    QuotientSize(i, a);
  }

  predicate Hits(a: int, i: int)
    requires a != 0
  {
    Divides(a, i) && (i == 0 || (a < 0) == (i < 0)) && !(a == -1 && i == -TWO63)
  }

  lemma DivisionIff(a: int, i: int)
    requires a != 0 && IsInt64(a) && IsInt64(i)
    ensures Remainder(i, a) == 0 && Quotient(i, a) >= 0 <==> Hits(a, i)
  {
    RemainderIff(i, a);
    QuotientOfZero(a);
    if i != 0 && Divides(a, i) { QuotientSign(i, a); }
  }

  /** What the test computes, for a != 0. */
  lemma TestIff(a: int, b: int, p: int)
    requires a != 0 && IsInt64(a) && IsInt64(b) && 1 <= p < TWO63
    ensures Test(a, b, p) <==> Hits(a, Wrap(p - b))
  {
    DivisionIff(a, Wrap(p - b));
  }

  lemma SmallQuotient(x: nat, y: nat)
    requires y >= 2 && x <= TWO63
    ensures x / y < TWO63
  {
    var q := x / y;
    assert x == y * q + x % y;
    assert y * q >= 2 * q;
  }

  /** Where the subtraction i -= b wraps and thereby changes the answer: a test
      with b far below p, of a positive step that does hit p or of a negative
      step that divides the wrapped distance. */
  predicate Overflows(a: int, b: int, p: int) {
    && p - b >= TWO63
    && a != 0
    && (if a > 0 then Divides(a, p - b) else Divides(a, p - b - TWO64) && !(a == -1 && p - b == TWO63))
  }

  /** For every 64-bit a and b and every position: the test is the definition,
      exactly when the subtraction does not overflow in the way above. */
  lemma TestIsDefinitionIff(a: int, b: int, p: int)
    requires IsInt64(a) && IsInt64(b) && 1 <= p < TWO63
    ensures (Test(a, b, p) <==> Matches(a, b, p)) <==> !Overflows(a, b, p)
  {
    MatchesIff(a, b, p);
    if a != 0 { TestIff(a, b, p); }
  }

  /** In particular no selector with b >= 0, or with b above p - 2^63, is affected. */
  lemma TestIsDefinition(a: int, b: int, p: int)
    requires IsInt64(a) && IsInt64(b) && 1 <= p < TWO63 && p - b < TWO63
    ensures Test(a, b, p) <==> Matches(a, b, p)
  {
    TestIsDefinitionIff(a, b, p);
  }

  /** An affected selector: 1n - 2^63 holds of every position by definition, and of none by the test. */
  lemma LeastOffsetMatchesNothing(p: int)
    requires 1 <= p < TWO63
    ensures Matches(1, -TWO63, p) && !Test(1, -TWO63, p)
  {
    assert Term(1, -TWO63, p + TWO63) == p;
  }

  // ---------------------------------------------------------------- siblings

  datatype Node = Node(isElement: bool, name: string)

  predicate Qualifies(children: seq<Node>, k: nat, j: nat, ofType: bool)
    requires k < |children| && j < |children|
  {
    children[j].isElement && (!ofType || children[j].name == children[k].name)
  }

  /** How many of the children lo..hi count. */
  function Count(children: seq<Node>, k: nat, ofType: bool, lo: nat, hi: nat): (c: nat)
    requires k < |children| && lo <= hi <= |children|
    ensures c <= hi - lo
    decreases hi
  {
    if lo == hi then 0
    else Count(children, k, ofType, lo, hi - 1) + if Qualifies(children, k, hi - 1, ofType) then 1 else 0
  }

  lemma {:induction false} CountSplit(children: seq<Node>, k: nat, ofType: bool, lo: nat, mid: nat, hi: nat)
    requires k < |children| && lo <= mid <= hi <= |children|
    ensures Count(children, k, ofType, lo, hi) == Count(children, k, ofType, lo, mid) + Count(children, k, ofType, mid, hi)
    decreases hi
  {
    if mid < hi { CountSplit(children, k, ofType, lo, mid, hi - 1); }
  }

  /** The 1-based position of child `k` among the siblings that count, from the front or from the back. */
  function Position(children: seq<Node>, k: nat, last: bool, ofType: bool): nat
    requires k < |children|
  {
    if last then Count(children, k, ofType, k, |children|) else Count(children, k, ofType, 0, k + 1)
  }

  lemma PositionFromOne(children: seq<Node>, k: nat, last: bool, ofType: bool)
    requires k < |children| && children[k].isElement
    ensures 1 <= Position(children, k, last, ofType) <= |children|
  {
    CountSplit(children, k, ofType, k, k + 1, |children|);
  }

  /** The siblings from `lo` to `hi` that count, literally. */
  ghost function Counting(children: seq<Node>, k: nat, ofType: bool, lo: nat, hi: nat): set<int>
    requires k < |children| && lo <= hi <= |children|
  {
    set j: int | lo <= j < hi && children[j].isElement && (ofType ==> children[j].name == children[k].name)
  }

  lemma CountingStep(children: seq<Node>, k: nat, ofType: bool, lo: nat, hi: nat)
    requires k < |children| && lo < hi <= |children|
    ensures Counting(children, k, ofType, lo, hi) ==
      Counting(children, k, ofType, lo, hi - 1) + (if Qualifies(children, k, hi - 1, ofType) then {hi - 1} else {})
  {}

  lemma {:induction false} CountIs(children: seq<Node>, k: nat, ofType: bool, lo: nat, hi: nat)
    requires k < |children| && lo <= hi <= |children|
    ensures Count(children, k, ofType, lo, hi) == |Counting(children, k, ofType, lo, hi)|
    decreases hi
  {
    if lo < hi {
      CountIs(children, k, ofType, lo, hi - 1);
      CountingStep(children, k, ofType, lo, hi);
    } else {
      assert Counting(children, k, ofType, lo, hi) == {};
    }
  }

  /** Counted from the front it is the number of counting siblings up to and including
      the child itself; from the back, from the child on. */
  lemma {:induction false} PositionIs(children: seq<Node>, k: nat, ofType: bool)
    requires k < |children|
    ensures Position(children, k, false, ofType) == |Counting(children, k, ofType, 0, k + 1)|
    ensures Position(children, k, true, ofType) == |Counting(children, k, ofType, k, |children|)|
  {
    CountIs(children, k, ofType, 0, k + 1);
    CountIs(children, k, ofType, k, |children|);
  }

  /** The walk over the siblings: the position, counted from the front and turned round if need be. */
  method FindPosition(children: seq<Node>, k: nat, last: bool, ofType: bool) returns (i: int)
    requires k < |children| && children[k].isElement
    ensures i == Position(children, k, last, ofType)
  {
    i := -1;
    var count, c := 0, 0;
    while c < |children|
      invariant 0 <= c <= |children|
      invariant count == Count(children, k, ofType, 0, c)
      invariant i == if c <= k then -1 else Count(children, k, ofType, 0, k + 1)
      invariant !last ==> c <= k
    {
      if children[c].isElement && (!ofType || children[c].name == children[k].name) {
        count := count + 1;
        if c == k {
          i := count;
          if !last { return; }
        }
      }
      c := c + 1;
    }
    CountSplit(children, k, ofType, 0, k + 1, |children|);
    CountSplit(children, k, ofType, k, k + 1, |children|);
    i := count - i + 1;
  }

  /** nthChildSelector, applied to child `k` of a parent. */
  method Select(children: seq<Node>, k: nat, a: int, b: int, last: bool, ofType: bool) returns (r: bool)
    requires k < |children| < TWO63 && IsInt64(a) && IsInt64(b)
    ensures r == (children[k].isElement && Test(a, b, Position(children, k, last, ofType)))
    ensures !Overflows(a, b, Position(children, k, last, ofType)) ==>
      (r <==> children[k].isElement && Matches(a, b, Position(children, k, last, ofType)))
  {
    if !children[k].isElement { return false; }
    var i := FindPosition(children, k, last, ofType);
    PositionFromOne(children, k, last, ofType);
    TestIsDefinitionIff(a, b, i);
    i := Wrap(i - b);
    if a == 0 { return i == 0; }
    r := Remainder(i, a) == 0 && Quotient(i, a) >= 0;
  }
}
