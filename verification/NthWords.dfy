/** Words as they may be spelled in a selector: a name character stands for itself,
    a backslash introduces the code of a character or a character that stands for
    itself.  The parser reads every spelling as the word it spells, and reads nothing
    else as that word. */
module NthWords {
  import opened NthParser

  // ---------------------------------------------------------------- texts at a position

  /** The text `t` stands at `i`. */
  predicate At(s: string, i: nat, t: string) {
    i + |t| <= |s| && forall k :: 0 <= k < |t| ==> s[i + k] == t[k]
  }

  lemma CharAt(s: string, i: nat, t: string, k: nat)
    requires At(s, i, t) && k < |t|
    ensures s[i + k] == t[k]
  {}

  lemma Standing(s: string, i: nat, j: nat)
    requires i <= j <= |s|
    ensures At(s, i, s[i..j])
  {}

  // ---------------------------------------------------------------- spellings

  /** One optional white space, from `d` to `e`; a carriage return takes its line feed with it. */
  predicate IsBreak(t: string, d: nat, e: nat) {
    var pair := d + 2 <= |t| && t[d] == '\r' && t[d + 1] == '\n';
    || (e == d <= |t| && (d < |t| ==> !IsSpace(t[d])))
    || (e == d + 1 <= |t| && IsSpace(t[d]) && !pair)
    || (e == d + 2 && pair)
  }

  /** The code of `c`: all the hex digits there are, but not more than five, and a break. */
  predicate IsCode(t: string, j: nat, d: nat, e: nat, c: char) {
    && j + 2 <= d <= |t| && d <= j + 6 && t[j] == '\\' && AllHex(t[j + 1..d])
    && (d < |t| && d < j + 6 ==> !IsHex(t[d]))
    && IsBreak(t, d, e)
    && (HexBound(t[j + 1..d]); c == Rune(HexNumber(t[j + 1..d])))
  }

  /** A character that stands for itself. */
  predicate IsQuoted(t: string, j: nat, e: nat, c: char) {
    e == j + 2 <= |t| && t[j] == '\\' && t[j + 1] == c && !IsHex(c) && !IsLineEnd(c)
  }

  ghost predicate IsEscape(t: string, j: nat, e: nat, c: char) {
    IsQuoted(t, j, e, c) || exists d :: IsCode(t, j, d, e, c)
  }

  /** From `j` on, the text spells the word. */
  ghost predicate Spells(t: string, j: nat, word: string)
    decreases |word|
  {
    if word == "" then j == |t|
    else
      || (j < |t| && IsName(t[j]) && t[j] == word[0] && Spells(t, j + 1, word[1..]))
      || exists e: nat :: IsEscape(t, j, e, word[0]) && Spells(t, e, word[1..])
  }

  // ---------------------------------------------------------------- every spelling is read

  lemma {:induction false} HexRunAt(s: string, i: nat, t: string, j: nat, d: nat, limit: nat)
    requires At(s, i, t) && j <= d <= |t| && d <= limit && (forall k :: j <= k < d ==> IsHex(t[k]))
    requires d < limit && i + d < |s| ==> !IsHex(s[i + d])
    ensures i + j <= |s| && HexEnd(s, i + j, i + limit) == i + d
    decreases d - j
  {
    if j < d {
      CharAt(s, i, t, j);
      HexRunAt(s, i, t, j + 1, d, limit);
    }
  }

  lemma {:induction false} SliceAt(s: string, i: nat, t: string, j: nat, d: nat)
    requires At(s, i, t) && j <= d <= |t|
    ensures s[i + j..i + d] == t[j..d]
  {
    forall k | 0 <= k < d - j ensures s[i + j..i + d][k] == t[j..d][k] { CharAt(s, i, t, j + k); }
  }

  /** Behind the text there is neither a hex digit nor a white space. */
  predicate Ends(s: string, i: nat) { i < |s| && !IsHex(s[i]) && !IsSpace(s[i]) }

  lemma {:induction false} BreakAt(s: string, i: nat, t: string, d: nat, e: nat)
    requires At(s, i, t) && IsBreak(t, d, e) && Ends(s, i + |t|)
    ensures i + d <= |s| && SpaceEnd(s, i + d) == i + e
  {
    if d < |t| { CharAt(s, i, t, d); }
    if d + 1 < |t| { CharAt(s, i, t, d + 1); }
  }

  lemma {:induction false} DigitsOfCode(s: string, i: nat, t: string, j: nat, d: nat, e: nat, c: char)
    requires At(s, i, t) && IsCode(t, j, d, e, c) && Ends(s, i + |t|)
    ensures i + j + 1 <= |s| && HexEnd(s, i + j + 1, i + j + 6) == i + d && IsHex(t[j + 1])
  {
    if d < |t| { CharAt(s, i, t, d); }
    assert forall k :: j + 1 <= k < d ==> t[k] == t[j + 1..d][k - (j + 1)];
    HexRunAt(s, i, t, j + 1, d, j + 6);
  }

  lemma {:induction false} CodeAt(s: string, i: nat, t: string, j: nat, d: nat, e: nat, c: char)
    requires At(s, i, t) && IsCode(t, j, d, e, c) && Ends(s, i + |t|)
    ensures i + j <= |s| && Escape(s, i + j) == Escaped(c, i + e)
  {
    CharAt(s, i, t, j);
    CharAt(s, i, t, j + 1);
    DigitsOfCode(s, i, t, j, d, e, c);
    SliceAt(s, i, t, j + 1, d);
    BreakAt(s, i, t, d, e);
  }

  lemma {:induction false} EscapeAt(s: string, i: nat, t: string, j: nat, e: nat, c: char)
    requires At(s, i, t) && IsEscape(t, j, e, c) && Ends(s, i + |t|)
    ensures j + 2 <= e <= |t| && t[j] == '\\' && Escape(s, i + j) == Escaped(c, i + e)
  {
    if IsQuoted(t, j, e, c) {
      CharAt(s, i, t, j);
      CharAt(s, i, t, j + 1);
    } else {
      var d :| IsCode(t, j, d, e, c);
      CodeAt(s, i, t, j, d, e, c);
    }
  }

  /** Every spelling of a word that a parenthesis ends is read as the word. */
  lemma {:induction false} NameAt(s: string, i: nat, t: string, j: nat, word: string)
    requires At(s, i, t) && Spells(t, j, word) && i + |t| < |s| && s[i + |t|] == ')'
    ensures i + j <= |s| && Name(s, i + j) == Named(word, i + |t|)
    decreases |word|
  {
    if word != "" {
      if j < |t| && IsName(t[j]) && t[j] == word[0] && Spells(t, j + 1, word[1..]) {
        PlainStep(s, i, t, j);
        NameAt(s, i, t, j + 1, word[1..]);
      } else {
        var e: nat :| IsEscape(t, j, e, word[0]) && Spells(t, e, word[1..]);
        EscapeStep(s, i, t, j, e, word[0]);
        NameAt(s, i, t, e, word[1..]);
      }
      ConsWord(word, i + |t|);
    }
  }

  lemma {:induction false} ConsWord(word: string, e: nat)
    requires word != ""
    ensures Cons(word[0], Named(word[1..], e)) == Named(word, e)
  {
    assert [word[0]] + word[1..] == word;
  }

  lemma {:induction false} PlainStep(s: string, i: nat, t: string, j: nat)
    requires At(s, i, t) && j < |t| && IsName(t[j])
    ensures i + j < |s| && Name(s, i + j) == Cons(t[j], Name(s, i + j + 1))
  {
    CharAt(s, i, t, j);
  }

  lemma {:induction false} EscapeStep(s: string, i: nat, t: string, j: nat, e: nat, c: char)
    requires At(s, i, t) && IsEscape(t, j, e, c) && Ends(s, i + |t|)
    ensures j + 2 <= e <= |t| && i + e <= |s| && Name(s, i + j) == Cons(c, Name(s, i + e))
  {
    EscapeAt(s, i, t, j, e, c);
    CharAt(s, i, t, j);
  }

  // ---------------------------------------------------------------- nothing else is

  lemma {:induction false} BreakWithin(s: string, i: nat, t: string, d: nat, e: nat)
    requires At(s, i, t) && d <= e <= |t| && SpaceEnd(s, i + d) == i + e
    ensures IsBreak(t, d, e)
  {
    if d < |t| { CharAt(s, i, t, d); }
    if d + 1 < |t| { CharAt(s, i, t, d + 1); }
  }

  lemma {:induction false} CodeWithin(s: string, i: nat, t: string, j: nat, e: nat, c: char)
    requires At(s, i, t) && j < e <= |t| && Escape(s, i + j) == Escaped(c, i + e) && IsHex(s[i + j + 1])
    ensures exists d :: IsCode(t, j, d, e, c)
  {
    var d := HexEnd(s, i + j + 1, i + j + 6) - i;
    CharAt(s, i, t, j);
    SliceAt(s, i, t, j + 1, d);
    if d < |t| { CharAt(s, i, t, d); }
    BreakWithin(s, i, t, d, e);
    assert IsCode(t, j, d, e, c);
  }

  lemma {:induction false} EscapeWithin(s: string, i: nat, t: string, j: nat, e: nat, c: char)
    requires At(s, i, t) && j < e <= |t| && Escape(s, i + j) == Escaped(c, i + e)
    ensures IsEscape(t, j, e, c)
  {
    if IsHex(s[i + j + 1]) {
      CodeWithin(s, i, t, j, e, c);
    } else {
      CharAt(s, i, t, j);
      CharAt(s, i, t, j + 1);
    }
  }

  /** Whatever is read as a word spells it. */
  lemma {:induction false} NameWithin(s: string, i: nat, t: string, j: nat, word: string)
    requires At(s, i, t) && j <= |t| && Name(s, i + j) == Named(word, i + |t|)
    ensures Spells(t, j, word)
    decreases |t| - j
  {
    if i + j < |s| && IsName(s[i + j]) {
      assert j < |t|;
      CharAt(s, i, t, j);
      NameWithin(s, i, t, j + 1, word[1..]);
    } else if i + j < |s| && s[i + j] == '\\' {
      var e := Escape(s, i + j).end - i;
      EscapeWithin(s, i, t, j, e, word[0]);
      NameWithin(s, i, t, e, word[1..]);
    }
  }
}
