/** The text of gorp's statements: how many placeholders it has, and that the
    statement can be read back from it. */
module GorpText {
  import opened GorpPlans
  import opened Options

  // ---------------------------------------------------------------- placeholders

  predicate Unmarked(names: seq<string>) {
    forall k :: 0 <= k < |names| ==> Marks(names[k]) == 0
  }

  lemma {:induction false} UnmarkedIff(names: seq<string>)
    ensures MarksIn(names) == 0 <==> Unmarked(names)
  {
    if names != [] {
      var n := |names| - 1;
      UnmarkedIff(names[..n]);
      assert names == names[..n] + [names[n]];
    }
  }

  lemma MarksInUpdate(table: string, sets: seq<string>, wheres: seq<string>)
    ensures Marks(Render(Update(table, sets, wheres))) == Marks(table) + |sets| + MarksIn(sets) + |wheres| + MarksIn(wheres)
  {
    var head := "update " + Quote(table) + " set ";
    MarksInHead("update ", table, " set ");
    MarksOfLiterals();
    MarksInBindings(sets, ", ");
    MarksInTail(head + Bindings(sets, ", "), wheres);
    MarksConcat(head, Bindings(sets, ", "));
  }

  lemma MarksInDelete(table: string, wheres: seq<string>)
    ensures Marks(Render(Delete(table, wheres))) == Marks(table) + |wheres| + MarksIn(wheres)
  {
    MarksInHead("delete from ", table, "");
    assert "delete from " + Quote(table) + "" == "delete from " + Quote(table);
    MarksInTail("delete from " + Quote(table), wheres);
  }

  /** No name that the statement uses contains a question mark. */
  predicate UnmarkedNames(st: Statement) {
    Marks(st.table) == 0 && Unmarked(st.wheres) && (st.Update? ==> Unmarked(st.sets))
  }

  /** The question marks are the placeholders exactly when the names hold none. */
  lemma {:induction false} MarksArePlaceholdersIff(st: Statement)
    ensures Marks(Render(st)) == Placeholders(st) <==> UnmarkedNames(st)
  {
    UnmarkedIff(st.wheres);
    match st
    case Update(table, sets, wheres) =>
      UnmarkedIff(sets);
      MarksInUpdate(table, sets, wheres);
    case Delete(table, wheres) => MarksInDelete(table, wheres);
  }

  lemma MarksInHead(a: string, table: string, b: string)
    requires (forall i :: 0 <= i < |a| ==> a[i] != '?') && (forall i :: 0 <= i < |b| ==> b[i] != '?')
    ensures Marks(a + Quote(table) + b) == Marks(table)
  {
    NoMarks(a);
    NoMarks(b);
    MarksInQuote(table);
    MarksConcat(a, Quote(table));
    MarksConcat(a + Quote(table), b);
  }

  lemma {:induction false} MarksInTail(head: string, wheres: seq<string>)
    ensures Marks(head + " where " + Bindings(wheres, " and ") + ";") == Marks(head) + |wheres| + MarksIn(wheres)
  {
    MarksOfLiterals();
    NoMarks(" where ");
    MarksInBindings(wheres, " and ");
    MarksConcat(head, " where ");
    MarksConcat(head + " where ", Bindings(wheres, " and "));
    MarksConcat(head + " where " + Bindings(wheres, " and "), ";");
  }

  lemma MarksInQuote(name: string)
    ensures Marks(Quote(name)) == Marks(name)
  {
    MarksConcat("`", name);
    MarksConcat("`" + name, "`");
  }

  lemma MarksOfLiterals()
    ensures Marks(";") == 0 && Marks(", ") == 0 && Marks(" and ") == 0
  {
    NoMarks(", ");
    NoMarks(" and ");
    NoMarks(";");
  }

  lemma NoMarks(text: string)
    requires forall i :: 0 <= i < |text| ==> text[i] != '?'
    ensures Marks(text) == 0
  {}

  // ---------------------------------------------------------------- reading a statement back

  /** A name that the backtick quotes can delimit. */
  predicate PlainName(name: string) { '`' !in name }

  predicate PlainNames(names: seq<string>) { forall k :: 0 <= k < |names| ==> PlainName(names[k]) }

  predicate Plain(st: Statement) {
    match st
    case Update(table, sets, wheres) => PlainName(table) && PlainNames(sets) && PlainNames(wheres)
    case Delete(table, wheres) => PlainName(table) && PlainNames(wheres)
  }

  /** What follows `prefix`. */
  function Behind(text: string, prefix: string): Option<string> {
    if prefix <= text then Some(text[|prefix|..]) else None
  }

  lemma BehindOf(prefix: string, rest: string)
    ensures Behind(prefix + rest, prefix) == Some(rest)
  {}

  function NameLength(text: string): (n: nat)
    ensures n <= |text|
  {
    if text == "" || text[0] == '`' then 0 else 1 + NameLength(text[1..])
  }

  lemma {:induction false} NameLengthOf(name: string, rest: string)
    requires PlainName(name) && rest != "" && rest[0] == '`'
    ensures NameLength(name + rest) == |name|
  {
    if name == "" {
      assert name + rest == rest;
    } else {
      assert (name + rest)[1..] == name[1..] + rest;
      NameLengthOf(name[1..], rest);
    }
  }

  /** A quoted name and what follows it. */
  function ReadQuoted(text: string): Option<(string, string)> {
    if text == "" || text[0] != '`' then None
    else
      var n := NameLength(text[1..]);
      if n + 1 == |text| then None else Some((text[1..n + 1], text[n + 2..]))
  }

  lemma {:induction false} ReadQuotedOf(name: string, rest: string)
    requires PlainName(name)
    ensures ReadQuoted(Quote(name) + rest) == Some((name, rest))
  {
    var text := Quote(name) + rest;
    assert text[1..] == name + ("`" + rest);
    NameLengthOf(name, "`" + rest);
    assert text[1..|name| + 1] == name && text[|name| + 2..] == rest;
  }

  /** "name=?", separated by `separator`, and what follows them. */
  function ReadBindings(text: string, separator: string): (r: Option<(seq<string>, string)>)
    decreases |text|
  {
    match ReadQuoted(text)
    case None => Some(([], text))
    case Some((name, rest)) =>
      match Behind(rest, "=?")
      case None => None
      case Some(next) =>
        match Behind(next, separator)
        case None => Some(([name], next))
        case Some(more) => First(name, ReadBindings(more, separator))
  }

  function First(name: string, r: Option<(seq<string>, string)>): Option<(seq<string>, string)> {
    match r
    case None => None
    case Some((names, rest)) => Some(([name] + names, rest))
  }

  function Binding(name: string): string { Quote(name) + "=" + "?" }

  lemma {:induction false} BindingsCons(names: seq<string>, separator: string)
    requires names != []
    ensures Bindings(names, separator) ==
      if |names| == 1 then Binding(names[0]) else Binding(names[0]) + separator + Bindings(names[1..], separator)
  {
    if |names| > 1 {
      var n := |names| - 1;
      var front := names[..n];
      BindingsCons(front, separator);
      assert names[1..][..n - 1] == front[1..];
      assert names[1..][n - 1] == names[n];
      if n > 1 {
        assert Bindings(names[1..], separator) == Bindings(front[1..], separator) + separator + Binding(names[n]);
      }
    }
  }

  /** Neither a separator nor, for an empty list, a name goes on in `tail`. */
  predicate EndsList(tail: string, separator: string) {
    !(separator <= tail) && (tail == "" || tail[0] != '`')
  }

  lemma ReadOne(name: string, rest: string, separator: string)
    requires PlainName(name)
    ensures ReadBindings(Binding(name) + rest, separator) ==
      match Behind(rest, separator) { case None => Some(([name], rest)) case Some(more) => First(name, ReadBindings(more, separator)) }
  {
    assert Binding(name) + rest == Quote(name) + ("=?" + rest);
    ReadQuotedOf(name, "=?" + rest);
    BehindOf("=?", rest);
  }

  lemma {:induction false} ReadMore(text: string, name: string, rest: string, separator: string, names: seq<string>, tail: string)
    requires PlainName(name) && text == Binding(name) + (separator + rest)
    requires ReadBindings(rest, separator) == Some((names, tail))
    ensures ReadBindings(text, separator) == Some(([name] + names, tail))
  {
    ReadOne(name, separator + rest, separator);
    BehindOf(separator, rest);
  }

  lemma {:induction false} ReadLast(text: string, name: string, separator: string, tail: string)
    requires PlainName(name) && text == Binding(name) + tail && !(separator <= tail)
    ensures ReadBindings(text, separator) == Some(([name], tail))
  {
    ReadOne(name, tail, separator);
  }

  lemma Grouped(a: string, b: string, c: string, d: string)
    ensures a + b + c + d == a + (b + (c + d))
  {}

  lemma {:induction false} BindingsSplit(names: seq<string>, separator: string, tail: string)
    requires |names| > 1
    ensures Bindings(names, separator) + tail
      == Binding(names[0]) + (separator + (Bindings(names[1..], separator) + tail))
  {
    BindingsCons(names, separator);
    Grouped(Binding(names[0]), separator, Bindings(names[1..], separator), tail);
  }

  lemma {:induction false} BindingsSingle(names: seq<string>, separator: string)
    requires |names| == 1
    ensures Bindings(names, separator) == Binding(names[0]) && names == [names[0]]
  {}

  lemma {:induction false} ReadNone(text: string, separator: string, tail: string)
    requires text == "" + tail && EndsList(tail, separator)
    ensures ReadBindings(text, separator) == Some(([], tail))
  {
    assert text == tail;
  }

  lemma {:induction false} ReadBindingsIn(names: seq<string>, separator: string, tail: string, text: string)
    requires PlainNames(names) && EndsList(tail, separator)
    requires text == Bindings(names, separator) + tail
    ensures ReadBindings(text, separator) == Some((names, tail))
  {
    if names == [] {
      ReadNone(text, separator, tail);
    } else if |names| == 1 {
      BindingsSingle(names, separator);
      ReadLast(text, names[0], separator, tail);
    } else {
      var rest := Bindings(names[1..], separator) + tail;
      ReadBindingsIn(names[1..], separator, tail, rest);
      BindingsSplit(names, separator, tail);
      ReadMore(text, names[0], rest, separator, names[1..], tail);
      Rejoined(names);
    }
  }

  lemma Rejoined(names: seq<string>)
    requires names != []
    ensures [names[0]] + names[1..] == names
  {}

  lemma {:induction false} ReadBindingsOf(names: seq<string>, separator: string, tail: string)
    requires PlainNames(names) && EndsList(tail, separator)
    ensures ReadBindings(Bindings(names, separator) + tail, separator) == Some((names, tail))
  {
    ReadBindingsIn(names, separator, tail, Bindings(names, separator) + tail);
  }

  function ReadWhere(text: string): Option<seq<string>> {
    match Behind(text, " where ")
    case None => None
    case Some(rest) =>
      match ReadBindings(rest, " and ")
      case None => None
      case Some((wheres, end)) => if end == ";" then Some(wheres) else None
  }

  lemma {:induction false} ReadWhereOf(wheres: seq<string>)
    requires PlainNames(wheres)
    ensures ReadWhere(" where " + (Bindings(wheres, " and ") + ";")) == Some(wheres)
  {
    BehindOf(" where ", Bindings(wheres, " and ") + ";");
    ReadBindingsOf(wheres, " and ", ";");
  }

  function ReadUpdate(text: string): Option<Statement> {
    match ReadQuoted(text)
    case None => None
    case Some((table, rest)) =>
      match Behind(rest, " set ")
      case None => None
      case Some(list) =>
        match ReadBindings(list, ", ")
        case None => None
        case Some((sets, end)) =>
          match ReadWhere(end)
          case None => None
          case Some(wheres) => Some(Update(table, sets, wheres))
  }

  lemma {:induction false} ReadUpdateOf(table: string, sets: seq<string>, wheres: seq<string>)
    requires PlainName(table) && PlainNames(sets) && PlainNames(wheres)
    ensures
      var end := " where " + (Bindings(wheres, " and ") + ";");
      ReadUpdate(Quote(table) + (" set " + (Bindings(sets, ", ") + end))) == Some(Update(table, sets, wheres))
  {
    var end := " where " + (Bindings(wheres, " and ") + ";");
    ReadQuotedOf(table, " set " + (Bindings(sets, ", ") + end));
    BehindOf(" set ", Bindings(sets, ", ") + end);
    assert end[0] == ' ';
    ReadBindingsOf(sets, ", ", end);
    ReadWhereOf(wheres);
  }

  function ReadDelete(text: string): Option<Statement> {
    match ReadQuoted(text)
    case None => None
    case Some((table, rest)) =>
      match ReadWhere(rest)
      case None => None
      case Some(wheres) => Some(Delete(table, wheres))
  }

  lemma {:induction false} ReadDeleteOf(table: string, wheres: seq<string>)
    requires PlainName(table) && PlainNames(wheres)
    ensures ReadDelete(Quote(table) + (" where " + (Bindings(wheres, " and ") + ";"))) == Some(Delete(table, wheres))
  {
    ReadQuotedOf(table, " where " + (Bindings(wheres, " and ") + ";"));
    ReadWhereOf(wheres);
  }

  /** What the database reads in a text. */
  function ReadStatement(text: string): Option<Statement> {
    match Behind(text, "update ")
    case Some(rest) => ReadUpdate(rest)
    case None =>
      match Behind(text, "delete from ")
      case Some(rest) => ReadDelete(rest)
      case None => None
  }

  lemma Regroup(a: string, b: string, c: string, d: string, e: string, f: string, g: string)
    ensures a + b + c + d + e + f + g == a + (b + (c + (d + (e + (f + g)))))
  {}

  lemma {:induction false} UpdateRoundTrip(table: string, sets: seq<string>, wheres: seq<string>)
    requires Plain(Update(table, sets, wheres))
    ensures ReadStatement(Render(Update(table, sets, wheres))) == Some(Update(table, sets, wheres))
  {
    var rest := Quote(table) + (" set " + (Bindings(sets, ", ") + (" where " + (Bindings(wheres, " and ") + ";"))));
    Regroup("update ", Quote(table), " set ", Bindings(sets, ", "), " where ", Bindings(wheres, " and "), ";");
    BehindOf("update ", rest);
    ReadUpdateOf(table, sets, wheres);
  }

  lemma NoUpdate(rest: string)
    ensures Behind("delete from " + rest, "update ") == None
  {
    assert ("delete from " + rest)[0] == 'd';
  }

  lemma {:induction false} DeleteRoundTrip(table: string, wheres: seq<string>)
    requires Plain(Delete(table, wheres))
    ensures ReadStatement(Render(Delete(table, wheres))) == Some(Delete(table, wheres))
  {
    var rest := Quote(table) + (" where " + (Bindings(wheres, " and ") + ";"));
    assert "delete from " + Quote(table) + " where " + Bindings(wheres, " and ") + ";" == "delete from " + rest;
    NoUpdate(rest);
    BehindOf("delete from ", rest);
    ReadDeleteOf(table, wheres);
  }

  /** The statement is read back from its text, so different statements have different texts. */
  lemma {:induction false} RenderRoundTrip(st: Statement)
    requires Plain(st)
    ensures ReadStatement(Render(st)) == Some(st)
  {
    if st.Update? {
      UpdateRoundTrip(st.table, st.sets, st.wheres);
    } else {
      DeleteRoundTrip(st.table, st.wheres);
    }
  }
}
