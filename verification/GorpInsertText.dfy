/** The text of gorp's INSERT, and what the database reads in it: the table, the
    columns, and for each of them a placeholder or "null". */
module GorpInsertText {
  import opened GorpPlans
  import opened GorpText
  import opened Options

  // ---------------------------------------------------------------- the text

  /** What stands for a column among the values: "null" or a placeholder. */
  datatype Slot = Null | Mark

  function SlotText(slot: Slot): string { if slot == Null then "null" else "?" }

  function Listed(items: seq<string>): string {
    if items == [] then ""
    else if |items| == 1 then items[0]
    else Listed(items[..|items| - 1]) + "," + items[|items| - 1]
  }

  lemma {:induction false} ListedSnoc(items: seq<string>, item: string)
    ensures Listed(items + [item]) == if items == [] then item else Listed(items) + "," + item
  {
    if items == [] {
      assert items + [item] == [item];
    } else {
      assert (items + [item])[..|items|] == items;
    }
  }

  function Quoted(names: seq<string>): seq<string> {
    seq(|names|, i requires 0 <= i < |names| => Quote(names[i]))
  }

  function Texts(slots: seq<Slot>): seq<string> {
    seq(|slots|, i requires 0 <= i < |slots| => SlotText(slots[i]))
  }

  function RenderInsert(table: string, columns: seq<string>, slots: seq<Slot>): string {
    "insert into " + Quote(table) + " (" + Listed(Quoted(columns)) + ") values (" + Listed(Texts(slots)) + ")" + ";"
  }

  // ---------------------------------------------------------------- reading it back

  /** A column list and what follows it. */
  function ReadNames(text: string): (r: Option<(seq<string>, string)>)
    decreases |text|
  {
    match ReadQuoted(text)
    case None => Some(([], text))
    case Some((name, rest)) =>
      match Behind(rest, ",")
      case None => Some(([name], rest))
      case Some(more) => First(name, ReadNames(more))
  }

  /** One value and what follows it. */
  function ReadSlot(text: string): Option<(Slot, string)> {
    if "?" <= text then Some((Mark, text[1..])) else if "null" <= text then Some((Null, text[4..])) else None
  }

  function FirstSlot(slot: Slot, r: Option<(seq<Slot>, string)>): Option<(seq<Slot>, string)> {
    match r
    case None => None
    case Some((slots, rest)) => Some(([slot] + slots, rest))
  }

  /** A value list and what follows it. */
  function ReadSlots(text: string): (r: Option<(seq<Slot>, string)>)
    decreases |text|
  {
    match ReadSlot(text)
    case None => Some(([], text))
    case Some((slot, rest)) =>
      match Behind(rest, ",")
      case None => Some(([slot], rest))
      case Some(more) => FirstSlot(slot, ReadSlots(more))
  }

  datatype Insert = Insert(table: string, columns: seq<string>, slots: seq<Slot>)

  function ReadValues(table: string, columns: seq<string>, text: string): Option<Insert> {
    match Behind(text, ") values (")
    case None => None
    case Some(list) =>
      match ReadSlots(list)
      case None => None
      case Some((slots, end)) => if end == ");" then Some(Insert(table, columns, slots)) else None
  }

  /** What the database reads in the text of an INSERT. */
  function ReadInsert(text: string): Option<Insert> {
    match Behind(text, "insert into ")
    case None => None
    case Some(rest) =>
      match ReadQuoted(rest)
      case None => None
      case Some((table, next)) =>
        match Behind(next, " (")
        case None => None
        case Some(list) =>
          match ReadNames(list)
          case None => None
          case Some((columns, end)) => ReadValues(table, columns, end)
  }

  // ---------------------------------------------------------------- round trip

  lemma {:induction false} ListedCons(items: seq<string>)
    requires |items| > 1
    ensures Listed(items) == items[0] + "," + Listed(items[1..])
  {
    var n := |items| - 1;
    if n > 1 {
      ListedCons(items[..n]);
      assert items[..n][1..] == items[1..][..n - 1];
      assert items[1..][n - 1] == items[n];
    } else {
      assert items[..1] == [items[0]] && items[1..] == [items[1]];
    }
  }

  lemma {:induction false} ListedSplit(items: seq<string>, tail: string)
    requires |items| > 1
    ensures Listed(items) + tail == items[0] + ("," + (Listed(items[1..]) + tail))
  {
    ListedCons(items);
    Grouped(items[0], ",", Listed(items[1..]), tail);
  }

  lemma {:induction false} ReadNameMore(text: string, name: string, rest: string, names: seq<string>, tail: string)
    requires PlainName(name) && text == Quote(name) + ("," + rest) && ReadNames(rest) == Some((names, tail))
    ensures ReadNames(text) == Some(([name] + names, tail))
  {
    ReadQuotedOf(name, "," + rest);
    BehindOf(",", rest);
  }

  lemma {:induction false} ReadNameLast(text: string, name: string, tail: string)
    requires PlainName(name) && text == Quote(name) + tail && tail != "" && tail[0] == ')'
    ensures ReadNames(text) == Some(([name], tail))
  {
    ReadQuotedOf(name, tail);
  }

  lemma {:induction false} QuotedTail(names: seq<string>)
    requires names != []
    ensures Quoted(names)[1..] == Quoted(names[1..]) && Quoted(names)[0] == Quote(names[0])
  {}

  lemma {:induction false} ReadNamesOf(names: seq<string>, tail: string, text: string)
    requires PlainNames(names) && tail != "" && tail[0] == ')' && text == Listed(Quoted(names)) + tail
    ensures ReadNames(text) == Some((names, tail))
    decreases |names|
  {
    if names == [] {
      assert text == tail;
    } else if |names| == 1 {
      assert names == [names[0]];
      ReadNameLast(text, names[0], tail);
    } else {
      var rest := Listed(Quoted(names[1..])) + tail;
      ReadNamesOf(names[1..], tail, rest);
      QuotedTail(names);
      ListedSplit(Quoted(names), tail);
      ReadNameMore(text, names[0], rest, names[1..], tail);
      Rejoined(names);
    }
  }

  lemma {:induction false} ReadSlotOf(slot: Slot, rest: string)
    ensures ReadSlot(SlotText(slot) + rest) == Some((slot, rest))
  {
    var text := SlotText(slot) + rest;
    assert text[0] == SlotText(slot)[0];
    assert text[|SlotText(slot)|..] == rest;
  }

  lemma {:induction false} ReadSlotMore(text: string, slot: Slot, rest: string, slots: seq<Slot>, tail: string)
    requires text == SlotText(slot) + ("," + rest) && ReadSlots(rest) == Some((slots, tail))
    ensures ReadSlots(text) == Some(([slot] + slots, tail))
  {
    ReadSlotOf(slot, "," + rest);
    BehindOf(",", rest);
  }

  lemma {:induction false} ReadSlotLast(text: string, slot: Slot, tail: string)
    requires text == SlotText(slot) + tail && tail != "" && tail[0] == ')'
    ensures ReadSlots(text) == Some(([slot], tail))
  {
    ReadSlotOf(slot, tail);
  }

  lemma {:induction false} TextsTail(slots: seq<Slot>)
    requires slots != []
    ensures Texts(slots)[1..] == Texts(slots[1..]) && Texts(slots)[0] == SlotText(slots[0]) && [slots[0]] + slots[1..] == slots
  {}

  lemma {:induction false} ReadSlotsOf(slots: seq<Slot>, tail: string, text: string)
    requires tail != "" && tail[0] == ')' && text == Listed(Texts(slots)) + tail
    ensures ReadSlots(text) == Some((slots, tail))
    decreases |slots|
  {
    if slots == [] {
      assert text == tail;
    } else if |slots| == 1 {
      assert slots == [slots[0]];
      ReadSlotLast(text, slots[0], tail);
    } else {
      var rest := Listed(Texts(slots[1..])) + tail;
      ReadSlotsOf(slots[1..], tail, rest);
      TextsTail(slots);
      ListedSplit(Texts(slots), tail);
      ReadSlotMore(text, slots[0], rest, slots[1..], tail);
    }
  }

  lemma {:induction false} ReadValuesOf(table: string, columns: seq<string>, slots: seq<Slot>, text: string)
    requires text == ") values (" + (Listed(Texts(slots)) + ");")
    ensures ReadValues(table, columns, text) == Some(Insert(table, columns, slots))
  {
    BehindOf(") values (", Listed(Texts(slots)) + ");");
    ReadSlotsOf(slots, ");", Listed(Texts(slots)) + ");");
  }

  lemma {:induction false} InsertGrouped(a: string, b: string, c: string, d: string, e: string, f: string)
    ensures a + b + c + d + e + f + ")" + ";" == a + (b + (c + (d + (e + (f + ");")))))
  {}

  /** The INSERT is read back from its text. */
  lemma {:induction false} InsertRoundTrip(table: string, columns: seq<string>, slots: seq<Slot>)
    requires PlainName(table) && PlainNames(columns)
    ensures ReadInsert(RenderInsert(table, columns, slots)) == Some(Insert(table, columns, slots))
  {
    var end := ") values (" + (Listed(Texts(slots)) + ");");
    var list := Listed(Quoted(columns)) + end;
    InsertGrouped("insert into ", Quote(table), " (", Listed(Quoted(columns)), ") values (", Listed(Texts(slots)));
    BehindOf("insert into ", Quote(table) + (" (" + list));
    ReadQuotedOf(table, " (" + list);
    BehindOf(" (", list);
    assert end[0] == ')';
    ReadNamesOf(columns, end, list);
    ReadValuesOf(table, columns, slots, end);
  }
}
