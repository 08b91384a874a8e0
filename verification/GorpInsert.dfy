/** gorp's INSERT on MySQL: the plan names every stored column, leaves the
    auto-increment key to the database, and binds the version column to the
    struct's version plus one, so a fresh row starts a chain of versions. */
module GorpInsert {
  import opened Integers
  import opened GorpPlans
  import opened GorpText
  import opened GorpInsertText
  import opened Options
  import opened GorpCas
  import opened GorpJobs
  import JT = JobTable

  // ---------------------------------------------------------------- the plan

  function InsertColumns(m: Mapping, n: nat): seq<string>
    requires n <= |m.columns|
  {
    if n == 0 then []
    else if Stored(m.columns[n - 1]) then InsertColumns(m, n - 1) + [m.columns[n - 1].columnName]
    else InsertColumns(m, n - 1)
  }

  function InsertSlots(m: Mapping, n: nat): (r: seq<Slot>)
    requires n <= |m.columns|
    ensures |r| == |InsertColumns(m, n)|
  {
    if n == 0 then []
    else if Stored(m.columns[n - 1]) then InsertSlots(m, n - 1) + [SlotFor(m.columns[n - 1])]
    else InsertSlots(m, n - 1)
  }

  function SlotFor(c: ColumnMap): Slot { if c.isAutoIncr then Null else Mark }

  /** The auto-increment column, -1 if there is none. */
  function AutoIncr(m: Mapping, n: nat): (y: int)
    requires n <= |m.columns|
    ensures y == -1 || (0 <= y < n && Stored(m.columns[y]) && m.columns[y].isAutoIncr)
  {
    if n == 0 then -1 else if Stored(m.columns[n - 1]) && m.columns[n - 1].isAutoIncr then n - 1 else AutoIncr(m, n - 1)
  }

  /** One more item behind a list and, after the first, a comma. */
  method AppendItem(s: string, ghost items: seq<string>, first: bool, item: string) returns (r: string)
    requires s == Listed(items) && first == (items == [])
    ensures r == Listed(items + [item])
  {
    ListedSnoc(items, item);
    r := if first then item else s + "," + item;
  }

  lemma {:induction false} InsertStep(m: Mapping, y: nat)
    requires y < |m.columns|
    ensures Stored(m.columns[y]) ==>
      && Quoted(InsertColumns(m, y + 1)) == Quoted(InsertColumns(m, y)) + [Quote(m.columns[y].columnName)]
      && Texts(InsertSlots(m, y + 1)) == Texts(InsertSlots(m, y)) + [SlotText(SlotFor(m.columns[y]))]
    ensures !Stored(m.columns[y]) ==>
      && InsertColumns(m, y + 1) == InsertColumns(m, y)
      && InsertSlots(m, y + 1) == InsertSlots(m, y)
  {}

  /** One more column, in both lists. */
  method AppendColumn(m: Mapping, y: nat, s: string, s2: string, first: bool) returns (r: string, r2: string)
    requires y < |m.columns| && Stored(m.columns[y]) && first == (InsertColumns(m, y) == [])
    requires s == Listed(Quoted(InsertColumns(m, y))) && s2 == Listed(Texts(InsertSlots(m, y)))
    ensures r == Listed(Quoted(InsertColumns(m, y + 1))) && r2 == Listed(Texts(InsertSlots(m, y + 1)))
  {
    InsertStep(m, y);
    r := AppendItem(s, Quoted(InsertColumns(m, y)), first, Quote(m.columns[y].columnName));
    r2 := AppendItem(s2, Texts(InsertSlots(m, y)), first, SlotText(SlotFor(m.columns[y])));
  }

  /** TableMap.bindInsert: the text and the fields behind its placeholders. */
  method BindInsert(m: Mapping) returns (query: string, argFields: seq<string>, versField: string, autoIncrIdx: int)
    ensures query == RenderInsert(m.table, InsertColumns(m, |m.columns|), InsertSlots(m, |m.columns|))
    ensures argFields == SetFields(m, |m.columns|)
    ensures versField == VersField(m, |m.columns|, true)
    ensures autoIncrIdx == AutoIncr(m, |m.columns|)
  {
    var s, s2, first := "", "", true;
    argFields, versField, autoIncrIdx := [], "", -1;
    for y := 0 to |m.columns|
      invariant s == Listed(Quoted(InsertColumns(m, y))) && s2 == Listed(Texts(InsertSlots(m, y)))
      invariant first == (InsertColumns(m, y) == [])
      invariant argFields == SetFields(m, y) && versField == VersField(m, y, true) && autoIncrIdx == AutoIncr(m, y)
    {
      SetStep(m, y);
      if !m.columns[y].transient {
        s, s2 := AppendColumn(m, y, s, s2, first);
        if m.columns[y].isAutoIncr {
          autoIncrIdx := y;
        } else {
          argFields := argFields + [if y == m.version then VERS_FIELD else m.columns[y].fieldName];
          if y == m.version { versField := m.columns[y].fieldName; }
        }
        first := false;
      }
    }
    query := "insert into " + Quote(m.table) + " (" + s + ") values (" + s2 + ")" + ";";
  }

  // ---------------------------------------------------------------- what the database stores

  function MarkCount(slots: seq<Slot>): nat {
    if slots == [] then 0 else MarkCount(slots[..|slots| - 1]) + if slots[|slots| - 1] == Mark then 1 else 0
  }

  /** The new row: placeholders are filled from left to right, "null" by the generated key. */
  function Filled(columns: seq<string>, slots: seq<Slot>, args: seq<Value>, id: int): Record
    requires |columns| == |slots| && |args| == MarkCount(slots)
  {
    if columns == [] then map[]
    else
      var n := |columns| - 1;
      if slots[n] == Null then Filled(columns[..n], slots[..n], args, id)[columns[n] := Int(id)]
      else Filled(columns[..n], slots[..n], args[..|args| - 1], id)[columns[n] := args[|args| - 1]]
  }

  /** One placeholder per argument. */
  lemma {:induction false} InsertMarks(m: Mapping, n: nat)
    requires n <= |m.columns|
    ensures MarkCount(InsertSlots(m, n)) == |SetFields(m, n)|
  {
    if n > 0 {
      InsertMarks(m, n - 1);
      var slots := InsertSlots(m, n - 1);
      assert forall slot :: (slots + [slot])[..|slots|] == slots;
    }
  }

  function InsertArgs(m: Mapping, elem: Fields): (r: seq<Value>)
    requires Mapped(m)
    ensures |r| == |SetFields(m, |m.columns|)|
  {
    Args(SetFields(m, |m.columns|), Version(m), elem)
  }

  /** What a column of the new row holds. */
  function NewValue(m: Mapping, elem: Fields, id: int, i: nat): Value
    requires Mapped(m) && HasFields(m, elem) && i < |m.columns| && Stored(m.columns[i])
  {
    if m.columns[i].isAutoIncr then Int(id)
    else if i == m.version then Int(Next(m, elem))
    else elem[m.columns[i].fieldName]
  }

  lemma InsertArg(m: Mapping, elem: Fields, k: nat)
    requires Mapped(m) && HasFields(m, elem) && k < |Assigned(m.columns, |m.columns|)|
    ensures
      var i := Assigned(m.columns, |m.columns|)[k];
      i < |m.columns| && IsAssigned(m.columns[i]) && InsertArgs(m, elem)[k] == NewValue(m, elem, 0, i)
  {
    SetColumn(m, k);
    ArgOfColumn(m, elem, SetFields(m, |m.columns|), k, Assigned(m.columns, |m.columns|)[k]);
  }

  lemma {:induction false} AssignedPrefix(columns: seq<ColumnMap>, n: nat, k: nat)
    requires k <= n <= |columns|
    ensures |Assigned(columns, k)| <= |Assigned(columns, n)|
    ensures Assigned(columns, n)[..|Assigned(columns, k)|] == Assigned(columns, k)
  {
    if k < n { AssignedPrefix(columns, n - 1, k); }
  }

  /** The row made of the first `n` columns. */
  function RowOf(m: Mapping, elem: Fields, id: int, n: nat): Record
    requires Mapped(m) && HasFields(m, elem) && n <= |m.columns|
  {
    if n == 0 then map[]
    else if Stored(m.columns[n - 1]) then RowOf(m, elem, id, n - 1)[m.columns[n - 1].columnName := NewValue(m, elem, id, n - 1)]
    else RowOf(m, elem, id, n - 1)
  }

  lemma ArgOf(m: Mapping, elem: Fields, n: nat)
    requires Mapped(m) && HasFields(m, elem) && n < |m.columns| && IsAssigned(m.columns[n])
    ensures
      var k := |SetFields(m, n)|;
      k < |InsertArgs(m, elem)| && InsertArgs(m, elem)[k] == NewValue(m, elem, 0, n)
  {
    var k := |SetFields(m, n)|;
    AssignedPrefix(m.columns, |m.columns|, n + 1);
    assert Assigned(m.columns, n + 1)[k] == n;
    assert Assigned(m.columns, |m.columns|)[k] == n;
    InsertArg(m, elem, k);
  }

  /** One more column of the INSERT is one more column of the row. */
  lemma {:induction false} FilledStep(columns: seq<string>, slots: seq<Slot>, args: seq<Value>, id: int, name: string, value: Value)
    requires |columns| == |slots| && |args| == MarkCount(slots)
    ensures |columns + [name]| == |slots + [Null]| == |slots + [Mark]|
    ensures MarkCount(slots + [Null]) == |args| && MarkCount(slots + [Mark]) == |args| + 1
    ensures Filled(columns + [name], slots + [Null], args, id) == Filled(columns, slots, args, id)[name := Int(id)]
    ensures Filled(columns + [name], slots + [Mark], args + [value], id) == Filled(columns, slots, args, id)[name := value]
  {
    assert (columns + [name])[..|columns|] == columns;
    assert (slots + [Null])[..|slots|] == slots && (slots + [Mark])[..|slots|] == slots;
    assert (args + [value])[..|args|] == args;
  }

  /** The first `n` columns, filled, are the row made of them. */
  predicate FilledUpTo(m: Mapping, elem: Fields, id: int, n: nat)
    requires Mapped(m) && HasFields(m, elem) && n <= |m.columns|
  {
    && |SetFields(m, n)| <= |InsertArgs(m, elem)|
    && MarkCount(InsertSlots(m, n)) == |SetFields(m, n)|
    && Filled(InsertColumns(m, n), InsertSlots(m, n), InsertArgs(m, elem)[..|SetFields(m, n)|], id) == RowOf(m, elem, id, n)
  }

  lemma {:induction false} FilledKey(m: Mapping, elem: Fields, id: int, n: nat)
    requires Mapped(m) && HasFields(m, elem) && n < |m.columns| && FilledUpTo(m, elem, id, n)
    requires Stored(m.columns[n]) && m.columns[n].isAutoIncr
    ensures FilledUpTo(m, elem, id, n + 1)
  {
    var before := InsertArgs(m, elem)[..|SetFields(m, n)|];
    FilledStep(InsertColumns(m, n), InsertSlots(m, n), before, id, m.columns[n].columnName, Int(id));
  }

  lemma {:induction false} FilledAssigned(m: Mapping, elem: Fields, id: int, n: nat)
    requires Mapped(m) && HasFields(m, elem) && n < |m.columns| && FilledUpTo(m, elem, id, n)
    requires IsAssigned(m.columns[n])
    ensures FilledUpTo(m, elem, id, n + 1)
  {
    var before := InsertArgs(m, elem)[..|SetFields(m, n)|];
    var value := NewValue(m, elem, id, n);
    ArgOf(m, elem, n);
    FilledStep(InsertColumns(m, n), InsertSlots(m, n), before, id, m.columns[n].columnName, value);
    assert InsertArgs(m, elem)[..|SetFields(m, n + 1)|] == before + [value];
  }

  lemma {:induction false} FilledNone(m: Mapping, elem: Fields, id: int)
    requires Mapped(m) && HasFields(m, elem)
    ensures FilledUpTo(m, elem, id, 0)
  {}

  lemma {:induction false} FilledSkipped(m: Mapping, elem: Fields, id: int, n: nat)
    requires Mapped(m) && HasFields(m, elem) && n < |m.columns| && FilledUpTo(m, elem, id, n)
    requires !Stored(m.columns[n])
    ensures FilledUpTo(m, elem, id, n + 1)
  {}

  lemma {:induction false} FilledNext(m: Mapping, elem: Fields, id: int, n: nat)
    requires Mapped(m) && HasFields(m, elem) && n < |m.columns| && FilledUpTo(m, elem, id, n)
    ensures FilledUpTo(m, elem, id, n + 1)
  {
    if IsAssigned(m.columns[n]) {
      FilledAssigned(m, elem, id, n);
    } else if Stored(m.columns[n]) {
      FilledKey(m, elem, id, n);
    } else {
      FilledSkipped(m, elem, id, n);
    }
  }

  lemma {:induction false} FilledIsRow(m: Mapping, elem: Fields, id: int, n: nat)
    requires Mapped(m) && HasFields(m, elem) && n <= |m.columns|
    ensures FilledUpTo(m, elem, id, n)
  {
    if n == 0 {
      FilledNone(m, elem, id);
    } else {
      FilledIsRow(m, elem, id, n - 1);
      FilledNext(m, elem, id, n - 1);
    }
  }

  lemma {:induction false} RowOfGet(m: Mapping, elem: Fields, id: int, n: nat, i: nat)
    requires Mapped(m) && HasFields(m, elem) && i < n <= |m.columns| && Stored(m.columns[i])
    ensures m.columns[i].columnName in RowOf(m, elem, id, n)
    ensures RowOf(m, elem, id, n)[m.columns[i].columnName] == NewValue(m, elem, id, i)
  {
    if i < n - 1 { RowOfGet(m, elem, id, n - 1, i); }
  }

  lemma {:induction false} RowOfOnly(m: Mapping, elem: Fields, id: int, n: nat, c: string) returns (i: nat)
    requires Mapped(m) && HasFields(m, elem) && n <= |m.columns| && c in RowOf(m, elem, id, n)
    ensures i < n && Stored(m.columns[i]) && m.columns[i].columnName == c
  {
    if Stored(m.columns[n - 1]) && c == m.columns[n - 1].columnName {
      i := n - 1;
    } else {
      i := RowOfOnly(m, elem, id, n - 1, c);
    }
  }

  lemma {:induction false} RowOfOK(m: Mapping, elem: Fields, id: int)
    requires Mapped(m) && HasFields(m, elem)
    ensures RecordOK(m, RowOf(m, elem, id, |m.columns|))
  {
    forall i | 0 <= i < |m.columns| && Stored(m.columns[i])
      ensures m.columns[i].columnName in RowOf(m, elem, id, |m.columns|)
    { RowOfGet(m, elem, id, |m.columns|, i); }
    forall c | c in RowOf(m, elem, id, |m.columns|)
      ensures exists i :: 0 <= i < |m.columns| && Stored(m.columns[i]) && m.columns[i].columnName == c
    { var i := RowOfOnly(m, elem, id, |m.columns|, c); }
  }

  /** The row an INSERT stores, with the key the database generated. */
  function InsertedRecord(m: Mapping, elem: Fields, id: int): Record
    requires Mapped(m) && HasFields(m, elem)
  {
    InsertMarks(m, |m.columns|);
    Filled(InsertColumns(m, |m.columns|), InsertSlots(m, |m.columns|), InsertArgs(m, elem), id)
  }

  /** Every stored column of the new row: the key is the generated one, the
      version the struct's plus one, and each other column comes from its own field. */
  lemma InsertStoresEveryColumn(m: Mapping, elem: Fields, id: int, i: nat)
    requires Mapped(m) && HasFields(m, elem) && i < |m.columns| && Stored(m.columns[i])
    ensures RecordOK(m, InsertedRecord(m, elem, id))
    ensures InsertedRecord(m, elem, id)[m.columns[i].columnName] == NewValue(m, elem, id, i)
  {
    var n := |m.columns|;
    assert InsertArgs(m, elem)[..|SetFields(m, n)|] == InsertArgs(m, elem);
    FilledIsRow(m, elem, id, n);
    RowOfGet(m, elem, id, n, i);
    RowOfOK(m, elem, id);
  }

  // ---------------------------------------------------------------- insert

  /** The first stored auto-increment column from the right, if there is one. */
  lemma {:induction false} AutoIncrIs(m: Mapping, n: nat)
    requires n <= |m.columns|
    ensures
      var y := AutoIncr(m, n);
      y == -1 ==> forall i :: 0 <= i < n && Stored(m.columns[i]) ==> !m.columns[i].isAutoIncr
  {
    if n > 0 { AutoIncrIs(m, n - 1); }
  }

  /** Exec of an INSERT: the database reads the text, fills the placeholders from
      left to right and generates the key of the new row. */
  method ExecInsert(db: Connection, query: string, args: seq<Value>, id: int)
    requires ReadInsert(query).Some?
    requires var st := ReadInsert(query).value; |st.columns| == |st.slots| && |args| == MarkCount(st.slots)
    modifies db
    ensures var st := ReadInsert(query).value; db.rows == old(db.rows)[id := Filled(st.columns, st.slots, args, id)]
  {
    var st := ReadInsert(query).value;
    db.rows := db.rows[id := Filled(st.columns, st.slots, args, id)];
  }

  lemma {:induction false} PlainColumns(m: Mapping, n: nat)
    requires Quotable(m) && n <= |m.columns|
    ensures PlainNames(InsertColumns(m, n))
  {
    if n > 0 { PlainColumns(m, n - 1); }
  }

  lemma {:induction false} InsertBindable(m: Mapping, elem: Fields)
    requires Mapped(m) && HasFields(m, elem)
    ensures Bindable(SetFields(m, |m.columns|), Version(m), elem) && VersField(m, |m.columns|, true) == Version(m)
  {
    UpdateBindable(m, elem);
    assert UpdateFields(m)[..|SetFields(m, |m.columns|)|] == SetFields(m, |m.columns|);
    forall k | 0 <= k < |SetFields(m, |m.columns|)| && SetFields(m, |m.columns|)[k] != VERS_FIELD
      ensures SetFields(m, |m.columns|)[k] in elem
    { assert UpdateFields(m)[k] == SetFields(m, |m.columns|)[k]; }
  }

  /** The text is bound and executed. */
  method InsertRow(m: Mapping, db: Connection, elem: Fields, id: int) returns (bound: Fields, autoIncrIdx: int)
    requires Mapped(m) && Quotable(m) && HasFields(m, elem)
    modifies db
    ensures db.rows == old(db.rows)[id := InsertedRecord(m, elem, id)]
    ensures bound == if VersionIn(m, elem) == 0 then elem[Version(m) := Int(1)] else elem
    ensures autoIncrIdx == AutoIncr(m, |m.columns|)
  {
    var query, argFields, versField;
    query, argFields, versField, autoIncrIdx := BindInsert(m);
    InsertBindable(m, elem);
    PlainColumns(m, |m.columns|);
    InsertRoundTrip(m.table, InsertColumns(m, |m.columns|), InsertSlots(m, |m.columns|));
    InsertMarks(m, |m.columns|);
    BumpIsBound(m);
    var b := CreateBindInstance(Plan(query, argFields, [], versField), elem);
    assert b.args == InsertArgs(m, elem);
    ExecInsert(db, query, b.args, id);
    bound := b.elem;
  }

  /** What the caller's struct holds afterwards: the generated key, a version of at
      least 1, and everything else as it was. */
  predicate Returned(m: Mapping, elem: Fields, id: int, r: Fields)
    requires Mapped(m) && HasFields(m, elem)
  {
    && r.Keys == elem.Keys
    && forall i :: 0 <= i < |m.columns| && Stored(m.columns[i]) ==>
         r[m.columns[i].fieldName] ==
           if i == AutoIncr(m, |m.columns|) then Int(id)
           else if i == m.version && VersionIn(m, elem) == 0 then Int(1)
           else elem[m.columns[i].fieldName]
  }

  lemma {:induction false} KeySet(m: Mapping, elem: Fields, bound: Fields, id: int)
    requires Mapped(m) && HasFields(m, elem)
    requires bound == if VersionIn(m, elem) == 0 then elem[Version(m) := Int(1)] else elem
    ensures
      var y := AutoIncr(m, |m.columns|);
      Returned(m, elem, id, if y > -1 then bound[m.columns[y].fieldName := Int(id)] else bound)
  {
    assert IsAssigned(m.columns[m.version]);
  }

  /** gorp's insert of one struct: what is stored is what the text says, and the
      struct gets the generated key. */
  method RunInsertThrough(m: Mapping, db: Connection, elem: Fields, id: int) returns (r: Fields)
    requires Mapped(m) && Quotable(m) && HasFields(m, elem) && id !in db.rows
    modifies db
    ensures db.rows == old(db.rows)[id := InsertedRecord(m, elem, id)]
    ensures Returned(m, elem, id, r)
  {
    var autoIncrIdx;
    r, autoIncrIdx := InsertRow(m, db, elem, id);
    KeySet(m, elem, r, id);
    if autoIncrIdx > -1 { r := r[m.columns[autoIncrIdx].fieldName := Int(id)]; }
  }

  /** Two rows of one table that agree column by column are the same. */
  lemma {:induction false} SameRecord(m: Mapping, got: Record, want: Record)
    requires RecordOK(m, got) && RecordOK(m, want)
    requires forall i :: 0 <= i < |m.columns| && Stored(m.columns[i]) ==>
      got[m.columns[i].columnName] == want[m.columns[i].columnName]
    ensures got == want
  {
    forall c ensures (c in got <==> c in want) && (c in got ==> got[c] == want[c]) {
      if c in got || c in want {
        var i :| 0 <= i < |m.columns| && Stored(m.columns[i]) && m.columns[i].columnName == c;
      }
    }
  }

  /** The row an INSERT of the job stores, in the queue's terms. */
  function WrappedRow(j: JT.Job): JT.Row { JT.Store(Wrapped(j)) }

  /** A job that is enqueued is stored as the row the queue's model inserts, where its
      chain of versions starts, exactly unless it comes with the last 64-bit version. */
  lemma {:induction false} JobInsertIsInsertedIff(m: Mapping, j: JT.Job, id: int)
    requires JobShape(m) && IsInt64(j.version)
    ensures HasFields(m, JobFields(m, j))
    ensures InsertedRecord(m, JobFields(m, j), id) == JobRecord(m, id, JT.InsertedRow(j)) <==> j.version != MAX_INT64
  {
    JobInsertWraps(m, j, id);
    RecordInjective(m, id, WrappedRow(j), JT.InsertedRow(j));
  }

  lemma {:induction false} JobInsertWraps(m: Mapping, j: JT.Job, id: int)
    requires JobShape(m) && IsInt64(j.version)
    ensures HasFields(m, JobFields(m, j))
    ensures InsertedRecord(m, JobFields(m, j), id) == JobRecord(m, id, WrappedRow(j))
  {
    FieldsHave(m, j);
    JobInsertOK(m, j, id);
    forall i | 0 <= i < 6
      ensures InsertedRecord(m, JobFields(m, j), id)[m.columns[i].columnName] == JobRecord(m, id, WrappedRow(j))[m.columns[i].columnName]
    { JobInsertAt(m, j, id, i); }
    SameRecord(m, InsertedRecord(m, JobFields(m, j), id), JobRecord(m, id, WrappedRow(j)));
  }

  lemma {:induction false} JobInsertOK(m: Mapping, j: JT.Job, id: int)
    requires JobShape(m) && IsInt64(j.version) && HasFields(m, JobFields(m, j))
    ensures RecordOK(m, InsertedRecord(m, JobFields(m, j), id)) && RecordOK(m, JobRecord(m, id, WrappedRow(j)))
  {
    InsertStoresEveryColumn(m, JobFields(m, j), id, 0);
    RecordGet(m, id, WrappedRow(j));
  }

  lemma JobInsertAt(m: Mapping, j: JT.Job, id: int, i: nat)
    requires JobShape(m) && IsInt64(j.version) && HasFields(m, JobFields(m, j)) && i < 6
    ensures
      var c := m.columns[i].columnName;
      && c in InsertedRecord(m, JobFields(m, j), id) && c in JobRecord(m, id, WrappedRow(j))
      && InsertedRecord(m, JobFields(m, j), id)[c] == JobRecord(m, id, WrappedRow(j))[c]
  {
    assert Stored(m.columns[i]);
    FieldsHave(m, j);
    InsertStoresEveryColumn(m, JobFields(m, j), id, i);
    RecordAt(m, id, WrappedRow(j), i);
    FieldAt(m, j, i);
  }
}
