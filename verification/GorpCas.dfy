/** The statement gorp runs for a versioned struct is a compare-and-set on key
    and version: it writes each stored, non-auto-increment column from its own
    field, bumps the version, and touches no other row; if no row has that key
    and version it writes nothing and reports an OptimisticLockError. */
module GorpCas {
  import opened Integers
  import opened GorpPlans
  import opened GorpText
  import opened Options

  predicate Stored(c: ColumnMap) { !c.transient }

  /** A mapping with distinct names, stored keys, and one stored version column that is not a key. */
  predicate Mapped(m: Mapping) {
    && KeysInRange(m)
    && (forall i, j :: 0 <= i < j < |m.columns| ==> m.columns[i].fieldName != m.columns[j].fieldName)
    && (forall i, j :: 0 <= i < j < |m.columns| && Stored(m.columns[i]) && Stored(m.columns[j])
          ==> m.columns[i].columnName != m.columns[j].columnName)
    && (forall i :: 0 <= i < |m.columns| ==> m.columns[i].fieldName != "" && m.columns[i].fieldName != VERS_FIELD)
    && (forall k :: 0 <= k < |m.keys| ==> Stored(m.columns[m.keys[k]]) && m.keys[k] != m.version)
    && 0 <= m.version < |m.columns| && IsAssigned(m.columns[m.version])
  }

  predicate HasFields(m: Mapping, elem: Fields)
    requires Mapped(m)
  {
    && (forall i :: 0 <= i < |m.columns| && Stored(m.columns[i]) ==> m.columns[i].fieldName in elem)
    && VERS_FIELD !in elem
    && elem[m.columns[m.version].fieldName].Int? && IsInt64(elem[m.columns[m.version].fieldName].i)
  }

  function VersionIn(m: Mapping, elem: Fields): int
    requires Mapped(m) && HasFields(m, elem)
  {
    elem[m.columns[m.version].fieldName].i
  }

  /** The version that the generated statement writes. */
  function Next(m: Mapping, elem: Fields): int
    requires Mapped(m) && HasFields(m, elem)
  {
    Bump(VersionIn(m, elem))
  }

  predicate RecordOK(m: Mapping, r: Record) {
    && (forall i :: 0 <= i < |m.columns| && Stored(m.columns[i]) ==> m.columns[i].columnName in r)
    && (forall c :: c in r ==> exists i :: 0 <= i < |m.columns| && Stored(m.columns[i]) && m.columns[i].columnName == c)
  }

  predicate SameKeys(m: Mapping, r: Record, q: Record)
    requires KeysInRange(m)
  {
    forall k :: 0 <= k < |m.keys| ==>
      var c := m.columns[m.keys[k]].columnName;
      c in r && c in q && r[c] == q[c]
  }

  /** Rows hold the stored columns, and two rows with the same key are one row. */
  ghost predicate RowsOK(m: Mapping, rows: Rows)
    requires KeysInRange(m)
  {
    && (forall rid :: rid in rows ==> RecordOK(m, rows[rid]))
    && (forall i, j :: i in rows && j in rows && SameKeys(m, rows[i], rows[j]) ==> i == j)
  }

  /** The row has the struct's key and the struct's version. */
  predicate Current(m: Mapping, r: Record, elem: Fields)
    requires Mapped(m) && HasFields(m, elem)
  {
    KeysEqual(m, r, elem) &&
    m.columns[m.version].columnName in r && r[m.columns[m.version].columnName] == Int(VersionIn(m, elem))
  }

  /** What the row must hold afterwards, column by column, if `next` is the new version. */
  predicate IsTarget(m: Mapping, before: Record, after: Record, elem: Fields, next: int)
    requires Mapped(m) && HasFields(m, elem) && RecordOK(m, before)
  {
    && after.Keys == before.Keys
    && forall i :: 0 <= i < |m.columns| && Stored(m.columns[i]) ==>
         after[m.columns[i].columnName] ==
           if i == m.version then Int(next)
           else if m.columns[i].isAutoIncr then before[m.columns[i].columnName]
           else elem[m.columns[i].fieldName]
  }

  function Args(names: seq<string>, versField: string, elem: Fields): (r: seq<Value>)
    ensures |r| == |names|
    ensures forall k :: 0 <= k < |r| ==> r[k] == ArgValue(names, versField, elem, k)
  {
    seq(|names|, k requires 0 <= k < |names| => ArgValue(names, versField, elem, k))
  }

  function Version(m: Mapping): string
    requires Mapped(m)
  {
    m.columns[m.version].fieldName
  }

  function UpdateArgs(m: Mapping, elem: Fields): (r: seq<Value>)
    requires Mapped(m)
    ensures |r| == Placeholders(UpdateStatement(m))
  {
    Args(UpdateFields(m), Version(m), elem)
  }

  function DeleteArgs(m: Mapping, elem: Fields): (r: seq<Value>)
    requires Mapped(m)
    ensures |r| == Placeholders(DeleteStatement(m))
  {
    Args(DeleteFields(m), Version(m), elem)
  }

  /** The rows after the generated UPDATE. */
  function UpdatedRows(m: Mapping, rows: Rows, elem: Fields): (r: Rows)
    requires Mapped(m) && HasFields(m, elem)
    ensures r.Keys == rows.Keys
  {
    Execute(rows, UpdateStatement(m), UpdateArgs(m, elem))
  }

  /** gorp's update: the rows afterwards and what the caller gets. */
  function RunUpdate(m: Mapping, rows: Rows, elem: Fields): (Rows, Result)
    requires Mapped(m) && HasFields(m, elem)
  {
    var after := UpdatedRows(m, rows, elem);
    (after, UpdateResult(m, rows, after, elem))
  }

  /** What update makes of the number of rows affected. */
  function UpdateResult(m: Mapping, rows: Rows, after: Rows, elem: Fields): Result
    requires Mapped(m) && HasFields(m, elem)
  {
    if Affected(rows, after) == 0 && VersionIn(m, elem) > 0 then LockError(RowExists(m, rows, elem))
    else Ok(Affected(rows, after), elem[Version(m) := Int(Next(m, elem))])
  }

  /** gorp's delete. */
  function RunDelete(m: Mapping, rows: Rows, elem: Fields): (Rows, Result)
    requires Mapped(m) && HasFields(m, elem)
  {
    var left := RowsLeft(m, rows, elem);
    (left, DeleteResult(m, rows, left, elem))
  }

  /** The rows after the generated DELETE. */
  function RowsLeft(m: Mapping, rows: Rows, elem: Fields): Rows
    requires Mapped(m) && HasFields(m, elem)
  {
    Execute(rows, DeleteStatement(m), DeleteArgs(m, elem))
  }

  function DeleteResult(m: Mapping, rows: Rows, left: Rows, elem: Fields): Result
    requires Mapped(m) && HasFields(m, elem)
  {
    if Affected(rows, left) == 0 && VersionIn(m, elem) > 0 then LockError(RowExists(m, rows, elem))
    else Ok(Affected(rows, left), elem)
  }

  // ---------------------------------------------------------------- placeholders and arguments

  /** The text of each plan has one placeholder per argument, exactly when no name
      in it contains a question mark. */
  lemma {:induction false} PlaceholdersMatchIff(m: Mapping)
    requires Mapped(m)
    ensures Marks(Render(UpdateStatement(m))) == |UpdateFields(m)| <==> UnmarkedNames(UpdateStatement(m))
    ensures Marks(Render(DeleteStatement(m))) == |DeleteFields(m)| <==> UnmarkedNames(DeleteStatement(m))
  {
    MarksArePlaceholdersIff(UpdateStatement(m));
    MarksArePlaceholdersIff(DeleteStatement(m));
    FieldsArePlaceholders(m);
  }

  lemma {:induction false} FieldsArePlaceholders(m: Mapping)
    requires Mapped(m)
    ensures |UpdateFields(m)| == Placeholders(UpdateStatement(m)) && |DeleteFields(m)| == Placeholders(DeleteStatement(m))
  {}

  // ---------------------------------------------------------------- the WHERE clause

  /** What the placeholders of the WHERE clause are filled with. */
  lemma WhereArgs(m: Mapping, names: seq<string>, at: nat, elem: Fields)
    requires Mapped(m) && HasFields(m, elem)
    requires at <= |names| && names[at..] == WhereFields(m, Version(m))
    ensures
      var args := Args(names, Version(m), elem)[at..];
      && |args| == |m.keys| + 1
      && (forall k :: 0 <= k < |m.keys| ==> args[k] == elem[m.columns[m.keys[k]].fieldName])
      && args[|m.keys|] == Int(if VersionIn(m, elem) == 0 && VERS_FIELD in names[..at] then 1 else VersionIn(m, elem))
  {
    KeysAligned(m, |m.keys|);
    var args := Args(names, Version(m), elem)[at..];
    forall k | 0 <= k < |m.keys| ensures args[k] == elem[m.columns[m.keys[k]].fieldName] {
      assert args[k] == ArgValue(names, Version(m), elem, at + k);
      assert names[at + k] == names[at..][k] == m.columns[m.keys[k]].fieldName != Version(m);
    }
    var last := at + |m.keys|;
    assert names[last] == names[at..][|m.keys|] == Version(m);
    assert args[|m.keys|] == ArgValue(names, Version(m), elem, last);
    BumpBeforeKeys(m, names, at);
  }

  lemma BumpBeforeKeys(m: Mapping, names: seq<string>, at: nat)
    requires Mapped(m)
    requires at <= |names| && names[at..] == WhereFields(m, Version(m))
    ensures VERS_FIELD in names[..at + |m.keys|] <==> VERS_FIELD in names[..at]
  {
    KeysAligned(m, |m.keys|);
    var last := at + |m.keys|;
    forall k | at <= k < last ensures names[..last][k] != VERS_FIELD {
      assert names[k] == names[at..][k - at] == m.columns[m.keys[k - at]].fieldName;
    }
    if k :| 0 <= k < at && names[..at][k] == VERS_FIELD { assert names[..last][k] == VERS_FIELD; }
    if k :| 0 <= k < last && names[..last][k] == VERS_FIELD { assert names[..at][k] == VERS_FIELD; }
  }

  lemma {:induction false} WhereSelects(m: Mapping, r: Record, elem: Fields, args: seq<Value>)
    requires Mapped(m) && HasFields(m, elem)
    requires |args| == |m.keys| + 1
    requires forall k :: 0 <= k < |m.keys| ==> args[k] == elem[m.columns[m.keys[k]].fieldName]
    requires args[|m.keys|] == Int(VersionIn(m, elem))
    ensures |WhereColumns(m, Version(m))| == |args|
    ensures Satisfies(r, WhereColumns(m, Version(m)), args) <==> Current(m, r, elem)
  {
    KeysAligned(m, |m.keys|);
    var wheres := WhereColumns(m, Version(m));
    assert forall k :: 0 <= k < |m.keys| ==> wheres[k] == m.columns[m.keys[k]].columnName;
    assert wheres[|m.keys|] == m.columns[m.version].columnName;
    if Current(m, r, elem) {
      forall k | 0 <= k < |wheres| ensures wheres[k] in r && r[wheres[k]] == args[k] { }
    } else if Satisfies(r, wheres, args) {
      assert KeysEqual(m, r, elem);
    }
  }

  /** For a version other than 0 the UPDATE selects the current row. */
  lemma UpdateSelects(m: Mapping, r: Record, elem: Fields)
    requires Mapped(m) && HasFields(m, elem) && VersionIn(m, elem) != 0
    ensures
      var st := UpdateStatement(m);
      Satisfies(r, st.wheres, UpdateArgs(m, elem)[|st.sets|..]) <==> Current(m, r, elem)
  {
    var names := UpdateFields(m);
    var at := |SetFields(m, |m.columns|)|;
    assert names[at..] == WhereFields(m, Version(m));
    WhereArgs(m, names, at, elem);
    WhereSelects(m, r, elem, UpdateArgs(m, elem)[at..]);
  }

  lemma DeleteSelects(m: Mapping, r: Record, elem: Fields)
    requires Mapped(m) && HasFields(m, elem)
    ensures Satisfies(r, DeleteStatement(m).wheres, DeleteArgs(m, elem)) <==> Current(m, r, elem)
  {
    var names := DeleteFields(m);
    assert names[0..] == names;
    WhereArgs(m, names, 0, elem);
    assert DeleteArgs(m, elem)[0..] == DeleteArgs(m, elem);
    WhereSelects(m, r, elem, DeleteArgs(m, elem));
  }

  // ---------------------------------------------------------------- the assignments

  predicate Distinct(names: seq<string>) {
    forall k, l :: 0 <= k < l < |names| ==> names[k] != names[l]
  }

  lemma {:induction false} AssignSets(r: Record, sets: seq<string>, args: seq<Value>, k: nat)
    requires |args| == |sets| && Distinct(sets) && k < |sets|
    ensures sets[k] in Assign(r, sets, args) && Assign(r, sets, args)[sets[k]] == args[k]
  {
    var n := |sets| - 1;
    if k < n { AssignSets(r, sets[..n], args[..n], k); }
  }

  lemma {:induction false} AssignKeeps(r: Record, sets: seq<string>, args: seq<Value>, c: string)
    requires |args| == |sets| && c in r
    ensures c in Assign(r, sets, args) && (c !in sets ==> Assign(r, sets, args)[c] == r[c])
  {
    if sets != [] {
      var n := |sets| - 1;
      AssignKeeps(r, sets[..n], args[..n], c);
    }
  }

  lemma {:induction false} AssignAdds(r: Record, sets: seq<string>, args: seq<Value>, c: string)
    requires |args| == |sets| && c in Assign(r, sets, args)
    ensures c in r || c in sets
  {
    if sets != [] && c != sets[|sets| - 1] { AssignAdds(r, sets[..|sets| - 1], args[..|sets| - 1], c); }
  }

  lemma {:induction false} AssignGet(r: Record, sets: seq<string>, args: seq<Value>)
    requires |args| == |sets| && Distinct(sets)
    ensures
      var after := Assign(r, sets, args);
      && (forall k :: 0 <= k < |sets| ==> sets[k] in after && after[sets[k]] == args[k])
      && (forall c :: c in r ==> c in after && (c !in sets ==> after[c] == r[c]))
      && (forall c :: c in after ==> c in r || c in sets)
  {
    forall k | 0 <= k < |sets| ensures sets[k] in Assign(r, sets, args) && Assign(r, sets, args)[sets[k]] == args[k] {
      AssignSets(r, sets, args, k);
    }
    forall c | c in r ensures c in Assign(r, sets, args) && (c !in sets ==> Assign(r, sets, args)[c] == r[c]) {
      AssignKeeps(r, sets, args, c);
    }
    forall c | c in Assign(r, sets, args) ensures c in r || c in sets { AssignAdds(r, sets, args, c); }
  }

  lemma SetsDistinct(m: Mapping)
    requires Mapped(m)
    ensures Distinct(SetColumns(m, |m.columns|))
  {
    SetsAligned(m, |m.columns|);
    AssignedColumns(m.columns, |m.columns|);
  }

  /** The row after the SET clause. */
  function Updated(m: Mapping, r: Record, elem: Fields): Record
    requires Mapped(m)
  {
    var sets := SetColumns(m, |m.columns|);
    Assign(r, sets, UpdateArgs(m, elem)[..|sets|])
  }

  lemma UpdatedColumns(m: Mapping, r: Record, elem: Fields)
    requires Mapped(m) && HasFields(m, elem)
    ensures
      var sets := SetColumns(m, |m.columns|);
      var after := Updated(m, r, elem);
      && (forall k :: 0 <= k < |sets| ==> sets[k] in after && after[sets[k]] == UpdateArgs(m, elem)[k])
      && (forall c :: c in r ==> c in after && (c !in sets ==> after[c] == r[c]))
      && (forall c :: c in after ==> c in r || c in sets)
  {
    SetsDistinct(m);
    AssignGet(r, SetColumns(m, |m.columns|), UpdateArgs(m, elem)[..|SetColumns(m, |m.columns|)|]);
  }

  lemma AssignedAt(m: Mapping, elem: Fields, i: nat) returns (k: nat)
    requires Mapped(m) && HasFields(m, elem) && i < |m.columns| && IsAssigned(m.columns[i])
    ensures k < |SetColumns(m, |m.columns|)| && SetColumns(m, |m.columns|)[k] == m.columns[i].columnName
    ensures UpdateArgs(m, elem)[k] == if i == m.version then Int(Next(m, elem)) else elem[m.columns[i].fieldName]
  {
    AssignedColumns(m.columns, |m.columns|);
    k :| 0 <= k < |Assigned(m.columns, |m.columns|)| && Assigned(m.columns, |m.columns|)[k] == i;
    SetArg(m, elem, k);
  }

  lemma {:induction false} AutoIncrNotSet(m: Mapping, i: nat)
    requires Mapped(m) && i < |m.columns| && Stored(m.columns[i]) && m.columns[i].isAutoIncr
    ensures m.columns[i].columnName !in SetColumns(m, |m.columns|)
  {
    forall k | 0 <= k < |SetColumns(m, |m.columns|)|
      ensures SetColumns(m, |m.columns|)[k] != m.columns[i].columnName
    {
      SetColumn(m, k);
      assert Stored(m.columns[Assigned(m.columns, |m.columns|)[k]]);
    }
  }

  lemma TargetColumn(m: Mapping, r: Record, elem: Fields, i: nat)
    requires Mapped(m) && HasFields(m, elem) && RecordOK(m, r) && i < |m.columns| && Stored(m.columns[i])
    ensures
      var after := Updated(m, r, elem);
      && m.columns[i].columnName in after
      && after[m.columns[i].columnName] ==
           if i == m.version then Int(Next(m, elem))
           else if m.columns[i].isAutoIncr then r[m.columns[i].columnName]
           else elem[m.columns[i].fieldName]
  {
    UpdatedColumns(m, r, elem);
    if m.columns[i].isAutoIncr {
      AutoIncrNotSet(m, i);
    } else {
      var k := AssignedAt(m, elem, i);
    }
  }

  lemma SetColumnsStored(m: Mapping, r: Record, elem: Fields, c: string)
    requires Mapped(m) && HasFields(m, elem) && RecordOK(m, r) && c in SetColumns(m, |m.columns|)
    ensures c in r
  {
    var k :| 0 <= k < |SetColumns(m, |m.columns|)| && SetColumns(m, |m.columns|)[k] == c;
    SetArg(m, elem, k);
  }

  lemma {:induction false} UpdatedKeys(m: Mapping, r: Record, elem: Fields)
    requires Mapped(m) && HasFields(m, elem) && RecordOK(m, r)
    ensures Updated(m, r, elem).Keys == r.Keys
  {
    UpdatedColumns(m, r, elem);
    forall c | c in SetColumns(m, |m.columns|) ensures c in r { SetColumnsStored(m, r, elem, c); }
  }

  lemma {:induction false} AssignHitsTarget(m: Mapping, r: Record, elem: Fields)
    requires Mapped(m) && HasFields(m, elem) && RecordOK(m, r)
    ensures IsTarget(m, r, Updated(m, r, elem), elem, Next(m, elem))
  {
    UpdatedKeys(m, r, elem);
    forall i | 0 <= i < |m.columns| && Stored(m.columns[i])
      ensures Updated(m, r, elem)[m.columns[i].columnName] ==
           if i == m.version then Int(Next(m, elem))
           else if m.columns[i].isAutoIncr then r[m.columns[i].columnName]
           else elem[m.columns[i].fieldName]
    { TargetColumn(m, r, elem, i); }
  }

  /** The k-th assignment is to a stored column, from that column's own field. */
  lemma {:induction false} SetColumn(m: Mapping, k: nat)
    requires Mapped(m) && k < |Assigned(m.columns, |m.columns|)|
    ensures
      var i := Assigned(m.columns, |m.columns|)[k];
      && i < |m.columns| && IsAssigned(m.columns[i])
      && SetColumns(m, |m.columns|)[k] == m.columns[i].columnName && SetFields(m, |m.columns|)[k] == ArgField(m, i)
  {
    SetsAligned(m, |m.columns|);
    AssignedColumns(m.columns, |m.columns|);
  }

  lemma {:induction false} ArgOfColumn(m: Mapping, elem: Fields, names: seq<string>, k: nat, i: nat)
    requires Mapped(m) && HasFields(m, elem) && i < |m.columns| && IsAssigned(m.columns[i])
    requires k < |names| && names[k] == ArgField(m, i)
    ensures ArgValue(names, Version(m), elem, k) ==
      if i == m.version then Int(Next(m, elem)) else elem[m.columns[i].fieldName]
  {
    assert i != m.version ==> m.columns[i].fieldName != Version(m);
    assert Stored(m.columns[i]);
  }

  lemma {:induction false} SetArg(m: Mapping, elem: Fields, k: nat)
    requires Mapped(m) && HasFields(m, elem) && k < |Assigned(m.columns, |m.columns|)|
    ensures
      var i := Assigned(m.columns, |m.columns|)[k];
      && i < |m.columns| && SetColumns(m, |m.columns|)[k] == m.columns[i].columnName
      && IsAssigned(m.columns[i])
      && UpdateArgs(m, elem)[k] == if i == m.version then Int(Next(m, elem)) else elem[m.columns[i].fieldName]
  {
    SetColumn(m, k);
    assert UpdateFields(m)[k] == SetFields(m, |m.columns|)[k];
    ArgOfColumn(m, elem, UpdateFields(m), k, Assigned(m.columns, |m.columns|)[k]);
  }

  // ---------------------------------------------------------------- theorems

  /** What an update does to one row. */
  predicate RowEffect(m: Mapping, before: Record, after: Record, elem: Fields, next: int)
    requires Mapped(m) && HasFields(m, elem) && RecordOK(m, before)
  {
    if Current(m, before, elem) then IsTarget(m, before, after, elem, next) else after == before
  }

  /** A successful or failed update, spelled out; the new version is one more. */
  ghost predicate CompareAndSet(m: Mapping, rows: Rows, after: Rows, elem: Fields, r: Result)
    requires Mapped(m) && HasFields(m, elem) && RowsOK(m, rows)
  {
    if exists rid :: rid in rows && Current(m, rows[rid], elem) then
      && after.Keys == rows.Keys
      && (forall rid :: rid in rows ==> RowEffect(m, rows[rid], after[rid], elem, VersionIn(m, elem) + 1))
      && r == Ok(1, elem[m.columns[m.version].fieldName := Int(VersionIn(m, elem) + 1)])
    else
      after == rows && r == LockError(RowExists(m, rows, elem))
  }

  lemma OneCurrent(m: Mapping, rows: Rows, elem: Fields, i: int, j: int)
    requires Mapped(m) && HasFields(m, elem) && RowsOK(m, rows) && i in rows && j in rows
    requires Current(m, rows[i], elem) && Current(m, rows[j], elem)
    ensures i == j
  {
    assert SameKeys(m, rows[i], rows[j]);
  }

  lemma OneDiffers(before: Rows, after: Rows, id: int)
    requires id in before && forall rid :: rid in before && rid != id ==> rid in after && after[rid] == before[rid]
    ensures Affected(before, after) == if id in after && after[id] == before[id] then 0 else 1
  {
    var changed := set rid | rid in before && (rid !in after || after[rid] != before[rid]);
    if id in after && after[id] == before[id] {
      forall rid | rid in before ensures rid !in changed { }
      assert changed == {};
    } else {
      forall rid | rid in changed ensures rid == id { }
      assert changed == {id};
    }
  }

  lemma NoneDiffers(rows: Rows)
    ensures Affected(rows, rows) == 0
  {
    assert (set rid | rid in rows && (rid !in rows || rows[rid] != rows[rid])) == {};
  }

  lemma {:induction false} CurrentIsAffected(m: Mapping, rows: Rows, after: Rows, elem: Fields, rid: int)
    requires Mapped(m) && HasFields(m, elem) && RowsOK(m, rows) && rid in rows && Current(m, rows[rid], elem)
    requires forall id :: id in rows && !Current(m, rows[id], elem) ==> id in after && after[id] == rows[id]
    requires rid in after ==> after[rid] != rows[rid]
    ensures Affected(rows, after) == 1
  {
    forall id | id in rows && id != rid ensures id in after && after[id] == rows[id] {
      if Current(m, rows[id], elem) { OneCurrent(m, rows, elem, rid, id); }
    }
    OneDiffers(rows, after, rid);
  }

  /** Exactly the current row is affected. */
  lemma {:induction false} AffectedIsCurrent(m: Mapping, rows: Rows, after: Rows, elem: Fields)
    requires Mapped(m) && HasFields(m, elem) && RowsOK(m, rows)
    requires after.Keys <= rows.Keys
    requires forall rid :: rid in rows && !Current(m, rows[rid], elem) ==> rid in after && after[rid] == rows[rid]
    requires forall rid :: rid in rows && Current(m, rows[rid], elem) && rid in after ==> after[rid] != rows[rid]
    ensures Affected(rows, after) == if exists rid :: rid in rows && Current(m, rows[rid], elem) then 1 else 0
    ensures (forall rid :: rid in rows ==> !Current(m, rows[rid], elem)) ==> after == rows
  {
    if rid :| rid in rows && Current(m, rows[rid], elem) {
      CurrentIsAffected(m, rows, after, elem, rid);
    } else {
      forall rid | rid in rows ensures rid in after && after[rid] == rows[rid] { assert !Current(m, rows[rid], elem); }
      assert rows.Keys <= after.Keys;
      NoneDiffers(rows);
    }
  }

  lemma {:induction false} UpdateEffect(m: Mapping, rows: Rows, elem: Fields, rid: int)
    requires Mapped(m) && HasFields(m, elem) && RowsOK(m, rows) && VersionIn(m, elem) != 0 && rid in rows
    ensures
      var after := UpdatedRows(m, rows, elem);
      RowEffect(m, rows[rid], after[rid], elem, Next(m, elem)) && (Current(m, rows[rid], elem) ==> after[rid] != rows[rid])
  {
    UpdatedRow(m, rows, elem, rid);
    AssignHitsTarget(m, rows[rid], elem);
    if Current(m, rows[rid], elem) { NotItsTarget(m, rows[rid], elem, Next(m, elem)); }
  }

  lemma UpdateEffects(m: Mapping, rows: Rows, after: Rows, elem: Fields, next: int)
    requires Mapped(m) && HasFields(m, elem) && RowsOK(m, rows) && VersionIn(m, elem) != 0
    requires after == UpdatedRows(m, rows, elem) && next == Next(m, elem)
    ensures after.Keys == rows.Keys
    ensures forall rid :: rid in rows ==> RowEffect(m, rows[rid], after[rid], elem, next)
    ensures Affected(rows, after) == if exists rid :: rid in rows && Current(m, rows[rid], elem) then 1 else 0
    ensures (forall rid :: rid in rows ==> !Current(m, rows[rid], elem)) ==> after == rows
  {
    forall rid | rid in rows
      ensures RowEffect(m, rows[rid], after[rid], elem, next)
      ensures Current(m, rows[rid], elem) ==> after[rid] != rows[rid]
    { UpdateEffect(m, rows, elem, rid); }
    AffectedIsCurrent(m, rows, after, elem);
  }

  /** For a loaded struct whose version can still grow, the update is a compare-and-set. */
  lemma UpdateIsCompareAndSet(m: Mapping, rows: Rows, elem: Fields)
    requires Mapped(m) && HasFields(m, elem) && RowsOK(m, rows) && 1 <= VersionIn(m, elem) < MAX_INT64
    ensures CompareAndSet(m, rows, RunUpdate(m, rows, elem).0, elem, RunUpdate(m, rows, elem).1)
  {
    var after, next := UpdatedRows(m, rows, elem), VersionIn(m, elem) + 1;
    UpdateEffects(m, rows, after, elem, next);
    EffectsCompareAndSet(m, rows, after, elem, next);
  }

  lemma {:induction false} EffectsCompareAndSet(m: Mapping, rows: Rows, after: Rows, elem: Fields, next: int)
    requires Mapped(m) && HasFields(m, elem) && RowsOK(m, rows) && after.Keys == rows.Keys && VersionIn(m, elem) >= 1
    requires next == VersionIn(m, elem) + 1 == Next(m, elem)
    requires forall rid :: rid in rows ==> RowEffect(m, rows[rid], after[rid], elem, next)
    requires (forall rid :: rid in rows ==> !Current(m, rows[rid], elem)) ==> after == rows
    requires Affected(rows, after) == if exists rid :: rid in rows && Current(m, rows[rid], elem) then 1 else 0
    ensures CompareAndSet(m, rows, after, elem, UpdateResult(m, rows, after, elem))
  {}

  /** At the last version the sum wraps: the current row and the struct get the
      least version, with which no later update of the struct is ever refused. */
  lemma {:induction false} LastVersionWraps(m: Mapping, rows: Rows, elem: Fields, rid: int, later: Rows)
    requires Mapped(m) && HasFields(m, elem) && RowsOK(m, rows) && VersionIn(m, elem) == MAX_INT64
    requires rid in rows && Current(m, rows[rid], elem)
    ensures
      var (after, r), wrapped := RunUpdate(m, rows, elem), elem[Version(m) := Int(MIN_INT64)];
      && r == Ok(1, wrapped)
      && rid in after && IsTarget(m, rows[rid], after[rid], elem, MIN_INT64)
      && HasFields(m, wrapped) && !RunUpdate(m, later, wrapped).1.LockError?
  {
    LastVersionResult(m, rows, elem, rid);
    UpdateEffect(m, rows, elem, rid);
    NeverRefused(m, later, elem[Version(m) := Int(MIN_INT64)]);
  }

  lemma {:induction false} LastVersionResult(m: Mapping, rows: Rows, elem: Fields, rid: int)
    requires Mapped(m) && HasFields(m, elem) && RowsOK(m, rows) && VersionIn(m, elem) == MAX_INT64
    requires rid in rows && Current(m, rows[rid], elem)
    ensures RunUpdate(m, rows, elem).1 == Ok(1, elem[Version(m) := Int(MIN_INT64)])
  {
    UpdateEffects(m, rows, UpdatedRows(m, rows, elem), elem, Next(m, elem));
  }

  lemma {:induction false} NeverRefused(m: Mapping, rows: Rows, elem: Fields)
    requires Mapped(m) && HasFields(m, elem) && VersionIn(m, elem) <= 0
    ensures !RunUpdate(m, rows, elem).1.LockError?
  {}

  lemma {:induction false} LastVersion(m: Mapping, rows: Rows, elem: Fields)
    requires Mapped(m) && HasFields(m, elem) && RowsOK(m, rows) && VersionIn(m, elem) == MAX_INT64
    ensures CompareAndSet(m, rows, RunUpdate(m, rows, elem).0, elem, RunUpdate(m, rows, elem).1)
      <==> !exists rid :: rid in rows && Current(m, rows[rid], elem)
  {
    if rid :| rid in rows && Current(m, rows[rid], elem) {
      LastVersionResult(m, rows, elem, rid);
      assert elem[Version(m) := Int(MIN_INT64)][Version(m)] != Int(MAX_INT64 + 1);
    } else {
      UpdateEffects(m, rows, UpdatedRows(m, rows, elem), elem, Next(m, elem));
    }
  }

  /** The protection is for loaded structs only.  A struct of version 0 is bumped
      to 1 before the WHERE clause is bound, so the UPDATE selects a row of
      version 1, whatever happened to it since. */
  lemma ZeroVersionSelectsOne(m: Mapping, r: Record, elem: Fields)
    requires Mapped(m) && HasFields(m, elem) && VersionIn(m, elem) == 0
    ensures
      var st := UpdateStatement(m);
      Satisfies(r, st.wheres, UpdateArgs(m, elem)[|st.sets|..]) == Current(m, r, elem[Version(m) := Int(1)])
  {
    ZeroArgs(m, elem);
    WhereSelects(m, r, elem[Version(m) := Int(1)], UpdateArgs(m, elem)[|SetColumns(m, |m.columns|)|..]);
  }

  /** What fills the WHERE clause of a version-0 update. */
  lemma {:induction false} ZeroArgs(m: Mapping, elem: Fields)
    requires Mapped(m) && HasFields(m, elem) && VersionIn(m, elem) == 0
    ensures
      var args, one := UpdateArgs(m, elem)[|SetColumns(m, |m.columns|)|..], elem[Version(m) := Int(1)];
      && HasFields(m, one) && VersionIn(m, one) == 1 && |args| == |m.keys| + 1 && args[|m.keys|] == Int(1)
      && forall k :: 0 <= k < |m.keys| ==> args[k] == one[m.columns[m.keys[k]].fieldName]
  {
    var names, at := UpdateFields(m), |SetFields(m, |m.columns|)|;
    assert names[at..] == WhereFields(m, Version(m)) && names[..at] == SetFields(m, |m.columns|);
    BumpIsBound(m);
    WhereArgs(m, names, at, elem);
    assert forall k :: 0 <= k < |m.keys| ==> m.columns[m.keys[k]].fieldName != Version(m);
  }

  lemma BumpIsBound(m: Mapping)
    requires Mapped(m)
    ensures VERS_FIELD in SetFields(m, |m.columns|)
  {
    SetsAligned(m, |m.columns|);
    AssignedColumns(m.columns, |m.columns|);
    var k :| 0 <= k < |Assigned(m.columns, |m.columns|)| && Assigned(m.columns, |m.columns|)[k] == m.version;
    assert SetFields(m, |m.columns|)[k] == VERS_FIELD;
  }

  /** The struct whose key and version the generated UPDATE selects. */
  function Selected(m: Mapping, elem: Fields): Fields
    requires Mapped(m) && HasFields(m, elem)
  {
    if VersionIn(m, elem) == 0 then elem[Version(m) := Int(1)] else elem
  }

  /** The generated UPDATE, row by row, for any version. */
  lemma UpdatedRow(m: Mapping, rows: Rows, elem: Fields, rid: int)
    requires Mapped(m) && HasFields(m, elem) && rid in rows
    ensures
      HasFields(m, Selected(m, elem)) &&
      UpdatedRows(m, rows, elem)[rid] ==
        if Current(m, rows[rid], Selected(m, elem)) then Updated(m, rows[rid], elem) else rows[rid]
  {
    if VersionIn(m, elem) == 0 { ZeroVersionSelectsOne(m, rows[rid], elem); } else { UpdateSelects(m, rows[rid], elem); }
  }

  lemma ZeroVersionIsNoCompareAndSet(m: Mapping, rows: Rows, elem: Fields)
    requires Mapped(m) && HasFields(m, elem) && RowsOK(m, rows) && VersionIn(m, elem) == 0
    ensures !CompareAndSet(m, rows, RunUpdate(m, rows, elem).0, elem, RunUpdate(m, rows, elem).1)
  {
    if rid :| rid in rows && Current(m, rows[rid], elem) {
      UpdatedRow(m, rows, elem, rid);
      NotItsTarget(m, rows[rid], elem, 1);
    }
  }

  lemma NotItsTarget(m: Mapping, r: Record, elem: Fields, next: int)
    requires Mapped(m) && HasFields(m, elem) && RecordOK(m, r) && Current(m, r, elem) && next != VersionIn(m, elem)
    ensures !IsTarget(m, r, r, elem, next)
  {
    assert Stored(m.columns[m.version]);
  }

  lemma NegativeVersion(m: Mapping, rows: Rows, elem: Fields)
    requires Mapped(m) && HasFields(m, elem) && RowsOK(m, rows) && VersionIn(m, elem) < 0
    ensures CompareAndSet(m, rows, RunUpdate(m, rows, elem).0, elem, RunUpdate(m, rows, elem).1)
      <==> exists rid :: rid in rows && Current(m, rows[rid], elem)
  {
    UpdateEffects(m, rows, UpdatedRows(m, rows, elem), elem, Next(m, elem));
  }

  /** For every 64-bit version: gorp's update is the compare-and-set exactly when
      it has a current row to change and its version is neither 0 nor the last one,
      or has none and a positive version. */
  lemma CompareAndSetIff(m: Mapping, rows: Rows, elem: Fields)
    requires Mapped(m) && HasFields(m, elem) && RowsOK(m, rows)
    ensures CompareAndSet(m, rows, RunUpdate(m, rows, elem).0, elem, RunUpdate(m, rows, elem).1) <==>
      if exists rid :: rid in rows && Current(m, rows[rid], elem)
      then VersionIn(m, elem) != 0 && VersionIn(m, elem) != MAX_INT64
      else VersionIn(m, elem) >= 1
  {
    if VersionIn(m, elem) == MAX_INT64 {
      LastVersion(m, rows, elem);
    } else if VersionIn(m, elem) >= 1 {
      UpdateIsCompareAndSet(m, rows, elem);
    } else if VersionIn(m, elem) == 0 {
      ZeroVersionIsNoCompareAndSet(m, rows, elem);
    } else {
      NegativeVersion(m, rows, elem);
    }
  }

  /** An update is refused exactly when a loaded struct finds no current row. */
  lemma LockErrorIff(m: Mapping, rows: Rows, elem: Fields)
    requires Mapped(m) && HasFields(m, elem) && RowsOK(m, rows)
    ensures RunUpdate(m, rows, elem).1.LockError? <==>
      VersionIn(m, elem) >= 1 && !exists rid :: rid in rows && Current(m, rows[rid], elem)
  {
    if VersionIn(m, elem) >= 1 { UpdateEffects(m, rows, UpdatedRows(m, rows, elem), elem, Next(m, elem)); }
  }

  /** A successful or failed delete, spelled out. */
  ghost predicate CompareAndRemove(m: Mapping, rows: Rows, left: Rows, elem: Fields, r: Result)
    requires Mapped(m) && HasFields(m, elem)
  {
    if exists rid :: rid in rows && Current(m, rows[rid], elem) then
      && (forall rid :: rid in rows && Current(m, rows[rid], elem) ==> left == rows - {rid})
      && r == Ok(1, elem)
    else
      left == rows && r == LockError(RowExists(m, rows, elem))
  }

  lemma {:induction false} RowLeft(m: Mapping, rows: Rows, elem: Fields, rid: int)
    requires Mapped(m) && HasFields(m, elem) && rid in rows
    ensures
      var left := RowsLeft(m, rows, elem);
      (rid in left <==> !Current(m, rows[rid], elem)) && (rid in left ==> left[rid] == rows[rid])
  {
    DeleteSelects(m, rows[rid], elem);
  }

  lemma {:induction false} Removed(rows: Rows, left: Rows, rid: int)
    requires left.Keys <= rows.Keys && forall id :: id in rows ==> (id in left <==> id != rid) && (id in left ==> left[id] == rows[id])
    ensures left == rows - {rid}
  {
    forall id | id in left ensures id in rows - {rid} && left[id] == (rows - {rid})[id] { assert id in rows; }
    forall id | id in rows - {rid} ensures id in left { assert id in rows; }
  }

  lemma {:induction false} AllButOne(m: Mapping, rows: Rows, left: Rows, elem: Fields, rid: int)
    requires Mapped(m) && HasFields(m, elem) && RowsOK(m, rows) && rid in rows && Current(m, rows[rid], elem)
    requires left.Keys <= rows.Keys
    requires forall id :: id in rows ==> (id in left <==> !Current(m, rows[id], elem)) && (id in left ==> left[id] == rows[id])
    ensures left == rows - {rid}
  {
    forall id | id in rows ensures (id in left <==> id != rid) && (id in left ==> left[id] == rows[id]) {
      if Current(m, rows[id], elem) { OneCurrent(m, rows, elem, rid, id); }
    }
    Removed(rows, left, rid);
  }

  lemma {:induction false} DeleteIsCompareAndRemove(m: Mapping, rows: Rows, elem: Fields)
    requires Mapped(m) && HasFields(m, elem) && RowsOK(m, rows) && VersionIn(m, elem) >= 1
    ensures CompareAndRemove(m, rows, RunDelete(m, rows, elem).0, elem, RunDelete(m, rows, elem).1)
  {
    var left := RowsLeft(m, rows, elem);
    forall rid | rid in rows
      ensures (rid in left <==> !Current(m, rows[rid], elem)) && (rid in left ==> left[rid] == rows[rid])
    { RowLeft(m, rows, elem, rid); }
    AffectedIsCurrent(m, rows, left, elem);
    forall rid | rid in rows && Current(m, rows[rid], elem) ensures left == rows - {rid} {
      AllButOne(m, rows, left, elem, rid);
    }
  }

  // ---------------------------------------------------------------- update and delete

  class Connection {
    var rows: Rows

    /** Exec: the database reads the statement in the text. */
    method Exec(query: string, args: seq<Value>) returns (affected: nat)
      requires ReadStatement(query).Some? && |args| == Placeholders(ReadStatement(query).value)
      modifies this
      ensures rows == Execute(old(rows), ReadStatement(query).value, args) && affected == Affected(old(rows), rows)
    {
      var before := rows;
      rows := Execute(rows, ReadStatement(query).value, args);
      affected := Affected(before, rows);
    }
  }

  /** The names of table and columns can be quoted. */
  predicate Quotable(m: Mapping) {
    PlainName(m.table) && forall i :: 0 <= i < |m.columns| ==> PlainName(m.columns[i].columnName)
  }

  lemma {:induction false} PlainSets(m: Mapping)
    requires Mapped(m) && Quotable(m)
    ensures PlainNames(SetColumns(m, |m.columns|))
  {
    SetsAligned(m, |m.columns|);
  }

  lemma {:induction false} PlainWheres(m: Mapping)
    requires Mapped(m) && Quotable(m)
    ensures PlainNames(WhereColumns(m, Version(m)))
  {
    KeysAligned(m, |m.keys|);
  }

  /** The plans' texts say exactly the statements they render. */
  lemma {:induction false} PlansReadBack(m: Mapping)
    requires Mapped(m) && Quotable(m)
    ensures ReadStatement(UpdatePlan(m).query) == Some(UpdateStatement(m))
    ensures ReadStatement(DeletePlan(m).query) == Some(DeleteStatement(m))
  {
    PlainSets(m);
    PlainWheres(m);
    RenderRoundTrip(UpdateStatement(m));
    RenderRoundTrip(DeleteStatement(m));
  }

  lemma DeleteBindable(m: Mapping, elem: Fields)
    requires Mapped(m) && HasFields(m, elem)
    ensures Bindable(DeleteFields(m), Version(m), elem)
  {
    KeysAligned(m, |m.keys|);
  }

  lemma UpdateBindable(m: Mapping, elem: Fields)
    requires Mapped(m) && HasFields(m, elem)
    ensures Bindable(UpdateFields(m), Version(m), elem)
  {
    DeleteBindable(m, elem);
    var sets := SetFields(m, |m.columns|);
    forall k | 0 <= k < |sets| && sets[k] != VERS_FIELD ensures sets[k] in elem {
      SetsAligned(m, |m.columns|);
      AssignedColumns(m.columns, |m.columns|);
    }
    assert UpdateFields(m) == sets + DeleteFields(m);
  }

  /** Nothing affected, nothing changed (an UPDATE keeps the row identifiers; a DELETE that removes none keeps the rows). */
  lemma UnaffectedIsUnchanged(before: Rows, after: Rows)
    requires after.Keys <= before.Keys && Affected(before, after) == 0
    ensures after == before
  {
    var changed := set rid | rid in before && (rid !in after || after[rid] != before[rid]);
    assert changed == {};
    forall rid | rid in before ensures rid in after && after[rid] == before[rid] { assert rid !in changed; }
    assert after.Keys == before.Keys;
  }

  /** What update reports, from the rows affected and the bound struct. */
  method JudgeUpdate(m: Mapping, ghost before: Rows, after: Rows, elem: Fields, b: Bound, affected: nat) returns (r: Result)
    requires Mapped(m) && HasFields(m, elem) && after.Keys == before.Keys && affected == Affected(before, after)
    requires b.existing == VersionIn(m, elem) && b.elem[Version(m) := Int(Bump(b.existing))] == elem[Version(m) := Int(Bump(b.existing))]
    ensures r == UpdateResult(m, before, after, elem)
  {
    if affected == 0 && b.existing > 0 {
      UnaffectedIsUnchanged(before, after);
      r := LockError(RowExists(m, after, elem));
    } else {
      r := Ok(affected, b.elem[Version(m) := Int(Bump(b.existing))]);
    }
  }

  /** Binding a struct to the UPDATE plan. */
  method PrepareUpdate(t: TableMap, elem: Fields) returns (query: string, b: Bound)
    requires t.Valid() && Mapped(t.m) && Quotable(t.m) && HasFields(t.m, elem)
    modifies t`updatePlan
    ensures t.Valid() && query == UpdatePlan(t.m).query && b.args == UpdateArgs(t.m, elem)
    ensures b.existing == VersionIn(t.m, elem)
    ensures b.elem[Version(t.m) := Int(Bump(b.existing))] == elem[Version(t.m) := Int(Bump(b.existing))]
  {
    var plan := t.BindUpdate();
    UpdateBindable(t.m, elem);
    b := CreateBindInstance(plan, elem);
    query := plan.query;
  }

  /** gorp's update of one struct. */
  method RunUpdateThrough(t: TableMap, db: Connection, elem: Fields) returns (r: Result)
    requires t.Valid() && Mapped(t.m) && Quotable(t.m) && HasFields(t.m, elem)
    modifies t`updatePlan, db
    ensures t.Valid() && (db.rows, r) == RunUpdate(t.m, old(db.rows), elem)
  {
    var query, bi := PrepareUpdate(t, elem);
    PlansReadBack(t.m);
    ghost var before := db.rows;
    var affected := db.Exec(query, bi.args);
    r := JudgeUpdate(t.m, before, db.rows, elem, bi, affected);
  }

  method PrepareDelete(t: TableMap, elem: Fields) returns (query: string, b: Bound)
    requires t.Valid() && Mapped(t.m) && Quotable(t.m) && HasFields(t.m, elem)
    modifies t`deletePlan
    ensures t.Valid() && query == DeletePlan(t.m).query && b.args == DeleteArgs(t.m, elem)
    ensures b.existing == VersionIn(t.m, elem)
  {
    var plan := t.BindDelete();
    DeleteBindable(t.m, elem);
    b := CreateBindInstance(plan, elem);
    query := plan.query;
  }

  method JudgeDelete(m: Mapping, ghost before: Rows, left: Rows, elem: Fields, b: Bound, affected: nat) returns (r: Result)
    requires Mapped(m) && HasFields(m, elem) && left.Keys <= before.Keys && affected == Affected(before, left)
    requires b.existing == VersionIn(m, elem)
    ensures r == DeleteResult(m, before, left, elem)
  {
    if affected == 0 && b.existing > 0 {
      UnaffectedIsUnchanged(before, left);
      r := LockError(RowExists(m, left, elem));
    } else {
      r := Ok(affected, elem);
    }
  }

  /** gorp's delete of one struct. */
  method RunDeleteThrough(t: TableMap, db: Connection, elem: Fields) returns (r: Result)
    requires t.Valid() && Mapped(t.m) && Quotable(t.m) && HasFields(t.m, elem)
    modifies t`deletePlan, db
    ensures t.Valid() && (db.rows, r) == RunDelete(t.m, old(db.rows), elem)
  {
    var query, bi := PrepareDelete(t, elem);
    PlansReadBack(t.m);
    ghost var before := db.rows;
    var affected := db.Exec(query, bi.args);
    r := JudgeDelete(t.m, before, db.rows, elem, bi, affected);
  }
}
