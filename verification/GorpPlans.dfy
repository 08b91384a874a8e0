/** gorp's bind plans.  For a mapped table, bindUpdate and bindDelete build an
    SQL text and the list of struct fields whose values fill its placeholders;
    update and delete run the statement and turn "no row" into an
    OptimisticLockError.  The text is given a meaning through the statement it
    renders, and the whole is shown to be a compare-and-set. */
module GorpPlans {
  import opened Integers

  datatype Value = Int(i: int) | Text(s: string)

  /** A column is identified by its place in TableMap.Columns, as gorp identifies it by its pointer. */
  datatype ColumnMap = ColumnMap(columnName: string, fieldName: string, transient: bool, isAutoIncr: bool)

  type Fields = map<string, Value>     // the struct being written, by field name
  type Record = map<string, Value>     // a stored row, by column name
  type Rows = map<int, Record>

  /** The argument standing for "existing version plus one". */
  const VERS_FIELD := "[gorp_ver_field]"

  datatype Plan = Plan(query: string, argFields: seq<string>, keyFields: seq<string>, versField: string)

  /** The statement a plan's text renders: `?` placeholders are filled from left to right. */
  datatype Statement =
    | Update(table: string, sets: seq<string>, wheres: seq<string>)
    | Delete(table: string, wheres: seq<string>)

  // ---------------------------------------------------------------- rendering (MySQL dialect)

  function Quote(name: string): string { "`" + name + "`" }

  function Bindings(names: seq<string>, separator: string): string {
    if names == [] then ""
    else if |names| == 1 then Quote(names[0]) + "=" + "?"
    else Bindings(names[..|names| - 1], separator) + separator + (Quote(names[|names| - 1]) + "=" + "?")
  }

  function Render(st: Statement): string {
    match st
    case Update(table, sets, wheres) =>
      "update " + Quote(table) + " set " + Bindings(sets, ", ") + " where " + Bindings(wheres, " and ") + ";"
    case Delete(table, wheres) =>
      "delete from " + Quote(table) + " where " + Bindings(wheres, " and ") + ";"
  }

  lemma BindingsSnoc(names: seq<string>, name: string, separator: string)
    ensures Bindings(names + [name], separator)
         == Bindings(names, separator) + (if names == [] then "" else separator) + (Quote(name) + "=" + "?")
  {
    if names == [] {
      assert names + [name] == [name];
    } else {
      assert (names + [name])[..|names|] == names;
    }
  }

  /** One more "name=?" at the end of a list of them. */
  method AppendBinding(s: string, ghost names: seq<string>, first: bool, name: string, separator: string)
    returns (r: string)
    requires s == Bindings(names, separator) && first == (names == [])
    ensures r == Bindings(names + [name], separator)
  {
    BindingsSnoc(names, name, separator);
    r := s;
    if !first { r := r + separator; }
    r := r + (Quote(name) + "=" + "?");
  }

  function Marks(text: string): nat {
    if text == "" then 0 else (if text[0] == '?' then 1 else 0) + Marks(text[1..])
  }

  lemma {:induction false} MarksConcat(a: string, b: string)
    ensures Marks(a + b) == Marks(a) + Marks(b)
  {
    if a == "" { assert a + b == b; }
    else { assert (a + b)[1..] == a[1..] + b; MarksConcat(a[1..], b); }
  }

  function MarksIn(names: seq<string>): nat {
    if names == [] then 0 else MarksIn(names[..|names| - 1]) + Marks(names[|names| - 1])
  }

  lemma {:induction false} MarksInBindings(names: seq<string>, separator: string)
    requires Marks(separator) == 0
    ensures Marks(Bindings(names, separator)) == |names| + MarksIn(names)
  {
    if names != [] {
      var n := |names| - 1;
      var last := names[n];
      MarksConcat("`", last);
      MarksConcat("`" + last, "`");
      MarksConcat(Quote(last), "=");
      MarksConcat(Quote(last) + "=", "?");
      if n > 0 {
        MarksInBindings(names[..n], separator);
        MarksConcat(Bindings(names[..n], separator), separator);
        MarksConcat(Bindings(names[..n], separator) + separator, Quote(last) + "=" + "?");
      }
    }
  }

  // ---------------------------------------------------------------- the plans

  /** What AddTable and SetKeys record about a struct: `keys` and `version` are places in
      `columns`; `version` is -1 when there is no version column. */
  datatype Mapping = Mapping(table: string, columns: seq<ColumnMap>, keys: seq<nat>, version: int)

  /** gorp refuses to update or delete through a mapping without keys. */
  predicate KeysInRange(m: Mapping) {
    m.keys != [] && forall k :: 0 <= k < |m.keys| ==> m.keys[k] < |m.columns|
  }

  /** The columns an UPDATE assigns, in order: neither auto-increment nor transient. */
  function Assigned(columns: seq<ColumnMap>, n: nat): (r: seq<nat>)
    requires n <= |columns|
  {
    if n == 0 then []
    else if IsAssigned(columns[n - 1]) then Assigned(columns, n - 1) + [n - 1]
    else Assigned(columns, n - 1)
  }

  predicate IsAssigned(c: ColumnMap) { !c.isAutoIncr && !c.transient }

  /** The names on the left of the assignments. */
  function SetColumns(m: Mapping, n: nat): (r: seq<string>)
    requires n <= |m.columns|
    ensures |r| == |Assigned(m.columns, n)|
  {
    if n == 0 then []
    else if IsAssigned(m.columns[n - 1]) then SetColumns(m, n - 1) + [m.columns[n - 1].columnName]
    else SetColumns(m, n - 1)
  }

  /** The fields behind the assignments; the version column is bound to the bumped version. */
  function SetFields(m: Mapping, n: nat): (r: seq<string>)
    requires n <= |m.columns|
    ensures |r| == |Assigned(m.columns, n)|
  {
    if n == 0 then []
    else if IsAssigned(m.columns[n - 1]) then SetFields(m, n - 1) + [ArgField(m, n - 1)]
    else SetFields(m, n - 1)
  }

  function ArgField(m: Mapping, i: nat): string
    requires i < |m.columns|
  {
    if i == m.version then VERS_FIELD else m.columns[i].fieldName
  }

  function KeyColumns(m: Mapping, n: nat): (r: seq<string>)
    requires KeysInRange(m) && n <= |m.keys|
    ensures |r| == n
  {
    if n == 0 then [] else KeyColumns(m, n - 1) + [m.columns[m.keys[n - 1]].columnName]
  }

  function KeyFields(m: Mapping, n: nat): (r: seq<string>)
    requires KeysInRange(m) && n <= |m.keys|
    ensures |r| == n
  {
    if n == 0 then [] else KeyFields(m, n - 1) + [m.columns[m.keys[n - 1]].fieldName]
  }

  /** The version column among the first `n` columns, if it is there and stored. */
  function VersField(m: Mapping, n: nat, skipAutoIncr: bool): string
    requires n <= |m.columns|
  {
    if 0 <= m.version < n && !m.columns[m.version].transient && !(skipAutoIncr && m.columns[m.version].isAutoIncr)
    then m.columns[m.version].fieldName else ""
  }

  function WhereColumns(m: Mapping, versField: string): seq<string>
    requires KeysInRange(m) && (versField != "" ==> 0 <= m.version < |m.columns|)
  {
    var keys := KeyColumns(m, |m.keys|);
    if versField != "" then keys + [m.columns[m.version].columnName] else keys
  }

  function WhereFields(m: Mapping, versField: string): seq<string>
    requires KeysInRange(m)
  {
    var keys := KeyFields(m, |m.keys|);
    if versField != "" then keys + [versField] else keys
  }

  /** The fields bound by an UPDATE, in the order of its placeholders. */
  function UpdateFields(m: Mapping): seq<string>
    requires KeysInRange(m)
  {
    SetFields(m, |m.columns|) + WhereFields(m, VersField(m, |m.columns|, true))
  }

  function DeleteFields(m: Mapping): seq<string>
    requires KeysInRange(m)
  {
    WhereFields(m, VersField(m, |m.columns|, false))
  }

  function UpdateStatement(m: Mapping): Statement
    requires KeysInRange(m)
  {
    Update(m.table, SetColumns(m, |m.columns|),
           WhereColumns(m, VersField(m, |m.columns|, true)))
  }

  function DeleteStatement(m: Mapping): Statement
    requires KeysInRange(m)
  {
    Delete(m.table, WhereColumns(m, VersField(m, |m.columns|, false)))
  }

  function UpdatePlan(m: Mapping): Plan
    requires KeysInRange(m)
  {
    var versField := VersField(m, |m.columns|, true);
    Plan(Render(UpdateStatement(m)), UpdateFields(m), KeyFields(m, |m.keys|), versField)
  }

  function DeletePlan(m: Mapping): Plan
    requires KeysInRange(m)
  {
    var versField := VersField(m, |m.columns|, false);
    Plan(Render(DeleteStatement(m)), DeleteFields(m), KeyFields(m, |m.keys|), versField)
  }

  lemma {:induction false} AssignedColumns(columns: seq<ColumnMap>, n: nat)
    requires n <= |columns|
    ensures
      var at := Assigned(columns, n);
      && (forall k :: 0 <= k < |at| ==> at[k] < n && IsAssigned(columns[at[k]]))
      && (forall i: nat :: i < n && IsAssigned(columns[i]) ==> i in at)
      && (forall k, l :: 0 <= k < l < |at| ==> at[k] < at[l])
  {
    if n > 0 { AssignedColumns(columns, n - 1); }
  }

  /** Each placeholder of the assignments is filled from the field of its own column. */
  lemma {:induction false} SetsAligned(m: Mapping, n: nat)
    requires n <= |m.columns|
    ensures
      var at := Assigned(m.columns, n);
      forall k :: 0 <= k < |at| ==>
        && at[k] < |m.columns|
        && SetColumns(m, n)[k] == m.columns[at[k]].columnName
        && SetFields(m, n)[k] == ArgField(m, at[k])
  {
    if n > 0 { SetsAligned(m, n - 1); }
  }

  lemma {:induction false} KeysAligned(m: Mapping, n: nat)
    requires KeysInRange(m) && n <= |m.keys|
    ensures forall k :: 0 <= k < n ==>
        && KeyColumns(m, n)[k] == m.columns[m.keys[k]].columnName
        && KeyFields(m, n)[k] == m.columns[m.keys[k]].fieldName
  {
    if n > 0 { KeysAligned(m, n - 1); }
  }

  /** One more column of the SET clause. */
  lemma {:induction false} SetStep(m: Mapping, y: nat)
    requires y < |m.columns|
    ensures IsAssigned(m.columns[y]) ==>
      && SetColumns(m, y + 1) == SetColumns(m, y) + [m.columns[y].columnName]
      && SetFields(m, y + 1) == SetFields(m, y) + [ArgField(m, y)]
      && |Assigned(m.columns, y + 1)| == |Assigned(m.columns, y)| + 1
      && VersField(m, y + 1, true) == if y == m.version then m.columns[y].fieldName else VersField(m, y, true)
    ensures !IsAssigned(m.columns[y]) ==>
      && SetColumns(m, y + 1) == SetColumns(m, y)
      && SetFields(m, y + 1) == SetFields(m, y)
      && Assigned(m.columns, y + 1) == Assigned(m.columns, y)
      && VersField(m, y + 1, true) == VersField(m, y, true)
  {}

  class TableMap {
    const m: Mapping
    var updatePlan: Plan
    var deletePlan: Plan

    ghost predicate Valid()
      reads this
    {
      && KeysInRange(m)
      && (updatePlan.query != "" ==> updatePlan == UpdatePlan(m))
      && (deletePlan.query != "" ==> deletePlan == DeletePlan(m))
    }

    constructor (m: Mapping)
      requires KeysInRange(m)
      ensures Valid() && this.m == m
    {
      this.m := m;
      updatePlan := Plan("", [], [], "");
      deletePlan := Plan("", [], [], "");
    }

    /** TableMap.bindUpdate: build the plan on first use, then reuse it. */
    method BindUpdate() returns (plan: Plan)
      requires Valid()
      modifies this`updatePlan
      ensures Valid() && plan == UpdatePlan(m) == updatePlan
    {
      plan := updatePlan;
      if plan.query == "" {
        var sets, setFields, versField := SetClause();
        var wheres, whereFields, keyFields := WhereClause(versField);
        plan := Plan("update " + Quote(m.table) + " set " + sets + " where " + wheres + ";",
                     setFields + whereFields, keyFields, versField);
        updatePlan := plan;
      }
    }

    /** TableMap.bindDelete */
    method BindDelete() returns (plan: Plan)
      requires Valid()
      modifies this`deletePlan
      ensures Valid() && plan == DeletePlan(m) == deletePlan
    {
      plan := deletePlan;
      if plan.query == "" {
        var versField := "";
        for y := 0 to |m.columns|
          invariant versField == VersField(m, y, false)
        {
          if !m.columns[y].transient && y == m.version { versField := m.columns[y].fieldName; }
        }
        var wheres, whereFields, keyFields := WhereClause(versField);
        plan := Plan("delete from " + Quote(m.table) + " where " + wheres + ";", whereFields, keyFields, versField);
        deletePlan := plan;
      }
    }

    /** The loop of bindUpdate over the columns. */
    method SetClause() returns (s: string, argFields: seq<string>, versField: string)
      requires KeysInRange(m)
      ensures s == Bindings(SetColumns(m, |m.columns|), ", ")
      ensures argFields == SetFields(m, |m.columns|)
      ensures versField == VersField(m, |m.columns|, true)
    {
      s, argFields, versField := "", [], "";
      var x := 0;
      for y := 0 to |m.columns|
        invariant x == |Assigned(m.columns, y)|
        invariant s == Bindings(SetColumns(m, y), ", ")
        invariant argFields == SetFields(m, y)
        invariant versField == VersField(m, y, true)
      {
        SetStep(m, y);
        if IsAssigned(m.columns[y]) {
          s := AppendBinding(s, SetColumns(m, y), x == 0, m.columns[y].columnName, ", ");
          var bound, isVersion := BindColumn(y);
          argFields := argFields + [bound];
          if isVersion { versField := m.columns[y].fieldName; }
          x := x + 1;
        }
      }
    }

    /** What the placeholder of column `y` is filled from. */
    method BindColumn(y: nat) returns (bound: string, isVersion: bool)
      requires y < |m.columns|
      ensures bound == ArgField(m, y) && isVersion == (y == m.version)
    {
      isVersion := y == m.version;
      bound := if isVersion then VERS_FIELD else m.columns[y].fieldName;
    }

    /** The loop over the key columns, and the version test, that end both plans. */
    method WhereClause(versField: string) returns (s: string, argFields: seq<string>, keyFields: seq<string>)
      requires KeysInRange(m) && (versField != "" ==> 0 <= m.version < |m.columns|)
      ensures s == Bindings(WhereColumns(m, versField), " and ")
      ensures argFields == WhereFields(m, versField)
      ensures keyFields == KeyFields(m, |m.keys|)
    {
      s, argFields, keyFields := "", [], [];
      for y := 0 to |m.keys|
        invariant s == Bindings(KeyColumns(m, y), " and ")
        invariant argFields == keyFields == KeyFields(m, y)
      {
        var col := m.columns[m.keys[y]];
        s := AppendBinding(s, KeyColumns(m, y), y == 0, col.columnName, " and ");
        argFields := argFields + [col.fieldName];
        keyFields := keyFields + [col.fieldName];
      }
      if versField != "" {
        s := AppendBinding(s, KeyColumns(m, |m.keys|), false, m.columns[m.version].columnName, " and ");
        argFields := argFields + [versField];
      }
    }
  }

  // ---------------------------------------------------------------- binding and executing

  /** bindPlan.createBindInstance: the arguments, and the struct afterwards.  A
      version of zero is bumped in the struct as soon as it is bound, so that a
      later reference to the field sees 1. */
  datatype Bound = Bound(args: seq<Value>, existing: int, elem: Fields)

  /** existingVersion + 1, in an int64. */
  function Bump(version: int): int { Wrap(version + 1) }

  function ArgValue(argFields: seq<string>, versField: string, elem: Fields, k: nat): Value
    requires k < |argFields|
  {
    var existing := Existing(versField, elem);
    var name := argFields[k];
    if name == VERS_FIELD then Int(Bump(existing))
    else if existing == 0 && name == versField && VERS_FIELD in argFields[..k] then Int(1)
    else if name in elem then elem[name] else Int(0)
  }

  function Existing(versField: string, elem: Fields): int {
    if versField != "" && versField in elem && elem[versField].Int? then elem[versField].i else 0
  }

  /** Every field the plan names is in the struct, and the version field is a number. */
  predicate Bindable(argFields: seq<string>, versField: string, elem: Fields) {
    && (forall k :: 0 <= k < |argFields| && argFields[k] != VERS_FIELD ==> argFields[k] in elem)
    && (versField != "" ==> versField in elem && elem[versField].Int?)
    && (VERS_FIELD in argFields ==> versField != "")
    && VERS_FIELD !in elem
  }

  method CreateBindInstance(plan: Plan, start: Fields) returns (b: Bound)
    requires Bindable(plan.argFields, plan.versField, start)
    ensures |b.args| == |plan.argFields|
    ensures forall k :: 0 <= k < |b.args| ==> b.args[k] == ArgValue(plan.argFields, plan.versField, start, k)
    ensures b.existing == Existing(plan.versField, start)
    ensures b.elem == if b.existing == 0 && VERS_FIELD in plan.argFields then start[plan.versField := Int(1)] else start
  {
    var existing := 0;
    if plan.versField != "" { existing := start[plan.versField].i; }
    var args, elem := [], start;
    for i := 0 to |plan.argFields|
      invariant |args| == i
      invariant forall k :: 0 <= k < i ==> args[k] == ArgValue(plan.argFields, plan.versField, start, k)
      invariant elem == if existing == 0 && VERS_FIELD in plan.argFields[..i] then start[plan.versField := Int(1)] else start
    {
      var k := plan.argFields[i];
      assert plan.argFields[..i + 1] == plan.argFields[..i] + [k];
      if k == VERS_FIELD {
        args := args + [Int(Bump(existing))];
        if existing == 0 { elem := elem[plan.versField := Int(Bump(existing))]; }
      } else {
        args := args + [elem[k]];
      }
    }
    assert plan.argFields[..|plan.argFields|] == plan.argFields;
    b := Bound(args, existing, elem);
  }

  predicate Satisfies(r: Record, wheres: seq<string>, args: seq<Value>)
    requires |args| == |wheres|
  {
    forall k :: 0 <= k < |wheres| ==> wheres[k] in r && r[wheres[k]] == args[k]
  }

  function Assign(r: Record, sets: seq<string>, args: seq<Value>): Record
    requires |args| == |sets|
  {
    if sets == [] then r
    else Assign(r, sets[..|sets| - 1], args[..|sets| - 1])[sets[|sets| - 1] := args[|sets| - 1]]
  }

  function Placeholders(st: Statement): nat {
    match st
    case Update(_, sets, wheres) => |sets| + |wheres|
    case Delete(_, wheres) => |wheres|
  }

  /** The database's meaning of a statement. */
  function Execute(rows: Rows, st: Statement, args: seq<Value>): Rows
    requires |args| == Placeholders(st)
  {
    match st
    case Update(_, sets, wheres) =>
      map rid | rid in rows ::
        if Satisfies(rows[rid], wheres, args[|sets|..]) then Assign(rows[rid], sets, args[..|sets|]) else rows[rid]
    case Delete(_, wheres) =>
      map rid | rid in rows && !Satisfies(rows[rid], wheres, args) :: rows[rid]
  }

  /** RowsAffected of MySQL: the rows that are gone or differ. */
  function Affected(before: Rows, after: Rows): nat {
    |set rid | rid in before && (rid !in after || after[rid] != before[rid])|
  }

  datatype Result = Ok(count: nat, elem: Fields) | LockError(rowExists: bool)

  predicate KeysEqual(m: Mapping, r: Record, elem: Fields)
    requires KeysInRange(m)
  {
    forall k :: 0 <= k < |m.keys| ==>
      var c := m.columns[m.keys[k]];
      c.columnName in r && c.fieldName in elem && r[c.columnName] == elem[c.fieldName]
  }

  /** lockError re-reads the row by its keys to say whether it exists. */
  predicate RowExists(m: Mapping, rows: Rows, elem: Fields)
    requires KeysInRange(m)
  {
    exists rid :: rid in rows && KeysEqual(m, rows[rid], elem)
  }
}
