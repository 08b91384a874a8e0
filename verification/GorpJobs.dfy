/** gobble's `jobs` table through gorp: the mapping gorp derives from `Job`, and
    the proof that its generated statements are the ones the queue's model
    interleaves, whatever copy of a job they are given. */
module GorpJobs {
  import opened Integers
  import opened GorpPlans
  import opened GorpCas
  import JT = JobTable

  /** AddTableWithName(Job{}, "jobs").SetKeys(true, "ID") */
  const JobMapping := Mapping("jobs",
    [ColumnMap("id", "ID", false, true),
     ColumnMap("worker_id", "WorkerID", false, false),
     ColumnMap("payload", "Payload", false, false),
     ColumnMap("version", "Version", false, false),
     ColumnMap("retry_count", "RetryCount", false, false),
     ColumnMap("active_at", "ActiveAt", false, false),
     ColumnMap("-", "ShouldRetry", true, false)], [0], 3)

  /** What matters of that mapping besides its names being distinct. */
  predicate JobShape(m: Mapping) {
    && Mapped(m) && |m.columns| == 7 && m.keys == [0] && m.version == 3
    && (forall i :: 0 <= i < 7 ==> m.columns[i].transient == (i == 6) && m.columns[i].isAutoIncr == (i == 0))
  }

  lemma JobFieldNames()
    ensures forall i, j :: 0 <= i < j < |JobMapping.columns| ==>
      JobMapping.columns[i].fieldName != JobMapping.columns[j].fieldName
    ensures forall i :: 0 <= i < |JobMapping.columns| ==>
      JobMapping.columns[i].fieldName != "" && JobMapping.columns[i].fieldName != VERS_FIELD
  {}

  lemma JobColumnNames()
    ensures forall i, j :: 0 <= i < j < |JobMapping.columns| ==>
      JobMapping.columns[i].columnName != JobMapping.columns[j].columnName
  {}

  lemma {:induction false} JobsQuotable()
    ensures Quotable(JobMapping)
  {}

  lemma {:induction false} JobsShaped()
    ensures JobShape(JobMapping)
  {
    JobFieldNames();
    JobColumnNames();
  }

  lemma {:induction false} JobsMapped()
    ensures JobShape(JobMapping) && Quotable(JobMapping)
  {
    JobsShaped();
    JobsQuotable();
  }

  /** The i-th stored column of a job. */
  function JobValue(j: JT.Job, i: nat): Value
    requires i < 6
  {
    if i == 0 then Int(j.id) else if i == 1 then Text(j.workerID) else if i == 2 then Text(j.payload)
    else if i == 3 then Int(j.version) else if i == 4 then Int(j.retryCount) else Int(j.activeAt)
  }

  function JobMap(names: seq<string>, j: JT.Job, n: nat): map<string, Value>
    requires n <= |names| && n <= 6
  {
    if n == 0 then map[] else JobMap(names, j, n - 1)[names[n - 1] := JobValue(j, n - 1)]
  }

  lemma {:induction false} JobMapGet(names: seq<string>, j: JT.Job, n: nat)
    requires n <= |names| && n <= 6 && Distinct(names)
    ensures forall i :: 0 <= i < n ==> names[i] in JobMap(names, j, n) && JobMap(names, j, n)[names[i]] == JobValue(j, i)
    ensures forall c :: c in JobMap(names, j, n) ==> c in names[..n]
  {
    if n > 0 {
      JobMapGet(names, j, n - 1);
      assert names[..n] == names[..n - 1] + [names[n - 1]];
    }
  }

  function Columns(m: Mapping): seq<string>
    requires JobShape(m)
  {
    seq(6, i requires 0 <= i < 6 => m.columns[i].columnName)
  }

  function FieldNames(m: Mapping): seq<string>
    requires JobShape(m)
  {
    seq(6, i requires 0 <= i < 6 => m.columns[i].fieldName)
  }

  /** A stored row, and the struct, as gorp sees them. */
  function JobRecord(m: Mapping, id: int, r: JT.Row): Record
    requires JobShape(m)
  {
    JobMap(Columns(m), JT.Load(id, r), 6)
  }

  function JobFields(m: Mapping, j: JT.Job): Fields
    requires JobShape(m)
  {
    JobMap(FieldNames(m), j, 6)
  }

  function JobRows(m: Mapping, t: JT.Table): Rows
    requires JobShape(m)
  {
    map id | id in t :: JobRecord(m, id, t[id])
  }

  lemma RecordGet(m: Mapping, id: int, r: JT.Row)
    requires JobShape(m)
    ensures forall i :: 0 <= i < 6 ==>
      m.columns[i].columnName in JobRecord(m, id, r) &&
      JobRecord(m, id, r)[m.columns[i].columnName] == JobValue(JT.Load(id, r), i)
    ensures RecordOK(m, JobRecord(m, id, r))
  {
    var names := Columns(m);
    assert Distinct(names);
    JobMapGet(names, JT.Load(id, r), 6);
    forall i | 0 <= i < 6
      ensures m.columns[i].columnName in JobRecord(m, id, r)
      ensures JobRecord(m, id, r)[m.columns[i].columnName] == JobValue(JT.Load(id, r), i)
    { assert names[i] == m.columns[i].columnName; }
    forall c | c in JobRecord(m, id, r)
      ensures exists i :: 0 <= i < |m.columns| && Stored(m.columns[i]) && m.columns[i].columnName == c
    {
      var i :| 0 <= i < 6 && names[i] == c;
      assert Stored(m.columns[i]) && m.columns[i].columnName == c;
    }
  }

  lemma FieldsGet(m: Mapping, j: JT.Job)
    requires JobShape(m)
    ensures forall i :: 0 <= i < 6 ==>
      m.columns[i].fieldName in JobFields(m, j) && JobFields(m, j)[m.columns[i].fieldName] == JobValue(j, i)
    ensures forall c :: c in JobFields(m, j) ==> exists i :: 0 <= i < 6 && m.columns[i].fieldName == c
    ensures IsInt64(j.version) ==> HasFields(m, JobFields(m, j)) && VersionIn(m, JobFields(m, j)) == j.version
  {
    var names := FieldNames(m);
    assert Distinct(names);
    JobMapGet(names, j, 6);
    forall i | 0 <= i < 6
      ensures m.columns[i].fieldName in JobFields(m, j) && JobFields(m, j)[m.columns[i].fieldName] == JobValue(j, i)
    { assert names[i] == m.columns[i].fieldName; }
    forall c | c in JobFields(m, j) ensures exists i :: 0 <= i < 6 && m.columns[i].fieldName == c {
      var i :| 0 <= i < 6 && names[i] == c;
      assert m.columns[i].fieldName == c;
    }
    assert Stored(m.columns[3]);
  }

  lemma RecordAt(m: Mapping, id: int, r: JT.Row, i: nat)
    requires JobShape(m) && i < 6
    ensures m.columns[i].columnName in JobRecord(m, id, r)
    ensures JobRecord(m, id, r)[m.columns[i].columnName] == JobValue(JT.Load(id, r), i)
  {
    RecordGet(m, id, r);
  }

  lemma FieldAt(m: Mapping, j: JT.Job, i: nat)
    requires JobShape(m) && i < 6
    ensures m.columns[i].fieldName in JobFields(m, j)
    ensures JobFields(m, j)[m.columns[i].fieldName] == JobValue(j, i)
  {
    FieldsGet(m, j);
  }

  /** The copy with the version gorp writes. */
  function Wrapped(j: JT.Job): JT.Job { j.(version := Bump(j.version)) }

  /** A copy is current in gorp's rows exactly when it matches in the table. */
  lemma JobCurrent(m: Mapping, id: int, r: JT.Row, j: JT.Job)
    requires JobShape(m) && HasFields(m, JobFields(m, j))
    ensures KeysEqual(m, JobRecord(m, id, r), JobFields(m, j)) <==> id == j.id
    ensures Current(m, JobRecord(m, id, r), JobFields(m, j)) <==> id == j.id && r.version == j.version
  {
    RecordAt(m, id, r, 0);
    RecordAt(m, id, r, 3);
    FieldAt(m, j, 0);
    FieldAt(m, j, 3);
    JobKeysEqual(m, JobRecord(m, id, r), JobFields(m, j));
  }

  lemma JobKeysEqual(m: Mapping, r: Record, elem: Fields)
    requires JobShape(m) && m.columns[0].columnName in r && m.columns[0].fieldName in elem
    ensures KeysEqual(m, r, elem) <==> r[m.columns[0].columnName] == elem[m.columns[0].fieldName]
  {
    assert m.keys[0] == 0;
  }

  /** The only record that fits the target is the one gobble's model stores. */
  lemma JobTarget(m: Mapping, r: JT.Row, after: Record, j: JT.Job)
    requires JobShape(m) && HasFields(m, JobFields(m, j)) && RecordOK(m, JobRecord(m, j.id, r))
    requires IsTarget(m, JobRecord(m, j.id, r), after, JobFields(m, j), Next(m, JobFields(m, j)))
    ensures after == JobRecord(m, j.id, JT.Store(Wrapped(j)))
  {
    var want := JobRecord(m, j.id, JT.Store(Wrapped(j)));
    forall c | c in after ensures c in want && after[c] == want[c] {
      assert c in JobRecord(m, j.id, r);
      var i := ColumnAt(m, j.id, r, c);
      JobTargetAt(m, r, after, j, i);
    }
    forall c | c in want ensures c in after {
      var i := ColumnAt(m, j.id, JT.Store(Wrapped(j)), c);
      RecordAt(m, j.id, r, i);
    }
    assert after.Keys == want.Keys;
  }

  lemma ColumnAt(m: Mapping, id: int, r: JT.Row, c: string) returns (i: nat)
    requires JobShape(m) && c in JobRecord(m, id, r)
    ensures i < 6 && m.columns[i].columnName == c
  {
    RecordGet(m, id, r);
    i :| 0 <= i < |m.columns| && Stored(m.columns[i]) && m.columns[i].columnName == c;
  }

  lemma {:induction false} TargetAt(m: Mapping, before: Record, after: Record, elem: Fields, next: int, i: nat)
    requires Mapped(m) && HasFields(m, elem) && RecordOK(m, before) && IsTarget(m, before, after, elem, next)
    requires i < |m.columns| && Stored(m.columns[i])
    ensures m.columns[i].columnName in after
    ensures after[m.columns[i].columnName] ==
      if i == m.version then Int(next)
      else if m.columns[i].isAutoIncr then before[m.columns[i].columnName]
      else elem[m.columns[i].fieldName]
  {}

  lemma {:induction false} JobTargetAt(m: Mapping, r: JT.Row, after: Record, j: JT.Job, i: nat)
    requires JobShape(m) && HasFields(m, JobFields(m, j)) && RecordOK(m, JobRecord(m, j.id, r))
    requires IsTarget(m, JobRecord(m, j.id, r), after, JobFields(m, j), Next(m, JobFields(m, j))) && i < 6
    ensures
      var want := JobRecord(m, j.id, JT.Store(Wrapped(j)));
      var c := m.columns[i].columnName;
      c in after && c in want && after[c] == want[c]
  {
    TargetAt(m, JobRecord(m, j.id, r), after, JobFields(m, j), Next(m, JobFields(m, j)), i);
    WrittenAt(m, r, j, i);
  }

  /** The i-th column that the target asks for is the one gobble's model stores. */
  lemma {:induction false} WrittenAt(m: Mapping, r: JT.Row, j: JT.Job, i: nat)
    requires JobShape(m) && HasFields(m, JobFields(m, j)) && RecordOK(m, JobRecord(m, j.id, r)) && i < 6
    ensures
      var want, c := JobRecord(m, j.id, JT.Store(Wrapped(j))), m.columns[i].columnName;
      && Stored(m.columns[i]) && c in want
      && want[c] ==
           if i == m.version then Int(Next(m, JobFields(m, j)))
           else if m.columns[i].isAutoIncr then JobRecord(m, j.id, r)[c]
           else JobFields(m, j)[m.columns[i].fieldName]
  {
    RecordAt(m, j.id, r, i);
    RecordAt(m, j.id, JT.Store(Wrapped(j)), i);
    FieldAt(m, j, i);
    FieldAt(m, j, 3);
  }

  lemma {:induction false} FieldBumpedAt(m: Mapping, j: JT.Job, i: nat)
    requires JobShape(m) && i < 6
    ensures
      var p, q := JobFields(m, j)[Version(m) := Int(Bump(j.version))], JobFields(m, Wrapped(j));
      var c := m.columns[i].fieldName;
      c in p && c in q && p[c] == q[c]
  {
    FieldAt(m, j, i);
    FieldAt(m, Wrapped(j), i);
    assert i != 3 ==> m.columns[i].fieldName != Version(m);
  }

  lemma {:induction false} FieldNamed(m: Mapping, j: JT.Job, c: string) returns (i: nat)
    requires JobShape(m) && c in JobFields(m, j)
    ensures i < 6 && m.columns[i].fieldName == c
  {
    FieldsGet(m, j);
    i :| 0 <= i < 6 && m.columns[i].fieldName == c;
  }

  lemma {:induction false} FieldsBumped(m: Mapping, j: JT.Job)
    requires JobShape(m)
    ensures JobFields(m, j)[Version(m) := Int(Bump(j.version))] == JobFields(m, Wrapped(j))
  {
    var p, q := JobFields(m, j)[Version(m) := Int(Bump(j.version))], JobFields(m, Wrapped(j));
    forall c | c in p ensures c in q && p[c] == q[c] {
      if c == Version(m) {
        FieldBumpedAt(m, j, 3);
      } else {
        var i := FieldNamed(m, j, c);
        FieldBumpedAt(m, j, i);
      }
    }
    forall c | c in q ensures c in p {
      var i := FieldNamed(m, Wrapped(j), c);
      FieldBumpedAt(m, j, i);
    }
    assert p.Keys == q.Keys;
  }

  // ---------------------------------------------------------------- update and delete of a job

  /** The outcome of the queue's model, as gorp reports it: RowsAffected counts rows that changed. */
  function Lifted(m: Mapping, o: JT.Outcome, t: JT.Table): (Rows, Result)
    requires JobShape(m)
  {
    match o
    case Written(t', j') => (JobRows(m, t'), Ok(if t' == t then 0 else 1, JobFields(m, j')))
    case Unmatched(j') => (JobRows(m, t), Ok(0, JobFields(m, j')))
    case LockError(rowExists) => (JobRows(m, t), LockError(rowExists))
  }

  lemma FieldsHave(m: Mapping, j: JT.Job)
    requires JobShape(m) && IsInt64(j.version)
    ensures HasFields(m, JobFields(m, j)) && VersionIn(m, JobFields(m, j)) == j.version
  {
    FieldsGet(m, j);
  }

  lemma JobRowExists(m: Mapping, t: JT.Table, j: JT.Job)
    requires JobShape(m) && IsInt64(j.version)
    ensures RowExists(m, JobRows(m, t), JobFields(m, j)) <==> j.id in t
  {
    FieldsHave(m, j);
    forall id | id in t ensures KeysEqual(m, JobRows(m, t)[id], JobFields(m, j)) <==> id == j.id {
      JobCurrent(m, id, t[id], j);
    }
  }

  /** The job whose key and version the WHERE clause selects. */
  function Sought(j: JT.Job): JT.Job {
    if j.version == 0 then j.(version := 1) else j
  }

  lemma JobSelected(m: Mapping, id: int, r: JT.Row, j: JT.Job)
    requires JobShape(m) && IsInt64(j.version) && HasFields(m, JobFields(m, j))
    ensures Current(m, JobRecord(m, id, r), Selected(m, JobFields(m, j))) <==> id == j.id && r.version == Sought(j).version
  {
    FieldsHave(m, j);
    if j.version == 0 {
      FieldsBumped(m, j);
      FieldsHave(m, Wrapped(j));
      JobCurrent(m, id, r, Wrapped(j));
    } else {
      JobCurrent(m, id, r, j);
    }
  }

  lemma JobUpdatedRow(m: Mapping, r: JT.Row, j: JT.Job)
    requires JobShape(m) && IsInt64(j.version) && HasFields(m, JobFields(m, j))
    ensures Updated(m, JobRecord(m, j.id, r), JobFields(m, j)) == JobRecord(m, j.id, JT.Store(Wrapped(j)))
  {
    RecordGet(m, j.id, r);
    AssignHitsTarget(m, JobRecord(m, j.id, r), JobFields(m, j));
    JobTarget(m, r, Updated(m, JobRecord(m, j.id, r), JobFields(m, j)), j);
  }

  /** The table after the UPDATE. */
  function JobUpdated(t: JT.Table, j: JT.Job): JT.Table {
    if JT.Matches(t, Sought(j)) then t[j.id := JT.Store(Wrapped(j))] else t
  }

  /** What the UPDATE and gorp's judgement of it come to. */
  function WrappedCas(t: JT.Table, j: JT.Job): JT.Outcome {
    if JT.Matches(t, Sought(j)) then JT.Written(JobUpdated(t, j), Wrapped(j))
    else if j.version > 0 then JT.LockError(j.id in t)
    else JT.Unmatched(Wrapped(j))
  }

  lemma JobRowAfter(m: Mapping, t: JT.Table, j: JT.Job, id: int)
    requires JobShape(m) && IsInt64(j.version) && HasFields(m, JobFields(m, j)) && id in t
    ensures
      var after := UpdatedRows(m, JobRows(m, t), JobFields(m, j));
      id in after && after[id] == JobRecord(m, id, JobUpdated(t, j)[id])
  {
    UpdatedRow(m, JobRows(m, t), JobFields(m, j), id);
    JobSelected(m, id, t[id], j);
    if id == j.id { JobUpdatedRow(m, t[id], j); }
  }

  lemma {:induction false} RowsAre(m: Mapping, rows: Rows, t: JT.Table)
    requires JobShape(m) && rows.Keys == t.Keys && forall id :: id in t ==> rows[id] == JobRecord(m, id, t[id])
    ensures rows == JobRows(m, t)
  {}

  lemma {:induction false} JobRowsAfter(m: Mapping, t: JT.Table, j: JT.Job)
    requires JobShape(m) && IsInt64(j.version) && HasFields(m, JobFields(m, j))
    ensures UpdatedRows(m, JobRows(m, t), JobFields(m, j)) == JobRows(m, JobUpdated(t, j))
  {
    var after, left := UpdatedRows(m, JobRows(m, t), JobFields(m, j)), JobUpdated(t, j);
    assert after.Keys == t.Keys == left.Keys;
    forall id | id in t ensures after[id] == JobRecord(m, id, left[id]) { JobRowAfter(m, t, j, id); }
    RowsAre(m, after, left);
  }

  lemma RecordInjective(m: Mapping, id: int, q: JT.Row, r: JT.Row)
    requires JobShape(m)
    ensures JobRecord(m, id, q) == JobRecord(m, id, r) <==> q == r
  {
    if JobRecord(m, id, q) == JobRecord(m, id, r) {
      SameValue(m, id, q, r, 1);
      SameValue(m, id, q, r, 2);
      SameValue(m, id, q, r, 3);
      SameValue(m, id, q, r, 4);
      SameValue(m, id, q, r, 5);
    }
  }

  lemma SameValue(m: Mapping, id: int, q: JT.Row, r: JT.Row, i: nat)
    requires JobShape(m) && JobRecord(m, id, q) == JobRecord(m, id, r) && i < 6
    ensures JobValue(JT.Load(id, q), i) == JobValue(JT.Load(id, r), i)
  {
    RecordAt(m, id, q, i);
    RecordAt(m, id, r, i);
  }

  lemma AffectedStore(m: Mapping, t: JT.Table, id: int, r: JT.Row)
    requires JobShape(m) && id in t
    ensures Affected(JobRows(m, t), JobRows(m, t[id := r])) == if t[id := r] == t then 0 else 1
  {
    RecordInjective(m, id, t[id], r);
    OneDiffers(JobRows(m, t), JobRows(m, t[id := r]), id);
  }

  lemma AffectedRemove(m: Mapping, t: JT.Table, id: int)
    requires JobShape(m) && id in t
    ensures Affected(JobRows(m, t), JobRows(m, t - {id})) == 1
  {
    OneDiffers(JobRows(m, t), JobRows(m, t - {id}), id);
  }

  /** What update reports, from the rows it left. */
  lemma {:induction false} JobUpdateReport(m: Mapping, t: JT.Table, j: JT.Job)
    requires JobShape(m) && IsInt64(j.version) && HasFields(m, JobFields(m, j))
    ensures (JobRows(m, JobUpdated(t, j)), UpdateResult(m, JobRows(m, t), JobRows(m, JobUpdated(t, j)), JobFields(m, j)))
      == Lifted(m, WrappedCas(t, j), t)
  {
    FieldsHave(m, j);
    JobRowExists(m, t, j);
    FieldsBumped(m, j);
    if JT.Matches(t, Sought(j)) {
      AffectedStore(m, t, j.id, JT.Store(Wrapped(j)));
      assert j.version >= 1 ==> JobUpdated(t, j)[j.id].version != t[j.id].version;
    } else {
      NoneDiffers(JobRows(m, t));
    }
  }

  /** Short of the last version the two sums agree. */
  lemma {:induction false} NoWrap(t: JT.Table, j: JT.Job)
    requires IsInt64(j.version) && !(j.version == MAX_INT64 && JT.Matches(t, j))
    ensures WrappedCas(t, j) == JT.CasUpdate(t, j)
  {}

  /** At the last version they do not: the row is stored with the least version. */
  lemma {:induction false} WrapDiffers(m: Mapping, t: JT.Table, j: JT.Job)
    requires JobShape(m) && j.version == MAX_INT64 && JT.Matches(t, j)
    ensures JobRows(m, t[j.id := JT.Store(Wrapped(j))]) != JobRows(m, t[j.id := JT.Store(JT.Bumped(j))])
  {
    RecordInjective(m, j.id, JT.Store(Wrapped(j)), JT.Store(JT.Bumped(j)));
    assert JobRows(m, t[j.id := JT.Store(Wrapped(j))])[j.id] == JobRecord(m, j.id, JT.Store(Wrapped(j)));
    assert JobRows(m, t[j.id := JT.Store(JT.Bumped(j))])[j.id] == JobRecord(m, j.id, JT.Store(JT.Bumped(j)));
  }

  /** What gorp does to the `jobs` table with any copy, loaded or not. */
  lemma {:induction false} JobUpdateWraps(m: Mapping, t: JT.Table, j: JT.Job)
    requires JobShape(m) && IsInt64(j.version)
    ensures HasFields(m, JobFields(m, j))
    ensures RunUpdate(m, JobRows(m, t), JobFields(m, j)) == Lifted(m, WrappedCas(t, j), t)
  {
    FieldsHave(m, j);
    JobRowsAfter(m, t, j);
    JobUpdateReport(m, t, j);
  }

  /** For any copy, loaded or not, that is the statement the queue's model
      interleaves, exactly unless the copy is current at the last 64-bit version. */
  lemma {:induction false} JobUpdateIsCasIff(m: Mapping, t: JT.Table, j: JT.Job)
    requires JobShape(m) && IsInt64(j.version)
    ensures HasFields(m, JobFields(m, j))
    ensures RunUpdate(m, JobRows(m, t), JobFields(m, j)) == Lifted(m, JT.CasUpdate(t, j), t)
      <==> !(j.version == MAX_INT64 && JT.Matches(t, j))
  {
    JobUpdateWraps(m, t, j);
    if j.version == MAX_INT64 && JT.Matches(t, j) { WrapDiffers(m, t, j); } else { NoWrap(t, j); }
  }

  lemma {:induction false} UnloadedCas()
    ensures JT.CasUpdate(map[7 := JT.Row("w1", "theirs", 1, 3, 60)], JT.Job(7, "", "mine", 0, 0, 0, false))
      == JT.Written(map[7 := JT.Row("", "mine", 1, 0, 0)], JT.Job(7, "", "mine", 1, 0, 0, false))
  {}

  /** The guard is for loaded copies only: a job that was never loaded overwrites a row of version 1. */
  lemma {:induction false} UnloadedJobOverwrites(m: Mapping)
    requires JobShape(m)
    ensures
      var t, j := map[7 := JT.Row("w1", "theirs", 1, 3, 60)], JT.Job(7, "", "mine", 0, 0, 0, false);
      HasFields(m, JobFields(m, j)) && RunUpdate(m, JobRows(m, t), JobFields(m, j)).0 == JobRows(m, map[7 := JT.Row("", "mine", 1, 0, 0)])
  {
    UnloadedCas();
    JobUpdateIsCasIff(m, map[7 := JT.Row("w1", "theirs", 1, 3, 60)], JT.Job(7, "", "mine", 0, 0, 0, false));
  }

  function JobDeleted(t: JT.Table, j: JT.Job): JT.Table {
    if JT.Matches(t, j) then t - {j.id} else t
  }

  lemma {:induction false} JobRowsLeft(m: Mapping, t: JT.Table, j: JT.Job)
    requires JobShape(m) && HasFields(m, JobFields(m, j))
    ensures RowsLeft(m, JobRows(m, t), JobFields(m, j)) == JobRows(m, JobDeleted(t, j))
  {
    var rows, elem := JobRows(m, t), JobFields(m, j);
    var left, want := RowsLeft(m, rows, elem), JobRows(m, JobDeleted(t, j));
    forall id | id in t ensures id in left <==> id in want {
      DeleteSelects(m, rows[id], elem);
      JobCurrent(m, id, t[id], j);
    }
    assert left.Keys == want.Keys;
  }

  lemma JobDeleteIsCas(m: Mapping, t: JT.Table, j: JT.Job)
    requires JobShape(m) && IsInt64(j.version)
    ensures HasFields(m, JobFields(m, j))
    ensures RunDelete(m, JobRows(m, t), JobFields(m, j)) == Lifted(m, JT.CasDelete(t, j), t)
  {
    FieldsHave(m, j);
    JobRowsLeft(m, t, j);
    JobRowExists(m, t, j);
    if JT.Matches(t, j) { AffectedRemove(m, t, j.id); } else { NoneDiffers(JobRows(m, t)); }
  }
}
