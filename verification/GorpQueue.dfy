/** The versioned steps of the queue, through gorp: in every run that is too short
    for a version to reach the last 64-bit integer, each claim, release, requeue
    and dequeue of the transition system is what gorp does to the `jobs` table. */
module GorpQueue {
  import opened Integers
  import opened JobTable
  import opened JobQueue
  import opened QueueSafety
  import GC = GorpCas
  import GJ = GorpJobs
  import GorpPlans

  /** Jobs are enqueued as NewJob makes them. */
  predicate FromNew(steps: seq<Step>) {
    forall i :: 0 <= i < |steps| && steps[i].Enqueue? ==> steps[i].job.version == 0
  }

  /** No version in the table or in a copy is above `n`. */
  predicate VersionsUpTo(s: State, n: int) {
    && (forall id :: id in s.rows ==> 0 <= s.rows[id].version <= n)
    && (forall a :: a in s.agents && HasJob(s.agents[a].pc) ==> 0 <= s.agents[a].pc.job.version <= n)
  }

  lemma {:induction false} AttemptRaises(s: State, step: Step, n: int)
    requires VersionsUpTo(s, n) && Enabled(s, step) && Versioned(step)
    ensures VersionsUpTo(Apply(s, step), n + 1)
  {
    AttemptShape(s, step);
    var t, j := Apply(s, step), AttemptJob(s, step);
    assert 0 <= s.agents[step.a].pc.job.version <= n;
    forall b | b in t.agents && HasJob(t.agents[b].pc) ensures 0 <= t.agents[b].pc.job.version <= n + 1 {
      if b != step.a { assert t.agents[b] == s.agents[b]; }
    }
  }

  lemma {:induction false} MoveRaises(s: State, step: Step, n: int)
    requires VersionsUpTo(s, n) && Enabled(s, step) && Local(step)
    ensures VersionsUpTo(Apply(s, step), n + 1)
  {
    LocalShape(s, step);
  }

  lemma {:induction false} StepRaises(s: State, step: Step, n: int)
    requires VersionsUpTo(s, n) && n >= 0 && Enabled(s, step) && !Versioned(step) && (step.Enqueue? ==> step.job.version == 0)
    ensures VersionsUpTo(Apply(s, step), n + 1)
  {
    if Local(step) { MoveRaises(s, step, n); }
  }

  lemma {:induction false} RunRaises(s: State, steps: seq<Step>, n: int)
    requires VersionsUpTo(s, n) && n >= 0 && Run(s, steps) && FromNew(steps)
    ensures VersionsUpTo(Final(s, steps), n + |steps|)
    decreases |steps|
  {
    if steps != [] {
      if Versioned(steps[0]) { AttemptRaises(s, steps[0], n); } else { StepRaises(s, steps[0], n); }
      RunRaises(Apply(s, steps[0]), steps[1..], n + 1);
    }
  }

  /** What gorp makes of the attempt: a delete for a dequeue, else an update. */
  function Gorped(m: GorpPlans.Mapping, s: State, step: Step): (GorpPlans.Rows, GorpPlans.Result)
    requires GJ.JobShape(m) && Enabled(s, step) && Versioned(step)
    requires GC.HasFields(m, GJ.JobFields(m, AttemptJob(s, step)))
  {
    var rows, elem := GJ.JobRows(m, s.rows), GJ.JobFields(m, AttemptJob(s, step));
    if Removes(s, step) then GC.RunDelete(m, rows, elem) else GC.RunUpdate(m, rows, elem)
  }

  lemma {:induction false} AppliedRows(s: State, step: Step)
    requires Enabled(s, step) && Versioned(step)
    ensures
      var j := AttemptJob(s, step);
      var o := if Removes(s, step) then CasDelete(s.rows, j) else CasUpdate(s.rows, j);
      Apply(s, step).rows == if o.Written? then o.table else s.rows
  {}

  lemma {:induction false} AttemptIsGorps(m: GorpPlans.Mapping, s: State, step: Step, j: Job)
    requires GJ.JobShape(m) && Enabled(s, step) && Versioned(step) && j == AttemptJob(s, step) && 1 <= j.version < MAX_INT64
    ensures GC.HasFields(m, GJ.JobFields(m, j))
    ensures Gorped(m, s, step).0 == GJ.JobRows(m, Apply(s, step).rows)
    ensures Gorped(m, s, step).1.LockError? <==> !Matches(s.rows, j)
  {
    AppliedRows(s, step);
    if Removes(s, step) { DeleteGorped(m, s.rows, j); } else { UpdateGorped(m, s.rows, j); }
  }

  lemma {:induction false} UpdateGorped(m: GorpPlans.Mapping, t: Table, j: Job)
    requires GJ.JobShape(m) && 1 <= j.version < MAX_INT64
    ensures GC.HasFields(m, GJ.JobFields(m, j))
    ensures
      var (rows, r) := GC.RunUpdate(m, GJ.JobRows(m, t), GJ.JobFields(m, j));
      && rows == GJ.JobRows(m, if Matches(t, j) then CasUpdate(t, j).table else t)
      && (r.LockError? <==> !Matches(t, j))
  {
    GJ.JobUpdateIsCasIff(m, t, j);
  }

  lemma {:induction false} DeleteGorped(m: GorpPlans.Mapping, t: Table, j: Job)
    requires GJ.JobShape(m) && 1 <= j.version < MAX_INT64
    ensures GC.HasFields(m, GJ.JobFields(m, j))
    ensures
      var (rows, r) := GC.RunDelete(m, GJ.JobRows(m, t), GJ.JobFields(m, j));
      && rows == GJ.JobRows(m, if Matches(t, j) then CasDelete(t, j).table else t)
      && (r.LockError? <==> !Matches(t, j))
  {
    GJ.JobDeleteIsCas(m, t, j);
  }

  /** The copy of an attempt is loaded, and its version can still grow. */
  lemma {:induction false} AttemptInRange(steps: seq<Step>, step: Step)
    requires Run(Init, steps) && FromNew(steps) && Enabled(Final(Init, steps), step) && Versioned(step)
    ensures 1 <= AttemptJob(Final(Init, steps), step).version <= |steps|
  {
    InitBase();
    BaseRun(Init, steps);
    RunRaises(Init, steps, 0);
    var pc := Final(Init, steps).agents[step.a].pc;
    assert CopyOK(Final(Init, steps), pc.job) && pc.job.version <= |steps|;
  }

  /** gorp leaves the table that the step leaves, and refuses exactly what the step takes for stale. */
  lemma {:induction false} StepIsGorps(m: GorpPlans.Mapping, steps: seq<Step>, step: Step)
    requires GJ.JobShape(m) && Run(Init, steps) && FromNew(steps) && |steps| < MAX_INT64
    requires Enabled(Final(Init, steps), step) && Versioned(step)
    ensures
      var s := Final(Init, steps);
      var j := AttemptJob(s, step);
      && GC.HasFields(m, GJ.JobFields(m, j))
      && Gorped(m, s, step).0 == GJ.JobRows(m, Apply(s, step).rows)
      && (Gorped(m, s, step).1.LockError? <==> !Matches(s.rows, j))
  {
    AttemptInRange(steps, step);
    AttemptIsGorps(m, Final(Init, steps), step, AttemptJob(Final(Init, steps), step));
  }
}
