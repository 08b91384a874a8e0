/** What each statement of the queue does to the table, column by column, in every
    run: in terms of the row and of the copy that the agent holds, whatever the
    transition system calls the attempt. */
module QueueLaws {
  import opened JobTable
  import opened JobQueue
  import opened QueueSafety
  import opened DeliveryRuns

  // ---------------------------------------------------------------- copies agree with their rows

  /** A copy that the callback has not touched agrees with its row as long as it is
      current, but for the worker, and the row is due. */
  predicate Agrees(s: State, pc: PC)
    requires HasJob(pc)
  {
    !pc.Finishing? && pc.job.id in s.rows && s.rows[pc.job.id].version == pc.job.version ==>
      var j, r := pc.job, s.rows[pc.job.id];
      j.payload == r.payload && j.retryCount == r.retryCount && j.activeAt == r.activeAt <= s.now && !j.shouldRetry
  }

  predicate AllAgree(s: State) {
    forall a :: a in s.agents && HasJob(s.agents[a].pc) ==> Agrees(s, s.agents[a].pc)
  }

  lemma {:induction false} AgreeVersioned(s: State, step: Step)
    requires BaseInv(s) && AllAgree(s) && Enabled(s, step) && Versioned(step)
    ensures AllAgree(Apply(s, step))
  {
    AttemptShape(s, step);
    var t, a := Apply(s, step), step.a;
    forall b | b in t.agents && HasJob(t.agents[b].pc) ensures Agrees(t, t.agents[b].pc) {
      if b != a { OtherAgrees(s, step, b); } else { ClaimAgrees(s, a); }
    }
  }

  lemma {:induction false} OtherAgrees(s: State, step: Step, b: nat)
    requires BaseInv(s) && AllAgree(s) && Enabled(s, step) && Versioned(step) && b in s.agents && b != step.a
    ensures HasJob(s.agents[b].pc) ==> Agrees(Apply(s, step), s.agents[b].pc)
  {
    AttemptShape(s, step);
    ClockStays(s, step);
    assert CopyOK(s, s.agents[step.a].pc.job);
    if HasJob(s.agents[b].pc) { assert Agrees(s, s.agents[b].pc) && CopyOK(s, s.agents[b].pc.job); }
  }

  lemma {:induction false} ClaimAgrees(s: State, a: nat)
    requires BaseInv(s) && AllAgree(s) && Enabled(s, TryClaim(a))
    ensures var t := Apply(s, TryClaim(a)); HasJob(t.agents[a].pc) ==> Agrees(t, t.agents[a].pc)
  {
    assert CopyOK(s, s.agents[a].pc.job) && Agrees(s, s.agents[a].pc);
  }

  lemma {:induction false} AgreeLocal(s: State, step: Step)
    requires AllAgree(s) && Enabled(s, step) && Local(step)
    ensures AllAgree(Apply(s, step))
  {
    LocalShape(s, step);
    var t := Apply(s, step);
    if HasJob(s.agents[step.a].pc) { assert Agrees(s, s.agents[step.a].pc); }
    forall b | b in t.agents && HasJob(t.agents[b].pc) ensures Agrees(t, t.agents[b].pc) {
      if b != step.a { assert Agrees(s, s.agents[b].pc); }
    }
  }

  lemma {:induction false} AgreeStep(s: State, step: Step)
    requires BaseInv(s) && AllAgree(s) && Enabled(s, step)
    ensures AllAgree(Apply(s, step))
  {
    if Versioned(step) {
      AgreeVersioned(s, step);
    } else if Local(step) {
      AgreeLocal(s, step);
    } else {
      var t := Apply(s, step);
      forall b | b in t.agents && HasJob(t.agents[b].pc) ensures Agrees(t, t.agents[b].pc) {
        if b in s.agents && HasJob(s.agents[b].pc) { assert Agrees(s, s.agents[b].pc) && CopyOK(s, s.agents[b].pc.job); }
      }
    }
  }

  lemma {:induction false} AgreeRun(s: State, steps: seq<Step>)
    requires BaseInv(s) && AllAgree(s) && Run(s, steps)
    ensures BaseInv(Final(s, steps)) && AllAgree(Final(s, steps))
    decreases |steps|
  {
    if steps != [] {
      BaseStep(s, steps[0]);
      AgreeStep(s, steps[0]);
      AgreeRun(Apply(s, steps[0]), steps[1..]);
    }
  }

  lemma {:induction false} Reachable(steps: seq<Step>)
    requires Run(Init, steps)
    ensures BaseInv(Final(Init, steps)) && AllAgree(Final(Init, steps))
  {
    InitBase();
    AgreeRun(Init, steps);
  }

  // ---------------------------------------------------------------- the statements

  /** The agent's copy carries the version that is stored. */
  predicate IsCurrent(s: State, a: nat)
    requires a in s.agents && HasJob(s.agents[a].pc)
  {
    var j := s.agents[a].pc.job;
    j.id in s.rows && s.rows[j.id].version == j.version
  }

  /** INSERT: a row that was never there, with the job's columns and its version plus one. */
  lemma {:induction false} EnqueueStores(steps: seq<Step>, job: Job) returns (id: int)
    requires Run(Init, steps) && job.version >= 0
    ensures
      var s := Final(Init, steps);
      var t := Apply(s, Enqueue(job));
      && id !in s.rows && id !in s.enqueued
      && t.rows == s.rows[id := Row(job.workerID, job.payload, job.version + 1, job.retryCount, job.activeAt)]
      && t.enqueued == s.enqueued[id := job.payload] && t.agents == s.agents && t.now == s.now
  {
    Reachable(steps);
    var s := Final(Init, steps);
    id := s.nextID;
    if s.nextID in s.rows { RowIDs(s, s.nextID); }
  }

  /** SELECT: exactly the rows that are free and due can be found, and the copy is the row. */
  lemma {:induction false} FindLoads(s: State, a: nat, id: int)
    ensures Enabled(s, Find(a, id)) <==>
      && a in s.agents && s.agents[a].pc == Searching
      && id in s.rows && s.rows[id].workerID == "" && s.rows[id].activeAt <= s.now
    ensures Enabled(s, Find(a, id)) ==>
      var t, r := Apply(s, Find(a, id)), s.rows[id];
      && t.rows == s.rows && t.journal == s.journal
      && t.agents == s.agents[a := s.agents[a].(pc := Found(Job(id, "", r.payload, r.version, r.retryCount, r.activeAt, false)))]
  {}

  /** The claim: the row gets the worker and the next version and is otherwise as it
      was, and the agent goes on with that row; or nothing happens and it searches again. */
  lemma {:induction false} ClaimTakes(steps: seq<Step>, a: nat)
    requires Run(Init, steps) && Enabled(Final(Init, steps), TryClaim(a))
    ensures
      var s := Final(Init, steps);
      var t, agent := Apply(s, TryClaim(a)), s.agents[a];
      var id := agent.pc.job.id;
      if IsCurrent(s, a) then
        var r := s.rows[id];
        && t.rows == s.rows[id := r.(workerID := agent.workerID, version := r.version + 1)]
        && t.agents[a].pc == Claimed(Job(id, agent.workerID, r.payload, r.version + 1, r.retryCount, r.activeAt, false))
      else
        t.rows == s.rows && t.agents[a].pc == Searching
  {
    Reachable(steps);
    var s := Final(Init, steps);
    assert CopyOK(s, s.agents[a].pc.job) && Agrees(s, s.agents[a].pc);
  }

  /** The release: the row has no worker again, and is otherwise as it was with the
      next version; or nothing happens.  Either way the goroutine ends. */
  lemma {:induction false} ReleaseFrees(steps: seq<Step>, a: nat)
    requires Run(Init, steps) && Enabled(Final(Init, steps), TryRelease(a))
    ensures
      var s := Final(Init, steps);
      var t, id := Apply(s, TryRelease(a)), s.agents[a].pc.job.id;
      && t.agents[a].pc == Gone
      && t.rows == if IsCurrent(s, a) then s.rows[id := s.rows[id].(workerID := "", version := s.rows[id].version + 1)] else s.rows
  {
    Reachable(steps);
    var s := Final(Init, steps);
    assert CopyOK(s, s.agents[a].pc.job) && Agrees(s, s.agents[a].pc);
  }

  /** A job that is released can be found at once by another agent. */
  lemma {:induction false} ReleasedIsFound(steps: seq<Step>, a: nat, b: nat)
    requires Run(Init, steps) && Enabled(Final(Init, steps), TryRelease(a)) && IsCurrent(Final(Init, steps), a)
    requires b in Final(Init, steps).agents && b != a && Final(Init, steps).agents[b].pc == Searching
    ensures Enabled(Apply(Final(Init, steps), TryRelease(a)), Find(b, Final(Init, steps).agents[a].pc.job.id))
  {
    ReleaseFrees(steps, a);
    Reachable(steps);
    var s := Final(Init, steps);
    assert CopyOK(s, s.agents[a].pc.job) && Agrees(s, s.agents[a].pc);
    AttemptShape(s, TryRelease(a));
    ClockStays(s, TryRelease(a));
  }

  lemma {:induction false} ClockStays(s: State, step: Step)
    requires Enabled(s, step) && !step.Tick?
    ensures Apply(s, step).now == s.now
  {}

  /** Requeue and Dequeue: the row takes the columns the callback left, with the next
      version, or goes; or nothing happens and the process panics. */
  lemma {:induction false} FinishWrites(steps: seq<Step>, a: nat)
    requires Run(Init, steps) && Enabled(Final(Init, steps), Finish(a))
    ensures
      var s := Final(Init, steps);
      var t, j := Apply(s, Finish(a)), s.agents[a].pc.job;
      && t.agents[a].pc == (if IsCurrent(s, a) then Gone else Crashed)
      && t.rows ==
           if !IsCurrent(s, a) then s.rows
           else if j.shouldRetry then s.rows[j.id := Row(j.workerID, j.payload, j.version + 1, j.retryCount, j.activeAt)]
           else s.rows - {j.id}
  {
    Reachable(steps);
    var s := Final(Init, steps);
    assert CopyOK(s, s.agents[a].pc.job);
  }

  /** A delivery worker's requeue: nobody's, one retry more, due 2^k minutes after
      the callback asked for it, where k < 10 is the number of retries so far. */
  lemma {:induction false} RequeueBacksOff(steps: seq<Step>, a: nat)
    requires DeliveryRun(Init, steps) && Enabled(End(steps), Finish(a))
    requires IsCurrent(End(steps), a) && End(steps).agents[a].pc.job.shouldRetry
    ensures
      var s := End(steps);
      var pc, r := s.agents[a].pc, s.rows[s.agents[a].pc.job.id];
      && 0 <= r.retryCount < 10
      && Apply(s, Finish(a)).rows[pc.job.id] ==
           Row("", r.payload, r.version + 1, r.retryCount + 1, pc.returnedAt + 60 * Pow2(r.retryCount))
  {
    InitRetry();
    RetryRun(Init, steps);
    var s := End(steps);
    assert CopyRetries(s, s.agents[a].pc) && CopyOK(s, s.agents[a].pc.job);
    assert RowRetries(s, s.agents[a].pc.job.id);
    FinishWrites(steps, a);
  }

  /** Unlock: no row has a worker, and all else is as it was. */
  lemma {:induction false} UnlockFrees(s: State)
    ensures
      var t := Apply(s, Unlock);
      && t == s.(rows := t.rows) && t.rows.Keys == s.rows.Keys
      && forall id :: id in s.rows ==> t.rows[id] == s.rows[id].(workerID := "")
  {}
}
