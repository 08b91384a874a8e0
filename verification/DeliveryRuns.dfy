/** Runs of the queue whose callback is DeliveryWorker.Deliver: jobs come from
    NewJob with a message ID of their own, and the callback either leaves the
    job alone or schedules a retry with exponential back-off.

    The bounds on retries and the back-off hold with `Unlock` at any moment. */
module DeliveryRuns {
  import opened JobTable
  import opened JobQueue
  import opened QueueSafety

  /** What Deliver can do with the job when it returns: leave it (delivered or
      unsubscribed) or call retry (every failure). */
  predicate Returns(pc: PC, job: Job, now: int)
    requires pc.Running? || pc.Reported?
  {
    if pc.Running? then job == pc.job || job == Backoff(pc.job, now)
    else job == if pc.status == Delivered then pc.job else Backoff(pc.job, now)
  }

  /** Some enqueued job carries this payload. */
  predicate Known(enqueued: map<int, string>, payload: string) {
    exists id :: id in enqueued && enqueued[id] == payload
  }

  predicate DeliveryStep(s: State, step: Step)
    requires Enabled(s, step)
  {
    match step
    case Enqueue(job) => job == NewJob(job.payload) && !Known(s.enqueued, job.payload)
    case Return(a, job) => Returns(s.agents[a].pc, job, s.now)
    case MarkQueued(id) => StatusWrite(false, s.enqueued[id], Queued) !in s.statuses   // once per job
    case _ => true
  }

  predicate DeliveryRun(s: State, steps: seq<Step>)
    decreases |steps|
  {
    steps == [] ||
    (Enabled(s, steps[0]) && DeliveryStep(s, steps[0]) && DeliveryRun(Apply(s, steps[0]), steps[1..]))
  }

  lemma {:induction false} DeliveryRunIsRun(s: State, steps: seq<Step>)
    requires DeliveryRun(s, steps)
    ensures Run(s, steps)
    decreases |steps|
  {
    if steps != [] { DeliveryRunIsRun(Apply(s, steps[0]), steps[1..]); }
  }

  function End(steps: seq<Step>): State
    requires DeliveryRun(Init, steps)
  {
    DeliveryRunIsRun(Init, steps);
    Final(Init, steps)
  }

  // ---------------------------------------------------------------- counting retries

  /** How many successful requeues the journal holds for a job. */
  function Retries(journal: seq<Write>, id: int): nat {
    if journal == [] then 0
    else
      var w := journal[|journal| - 1];
      Retries(journal[..|journal| - 1], id) + if w.id == id && w.kind.Requeue? then 1 else 0
  }

  /** The seconds of back-off those requeues asked for. */
  function DelaySum(journal: seq<Write>, id: int): nat {
    if journal == [] then 0
    else
      var w := journal[|journal| - 1];
      DelaySum(journal[..|journal| - 1], id)
      + if w.id == id && w.kind.Requeue? then 60 * Delay(w.kind.attempt) else 0
  }

  lemma CountsAppend(journal: seq<Write>, w: Write, id: int)
    ensures Retries(journal + [w], id) == Retries(journal, id) + if w.id == id && w.kind.Requeue? then 1 else 0
    ensures DelaySum(journal + [w], id)
         == DelaySum(journal, id) + if w.id == id && w.kind.Requeue? then 60 * Delay(w.kind.attempt) else 0
  {
    assert (journal + [w])[..|journal|] == journal;
  }

  /** The moment from which a requeue lets the job be claimed again. */
  function DueAt(w: Write): int
    requires w.kind.Requeue?
  {
    w.kind.decidedAt + 60 * Delay(w.kind.attempt)
  }

  // ---------------------------------------------------------------- invariant, Unlock or not

  predicate SameData(j: Job, r: Row) {
    j.payload == r.payload && j.retryCount == r.retryCount && j.activeAt == r.activeAt
  }

  /** A current copy agrees with its row, and the row is due; once the callback
      returned, the copy is one retry ahead or not meant to be requeued. */
  predicate CopyRetries(s: State, pc: PC)
    requires HasJob(pc)
  {
    var j := pc.job;
    if pc.Finishing? then
      Matches(s.rows, j) && j.shouldRetry ==>
        var r := s.rows[j.id];
        && r.activeAt <= pc.returnedAt <= s.now
        && j.workerID == "" && j.payload == r.payload && j.retryCount == r.retryCount + 1
        && r.retryCount < MAX_RETRIES
        && j.activeAt == pc.returnedAt + 60 * Delay(r.retryCount)
    else
      && !j.shouldRetry
      && (Matches(s.rows, j) ==> SameData(j, s.rows[j.id]) && s.rows[j.id].activeAt <= s.now)
  }

  predicate RowRetries(s: State, id: int)
    requires id in s.rows
  {
    var r := s.rows[id];
    && 0 <= r.retryCount <= MAX_RETRIES
    && Retries(s.journal, id) == r.retryCount
    && DelaySum(s.journal, id) == 60 * (Pow2(r.retryCount) - 1)
  }

  ghost predicate AgentsRetry(s: State) {
    forall a :: a in s.agents && HasJob(s.agents[a].pc) ==> CopyRetries(s, s.agents[a].pc)
  }

  ghost predicate RowsRetry(s: State) {
    && (forall id :: id in s.rows ==> RowRetries(s, id))
    && (forall id :: Retries(s.journal, id) <= MAX_RETRIES && DelaySum(s.journal, id) <= 60 * 1023)
    && (forall id :: id !in s.enqueued ==> Retries(s.journal, id) == DelaySum(s.journal, id) == 0)
  }

  predicate EntryDue(s: State, w: Write) {
    && w.at <= s.now
    && (w.kind.Requeue? ==>
          && 0 <= w.kind.attempt < MAX_RETRIES
          && (w.id in s.rows ==> DueAt(w) <= s.rows[w.id].activeAt))
  }

  /** A claim that follows a requeue in the journal comes no earlier than the requeue allows. */
  predicate PairDue(v: Write, w: Write) {
    v.id == w.id && v.kind.Requeue? && w.kind.Claim? ==> DueAt(v) <= w.at
  }

  predicate JournalDue(s: State) {
    && (forall i :: 0 <= i < |s.journal| ==> EntryDue(s, s.journal[i]))
    && (forall i, j :: 0 <= i < j < |s.journal| ==> PairDue(s.journal[i], s.journal[j]))
  }

  ghost predicate RetryInv(s: State) {
    AgentsRetry(s) && RowsRetry(s) && JournalDue(s)
  }

  // ---------------------------------------------------------------- its preservation

  lemma Pow2Bound(k: nat)
    requires k <= MAX_RETRIES
    ensures Pow2(k) <= 1024
  {
    assert Pow2(10) == 1024 by {
      assert Pow2(5) == 32;
      assert Pow2(9) == 512 by { assert Pow2(7) == 128; }
    }
    Pow2Grows(k, 10);
  }

  lemma {:induction false} Pow2Grows(k: nat, m: nat)
    requires k <= m
    ensures Pow2(k) <= Pow2(m)
    decreases m - k
  {
    if k < m { Pow2Grows(k + 1, m); }
  }

  /** A successful write of agent `a`: what the row of `j` becomes. */
  ghost predicate RowWritten(s: State, t: State, a: nat, j: Job, kind: Kind) {
    && a in s.agents && HasJob(s.agents[a].pc) && CopyOK(s, s.agents[a].pc.job)
    && j.id == s.agents[a].pc.job.id && j.version == s.agents[a].pc.job.version
    && Matches(s.rows, j)
    && t.rows == (if kind.Dequeue? then s.rows - {j.id} else s.rows[j.id := Store(Bumped(j))])
    && t.journal == s.journal + [Write(j.id, j.version, s.now, kind)]
    && t.now == s.now && t.enqueued == s.enqueued && j.id in s.enqueued
    && match kind
       case Requeue(decidedAt, attempt) =>
         && s.rows[j.id].activeAt <= decidedAt <= s.now
         && j.retryCount == s.rows[j.id].retryCount + 1
         && attempt == s.rows[j.id].retryCount < MAX_RETRIES
         && j.activeAt == decidedAt + 60 * Delay(attempt)
       case Dequeue => true
       case Inserted => false
       case _ => SameData(j, s.rows[j.id]) && s.rows[j.id].activeAt <= s.now
  }

  lemma {:induction false} RowWrittenKeeps(s: State, t: State, a: nat, j: Job, kind: Kind, id: int)
    requires RowsRetry(s) && RowWritten(s, t, a, j, kind)
    ensures id in t.rows ==> RowRetries(t, id)
    ensures id !in t.enqueued ==> Retries(t.journal, id) == DelaySum(t.journal, id) == 0
  {
    assert RowRetries(s, j.id);
    CountsAppend(s.journal, Write(j.id, j.version, s.now, kind), id);
    assert id in s.rows ==> RowRetries(s, id);
  }

  lemma {:induction false} RowWrittenBound(s: State, t: State, a: nat, j: Job, kind: Kind, id: int)
    requires RowsRetry(s) && RowWritten(s, t, a, j, kind)
    ensures Retries(t.journal, id) <= MAX_RETRIES && DelaySum(t.journal, id) <= 60 * 1023
  {
    assert RowRetries(s, j.id);
    if kind.Requeue? { Pow2Bound(j.retryCount); }
    CountsAppend(s.journal, Write(j.id, j.version, s.now, kind), id);
  }

  lemma {:induction false} RowWrittenKeepsRows(s: State, t: State, a: nat, j: Job, kind: Kind)
    requires RowsRetry(s) && RowWritten(s, t, a, j, kind)
    ensures RowsRetry(t)
  {
    forall id
      ensures Retries(t.journal, id) <= MAX_RETRIES && DelaySum(t.journal, id) <= 60 * 1023
      ensures id in t.rows ==> RowRetries(t, id)
      ensures id !in t.enqueued ==> Retries(t.journal, id) == DelaySum(t.journal, id) == 0
    {
      RowWrittenKeeps(s, t, a, j, kind, id);
      RowWrittenBound(s, t, a, j, kind, id);
    }
  }

  lemma RowWrittenKeepsJournal(s: State, t: State, a: nat, j: Job, kind: Kind)
    requires RowsRetry(s) && JournalDue(s) && RowWritten(s, t, a, j, kind)
    ensures JournalDue(t)
  {
    var w := Write(j.id, j.version, s.now, kind);
    assert RowRetries(s, j.id);
    forall i | 0 <= i < |t.journal| ensures EntryDue(t, t.journal[i]) {
      if i < |s.journal| { assert EntryDue(s, s.journal[i]); }
    }
    forall i, k | 0 <= i < k < |t.journal| ensures PairDue(t.journal[i], t.journal[k]) {
      assert EntryDue(s, s.journal[i]);
      if k < |s.journal| { assert PairDue(s.journal[i], s.journal[k]); }
    }
  }

  /** The other agents' copies of the written job are now stale. */
  lemma RowWrittenKeepsAgents(s: State, t: State, a: nat, j: Job, kind: Kind)
    requires Copies(s) && AgentsRetry(s) && RowWritten(s, t, a, j, kind)
    requires a in t.agents && t.agents == s.agents[a := t.agents[a]]
    requires HasJob(t.agents[a].pc) ==> CopyRetries(t, t.agents[a].pc)
    ensures AgentsRetry(t)
  {
    forall b | b in t.agents && HasJob(t.agents[b].pc) ensures CopyRetries(t, t.agents[b].pc) {
      if b != a {
        assert CopyOK(s, s.agents[b].pc.job) && CopyRetries(s, s.agents[b].pc);
      }
    }
  }

  /** Each successful attempt is a RowWritten. */
  lemma AttemptWrites(s: State, step: Step) returns (kind: Kind)
    requires BaseInv(s) && RetryInv(s) && Enabled(s, step) && Versioned(step)
    requires Matches(s.rows, AttemptJob(s, step))
    ensures RowWritten(s, Apply(s, step), step.a, AttemptJob(s, step), kind)
    ensures kind.Dequeue? || kind.Requeue? ==> !HasJob(Apply(s, step).agents[step.a].pc)
    ensures kind.Claim? ==> Apply(s, step).agents[step.a].pc == Claimed(Bumped(AttemptJob(s, step)))
    ensures kind.Release? ==> Apply(s, step).agents[step.a].pc == Gone
  {
    var j := AttemptJob(s, step);
    assert CopyOK(s, s.agents[step.a].pc.job) && CopyRetries(s, s.agents[step.a].pc);
    RowIDs(s, j.id);
    match step
    case TryClaim(a) => kind := Claim;
    case TryRelease(a) => kind := Release;
    case Finish(a) => kind := FinishKind(s.agents[a].pc);
  }

  lemma {:induction false} RetryVersioned(s: State, step: Step)
    requires BaseInv(s) && RetryInv(s) && Enabled(s, step) && Versioned(step)
    ensures RetryInv(Apply(s, step))
  {
    var t := Apply(s, step);
    var a := step.a;
    var j := AttemptJob(s, step);
    assert CopyRetries(s, s.agents[a].pc);
    if Matches(s.rows, j) {
      var kind := AttemptWrites(s, step);
      RowWrittenKeepsRows(s, t, a, j, kind);
      RowWrittenKeepsJournal(s, t, a, j, kind);
      RowWrittenKeepsAgents(s, t, a, j, kind);
    } else {
      StaleShape(s, step);
      FrameRetry(s, t);
      forall b | b in t.agents && HasJob(t.agents[b].pc) ensures CopyRetries(t, t.agents[b].pc) {
        assert CopyRetries(s, s.agents[b].pc);
      }
    }
  }

  lemma StaleShape(s: State, step: Step)
    requires BaseInv(s) && Enabled(s, step) && Versioned(step) && !Matches(s.rows, AttemptJob(s, step))
    ensures
      var t := Apply(s, step);
      && t == s.(agents := t.agents) && step.a in t.agents
      && t.agents == s.agents[step.a := t.agents[step.a]] && !HasJob(t.agents[step.a].pc)
  {
    assert CopyOK(s, s.agents[step.a].pc.job);
  }

  /** Rows and journal in the same place, the clock no earlier. */
  lemma FrameRetry(s: State, t: State)
    requires RowsRetry(s) && JournalDue(s)
    requires t.journal == s.journal && t.enqueued == s.enqueued && s.now <= t.now
    requires t.rows.Keys == s.rows.Keys
    requires forall id :: id in s.rows ==> t.rows[id] == s.rows[id].(workerID := t.rows[id].workerID)
    ensures RowsRetry(t) && JournalDue(t)
  {
    forall id | id in t.rows ensures RowRetries(t, id) { assert RowRetries(s, id); }
    forall i | 0 <= i < |t.journal| ensures EntryDue(t, t.journal[i]) { assert EntryDue(s, s.journal[i]); }
  }

  /** A callback that returns a retry follows the schedule. */
  lemma {:induction false} ReturnRetries(s: State, a: nat, job: Job)
    requires RetryInv(s) && Enabled(s, Return(a, job)) && DeliveryStep(s, Return(a, job))
    ensures CopyRetries(Apply(s, Return(a, job)), Finishing(job, s.now))
  {
    assert CopyRetries(s, s.agents[a].pc);
    if Matches(s.rows, job) { assert RowRetries(s, job.id); }
  }

  lemma {:induction false} RetryLocal(s: State, step: Step)
    requires RetryInv(s) && Enabled(s, step) && Local(step) && DeliveryStep(s, step)
    ensures AgentsRetry(Apply(s, step))
  {
    var t := Apply(s, step);
    LocalShape(s, step);
    if step.Return? {
      ReturnRetries(s, step.a, step.job);
    } else {
      assert HasJob(s.agents[step.a].pc) ==> CopyRetries(s, s.agents[step.a].pc);
    }
    forall b | b in t.agents && HasJob(t.agents[b].pc) ensures CopyRetries(t, t.agents[b].pc) {
      if b != step.a { assert CopyRetries(s, s.agents[b].pc); }
    }
  }

  lemma JournalIDs(s: State, i: nat)
    requires Chains(s) && i < |s.journal|
    ensures 1 <= s.journal[i].id < s.nextID
  {
    var p := PositionOnJob(s.journal, i);
    assert RowChained(s, s.journal[i].id);
  }

  lemma {:induction false} EnqueueKeepsJournal(s: State, job: Job)
    requires BaseInv(s) && JournalDue(s) && job == NewJob(job.payload)
    ensures JournalDue(Apply(s, Enqueue(job)))
  {
    var t := Apply(s, Enqueue(job));
    forall i | 0 <= i < |t.journal| ensures EntryDue(t, t.journal[i]) {
      if i < |s.journal| {
        assert EntryDue(s, s.journal[i]);
        JournalIDs(s, i);
      }
    }
    forall i, k | 0 <= i < k < |t.journal| ensures PairDue(t.journal[i], t.journal[k]) {
      if k < |s.journal| { assert PairDue(s.journal[i], s.journal[k]); }
    }
  }

  lemma {:induction false} RetryEnqueue(s: State, job: Job)
    requires BaseInv(s) && RetryInv(s) && job == NewJob(job.payload)
    ensures RetryInv(Apply(s, Enqueue(job)))
  {
    var t := Apply(s, Enqueue(job));
    var w := Write(s.nextID, job.version, s.now, Inserted);
    assert s.nextID !in s.enqueued;
    forall id
      ensures Retries(t.journal, id) == Retries(s.journal, id) && DelaySum(t.journal, id) == DelaySum(s.journal, id)
    { CountsAppend(s.journal, w, id); }
    forall id | id in t.rows ensures RowRetries(t, id) {
      if id != s.nextID { assert RowRetries(s, id); }
    }
    EnqueueKeepsJournal(s, job);
    forall b | b in t.agents && HasJob(t.agents[b].pc) ensures CopyRetries(t, t.agents[b].pc) {
      assert CopyOK(s, s.agents[b].pc.job) && CopyRetries(s, s.agents[b].pc);
    }
  }

  lemma RetryStep(s: State, step: Step)
    requires BaseInv(s) && RetryInv(s) && Enabled(s, step) && DeliveryStep(s, step)
    ensures RetryInv(Apply(s, step))
  {
    var t := Apply(s, step);
    if step.Enqueue? {
      RetryEnqueue(s, step.job);
    } else if Versioned(step) {
      RetryVersioned(s, step);
    } else {
      if Local(step) { LocalShape(s, step); }
      FrameRetry(s, t);
      if Local(step) {
        RetryLocal(s, step);
      } else {
        RetryRest(s, step);
      }
    }
  }

  /** Nothing a copy relies on changes: versions and retry columns stay, time only passes. */
  lemma {:induction false} CopyKept(s: State, t: State, pc: PC)
    requires HasJob(pc) && CopyRetries(s, pc) && s.now <= t.now
    requires t.rows == s.rows || t.rows == Unlocked(s.rows)
    ensures CopyRetries(t, pc)
  {}

  lemma {:induction false} RestShape(s: State, step: Step)
    requires Enabled(s, step) && !step.Enqueue? && !Versioned(step) && !Local(step)
    ensures var t := Apply(s, step); s.now <= t.now && (t.rows == s.rows || t.rows == Unlocked(s.rows))
    ensures step.Start? || step.Find? || Apply(s, step).agents == s.agents
  {}

  lemma {:induction false} RetryRest(s: State, step: Step)
    requires AgentsRetry(s) && Enabled(s, step)
    requires !step.Enqueue? && !Versioned(step) && !Local(step)
    ensures AgentsRetry(Apply(s, step))
  {
    var t := Apply(s, step);
    RestShape(s, step);
    forall b | b in t.agents && HasJob(t.agents[b].pc) ensures CopyRetries(t, t.agents[b].pc) {
      if b in s.agents && HasJob(s.agents[b].pc) { CopyKept(s, t, s.agents[b].pc); }
    }
  }

  lemma {:induction false} RetryRun(s: State, steps: seq<Step>)
    requires BaseInv(s) && RetryInv(s) && DeliveryRun(s, steps)
    ensures Run(s, steps) && BaseInv(Final(s, steps)) && RetryInv(Final(s, steps))
    decreases |steps|
  {
    if steps != [] {
      BaseStep(s, steps[0]);
      RetryStep(s, steps[0]);
      RetryRun(Apply(s, steps[0]), steps[1..]);
    }
  }

  lemma InitRetry()
    ensures BaseInv(Init) && RetryInv(Init)
  {
    InitBase();
  }

  // ---------------------------------------------------------------- theorems, Unlock or not

  predicate AtMostOneDequeue(journal: seq<Write>, id: int) {
    forall i, j :: 0 <= i < j < |journal| && journal[i].id == id && journal[j].id == id ==> !journal[i].kind.Dequeue?
  }

  lemma {:induction false} DequeuedAtMostOnce(steps: seq<Step>, id: int)
    requires Run(Init, steps)
    ensures AtMostOneDequeue(Final(Init, steps).journal, id)
  {
    var journal := Final(Init, steps).journal;
    forall i, j | 0 <= i < j < |journal| && journal[i].id == id && journal[j].id == id
      ensures !journal[i].kind.Dequeue?
    {
      VersionConsumedOnce(steps, i, j);
    }
  }

  /** At most ten successful requeues and one successful dequeue per job; the
      delays asked for add up to at most 1023 minutes (whose nanoseconds fit an int64). */
  lemma {:induction false} RetriesBounded(steps: seq<Step>, id: int)
    requires DeliveryRun(Init, steps)
    ensures
      var s := End(steps);
      && Retries(s.journal, id) <= 10
      && AtMostOneDequeue(s.journal, id)
      && DelaySum(s.journal, id) <= 1023 * 60
      && DelaySum(s.journal, id) * 1_000_000_000 < 0x8000_0000_0000_0000
      && (id in s.rows ==> DelaySum(s.journal, id) == 60 * (Pow2(Retries(s.journal, id)) - 1))
  {
    InitRetry();
    RetryRun(Init, steps);
    DequeuedAtMostOnce(steps, id);
    var s := Final(Init, steps);
    assert id in s.rows ==> RowRetries(s, id);
  }

  /** A job requeued with retry count k is not claimed again until 2^k minutes
      after the callback asked for the retry. */
  lemma {:induction false} BackoffRespected(steps: seq<Step>, i: nat, j: nat)
    requires DeliveryRun(Init, steps)
    requires i < j < |End(steps).journal| && End(steps).journal[i].id == End(steps).journal[j].id
    requires End(steps).journal[i].kind.Requeue? && End(steps).journal[j].kind.Claim?
    ensures
      var requeue, claim := End(steps).journal[i], End(steps).journal[j];
      && 0 <= requeue.kind.attempt <= 9
      && claim.at >= requeue.kind.decidedAt + 60 * Pow2(requeue.kind.attempt)
  {
    InitRetry();
    RetryRun(Init, steps);
    var s := End(steps);
    assert EntryDue(s, s.journal[i]);
    assert PairDue(s.journal[i], s.journal[j]);
  }
}
