/** Each enqueued delivery is mailed at most once, and after a worker stores
    "delivered" for a message no worker stores that message's status again, as
    long as `Unlock` is only called while nobody holds a job and no job that was
    mailed is left in the table. */
module DeliveredOnce {
  import opened JobTable
  import opened JobQueue
  import opened QueueSafety
  import opened DeliveryRuns

  predicate OwnCopy(s: State, pc: PC)
    requires HasJob(pc)
  {
    pc.job.id in s.enqueued && pc.job.payload == s.enqueued[pc.job.id]
  }

  /** Rows and copies carry the payload their job was enqueued with, and no two jobs share one. */
  predicate Owned(s: State) {
    && (forall id :: id in s.rows ==> id in s.enqueued && s.rows[id].payload == s.enqueued[id])
    && (forall a :: a in s.agents && HasJob(s.agents[a].pc) ==> OwnCopy(s, s.agents[a].pc))
    && (forall i, j :: i in s.enqueued && j in s.enqueued && i != j ==> s.enqueued[i] != s.enqueued[j])
  }

  /** How far past the delivery an agent must be: past the mail, or past the status too. */
  predicate Past(pc: PC, stored: bool) {
    || (pc.Sent? && pc.status == Delivered && !stored)
    || (pc.Reported? && pc.status == Delivered)
    || (pc.Finishing? && !pc.job.shouldRetry)
  }

  /** Nobody can start or repeat the delivery of `id`. */
  predicate Settled(s: State, id: int, stored: bool) {
    && (id in s.rows ==> s.rows[id].workerID != "")
    && (forall a :: a in s.agents && Holds(s.agents[a].pc) && s.agents[a].pc.job.id == id ==> Past(s.agents[a].pc, stored))
  }

  /** A worker stored "delivered" for message `m`. */
  predicate StoredDelivered(statuses: seq<StatusWrite>, m: string) {
    exists i :: 0 <= i < |statuses| && statuses[i] == StatusWrite(true, m, Delivered)
  }

  predicate MailsOnce(s: State) {
    && (forall i, j :: 0 <= i < j < |s.mails| ==> s.mails[i] != s.mails[j])
    && (forall id :: id in s.mails ==> id in s.enqueued && Settled(s, id, false))
  }

  predicate StatusOnce(s: State) {
    && (forall i :: 0 <= i < |s.statuses| ==> Known(s.enqueued, s.statuses[i].message))
    && (forall i, j :: 0 <= i < j < |s.statuses| && s.statuses[i] == StatusWrite(true, s.statuses[j].message, Delivered)
          ==> !s.statuses[j].byWorker)
    && (forall id :: id in s.enqueued && StoredDelivered(s.statuses, s.enqueued[id]) ==> Settled(s, id, true))
  }

  ghost predicate Ready(s: State) {
    BaseInv(s) && Exclusive(s) && RetryInv(s) && Owned(s)
  }

  // ---------------------------------------------------------------- preservation

  lemma OwnedMove(s: State, t: State, a: nat)
    requires Owned(s) && t.enqueued == s.enqueued
    requires a in t.agents && t.agents == s.agents[a := t.agents[a]]
    requires HasJob(t.agents[a].pc) ==> OwnCopy(s, t.agents[a].pc)
    requires forall id :: id in t.rows ==> id in s.rows
    requires forall id :: id in t.rows ==> t.rows[id].payload == s.enqueued[id]
    ensures Owned(t)
  {
    forall b | b in t.agents && HasJob(t.agents[b].pc) ensures OwnCopy(t, t.agents[b].pc) {
      if b != a { assert OwnCopy(s, s.agents[b].pc); }
    }
  }

  lemma OwnedEnqueue(s: State, job: Job)
    requires BaseInv(s) && Owned(s) && job.version >= 0 && !Known(s.enqueued, job.payload)
    ensures Owned(Apply(s, Enqueue(job)))
  {
    var t := Apply(s, Enqueue(job));
    assert s.nextID !in s.enqueued;
    forall b | b in t.agents && HasJob(t.agents[b].pc) ensures OwnCopy(t, t.agents[b].pc) {
      assert OwnCopy(s, s.agents[b].pc);
    }
    forall i, j | i in t.enqueued && j in t.enqueued && i != j ensures t.enqueued[i] != t.enqueued[j] {
      if i in s.enqueued { assert Known(s.enqueued, s.enqueued[i]); }
      if j in s.enqueued { assert Known(s.enqueued, s.enqueued[j]); }
    }
  }

  lemma {:induction false} OwnedVersioned(s: State, step: Step)
    requires Owned(s) && Enabled(s, step) && Versioned(step)
    ensures Owned(Apply(s, step))
  {
    assert OwnCopy(s, s.agents[step.a].pc);
    AttemptShape(s, step);
    OwnedMove(s, Apply(s, step), step.a);
  }

  lemma {:induction false} OwnedLocal(s: State, step: Step)
    requires Owned(s) && Enabled(s, step) && DeliveryStep(s, step) && Local(step)
    ensures Owned(Apply(s, step))
  {
    LocalShape(s, step);
    if HasJob(s.agents[step.a].pc) { assert OwnCopy(s, s.agents[step.a].pc); }
    OwnedMove(s, Apply(s, step), step.a);
  }

  lemma OwnedStep(s: State, step: Step)
    requires Ready(s) && Enabled(s, step) && DeliveryStep(s, step) && !step.Unlock?
    ensures Owned(Apply(s, step))
  {
    var t := Apply(s, step);
    if Versioned(step) {
      OwnedVersioned(s, step);
    } else if Local(step) {
      OwnedLocal(s, step);
    } else if step.Enqueue? {
      OwnedEnqueue(s, step.job);
    } else if step.Find? || step.Start? {
      OwnedMove(s, t, step.a);
    } else {
      forall b | b in t.agents && HasJob(t.agents[b].pc) ensures OwnCopy(t, t.agents[b].pc) {
        assert OwnCopy(s, s.agents[b].pc);
      }
    }
  }

  /** One agent moves, no row is freed: settled jobs stay settled if the mover is not one that must be past delivery. */
  lemma SettledMove(s: State, t: State, a: nat, id: int, stored: bool)
    requires Settled(s, id, stored)
    requires a in t.agents && t.agents == s.agents[a := t.agents[a]]
    requires id in t.rows ==> t.rows[id].workerID != ""
    requires Holds(t.agents[a].pc) && t.agents[a].pc.job.id == id ==> Past(t.agents[a].pc, stored)
    ensures Settled(t, id, stored)
  {}

  /** The only attempt on a settled job that can take effect is its dequeue. */
  lemma {:induction false} SettledAttempt(s: State, step: Step, id: int, stored: bool)
    requires Copies(s) && Exclusive(s) && Enabled(s, step) && Versioned(step) && Settled(s, id, stored) && s.agents[step.a].pc.job.id == id
    ensures !HasJob(Apply(s, step).agents[step.a].pc)
    ensures Apply(s, step).rows == s.rows || id !in Apply(s, step).rows
  {
    var pc := s.agents[step.a].pc;
    assert CopyOK(s, pc.job) && HeldOK(s, pc);
  }

  lemma {:induction false} SettledVersioned(s: State, step: Step, id: int, stored: bool)
    requires Ready(s) && Enabled(s, step) && Versioned(step) && Settled(s, id, stored)
    ensures Settled(Apply(s, step), id, stored)
  {
    var t := Apply(s, step);
    var pc := s.agents[step.a].pc;
    AttemptShape(s, step);
    if pc.job.id == id { SettledAttempt(s, step, id, stored); }
    SettledMove(s, t, step.a, id, stored);
  }

  lemma SettledLocal(s: State, step: Step, id: int, stored: bool)
    requires AgentsRetry(s) && Enabled(s, step) && DeliveryStep(s, step) && Local(step) && Settled(s, id, stored)
    ensures Settled(Apply(s, step), id, stored)
  {
    var t := Apply(s, step);
    LocalShape(s, step);
    if HasJob(s.agents[step.a].pc) { assert CopyRetries(s, s.agents[step.a].pc); }
    SettledMove(s, t, step.a, id, stored);
  }

  lemma SettledStep(s: State, step: Step, id: int, stored: bool)
    requires Ready(s) && Enabled(s, step) && DeliveryStep(s, step) && !step.Unlock?
    requires Settled(s, id, stored) && id in s.enqueued
    ensures Settled(Apply(s, step), id, stored)
  {
    if Versioned(step) {
      SettledVersioned(s, step, id, stored);
    } else if Local(step) {
      SettledLocal(s, step, id, stored);
    }
  }

  /** Whoever is about to mail is the only holder, so the job was not mailed before. */
  lemma MailIsFirst(s: State, a: nat)
    requires Ready(s) && MailsOnce(s) && a in s.agents && s.agents[a].pc.Running?
    ensures
      var j := s.agents[a].pc.job;
      j.id in s.enqueued && j.id !in s.mails && Settled(Apply(s, Send(a, Delivered)), j.id, false)
  {
    assert HeldOK(s, s.agents[a].pc) && OwnCopy(s, s.agents[a].pc);
  }

  lemma MailsStep(s: State, step: Step)
    requires Ready(s) && MailsOnce(s) && Enabled(s, step) && DeliveryStep(s, step) && !step.Unlock?
    ensures MailsOnce(Apply(s, step))
  {
    var t := Apply(s, step);
    forall id | id in s.mails ensures id in t.enqueued && Settled(t, id, false) {
      SettledStep(s, step, id, false);
      EnqueuedGrows(s, step);
    }
    if step.Send? && step.status == Delivered {
      MailIsFirst(s, step.a);
      assert t.mails == s.mails + [s.agents[step.a].pc.job.id];
    } else {
      MailsKept(s, step);
    }
  }

  lemma MailsKept(s: State, step: Step)
    requires Enabled(s, step) && !(step.Send? && step.status == Delivered)
    ensures Apply(s, step).mails == s.mails
  {}

  lemma EnqueuedGrows(s: State, step: Step)
    requires Enabled(s, step)
    ensures s.enqueued.Keys <= Apply(s, step).enqueued.Keys
  {}

  /** Whoever is about to store a status finds no "delivered" of a worker there. */
  lemma StatusIsFirst(s: State, a: nat)
    requires Ready(s) && StatusOnce(s) && a in s.agents && s.agents[a].pc.Sent?
    ensures
      var pc := s.agents[a].pc;
      && OwnCopy(s, pc)
      && !StoredDelivered(s.statuses, pc.job.payload)
      && (pc.status == Delivered ==> Settled(Apply(s, Report(a, true)), pc.job.id, true))
  {
    assert HeldOK(s, s.agents[a].pc) && OwnCopy(s, s.agents[a].pc);
  }

  lemma EnqueuedKept(s: State, step: Step)
    requires Enabled(s, step) && !step.Enqueue?
    ensures Apply(s, step).enqueued == s.enqueued
  {}

  lemma {:induction false} StatusesKept(s: State, step: Step)
    requires Enabled(s, step) && !step.MarkQueued? && !(step.Report? && step.stored)
    ensures Apply(s, step).statuses == s.statuses
  {}

  lemma StatusFrame(s: State, step: Step)
    requires Ready(s) && StatusOnce(s) && Enabled(s, step) && DeliveryStep(s, step) && !step.Unlock? && !step.Enqueue?
    requires Apply(s, step).statuses == s.statuses
    ensures StatusOnce(Apply(s, step))
  {
    EnqueuedKept(s, step);
    SettledKept(s, step);
  }

  lemma StatusEnqueue(s: State, job: Job)
    requires Ready(s) && StatusOnce(s) && Enabled(s, Enqueue(job)) && DeliveryStep(s, Enqueue(job))
    ensures StatusOnce(Apply(s, Enqueue(job)))
  {
    var t := Apply(s, Enqueue(job));
    assert s.nextID !in s.enqueued;
    forall i | 0 <= i < |s.statuses| ensures Known(t.enqueued, s.statuses[i].message) {
      assert Known(s.enqueued, s.statuses[i].message);
      var id :| id in s.enqueued && s.enqueued[id] == s.statuses[i].message;
      assert t.enqueued[id] == s.statuses[i].message;
    }
    forall id | id in t.enqueued && StoredDelivered(t.statuses, t.enqueued[id]) ensures Settled(t, id, true) {
      assert Known(s.enqueued, t.enqueued[id]);
      SettledStep(s, Enqueue(job), id, true);
    }
  }

  /** A status is appended: `w` comes from the mailer, or no worker stored "delivered" for its message yet. */
  lemma StatusAppend(s: State, t: State, w: StatusWrite)
    requires StatusOnce(s) && t.statuses == s.statuses + [w] && t.enqueued == s.enqueued
    requires Known(s.enqueued, w.message)
    requires w.byWorker ==> !StoredDelivered(s.statuses, w.message)
    requires forall id :: id in s.enqueued && StoredDelivered(s.statuses, s.enqueued[id]) ==> Settled(t, id, true)
    requires forall id :: id in s.enqueued && w == StatusWrite(true, s.enqueued[id], Delivered) ==> Settled(t, id, true)
    ensures StatusOnce(t)
  {
    forall id | id in t.enqueued && StoredDelivered(t.statuses, t.enqueued[id]) ensures Settled(t, id, true) {
      var i :| 0 <= i < |t.statuses| && t.statuses[i] == StatusWrite(true, t.enqueued[id], Delivered);
      if i < |s.statuses| { assert s.statuses[i] == t.statuses[i]; }
    }
    forall i, j | 0 <= i < j < |t.statuses| && t.statuses[i] == StatusWrite(true, t.statuses[j].message, Delivered)
      ensures !t.statuses[j].byWorker
    {
      assert s.statuses[i] == t.statuses[i];
    }
  }

  lemma {:induction false} SettledKept(s: State, step: Step)
    requires Ready(s) && Enabled(s, step) && DeliveryStep(s, step) && !step.Unlock?
    requires StatusOnce(s)
    ensures forall id :: id in s.enqueued && StoredDelivered(s.statuses, s.enqueued[id]) ==> Settled(Apply(s, step), id, true)
  {
    forall id | id in s.enqueued && StoredDelivered(s.statuses, s.enqueued[id]) ensures Settled(Apply(s, step), id, true) {
      SettledStep(s, step, id, true);
    }
  }

  lemma {:induction false} StatusReport(s: State, a: nat)
    requires Ready(s) && StatusOnce(s) && Enabled(s, Report(a, true)) && DeliveryStep(s, Report(a, true))
    ensures StatusOnce(Apply(s, Report(a, true)))
  {
    var pc := s.agents[a].pc;
    SettledKept(s, Report(a, true));
    StatusIsFirst(s, a);
    StatusAppend(s, Apply(s, Report(a, true)), StatusWrite(true, pc.job.payload, pc.status));
  }

  lemma {:induction false} StatusStep(s: State, step: Step)
    requires Ready(s) && StatusOnce(s) && Enabled(s, step) && DeliveryStep(s, step) && !step.Unlock?
    ensures StatusOnce(Apply(s, step))
  {
    if step.Enqueue? {
      StatusEnqueue(s, step.job);
    } else if step.MarkQueued? {
      SettledKept(s, step);
      StatusAppend(s, Apply(s, step), StatusWrite(false, s.enqueued[step.id], Queued));
    } else if step.Report? && step.stored {
      StatusReport(s, step.a);
    } else {
      StatusesKept(s, step);
      StatusFrame(s, step);
    }
  }

  // ---------------------------------------------------------------- Unlock

  /** Nobody holds a job, and no job that was mailed or reported is left in the table. */
  predicate Swept(s: State) {
    && NobodyHolds(s)
    && forall id :: id in s.rows ==> id !in s.mails && !(id in s.enqueued && StoredDelivered(s.statuses, s.enqueued[id]))
  }

  lemma SettledAfterUnlock(s: State, id: int, stored: bool)
    requires NobodyHolds(s)
    ensures Settled(Apply(s, Unlock), id, stored) <==> id !in s.rows
  {}

  /** With nobody at work, Unlock keeps the promise of one delivery exactly when
      every job that was mailed or reported has left the table. */
  lemma UnlockKeepsOnceIff(s: State)
    requires Ready(s) && MailsOnce(s) && StatusOnce(s) && NobodyHolds(s)
    ensures MailsOnce(Apply(s, Unlock)) && StatusOnce(Apply(s, Unlock)) <==> Swept(s)
  {
    var t := Apply(s, Unlock);
    assert t.mails == s.mails && t.statuses == s.statuses && t.enqueued == s.enqueued;
    forall id, stored ensures Settled(t, id, stored) <==> id !in s.rows { SettledAfterUnlock(s, id, stored); }
  }

  lemma OwnedUnlock(s: State)
    requires Owned(s)
    ensures Owned(Apply(s, Unlock))
  {
    var t := Apply(s, Unlock);
    forall b | b in t.agents && HasJob(t.agents[b].pc) ensures OwnCopy(t, t.agents[b].pc) {
      assert OwnCopy(s, s.agents[b].pc);
    }
  }

  /** Every Unlock comes when nobody is at work and nothing delivered is left behind. */
  predicate SweptUnlocks(s: State, steps: seq<Step>)
    requires Run(s, steps)
    decreases |steps|
  {
    steps == [] || ((steps[0].Unlock? ==> Swept(s)) && SweptUnlocks(Apply(s, steps[0]), steps[1..]))
  }

  lemma {:induction false} UnlockFreeIsSwept(s: State, steps: seq<Step>)
    requires Run(s, steps) && UnlockFree(steps)
    ensures SweptUnlocks(s, steps)
    decreases |steps|
  {
    if steps != [] { UnlockFreeIsSwept(Apply(s, steps[0]), steps[1..]); }
  }

  /** All that a delivery run keeps. */
  ghost predicate OnceInv(s: State) { Ready(s) && MailsOnce(s) && StatusOnce(s) }

  lemma OnceStep(s: State, step: Step)
    requires OnceInv(s) && Enabled(s, step) && DeliveryStep(s, step) && (step.Unlock? ==> Swept(s))
    ensures OnceInv(Apply(s, step))
  {
    BaseStep(s, step);
    ExclusiveAnyStep(s, step);
    RetryStep(s, step);
    if step.Unlock? {
      OwnedUnlock(s);
      UnlockKeepsOnceIff(s);
    } else {
      OwnedStep(s, step);
      MailsStep(s, step);
      StatusStep(s, step);
    }
  }

  lemma {:induction false} OnceRun(s: State, steps: seq<Step>)
    requires OnceInv(s) && DeliveryRun(s, steps) && Run(s, steps) && SweptUnlocks(s, steps)
    ensures OnceInv(Final(s, steps))
    decreases |steps|
  {
    if steps != [] {
      OnceStep(s, steps[0]);
      OnceRun(Apply(s, steps[0]), steps[1..]);
    }
  }

  lemma InitOnce()
    ensures OnceInv(Init)
  {
    InitRetry();
  }

  // ---------------------------------------------------------------- theorems

  /** No delivery is mailed twice, and after a worker's "delivered" for a message no worker stores its status again. */
  lemma {:induction false} DeliveredAtMostOnce(steps: seq<Step>)
    requires DeliveryRun(Init, steps) && Run(Init, steps) && SweptUnlocks(Init, steps)
    ensures
      var s := End(steps);
      && (forall i, j :: 0 <= i < j < |s.mails| ==> s.mails[i] != s.mails[j])
      && (forall i, j :: 0 <= i < j < |s.statuses| && s.statuses[i] == StatusWrite(true, s.statuses[j].message, Delivered)
            ==> !s.statuses[j].byWorker)
  {
    InitOnce();
    OnceRun(Init, steps);
  }

  lemma ThenDeliver(before: seq<Step>, step: Step) returns (steps: seq<Step>)
    requires DeliveryRun(Init, before) && UnlockFree(before) && !step.Unlock?
    requires Enabled(End(before), step) && DeliveryStep(End(before), step)
    ensures DeliveryRun(Init, steps) && UnlockFree(steps) && End(steps) == Apply(End(before), step)
  {
    steps := before + [step];
    DeliveryRunIsRun(Init, before);
    DeliveryRunExtend(Init, before, step);
  }

  lemma {:induction false} DeliveryRunExtend(s: State, steps: seq<Step>, step: Step)
    requires DeliveryRun(s, steps) && Run(s, steps)
    requires Enabled(Final(s, steps), step) && DeliveryStep(Final(s, steps), step)
    ensures DeliveryRun(s, steps + [step]) && Run(s, steps + [step])
    ensures Final(s, steps + [step]) == Apply(Final(s, steps), step)
    decreases |steps|
  {
    if steps == [] {
      assert steps + [step] == [step];
    } else {
      DeliveryRunExtend(Apply(s, steps[0]), steps[1..], step);
      assert (steps + [step])[1..] == steps[1..] + [step];
    }
  }

  // ---------------------------------------------------------------- what an Unlock after a crash costs

  lemma {:induction false} RunningFirst() returns (steps: seq<Step>)
    ensures DeliveryRun(Init, steps) && UnlockFree(steps)
    ensures
      var s := End(steps);
      && s.agents == map[1 := Agent("w1", false, Running(Job(1, "w1", "m", 2, 0, 0, false)))]
      && s.rows == map[1 := Row("w1", "m", 2, 0, 0)] && s.enqueued == map[1 := "m"]
      && s.statuses == [] && s.mails == [] && s.now == 0
  {
    steps := FoundFirst();
    steps := ThenDeliver(steps, TryClaim(1));
    steps := ThenDeliver(steps, HandOff(1));
  }

  lemma {:induction false} FoundFirst() returns (steps: seq<Step>)
    ensures DeliveryRun(Init, steps) && UnlockFree(steps)
    ensures
      var s := End(steps);
      && s.agents == map[1 := Agent("w1", false, Found(Job(1, "", "m", 1, 0, 0, false)))]
      && s.rows == map[1 := Row("", "m", 1, 0, 0)] && s.enqueued == map[1 := "m"]
      && s.statuses == [] && s.mails == [] && s.now == 0
  {
    steps := ThenDeliver([], Enqueue(NewJob("m")));
    steps := ThenDeliver(steps, Start(1, "w1"));
    steps := ThenDeliver(steps, Find(1, 1));
  }

  lemma {:induction false} MailedThenGone() returns (steps: seq<Step>)
    ensures DeliveryRun(Init, steps) && UnlockFree(steps)
    ensures
      var s := End(steps);
      && s.agents == map[1 := Agent("w1", false, Gone)]
      && s.rows == map[1 := Row("w1", "m", 2, 0, 0)] && s.mails == [1] && s.now == 0
  {
    steps := RunningFirst();
    steps := ThenDeliver(steps, Send(1, Delivered));
    steps := ThenDeliver(steps, Die(1));
  }

  lemma {:induction false} MailedAndGone() returns (steps: seq<Step>)
    ensures DeliveryRun(Init, steps) && UnlockFree(steps)
    ensures
      var s := End(steps);
      && s.agents == map[1 := Agent("w1", false, Gone), 2 := Agent("w2", false, Searching)]
      && s.rows == map[1 := Row("w1", "m", 2, 0, 0)] && s.mails == [1] && s.now == 0
  {
    steps := MailedThenGone();
    steps := ThenDeliver(steps, Start(2, "w2"));
  }

  /** Nobody holds a job when the application calls Unlock at its start, but a
      worker that died between the mail and the dequeue leaves a row behind: the
      message is mailed again. */
  lemma {:induction false} UnlockAfterCrashMailsTwice() returns (steps: seq<Step>)
    ensures DeliveryRun(Init, steps) && Run(Init, steps) && QuietUnlocks(Init, steps)
    ensures End(steps).mails == [1, 1]
  {
    steps := FoundAgain();
    steps := ThenQuietly(steps, TryClaim(2));
    steps := ThenQuietly(steps, HandOff(2));
    steps := ThenQuietly(steps, Send(2, Delivered));
  }

  lemma {:induction false} UnlockedAgain() returns (steps: seq<Step>)
    ensures DeliveryRun(Init, steps) && Run(Init, steps) && QuietUnlocks(Init, steps)
    ensures
      var s := End(steps);
      && s.agents == map[1 := Agent("w1", false, Gone), 2 := Agent("w2", false, Searching)]
      && s.rows == map[1 := Row("", "m", 2, 0, 0)] && s.mails == [1] && s.now == 0
  {
    var first := MailedAndGone();
    DeliveryRunIsRun(Init, first);
    UnlockFreeIsQuiet(Init, first);
    steps := ThenQuietly(first, Unlock);
  }

  lemma {:induction false} FoundAgain() returns (steps: seq<Step>)
    ensures DeliveryRun(Init, steps) && Run(Init, steps) && QuietUnlocks(Init, steps)
    ensures
      var s := End(steps);
      && s.agents == map[1 := Agent("w1", false, Gone), 2 := Agent("w2", false, Found(Job(1, "", "m", 2, 0, 0, false)))]
      && s.rows == map[1 := Row("", "m", 2, 0, 0)] && s.mails == [1]
  {
    steps := UnlockedAgain();
    steps := ThenQuietly(steps, Find(2, 1));
  }

  lemma ThenQuietly(before: seq<Step>, step: Step) returns (steps: seq<Step>)
    requires DeliveryRun(Init, before) && Run(Init, before) && QuietUnlocks(Init, before)
    requires Enabled(End(before), step) && DeliveryStep(End(before), step) && (step.Unlock? ==> NobodyHolds(End(before)))
    ensures DeliveryRun(Init, steps) && Run(Init, steps) && QuietUnlocks(Init, steps) && End(steps) == Apply(End(before), step)
  {
    steps := before + [step];
    DeliveryRunExtend(Init, before, step);
    QuietExtend(Init, before, step);
  }
}
