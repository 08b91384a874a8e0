/** The status a message ends with.  Mailer.Deliver enqueues a job before it
    stores "queued" for the message, outside the transaction that does so; a
    worker may be faster. */
module DeliveryStatus {
  import opened JobQueue
  import opened DeliveryRuns
  import opened DeliveredOnce

  /** The status stored last for a message. */
  function LastStatus(statuses: seq<StatusWrite>, m: string): Status {
    if statuses == [] then Queued
    else if statuses[|statuses| - 1].message == m then statuses[|statuses| - 1].status
    else LastStatus(statuses[..|statuses| - 1], m)
  }

  lemma {:induction false} LastStatusAfter(statuses: seq<StatusWrite>, i: nat, m: string)
    requires i < |statuses| && statuses[i] == StatusWrite(true, m, Delivered)
    requires forall j :: i < j < |statuses| && statuses[j].message == m ==> statuses[j].status == Queued
    ensures LastStatus(statuses, m) == Delivered <==> forall j :: i < j < |statuses| ==> statuses[j].message != m
  {
    var n := |statuses| - 1;
    if i < n && statuses[n].message != m {
      LastStatusAfter(statuses[..n], i, m);
      if LastStatus(statuses, m) == Delivered {
        forall j | i < j < |statuses| ensures statuses[j].message != m {
          if j < n { assert statuses[..n][j].message != m; }
        }
      }
    }
  }

  // ---------------------------------------------------------------- who writes what

  /** The mailer wrote "queued" for `m` behind the first `from` entries. */
  predicate QueuedFrom(statuses: seq<StatusWrite>, from: nat, m: string) {
    exists j :: from <= j < |statuses| && statuses[j] == StatusWrite(false, m, Queued)
  }

  predicate Marks(steps: seq<Step>, id: int) {
    exists k :: 0 <= k < |steps| && steps[k] == MarkQueued(id)
  }

  /** What one step adds to the statuses. */
  lemma StatusesGrow(s: State, step: Step)
    requires Enabled(s, step)
    ensures s.statuses <= Apply(s, step).statuses
    ensures !step.MarkQueued? ==>
      forall j :: |s.statuses| <= j < |Apply(s, step).statuses| ==> Apply(s, step).statuses[j].byWorker
    ensures step.MarkQueued? ==> Apply(s, step).statuses == s.statuses + [StatusWrite(false, s.enqueued[step.id], Queued)]
  {}

  lemma {:induction false} StatusesOnlyGrow(s: State, steps: seq<Step>)
    requires Run(s, steps)
    ensures s.statuses <= Final(s, steps).statuses
    decreases |steps|
  {
    if steps != [] {
      StatusesGrow(s, steps[0]);
      StatusesOnlyGrow(Apply(s, steps[0]), steps[1..]);
    }
  }

  lemma {:induction false} EnqueuedStays(s: State, step: Step, id: int)
    requires BaseInv(s) && Enabled(s, step) && id in s.enqueued
    ensures id in Apply(s, step).enqueued && Apply(s, step).enqueued[id] == s.enqueued[id]
  {
    if !step.Enqueue? { EnqueuedKept(s, step); }
  }

  lemma MarksSplit(steps: seq<Step>, id: int)
    requires steps != []
    ensures Marks(steps, id) <==> steps[0] == MarkQueued(id) || Marks(steps[1..], id)
  {
    if Marks(steps[1..], id) {
      var k :| 0 <= k < |steps[1..]| && steps[1..][k] == MarkQueued(id);
      assert steps[k + 1] == MarkQueued(id);
    }
    if Marks(steps, id) && steps[0] != MarkQueued(id) {
      var k :| 0 <= k < |steps| && steps[k] == MarkQueued(id);
      assert steps[1..][k - 1] == MarkQueued(id);
    }
  }

  /** The mailer's write appears exactly when its step is taken. */
  lemma {:induction false} MarksAreWrites(s: State, steps: seq<Step>, id: int)
    requires OnceInv(s) && DeliveryRun(s, steps) && Run(s, steps) && SweptUnlocks(s, steps) && id in s.enqueued
    ensures QueuedFrom(Final(s, steps).statuses, |s.statuses|, s.enqueued[id]) <==> Marks(steps, id)
    decreases |steps|
  {
    if steps != [] {
      var t := Apply(s, steps[0]);
      OnceStep(s, steps[0]);
      EnqueuedStays(s, steps[0], id);
      MarkIsWrite(s, steps[0], id);
      StatusesOnlyGrow(t, steps[1..]);
      MarksSplit(steps, id);
      MarksAreWrites(t, steps[1..], id);
      QueuedSplit(s.statuses, t.statuses, Final(t, steps[1..]).statuses, s.enqueued[id]);
    }
  }

  lemma MarkIsWrite(s: State, step: Step, id: int)
    requires Owned(s) && Enabled(s, step) && id in s.enqueued
    ensures s.statuses <= Apply(s, step).statuses
    ensures QueuedFrom(Apply(s, step).statuses, |s.statuses|, s.enqueued[id]) <==> step == MarkQueued(id)
  {
    StatusesGrow(s, step);
    if step.MarkQueued? {
      assert Apply(s, step).statuses[|s.statuses|] == StatusWrite(false, s.enqueued[step.id], Queued);
    }
  }

  lemma QueuedSplit(before: seq<StatusWrite>, middle: seq<StatusWrite>, after: seq<StatusWrite>, m: string)
    requires before <= middle <= after
    ensures QueuedFrom(after, |before|, m) <==> QueuedFrom(middle, |before|, m) || QueuedFrom(after, |middle|, m)
  {
    if QueuedFrom(middle, |before|, m) {
      var j :| |before| <= j < |middle| && middle[j] == StatusWrite(false, m, Queued);
      assert after[j] == middle[j];
    }
    if QueuedFrom(after, |before|, m) && !QueuedFrom(after, |middle|, m) {
      var j :| |before| <= j < |after| && after[j] == StatusWrite(false, m, Queued);
      assert middle[j] == after[j];
    }
  }

  /** The mailer's own writes are "queued". */
  predicate MailerQueues(s: State) {
    forall i :: 0 <= i < |s.statuses| && !s.statuses[i].byWorker ==> s.statuses[i].status == Queued
  }

  lemma {:induction false} MailerQueuesRun(s: State, steps: seq<Step>)
    requires MailerQueues(s) && Run(s, steps)
    ensures MailerQueues(Final(s, steps))
    decreases |steps|
  {
    if steps != [] { MailerQueuesRun(Apply(s, steps[0]), steps[1..]); }
  }

  // ---------------------------------------------------------------- splitting a run

  lemma {:induction false} SplitRun(s: State, first: seq<Step>, rest: seq<Step>)
    requires DeliveryRun(s, first + rest) && Run(s, first + rest) && SweptUnlocks(s, first + rest)
    ensures DeliveryRun(s, first) && Run(s, first) && SweptUnlocks(s, first)
    ensures
      var t := Final(s, first);
      DeliveryRun(t, rest) && Run(t, rest) && SweptUnlocks(t, rest) && Final(t, rest) == Final(s, first + rest)
    decreases |first|
  {
    if first == [] {
      assert first + rest == rest;
    } else {
      assert (first + rest)[1..] == first[1..] + rest;
      SplitRun(Apply(s, first[0]), first[1..], rest);
    }
  }

  // ---------------------------------------------------------------- theorems

  /** Agent `a` stores "delivered" for job `id` in the step after `before`. */
  predicate StoresDelivered(before: seq<Step>, a: nat, id: int)
    requires Run(Init, before)
  {
    var s := Final(Init, before);
    a in s.agents && s.agents[a].pc.Sent? && s.agents[a].pc.status == Delivered && s.agents[a].pc.job.id == id
  }

  /** In the order of the steps: a message that a worker stored as "delivered" ends
      "delivered" exactly when the mailer's write for it does not come after the
      worker's. */
  lemma {:induction false} EndsDeliveredIff(before: seq<Step>, a: nat, id: int, after: seq<Step>)
    requires
      var steps := before + [Report(a, true)] + after;
      DeliveryRun(Init, steps) && Run(Init, steps) && SweptUnlocks(Init, steps)
    requires Run(Init, before) && StoresDelivered(before, a, id)
    ensures
      var s := Final(Init, before + [Report(a, true)] + after);
      id in s.enqueued && (LastStatus(s.statuses, s.enqueued[id]) == Delivered <==> !Marks(after, id))
  {
    ReportInRun(before, a, after);
    var s, t := Final(Init, before), Final(Init, before + [Report(a, true)]);
    ReportStores(s, a, id);
    EndsDelivered(t, after, id, |s.statuses|);
    MarksAreWrites(t, after, id);
  }

  /** The run around the worker's write. */
  lemma {:induction false} ReportInRun(before: seq<Step>, a: nat, after: seq<Step>)
    requires
      var steps := before + [Report(a, true)] + after;
      DeliveryRun(Init, steps) && Run(Init, steps) && SweptUnlocks(Init, steps)
    ensures Run(Init, before) && Run(Init, before + [Report(a, true)])
    ensures
      var s, t := Final(Init, before), Final(Init, before + [Report(a, true)]);
      && OnceInv(s) && Enabled(s, Report(a, true)) && t == Apply(s, Report(a, true)) && OnceInv(t) && MailerQueues(t)
      && DeliveryRun(t, after) && Run(t, after) && SweptUnlocks(t, after)
      && Final(t, after) == Final(Init, before + [Report(a, true)] + after)
  {
    var reported := before + [Report(a, true)];
    SplitRun(Init, reported, after);
    SplitRun(Init, before, [Report(a, true)]);
    InitOnce();
    OnceRun(Init, before);
    OnceRun(Init, reported);
    MailerQueuesRun(Init, reported);
  }

  lemma ReportStores(s: State, a: nat, id: int)
    requires OnceInv(s) && a in s.agents && s.agents[a].pc.Sent? && s.agents[a].pc.status == Delivered
    requires s.agents[a].pc.job.id == id
    ensures
      var t := Apply(s, Report(a, true));
      id in t.enqueued && t.statuses == s.statuses + [StatusWrite(true, t.enqueued[id], Delivered)]
  {
    StatusIsFirst(s, a);
  }

  lemma {:induction false} EndsDelivered(t: State, after: seq<Step>, id: int, i: nat)
    requires OnceInv(t) && DeliveryRun(t, after) && Run(t, after) && SweptUnlocks(t, after) && MailerQueues(t)
    requires id in t.enqueued && i + 1 == |t.statuses| && t.statuses[i] == StatusWrite(true, t.enqueued[id], Delivered)
    ensures
      var u := Final(t, after);
      && id in u.enqueued && u.enqueued[id] == t.enqueued[id]
      && (LastStatus(u.statuses, t.enqueued[id]) == Delivered <==> !QueuedFrom(u.statuses, |t.statuses|, t.enqueued[id]))
  {
    var u, m := Final(t, after), t.enqueued[id];
    OnceRun(t, after);
    StatusesOnlyGrow(t, after);
    EnqueuedKeptBy(t, after, id);
    MailerQueuesRun(t, after);
    assert u.statuses[i] == t.statuses[i];
    forall j | i < j < |u.statuses| && u.statuses[j].message == m
      ensures u.statuses[j] == StatusWrite(false, m, Queued)
    { assert u.statuses[i] == StatusWrite(true, u.statuses[j].message, Delivered); }
    LastStatusAfter(u.statuses, i, m);
  }

  lemma {:induction false} EnqueuedKeptBy(s: State, steps: seq<Step>, id: int)
    requires BaseInv(s) && Run(s, steps) && id in s.enqueued
    ensures id in Final(s, steps).enqueued && Final(s, steps).enqueued[id] == s.enqueued[id]
    decreases |steps|
  {
    if steps != [] {
      BaseStep(s, steps[0]);
      EnqueuedStays(s, steps[0], id);
      EnqueuedKeptBy(Apply(s, steps[0]), steps[1..], id);
    }
  }

  /** The race: the job is enqueued before the status row is written, so a fast
      worker's "delivered" can be overwritten by "queued". */
  lemma {:induction false} QueuedOverwritesDelivered() returns (steps: seq<Step>)
    ensures DeliveryRun(Init, steps) && UnlockFree(steps)
    ensures End(steps).statuses == [StatusWrite(true, "m", Delivered), StatusWrite(false, "m", Queued)]
    ensures LastStatus(End(steps).statuses, "m") == Queued
  {
    steps := RunningFirst();
    steps := ThenDeliver(steps, Send(1, Delivered));
    steps := ThenDeliver(steps, Report(1, true));
    steps := ThenDeliver(steps, MarkQueued(1));
  }
}
