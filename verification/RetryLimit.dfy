/** The bounds on a delivery's retries are reached: a delivery that always fails is
    tried eleven times, backed off ten times, and then given up. */
module RetryLimit {
  import opened JobTable
  import opened JobQueue
  import opened QueueSafety
  import opened DeliveryRuns
  import opened DeliveredOnce

  /** Job 1 waits in the table after `k` failed deliveries, each by an agent of its own. */
  predicate Waits(s: State, k: nat) {
    && s.rows.Keys == {1}
    && s.rows[1] == Row("", "m", 1 + 2 * k, k, s.rows[1].activeAt)
    && s.enqueued == map[1 := "m"] && s.mails == []
    && forall a :: a in s.agents ==> a < k
  }

  /** Agent `k` runs the delivery of job 1 for the (k+1)st time. */
  predicate Runs(s: State, k: nat) {
    && s.rows.Keys == {1}
    && s.rows[1] == Row("w", "m", 2 + 2 * k, k, s.rows[1].activeAt)
    && s.enqueued == map[1 := "m"] && s.mails == []
    && (forall a :: a in s.agents ==> a <= k) && k in s.agents
    && s.agents[k] == Agent("w", false, Running(Job(1, "w", "m", 2 + 2 * k, k, s.rows[1].activeAt, false)))
  }

  lemma {:induction false} Looks(before: seq<Step>, k: nat) returns (steps: seq<Step>)
    requires DeliveryRun(Init, before) && UnlockFree(before) && Waits(End(before), k)
    ensures DeliveryRun(Init, steps) && UnlockFree(steps)
    ensures
      var s, t := End(before), End(steps);
      && s.rows[1].activeAt <= t.now && t == s.(now := t.now, agents := s.agents[k := Agent("w", false, Searching)])
  {
    var s := End(before);
    steps := ThenDeliver(before, Tick(if s.now < s.rows[1].activeAt then s.rows[1].activeAt else s.now));
    steps := ThenDeliver(steps, Start(k, "w"));
  }

  lemma {:induction false} Begins(before: seq<Step>, k: nat) returns (steps: seq<Step>)
    requires DeliveryRun(Init, before) && UnlockFree(before) && Waits(End(before), k)
    ensures DeliveryRun(Init, steps) && UnlockFree(steps) && Runs(End(steps), k)
  {
    steps := Looks(before, k);
    steps := ThenDeliver(steps, Find(k, 1));
    steps := ThenDeliver(steps, TryClaim(k));
    steps := ThenDeliver(steps, HandOff(k));
  }

  /** The delivery fails, and the callback has returned `job`. */
  lemma {:induction false} Fails(before: seq<Step>, k: nat) returns (steps: seq<Step>)
    requires DeliveryRun(Init, before) && UnlockFree(before) && Runs(End(before), k)
    ensures DeliveryRun(Init, steps) && UnlockFree(steps)
    ensures
      var s, t := End(before), End(steps);
      var job := Backoff(s.agents[k].pc.job, s.now);
      && t.rows == s.rows && t.enqueued == s.enqueued && t.mails == s.mails && t.now == s.now && t.journal == s.journal
      && t.agents == s.agents[k := Agent("w", false, Finishing(job, s.now))]
  {
    steps := ThenDeliver(before, Send(k, Failed));
    steps := ThenDeliver(steps, Report(k, true));
    steps := ThenDeliver(steps, Return(k, Backoff(End(before).agents[k].pc.job, End(before).now)));
  }

  /** One failure more: below ten the job waits again. */
  lemma {:induction false} Round(before: seq<Step>, k: nat) returns (steps: seq<Step>)
    requires DeliveryRun(Init, before) && UnlockFree(before) && Waits(End(before), k) && k < 10
    ensures DeliveryRun(Init, steps) && UnlockFree(steps) && Waits(End(steps), k + 1)
  {
    steps := Begins(before, k);
    steps := Fails(steps, k);
    steps := ThenDeliver(steps, Finish(k));
  }

  lemma {:induction false} Rounds(k: nat) returns (steps: seq<Step>)
    requires k <= 10
    ensures DeliveryRun(Init, steps) && UnlockFree(steps) && Waits(End(steps), k)
  {
    if k == 0 {
      steps := ThenDeliver([], Enqueue(NewJob("m")));
    } else {
      steps := Rounds(k - 1);
      steps := Round(steps, k - 1);
    }
  }

  lemma {:induction false} TenCounted(steps: seq<Step>)
    requires DeliveryRun(Init, steps) && 1 in End(steps).rows && End(steps).rows[1].retryCount == 10
    ensures Retries(End(steps).journal, 1) == 10 && DelaySum(End(steps).journal, 1) == 1023 * 60
  {
    InitRetry();
    RetryRun(Init, steps);
    assert RowRetries(End(steps), 1);
    assert Pow2(10) == 1024 by { assert Pow2(5) == 32; }
  }

  /** Ten failures: the job was requeued ten times, with 1023 minutes of back-off in all, and is still there. */
  lemma {:induction false} TenRetriesAreMade() returns (steps: seq<Step>)
    ensures DeliveryRun(Init, steps) && UnlockFree(steps)
    ensures
      var s := End(steps);
      && 1 in s.rows && s.rows[1].retryCount == 10 && s.rows[1].workerID == "" && s.mails == []
      && Retries(s.journal, 1) == 10 && DelaySum(s.journal, 1) == 1023 * 60
  {
    steps := Rounds(10);
    TenCounted(steps);
  }

  /** The eleventh failure: the job is dequeued, and its message was never mailed. */
  lemma {:induction false} EleventhFailureGivesUp() returns (steps: seq<Step>)
    ensures DeliveryRun(Init, steps) && UnlockFree(steps)
    ensures
      var s := End(steps);
      && s.rows == map[] && s.mails == [] && s.journal != [] && s.journal[|s.journal| - 1].kind == Dequeue
      && Retries(s.journal, 1) == 10 && DelaySum(s.journal, 1) == 1023 * 60
  {
    var last := Rounds(10);
    last := Begins(last, 10);
    TenCounted(last);
    last := Fails(last, 10);
    steps := ThenDeliver(last, Finish(10));
    var w := Write(1, 22, End(last).now, Dequeue);
    assert End(steps).journal == End(last).journal + [w];
    CountsAppend(End(last).journal, w, 1);
  }
}
