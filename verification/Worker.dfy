/** The worker as it is written: loops and calls on a shared table, with the
    other processes moving between any two statements.  Every execution is a run
    of the transition system, so what is proved of all runs holds of this code.

    The other processes' moves are given by a schedule: at each point where they
    may move, the next entry of the schedule is played.  A worker whose schedule
    ends is killed there. */
module Worker {
  import opened JobTable
  import opened JobQueue
  import opened QueueSafety
  import opened DeliveryRuns
  import opened DeliveredOnce
  import opened Options

  type Schedule = seq<seq<Step>>

  /** A step of agent `a`'s own. */
  predicate Own(step: Step, a: nat) {
    match step
    case Enqueue(_) => false
    case MarkQueued(_) => false
    case Unlock => false
    case Tick(_) => false
    case _ => step.a == a
  }

  lemma {:induction false} OthersLeaveAlone(s: State, step: Step, a: nat)
    requires Enabled(s, step) && !Own(step, a)
    ensures a in s.agents ==> a in Apply(s, step).agents && Apply(s, step).agents[a] == s.agents[a]
    ensures a !in s.agents ==> a !in Apply(s, step).agents
  {}

  lemma {:induction false} MailsGrow(s: State, step: Step)
    requires Enabled(s, step)
    ensures s.mails <= Apply(s, step).mails
  {}

  /** A reserving goroutine whose Perform was halted: it may still claim a job, and
      strand it, but it never gets to run it. */
  predicate Orphaned(s: State, a: nat) {
    && a in s.agents && s.agents[a].halted
    && var pc := s.agents[a].pc;
       pc.Searching? || pc.Found? || pc.Claimed? || pc.Releasing? || pc.Gone?
  }

  lemma OrphanStays(s: State, step: Step, a: nat)
    requires Orphaned(s, a) && Enabled(s, step)
    ensures Orphaned(Apply(s, step), a)
  {
    if !Own(step, a) { OthersLeaveAlone(s, step, a); }
  }

  /** What Deliver meets on its way. */
  datatype Circumstances = Circumstances(
    unmarshals: bool, receiptsStored: bool, hasEmail: bool, tokenLoads: bool, userLoads: bool,
    shouldDeliver: bool, packs: bool, connects: bool, sends: bool, statusStored: bool)

  /** Deliver gets as far as the decision whether to deliver. */
  predicate Prepared(c: Circumstances) {
    c.unmarshals && c.receiptsStored && (c.hasEmail || (c.tokenLoads && c.userLoads))
  }

  function SendStatus(c: Circumstances): Status {
    if !c.packs then Failed else if !c.connects then Unavailable else if !c.sends then Failed else Delivered
  }

  /** The job is left alone, to be dequeued: delivered, or not wanted. */
  predicate Settles(c: Circumstances) {
    Prepared(c) && (!c.shouldDeliver || SendStatus(c) == Delivered)
  }

  /** The last write consumed the version of `job`: it requeued the job exactly
      when the delivery neither succeeded nor was unwanted and a retry was left. */
  predicate EndsWith(journal: seq<Write>, job: Job, c: Circumstances) {
    && journal != []
    && var w := journal[|journal| - 1];
       && w.id == job.id && w.base == job.version
       && (w.kind.Requeue? <==> !Settles(c) && job.retryCount < 10)
       && (w.kind.Dequeue? <==> Settles(c) || job.retryCount >= 10)
  }

  /** Deliver found out that the message is not wanted. */
  predicate Unwanted(c: Circumstances) {
    c.unmarshals && c.receiptsStored && (c.hasEmail || (c.tokenLoads && c.userLoads)) && !c.shouldDeliver
  }

  datatype Ending = Done | Halted | Released | Killed | Panicked

  /** gobble.Job behind the pointer that the callback is given. */
  class JobRef {
    var job: Job

    constructor (job: Job)
      ensures this.job == job
    {
      this.job := job;
    }

    /** Job.Retry */
    method Retry(now: int, duration: int)
      modifies this
      ensures job == Retried(old(job), now, duration)
      ensures job == old(job).(workerID := "", retryCount := old(job).retryCount + 1, activeAt := now + duration, shouldRetry := true)
    {
      job := job.(workerID := "");
      job := job.(retryCount := job.retryCount + 1);
      job := job.(activeAt := now + duration);
      job := job.(shouldRetry := true);
    }

    /** DeliveryWorker.retry */
    method ScheduleRetry(now: int)
      modifies this
      ensures job == Backoff(old(job), now)
      ensures job.id == old(job).id && job.version == old(job).version && job.payload == old(job).payload
      ensures job == old(job) <==> old(job).retryCount >= 10
      ensures old(job).retryCount < 10 ==>
        && job.shouldRetry && job.workerID == "" && job.retryCount == old(job).retryCount + 1
        && (old(job).retryCount >= 0 ==> job.activeAt == now + 60 * Pow2(old(job).retryCount))
    {
      if job.retryCount < MAX_RETRIES { Retry(now, 60 * Delay(job.retryCount)); }
    }
  }

  class World {
    var s: State
    ghost var steps: seq<Step>

    ghost predicate Valid()
      reads this
    {
      DeliveryRun(Init, steps) && s == End(steps)
    }

    constructor ()
      ensures Valid() && steps == []
    {
      s, steps := Init, [];
    }

    /** One atomic step. */
    method Do(step: Step)
      requires Valid() && Enabled(s, step) && DeliveryStep(s, step)
      modifies this
      ensures Valid() && s == Apply(old(s), step) && steps == old(steps) + [step]
    {
      DeliveryRunIsRun(Init, steps);
      DeliveryRunExtend(Init, steps, step);
      s := Apply(s, step);
      steps := steps + [step];
    }

    /** The other processes move. */
    method Others(a: nat, moves: seq<Step>)
      requires Valid()
      modifies this
      ensures Valid() && old(steps) <= steps
      ensures (a in old(s).agents <==> a in s.agents) && (a in s.agents ==> s.agents[a] == old(s).agents[a])
      ensures old(s).mails <= s.mails
    {
      for i := 0 to |moves|
        invariant Valid() && old(steps) <= steps && old(s).mails <= s.mails
        invariant (a in old(s).agents <==> a in s.agents) && (a in s.agents ==> s.agents[a] == old(s).agents[a])
      {
        if !Own(moves[i], a) && Enabled(s, moves[i]) && DeliveryStep(s, moves[i]) {
          OthersLeaveAlone(s, moves[i], a);
          MailsGrow(s, moves[i]);
          Do(moves[i]);
        }
      }
    }

    predicate AtPC(a: nat, pc: PC)
      reads this
    {
      a in s.agents && s.agents[a].pc == pc
    }

    // ------------------------------------------ Queue.findJob, updateJob and reserve

    /** findJob: polls until a row is free and due. */
    method FindJob(a: nat, schedule: Schedule) returns (found: bool, job: Job, rest: Schedule)
      requires Valid() && AtPC(a, Searching)
      modifies this
      ensures Valid() && old(steps) <= steps && |rest| <= |schedule|
      ensures a in s.agents && s.agents[a] == old(s).agents[a].(pc := s.agents[a].pc)
      ensures if found then AtPC(a, Found(job)) && |rest| < |schedule| else AtPC(a, Searching) && rest == []
      ensures found ==>
        && job.id in s.rows && s.rows[job.id] == Row("", job.payload, job.version, job.retryCount, job.activeAt)
        && job.activeAt <= s.now && !job.shouldRetry
    {
      rest := schedule;
      job := NewJob("");
      while rest != []
        invariant Valid() && old(steps) <= steps && |rest| <= |schedule| && AtPC(a, Searching)
        invariant s.agents[a] == old(s).agents[a]
        decreases |rest|
      {
        Others(a, rest[0]);
        rest := rest[1..];
        if id :| id in s.rows && Available(s.rows[id], s.now) {
          job := Load(id, s.rows[id]);
          Do(Find(a, id));
          return true, job, rest;
        }
      }
      found := false;
    }

    /** reserve: find a row, try to claim it, and start over if somebody was faster. */
    method Reserve(a: nat, schedule: Schedule) returns (reserved: bool, job: Job, rest: Schedule)
      requires Valid() && AtPC(a, Searching)
      modifies this
      ensures Valid() && old(steps) <= steps && |rest| <= |schedule|
      ensures a in s.agents && s.agents[a] == old(s).agents[a].(pc := s.agents[a].pc)
      ensures if reserved then AtPC(a, Claimed(job)) else rest == [] && (s.agents[a].pc.Searching? || s.agents[a].pc.Found?)
      ensures reserved ==>
        && job.workerID == s.agents[a].workerID && !job.shouldRetry
        && job.id in s.rows && s.rows[job.id] == Row(job.workerID, job.payload, job.version, job.retryCount, job.activeAt)
    {
      rest, job, reserved := schedule, NewJob(""), false;
      while rest != []
        invariant Valid() && old(steps) <= steps && |rest| <= |schedule| && AtPC(a, Searching)
        invariant s.agents[a] == old(s).agents[a]
        decreases |rest|
      {
        var found: bool;
        found, job, rest := FindJob(a, rest);
        if !found || rest == [] { return; }
        Others(a, rest[0]);
        rest := rest[1..];
        job := job.(workerID := s.agents[a].workerID);
        CopyIsLoaded(a);
        var outcome := CasUpdate(s.rows, job);
        Do(TryClaim(a));
        if outcome.Written? { return true, outcome.job, rest; }
      }
    }

    /** A copy that an agent holds was loaded from the table. */
    lemma CopyIsLoaded(a: nat)
      requires Valid() && a in s.agents && HasJob(s.agents[a].pc)
      ensures s.agents[a].pc.job.version >= 1
    {
      InitRetry();
      RetryRun(Init, steps);
      assert CopyOK(s, s.agents[a].pc.job);
    }

    /** Perform has returned; the goroutine that reserves goes on, as any process may. */
    method LeaveBehind(a: nat, schedule: Schedule)
      requires Valid() && a in s.agents
      requires s.agents[a].pc.Searching? || s.agents[a].pc.Found? || s.agents[a].pc.Claimed?
      modifies this
      ensures Valid() && old(steps) <= steps && Orphaned(s, a)
    {
      Do(Halt(a));
      for i := 0 to |schedule|
        invariant Valid() && old(steps) <= steps && Orphaned(s, a)
      {
        for j := 0 to |schedule[i]|
          invariant Valid() && old(steps) <= steps && Orphaned(s, a)
        {
          if Enabled(s, schedule[i][j]) && DeliveryStep(s, schedule[i][j]) {
            OrphanStays(s, schedule[i][j], a);
            Do(schedule[i][j]);
          }
        }
      }
    }

    /** The process dies. */
    method Kill(a: nat)
      requires Valid() && a in s.agents
      modifies this
      ensures Valid() && steps == old(steps) + [Die(a)] && AtPC(a, Gone)
    {
      Do(Die(a));
    }

    /** The queue was closed: the claim is given back, and an error is ignored.  If
        the copy is still current the job is free again with its columns as they
        were, and it is unless an Unlock came while somebody held a job. */
    method Release(a: nat, job: Job, moves: seq<Step>) returns (written: bool)
      requires Valid() && AtPC(a, Claimed(job))
      modifies this
      ensures Valid() && old(steps) <= steps && AtPC(a, Gone)
      ensures written ==>
        && job.id in s.rows && s.rows[job.id] == Row("", job.payload, job.version + 1, job.retryCount, job.activeAt)
        && s.rows[job.id].activeAt <= s.now
        && s.journal != [] && s.journal[|s.journal| - 1] == Write(job.id, job.version, s.now, JobQueue.Release)
      ensures !written ==> job.id !in s.rows || s.rows[job.id].version != job.version
      ensures !written ==> Run(Init, steps) && !QuietUnlocks(Init, steps)
    {
      Do(SeeClosed(a));
      Others(a, moves);
      ReleaseKnown(a);
      written := CasUpdate(s.rows, job.(workerID := "")).Written?;
      ghost var before := steps;
      Do(TryRelease(a));
      DeliveryRunIsRun(Init, steps);
      QuietExtend(Init, before, TryRelease(a));
    }

    /** What holds just before a release. */
    lemma ReleaseKnown(a: nat)
      requires Valid() && a in s.agents && s.agents[a].pc.Releasing?
      ensures Run(Init, steps) && s.agents[a].pc.job.version >= 1
      ensures QuietUnlocks(Init, steps) ==> Matches(s.rows, s.agents[a].pc.job)
      ensures Matches(s.rows, s.agents[a].pc.job) ==> s.agents[a].pc.job.activeAt <= s.now
    {
      CopyIsLoaded(a);
      DeliveryRunIsRun(Init, steps);
      if QuietUnlocks(Init, steps) { AtMostOneHolder(steps, a, a); }
      InitRetry();
      RetryRun(Init, steps);
      assert CopyRetries(s, s.agents[a].pc);
    }

    // ------------------------------------------ DeliveryWorker.Deliver

    /** pack and sendMail: what comes of it. */
    static method TrySending(c: Circumstances) returns (status: Status)
      ensures status == SendStatus(c)
      ensures status == Delivered <==> c.packs && c.connects && c.sends
      ensures status == Unavailable <==> c.packs && !c.connects
      ensures status == Failed <==> !c.packs || (c.connects && !c.sends)
    {
      if !c.packs {
        status := Failed;
      } else if !c.connects {
        status := Unavailable;
      } else if !c.sends {
        status := Failed;
      } else {
        status := Delivered;
      }
    }

    /** deliver: send, then store the status. */
    method SendMail(a: nat, job: Job, c: Circumstances, schedule: Schedule) returns (status: Status, rest: Schedule, alive: bool)
      requires Valid() && AtPC(a, Running(job))
      modifies this
      ensures Valid() && old(steps) <= steps && |rest| <= |schedule| && status == SendStatus(c)
      ensures status == Delivered <==> c.packs && c.connects && c.sends
      ensures status == Delivered ==> job.id in s.mails
      ensures if alive then AtPC(a, Reported(job, status)) else a in s.agents && rest == []
    {
      rest, alive := schedule, false;
      status := TrySending(c);
      Do(Send(a, status));
      if rest == [] { return; }
      alive := true;
      Store(a, job, status, c, rest[0]);
      rest := rest[1..];
    }

    /** updateMessageStatus, which may fail unnoticed. */
    method Store(a: nat, job: Job, status: Status, c: Circumstances, moves: seq<Step>)
      requires Valid() && AtPC(a, Sent(job, status)) && (status == Delivered ==> job.id in s.mails)
      modifies this
      ensures Valid() && old(steps) <= steps && AtPC(a, Reported(job, status))
      ensures status == Delivered ==> job.id in s.mails
      ensures c.statusStored ==> s.statuses != [] && s.statuses[|s.statuses| - 1] == StatusWrite(true, job.payload, status)
    {
      Others(a, moves);
      assert status == Delivered ==> job.id in s.mails by {
        if k :| 0 <= k < |old(s).mails| && old(s).mails[k] == job.id { assert s.mails[k] == job.id; }
      }
      Do(Report(a, c.statusStored));
    }

    /** Deliver: every failure on the way schedules a retry; a job that is
        delivered or not wanted is left as it was. */
    method Deliver(a: nat, ref: JobRef, c: Circumstances, schedule: Schedule) returns (rest: Schedule, alive: bool)
      requires Valid() && AtPC(a, Running(ref.job))
      modifies this, ref
      ensures Valid() && old(steps) <= steps && |rest| <= |schedule|
      ensures !alive ==> a in s.agents && rest == []
      ensures alive ==>
        && ref.job == (if Settles(c) then old(ref.job) else Backoff(old(ref.job), s.now))
        && AtPC(a, if Prepared(c) && c.shouldDeliver then Reported(old(ref.job), SendStatus(c)) else Running(old(ref.job)))
      ensures alive && !ref.job.shouldRetry ==> old(ref.job).id in s.mails || Unwanted(c) || old(ref.job).retryCount >= 10 || old(ref.job).shouldRetry
      ensures alive && Unwanted(c) ==> ref.job == old(ref.job)
      ensures alive && !(c.unmarshals && c.receiptsStored && (c.hasEmail || (c.tokenLoads && c.userLoads))) && old(ref.job).retryCount < 10
        ==> ref.job.shouldRetry && AtPC(a, Running(old(ref.job)))
      ensures alive && c.unmarshals && c.receiptsStored && (c.hasEmail || (c.tokenLoads && c.userLoads)) && c.shouldDeliver ==>
        if c.packs && c.connects && c.sends then ref.job == old(ref.job) && AtPC(a, Reported(old(ref.job), Delivered))
        else (old(ref.job).retryCount < 10 ==> ref.job.shouldRetry) && a in s.agents && s.agents[a].pc.Reported?
    {
      rest, alive := schedule, true;
      if !c.unmarshals || !c.receiptsStored { ref.ScheduleRetry(s.now); return; }
      if !c.hasEmail && (!c.tokenLoads || !c.userLoads) { ref.ScheduleRetry(s.now); return; }
      if !c.shouldDeliver { return; }
      var status: Status;
      status, rest, alive := SendMail(a, ref.job, c, rest);
      if alive && status != Delivered { ref.ScheduleRetry(s.now); }
    }

    // ------------------------------------------ Worker.Perform

    /** The write that ends Perform: Requeue or Dequeue, which panic when it fails. */
    method Finished(a: nat, job: Job) returns (r: Ending)
      requires Valid() && a in s.agents && s.agents[a].pc.Finishing? && s.agents[a].pc.job == job
      modifies this
      ensures Valid() && steps == old(steps) + [Finish(a)] && s == Apply(old(s), Finish(a))
      ensures r == Done || (r == Panicked && Run(Init, steps) && !QuietUnlocks(Init, steps))
      ensures r == Done ==> s.journal == old(s).journal + [Write(job.id, job.version, old(s).now, FinishKind(old(s).agents[a].pc))]
      ensures r == Panicked ==> s.rows == old(s).rows
      ensures AtPC(a, if r == Done then Gone else Crashed)
    {
      CopyIsLoaded(a);
      DeliveryRunIsRun(Init, steps);
      if QuietUnlocks(Init, steps) { FinishNeverFails(steps, a); }
      var outcome := FinishOutcome(s.rows, job);
      Do(Finish(a));
      DeliveryRunIsRun(Init, steps);
      QuietExtend(Init, old(steps), Finish(a));
      r := if outcome.LockError? then Panicked else Done;
    }

    /** Perform: reserve a job, run the callback on it, then requeue or dequeue it.
        Whatever the other processes do, this is a run of the queue; unless an Unlock
        comes while somebody holds a job it never panics; if it completes, its own
        write on the job is the last one.  `halt` says after how many entries of the
        schedule the halt signal arrives, and `race` which one the select takes if a
        job is ready too. */
    method Perform(a: nat, workerID: string, c: Circumstances, schedule: Schedule, halt: Option<nat>, race: bool, closed: bool)
      returns (r: Ending, job: Job, rest: Schedule)
      requires Valid() && a !in s.agents && workerID != ""
      modifies this
      ensures Valid() && old(steps) <= steps
      ensures r == Halted ==> halt.Some? && Orphaned(s, a)
      ensures r == Released ==> closed
      ensures r == Killed ==> rest == []
      ensures r == Panicked ==> !closed && Run(Init, steps) && !QuietUnlocks(Init, steps)
      ensures r == Done ==> !closed && EndsWith(s.journal, job, c)
      ensures r == Done && s.journal[|s.journal| - 1].kind.Dequeue? ==> job.id in s.mails || Unwanted(c) || job.retryCount >= 10
    {
      Do(Start(a, workerID));
      var cut := if halt.Some? && halt.value < |schedule| then halt.value else |schedule|;
      var reserved: bool;
      reserved, job, rest := Reserve(a, schedule[..cut]);
      if halt.Some? && (!reserved || race) {
        LeaveBehind(a, rest + schedule[cut..]);
        return Halted, job, [];
      }
      rest := rest + schedule[cut..];
      if !reserved || rest == [] { Kill(a); return Killed, job, []; }
      r, rest := Proceed(a, job, c, rest, closed);
    }

    /** The job is reserved: give it back if the worker was closed, else run the callback. */
    method Proceed(a: nat, job: Job, c: Circumstances, schedule: Schedule, closed: bool) returns (r: Ending, rest: Schedule)
      requires Valid() && AtPC(a, Claimed(job)) && !s.agents[a].halted && schedule != []
      modifies this
      ensures Valid() && old(steps) <= steps
      ensures r != Halted && (r == Released <==> closed) && (r == Killed ==> rest == [])
      ensures r == Panicked ==> Run(Init, steps) && !QuietUnlocks(Init, steps)
      ensures r == Done ==> EndsWith(s.journal, job, c)
      ensures r == Done && s.journal[|s.journal| - 1].kind.Dequeue? ==> job.id in s.mails || Unwanted(c) || job.retryCount >= 10
    {
      if closed {
        var _ := Release(a, job, schedule[0]);
        return Released, schedule[1..];
      }
      Do(HandOff(a));
      r, rest := RunCallback(a, job, c, schedule);
    }

    /** The callback and what follows it. */
    method RunCallback(a: nat, job: Job, c: Circumstances, schedule: Schedule) returns (r: Ending, rest: Schedule)
      requires Valid() && AtPC(a, Running(job)) && schedule != []
      modifies this
      ensures Valid() && old(steps) <= steps
      ensures r == Done || (r == Killed && rest == []) || r == Panicked
      ensures r == Panicked ==> Run(Init, steps) && !QuietUnlocks(Init, steps)
      ensures r == Done ==> EndsWith(s.journal, job, c)
      ensures r == Done && s.journal[|s.journal| - 1].kind.Dequeue? ==> job.id in s.mails || Unwanted(c) || job.retryCount >= 10
    {
      NotYetRetried(a);
      Others(a, schedule[0]);
      var ref := new JobRef(job);
      var alive: bool;
      rest, alive := Deliver(a, ref, c, schedule[1..]);
      if !alive || rest == [] { Kill(a); return Killed, []; }
      r := Conclude(a, ref.job, rest[0]);
      rest := rest[1..];
    }

    /** The callback has left the job as `job`; others may act before the final write. */
    method Conclude(a: nat, job: Job, moves: seq<Step>) returns (r: Ending)
      requires Valid() && Enabled(s, Return(a, job)) && DeliveryStep(s, Return(a, job))
      modifies this
      ensures Valid() && old(steps) <= steps
      ensures r == Done || (r == Panicked && Run(Init, steps) && !QuietUnlocks(Init, steps))
      ensures r == Done ==>
        && s.journal != []
        && var w := s.journal[|s.journal| - 1];
           && w.id == job.id && w.base == job.version
           && w.kind.Requeue? == job.shouldRetry && w.kind.Dequeue? == !job.shouldRetry
      ensures old(s).mails <= s.mails
    {
      Do(Return(a, job));
      Others(a, moves);
      MailsGrow(s, Finish(a));
      r := Finished(a, job);
    }

    lemma NotYetRetried(a: nat)
      requires Valid() && a in s.agents && s.agents[a].pc.Running?
      ensures !s.agents[a].pc.job.shouldRetry
    {
      InitRetry();
      RetryRun(Init, steps);
      assert CopyRetries(s, s.agents[a].pc);
    }
  }
}
