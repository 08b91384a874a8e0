/** What `Unlock` does to the two promises of the queue, told by what can happen
    afterwards: one holder per job, and one mail per job.  `Unlock` clears the
    worker of every row, so any row that is held, or that was already mailed, can
    be claimed again by somebody who has only to wait until it is due. */
module UnlockEffects {
  import opened JobTable
  import opened JobQueue
  import opened QueueSafety
  import opened DeliveryRuns
  import opened DeliveredOnce

  // ---------------------------------------------------------------- somebody else claims the row

  lemma {:induction false} Below(n: nat) returns (all: set<nat>)
    ensures |all| == n && forall x: nat :: x in all <==> x < n
  {
    if n == 0 {
      all := {};
    } else {
      var less := Below(n - 1);
      all := less + {n - 1};
    }
  }

  /** There is always another agent to start. */
  lemma {:induction false} FreshAgent(agents: map<nat, Agent>) returns (b: nat)
    ensures b !in agents
  {
    var all := Below(|agents.Keys| + 1);
    if all <= agents.Keys {
      SubsetSize(all, agents.Keys);
      assert false;
    }
    b :| b in all && b !in agents.Keys;
  }

  lemma {:induction false} SubsetSize(a: set<nat>, b: set<nat>)
    requires a <= b
    ensures |a| <= |b|
  {
    if a != {} {
      var x :| x in a;
      SubsetSize(a - {x}, b - {x});
    }
  }

  /** One more step of a continuation from `t`. */
  lemma {:induction false} Onward(t: State, before: seq<Step>, step: Step) returns (steps: seq<Step>)
    requires DeliveryRun(t, before) && Run(t, before) && UnlockFree(before) && !step.Unlock?
    requires Enabled(Final(t, before), step) && DeliveryStep(Final(t, before), step)
    ensures DeliveryRun(t, steps) && Run(t, steps) && UnlockFree(steps)
    ensures Final(t, steps) == Apply(Final(t, before), step)
  {
    steps := before + [step];
    DeliveryRunExtend(t, before, step);
  }

  /** A fresh agent can start looking when the row is due. */
  lemma {:induction false} WaitFor(t: State, id: int, b: nat) returns (steps: seq<Step>)
    requires id in t.rows && b !in t.agents
    ensures DeliveryRun(t, steps) && Run(t, steps) && UnlockFree(steps)
    ensures
      var u := Final(t, steps);
      t.rows[id].activeAt <= u.now && u == t.(now := u.now, agents := t.agents[b := Agent("w", false, Searching)])
  {
    var due := if t.now < t.rows[id].activeAt then t.rows[id].activeAt else t.now;
    steps := Onward(t, [], Tick(due));
    steps := Onward(t, steps, Start(b, "w"));
  }

  /** A free row can be found by a fresh agent. */
  lemma {:induction false} FindFree(t: State, id: int, b: nat) returns (steps: seq<Step>)
    requires id in t.rows && t.rows[id].workerID == "" && b !in t.agents
    ensures DeliveryRun(t, steps) && Run(t, steps) && UnlockFree(steps)
    ensures
      var u := Final(t, steps);
      u == t.(now := u.now, agents := t.agents[b := Agent("w", false, Found(Load(id, t.rows[id])))])
  {
    steps := WaitFor(t, id, b);
    steps := Onward(t, steps, Find(b, id));
    assert Final(t, steps).agents == t.agents[b := Agent("w", false, Found(Load(id, t.rows[id])))];
  }

  /** The job that `b` holds once its claim is written. */
  function ClaimedCopy(id: int, r: Row): Job { Bumped(Load(id, r).(workerID := "w")) }

  /** A free row can be claimed by a fresh agent; mails, statuses and the other agents are as they were. */
  lemma {:induction false} ClaimFree(t: State, id: int, b: nat) returns (steps: seq<Step>)
    requires id in t.rows && t.rows[id].workerID == "" && t.rows[id].version >= 1 && b !in t.agents
    ensures DeliveryRun(t, steps) && Run(t, steps) && UnlockFree(steps)
    ensures
      var u := Final(t, steps);
      && u.agents == t.agents[b := Agent("w", false, Claimed(ClaimedCopy(id, t.rows[id])))]
      && u.mails == t.mails && u.statuses == t.statuses
  {
    steps := FindFree(t, id, b);
    steps := Onward(t, steps, TryClaim(b));
  }

  // ---------------------------------------------------------------- one holder per job

  /** No two agents hold one job. */
  predicate OneHolderEach(s: State) {
    forall a, b :: a in s.agents && b in s.agents && a != b && Holds(s.agents[a].pc) && Holds(s.agents[b].pc)
      ==> s.agents[a].pc.job.id != s.agents[b].pc.job.id
  }

  /** Until somebody calls Unlock again, no job will ever have two holders. */
  ghost predicate Safe(s: State) {
    forall steps :: Run(s, steps) && UnlockFree(steps) ==> OneHolderEach(Final(s, steps))
  }

  lemma {:induction false} ExclusiveIsSafe(s: State)
    requires BaseInv(s) && Exclusive(s)
    ensures Safe(s)
  {
    forall steps | Run(s, steps) && UnlockFree(steps) ensures OneHolderEach(Final(s, steps)) {
      UnlockFreeIsQuiet(s, steps);
      ExclusiveRun(s, steps);
    }
  }

  /** A job that is held when Unlock comes can get a second holder. */
  lemma {:induction false} SecondHolder(s: State, a: nat)
    requires BaseInv(s) && Exclusive(s) && a in s.agents && Holds(s.agents[a].pc)
    ensures !Safe(Apply(s, Unlock))
  {
    var t, id := Apply(s, Unlock), s.agents[a].pc.job.id;
    assert CopyOK(s, s.agents[a].pc.job) && HeldOK(s, s.agents[a].pc);
    var b := FreshAgent(t.agents);
    var steps := ClaimFree(t, id, b);
    var u := Final(t, steps);
    assert u.agents[a] == s.agents[a] && Holds(u.agents[b].pc) && u.agents[b].pc.job.id == id;
    assert !OneHolderEach(u);
  }

  /** From any state of exclusion: Unlock leaves no way to two holders of a job
      exactly when nobody holds one. */
  lemma {:induction false} UnlockIsSafeIff(s: State)
    requires BaseInv(s) && Exclusive(s)
    ensures Safe(Apply(s, Unlock)) <==> NobodyHolds(s)
  {
    if NobodyHolds(s) {
      BaseStep(s, Unlock);
      UnlockKeepsExclusionIff(s);
      ExclusiveIsSafe(Apply(s, Unlock));
    } else {
      var a :| a in s.agents && Holds(s.agents[a].pc);
      SecondHolder(s, a);
    }
  }

  /** Every state of the run is safe. */
  ghost predicate AlwaysSafe(s: State, steps: seq<Step>)
    requires Run(s, steps)
    decreases |steps|
  {
    Safe(s) && (steps == [] || AlwaysSafe(Apply(s, steps[0]), steps[1..]))
  }

  /** A run never comes to a state from which, without another Unlock, a job can
      get two holders, exactly when each of its Unlocks comes while nobody holds one. */
  lemma {:induction false} AlwaysSafeIff(s: State, steps: seq<Step>)
    requires BaseInv(s) && Exclusive(s) && Run(s, steps)
    ensures AlwaysSafe(s, steps) <==> QuietUnlocks(s, steps)
    decreases |steps|
  {
    ExclusiveIsSafe(s);
    if steps != [] {
      var t := Apply(s, steps[0]);
      BaseStep(s, steps[0]);
      if steps[0].Unlock? && !NobodyHolds(s) {
        UnlockIsSafeIff(s);
      } else {
        ExclusiveAnyStep(s, steps[0]);
        AlwaysSafeIff(t, steps[1..]);
      }
    }
  }

  // ---------------------------------------------------------------- one mail per job

  /** No job was mailed twice, and no worker stored a status after a worker's "delivered". */
  predicate OnceSoFar(s: State) {
    && (forall i, j :: 0 <= i < j < |s.mails| ==> s.mails[i] != s.mails[j])
    && (forall i, j :: 0 <= i < j < |s.statuses| && s.statuses[i] == StatusWrite(true, s.statuses[j].message, Delivered)
          ==> !s.statuses[j].byWorker)
  }

  /** Until somebody calls Unlock again, workers deliver each message at most once. */
  ghost predicate OnceSafe(s: State) {
    forall steps :: DeliveryRun(s, steps) && Run(s, steps) && UnlockFree(steps) ==> OnceSoFar(Final(s, steps))
  }

  lemma {:induction false} OnceIsSafe(s: State)
    requires OnceInv(s)
    ensures OnceSafe(s)
  {
    forall steps | DeliveryRun(s, steps) && Run(s, steps) && UnlockFree(steps) ensures OnceSoFar(Final(s, steps)) {
      UnlockFreeIsSwept(s, steps);
      OnceRun(s, steps);
    }
  }

  /** A free row can be mailed, and reported as delivered, by a fresh agent. */
  lemma {:induction false} DeliverFree(t: State, id: int, b: nat) returns (steps: seq<Step>)
    requires id in t.rows && t.rows[id].workerID == "" && t.rows[id].version >= 1 && b !in t.agents
    ensures DeliveryRun(t, steps) && Run(t, steps) && UnlockFree(steps)
    ensures
      var u := Final(t, steps);
      u.mails == t.mails + [id] && u.statuses == t.statuses + [StatusWrite(true, t.rows[id].payload, Delivered)]
  {
    steps := ClaimFree(t, id, b);
    steps := Onward(t, steps, HandOff(b));
    steps := Onward(t, steps, Send(b, Delivered));
    steps := Onward(t, steps, Report(b, true));
  }

  /** A job that was mailed, or reported as delivered, is mailed or reported again. */
  lemma {:induction false} Repeated(s: State, u: State, id: int, m: string)
    requires id in s.mails || StoredDelivered(s.statuses, m)
    requires u.mails == s.mails + [id] && u.statuses == s.statuses + [StatusWrite(true, m, Delivered)]
    ensures !OnceSoFar(u)
  {
    if id in s.mails {
      var i :| 0 <= i < |s.mails| && s.mails[i] == id;
      assert u.mails[i] == u.mails[|s.mails|];
    } else {
      var i :| 0 <= i < |s.statuses| && s.statuses[i] == StatusWrite(true, m, Delivered);
      assert u.statuses[i] == StatusWrite(true, u.statuses[|s.statuses|].message, Delivered);
    }
  }

  lemma {:induction false} SecondMail(s: State, id: int)
    requires OnceInv(s) && id in s.rows && (id in s.mails || StoredDelivered(s.statuses, s.enqueued[id]))
    ensures !OnceSafe(Apply(s, Unlock))
  {
    var t := Apply(s, Unlock);
    RowIsLoaded(s, id);
    var b := FreshAgent(t.agents);
    var steps := DeliverFree(t, id, b);
    Repeated(t, Final(t, steps), id, s.enqueued[id]);
  }

  lemma {:induction false} RowIsLoaded(s: State, id: int)
    requires BaseInv(s) && id in s.rows
    ensures s.rows[id].version >= 1
  {
    assert RowChained(s, id);
  }

  /** With nobody at work, Unlock leaves no way to a second delivery exactly when
      every job that was mailed or reported as delivered has left the table. */
  lemma {:induction false} UnlockIsOnceSafeIff(s: State)
    requires OnceInv(s) && NobodyHolds(s)
    ensures OnceSafe(Apply(s, Unlock)) <==> Swept(s)
  {
    if Swept(s) {
      OnceStep(s, Unlock);
      OnceIsSafe(Apply(s, Unlock));
    } else {
      var id :| id in s.rows && !(id !in s.mails && !(id in s.enqueued && StoredDelivered(s.statuses, s.enqueued[id])));
      SecondMail(s, id);
    }
  }

  ghost predicate AlwaysOnceSafe(s: State, steps: seq<Step>)
    requires Run(s, steps)
    decreases |steps|
  {
    OnceSafe(s) && (steps == [] || AlwaysOnceSafe(Apply(s, steps[0]), steps[1..]))
  }

  /** A delivery run whose Unlocks come while nobody is at work never comes to a
      state from which, without another Unlock, a message can be delivered twice,
      exactly when each of them finds the table swept of delivered jobs. */
  lemma {:induction false} AlwaysOnceSafeIff(s: State, steps: seq<Step>)
    requires OnceInv(s) && DeliveryRun(s, steps) && Run(s, steps) && QuietUnlocks(s, steps)
    ensures AlwaysOnceSafe(s, steps) <==> SweptUnlocks(s, steps)
    decreases |steps|
  {
    OnceIsSafe(s);
    if steps != [] {
      var t := Apply(s, steps[0]);
      if steps[0].Unlock? && !Swept(s) {
        UnlockIsOnceSafeIff(s);
      } else {
        OnceStep(s, steps[0]);
        AlwaysOnceSafeIff(t, steps[1..]);
      }
    }
  }
}
