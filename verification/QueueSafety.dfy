/** What every interleaving of the queue keeps.

    With `Unlock` allowed at any moment: each job's successful writes consume
    the versions one after the other, a stale write changes nothing, and jobs
    are conserved.  As long as `Unlock` is only called while nobody holds a job:
    at most one agent holds a job, and its Requeue or Dequeue never fails. */
module QueueSafety {
  import opened JobTable
  import opened JobQueue

  // ---------------------------------------------------------------- version chains

  lemma {:induction false} VersionChain(steps: seq<Step>, id: int)
    requires Run(Init, steps)
    ensures
      var s := Final(Init, steps);
      var ws := WritesOn(s.journal, id);
      && Chain(ws)
      && (id in s.enqueued <==> ws != [])
      && (id in s.rows <==> ws != [] && !ws[|ws| - 1].kind.Dequeue?)
      && (id in s.rows ==> s.rows[id].version == ws[0].base + |ws|)
  {
    InitBase();
    BaseRun(Init, steps);
    assert RowChained(Final(Init, steps), id);
  }

  /** Two entries of the journal for one job sit in the same order in its own list of writes. */
  lemma {:induction false} PositionsOnJob(journal: seq<Write>, i: nat, j: nat) returns (p: nat, q: nat)
    requires i < j < |journal| && journal[i].id == journal[j].id
    ensures
      var ws := WritesOn(journal, journal[i].id);
      p < q < |ws| && ws[p] == journal[i] && ws[q] == journal[j]
  {
    var n := |journal| - 1;
    if j < n {
      p, q := PositionsOnJob(journal[..n], i, j);
    } else {
      q := |WritesOn(journal[..n], journal[j].id)|;
      p := PositionOnJob(journal[..n], i);
    }
  }

  lemma {:induction false} PositionOnJob(journal: seq<Write>, i: nat) returns (p: nat)
    requires i < |journal|
    ensures var ws := WritesOn(journal, journal[i].id); p < |ws| && ws[p] == journal[i]
  {
    var n := |journal| - 1;
    if i < n { p := PositionOnJob(journal[..n], i); } else { p := |WritesOn(journal[..n], journal[i].id)|; }
  }

  /** No version of a job is consumed twice, in any run: no update is lost. */
  lemma {:induction false} VersionConsumedOnce(steps: seq<Step>, i: nat, j: nat)
    requires Run(Init, steps)
    requires
      var journal := Final(Init, steps).journal;
      i < j < |journal| && journal[i].id == journal[j].id
    ensures
      var journal := Final(Init, steps).journal;
      journal[i].base < journal[j].base && !journal[i].kind.Dequeue? && !journal[j].kind.Inserted?
  {
    var journal := Final(Init, steps).journal;
    VersionChain(steps, journal[i].id);
    var p, q := PositionsOnJob(journal, i, j);
  }

  /** What a versioned step writes into the journal when it succeeds. */
  function AttemptKind(s: State, step: Step): Kind
    requires Enabled(s, step) && Versioned(step)
  {
    match step
    case TryClaim(_) => Claim
    case TryRelease(_) => Release
    case Finish(a) => FinishKind(s.agents[a].pc)
  }

  /** The step removes its row when it succeeds: a dequeue. */
  predicate Removes(s: State, step: Step)
    requires Enabled(s, step) && Versioned(step)
  {
    step.Finish? && !s.agents[step.a].pc.job.shouldRetry
  }

  /** The copy `j` was written: one journal entry at its version, its row gone or
      replaced, and no other row touched. */
  predicate TookEffect(s: State, t: State, j: Job, kind: Kind, removed: bool) {
    && t.journal == s.journal + [Write(j.id, j.version, s.now, kind)]
    && (j.id in t.rows <==> !removed)
    && (j.id in t.rows ==> t.rows[j.id] == Store(Bumped(j)))
    && t.rows - {j.id} == s.rows - {j.id}
  }

  lemma {:induction false} WroteTakesEffect(s: State, a: nat, j: Job, removed: bool, kind: Kind, ok: PC, stale: PC)
    requires At(s, a)
    ensures
      var table := if removed then s.rows - {j.id} else s.rows[j.id := Store(Bumped(j))];
      TookEffect(s, Wrote(s, a, j, Written(table, j), kind, ok, stale), j, kind, removed)
  {
    var table := if removed then s.rows - {j.id} else s.rows[j.id := Store(Bumped(j))];
    assert table - {j.id} == s.rows - {j.id};
  }

  lemma {:induction false} AttemptTakesEffect(s: State, step: Step, j: Job)
    requires Enabled(s, step) && Versioned(step) && j == AttemptJob(s, step) && j.version >= 1 && Matches(s.rows, j)
    ensures TookEffect(s, Apply(s, step), j, AttemptKind(s, step), Removes(s, step))
  {
    var a := step.a;
    if step.TryClaim? {
      WroteTakesEffect(s, a, j, false, Claim, Claimed(Bumped(j)), Searching);
    } else if step.TryRelease? {
      WroteTakesEffect(s, a, j, false, Release, Gone, Gone);
    } else {
      WroteTakesEffect(s, a, j, !j.shouldRetry, FinishKind(s.agents[a].pc), Gone, Crashed);
    }
  }

  /** A versioned step takes effect exactly when its copy carries the row's
      current version; otherwise table and journal are untouched. */
  lemma {:induction false} StaleAttemptChangesNothing(before: seq<Step>, step: Step)
    requires Run(Init, before) && Enabled(Final(Init, before), step) && Versioned(step)
    ensures
      var s := Final(Init, before);
      var t := Apply(s, step);
      var j := AttemptJob(s, step);
      if Matches(s.rows, j) then TookEffect(s, t, j, AttemptKind(s, step), Removes(s, step))
      else t.rows == s.rows && t.journal == s.journal && !HasJob(t.agents[step.a].pc)
  {
    InitBase();
    BaseRun(Init, before);
    var s := Final(Init, before);
    assert CopyOK(s, s.agents[step.a].pc.job);
    var j := AttemptJob(s, step);
    if Matches(s.rows, j) { AttemptTakesEffect(s, step, j); }
  }

  /** Every job ever enqueued is either in the table or was dequeued, once. */
  lemma {:induction false} JobsConserved(steps: seq<Step>)
    requires Run(Init, steps)
    ensures var s := Final(Init, steps); |s.enqueued| == |s.rows| + Dequeues(s.journal)
    ensures var s := Final(Init, steps); s.rows.Keys <= s.enqueued.Keys
  {
    InitBase();
    BaseRun(Init, steps);
    var s := Final(Init, steps);
    forall id | id in s.rows ensures id in s.enqueued { RowIDs(s, id); }
  }

  // ---------------------------------------------------------------- mutual exclusion

  predicate Holds(pc: PC) { HasJob(pc) && !pc.Found? }

  /** A holder's copy is current and its row is owned; what a finder saw free is still free while current. */
  predicate HeldOK(s: State, pc: PC)
    requires HasJob(pc)
  {
    if pc.Found? then
      Matches(s.rows, pc.job) ==> s.rows[pc.job.id].workerID == ""
    else
      Matches(s.rows, pc.job) && s.rows[pc.job.id].workerID != ""
  }

  predicate Exclusive(s: State) {
    && (forall a :: a in s.agents ==> s.agents[a].workerID != "" && !s.agents[a].pc.Crashed?)
    && (forall a :: a in s.agents && HasJob(s.agents[a].pc) ==> HeldOK(s, s.agents[a].pc))
    && (forall a, b :: a in s.agents && b in s.agents && a != b && Holds(s.agents[a].pc) && Holds(s.agents[b].pc)
         ==> s.agents[a].pc.job.id != s.agents[b].pc.job.id)
  }

  /** Only agent `a` moves; rows other than its own job's keep their contents. */
  lemma MoveKeepsExclusive(s: State, t: State, a: nat, agent: Agent)
    requires BaseInv(s) && Exclusive(s)
    requires t.agents == s.agents[a := agent]
    requires agent.workerID != "" && !agent.pc.Crashed?
    requires HasJob(agent.pc) ==> HeldOK(t, agent.pc)
    requires Holds(agent.pc) ==> forall b :: b in s.agents && b != a && Holds(s.agents[b].pc)
                                   ==> s.agents[b].pc.job.id != agent.pc.job.id
    requires forall b :: b in s.agents && b != a && HasJob(s.agents[b].pc) ==> HeldOK(t, s.agents[b].pc)
    ensures Exclusive(t)
  {}

  /** Whoever could still write the row that `a` just changed would be a second holder. */
  lemma OthersUnaffected(s: State, t: State, a: nat, j: Job, b: nat)
    requires BaseInv(s) && Exclusive(s) && a != b && a in s.agents && b in s.agents
    requires HasJob(s.agents[a].pc) && HasJob(s.agents[b].pc)
    requires j.id == s.agents[a].pc.job.id && j.version == s.agents[a].pc.job.version
    requires Matches(s.rows, j)
    requires t.rows - {j.id} == s.rows - {j.id}
    requires j.id in t.rows ==> t.rows[j.id].version == j.version + 1
    ensures HeldOK(t, s.agents[b].pc)
    ensures Holds(s.agents[b].pc) ==> s.agents[b].pc.job.id != j.id
  {
    var other := s.agents[b].pc.job;
    assert CopyOK(s, other) && HeldOK(s, s.agents[b].pc) && HeldOK(s, s.agents[a].pc);
    if other.id != j.id {
      assert other.id in t.rows <==> other.id in t.rows - {j.id};
      assert other.id in s.rows <==> other.id in s.rows - {j.id};
      assert other.id in s.rows ==> (t.rows - {j.id})[other.id] == (s.rows - {j.id})[other.id];
    }
  }

  /** What the others hold survives an attempt of `a`. */
  lemma {:induction false} OthersHeld(s: State, step: Step, b: nat)
    requires BaseInv(s) && Exclusive(s) && Enabled(s, step) && Versioned(step)
    requires b in s.agents && b != step.a && HasJob(s.agents[b].pc)
    ensures HeldOK(Apply(s, step), s.agents[b].pc)
    ensures Matches(s.rows, AttemptJob(s, step)) && Holds(s.agents[b].pc) ==> s.agents[b].pc.job.id != AttemptJob(s, step).id
  {
    assert CopyOK(s, s.agents[step.a].pc.job) && HeldOK(s, s.agents[step.a].pc) && HeldOK(s, s.agents[b].pc);
    var j := AttemptJob(s, step);
    if Matches(s.rows, j) { OthersUnaffected(s, Apply(s, step), step.a, j, b); }
  }

  lemma {:induction false} ExclusiveVersioned(s: State, step: Step)
    requires BaseInv(s) && Exclusive(s) && Enabled(s, step) && Versioned(step)
    ensures Exclusive(Apply(s, step))
  {
    var t, a, j := Apply(s, step), step.a, AttemptJob(s, step);
    assert CopyOK(s, s.agents[a].pc.job) && HeldOK(s, s.agents[a].pc);
    forall b | b in s.agents && b != a && HasJob(s.agents[b].pc)
      ensures HeldOK(t, s.agents[b].pc)
      ensures Matches(s.rows, j) && Holds(s.agents[b].pc) ==> s.agents[b].pc.job.id != j.id
    { OthersHeld(s, step, b); }
    MoveKeepsExclusive(s, t, a, t.agents[a]);
  }

  lemma ExclusiveEnqueue(s: State, job: Job)
    requires BaseInv(s) && Exclusive(s) && job.version >= 0
    ensures Exclusive(Apply(s, Enqueue(job)))
  {
    var t := Apply(s, Enqueue(job));
    if s.nextID in s.rows { RowIDs(s, s.nextID); }
    forall b | b in s.agents && HasJob(s.agents[b].pc) ensures HeldOK(t, s.agents[b].pc) {
      assert CopyOK(s, s.agents[b].pc.job) && HeldOK(s, s.agents[b].pc);
    }
  }

  lemma {:induction false} ExclusiveLocal(s: State, step: Step)
    requires BaseInv(s) && Exclusive(s) && Enabled(s, step) && Local(step)
    ensures Exclusive(Apply(s, step))
  {
    var t := Apply(s, step);
    LocalShape(s, step);
    MoveKeepsExclusive(s, t, step.a, t.agents[step.a]);
  }

  lemma {:induction false} ExclusiveStep(s: State, step: Step)
    requires BaseInv(s) && Exclusive(s) && Enabled(s, step) && !step.Unlock?
    ensures Exclusive(Apply(s, step))
  {
    var t := Apply(s, step);
    if step.Enqueue? {
      ExclusiveEnqueue(s, step.job);
    } else if Versioned(step) {
      ExclusiveVersioned(s, step);
    } else if Local(step) {
      ExclusiveLocal(s, step);
    } else if step.Find? || step.Start? {
      MoveKeepsExclusive(s, t, step.a, t.agents[step.a]);
    }
  }

  // ---------------------------------------------------------------- when Unlock is harmless

  predicate NobodyHolds(s: State) {
    forall a :: a in s.agents ==> !Holds(s.agents[a].pc)
  }

  /** Unlock keeps the exclusion invariant exactly when nobody holds a job. */
  lemma UnlockKeepsExclusionIff(s: State)
    requires BaseInv(s) && Exclusive(s)
    ensures Exclusive(Apply(s, Unlock)) <==> NobodyHolds(s)
  {
    var t := Apply(s, Unlock);
    forall a | a in s.agents && HasJob(s.agents[a].pc)
      ensures HeldOK(t, s.agents[a].pc) <==> s.agents[a].pc.Found?
    { assert HeldOK(s, s.agents[a].pc); }
  }

  /** Every Unlock comes while nobody holds a job. */
  predicate QuietUnlocks(s: State, steps: seq<Step>)
    requires Run(s, steps)
    decreases |steps|
  {
    steps == [] || ((steps[0].Unlock? ==> NobodyHolds(s)) && QuietUnlocks(Apply(s, steps[0]), steps[1..]))
  }

  lemma {:induction false} UnlockFreeIsQuiet(s: State, steps: seq<Step>)
    requires Run(s, steps) && UnlockFree(steps)
    ensures QuietUnlocks(s, steps)
    decreases |steps|
  {
    if steps != [] { UnlockFreeIsQuiet(Apply(s, steps[0]), steps[1..]); }
  }

  lemma {:induction false} QuietExtend(s: State, steps: seq<Step>, step: Step)
    requires Run(s, steps) && Enabled(Final(s, steps), step) && Run(s, steps + [step])
    ensures QuietUnlocks(s, steps + [step]) <==> QuietUnlocks(s, steps) && (step.Unlock? ==> NobodyHolds(Final(s, steps)))
    decreases |steps|
  {
    if steps == [] {
      assert steps + [step] == [step];
    } else {
      assert (steps + [step])[1..] == steps[1..] + [step];
      QuietExtend(Apply(s, steps[0]), steps[1..], step);
    }
  }

  lemma ExclusiveAnyStep(s: State, step: Step)
    requires BaseInv(s) && Exclusive(s) && Enabled(s, step) && (step.Unlock? ==> NobodyHolds(s))
    ensures Exclusive(Apply(s, step))
  {
    if step.Unlock? { UnlockKeepsExclusionIff(s); } else { ExclusiveStep(s, step); }
  }

  lemma {:induction false} ExclusiveRun(s: State, steps: seq<Step>)
    requires BaseInv(s) && Exclusive(s) && Run(s, steps) && QuietUnlocks(s, steps)
    ensures BaseInv(Final(s, steps)) && Exclusive(Final(s, steps))
    decreases |steps|
  {
    if steps != [] {
      BaseStep(s, steps[0]);
      ExclusiveAnyStep(s, steps[0]);
      ExclusiveRun(Apply(s, steps[0]), steps[1..]);
    }
  }

  /** At most one agent holds a job, and its copy carries the row's current version. */
  lemma {:induction false} AtMostOneHolder(steps: seq<Step>, a: nat, b: nat)
    requires Run(Init, steps) && QuietUnlocks(Init, steps)
    requires var s := Final(Init, steps); a in s.agents && b in s.agents && Holds(s.agents[a].pc) && Holds(s.agents[b].pc)
    requires var s := Final(Init, steps); s.agents[a].pc.job.id == s.agents[b].pc.job.id
    ensures a == b
    ensures var s := Final(Init, steps); Matches(s.rows, s.agents[a].pc.job)
  {
    InitBase();
    ExclusiveRun(Init, steps);
    assert HeldOK(Final(Init, steps), Final(Init, steps).agents[a].pc);
  }

  /** The write that ends Perform always succeeds: no OptimisticLockError, no panic. */
  lemma {:induction false} FinishNeverFails(steps: seq<Step>, a: nat)
    requires Run(Init, steps) && QuietUnlocks(Init, steps)
    requires var s := Final(Init, steps); a in s.agents
    ensures var s := Final(Init, steps); !s.agents[a].pc.Crashed?
    ensures var s := Final(Init, steps);
      s.agents[a].pc.Finishing? ==> FinishOutcome(s.rows, s.agents[a].pc.job).Written?
  {
    InitBase();
    ExclusiveRun(Init, steps);
    var s := Final(Init, steps);
    if s.agents[a].pc.Finishing? { assert HeldOK(s, s.agents[a].pc); }
  }

  // ---------------------------------------------------------------- what Unlock costs

  /** After Unlock two agents may run the same job; only the later claim is current. */
  lemma {:induction false} UnlockBreaksExclusion() returns (steps: seq<Step>)
    ensures Run(Init, steps)
    ensures
      var s := Final(Init, steps);
      && 1 in s.agents && s.agents[1].pc.Running? && 2 in s.agents && s.agents[2].pc.Running?
      && s.agents[1].pc.job.id == s.agents[2].pc.job.id
      && !Matches(s.rows, s.agents[1].pc.job) && Matches(s.rows, s.agents[2].pc.job)
  {
    steps := ClaimedByFirst();
    steps := Then(steps, Unlock);
    steps := Then(steps, Find(2, 1));
    steps := Then(steps, TryClaim(2));
    steps := Then(steps, HandOff(2));
  }

  lemma {:induction false} ClaimedByFirst() returns (steps: seq<Step>)
    ensures Run(Init, steps)
    ensures
      var s := Final(Init, steps);
      && s.rows == map[1 := Row("w1", "m", 2, 0, 0)] && s.now == 0
      && s.agents == map[1 := Agent("w1", false, Running(Job(1, "w1", "m", 2, 0, 0, false))),
                         2 := Agent("w2", false, Searching)]
  {
    steps := Then([], Enqueue(NewJob("m")));
    steps := Then(steps, Start(1, "w1"));
    steps := Then(steps, Start(2, "w2"));
    steps := Then(steps, Find(1, 1));
    steps := Then(steps, TryClaim(1));
    steps := Then(steps, HandOff(1));
  }

  lemma Then(before: seq<Step>, step: Step) returns (steps: seq<Step>)
    requires Run(Init, before) && Enabled(Final(Init, before), step)
    ensures Run(Init, steps) && Final(Init, steps) == Apply(Final(Init, before), step)
    ensures steps == before + [step]
  {
    RunExtend(Init, before, step);
    steps := before + [step];
  }
}
