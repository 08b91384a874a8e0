/** gobble's queue as a transition system: a shared `jobs` table, a clock that
    counts whole seconds, and any number of agents.  An agent is one call of
    Worker.Perform together with the reserve goroutine it starts; between two
    steps of an agent every other agent may move.

    A `Step` names what happens next, including every choice the environment
    makes (which row the SELECT returns, what the callback does, when a process
    dies); `Apply` is the state after it. */
module JobQueue {
  import opened JobTable

  datatype Status = Unavailable | Failed | Delivered | Queued

  datatype PC =
    | Searching                               // in findJob
    | Found(job: Job)                         // SELECT returned, updateJob comes next
    | Claimed(job: Job)                       // claim written, hand-off comes next
    | Releasing(job: Job)                     // the queue was closed: updateJob(job, "") comes next
    | Running(job: Job)                       // the callback runs
    | Sent(job: Job, status: Status)          // deliver(): the status is known, not yet stored
    | Reported(job: Job, status: Status)      // updateMessageStatus returned
    | Finishing(job: Job, returnedAt: int)    // the callback returned: Requeue or Dequeue comes next
    | Gone
    | Crashed                                 // panic(err)

  /** `halted`: Perform took the halt case, so nobody receives from the channel. */
  datatype Agent = Agent(workerID: string, halted: bool, pc: PC)

  datatype Kind =
    | Inserted
    | Claim
    | Release
    | Requeue(decidedAt: int, attempt: int)
    | Dequeue

  /** A successful versioned write: `base` is the version it consumed. */
  datatype Write = Write(id: int, base: int, at: int, kind: Kind)

  datatype StatusWrite = StatusWrite(byWorker: bool, message: string, status: Status)

  datatype State = State(
    rows: Table,
    nextID: int,                       // the table's auto-increment counter
    now: int,
    agents: map<nat, Agent>,
    enqueued: map<int, string>,        // every job ever inserted, with its payload
    journal: seq<Write>,               // the successful versioned writes, oldest first
    mails: seq<int>,                   // jobs whose mail the SMTP server accepted
    statuses: seq<StatusWrite>)        // writes to the `messages` table

  const Init := State(map[], 1, 0, map[], map[], [], [], [])

  datatype Step =
    | Enqueue(job: Job)
    | Start(a: nat, workerID: string)
    | Find(a: nat, id: int)
    | TryClaim(a: nat)
    | SeeClosed(a: nat)
    | TryRelease(a: nat)
    | HandOff(a: nat)
    | Halt(a: nat)
    | Send(a: nat, status: Status)
    | Report(a: nat, stored: bool)
    | Return(a: nat, job: Job)
    | Finish(a: nat)
    | Die(a: nat)
    | MarkQueued(id: int)              // Mailer.Deliver's Upsert, after its Enqueue
    | Unlock
    | Tick(to: int)

  predicate At(s: State, a: nat) { a in s.agents }

  predicate Enabled(s: State, step: Step) {
    match step
    case Enqueue(job) => job.version >= 0
    case Start(a, workerID) => a !in s.agents && workerID != ""
    case Find(a, id) => At(s, a) && s.agents[a].pc.Searching? && id in s.rows && Available(s.rows[id], s.now)
    case TryClaim(a) => At(s, a) && s.agents[a].pc.Found?
    case SeeClosed(a) => At(s, a) && s.agents[a].pc.Claimed?
    case TryRelease(a) => At(s, a) && s.agents[a].pc.Releasing?
    case HandOff(a) => At(s, a) && s.agents[a].pc.Claimed? && !s.agents[a].halted
    case Halt(a) => At(s, a) && (s.agents[a].pc.Searching? || s.agents[a].pc.Found? || s.agents[a].pc.Claimed?)
    case Send(a, status) => At(s, a) && s.agents[a].pc.Running? && status != Queued
    case Report(a, stored) => At(s, a) && s.agents[a].pc.Sent?
    case Return(a, job) =>
      // The callback may change the job it is given, but not its key or version.
      && At(s, a) && (s.agents[a].pc.Running? || s.agents[a].pc.Reported?)
      && job.id == s.agents[a].pc.job.id && job.version == s.agents[a].pc.job.version
    case Finish(a) => At(s, a) && s.agents[a].pc.Finishing?
    case Die(a) => At(s, a)
    case MarkQueued(id) => id in s.enqueued
    case Unlock => true
    case Tick(to) => s.now <= to
  }

  function Moved(s: State, a: nat, pc: PC): State
    requires At(s, a)
  {
    s.(agents := s.agents[a := s.agents[a].(pc := pc)])
  }

  /** Agent `a` issued a versioned write with outcome `o`. */
  function Wrote(s: State, a: nat, j: Job, o: Outcome, kind: Kind, ok: PC, stale: PC): State
    requires At(s, a)
  {
    match o
    case Written(table, _) =>
      Moved(s, a, ok).(rows := table, journal := s.journal + [Write(j.id, j.version, s.now, kind)])
    case Unmatched(_) => Moved(s, a, ok)
    case LockError(_) => Moved(s, a, stale)
  }

  /** The write that ends Perform. */
  function FinishOutcome(t: Table, j: Job): Outcome {
    if j.shouldRetry then CasUpdate(t, j) else CasDelete(t, j)
  }

  function FinishKind(pc: PC): Kind
    requires pc.Finishing?
  {
    if pc.job.shouldRetry then Requeue(pc.returnedAt, pc.job.retryCount - 1) else Dequeue
  }

  function Apply(s: State, step: Step): State
    requires Enabled(s, step)
  {
    match step
    case Enqueue(job) =>
      s.(rows := s.rows[s.nextID := InsertedRow(job)], nextID := s.nextID + 1,
         enqueued := s.enqueued[s.nextID := job.payload],
         journal := s.journal + [Write(s.nextID, job.version, s.now, Inserted)])
    case Start(a, workerID) => s.(agents := s.agents[a := Agent(workerID, false, Searching)])
    case Find(a, id) => Moved(s, a, Found(Load(id, s.rows[id])))
    case TryClaim(a) =>
      var j := s.agents[a].pc.job.(workerID := s.agents[a].workerID);
      Wrote(s, a, j, CasUpdate(s.rows, j), Claim, Claimed(Bumped(j)), Searching)
    case SeeClosed(a) => Moved(s, a, Releasing(s.agents[a].pc.job))
    case TryRelease(a) =>
      var j := s.agents[a].pc.job.(workerID := "");
      Wrote(s, a, j, CasUpdate(s.rows, j), Release, Gone, Gone)
    case HandOff(a) => Moved(s, a, Running(s.agents[a].pc.job))
    case Halt(a) => s.(agents := s.agents[a := s.agents[a].(halted := true)])
    case Send(a, status) =>
      var j := s.agents[a].pc.job;
      Moved(s, a, Sent(j, status)).(mails := if status == Delivered then s.mails + [j.id] else s.mails)
    case Report(a, stored) =>
      var pc := s.agents[a].pc;
      Moved(s, a, Reported(pc.job, pc.status)).(
        statuses := if stored then s.statuses + [StatusWrite(true, pc.job.payload, pc.status)] else s.statuses)
    case Return(a, job) => Moved(s, a, Finishing(job, s.now))
    case Finish(a) =>
      var pc := s.agents[a].pc;
      Wrote(s, a, pc.job, FinishOutcome(s.rows, pc.job), FinishKind(pc), Gone, Crashed)
    case Die(a) => Moved(s, a, Gone)
    case MarkQueued(id) => s.(statuses := s.statuses + [StatusWrite(false, s.enqueued[id], Queued)])
    case Unlock => s.(rows := Unlocked(s.rows))
    case Tick(to) => s.(now := to)
  }

  /** `steps` can be taken one after the other from `s`. */
  predicate Run(s: State, steps: seq<Step>)
    decreases |steps|
  {
    steps == [] || (Enabled(s, steps[0]) && Run(Apply(s, steps[0]), steps[1..]))
  }

  function Final(s: State, steps: seq<Step>): State
    requires Run(s, steps)
    decreases |steps|
  {
    if steps == [] then s else Final(Apply(s, steps[0]), steps[1..])
  }

  lemma {:induction false} RunExtend(s: State, steps: seq<Step>, step: Step)
    requires Run(s, steps) && Enabled(Final(s, steps), step)
    ensures Run(s, steps + [step]) && Final(s, steps + [step]) == Apply(Final(s, steps), step)
    decreases |steps|
  {
    if steps == [] {
      assert steps + [step] == [step];
    } else {
      RunExtend(Apply(s, steps[0]), steps[1..], step);
      assert (steps + [step])[1..] == steps[1..] + [step];
    }
  }

  predicate UnlockFree(steps: seq<Step>) {
    forall i :: 0 <= i < |steps| ==> !steps[i].Unlock?
  }

  // ---------------------------------------------------------------- the journal

  /** The writes to job `id`, oldest first. */
  function WritesOn(journal: seq<Write>, id: int): seq<Write> {
    if journal == [] then []
    else
      var last := journal[|journal| - 1];
      WritesOn(journal[..|journal| - 1], id) + if last.id == id then [last] else []
  }

  lemma WritesOnAppend(journal: seq<Write>, w: Write, id: int)
    ensures WritesOn(journal + [w], id) == WritesOn(journal, id) + if w.id == id then [w] else []
  {
    assert (journal + [w])[..|journal|] == journal;
  }

  /** Versions are consumed one by one; the first write inserts the job and only the last may delete it. */
  predicate Chain(ws: seq<Write>) {
    forall k :: 0 <= k < |ws| ==>
      && ws[k].base == ws[0].base + k
      && (ws[k].kind.Inserted? <==> k == 0)
      && (ws[k].kind.Dequeue? ==> k == |ws| - 1)
  }

  function Dequeues(journal: seq<Write>): nat {
    if journal == [] then 0
    else Dequeues(journal[..|journal| - 1]) + if journal[|journal| - 1].kind.Dequeue? then 1 else 0
  }

  // ---------------------------------------------------------------- invariant of every run, Unlock or not

  predicate HasJob(pc: PC) { !pc.Searching? && !pc.Gone? && !pc.Crashed? }

  /** A copy never runs ahead of its row. */
  predicate CopyOK(s: State, j: Job) {
    && 1 <= j.id < s.nextID
    && j.version >= 1
    && (j.id in s.rows ==> j.version <= s.rows[j.id].version)
  }

  predicate RowChained(s: State, id: int) {
    var ws := WritesOn(s.journal, id);
    && Chain(ws)
    && (1 <= id < s.nextID <==> ws != [])
    && (id in s.rows <==> ws != [] && !ws[|ws| - 1].kind.Dequeue?)
    && (id in s.rows ==> s.rows[id].version == ws[|ws| - 1].base + 1 && ws[0].base >= 0)
  }

  ghost predicate Chains(s: State) {
    s.nextID >= 1 && forall id :: RowChained(s, id)
  }

  predicate Copies(s: State) {
    forall a :: a in s.agents && HasJob(s.agents[a].pc) ==> CopyOK(s, s.agents[a].pc.job)
  }

  ghost predicate Counted(s: State) {
    && (forall id :: id in s.enqueued <==> 1 <= id < s.nextID)
    && |s.enqueued| == |s.rows| + Dequeues(s.journal)
  }

  ghost predicate BaseInv(s: State) {
    Chains(s) && Copies(s) && Counted(s)
  }

  /** A row that changes keeps its version or moves on; only a Dequeue removes it. */
  predicate RowsAdvance(s: State, t: State) {
    && s.nextID <= t.nextID
    && forall id :: id in t.rows && id in s.rows ==> s.rows[id].version <= t.rows[id].version
  }

  // ---------------------------------------------------------------- its preservation

  /** The journal grows by `w`: every chain stays a chain. */
  lemma AppendKeepsChains(s: State, t: State, w: Write)
    requires Chains(s)
    requires t.journal == s.journal + [w]
    requires forall id :: id != w.id ==> (id in s.rows <==> id in t.rows)
    requires forall id :: id != w.id && id in s.rows ==> t.rows[id] == s.rows[id]
    requires w.id in t.rows <==> !w.kind.Dequeue?
    requires w.id in t.rows ==> t.rows[w.id].version == w.base + 1
    requires if w.kind.Inserted? then w.id == s.nextID == t.nextID - 1 && w.base >= 0
             else t.nextID == s.nextID && w.id in s.rows && s.rows[w.id].version == w.base
    ensures Chains(t)
  {
    forall id ensures RowChained(t, id) {
      assert RowChained(s, id);
      WritesOnAppend(s.journal, w, id);
      if id == w.id {
        var ws := WritesOn(s.journal, id);
        assert WritesOn(t.journal, id) == ws + [w];
        assert w.kind.Inserted? ==> ws == [];
      }
    }
  }

  lemma RowIDs(s: State, id: int)
    requires Chains(s) && id in s.rows
    ensures 1 <= id < s.nextID && s.rows[id].version >= 1
  {
    assert RowChained(s, id);
  }

  /** Chains depend on the journal, the versions and the counter only. */
  lemma FrameKeepsChains(s: State, t: State)
    requires Chains(s)
    requires t.journal == s.journal && t.nextID == s.nextID && t.rows.Keys == s.rows.Keys
    requires forall id :: id in s.rows ==> t.rows[id].version == s.rows[id].version
    ensures Chains(t)
  {
    forall id ensures RowChained(t, id) { assert RowChained(s, id); }
  }

  lemma DequeuesAppend(journal: seq<Write>, w: Write)
    ensures Dequeues(journal + [w]) == Dequeues(journal) + if w.kind.Dequeue? then 1 else 0
  {
    assert (journal + [w])[..|journal|] == journal;
  }

  /** Only agent `a` changed its copy, to `pc`. */
  lemma MoveKeepsCopies(s: State, t: State, a: nat, agent: Agent)
    requires Copies(s) && RowsAdvance(s, t)
    requires t.agents == s.agents[a := agent]
    requires forall id :: id in t.rows && id !in s.rows ==> id >= s.nextID
    requires HasJob(agent.pc) ==> CopyOK(t, agent.pc.job)
    ensures Copies(t)
  {
    forall b | b in t.agents && HasJob(t.agents[b].pc) ensures CopyOK(t, t.agents[b].pc.job) {
      if b != a { assert CopyOK(s, s.agents[b].pc.job); }
    }
  }

  /** The shape shared by claim, release, requeue and dequeue. */
  ghost predicate Attempt(s: State, a: nat, j: Job, o: Outcome, kind: Kind, ok: PC, stale: PC) {
    && At(s, a) && HasJob(s.agents[a].pc)
    && j.id == s.agents[a].pc.job.id && j.version == s.agents[a].pc.job.version >= 1
    && o == (if kind.Dequeue? then CasDelete(s.rows, j) else CasUpdate(s.rows, j))
    && !kind.Inserted?
    && (HasJob(ok) ==> !kind.Dequeue? && ok.job == Bumped(j))
    && !HasJob(stale)
  }

  lemma WroteKeepsChains(s: State, a: nat, j: Job, o: Outcome, kind: Kind, ok: PC, stale: PC)
    requires Chains(s) && Attempt(s, a, j, o, kind, ok, stale)
    ensures Chains(Wrote(s, a, j, o, kind, ok, stale))
  {
    var t := Wrote(s, a, j, o, kind, ok, stale);
    if o.Written? {
      AppendKeepsChains(s, t, Write(j.id, j.version, s.now, kind));
    } else {
      FrameKeepsChains(s, t);
    }
  }

  lemma WroteKeepsCount(s: State, a: nat, j: Job, o: Outcome, kind: Kind, ok: PC, stale: PC)
    requires Counted(s) && Attempt(s, a, j, o, kind, ok, stale)
    ensures Counted(Wrote(s, a, j, o, kind, ok, stale))
  {
    var t := Wrote(s, a, j, o, kind, ok, stale);
    if o.Written? {
      DequeuesAppend(s.journal, Write(j.id, j.version, s.now, kind));
      assert t.rows.Keys == if kind.Dequeue? then s.rows.Keys - {j.id} else s.rows.Keys;
    }
  }

  lemma BaseWrote(s: State, a: nat, j: Job, o: Outcome, kind: Kind, ok: PC, stale: PC)
    requires BaseInv(s) && Attempt(s, a, j, o, kind, ok, stale)
    ensures BaseInv(Wrote(s, a, j, o, kind, ok, stale))
  {
    var t := Wrote(s, a, j, o, kind, ok, stale);
    assert CopyOK(s, s.agents[a].pc.job);
    WroteKeepsChains(s, a, j, o, kind, ok, stale);
    WroteKeepsCount(s, a, j, o, kind, ok, stale);
    MoveKeepsCopies(s, t, a, t.agents[a]);
  }

  /** The steps that issue a versioned UPDATE or DELETE. */
  predicate Versioned(step: Step) {
    step.TryClaim? || step.TryRelease? || step.Finish?
  }

  /** The attempt each versioned step makes. */
  function AttemptJob(s: State, step: Step): Job
    requires Enabled(s, step) && Versioned(step)
  {
    match step
    case TryClaim(a) => s.agents[a].pc.job.(workerID := s.agents[a].workerID)
    case TryRelease(a) => s.agents[a].pc.job.(workerID := "")
    case Finish(a) => s.agents[a].pc.job
  }

  /** What a versioned step leaves alone. */
  lemma {:induction false} AttemptShape(s: State, step: Step)
    requires Enabled(s, step) && Versioned(step)
    ensures
      var t, a, j := Apply(s, step), step.a, AttemptJob(s, step);
      && t.enqueued == s.enqueued && a in t.agents && t.agents == s.agents[a := t.agents[a]]
      && (HasJob(t.agents[a].pc) ==> step.TryClaim? && t.agents[a].pc == Claimed(Bumped(j)))
      && (t.rows == s.rows || (j.id in s.rows && t.rows == s.rows[j.id := Store(Bumped(j))]) || t.rows == s.rows - {j.id})
  {}

  lemma {:induction false} BaseVersioned(s: State, step: Step)
    requires BaseInv(s) && Enabled(s, step) && Versioned(step)
    ensures BaseInv(Apply(s, step))
  {
    var j := AttemptJob(s, step);
    assert CopyOK(s, s.agents[step.a].pc.job);
    match step
    case TryClaim(a) => BaseWrote(s, a, j, CasUpdate(s.rows, j), Claim, Claimed(Bumped(j)), Searching);
    case TryRelease(a) => BaseWrote(s, a, j, CasUpdate(s.rows, j), Release, Gone, Gone);
    case Finish(a) => BaseWrote(s, a, j, FinishOutcome(s.rows, j), FinishKind(s.agents[a].pc), Gone, Crashed);
  }

  lemma AddedKey<V>(m: map<int, V>, k: int, v: V)
    requires k !in m
    ensures |m[k := v]| == |m| + 1
  {
    assert m[k := v].Keys == m.Keys + {k};
  }

  lemma EnqueueKeepsCount(s: State, job: Job)
    requires Counted(s) && s.nextID !in s.rows && s.nextID >= 1 && job.version >= 0
    ensures Counted(Apply(s, Enqueue(job)))
  {
    var t := Apply(s, Enqueue(job));
    DequeuesAppend(s.journal, Write(s.nextID, job.version, s.now, Inserted));
    AddedKey(s.rows, s.nextID, InsertedRow(job));
    AddedKey(s.enqueued, s.nextID, job.payload);
  }

  lemma BaseEnqueue(s: State, job: Job)
    requires BaseInv(s) && job.version >= 0
    ensures BaseInv(Apply(s, Enqueue(job)))
  {
    var t := Apply(s, Enqueue(job));
    if s.nextID in s.rows { RowIDs(s, s.nextID); }
    AppendKeepsChains(s, t, Write(s.nextID, job.version, s.now, Inserted));
    EnqueueKeepsCount(s, job);
    forall a | a in t.agents && HasJob(t.agents[a].pc) ensures CopyOK(t, t.agents[a].pc.job) {
      assert CopyOK(s, s.agents[a].pc.job);
    }
  }

  /** The steps by which an agent moves on without touching the table. */
  predicate Local(step: Step) {
    step.SeeClosed? || step.HandOff? || step.Halt? || step.Send? || step.Report? || step.Return? || step.Die?
  }

  lemma LocalShape(s: State, step: Step)
    requires Enabled(s, step) && Local(step)
    ensures
      var t := Apply(s, step);
      && t == s.(agents := t.agents, mails := t.mails, statuses := t.statuses)
      && step.a in s.agents && step.a in t.agents
      && t.agents == s.agents[step.a := t.agents[step.a]]
      && t.agents[step.a].workerID == s.agents[step.a].workerID
      && !(t.agents[step.a].pc.Crashed? && !s.agents[step.a].pc.Crashed?)
      && (HasJob(t.agents[step.a].pc) ==>
            && HasJob(s.agents[step.a].pc)
            && t.agents[step.a].pc.Found? == s.agents[step.a].pc.Found?
            && t.agents[step.a].pc.job.id == s.agents[step.a].pc.job.id
            && t.agents[step.a].pc.job.version == s.agents[step.a].pc.job.version)
  {}

  lemma QuietKeepsCopies(s: State, step: Step)
    requires BaseInv(s) && Enabled(s, step) && !Versioned(step) && !step.Enqueue? && !step.Unlock?
    ensures Copies(Apply(s, step))
  {
    var t := Apply(s, step);
    if Local(step) {
      LocalShape(s, step);
      MoveKeepsCopies(s, t, step.a, t.agents[step.a]);
    } else if step.Find? {
      RowIDs(s, step.id);
      MoveKeepsCopies(s, t, step.a, t.agents[step.a]);
    }
  }

  lemma UnlockKeepsBase(s: State)
    requires BaseInv(s)
    ensures BaseInv(Apply(s, Unlock))
  {
    var t := Apply(s, Unlock);
    assert t.rows.Keys == s.rows.Keys;
    FrameKeepsChains(s, t);
    forall a | a in t.agents && HasJob(t.agents[a].pc) ensures CopyOK(t, t.agents[a].pc.job) {
      assert CopyOK(s, s.agents[a].pc.job);
    }
  }

  lemma BaseStep(s: State, step: Step)
    requires BaseInv(s) && Enabled(s, step)
    ensures BaseInv(Apply(s, step))
  {
    if step.Enqueue? {
      BaseEnqueue(s, step.job);
    } else if step.Unlock? {
      UnlockKeepsBase(s);
    } else if Versioned(step) {
      BaseVersioned(s, step);
    } else {
      FrameKeepsChains(s, Apply(s, step));
      QuietKeepsCopies(s, step);
    }
  }

  lemma {:induction false} BaseRun(s: State, steps: seq<Step>)
    requires BaseInv(s) && Run(s, steps)
    ensures BaseInv(Final(s, steps))
    decreases |steps|
  {
    if steps != [] {
      BaseStep(s, steps[0]);
      BaseRun(Apply(s, steps[0]), steps[1..]);
    }
  }

  lemma InitBase()
    ensures BaseInv(Init)
  {
    forall id ensures RowChained(Init, id) { }
  }
}
