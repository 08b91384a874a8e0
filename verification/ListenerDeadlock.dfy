/** Deadlocks of the listener.  acquireSenderLock waits for the sender lock while it
    holds the connection lock.  Whoever has the sender lock may need the connection
    lock before it can give it back: a sender whose write failed takes it to note
    the error, and a sender that waits for a reply over a lost connection waits for
    the receiving goroutine, which takes it to clean up. */
module ListenerDeadlock {
  import opened Listener

  /** `b` has the connection lock, and will not give it back before it has the sender lock. */
  predicate Blocks(s: State, b: nat) {
    In(s, b, WantsSender) || (In(s, b, Checking) && !s.err)
  }

  /** A query that has its place in the protocol and has not returned. */
  predicate Underway(s: State, a: nat) {
    a in s.senders && (s.senders[a].Stated? || s.senders[a].Failed? || s.senders[a].Waiting?)
  }

  predicate HasFailed(s: State, a: nat) { a in s.senders && s.senders[a].Failed? }

  predicate NoReady(replies: seq<Reply>) {
    forall i :: 0 <= i < |replies| ==> !replies[i].isReady
  }

  /** Query `a` cannot return before somebody gets the connection lock: its write
      failed, or the connection was lost with no end of the query on the channel. */
  predicate Lost(s: State, a: nat) {
    Underway(s, a) && (s.senders[a].Failed? || (s.pc.Ended? && NoReady(s.replies)))
  }

  /** The two wait for each other. */
  predicate Stuck(s: State, a: nat, b: nat) {
    Lost(s, a) && Blocks(s, b) && !s.err && s.connLock == Sender(b) && s.senderLock == Sender(a)
  }

  lemma {:induction false} StuckIff(s: State, a: nat, b: nat)
    requires Inv(s) && Lost(s, a)
    ensures Stuck(s, a, b) <==> Blocks(s, b)
  {
    if Blocks(s, b) { assert SenderOK(s, s.senders[b]); }
  }

  // ---------------------------------------------------------------- nothing leads out of it

  /** Nobody gets or gives back a lock, the connection is not closed, no error is noted, the channel stays open. */
  predicate Frozen(s: State, t: State) {
    t.connLock == s.connLock && t.senderLock == s.senderLock && t.err == s.err && t.closed == s.closed
  }

  /** All that can still happen: the server and the receiving goroutine go on, `a`
      sends or takes an error, and queries come in to wait. */
  predicate Possible(step: Step, a: nat, b: nat) {
    || step.ServerSends? || step.Receive? || step.ConnectionLost? || step.Handle? || step.Push?
    || step == SendOK(a) || step == SendFails(a, true) || step == SendFails(a, false) || step == Take(a)
    || step.Enter? || step == CheckErr(b)
  }

  lemma {:induction false} StuckLoop(s: State, step: Step, a: nat, b: nat)
    requires Inv(s) && Stuck(s, a, b) && Enabled(s, step) && OfLoop(step)
    ensures Stuck(Apply(s, step), a, b) && Frozen(s, Apply(s, step)) && Possible(step, a, b)
  {
    LoopShape(s, step);
  }

  lemma {:induction false} StuckOpening(s: State, step: Step, a: nat, b: nat)
    requires Inv(s) && Stuck(s, a, b) && Enabled(s, step) && Opening(step)
    ensures Stuck(Apply(s, step), a, b) && Frozen(s, Apply(s, step)) && Possible(step, a, b)
  {
    if !step.Enter? { assert UsesSender(s.senders[step.a]) <==> step.a == a; }
  }

  lemma {:induction false} StuckClosing(s: State, step: Step, a: nat, b: nat)
    requires Inv(s) && Stuck(s, a, b) && Enabled(s, step) && !OfLoop(step) && !Opening(step)
    ensures Stuck(Apply(s, step), a, b) && Frozen(s, Apply(s, step)) && Possible(step, a, b)
  {
    assert UsesSender(s.senders[step.a]) && step.a == a;
    if step.Take? { FewerStayUnready(s.replies); }
  }

  lemma FewerStayUnready(replies: seq<Reply>)
    requires replies != [] && NoReady(replies)
    ensures NoReady(replies[1..])
  {}

  lemma {:induction false} StuckStep(s: State, step: Step, a: nat, b: nat)
    requires Inv(s) && Stuck(s, a, b) && Enabled(s, step)
    ensures Stuck(Apply(s, step), a, b) && Frozen(s, Apply(s, step)) && Possible(step, a, b)
  {
    if OfLoop(step) {
      StuckLoop(s, step, a, b);
    } else if Opening(step) {
      StuckOpening(s, step, a, b);
    } else {
      StuckClosing(s, step, a, b);
    }
  }

  /** No run leaves the deadlock: the query never returns, no other query is ever
      sent, and the connection can neither be closed nor cleaned up. */
  lemma {:induction false} StuckForever(s: State, steps: seq<Step>, a: nat, b: nat)
    requires Inv(s) && Stuck(s, a, b) && Run(s, steps)
    ensures Stuck(Final(s, steps), a, b) && Frozen(s, Final(s, steps))
    ensures forall i :: 0 <= i < |steps| ==> Possible(steps[i], a, b)
    decreases |steps|
  {
    if steps != [] {
      StuckStep(s, steps[0], a, b);
      Preserved(s, steps[0]);
      StuckForever(Apply(s, steps[0]), steps[1..], a, b);
      assert forall i :: 1 <= i < |steps| ==> steps[i] == steps[1..][i - 1];
    }
  }

  // ---------------------------------------------------------------- when it arises

  /** One more step of a continuation. */
  lemma {:induction false} Onward(s: State, before: seq<Step>, step: Step) returns (steps: seq<Step>)
    requires Run(s, before) && Inv(Final(s, before)) && Enabled(Final(s, before), step)
    ensures Run(s, steps) && Final(s, steps) == Apply(Final(s, before), step) && Inv(Final(s, steps))
  {
    RunExtend(s, before, step);
    Preserved(Final(s, before), step);
    steps := before + [step];
  }

  /** With the connection lock free, a failed query can return. */
  lemma {:induction false} AbandonsNow(s: State, before: seq<Step>, a: nat) returns (steps: seq<Step>)
    requires Run(s, before) && Inv(Final(s, before)) && HasFailed(Final(s, before), a) && Final(s, before).connLock == Nobody
    ensures Run(s, steps) && In(Final(s, steps), a, Returned)
  {
    steps := Onward(s, before, LockToAbandon(a));
    steps := Onward(s, steps, Abandon(a));
    steps := Onward(s, steps, Release(a));
  }

  /** The end of the query is on the channel. */
  lemma {:induction false} TakesReady(s: State, before: seq<Step>, a: nat) returns (steps: seq<Step>)
    requires Run(s, before) && Inv(Final(s, before)) && a in Final(s, before).senders && Final(s, before).senders[a].Waiting?
    requires !NoReady(Final(s, before).replies)
    ensures Run(s, steps) && In(Final(s, steps), a, Returned)
  {
    steps := before;
    ReadyIsLast(Final(s, before));
    if !Final(s, before).replies[0].isReady { steps := Onward(s, steps, Take(a)); }
    steps := TakesLast(s, steps, a);
  }

  lemma {:induction false} ReadyIsLast(s: State)
    requires RepliesOK(s) && !NoReady(s.replies)
    ensures 1 <= |s.replies| <= 2 && s.replies[|s.replies| - 1].isReady
  {}

  lemma {:induction false} TakesLast(s: State, before: seq<Step>, a: nat) returns (steps: seq<Step>)
    requires Run(s, before) && Inv(Final(s, before)) && a in Final(s, before).senders && Final(s, before).senders[a].Waiting?
    requires var replies := Final(s, before).replies; replies != [] && replies[0].isReady
    ensures Run(s, steps) && In(Final(s, steps), a, Returned)
  {
    steps := Onward(s, before, Take(a));
    steps := Onward(s, steps, Release(a));
  }

  /** The channel is closed with no end of the query on it. */
  lemma {:induction false} TakesClosed(s: State, before: seq<Step>, a: nat) returns (steps: seq<Step>)
    requires Run(s, before) && Inv(Final(s, before)) && a in Final(s, before).senders && Final(s, before).senders[a].Waiting?
    requires NoReady(Final(s, before).replies) && Final(s, before).pc.Exited?
    ensures Run(s, steps) && In(Final(s, steps), a, Returned)
  {
    steps := before;
    if Final(s, before).replies != [] {
      assert |Final(s, before).replies| == 1;
      steps := Onward(s, steps, Take(a));
    }
    steps := Onward(s, steps, TakeClosed(a));
    steps := Onward(s, steps, Release(a));
  }

  /** The receiving goroutine finishes once it has the connection lock. */
  lemma {:induction false} CleansUp(s: State, before: seq<Step>) returns (steps: seq<Step>)
    requires Run(s, before) && Inv(Final(s, before))
    requires var p := Final(s, before).pc; p.Cleaning? || p.Cleaned? || (p.Ended? && Final(s, before).connLock == Nobody)
    ensures Run(s, steps) && Inv(Final(s, steps)) && Final(s, steps).pc.Exited?
    ensures Final(s, steps).senders == Final(s, before).senders && Final(s, steps).replies == Final(s, before).replies
  {
    steps := before;
    if Final(s, steps).pc.Ended? { steps := Onward(s, steps, LockToClean); }
    if Final(s, steps).pc.Cleaning? { steps := Onward(s, steps, Clean); }
    steps := Onward(s, steps, CloseChannel);
  }

  /** Beside a query that is underway, a sender that has the connection lock and does not block is about to see the error. */
  lemma {:induction false} HolderChecks(s: State, a: nat, b: nat)
    requires Inv(s) && Underway(s, a) && s.connLock == Sender(b) && !Blocks(s, b)
    ensures In(s, b, Checking) && s.err && a != b
  {
    assert UsesConn(s.senders[b]);
    assert UsesSender(s.senders[a]);
  }

  /** The connection lock can be freed, unless somebody blocks it. */
  lemma {:induction false} Freed(s: State, before: seq<Step>, a: nat) returns (steps: seq<Step>)
    requires Run(s, before) && Inv(Final(s, before)) && Underway(Final(s, before), a) && forall b :: !Blocks(Final(s, before), b)
    ensures Run(s, steps) && Inv(Final(s, steps)) && Final(s, steps).connLock == Nobody
    ensures
      var t, u := Final(s, before), Final(s, steps);
      a in u.senders && u.senders[a] == t.senders[a] && u.replies == t.replies && (u.pc == t.pc || u.pc.Cleaned?)
  {
    steps := before;
    var t := Final(s, before);
    if t.connLock == TheLoop {
      steps := Onward(s, steps, Clean);
    } else if t.connLock != Nobody {
      HolderChecks(t, a, t.connLock.a);
      steps := Onward(s, steps, CheckErr(t.connLock.a));
    }
  }

  /** Some continuation lets query `a` return. */
  ghost predicate CanReturn(s: State, a: nat) {
    exists steps :: Run(s, steps) && In(Final(s, steps), a, Returned)
  }

  /** The receiving goroutine still reads from the socket. */
  predicate Reads(pc: LoopPC) { pc.Receiving? || pc.Handling? || pc.Pushing? }

  lemma {:induction false} FailedReturns(s: State, a: nat)
    requires Inv(s) && HasFailed(s, a) && forall b :: !Blocks(s, b)
    ensures CanReturn(s, a)
  {
    var free := Freed(s, [], a);
    var back := AbandonsNow(s, free, a);
  }

  lemma {:induction false} WaitingReturns(s: State, before: seq<Step>, a: nat)
    requires Run(s, before) && Inv(Final(s, before)) && a in Final(s, before).senders && Final(s, before).senders[a].Waiting?
    requires !Reads(Final(s, before).pc)
    requires Lost(Final(s, before), a) ==> forall b :: !Blocks(Final(s, before), b)
    ensures CanReturn(s, a)
  {
    var t := Final(s, before);
    if !NoReady(t.replies) {
      var back := TakesReady(s, before, a);
    } else {
      var steps := before;
      if t.pc.Ended? { steps := Freed(s, steps, a); }
      if !Final(s, steps).pc.Exited? { steps := CleansUp(s, steps); }
      var back := TakesClosed(s, steps, a);
    }
  }

  lemma {:induction false} UnderwayReturns(s: State, a: nat)
    requires Inv(s) && Underway(s, a) && (Lost(s, a) ==> forall b :: !Blocks(s, b))
    requires s.senders[a].Failed? || !Reads(s.pc)
    ensures CanReturn(s, a)
  {
    if s.senders[a].Failed? {
      FailedReturns(s, a);
    } else if s.senders[a].Stated? {
      var sent := Onward(s, [], SendOK(a));
      assert forall b :: Blocks(Final(s, sent), b) ==> Blocks(s, b);
      WaitingReturns(s, sent, a);
    } else {
      WaitingReturns(s, [], a);
    }
  }

  /** A query whose write failed, or whose connection was lost, can still return
      exactly unless it is lost while somebody who saw no error, or is about to see
      none, holds the connection lock. */
  lemma {:induction false} ReturnsIff(s: State, a: nat)
    requires Inv(s) && Underway(s, a) && (s.senders[a].Failed? || !Reads(s.pc))
    ensures CanReturn(s, a) <==> !(Lost(s, a) && exists b :: Blocks(s, b))
  {
    if Lost(s, a) && exists b :: Blocks(s, b) {
      var b :| Blocks(s, b);
      StuckIff(s, a, b);
      forall steps | Run(s, steps) ensures !In(Final(s, steps), a, Returned) { StuckForever(s, steps, a, b); }
    } else {
      UnderwayReturns(s, a);
    }
  }

  // ---------------------------------------------------------------- it does arise

  lemma {:induction false} AboutToSend() returns (steps: seq<Step>)
    ensures Run(Init, steps)
    ensures Final(Init, steps) == Init.(senders := map[1 := HasBoth], connLock := Sender(1), senderLock := Sender(1))
  {
    steps := Then([], Enter(1));
    steps := Then(steps, LockConn(1));
    steps := Then(steps, CheckErr(1));
    steps := Then(steps, LockSender(1));
    assert Final(Init, steps).senders == map[1 := HasBoth];
  }

  lemma {:induction false} FirstQuery() returns (steps: seq<Step>)
    ensures Run(Init, steps)
    ensures
      var s := Final(Init, steps);
      && s.senders == map[1 := Stated(1)] && s.connLock == Nobody && s.senderLock == Sender(1) && !s.err
      && s.pc.Receiving? && s.replies == []
  {
    steps := AboutToSend();
    steps := Then(steps, UnlockConn(1));
    steps := Then(steps, SetState(1));
  }

  /** A second query comes and finds no error. */
  lemma {:induction false} SecondQuery(before: seq<Step>) returns (steps: seq<Step>)
    requires Run(Init, before) && 2 !in Final(Init, before).senders
    requires Final(Init, before).connLock == Nobody && !Final(Init, before).err
    ensures Run(Init, steps)
    ensures
      var s := Final(Init, before);
      Final(Init, steps) == s.(senders := s.senders[2 := WantsSender], connLock := Sender(2))
  {
    steps := Then(before, Enter(2));
    steps := Then(steps, LockConn(2));
    steps := Then(steps, CheckErr(2));
    var s := Final(Init, before);
    assert Final(Init, steps).senders == s.senders[2 := WantsSender];
  }

  /** A write fails, and a second query takes the connection lock first. */
  lemma {:induction false} FailedWriteDeadlocks() returns (steps: seq<Step>)
    ensures Run(Init, steps) && Stuck(Final(Init, steps), 1, 2) && HasFailed(Final(Init, steps), 1)
  {
    steps := FirstQuery();
    steps := Then(steps, SendFails(1, false));
    steps := SecondQuery(steps);
  }

  /** The connection is lost while one query waits for its reply and a second one comes in. */
  lemma {:induction false} LostConnectionDeadlocks() returns (steps: seq<Step>)
    ensures Run(Init, steps) && Stuck(Final(Init, steps), 1, 2) && In(Final(Init, steps), 1, Waiting(1))
  {
    steps := FirstQuery();
    steps := Then(steps, SendOK(1));
    steps := Then(steps, ConnectionLost);
    steps := SecondQuery(steps);
  }
}
