/** What the listener's loop does with each message, and that queries get their
    answers: the loop gives up exactly on messages that the protocol does not allow
    at that point, and otherwise carries the server's answer to the query. */
module ListenerProgress {
  import opened Listener
  import opened ListenerDeadlock

  // ---------------------------------------------------------------- one message

  /** The loop ends exactly on an unexpected message, on an error or a completion
      when no response is due, and on a ready message before the response. */
  lemma {:induction false} GivesUpIff(s: State)
    requires s.pc.Handling?
    ensures
      var m := s.pc.packet.m;
      Apply(s, Handle).pc == Ended <==>
        || m == Unexpected
        || ((m == ErrorResponse || m == CommandComplete) && s.connState != ExpectResponse)
        || (m == ReadyForQuery && s.connState != ExpectReady)
  {}

  /** When it goes on: an error or a ready message is put on the channel and moves the
      state, a completion moves the state only, a notification or a notice neither. */
  lemma {:induction false} GoesOn(s: State)
    requires s.pc.Handling? && Apply(s, Handle).pc != Ended
    ensures
      var m, t := s.pc.packet.m, Apply(s, Handle);
      && t == s.(pc := t.pc, connState := t.connState)
      && (m == ErrorResponse ==> t.pc == Pushing(Reply(false, s.started, s.pc.packet)) && t.connState == ExpectReady)
      && (m == CommandComplete ==> t.pc == Receiving && t.connState == ExpectReady)
      && (m == ReadyForQuery ==> t.pc == Pushing(Reply(true, s.started, s.pc.packet)) && t.connState == Idle)
      && (m == Notification || m == Notice ==> t.pc == Receiving && t.connState == s.connState)
  {}

  // ---------------------------------------------------------------- a query is answered

  /** Query `a` waits for its response, and nothing is on its way to it. */
  predicate Expects(s: State, a: nat) {
    && Inv(s) && a in s.senders && s.senders[a].Waiting?
    && s.connState == ExpectResponse && s.pc == Receiving && s.wire == []
  }

  /** The server sends `m`, and the loop reads it. */
  lemma {:induction false} Receives(s: State, before: seq<Step>, m: ServerMessage) returns (steps: seq<Step>)
    requires Run(s, before) && Inv(Final(s, before)) && Final(s, before).pc == Receiving && Final(s, before).wire == []
    ensures Run(s, steps) && Inv(Final(s, steps))
    ensures
      var t := Final(s, before);
      var p := Packet(m, t.received, t.ended);
      Final(s, steps) == t.(pc := Handling(p), ended := t.ended + Ends(p))
  {
    steps := Onward(s, before, ServerSends(m));
    var p := Packet(m, Final(s, before).received, Final(s, before).ended);
    assert Final(s, steps).wire == [p];
    steps := Onward(s, steps, Receive);
  }

  /** And handles it. */
  lemma {:induction false} Handles(s: State, before: seq<Step>, m: ServerMessage) returns (steps: seq<Step>)
    requires Run(s, before) && Inv(Final(s, before)) && Final(s, before).pc == Receiving && Final(s, before).wire == []
    ensures Run(s, steps) && Inv(Final(s, steps))
    ensures
      var t := Final(s, before);
      var p := Packet(m, t.received, t.ended);
      Final(s, steps) == Handled(t.(pc := Handling(p), ended := t.ended + Ends(p)))
  {
    steps := Receives(s, before, m);
    steps := Onward(s, steps, Handle);
  }

  /** A message that the state allows is handled and, if it is a reply, put on the channel. */
  lemma {:induction false} Delivers(s: State, before: seq<Step>, m: ServerMessage) returns (steps: seq<Step>)
    requires Run(s, before) && Inv(Final(s, before)) && Final(s, before).pc == Receiving && Final(s, before).wire == []
    requires m == ErrorResponse || m == CommandComplete || m == ReadyForQuery
    requires Final(s, before).connState == if m == ReadyForQuery then ExpectReady else ExpectResponse
    ensures Run(s, steps) && Inv(Final(s, steps))
    ensures
      var t, u := Final(s, before), Final(s, steps);
      && u.pc == Receiving && u.wire == [] && u.connState == (if m == ReadyForQuery then Idle else ExpectReady)
      && u.senders == t.senders && u.consumed == t.consumed && u.err == t.err && u.started == t.started
      && (m == CommandComplete ==> u.replies == t.replies)
      && (m != CommandComplete ==>
            u.replies == t.replies + [Reply(m == ReadyForQuery, t.started, Packet(m, t.received, t.ended))])
  {
    steps := Handles(s, before, m);
    if m != CommandComplete { steps := Onward(s, steps, Push); }
  }

  /** What a query got: it returned, and these are the replies it took. */
  predicate Got(s: State, u: State, a: nat, messages: seq<ServerMessage>)
    requires a in s.senders && s.senders[a].Waiting?
  {
    && In(u, a, Returned) && u.err == s.err
    && |u.consumed| == |s.consumed| + |messages| && u.consumed[..|s.consumed|] == s.consumed
    && forall i :: 0 <= i < |messages| ==>
         var (query, r) := u.consumed[|s.consumed| + i];
         query == s.senders[a].query && r.packet.m == messages[i] && r.isReady == (messages[i] == ReadyForQuery)
  }

  lemma {:induction false} ExpectsNothing(s: State, a: nat)
    requires Expects(s, a)
    ensures s.replies == [] && s.senders[a].query == s.started
  {
    assert SenderOK(s, s.senders[a]);
  }

  /** The query takes the reply, which is not the last one. */
  lemma {:induction false} TakesError(s: State, before: seq<Step>, a: nat) returns (steps: seq<Step>)
    requires Run(s, before) && Inv(Final(s, before)) && a in Final(s, before).senders && Final(s, before).senders[a].Waiting?
    requires |Final(s, before).replies| > 0 && !Final(s, before).replies[0].isReady
    ensures Run(s, steps) && Inv(Final(s, steps))
    ensures
      var t := Final(s, before);
      Final(s, steps) == t.(replies := t.replies[1..], consumed := t.consumed + [(t.senders[a].query, t.replies[0])])
  {
    steps := Onward(s, before, Take(a));
  }

  /** The query takes the ready message and returns. */
  lemma {:induction false} TakesTheReady(s: State, before: seq<Step>, a: nat) returns (steps: seq<Step>)
    requires Run(s, before) && Inv(Final(s, before)) && a in Final(s, before).senders && Final(s, before).senders[a].Waiting?
    requires |Final(s, before).replies| > 0 && Final(s, before).replies[0].isReady
    ensures Run(s, steps) && In(Final(s, steps), a, Returned)
    ensures
      var t, u := Final(s, before), Final(s, steps);
      u.consumed == t.consumed + [(t.senders[a].query, t.replies[0])] && u.err == t.err && u.connState == t.connState
  {
    steps := Onward(s, before, Take(a));
    steps := Onward(s, steps, Release(a));
  }

  /** A query that succeeds: the server's completion and ready message bring it back
      with the ready message alone. */
  lemma {:induction false} SuccessIsReported(s: State, a: nat) returns (steps: seq<Step>)
    requires Expects(s, a)
    ensures Run(s, steps) && Got(s, Final(s, steps), a, [ReadyForQuery]) && Final(s, steps).connState == Idle
  {
    ExpectsNothing(s, a);
    steps := Delivers(s, [], CommandComplete);
    steps := Delivers(s, steps, ReadyForQuery);
    var t := Final(s, steps);
    steps := TakesTheReady(s, steps, a);
    assert Final(s, steps).consumed[|s.consumed|] == (s.senders[a].query, t.replies[0]);
  }

  /** A query that fails: the server's error and ready message bring it back with both. */
  lemma {:induction false} FailureIsReported(s: State, a: nat) returns (steps: seq<Step>)
    requires Expects(s, a)
    ensures Run(s, steps) && Got(s, Final(s, steps), a, [ErrorResponse, ReadyForQuery]) && Final(s, steps).connState == Idle
  {
    ExpectsNothing(s, a);
    steps := Delivers(s, [], ErrorResponse);
    steps := Delivers(s, steps, ReadyForQuery);
    var t := Final(s, steps);
    steps := TakesError(s, steps, a);
    steps := TakesTheReady(s, steps, a);
    assert Final(s, steps).consumed == s.consumed + [(s.senders[a].query, t.replies[0]), (s.senders[a].query, t.replies[1])];
  }

  /** Reachable states in which a query waits for its response on a live loop and an empty wire are such states. */
  lemma {:induction false} WaitingExpects(steps: seq<Step>, a: nat)
    requires Run(Init, steps)
    requires
      var s := Final(Init, steps);
      a in s.senders && s.senders[a].Waiting? && s.connState == ExpectResponse && s.pc == Receiving && s.wire == []
    ensures Expects(Final(Init, steps), a)
  {
    InvRun(Init, steps);
  }

  // ---------------------------------------------------------------- a closed connection

  /** Whoever comes once the error is noted gets no further than the check for it. */
  predicate TurnedAway(s: State, a: nat) {
    s.err && (a in s.senders ==> s.senders[a] == Start || s.senders[a] == Checking || s.senders[a] == Returned)
  }

  lemma {:induction false} TurnedAwayStep(s: State, step: Step, a: nat)
    requires TurnedAway(s, a) && Enabled(s, step)
    ensures TurnedAway(Apply(s, step), a)
  {
    if OfLoop(step) { LoopShape(s, step); } else { SenderShape(s, step); }
    FreedBy(s, step);
  }

  lemma {:induction false} TurnedAwayForGood(s: State, steps: seq<Step>, a: nat)
    requires TurnedAway(s, a) && Run(s, steps)
    ensures TurnedAway(Final(s, steps), a)
    decreases |steps|
  {
    if steps != [] {
      TurnedAwayStep(s, steps[0], a);
      TurnedAwayForGood(Apply(s, steps[0]), steps[1..], a);
    }
  }

  /** After Close no new query is ever sent. */
  lemma {:induction false} NoQueryAfterClose(s: State, steps: seq<Step>, a: nat)
    requires Enabled(s, Close) && a !in s.senders && Run(Apply(s, Close), steps)
    ensures
      var t := Final(Apply(s, Close), steps);
      a in t.senders ==> t.senders[a] == Start || t.senders[a] == Checking || t.senders[a] == Returned
  {
    TurnedAwayForGood(Apply(s, Close), steps, a);
  }

  /** And it is told so. */
  lemma {:induction false} RefusedAfterError(s: State, a: nat)
    requires s.err && In(s, a, Checking)
    ensures
      var t := Apply(s, CheckErr(a));
      Enabled(s, CheckErr(a)) && In(t, a, Returned) && t.connLock == Nobody && t.started == s.started
  {}
}
