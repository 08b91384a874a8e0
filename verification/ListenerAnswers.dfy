/** Which query a reply answers.  A reply is taken from the channel by the query
    for which it was accepted; that this query is the one the server meant holds
    exactly as long as the server speaks only when it owes an answer. */
module ListenerAnswers {
  import opened Listener

  // ---------------------------------------------------------------- bookkeeping

  /** What the receiver has still to handle, in the order it was sent. */
  function Ahead(s: State): seq<Packet> {
    if s.pc.Handling? then [s.pc.packet] + s.wire else s.wire
  }

  /** The counters of the packets ahead follow one another up to the server's. */
  predicate Linked(ahead: seq<Packet>, ended: nat) {
    ahead == [] || (ahead[0].ended + Ends(ahead[0]) == EndedSoFar(ahead[1..], ended) && Linked(ahead[1..], ended))
  }

  /** The queries ended by everything the receiver has handled. */
  function EndedSoFar(ahead: seq<Packet>, ended: nat): nat {
    if ahead == [] then ended else ahead[0].ended
  }

  /** The queries the client has seen end. */
  function Done(s: State): int {
    if s.connState == Idle then s.started else s.started - 1
  }

  predicate Alive(pc: LoopPC) { pc.Receiving? || pc.Handling? || pc.Pushing? }

  predicate Timely(s: State) {
    && s.received <= s.started
    && forall i :: 0 <= i < |Ahead(s)| ==> Ahead(s)[i].after <= s.received
  }

  function Taken(consumed: seq<(nat, Reply)>): (r: seq<Reply>)
    ensures |r| == |consumed|
  {
    seq(|consumed|, i requires 0 <= i < |consumed| => consumed[i].1)
  }

  /** The replies accepted so far: those taken, and those on their way. */
  function Accepted(s: State): seq<Reply> { Taken(s.consumed) + Pending(s) }

  predicate Fine(r: Reply) { Owed(r.packet) && Answers(r, r.query) }

  predicate AllFine(replies: seq<Reply>) {
    forall i :: 0 <= i < |replies| ==> Fine(replies[i])
  }

  /** Behind fine replies, a reply answers its query exactly when it was owed. */
  predicate FirstFault(replies: seq<Reply>) {
    forall j :: 0 <= j < |replies| && AllFine(replies[..j]) ==>
      (Owed(replies[j].packet) <==> Answers(replies[j], replies[j].query))
  }

  predicate InStep(s: State) {
    AllFine(Accepted(s)) && Alive(s.pc) ==> EndedSoFar(Ahead(s), s.ended) == Done(s)
  }

  predicate AnswerInv(s: State) {
    Linked(Ahead(s), s.ended) && Timely(s) && FirstFault(Accepted(s)) && InStep(s)
  }

  // ---------------------------------------------------------------- its preservation

  lemma FirstFaultAppend(replies: seq<Reply>, r: Reply)
    requires FirstFault(replies)
    requires AllFine(replies) ==> (Owed(r.packet) <==> Answers(r, r.query))
    ensures FirstFault(replies + [r])
    ensures AllFine(replies + [r]) <==> AllFine(replies) && Fine(r)
  {
    var more := replies + [r];
    forall j | 0 <= j < |more| && AllFine(more[..j])
      ensures Owed(more[j].packet) <==> Answers(more[j], more[j].query)
    {
      assert more[..j] == replies[..j];
      if j == |replies| { assert replies[..j] == replies; }
    }
    if AllFine(more) {
      assert Fine(more[|replies|]);
      forall i | 0 <= i < |replies| ensures Fine(replies[i]) { assert Fine(more[i]); }
    }
  }

  lemma {:induction false} LinkedAppend(ahead: seq<Packet>, ended: nat, p: Packet)
    requires Linked(ahead, ended) && p.ended == ended
    ensures Linked(ahead + [p], ended + Ends(p))
    ensures EndedSoFar(ahead + [p], ended + Ends(p)) == EndedSoFar(ahead, ended)
  {
    if ahead == [] {
      assert ahead + [p] == [p];
    } else {
      LinkedAppend(ahead[1..], ended, p);
      assert (ahead + [p])[1..] == ahead[1..] + [p];
    }
  }

  /** What Handle does to the replies accepted. */
  lemma {:induction false} HandleAccepts(s: State)
    requires s.pc.Handling?
    ensures
      var t := Apply(s, Handle);
      && t.consumed == s.consumed && t.started == s.started && t.wire == s.wire && t.ended == s.ended && t.received == s.received
      && (t.pc.Pushing? ==>
            && Accepted(t) == Accepted(s) + [t.pc.r]
            && t.pc.r.packet == s.pc.packet && t.pc.r.query == s.started && s.connState != Idle
            && (Done(t) == Done(s) + if s.pc.packet.m == ReadyForQuery then 1 else 0))
      && (!t.pc.Pushing? ==>
            && Accepted(t) == Accepted(s)
            && (Alive(t.pc) ==> Done(t) == Done(s) && s.pc.packet.m != ReadyForQuery))
  {
    var t := Apply(s, Handle);
    assert Pending(s) == s.replies;
    if t.pc.Pushing? {
      assert Pending(t) == s.replies + [t.pc.r];
      assert Accepted(t) == Taken(s.consumed) + s.replies + [t.pc.r];
    }
  }

  lemma AnswerHandle(s: State)
    requires AnswerInv(s) && s.pc.Handling?
    ensures AnswerInv(Apply(s, Handle))
  {
    var t := Apply(s, Handle);
    var p := s.pc.packet;
    HandleAccepts(s);
    assert Ahead(s)[1..] == s.wire == Ahead(t);
    assert Ahead(s)[0] == p && p.after <= s.received;
    forall i | 0 <= i < |Ahead(t)| ensures Ahead(t)[i].after <= t.received { assert Ahead(t)[i] == Ahead(s)[i + 1]; }
    if t.pc.Pushing? {
      assert AllFine(Accepted(s)) ==> p.ended == s.started - 1;
      FirstFaultAppend(Accepted(s), t.pc.r);
    }
  }

  lemma {:induction false} AnswerServerSends(s: State, m: ServerMessage)
    requires AnswerInv(s)
    ensures AnswerInv(Apply(s, ServerSends(m)))
  {
    var t := Apply(s, ServerSends(m));
    var p := Packet(m, s.received, s.ended);
    SendsBehind(s, m, p);
    LinkedAppend(Ahead(s), s.ended, p);
  }

  lemma {:induction false} SendsBehind(s: State, m: ServerMessage, p: Packet)
    requires p == Packet(m, s.received, s.ended)
    ensures
      var t := Apply(s, ServerSends(m));
      Ahead(t) == Ahead(s) + [p] && Accepted(t) == Accepted(s) && t.ended == s.ended + Ends(p) && Done(t) == Done(s)
  {}

  lemma AnswerReceive(s: State)
    requires AnswerInv(s) && Enabled(s, Receive)
    ensures AnswerInv(Apply(s, Receive))
  {
    var t := Apply(s, Receive);
    assert Ahead(t) == Ahead(s);
    assert Accepted(t) == Accepted(s);
  }

  lemma AnswerTake(s: State, a: nat)
    requires AnswerInv(s) && RepliesOK(s) && Enabled(s, Take(a))
    ensures AnswerInv(Apply(s, Take(a)))
  {
    var t := Apply(s, Take(a));
    TakeKeepsAccepted(s, a);
    assert Ahead(t) == Ahead(s);
  }

  lemma TakenMore(consumed: seq<(nat, Reply)>, query: nat, r: Reply)
    ensures Taken(consumed + [(query, r)]) == Taken(consumed) + [r]
  {}

  lemma TakeKeepsAccepted(s: State, a: nat)
    requires RepliesOK(s) && Enabled(s, Take(a))
    ensures var t := Apply(s, Take(a)); Accepted(t) == Accepted(s) && Done(t) == Done(s)
  {
    TakeShape(s, a);
    TakenMore(s.consumed, s.senders[a].query, s.replies[0]);
    HandedOver(Taken(s.consumed), Pending(s));
  }

  lemma HandedOver(taken: seq<Reply>, pending: seq<Reply>)
    requires pending != []
    ensures (taken + [pending[0]]) + pending[1..] == taken + pending
  {}

  /** Steps that touch none of this, or only move a query to the server. */
  predicate Aside(step: Step) {
    !step.Handle? && !step.ServerSends? && !step.Receive? && !step.Take?
  }

  lemma {:induction false} AsideShape(s: State, step: Step)
    requires Enabled(s, step) && Aside(step)
    ensures
      var t := Apply(s, step);
      && t.consumed == s.consumed && t.wire == s.wire && t.ended == s.ended && Pending(t) == Pending(s)
      && Done(t) == Done(s) && s.started <= t.started && (Alive(t.pc) ==> Alive(s.pc))
  {
    AsideKeepsWire(s, step);
  }

  lemma {:induction false} AsideKeepsWire(s: State, step: Step)
    requires Enabled(s, step) && Aside(step)
    ensures
      var t := Apply(s, step);
      t.consumed == s.consumed && t.wire == s.wire && t.ended == s.ended && Pending(t) == Pending(s)
  {
    if step.Push? { assert Pending(Apply(s, step)) == Pending(s); }
  }

  lemma AsideReaches(s: State, step: Step)
    requires Inv(s) && s.received <= s.started && Enabled(s, step) && Aside(step)
    ensures s.received <= Apply(s, step).received <= Apply(s, step).started
  {
    if step.SendOK? || step.SendFails? { assert SenderOK(s, s.senders[step.a]); }
  }

  lemma AnswerAside(s: State, step: Step)
    requires Inv(s) && AnswerInv(s) && Enabled(s, step) && Aside(step)
    ensures AnswerInv(Apply(s, step))
  {
    AsideShape(s, step);
    AsideReaches(s, step);
    AsideKeepsAhead(s, step);
  }

  lemma AsideKeepsAhead(s: State, step: Step)
    requires Enabled(s, step) && Aside(step)
    ensures Ahead(Apply(s, step)) == Ahead(s)
  {}

  lemma AnswerStep(s: State, step: Step)
    requires Inv(s) && AnswerInv(s) && Enabled(s, step)
    ensures AnswerInv(Apply(s, step))
  {
    if step.Handle? {
      AnswerHandle(s);
    } else if step.ServerSends? {
      AnswerServerSends(s, step.m);
    } else if step.Receive? {
      AnswerReceive(s);
    } else if step.Take? {
      AnswerTake(s, step.a);
    } else {
      AnswerAside(s, step);
    }
  }

  lemma {:induction false} AnswerRun(s: State, steps: seq<Step>)
    requires Inv(s) && AnswerInv(s) && Run(s, steps)
    ensures Inv(Final(s, steps)) && AnswerInv(Final(s, steps))
    decreases |steps|
  {
    if steps != [] {
      Preserved(s, steps[0]);
      AnswerStep(s, steps[0]);
      AnswerRun(Apply(s, steps[0]), steps[1..]);
    }
  }

  // ---------------------------------------------------------------- theorems

  lemma AcceptedPrefix(s: State, i: nat)
    requires i < |s.consumed|
    ensures i < |Accepted(s)| && Accepted(s)[i] == s.consumed[i].1 && Accepted(s)[..i] == Taken(s.consumed)[..i]
  {}

  /** Each reply is taken by the query it was accepted for. */
  lemma {:induction false} TakenByItsQuery(steps: seq<Step>, i: nat)
    requires Run(Init, steps) && i < |Final(Init, steps).consumed|
    ensures
      var (query, r) := Final(Init, steps).consumed[i];
      r.query == query && (r.packet.m == ErrorResponse || r.packet.m == ReadyForQuery)
  {
    InvRun(Init, steps);
    var s := Final(Init, steps);
    assert ErrorFor(s.consumed[i].1, s.consumed[i].0) || ReadyFor(s.consumed[i].1, s.consumed[i].0);
  }

  predicate AllOwed(consumed: seq<(nat, Reply)>) {
    forall i :: 0 <= i < |consumed| ==> Owed(consumed[i].1.packet)
  }

  predicate AllAnswer(consumed: seq<(nat, Reply)>) {
    forall i :: 0 <= i < |consumed| ==> Answers(consumed[i].1, consumed[i].0)
  }

  /** The first reply that does not answer the query taking it is the first that
      the server sent without owing an answer. */
  lemma {:induction false} FirstStrayReply(steps: seq<Step>, i: nat)
    requires Run(Init, steps) && i < |Final(Init, steps).consumed|
    requires AllOwed(Final(Init, steps).consumed[..i]) || AllAnswer(Final(Init, steps).consumed[..i])
    ensures
      var consumed := Final(Init, steps).consumed;
      && AllOwed(consumed[..i]) && AllAnswer(consumed[..i])
      && (Answers(consumed[i].1, consumed[i].0) <==> Owed(consumed[i].1.packet))
  {
    AnswerRun(Init, steps);
    var s := Final(Init, steps);
    FineUpTo(steps, s, i);
    AcceptedPrefix(s, i);
    TakenByItsQuery(steps, i);
  }

  lemma {:induction false} FineUpTo(steps: seq<Step>, s: State, i: nat)
    requires Run(Init, steps) && s == Final(Init, steps) && AnswerInv(s) && i <= |s.consumed|
    requires AllOwed(s.consumed[..i]) || AllAnswer(s.consumed[..i])
    ensures AllOwed(s.consumed[..i]) && AllAnswer(s.consumed[..i]) && AllFine(Taken(s.consumed)[..i])
  {
    if i > 0 {
      var k := i - 1;
      assert s.consumed[..i][..k] == s.consumed[..k];
      assert AllOwed(s.consumed[..k]) || AllAnswer(s.consumed[..k]) by {
        if AllOwed(s.consumed[..i]) {
          forall j | 0 <= j < k ensures Owed(s.consumed[..k][j].1.packet) { assert s.consumed[..k][j] == s.consumed[..i][j]; }
        } else {
          forall j | 0 <= j < k ensures Answers(s.consumed[..k][j].1, s.consumed[..k][j].0) {
            assert s.consumed[..k][j] == s.consumed[..i][j];
          }
        }
      }
      FineUpTo(steps, s, k);
      AcceptedPrefix(s, k);
      TakenByItsQuery(steps, k);
      assert s.consumed[..i] == s.consumed[..k] + [s.consumed[k]];
      assert Taken(s.consumed)[..i] == Taken(s.consumed)[..k] + [s.consumed[k].1];
      assert s.consumed[..i][k] == s.consumed[k];
    }
  }

  /** For every interleaving, every server and every loss of the connection: each
      reply taken answers the query that takes it, that is, was sent after the
      server had received that query, exactly when each was sent while the server
      owed an answer to some query. */
  lemma {:induction false} AnswersIffOwed(steps: seq<Step>)
    requires Run(Init, steps)
    ensures AllAnswer(Final(Init, steps).consumed) <==> AllOwed(Final(Init, steps).consumed)
  {
    AnswerRun(Init, steps);
    var s := Final(Init, steps);
    assert s.consumed[..|s.consumed|] == s.consumed;
    if AllAnswer(s.consumed) || AllOwed(s.consumed) { FineUpTo(steps, s, |s.consumed|); }
  }

  // ---------------------------------------------------------------- servers that keep to the protocol

  /** E, C, I and Z are answers; notifications, notices and parameters may come at any time. */
  predicate IsAnswer(m: ServerMessage) { m == ErrorResponse || m == CommandComplete || m == ReadyForQuery }

  /** The server sends answers only to queries it has received and not yet ended. */
  predicate Polite(s: State, steps: seq<Step>)
    requires Run(s, steps)
    decreases |steps|
  {
    steps == [] ||
    ((steps[0].ServerSends? && IsAnswer(steps[0].m) ==> s.ended < s.received) && Polite(Apply(s, steps[0]), steps[1..]))
  }

  predicate OwedPacket(p: Packet) { IsAnswer(p.m) ==> Owed(p) }

  predicate AllPolite(s: State) {
    && (forall i :: 0 <= i < |Ahead(s)| ==> OwedPacket(Ahead(s)[i]))
    && (forall i :: 0 <= i < |Accepted(s)| ==> Owed(Accepted(s)[i].packet))
  }

  lemma PoliteHandle(s: State)
    requires AllPolite(s) && s.pc.Handling?
    ensures AllPolite(Apply(s, Handle))
  {
    var t := Apply(s, Handle);
    HandleAccepts(s);
    assert Ahead(s)[0] == s.pc.packet;
    forall i | 0 <= i < |Ahead(t)| ensures OwedPacket(Ahead(t)[i]) { assert Ahead(t)[i] == Ahead(s)[i + 1]; }
  }

  lemma {:induction false} PoliteStep(s: State, step: Step)
    requires Inv(s) && AllPolite(s) && Enabled(s, step)
    requires step.ServerSends? && IsAnswer(step.m) ==> s.ended < s.received
    ensures AllPolite(Apply(s, step))
  {
    var t := Apply(s, step);
    if step.Handle? {
      PoliteHandle(s);
    } else if step.ServerSends? {
      SendsBehind(s, step.m, Packet(step.m, s.received, s.ended));
    } else if step.Receive? {
      assert Ahead(t) == Ahead(s) && Accepted(t) == Accepted(s);
    } else if step.Take? {
      TakeKeepsAccepted(s, step.a);
      assert Ahead(t) == Ahead(s);
    } else {
      AsideShape(s, step);
      AsideKeepsAhead(s, step);
      assert Accepted(t) == Accepted(s);
    }
  }

  lemma {:induction false} PoliteRun(s: State, steps: seq<Step>)
    requires Inv(s) && AllPolite(s) && Run(s, steps) && Polite(s, steps)
    ensures AllPolite(Final(s, steps))
    decreases |steps|
  {
    if steps != [] {
      Preserved(s, steps[0]);
      PoliteStep(s, steps[0]);
      PoliteRun(Apply(s, steps[0]), steps[1..]);
    }
  }

  /** With a server that sends answers only to queries it has received and not yet
      ended, every reply consumed answers the query in flight. */
  lemma {:induction false} PoliteServerIsAnswered(steps: seq<Step>)
    requires Run(Init, steps) && Polite(Init, steps)
    ensures AllAnswer(Final(Init, steps).consumed)
  {
    PoliteRun(Init, steps);
    var s := Final(Init, steps);
    forall i | 0 <= i < |s.consumed| ensures Owed(s.consumed[i].1.packet) { AcceptedPrefix(s, i); }
    AnswersIffOwed(steps);
  }

  // ---------------------------------------------------------------- servers that do not

  lemma {:induction false} Checked() returns (steps: seq<Step>)
    ensures Run(Init, steps) && Final(Init, steps) == Init.(connLock := Sender(7), senders := map[7 := WantsSender])
  {
    steps := Then([], Enter(7));
    steps := Then(steps, LockConn(7));
    steps := Then(steps, CheckErr(7));
    assert Final(Init, steps).senders == map[7 := WantsSender];
  }

  lemma {:induction false} ReadyToQuery() returns (steps: seq<Step>)
    ensures Run(Init, steps) && Final(Init, steps) == Init.(senderLock := Sender(7), senders := map[7 := Ready])
  {
    steps := Checked();
    steps := Then(steps, LockSender(7));
    steps := Then(steps, UnlockConn(7));
    assert Final(Init, steps).senders == map[7 := Ready];
  }

  const STRAY_ERROR := Packet(ErrorResponse, 0, 0)
  const STRAY_READY := Packet(ReadyForQuery, 0, 0)

  lemma {:induction false} StraysOnTheWire() returns (steps: seq<Step>)
    ensures Run(Init, steps)
    ensures Final(Init, steps) == Init.(senderLock := Sender(7), senders := map[7 := Ready], wire := [STRAY_ERROR, STRAY_READY])
  {
    steps := ReadyToQuery();
    steps := Then(steps, ServerSends(ErrorResponse));
    steps := Then(steps, ServerSends(ReadyForQuery));
    assert Final(Init, steps).wire == [STRAY_ERROR, STRAY_READY];
  }

  lemma {:induction false} QueryBehindStrays() returns (steps: seq<Step>)
    ensures Run(Init, steps)
    ensures Final(Init, steps) == Init.(senderLock := Sender(7), senders := map[7 := Stated(1)],
      connState := ExpectResponse, started := 1, wire := [STRAY_ERROR, STRAY_READY])
  {
    steps := StraysOnTheWire();
    steps := Then(steps, SetState(7));
    assert Final(Init, steps).senders == map[7 := Stated(1)];
  }

  lemma {:induction false} StraysAccepted() returns (steps: seq<Step>)
    ensures Run(Init, steps)
    ensures Final(Init, steps) == Init.(senderLock := Sender(7), senders := map[7 := Stated(1)], started := 1,
      replies := [Reply(false, 1, STRAY_ERROR), Reply(true, 1, STRAY_READY)])
  {
    steps := StrayErrorAccepted();
    steps := Then(steps, Receive);
    steps := Then(steps, Handle);
    steps := Then(steps, Push);
  }

  lemma {:induction false} StrayErrorAccepted() returns (steps: seq<Step>)
    ensures Run(Init, steps)
    ensures Final(Init, steps) == Init.(senderLock := Sender(7), senders := map[7 := Stated(1)],
      connState := ExpectReady, started := 1, replies := [Reply(false, 1, STRAY_ERROR)], wire := [STRAY_READY])
  {
    steps := QueryBehindStrays();
    steps := Then(steps, Receive);
    steps := Then(steps, Handle);
    steps := Then(steps, Push);
  }

  /** An ErrorResponse and a ReadyForQuery that the server sent between queries, if
      they are read between the state change of the next query and its way to the
      socket, end that query: it is reported as failed before the server has seen it. */
  lemma {:induction false} StraysEndQuery() returns (steps: seq<Step>)
    ensures Run(Init, steps)
    ensures Final(Init, steps).consumed == [(1, Reply(false, 1, STRAY_ERROR)), (1, Reply(true, 1, STRAY_READY))]
    ensures !Answers(Final(Init, steps).consumed[0].1, 1) && !Answers(Final(Init, steps).consumed[1].1, 1)
  {
    steps := StraysAccepted();
    steps := Then(steps, SendOK(7));
    steps := Then(steps, Take(7));
    steps := Then(steps, Take(7));
  }
}
