/** lib/pq's ListenerConn: one goroutine receives from the socket and forwards
    query replies over a channel of capacity 2; any number of goroutines send
    queries, one at a time, behind a lock.  The two sides agree through an
    atomic connection state.

    Every step below is one lock operation, one compare-and-swap, one channel
    operation or one socket operation.  The server is unconstrained: it may
    send any message at any time, what it sends stays on the wire until it is
    read, and the connection may be lost at any time.
    The channel is modelled without a bound, so that its never holding more
    than two messages (and the receiver never blocking on it) is a theorem. */
module Listener {

  datatype ConnState = Idle | ExpectResponse | ExpectReady

  /** What the server can send: 'A', 'E', 'C' or 'I', 'Z', 'N' or 'S', anything else. */
  datatype ServerMessage = Notification | ErrorResponse | CommandComplete | ReadyForQuery | Notice | Unexpected

  /** A message on the wire.  When the server sent it, it had received `after`
      queries and ended `ended` of them with a ReadyForQuery. */
  datatype Packet = Packet(m: ServerMessage, after: nat, ended: nat)

  /** The server owed an answer when it sent this. */
  predicate Owed(p: Packet) { p.ended < p.after }

  /** A reply on the channel: the message, and the number of queries started when it was accepted. */
  datatype Reply = Reply(isReady: bool, query: nat, packet: Packet)

  /** A query takes a reply that the server sent after receiving that query. */
  predicate Answers(r: Reply, query: nat) { r.packet.after == query }

  datatype LoopPC =
    | Receiving
    | Handling(packet: Packet)
    | Pushing(r: Reply)
    | Ended                  // listenerConnLoop returned
    | Cleaning               // listenerConnMain holds connectionLock
    | Cleaned                // err is set; the channel is closed next
    | Exited

  datatype SenderPC =
    | Start
    | Checking               // holds connectionLock
    | WantsSender            // holds connectionLock, saw no error
    | HasBoth
    | Ready                  // holds senderLock; setState comes next
    | Stated(query: nat)     // state set; the write to the socket comes next
    | Failed(query: nat)     // the write failed; wants connectionLock
    | Abandoning(query: nat) // holds both locks
    | Waiting(query: nat)    // for replies
    | Releasing
    | Returned
    | Panicked               // "two queries running at the same time"

  datatype Owner = Nobody | Sender(a: nat) | TheLoop

  datatype State = State(
    connState: ConnState,
    err: bool,                         // l.err != nil
    connLock: Owner,
    senderLock: Owner,
    replies: seq<Reply>,               // replyChan
    closed: bool,                      // replyChan is closed
    pc: LoopPC,
    senders: map<nat, SenderPC>,
    started: nat,                      // queries started so far
    received: nat,                     // the last query that reached the server
    ended: nat,                        // the queries the server has ended with a ReadyForQuery
    wire: seq<Packet>,                 // sent by the server and not yet read
    consumed: seq<(nat, Reply)>)       // replies taken from the channel, with the query that took them

  const Init := State(Idle, false, Nobody, Nobody, [], false, Receiving, map[], 0, 0, 0, [], [])

  datatype Step =
    | Enter(a: nat)
    | LockConn(a: nat)
    | CheckErr(a: nat)
    | LockSender(a: nat)
    | UnlockConn(a: nat)
    | SetState(a: nat)
    | SendOK(a: nat)
    | SendFails(a: nat, reached: bool)   // an error, though the query may have reached the server
    | LockToAbandon(a: nat)
    | Abandon(a: nat)
    | Take(a: nat)
    | TakeClosed(a: nat)
    | Release(a: nat)
    | ServerSends(m: ServerMessage)
    | Receive
    | ConnectionLost
    | Handle
    | Push
    | LockToClean
    | Clean
    | CloseChannel
    | Close                            // ListenerConn.Close, under connectionLock

  predicate In(s: State, a: nat, pc: SenderPC) { a in s.senders && s.senders[a] == pc }

  predicate Enabled(s: State, step: Step) {
    match step
    case Enter(a) => a !in s.senders
    case LockConn(a) => In(s, a, Start) && s.connLock == Nobody
    case CheckErr(a) => In(s, a, Checking)
    case LockSender(a) => In(s, a, WantsSender) && s.senderLock == Nobody
    case UnlockConn(a) => In(s, a, HasBoth)
    case SetState(a) => In(s, a, Ready)
    case SendOK(a) => a in s.senders && s.senders[a].Stated?
    case SendFails(a, _) => a in s.senders && s.senders[a].Stated?
    case LockToAbandon(a) => a in s.senders && s.senders[a].Failed? && s.connLock == Nobody
    case Abandon(a) => a in s.senders && s.senders[a].Abandoning?
    case Take(a) => a in s.senders && s.senders[a].Waiting? && s.replies != []
    case TakeClosed(a) => a in s.senders && s.senders[a].Waiting? && s.replies == [] && s.closed
    case Release(a) => In(s, a, Releasing)
    case ServerSends(_) => true
    case Receive => s.pc.Receiving? && s.wire != []
    case ConnectionLost => s.pc.Receiving?
    case Handle => s.pc.Handling?
    case Push => s.pc.Pushing?
    case LockToClean => s.pc.Ended? && s.connLock == Nobody
    case Clean => s.pc.Cleaning?
    case CloseChannel => s.pc.Cleaned?
    case Close => s.connLock == Nobody
  }

  /** An owed ReadyForQuery ends one query. */
  function Ends(p: Packet): nat { if p.m == ReadyForQuery && Owed(p) then 1 else 0 }

  function Moved(s: State, a: nat, pc: SenderPC): State {
    s.(senders := s.senders[a := pc])
  }

  /** One turn of the switch in listenerConnLoop; the compare-and-swap of setState decides. */
  function Handled(s: State): State
    requires s.pc.Handling?
  {
    match s.pc.packet.m
    case Notification => s.(pc := Receiving)
    case Notice => s.(pc := Receiving)
    case Unexpected => s.(pc := Ended)
    case ErrorResponse =>
      if s.connState == ExpectResponse
      then s.(connState := ExpectReady, pc := Pushing(Reply(false, s.started, s.pc.packet)))
      else s.(pc := Ended)
    case CommandComplete =>
      if s.connState == ExpectResponse then s.(connState := ExpectReady, pc := Receiving) else s.(pc := Ended)
    case ReadyForQuery =>
      if s.connState == ExpectReady
      then s.(connState := Idle, pc := Pushing(Reply(true, s.started, s.pc.packet)))
      else s.(pc := Ended)
  }

  // ---------------------------------------------------------------- the steps

  /** The steps of the server, of the receiving goroutine and of Close. */
  predicate OfLoop(step: Step) {
    step.ServerSends? || step.Receive? || step.ConnectionLost? || step.Handle? || step.Push? || step.LockToClean? || step.Clean?
    || step.CloseChannel? || step.Close?
  }

  /** The steps before a query is sent. */
  predicate Opening(step: Step) {
    step.Enter? || step.LockConn? || step.CheckErr? || step.LockSender? || step.UnlockConn? || step.SetState?
  }

  function Apply(s: State, step: Step): State
    requires Enabled(s, step)
  {
    match step
    case Enter(a) => Moved(s, a, Start)
    case LockConn(a) => Moved(s, a, Checking).(connLock := Sender(a))
    case CheckErr(a) => if s.err then Moved(s, a, Returned).(connLock := Nobody) else Moved(s, a, WantsSender)
    case LockSender(a) => Moved(s, a, HasBoth).(senderLock := Sender(a))
    case UnlockConn(a) => Moved(s, a, Ready).(connLock := Nobody)
    case SetState(a) =>
      if s.connState == Idle
      then Moved(s, a, Stated(s.started + 1)).(connState := ExpectResponse, started := s.started + 1)
      else Moved(s, a, Panicked)
    case SendOK(a) => Moved(s, a, Waiting(s.senders[a].query)).(received := s.senders[a].query)
    case SendFails(a, reached) =>
      Moved(s, a, Failed(s.senders[a].query)).(received := if reached then s.senders[a].query else s.received)
    case LockToAbandon(a) => Moved(s, a, Abandoning(s.senders[a].query)).(connLock := Sender(a))
    case Abandon(a) => Moved(s, a, Releasing).(connLock := Nobody, err := true)
    case Take(a) =>
      var r := s.replies[0];
      var t := s.(replies := s.replies[1..], consumed := s.consumed + [(s.senders[a].query, r)]);
      if r.isReady then Moved(t, a, Releasing) else t
    case TakeClosed(a) => Moved(s, a, Releasing)
    case Release(a) => Moved(s, a, Returned).(senderLock := Nobody)
    case ServerSends(m) =>
      var p := Packet(m, s.received, s.ended);
      s.(wire := s.wire + [p], ended := s.ended + Ends(p))
    case Receive => s.(pc := Handling(s.wire[0]), wire := s.wire[1..])
    case ConnectionLost => s.(pc := Ended)
    case Handle => Handled(s)
    case Push => s.(replies := s.replies + [s.pc.r], pc := Receiving)
    case LockToClean => s.(pc := Cleaning, connLock := TheLoop)
    case Clean => s.(pc := Cleaned, connLock := Nobody, err := true)
    case CloseChannel => s.(pc := Exited, closed := true)
    case Close => s.(err := true)
  }

  predicate Run(s: State, steps: seq<Step>)
    decreases |steps|
  {
    steps == [] || (Enabled(s, steps[0]) && Run(Apply(s, steps[0]), steps[1..]))
  }

  function Final(s: State, steps: seq<Step>): State
    requires Run(s, steps)
    decreases |steps|
  {
    if steps == [] then s else Final(Apply(s, steps[0]), steps[1..])
  }

  // ---------------------------------------------------------------- the invariant

  predicate UsesConn(pc: SenderPC) { pc.Checking? || pc.WantsSender? || pc.HasBoth? || pc.Abandoning? }

  predicate UsesSender(pc: SenderPC) {
    pc.HasBoth? || pc.Ready? || pc.Stated? || pc.Failed? || pc.Abandoning? || pc.Waiting? || pc.Releasing?
  }

  /** Replies on the channel or about to be put there. */
  function Pending(s: State): seq<Reply> {
    if s.pc.Pushing? then s.replies + [s.pc.r] else s.replies
  }

  /** The connection is between queries, with nothing left over. */
  predicate Quiet(s: State) { s.connState == Idle && Pending(s) == [] }

  predicate LocksOK(s: State) {
    && (forall a :: a in s.senders ==> (UsesConn(s.senders[a]) <==> s.connLock == Sender(a)))
    && (forall a :: a in s.senders ==> (UsesSender(s.senders[a]) <==> s.senderLock == Sender(a)))
    && (s.connLock.Sender? ==> s.connLock.a in s.senders)
    && (s.senderLock.Sender? ==> s.senderLock.a in s.senders)
    && (s.connLock == TheLoop <==> s.pc.Cleaning?)
    && s.senderLock != TheLoop
  }

  /** What a sender at `pc` may rely on. */
  predicate SenderOK(s: State, pc: SenderPC) {
    match pc
    case WantsSender => !s.err
    case HasBoth => !s.err && Quiet(s)
    case Ready => Quiet(s)
    case Stated(query) => query == s.started && (s.connState == Idle ==> Pending(s) != [])
    case Failed(query) => query == s.started
    case Abandoning(query) => query == s.started
    case Waiting(query) => query == s.started && (s.connState == Idle ==> Pending(s) != [])
    case Releasing => s.err || Quiet(s)
    case Panicked => false
    case _ => true
  }

  /** An error reply accepted for query `q`, and the ReadyForQuery that ends it. */
  predicate ErrorFor(r: Reply, q: nat) { !r.isReady && r.query == q && r.packet.m == ErrorResponse }
  predicate ReadyFor(r: Reply, q: nat) { r.isReady && r.query == q && r.packet.m == ReadyForQuery }

  /** Between them, state and pending replies tell how far the server has answered the last query. */
  predicate RepliesOK(s: State) {
    var p := Pending(s);
    match s.connState
    case ExpectResponse => p == []
    case ExpectReady => p == [] || (|p| == 1 && ErrorFor(p[0], s.started))
    case Idle =>
      p == [] || (|p| == 1 && ReadyFor(p[0], s.started))
      || (|p| == 2 && ErrorFor(p[0], s.started) && ReadyFor(p[1], s.started))
  }

  predicate LoopOK(s: State) {
    && (s.pc.Cleaned? || s.pc.Exited? ==> s.err)
    && (s.closed <==> s.pc.Exited?)
  }

  predicate ConsumedOK(s: State) {
    forall i :: 0 <= i < |s.consumed| ==>
      ErrorFor(s.consumed[i].1, s.consumed[i].0) || ReadyFor(s.consumed[i].1, s.consumed[i].0)
  }

  predicate Inv(s: State) {
    && LocksOK(s) && RepliesOK(s) && LoopOK(s) && ConsumedOK(s)
    && (forall a :: a in s.senders ==> SenderOK(s, s.senders[a]))
    && (s.senderLock == Nobody ==> s.err || Quiet(s))
  }

  // ---------------------------------------------------------------- its preservation

  /** How a step of the loop, the server or Close looks to the senders. */
  lemma {:induction false} LoopShape(s: State, step: Step)
    requires Enabled(s, step) && OfLoop(step)
    ensures
      var t := Apply(s, step);
      && t.senders == s.senders && t.senderLock == s.senderLock
      && (t.connLock == s.connLock || (s.connLock == Nobody && step.LockToClean?) || (s.pc.Cleaning? && step.Clean?))
  {}

  lemma {:induction false} LoopLock(s: State, step: Step)
    requires Enabled(s, step) && OfLoop(step) && (s.connLock == TheLoop <==> s.pc.Cleaning?)
    ensures
      var t := Apply(s, step);
      && (t.connLock == TheLoop <==> t.pc.Cleaning?)
      && (forall a :: t.connLock == Sender(a) <==> s.connLock == Sender(a))
  {
    if step.LockToClean? {
    } else if step.Clean? {
    } else {
      LoopPasses(s, step);
    }
  }

  lemma {:induction false} LoopPasses(s: State, step: Step)
    requires Enabled(s, step) && OfLoop(step) && !step.LockToClean? && !step.Clean?
    ensures Apply(s, step).connLock == s.connLock && Apply(s, step).pc.Cleaning? == s.pc.Cleaning?
  {
    if step.Handle? { HandlePasses(s); }
  }

  lemma {:induction false} HandlePasses(s: State)
    requires s.pc.Handling?
    ensures Handled(s).connLock == s.connLock && !Handled(s).pc.Cleaning?
  {}

  lemma {:induction false} LocksLoop(s: State, step: Step)
    requires LocksOK(s) && Enabled(s, step) && OfLoop(step)
    ensures LocksOK(Apply(s, step))
  {
    LoopShape(s, step);
    LoopLock(s, step);
  }

  /** Sender `a` moves and takes or drops locks to match. */
  lemma LocksMove(s: State, t: State, a: nat)
    requires LocksOK(s) && t.pc == s.pc && a in t.senders && t.senders == s.senders[a := t.senders[a]]
    requires LockMove(s, t, a)
    ensures LocksOK(t)
  {}

  /** How a sender's step looks from outside. */
  predicate SenderMove(s: State, t: State, a: nat) {
    && t.pc == s.pc && t.closed == s.closed
    && a in t.senders && t.senders == s.senders[a := t.senders[a]]
    && (s.err ==> t.err)
  }

  lemma {:induction false} OpeningShape(s: State, step: Step)
    requires Enabled(s, step) && Opening(step)
    ensures SenderMove(s, Apply(s, step), step.a)
  {}

  lemma {:induction false} SenderShape(s: State, step: Step)
    requires Enabled(s, step) && !OfLoop(step)
    ensures SenderMove(s, Apply(s, step), step.a)
  {
    if Opening(step) { OpeningShape(s, step); }
  }

  /** Locks follow the sender's place. */
  predicate LockMove(s: State, t: State, a: nat) {
    && (t.connLock == s.connLock || (s.connLock == Nobody && t.connLock == Sender(a)) || (s.connLock == Sender(a) && t.connLock == Nobody))
    && (t.senderLock == s.senderLock || (s.senderLock == Nobody && t.senderLock == Sender(a)) || (s.senderLock == Sender(a) && t.senderLock == Nobody))
    && a in t.senders
    && (UsesConn(t.senders[a]) <==> t.connLock == Sender(a))
    && (UsesSender(t.senders[a]) <==> t.senderLock == Sender(a))
  }

  lemma {:induction false} EnteringLocks(s: State, step: Step)
    requires LocksOK(s) && Enabled(s, step) && (step.Enter? || step.LockConn? || step.CheckErr?)
    ensures LockMove(s, Apply(s, step), step.a)
  {}

  lemma {:induction false} OpeningLocks(s: State, step: Step)
    requires LocksOK(s) && Enabled(s, step) && Opening(step) && (step.SetState? ==> s.connState == Idle)
    ensures LockMove(s, Apply(s, step), step.a)
  {
    if step.Enter? || step.LockConn? || step.CheckErr? { EnteringLocks(s, step); }
  }

  lemma {:induction false} ClosingLocks(s: State, step: Step)
    requires LocksOK(s) && Enabled(s, step) && !OfLoop(step) && !Opening(step)
    ensures LockMove(s, Apply(s, step), step.a)
  {}

  lemma {:induction false} LocksSender(s: State, step: Step)
    requires Inv(s) && Enabled(s, step) && !OfLoop(step)
    ensures LocksOK(Apply(s, step))
  {
    SenderShape(s, step);
    if Opening(step) {
      if step.SetState? { assert SenderOK(s, s.senders[step.a]); }
      OpeningLocks(s, step);
    } else {
      ClosingLocks(s, step);
    }
    LocksMove(s, Apply(s, step), step.a);
  }

  /** The last query's progress is where it was. */
  predicate SameProgress(s: State, t: State) {
    t.connState == s.connState && t.started == s.started && Pending(t) == Pending(s)
  }

  lemma MostStepsKeepProgress(s: State, step: Step)
    requires Enabled(s, step) && !step.SetState? && !step.Take? && !step.Handle?
    ensures SameProgress(s, Apply(s, step))
  {}

  lemma HandleKeepsReplies(s: State)
    requires RepliesOK(s) && LoopOK(s) && s.pc.Handling?
    ensures RepliesOK(Handled(s))
  {
    var t := Handled(s);
    if t.pc.Pushing? {
      assert Pending(t) == Pending(s) + [t.pc.r];
    } else {
      assert Pending(t) == Pending(s);
    }
  }

  lemma TakeShape(s: State, a: nat)
    requires RepliesOK(s) && Enabled(s, Take(a))
    ensures
      var t := Apply(s, Take(a));
      && Pending(t) == Pending(s)[1..] && Pending(s)[0] == s.replies[0]
      && t.connState == s.connState && t.started == s.started
      && (s.replies[0].isReady ==> Quiet(t))
  {
    assert Pending(s)[0] == s.replies[0];
  }

  lemma RepliesStep(s: State, step: Step)
    requires Inv(s) && Enabled(s, step)
    ensures RepliesOK(Apply(s, step))
  {
    if step.SetState? {
      assert SenderOK(s, s.senders[step.a]);
    } else if step.Take? {
      TakeShape(s, step.a);
    } else if step.Handle? {
      HandleKeepsReplies(s);
    } else {
      MostStepsKeepProgress(s, step);
    }
  }

  lemma {:induction false} LoopStep(s: State, step: Step)
    requires LoopOK(s) && Enabled(s, step)
    ensures LoopOK(Apply(s, step))
  {
    if !OfLoop(step) { SenderShape(s, step); }
  }

  lemma {:induction false} ConsumedStep(s: State, step: Step)
    requires Inv(s) && Enabled(s, step)
    ensures ConsumedOK(Apply(s, step))
  {
    if step.Take? {
      assert SenderOK(s, s.senders[step.a]);
      TakeShape(s, step.a);
    }
  }

  /** At most one sender is inside each lock. */
  lemma OneInside(s: State, a: nat, b: nat)
    requires LocksOK(s) && a in s.senders && b in s.senders && a != b
    ensures !(UsesSender(s.senders[a]) && UsesSender(s.senders[b]))
    ensures !(UsesConn(s.senders[a]) && UsesConn(s.senders[b]))
  {}

  /** A sender that does not move keeps what it relies on. */
  lemma OthersKept(s: State, step: Step, b: nat)
    requires Inv(s) && Enabled(s, step) && b in s.senders
    requires !OfLoop(step) ==> step.a != b
    ensures SenderOK(Apply(s, step), s.senders[b])
  {
    assert SenderOK(s, s.senders[b]);
    if !OfLoop(step) && step.a in s.senders { OneInside(s, step.a, b); }
    if step.SetState? || step.Take? || step.Handle? {
      if step.Handle? { HandleKeepsSenders(s, s.senders[b]); }
    } else {
      MostStepsKeepProgress(s, step);
      ErrKeepsSenders(s, step, b);
    }
  }

  /** How far Handle can move the last query. */
  predicate Progresses(s: State, t: State) {
    && t.started == s.started && t.err == s.err
    && (Quiet(s) ==> Quiet(t))
    && (t.connState == Idle ==> s.connState == Idle || Pending(t) != [])
    && (Pending(s) != [] ==> Pending(t) != [])
  }

  lemma {:induction false} HandleProgresses(s: State)
    requires s.pc.Handling?
    ensures Progresses(s, Handled(s))
  {}

  lemma {:induction false} ProgressKeepsSender(s: State, t: State, pc: SenderPC)
    requires Progresses(s, t) && SenderOK(s, pc)
    ensures SenderOK(t, pc)
  {}

  lemma {:induction false} HandleKeepsSenders(s: State, pc: SenderPC)
    requires s.pc.Handling? && SenderOK(s, pc)
    ensures SenderOK(Handled(s), pc)
  {
    HandleProgresses(s);
    ProgressKeepsSender(s, Handled(s), pc);
  }

  /** Whoever relies on there being no error holds the lock that guards it. */
  lemma {:induction false} ErrKeepsSenders(s: State, step: Step, b: nat)
    requires Inv(s) && Enabled(s, step) && b in s.senders && SameProgress(s, Apply(s, step))
    requires !OfLoop(step) ==> step.a != b
    ensures SenderOK(Apply(s, step), s.senders[b])
  {
    assert SenderOK(s, s.senders[b]);
    if step.Abandon? { OneInside(s, step.a, b); }
  }

  lemma {:induction false} OpeningOK(s: State, step: Step)
    requires Inv(s) && Enabled(s, step) && Opening(step)
    ensures step.a in Apply(s, step).senders && SenderOK(Apply(s, step), Apply(s, step).senders[step.a])
  {
    if !step.Enter? { assert SenderOK(s, s.senders[step.a]); }
    if !step.SetState? { MostStepsKeepProgress(s, step); }
  }

  lemma {:induction false} ClosingOK(s: State, step: Step)
    requires Inv(s) && Enabled(s, step) && !OfLoop(step) && !Opening(step)
    ensures step.a in Apply(s, step).senders && SenderOK(Apply(s, step), Apply(s, step).senders[step.a])
  {
    assert SenderOK(s, s.senders[step.a]);
    if step.Take? { TakeShape(s, step.a); } else { MostStepsKeepProgress(s, step); }
  }

  /** The sender that moves gets what it then relies on. */
  lemma {:induction false} MoverOK(s: State, step: Step)
    requires Inv(s) && Enabled(s, step) && !OfLoop(step)
    ensures step.a in Apply(s, step).senders && SenderOK(Apply(s, step), Apply(s, step).senders[step.a])
  {
    if Opening(step) { OpeningOK(s, step); } else { ClosingOK(s, step); }
  }

  /** No step takes back an error, and only Release frees the sender lock. */
  lemma {:induction false} FreedBy(s: State, step: Step)
    requires Enabled(s, step)
    ensures s.err ==> Apply(s, step).err
    ensures !step.Release? && Apply(s, step).senderLock == Nobody ==> s.senderLock == Nobody
  {}

  lemma {:induction false} FreeLock(s: State, step: Step)
    requires Inv(s) && Enabled(s, step) && Apply(s, step).senderLock == Nobody
    ensures Apply(s, step).err || Quiet(Apply(s, step))
  {
    if step.Release? {
      assert SenderOK(s, s.senders[step.a]);
    } else if step.Take? || step.SetState? {
      assert s.senderLock == Sender(step.a);
    } else {
      FreedBy(s, step);
      if step.Handle? { FreeHandle(s); } else { MostStepsKeepProgress(s, step); }
    }
  }

  lemma FreeHandle(s: State)
    requires s.pc.Handling? && (s.err || Quiet(s))
    ensures Handled(s).err || Quiet(Handled(s))
  {}

  lemma SendersLoop(s: State, step: Step)
    requires Inv(s) && Enabled(s, step) && OfLoop(step)
    ensures var t := Apply(s, step); forall b :: b in t.senders ==> SenderOK(t, t.senders[b])
  {
    var t := Apply(s, step);
    assert t.senders == s.senders;
    forall b | b in t.senders ensures SenderOK(t, t.senders[b]) { OthersKept(s, step, b); }
  }

  lemma SendersMove(s: State, step: Step)
    requires Inv(s) && Enabled(s, step) && !OfLoop(step)
    ensures var t := Apply(s, step); forall b :: b in t.senders ==> SenderOK(t, t.senders[b])
  {
    var t := Apply(s, step);
    SenderShape(s, step);
    MoverOK(s, step);
    forall b | b in t.senders ensures SenderOK(t, t.senders[b]) {
      if b != step.a { OthersKept(s, step, b); }
    }
  }

  lemma Preserved(s: State, step: Step)
    requires Inv(s) && Enabled(s, step)
    ensures Inv(Apply(s, step))
  {
    if OfLoop(step) {
      LocksLoop(s, step);
      SendersLoop(s, step);
    } else {
      LocksSender(s, step);
      SendersMove(s, step);
    }
    RepliesStep(s, step);
    LoopStep(s, step);
    ConsumedStep(s, step);
    if Apply(s, step).senderLock == Nobody { FreeLock(s, step); }
  }

  lemma {:induction false} InvRun(s: State, steps: seq<Step>)
    requires Inv(s) && Run(s, steps)
    ensures Inv(Final(s, steps))
    decreases |steps|
  {
    if steps != [] {
      Preserved(s, steps[0]);
      InvRun(Apply(s, steps[0]), steps[1..]);
    }
  }

  // ---------------------------------------------------------------- theorems

  /** For every interleaving: the reply channel never holds more than its two
      messages, no sender panics, the state is idle whenever a sender starts a
      query, and each reply taken was accepted for the query that takes it. */
  lemma {:induction false} ListenerSafe(steps: seq<Step>)
    requires Run(Init, steps)
    ensures
      var s := Final(Init, steps);
      && |s.replies| <= 2
      && (s.pc.Pushing? ==> |s.replies| < 2)
      && (forall a :: a in s.senders ==> s.senders[a] != Panicked)
      && (forall a :: In(s, a, Ready) ==> s.connState == Idle && s.replies == [])
      && (forall i :: 0 <= i < |s.consumed| ==> s.consumed[i].1.query == s.consumed[i].0)
  {
    InvRun(Init, steps);
    var s := Final(Init, steps);
    assert |Pending(s)| <= 2;
    forall a | a in s.senders
      ensures s.senders[a] != Panicked
      ensures s.senders[a] == Ready ==> s.connState == Idle && s.replies == []
    { assert SenderOK(s, s.senders[a]); }
  }

  lemma {:induction false} RunExtend(s: State, steps: seq<Step>, step: Step)
    requires Run(s, steps) && Enabled(Final(s, steps), step)
    ensures Run(s, steps + [step]) && Final(s, steps + [step]) == Apply(Final(s, steps), step)
    decreases |steps|
  {
    if steps == [] {
      assert steps + [step] == [step];
    } else {
      RunExtend(Apply(s, steps[0]), steps[1..], step);
      assert (steps + [step])[1..] == steps[1..] + [step];
    }
  }

  lemma Then(before: seq<Step>, step: Step) returns (steps: seq<Step>)
    requires Run(Init, before) && Enabled(Final(Init, before), step)
    ensures Run(Init, steps) && Final(Init, steps) == Apply(Final(Init, before), step)
  {
    RunExtend(Init, before, step);
    steps := before + [step];
  }
}
