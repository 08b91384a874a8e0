/** The SMTP session of smtpd: which commands are accepted in which order
    (section 4.1.4 of RFC 5321), and what is handed to the delivery handler. */
module SmtpSession {
  import opened Bytes
  import opened Options

  datatype Config = Config(
    maxRecipients: int, maxMessageSize: int, forceTLS: bool, hasTLS: bool, hasAuthenticator: bool, enableXCLIENT: bool)

  datatype Envelope = Envelope(sender: string, recipients: seq<string>, data: seq<byte>)

  /** `crashed`: a handler indexed past the end of a slice. */
  datatype Session = Session(helo: string, username: string, tls: bool, envelope: Option<Envelope>, crashed: bool)

  const NEW_SESSION := Session("", "", false, None, false)

  datatype Verb = HELO | EHLO | MAIL | RCPT | STARTTLS | RSET | NOOP | QUIT | UNSUPPORTED

  /** The text up to the lone dot, or what came before the connection broke. */
  datatype Body = Complete(data: seq<byte>) | Cut

  /** A field of a line: strings.Fields gives no empty ones. */
  type Field = s: string | s != "" witness "-"

  /** One turn of the serve loop.  `args` are the line's fields after the verb;
      `accepted` is the answer of whatever the command consults: the checker, the
      TLS handshake, the delivery handler, the authenticator. */
  datatype Input =
    | Line(verb: Verb, args: seq<Field>, accepted: bool)
    | Data(body: Body, accepted: bool)
    | Auth(args: seq<Field>, username: Option<string>, accepted: bool)
    | Xclient(helo: Option<string>, login: string)
    | Blank
    | TooLong

  datatype Delivery = Delivery(helo: string, tls: bool, envelope: Envelope)

  /** The last reply code (0: none) and what was handed to the handler. */
  datatype Turn = Turn(session: Session, code: int, delivered: Option<Delivery>)

  // ---------------------------------------------------------------- parsing

  /** strings.Split(s, ":") */
  function Split(s: string): (parts: seq<string>)
    ensures |parts| >= 1
  {
    if s == "" then [""]
    else
      var rest := Split(s[1..]);
      if s[0] == ':' then [""] + rest else [[s[0]] + rest[0]] + rest[1..]
  }

  function CountAt(s: string): nat {
    if s == "" then 0 else (if s[0] == '@' then 1 else 0) + CountAt(s[1..])
  }

  datatype Address = Address(text: string) | IllFormatted | OutOfRange

  /** parseAddress(cmd.params[1]) */
  function ParseAddress(args: seq<Field>): Address {
    if args == [] || |Split(args[0])| < 2 then OutOfRange
    else
      var src := Split(args[0])[1];
      if src == "" then OutOfRange
      else if src[0] != '<' || src[|src| - 1] != '>' then IllFormatted
      else if CountAt(src) > 1 then IllFormatted
      else Address(src[1..|src| - 1])
  }

  /** At most one "@". */
  predicate OneAt(s: string) {
    forall i, j :: 0 <= i < j < |s| ==> !(s[i] == '@' && s[j] == '@')
  }

  lemma {:induction false} CountAtIff(s: string)
    ensures CountAt(s) == 0 <==> '@' !in s
    ensures CountAt(s) <= 1 <==> OneAt(s)
  {
    if s != "" {
      CountAtIff(s[1..]);
      assert s == [s[0]] + s[1..];
      assert forall i :: 1 <= i < |s| ==> s[i] == s[1..][i - 1];
      if OneAt(s) {
        assert OneAt(s[1..]) by { assert forall i :: 0 <= i < |s[1..]| ==> s[1..][i] == s[i + 1]; }
      }
    }
  }

  /** What stands in front of the first colon, and behind it up to the next one. */
  lemma {:induction false} SplitIs(x: string, y: string, rest: string)
    requires ':' !in x && ':' !in y && (rest == "" || rest[0] == ':')
    ensures |Split(x + ":" + y + rest)| >= 2 && Split(x + ":" + y + rest)[0] == x && Split(x + ":" + y + rest)[1] == y
  {
    var s := x + ":" + y + rest;
    if x == "" {
      assert s[0] == ':' && s[1..] == y + rest;
      SplitFirst(y, rest);
    } else {
      assert s[1..] == x[1..] + ":" + y + rest && s[0] == x[0];
      SplitIs(x[1..], y, rest);
      assert [x[0]] + x[1..] == x;
    }
  }

  lemma {:induction false} SplitFirst(y: string, rest: string)
    requires ':' !in y && (rest == "" || rest[0] == ':')
    ensures Split(y + rest)[0] == y
  {
    if y == "" {
      assert y + rest == rest;
    } else {
      assert (y + rest)[1..] == y[1..] + rest && (y + rest)[0] == y[0];
      SplitFirst(y[1..], rest);
      assert [y[0]] + y[1..] == y;
    }
  }

  /** The parameter FROM:<mail>, with anything in front of the first colon and, behind
      another one, at the end: the address is what stands between the brackets, if it
      has at most one "@"; without the brackets, or with more, it is ill-formatted. */
  lemma {:induction false} AddressIs(arg: Field, more: seq<Field>, x: string, y: string, rest: string)
    requires ':' !in x && ':' !in y && (rest == "" || rest[0] == ':') && arg == x + ":" + y + rest
    ensures ParseAddress([arg] + more) ==
      if y == "" then OutOfRange
      else if y[0] == '<' && y[|y| - 1] == '>' && OneAt(y) then Address(y[1..|y| - 1])
      else IllFormatted
  {
    SplitIs(x, y, rest);
    CountAtIff(y);
  }

  // ---------------------------------------------------------------- one turn

  function Reply(s: Session, code: int): Turn { Turn(s, code, None) }

  function Crash(s: Session): Turn { Reply(s.(crashed := true), 0) }

  function Introduce(s: Session, args: seq<Field>, accepted: bool): Turn {
    if args == [] then Reply(s, 502)
    else
      var t := if s.helo != "" then s.(envelope := None) else s;
      if !accepted then Reply(t, 502) else Reply(t.(helo := args[0]), 250)
  }

  function Mail(cfg: Config, s: Session, args: seq<Field>, accepted: bool): Turn {
    if s.helo == "" || (!s.tls && cfg.forceTLS) || s.envelope.Some? then Reply(s, 502)
    else
      match ParseAddress(args)
      case OutOfRange => Crash(s)
      case IllFormatted => Reply(s, 502)
      case Address(text) =>
        if !accepted then Reply(s, 502) else Reply(s.(envelope := Some(Envelope(text, [], []))), 250)
  }

  function Rcpt(cfg: Config, s: Session, args: seq<Field>, accepted: bool): Turn {
    if s.envelope.None? then Reply(s, 502)
    else if |s.envelope.value.recipients| >= cfg.maxRecipients then Reply(s, 452)
    else
      match ParseAddress(args)
      case OutOfRange => Crash(s)
      case IllFormatted => Reply(s, 502)
      case Address(text) =>
        if !accepted then Reply(s, 502)
        else Reply(s.(envelope := Some(Joined(s.envelope.value, text))), 250)
  }

  function Joined(e: Envelope, recipient: string): Envelope {
    e.(recipients := e.recipients + [recipient])
  }

  function StartTLS(cfg: Config, s: Session, accepted: bool): Turn {
    if s.tls || !cfg.hasTLS then Reply(s, 502)
    else if !accepted then Reply(s, 550)
    else Reply(s.(envelope := None, tls := true), 220)
  }

  /** A network error leaves the envelope in place; otherwise it is cleared. */
  function ReceiveData(cfg: Config, s: Session, body: Body, accepted: bool): Turn {
    if s.envelope.None? || s.envelope.value.recipients == [] then Reply(s, 502)
    else if body.Cut? then Reply(s, 354)
    else if |body.data| < cfg.maxMessageSize then
      Turn(s.(envelope := None), if accepted then 250 else 502,
           Some(Delivery(s.helo, s.tls, s.envelope.value.(data := body.data))))
    else Reply(s.(envelope := None), 552)
  }

  /** The mechanism is looked up without checking that there is one; `username`
      is None when the credentials that follow cannot be decoded. */
  function Authenticate(cfg: Config, s: Session, args: seq<Field>, username: Option<string>, accepted: bool): Turn {
    if !cfg.hasAuthenticator || s.helo == "" || !s.tls then Reply(s, 502)
    else if args == [] then Crash(s)
    else if username.None? || !accepted then Reply(s, 502)
    else Reply(s.(username := username.value), 235)
  }

  /** XCLIENT overrides what it names; `helo` is None when the command cannot be decoded. */
  function Override(cfg: Config, s: Session, helo: Option<string>, login: string): Turn {
    if !cfg.enableXCLIENT then Reply(s, 550)
    else if helo.None? then Reply(s, 502)
    else
      Reply(s.(helo := if helo.value != "" then helo.value else s.helo,
               username := if login != "" then login else s.username), 220)
  }

  function Step(cfg: Config, s: Session, input: Input): Turn {
    if s.crashed then Reply(s, 0)
    else
      match input
      case Line(verb, args, accepted) =>
        (match verb
         case HELO => Introduce(s, args, accepted)
         case EHLO => Introduce(s, args, accepted)
         case MAIL => Mail(cfg, s, args, accepted)
         case RCPT => Rcpt(cfg, s, args, accepted)
         case STARTTLS => StartTLS(cfg, s, accepted)
         case RSET => Reply(s.(envelope := None), 250)
         case NOOP => Reply(s, 250)
         case QUIT => Reply(s, 221)
         case UNSUPPORTED => Reply(s, 502))
      case Data(body, accepted) => ReceiveData(cfg, s, body, accepted)
      case Auth(args, username, accepted) => Authenticate(cfg, s, args, username, accepted)
      case Xclient(helo, login) => Override(cfg, s, helo, login)
      case Blank => Crash(s)
      case TooLong => Reply(s.(envelope := None), 500)
  }

  // ---------------------------------------------------------------- runs, and what they look like from outside

  function After(cfg: Config, inputs: seq<Input>): Session {
    if inputs == [] then NEW_SESSION
    else Step(cfg, After(cfg, inputs[..|inputs| - 1]), inputs[|inputs| - 1]).session
  }

  /** What a client sees of one turn. */
  datatype Seen = Seen(input: Input, code: int, delivered: Option<Delivery>)

  function Observe(input: Input, t: Turn): Seen { Seen(input, t.code, t.delivered) }

  function Transcript(cfg: Config, inputs: seq<Input>): (tr: seq<Seen>)
    ensures |tr| == |inputs|
  {
    if inputs == [] then []
    else
      var n := |inputs| - 1;
      Transcript(cfg, inputs[..n]) + [Observe(inputs[n], Step(cfg, After(cfg, inputs[..n]), inputs[n]))]
  }

  predicate IsLine(e: Seen, verb: Verb) { e.input.Line? && e.input.verb == verb }

  predicate MailAccepted(e: Seen) { IsLine(e, MAIL) && e.code == 250 }

  predicate RcptAccepted(e: Seen) { IsLine(e, RCPT) && e.code == 250 }

  /** The turns that end a mail transaction. */
  predicate Ends(e: Seen) {
    || IsLine(e, RSET)
    || ((IsLine(e, HELO) || IsLine(e, EHLO)) && e.input.args != [])
    || (IsLine(e, STARTTLS) && e.code == 220)
    || (e.input.Data? && (e.delivered.Some? || e.code == 552))
    || e.input.TooLong?
  }

  function Named(e: Seen): string {
    if e.input.Line? && ParseAddress(e.input.args).Address? then ParseAddress(e.input.args).text else ""
  }

  /** The addresses of the accepted RCPT commands, in order. */
  function Accepted(tr: seq<Seen>): seq<string> {
    if tr == [] then []
    else
      var last := tr[|tr| - 1];
      Accepted(tr[..|tr| - 1]) + if RcptAccepted(last) then [Named(last)] else []
  }

  /** The transaction opened by turn `m` is still open after `tr`. */
  predicate OpenSince(tr: seq<Seen>, m: nat) {
    && m < |tr| && MailAccepted(tr[m])
    && forall k :: m < k < |tr| ==> !Ends(tr[k]) && !MailAccepted(tr[k])
  }

  /** The envelope the client's commands and the replies add up to. */
  function OpenedAt(tr: seq<Seen>, m: nat): Envelope
    requires m < |tr|
  {
    Envelope(Named(tr[m]), Accepted(tr[m + 1..]), [])
  }

  // ---------------------------------------------------------------- the session agrees with what was seen

  /** What the session holds is what the client's accepted commands add up to. */
  ghost predicate Agrees(cfg: Config, tr: seq<Seen>, s: Session) {
    s.crashed ||
    if s.envelope.Some? then
      && s.helo != "" && (cfg.forceTLS ==> s.tls)
      && (s.envelope.value.recipients == [] || |s.envelope.value.recipients| <= cfg.maxRecipients)
      && exists m :: OpenSince(tr, m) && s.envelope.value == OpenedAt(tr, m)
    else
      forall m :: !OpenSince(tr, m)
  }

  lemma OpenStays(tr: seq<Seen>, e: Seen, m: nat)
    requires m < |tr|
    ensures OpenSince(tr + [e], m) <==> OpenSince(tr, m) && !Ends(e) && !MailAccepted(e)
  {
    var after := tr + [e];
    assert forall k :: 0 <= k < |tr| ==> after[k] == tr[k];
    if OpenSince(after, m) {
      assert !Ends(after[|tr|]);
      forall k | m < k < |tr| ensures !Ends(tr[k]) && !MailAccepted(tr[k]) { assert tr[k] == after[k]; }
    }
  }

  lemma OpenedStays(tr: seq<Seen>, e: Seen, m: nat)
    requires m < |tr|
    ensures OpenedAt(tr + [e], m) ==
      if RcptAccepted(e) then Joined(OpenedAt(tr, m), Named(e)) else OpenedAt(tr, m)
  {
    assert (tr + [e])[m + 1..] == tr[m + 1..] + [e];
    assert (tr[m + 1..] + [e])[..|tr[m + 1..]|] == tr[m + 1..];
  }

  /** A turn that neither opens nor ends a transaction nor adds a recipient. */
  predicate Passes(e: Seen) { !Ends(e) && !MailAccepted(e) && !RcptAccepted(e) }

  lemma PassKeeps(cfg: Config, tr: seq<Seen>, s: Session, t: Session, e: Seen)
    requires Agrees(cfg, tr, s) && Passes(e)
    requires t.envelope == s.envelope && (s.crashed ==> t.crashed)
    requires (s.helo != "" ==> t.helo != "") && (s.tls ==> t.tls)
    ensures Agrees(cfg, tr + [e], t)
  {
    forall m: nat ensures OpenSince(tr + [e], m) ==> OpenSince(tr, m) {
      if m < |tr| { OpenStays(tr, e, m); }
    }
    if !s.crashed && s.envelope.Some? {
      var m :| OpenSince(tr, m) && s.envelope.value == OpenedAt(tr, m);
      OpenStays(tr, e, m);
      OpenedStays(tr, e, m);
    }
  }

  lemma EndKeeps(cfg: Config, tr: seq<Seen>, t: Session, e: Seen)
    requires Ends(e) && !MailAccepted(e) && t.envelope.None?
    ensures Agrees(cfg, tr + [e], t)
  {
    forall m: nat ensures !OpenSince(tr + [e], m) {
      if m < |tr| { OpenStays(tr, e, m); }
    }
  }

  lemma MailOpens(cfg: Config, tr: seq<Seen>, t: Session, e: Seen)
    requires MailAccepted(e) && t.helo != "" && (cfg.forceTLS ==> t.tls)
    requires t.envelope == Some(Envelope(Named(e), [], []))
    ensures Agrees(cfg, tr + [e], t)
  {
    assert OpenSince(tr + [e], |tr|);
    assert (tr + [e])[|tr| + 1..] == [];
  }

  lemma RcptAdds(cfg: Config, tr: seq<Seen>, s: Session, t: Session, e: Seen)
    requires Agrees(cfg, tr, s) && !s.crashed && s.envelope.Some? && RcptAccepted(e)
    requires |s.envelope.value.recipients| < cfg.maxRecipients
    requires t == s.(envelope := Some(Joined(s.envelope.value, Named(e))))
    ensures Agrees(cfg, tr + [e], t)
  {
    var m :| OpenSince(tr, m) && s.envelope.value == OpenedAt(tr, m);
    OpenStays(tr, e, m);
    OpenedStays(tr, e, m);
  }

  /** What each kind of line does to the session. */
  lemma {:induction false} LineShape(cfg: Config, s: Session, input: Input, e: Seen, t: Session)
    requires !s.crashed && input.Line? && (s.envelope.Some? ==> s.helo != "")
    requires e == Observe(input, Step(cfg, s, input)) && t == Step(cfg, s, input).session
    ensures MailAccepted(e) ==> t.helo != "" && (cfg.forceTLS ==> t.tls) && t.envelope == Some(Envelope(Named(e), [], []))
    ensures RcptAccepted(e) ==>
      && s.envelope.Some? && |s.envelope.value.recipients| < cfg.maxRecipients
      && t == s.(envelope := Some(Joined(s.envelope.value, Named(e))))
    ensures Ends(e) ==> t.envelope.None?
    ensures Passes(e) ==> t.envelope == s.envelope && t.helo == s.helo && t.tls == s.tls
  {}

  lemma {:induction false} LineKeeps(cfg: Config, tr: seq<Seen>, s: Session, input: Input)
    requires Agrees(cfg, tr, s) && !s.crashed && input.Line?
    ensures
      var t := Step(cfg, s, input);
      Agrees(cfg, tr + [Observe(input, t)], t.session)
  {
    var t := Step(cfg, s, input);
    var e := Observe(input, t);
    LineShape(cfg, s, input, e, t.session);
    if MailAccepted(e) {
      MailOpens(cfg, tr, t.session, e);
    } else if RcptAccepted(e) {
      RcptAdds(cfg, tr, s, t.session, e);
    } else if Ends(e) {
      EndKeeps(cfg, tr, t.session, e);
    } else {
      PassKeeps(cfg, tr, s, t.session, e);
    }
  }

  lemma {:induction false} OtherShape(cfg: Config, s: Session, input: Input, e: Seen, t: Session)
    requires !s.crashed && !input.Line? && e == Observe(input, Step(cfg, s, input)) && t == Step(cfg, s, input).session
    ensures Ends(e) ==> t.envelope.None?
    ensures !Ends(e) ==> t.envelope == s.envelope && (s.helo != "" ==> t.helo != "") && t.tls == s.tls
  {}

  lemma {:induction false} TurnKeeps(cfg: Config, tr: seq<Seen>, s: Session, input: Input)
    requires Agrees(cfg, tr, s)
    ensures
      var t := Step(cfg, s, input);
      Agrees(cfg, tr + [Observe(input, t)], t.session)
  {
    var t := Step(cfg, s, input);
    var e := Observe(input, t);
    if s.crashed || t.session.crashed {
    } else if input.Line? {
      LineKeeps(cfg, tr, s, input);
    } else {
      OtherShape(cfg, s, input, e, t.session);
      if Ends(e) { EndKeeps(cfg, tr, t.session, e); } else { PassKeeps(cfg, tr, s, t.session, e); }
    }
  }

  lemma {:induction false} SessionAgrees(cfg: Config, inputs: seq<Input>)
    ensures Agrees(cfg, Transcript(cfg, inputs), After(cfg, inputs))
  {
    if inputs != [] {
      var n := |inputs| - 1;
      SessionAgrees(cfg, inputs[..n]);
      TurnKeeps(cfg, Transcript(cfg, inputs[..n]), After(cfg, inputs[..n]), inputs[n]);
    }
  }

  // ---------------------------------------------------------------- theorems

  lemma {:induction false} TranscriptAt(cfg: Config, inputs: seq<Input>, d: nat)
    requires d < |inputs|
    ensures Transcript(cfg, inputs)[d] == Observe(inputs[d], Step(cfg, After(cfg, inputs[..d]), inputs[d]))
    ensures Transcript(cfg, inputs)[..d] == Transcript(cfg, inputs[..d])
  {
    var n := |inputs| - 1;
    if d < n {
      TranscriptAt(cfg, inputs[..n], d);
      assert inputs[..n][..d] == inputs[..d];
      assert Transcript(cfg, inputs)[..d] == Transcript(cfg, inputs[..n])[..d];
    }
  }

  lemma StepDelivers(cfg: Config, s: Session, input: Input)
    ensures
      var mail := Step(cfg, s, input).delivered;
      mail.Some? <==>
        && !s.crashed && input.Data? && s.envelope.Some? && s.envelope.value.recipients != []
        && input.body.Complete? && |input.body.data| < cfg.maxMessageSize
    ensures
      var mail := Step(cfg, s, input).delivered;
      mail.Some? ==> mail.value == Delivery(s.helo, s.tls, s.envelope.value.(data := input.body.data))
  {}

  lemma OpenEnvelope(cfg: Config, inputs: seq<Input>) returns (m: nat)
    requires var s := After(cfg, inputs); !s.crashed && s.envelope.Some?
    ensures
      var s, tr := After(cfg, inputs), Transcript(cfg, inputs);
      && s.helo != "" && (cfg.forceTLS ==> s.tls)
      && (s.envelope.value.recipients == [] || |s.envelope.value.recipients| <= cfg.maxRecipients)
      && OpenSince(tr, m) && s.envelope.value == OpenedAt(tr, m)
  {
    SessionAgrees(cfg, inputs);
    m :| OpenSince(Transcript(cfg, inputs), m) && After(cfg, inputs).envelope.value == OpenedAt(Transcript(cfg, inputs), m);
  }

  /** Every envelope handed to the handler, in any session: the peer introduced
      itself and uses TLS if it must, the data is the client's and below the limit,
      and there are 1 to MaxRecipients recipients: those of the RCPT commands
      accepted since the last accepted MAIL, with nothing in between that ends a
      transaction. */
  lemma {:induction false} DeliveredEnvelope(cfg: Config, inputs: seq<Input>, d: nat) returns (m: nat)
    requires d < |inputs| && Transcript(cfg, inputs)[d].delivered.Some?
    ensures
      var tr := Transcript(cfg, inputs);
      var mail := tr[d].delivered.value;
      && mail.helo != "" && (cfg.forceTLS ==> mail.tls)
      && 1 <= |mail.envelope.recipients| <= cfg.maxRecipients
      && inputs[d].Data? && inputs[d].body == Complete(mail.envelope.data)
      && |mail.envelope.data| < cfg.maxMessageSize
      && m < d && OpenSince(tr[..d], m)
      && mail.envelope.sender == Named(tr[m])
      && mail.envelope.recipients == Accepted(tr[m + 1..d])
  {
    var tr := Transcript(cfg, inputs);
    TranscriptAt(cfg, inputs, d);
    StepDelivers(cfg, After(cfg, inputs[..d]), inputs[d]);
    m := OpenEnvelope(cfg, inputs[..d]);
    assert tr[..d][m + 1..] == tr[m + 1..d];
  }

  /** Conversely, DATA delivers whenever a transaction with a recipient is open and the data is below the limit. */
  lemma {:induction false} DeliversIff(cfg: Config, inputs: seq<Input>, d: nat)
    requires d < |inputs| && !After(cfg, inputs[..d]).crashed
    ensures
      var tr := Transcript(cfg, inputs);
      tr[d].delivered.Some? <==>
        && inputs[d].Data? && inputs[d].body.Complete? && |inputs[d].body.data| < cfg.maxMessageSize
        && exists m :: 0 <= m < d && OpenSince(tr[..d], m) && Accepted(tr[m + 1..d]) != []
  {
    var tr := Transcript(cfg, inputs);
    TranscriptAt(cfg, inputs, d);
    StepDelivers(cfg, After(cfg, inputs[..d]), inputs[d]);
    if tr[d].delivered.Some? {
      var m := DeliveredEnvelope(cfg, inputs, d);
      assert Accepted(tr[m + 1..d]) != [];
    } else if m :| 0 <= m < d && OpenSince(tr[..d], m) && Accepted(tr[m + 1..d]) != [] {
      SessionAgrees(cfg, inputs[..d]);
      var k := OpenEnvelope(cfg, inputs[..d]);
      OneOpening(tr[..d], m, k);
      assert tr[..d][m + 1..] == tr[m + 1..d];
    }
  }

  lemma OneOpening(tr: seq<Seen>, m: nat, k: nat)
    requires OpenSince(tr, m) && OpenSince(tr, k)
    ensures m == k
  {}
}
