/** smtpd's session object: the handlers that update the peer, the envelope and
    the TLS flag in place, and the loop that serves one connection. */
module SmtpServer {
  import opened Bytes
  import opened Options
  import opened SmtpSession

  class Server {
    const cfg: Config
    var helo: string
    var username: string
    var tls: bool
    var envelope: Option<Envelope>
    var crashed: bool
    var code: int                     // the last reply of the current turn
    var handed: Option<Delivery>      // what the current turn gave to the delivery handler
    ghost var seen: seq<Seen>         // the turns so far

    function View(): Session
      reads this
    {
      Session(helo, username, tls, envelope, crashed)
    }

    /** This turn did what the specification says. */
    ghost predicate Did(t: Turn)
      reads this
    {
      View() == t.session && code == t.code && handed == t.delivered
    }

    constructor (cfg: Config)
      ensures this.cfg == cfg && View() == NEW_SESSION && seen == []
    {
      this.cfg := cfg;
      helo, username, tls, envelope, crashed := "", "", false, None, false;
      code, handed, seen := 0, None, [];
    }

    method Reset()
      modifies this`envelope
      ensures envelope == None
    {
      envelope := None;
    }

    /** handleHELO and handleEHLO */
    method HandleHelo(args: seq<Field>, accepted: bool)
      requires handed.None?
      modifies this`helo, this`envelope, this`code
      ensures Did(Introduce(old(View()), args, accepted))
      ensures old(helo) != "" ==> helo != ""                          // nobody is forgotten
      ensures code == 250 <==> args != [] && accepted
      ensures code == 250 ==> helo == args[0]
      ensures code != 250 ==> code == 502 && helo == old(helo)
      ensures args != [] && old(helo) != "" ==> envelope.None?        // even if the checker refuses
    {
      if |args| < 1 { code := 502; return; }
      if helo != "" { Reset(); }
      if !accepted { code := 502; return; }
      helo := args[0];
      code := 250;
    }

    method HandleMail(args: seq<Field>, accepted: bool)
      requires handed.None? && !crashed
      modifies this`envelope, this`code, this`crashed
      ensures Did(Mail(cfg, old(View()), args, accepted))
      ensures old(envelope).Some? ==> envelope == old(envelope)
      ensures old(envelope).None? ==>
        (envelope.Some? <==> helo != "" && (cfg.forceTLS ==> tls) && ParseAddress(args).Address? && accepted)
      ensures code == 250 <==> old(envelope).None? && envelope.Some?
      ensures code == 250 ==> envelope.value == Envelope(ParseAddress(args).text, [], [])
      ensures crashed ==> envelope == old(envelope)
    {
      code := 502;
      if helo == "" { return; }
      if !tls && cfg.forceTLS { return; }
      if envelope.Some? { return; }
      var addr := ParseAddress(args);
      if addr.OutOfRange? { crashed, code := true, 0; return; }
      if addr.IllFormatted? || !accepted { return; }
      envelope, code := Some(Envelope(addr.text, [], [])), 250;
    }

    method HandleRcpt(args: seq<Field>, accepted: bool)
      requires handed.None? && !crashed
      modifies this`envelope, this`code, this`crashed
      ensures Did(Rcpt(cfg, old(View()), args, accepted))
      ensures envelope.Some? <==> old(envelope).Some?
      ensures envelope.Some? ==>
        var was, e := old(envelope).value, envelope.value;
        && e == was.(recipients := e.recipients)                    // the sender stays
        && was.recipients <= e.recipients && |e.recipients| <= |was.recipients| + 1
        && (code == 250 <==> |e.recipients| == |was.recipients| + 1)
        && (code == 250 ==> accepted && |e.recipients| <= cfg.maxRecipients)
        && (code == 250 <==> |was.recipients| < cfg.maxRecipients && ParseAddress(args).Address? && accepted)
        && (code == 250 ==> e.recipients == was.recipients + [ParseAddress(args).text])
        && (code == 452 <==> |was.recipients| >= cfg.maxRecipients)
    {
      code := 502;
      if envelope.None? { return; }
      if |envelope.value.recipients| >= cfg.maxRecipients { code := 452; return; }
      var addr := ParseAddress(args);
      if addr.OutOfRange? { crashed, code := true, 0; return; }
      if addr.IllFormatted? || !accepted { return; }
      envelope := Some(envelope.value.(recipients := envelope.value.recipients + [addr.text]));
      code := 250;
    }

    method HandleStartTLS(accepted: bool)
      requires handed.None?
      modifies this`envelope, this`tls, this`code
      ensures Did(StartTLS(cfg, old(View()), accepted))
      ensures old(tls) ==> tls                                        // TLS is never switched off
      ensures tls && !old(tls) <==> code == 220
      ensures tls && !old(tls) <==> !old(tls) && cfg.hasTLS && accepted
      ensures if tls && !old(tls) then envelope.None? else envelope == old(envelope)
    {
      if tls || !cfg.hasTLS { code := 502; return; }
      code := 220;
      if !accepted { code := 550; return; }
      Reset();
      tls := true;
    }

    /** io.CopyN(data, reader, limit): at most `limit` bytes, and whether the text ended before. */
    static method CopyN(body: Body, limit: int) returns (data: seq<byte>, ended: bool, broken: bool)
      ensures broken ==> body.Cut?
      ensures ended <==> body.Complete? && |body.data| < limit
      ensures ended ==> data == body.data
      ensures body.Complete? && !ended && limit >= 0 ==> data == body.data[..limit]
    {
      data, ended, broken := [], false, false;
      if body.Cut? {
        broken := *;                   // the connection may break later, while the rest is discarded
      } else if |body.data| < limit {
        data, ended := body.data, true;
      } else if limit > 0 {
        data := body.data[..limit];
      }
    }

    /** handleDATA */
    method HandleData(body: Body, accepted: bool)
      requires handed.None? && !crashed
      modifies this`envelope, this`code, this`handed
      ensures Did(ReceiveData(cfg, old(View()), body, accepted))
      ensures handed.Some? <==>
        old(envelope).Some? && old(envelope).value.recipients != [] && body.Complete? && |body.data| < cfg.maxMessageSize
      ensures handed.Some? ==>
        handed.value == Delivery(helo, tls, Envelope(old(envelope).value.sender, old(envelope).value.recipients, body.data))
      ensures handed.Some? ==> envelope.None? && code == (if accepted then 250 else 502)
      ensures old(envelope).None? || old(envelope).value.recipients == [] ==> code == 502 && envelope == old(envelope)
      ensures old(envelope).Some? && old(envelope).value.recipients != [] && body.Cut? ==> code == 354 && envelope == old(envelope)
      ensures handed.None? && old(envelope).Some? && old(envelope).value.recipients != [] && body.Complete? ==>
        code == 552 && envelope.None?
    {
      if envelope.None? || |envelope.value.recipients| == 0 { code := 502; return; }
      code := 354;
      var data, ended, broken := CopyN(body, cfg.maxMessageSize);
      if ended {
        envelope := Some(envelope.value.(data := data));
        handed := Some(Delivery(helo, tls, envelope.value));
        code := if accepted then 250 else 502;
        Reset();
        return;
      }
      if broken { return; }
      if body.Cut? { return; }
      code := 552;
      Reset();
    }

    method HandleAuth(args: seq<Field>, credentials: Option<string>, accepted: bool)
      requires handed.None? && !crashed
      modifies this`username, this`code, this`crashed
      ensures Did(Authenticate(cfg, old(View()), args, credentials, accepted))
      ensures code == 235 <==>
        && cfg.hasAuthenticator && helo != "" && tls && args != []
        && credentials.Some? && accepted
      ensures username == if code == 235 then credentials.value else old(username)
      ensures crashed <==> cfg.hasAuthenticator && helo != "" && tls && args == []
    {
      code := 502;
      if !cfg.hasAuthenticator || helo == "" || !tls { return; }
      if |args| < 1 { crashed, code := true, 0; return; }
      if credentials.None? || !accepted { return; }
      username, code := credentials.value, 235;
    }

    method HandleXclient(newHelo: Option<string>, login: string)
      requires handed.None?
      modifies this`helo, this`username, this`code
      ensures Did(Override(cfg, old(View()), newHelo, login))
      ensures code == 220 <==> cfg.enableXCLIENT && newHelo.Some?
      ensures code != 220 ==> helo == old(helo) && username == old(username) && code == (if cfg.enableXCLIENT then 502 else 550)
      ensures code == 220 ==>
        && helo == (if newHelo.value == "" then old(helo) else newHelo.value)
        && username == if login == "" then old(username) else login
    {
      if !cfg.enableXCLIENT { code := 550; return; }
      if newHelo.None? { code := 502; return; }
      if newHelo.value != "" { helo := newHelo.value; }
      if login != "" { username := login; }
      code := 220;
    }

    /** session.handle, and the serve loop's treatment of a line that is too long */
    method Handle(input: Input)
      modifies this
      ensures Did(Step(cfg, old(View()), input))
      ensures seen == old(seen) + [Observe(input, Step(cfg, old(View()), input))]
      ensures seen == old(seen) + [Seen(input, code, handed)]
      ensures old(crashed) ==> View() == old(View()) && handed.None?
      ensures !old(crashed) && input.TooLong? ==> code == 500 && View() == old(View()).(envelope := None)
      ensures !old(crashed) && input.Blank? ==> crashed
    {
      code, handed := 0, None;
      seen := seen + [Observe(input, Step(cfg, View(), input))];
      if crashed { return; }
      match input
      case Line(verb, args, accepted) => HandleLine(verb, args, accepted);
      case Data(body, accepted) => HandleData(body, accepted);
      case Auth(args, credentials, accepted) => HandleAuth(args, credentials, accepted);
      case Xclient(newHelo, login) => HandleXclient(newHelo, login);
      case Blank => crashed := true;
      case TooLong => code := 500; Reset();
    }

    method HandleLine(verb: Verb, args: seq<Field>, accepted: bool)
      requires handed.None? && !crashed
      modifies this`helo, this`envelope, this`tls, this`code, this`crashed
      ensures Did(Step(cfg, old(View()), Line(verb, args, accepted)))
      ensures verb == RSET ==> code == 250 && View() == old(View()).(envelope := None)
      ensures verb == NOOP ==> code == 250 && View() == old(View())
      ensures verb == QUIT ==> code == 221 && View() == old(View())
      ensures verb == UNSUPPORTED ==> code == 502 && View() == old(View())
      ensures verb == HELO || verb == EHLO ==> (code == 250 <==> args != [] && accepted)
    {
      match verb
      case HELO => HandleHelo(args, accepted);
      case EHLO => HandleHelo(args, accepted);
      case MAIL => HandleMail(args, accepted);
      case RCPT => HandleRcpt(args, accepted);
      case STARTTLS => HandleStartTLS(accepted);
      case RSET => code := 250; Reset();
      case NOOP => code := 250;
      case QUIT => code := 221;
      case UNSUPPORTED => code := 502;
    }

    /** session.serve: the connection's inputs, one after the other.  The contract
        of DeliveredEnvelope therefore holds of everything it hands over. */
    method Serve(inputs: seq<Input>) returns (deliveries: seq<Delivery>)
      requires View() == NEW_SESSION && seen == []
      modifies this
      ensures View() == After(cfg, inputs)
      ensures seen == Transcript(cfg, inputs)
      ensures deliveries == Handed(Transcript(cfg, inputs))
    {
      deliveries := [];
      for i := 0 to |inputs|
        invariant View() == After(cfg, inputs[..i])
        invariant seen == Transcript(cfg, inputs[..i])
        invariant deliveries == Handed(seen)
      {
        ghost var before := seen;
        Handle(inputs[i]);
        assert inputs[..i + 1][..i] == inputs[..i];
        assert seen[..|seen| - 1] == before;
        if handed.Some? { deliveries := deliveries + [handed.value]; }
      }
      assert inputs[..|inputs|] == inputs;
    }
  }

  /** The envelopes handed over, in order. */
  function Handed(tr: seq<Seen>): seq<Delivery> {
    if tr == [] then []
    else
      var last := tr[|tr| - 1];
      Handed(tr[..|tr| - 1]) + if last.delivered.Some? then [last.delivered.value] else []
  }
}
