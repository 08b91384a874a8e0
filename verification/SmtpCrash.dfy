/** Which sessions make a handler index past the end of a slice, told from the
    client's transcript alone; and what a STARTTLS leaves of the greeting. */
module SmtpCrash {
  import opened SmtpSession

  predicate Greets(e: Seen) {
    || ((IsLine(e, HELO) || IsLine(e, EHLO)) && e.code == 250)
    || (e.input.Xclient? && e.code == 220 && e.input.helo.Some? && e.input.helo.value != "")
  }

  predicate Secures(e: Seen) { IsLine(e, STARTTLS) && e.code == 220 }

  predicate Greeted(tr: seq<Seen>) { exists k :: 0 <= k < |tr| && Greets(tr[k]) }

  predicate Secured(tr: seq<Seen>) { exists k :: 0 <= k < |tr| && Secures(tr[k]) }

  lemma GreetedMore(tr: seq<Seen>, e: Seen)
    ensures Greeted(tr + [e]) <==> Greeted(tr) || Greets(e)
    ensures Secured(tr + [e]) <==> Secured(tr) || Secures(e)
  {
    var more := tr + [e];
    assert more[|tr|] == e && forall k :: 0 <= k < |tr| ==> more[k] == tr[k];
  }

  /** The flags of a live session are what the transcript says. */
  predicate Known(tr: seq<Seen>, s: Session) {
    s.crashed || ((s.helo != "" <==> Greeted(tr)) && (s.tls <==> Secured(tr)))
  }

  lemma StepKnown(cfg: Config, s: Session, input: Input)
    requires !s.crashed && !Step(cfg, s, input).session.crashed
    ensures
      var t := Step(cfg, s, input);
      && (t.session.helo != "" <==> s.helo != "" || Greets(Observe(input, t)))
      && (t.session.tls <==> s.tls || Secures(Observe(input, t)))
  {}

  lemma CrashedStays(cfg: Config, s: Session, input: Input)
    requires s.crashed
    ensures Step(cfg, s, input).session.crashed
  {}

  lemma {:induction false} SessionKnown(cfg: Config, inputs: seq<Input>)
    ensures Known(Transcript(cfg, inputs), After(cfg, inputs))
  {
    if inputs != [] {
      var n := |inputs| - 1;
      var s := After(cfg, inputs[..n]);
      SessionKnown(cfg, inputs[..n]);
      GreetedMore(Transcript(cfg, inputs[..n]), Observe(inputs[n], Step(cfg, s, inputs[n])));
      if s.crashed {
        CrashedStays(cfg, s, inputs[n]);
      } else if !Step(cfg, s, inputs[n]).session.crashed {
        StepKnown(cfg, s, inputs[n]);
      }
    }
  }

  // ---------------------------------------------------------------- crashes

  /** After this transcript, this input indexes past the end of a slice. */
  ghost predicate Fatal(cfg: Config, tr: seq<Seen>, input: Input) {
    match input
    case Blank => true
    case Line(MAIL, args, _) =>
      && Greeted(tr) && (cfg.forceTLS ==> Secured(tr)) && (forall m :: !OpenSince(tr, m))
      && ParseAddress(args).OutOfRange?
    case Line(RCPT, args, _) =>
      && (exists m :: OpenSince(tr, m) && |Accepted(tr[m + 1..])| < cfg.maxRecipients)
      && ParseAddress(args).OutOfRange?
    case Auth(args, _, _) => cfg.hasAuthenticator && Greeted(tr) && Secured(tr) && args == []
    case _ => false
  }

  /** The same, from the session's own fields. */
  predicate StepFatal(cfg: Config, s: Session, input: Input) {
    match input
    case Blank => true
    case Line(MAIL, args, _) =>
      s.helo != "" && (cfg.forceTLS ==> s.tls) && s.envelope.None? && ParseAddress(args).OutOfRange?
    case Line(RCPT, args, _) =>
      s.envelope.Some? && |s.envelope.value.recipients| < cfg.maxRecipients && ParseAddress(args).OutOfRange?
    case Auth(args, _, _) => cfg.hasAuthenticator && s.helo != "" && s.tls && args == []
    case _ => false
  }

  lemma StepFatalIff(cfg: Config, s: Session, input: Input)
    requires !s.crashed
    ensures Step(cfg, s, input).session.crashed <==> StepFatal(cfg, s, input)
  {}

  /** Open transactions, seen from the session and from the transcript. */
  lemma {:induction false} OpenKnown(cfg: Config, inputs: seq<Input>)
    requires !After(cfg, inputs).crashed
    ensures
      var s, tr := After(cfg, inputs), Transcript(cfg, inputs);
      && (s.envelope.None? <==> forall m :: !OpenSince(tr, m))
      && ((s.envelope.Some? && |s.envelope.value.recipients| < cfg.maxRecipients)
          <==> exists m :: OpenSince(tr, m) && |Accepted(tr[m + 1..])| < cfg.maxRecipients)
  {
    var s, tr := After(cfg, inputs), Transcript(cfg, inputs);
    SessionAgrees(cfg, inputs);
    if s.envelope.Some? {
      var m := OpenEnvelope(cfg, inputs);
      forall k | OpenSince(tr, k) ensures k == m { OneOpening(tr, m, k); }
    }
  }

  lemma {:induction false} FatalKnown(cfg: Config, inputs: seq<Input>, input: Input)
    requires !After(cfg, inputs).crashed
    ensures StepFatal(cfg, After(cfg, inputs), input) <==> Fatal(cfg, Transcript(cfg, inputs), input)
  {
    SessionKnown(cfg, inputs);
    OpenKnown(cfg, inputs);
  }

  /** The next input crashes a live session exactly when the transcript so far makes it fatal. */
  lemma {:induction false} TurnCrashesIff(cfg: Config, inputs: seq<Input>, input: Input)
    requires !After(cfg, inputs).crashed
    ensures After(cfg, inputs + [input]).crashed <==> Fatal(cfg, Transcript(cfg, inputs), input)
  {
    assert (inputs + [input])[..|inputs|] == inputs;
    StepFatalIff(cfg, After(cfg, inputs), input);
    FatalKnown(cfg, inputs, input);
  }

  /** For every sequence of inputs: the session crashes exactly when, for some turn,
      the line is blank; or it is MAIL without an address to parse, after an accepted
      greeting, with TLS if forced and no transaction open; or RCPT without one, in
      an open transaction below the limit; or AUTH without a mechanism, after a
      greeting, under TLS and with an authenticator. */
  lemma {:induction false} CrashesIff(cfg: Config, inputs: seq<Input>)
    ensures After(cfg, inputs).crashed
      <==> exists d :: 0 <= d < |inputs| && Fatal(cfg, Transcript(cfg, inputs)[..d], inputs[d])
  {
    if inputs != [] {
      var n := |inputs| - 1;
      var before := inputs[..n];
      CrashesIff(cfg, before);
      assert before + [inputs[n]] == inputs;
      var tr := Transcript(cfg, inputs);
      assert tr[..n] == Transcript(cfg, before);
      forall d | 0 <= d < n
        ensures Fatal(cfg, tr[..d], inputs[d]) <==> Fatal(cfg, Transcript(cfg, before)[..d], before[d])
      { assert tr[..d] == tr[..n][..d] && before[d] == inputs[d]; }
      if After(cfg, before).crashed {
        CrashedStays(cfg, After(cfg, before), inputs[n]);
      } else {
        TurnCrashesIff(cfg, before, inputs[n]);
      }
    }
  }

  /** DATA hands something to the handler exactly when no turn before was fatal, a
      transaction with a recipient is open, and a complete body below the limit follows. */
  lemma {:induction false} DeliversExactlyWhen(cfg: Config, inputs: seq<Input>, d: nat)
    requires d < |inputs|
    ensures
      var tr := Transcript(cfg, inputs);
      tr[d].delivered.Some? <==>
        && (forall k :: 0 <= k < d ==> !Fatal(cfg, tr[..k], inputs[k]))
        && inputs[d].Data? && inputs[d].body.Complete? && |inputs[d].body.data| < cfg.maxMessageSize
        && exists m :: 0 <= m < d && OpenSince(tr[..d], m) && Accepted(tr[m + 1..d]) != []
  {
    var tr, before := Transcript(cfg, inputs), inputs[..d];
    TranscriptAt(cfg, inputs, d);
    CrashesIff(cfg, before);
    forall k | 0 <= k < d
      ensures Fatal(cfg, tr[..k], inputs[k]) <==> Fatal(cfg, Transcript(cfg, before)[..k], before[k])
    { assert tr[..k] == tr[..d][..k] && before[k] == inputs[k]; }
    if After(cfg, before).crashed {
      StepDelivers(cfg, After(cfg, before), inputs[d]);
    } else {
      DeliversIff(cfg, inputs, d);
    }
  }

  /** Two lines that end every server: a greeting, and a MAIL whose parameter has no colon. */
  lemma MailWithoutColonCrashes(cfg: Config)
    requires !cfg.forceTLS
    ensures After(cfg, [Line(HELO, ["me"], true), Line(MAIL, ["FROM"], true)]).crashed
  {
    var greeting, mail := Line(HELO, ["me"], true), Line(MAIL, ["FROM"], true);
    assert [greeting, mail][..1] == [greeting];
    assert [greeting][..0] == [];
    assert After(cfg, []) == NEW_SESSION;
    assert After(cfg, [greeting]) == NEW_SESSION.(helo := "me");
    assert Split("FROM") == ["FROM"] by { SplitWithoutColon("FROM"); }
  }

  lemma {:induction false} SplitWithoutColon(s: string)
    requires ':' !in s
    ensures Split(s) == [s]
  {
    if s != "" {
      SplitWithoutColon(s[1..]);
      assert [s[0]] + s[1..] == s;
    }
  }

  // ---------------------------------------------------------------- STARTTLS

  /** A MAIL right after an accepted STARTTLS is accepted exactly when the peer had
      introduced itself before the STARTTLS and the address is well formed and
      accepted: contrary to the comment in the code, no new EHLO is required. */
  lemma {:induction false} GreetingSurvivesTLS(cfg: Config, inputs: seq<Input>, args: seq<Field>, accepted: bool)
    requires !After(cfg, inputs).crashed && !Secured(Transcript(cfg, inputs)) && cfg.hasTLS
    ensures
      var tls := inputs + [Line(STARTTLS, [], true)];
      Step(cfg, After(cfg, tls), Line(MAIL, args, accepted)).code == 250
      <==> Greeted(Transcript(cfg, inputs)) && ParseAddress(args).Address? && accepted
  {
    SessionKnown(cfg, inputs);
    assert (inputs + [Line(STARTTLS, [], true)])[..|inputs|] == inputs;
  }
}
