/** What preference updates mean: the documents users send, what a committed
    update leaves in the two unsubscribe tables, and the decision to deliver.
    Module PreferenceStore holds the code that works on the tables. */
module Preferences {

  datatype Unsubscribe = Unsubscribe(user: string, client: string, kind: string)

  datatype Email = Unset | Email(wanted: bool)

  /** services.Kind */
  datatype Kind = Kind(count: int, email: Email, kindDescription: string, sourceDescription: string)

  /** services.ClientsMap: client ID to kind ID to kind. */
  type Document = map<string, map<string, Kind>>

  /** models.Preference */
  datatype Preference = Preference(
    client: string, kind: string, email: bool, count: int, kindDescription: string, sourceDescription: string)

  /** The tables: users who unsubscribed from everything, unsubscriptions from
      one kind, and for each (client, kind) whether it is critical. */
  datatype Store = Store(globals: set<string>, unsubscribes: set<Unsubscribe>, kinds: map<(string, string), bool>)

  // ---------------------------------------------------------------- documents

  predicate Chooses(doc: Document, client: string, kind: string) {
    client in doc && kind in doc[client]
  }

  predicate ClientOK(kinds: map<string, Kind>) {
    kinds != map[] && forall k :: k in kinds ==> kinds[k].email.Email?
  }

  /** The documents ToPreferences accepts. */
  predicate WellFormed(doc: Document) {
    forall c :: c in doc ==> ClientOK(doc[c])
  }

  predicate Wants(doc: Document, client: string, kind: string) {
    Chooses(doc, client, kind) && doc[client][kind].email == Email(true)
  }

  predicate Refuses(doc: Document, client: string, kind: string) {
    Chooses(doc, client, kind) && doc[client][kind].email == Email(false)
  }

  predicate Has(prefs: seq<Preference>, client: string, kind: string) {
    exists i :: 0 <= i < |prefs| && prefs[i].client == client && prefs[i].kind == kind
  }

  predicate Distinct(prefs: seq<Preference>) {
    forall i, j :: 0 <= i < j < |prefs| ==> prefs[i].client != prefs[j].client || prefs[i].kind != prefs[j].kind
  }

  predicate From(doc: Document, p: Preference) {
    Chooses(doc, p.client, p.kind) && doc[p.client][p.kind].email == Email(p.email)
  }

  /** `prefs` lists the document's choices, each once, in some order. */
  ghost predicate Lists(prefs: seq<Preference>, doc: Document) {
    && (forall i :: 0 <= i < |prefs| ==> From(doc, prefs[i]))
    && Distinct(prefs)
    && (forall c, k :: Chooses(doc, c, k) ==> Has(prefs, c, k))
  }

  // ---------------------------------------------------------------- the effect of an update

  function Flagged(globals: set<string>, user: string, global: bool): set<string> {
    if global then globals + {user} else globals - {user}
  }

  function Choose(unsubscribes: set<Unsubscribe>, user: string, p: Preference): set<Unsubscribe> {
    var u := Unsubscribe(user, p.client, p.kind);
    if p.email then unsubscribes - {u} else unsubscribes + {u}
  }

  /** The choices of a list, one after the other. */
  function Chosen(unsubscribes: set<Unsubscribe>, user: string, prefs: seq<Preference>): set<Unsubscribe> {
    if prefs == [] then unsubscribes
    else Choose(Chosen(unsubscribes, user, prefs[..|prefs| - 1]), user, prefs[|prefs| - 1])
  }

  /** The choices of a document, all at once. */
  ghost function ChosenBy(unsubscribes: set<Unsubscribe>, user: string, doc: Document): set<Unsubscribe> {
    (set u | u in unsubscribes && !(u.user == user && Wants(doc, u.client, u.kind)))
    + (set c, k | c in doc && k in doc[c] && Refuses(doc, c, k) :: Unsubscribe(user, c, k))
  }

  predicate Allowed(kinds: map<(string, string), bool>, p: Preference) {
    (p.client, p.kind) in kinds && !kinds[(p.client, p.kind)]
  }

  predicate AllAllowed(kinds: map<(string, string), bool>, prefs: seq<Preference>) {
    forall i :: 0 <= i < |prefs| ==> Allowed(kinds, prefs[i])
  }

  /** Every kind the document mentions exists and is not critical. */
  ghost predicate Permitted(kinds: map<(string, string), bool>, doc: Document) {
    forall c, k :: Chooses(doc, c, k) ==> (c, k) in kinds && !kinds[(c, k)]
  }

  lemma {:induction false} ChosenMember(unsubscribes: set<Unsubscribe>, user: string, prefs: seq<Preference>, u: Unsubscribe)
    requires Distinct(prefs)
    ensures u.user == user ==>
      forall i :: 0 <= i < |prefs| && prefs[i].client == u.client && prefs[i].kind == u.kind
        ==> (u in Chosen(unsubscribes, user, prefs) <==> !prefs[i].email)
    ensures u.user != user || !Has(prefs, u.client, u.kind)
      ==> (u in Chosen(unsubscribes, user, prefs) <==> u in unsubscribes)
  {
    if prefs != [] {
      var before, last := prefs[..|prefs| - 1], prefs[|prefs| - 1];
      ChosenMember(unsubscribes, user, before, u);
      forall i | 0 <= i < |before| && before[i].client == u.client && before[i].kind == u.kind
        ensures Has(prefs, u.client, u.kind) && !(last.client == u.client && last.kind == u.kind)
      { assert prefs[i] == before[i]; }
      if Has(before, u.client, u.kind) {
        var i :| 0 <= i < |before| && before[i].client == u.client && before[i].kind == u.kind;
        assert prefs[i] == before[i];
      }
    }
  }

  /** Whatever order a map is iterated in, the update leaves the same rows. */
  lemma OrderDoesNotMatter(unsubscribes: set<Unsubscribe>, user: string, prefs: seq<Preference>, doc: Document)
    requires Lists(prefs, doc)
    ensures Chosen(unsubscribes, user, prefs) == ChosenBy(unsubscribes, user, doc)
  {
    forall u ensures u in Chosen(unsubscribes, user, prefs) <==> u in ChosenBy(unsubscribes, user, doc) {
      ChosenMember(unsubscribes, user, prefs, u);
      if u.user == user && Chooses(doc, u.client, u.kind) {
        assert Has(prefs, u.client, u.kind);
        var i :| 0 <= i < |prefs| && prefs[i].client == u.client && prefs[i].kind == u.kind;
        assert From(doc, prefs[i]);
      } else {
        assert Has(prefs, u.client, u.kind) ==> Chooses(doc, u.client, u.kind);
      }
    }
  }

  lemma PermittedList(kinds: map<(string, string), bool>, prefs: seq<Preference>, doc: Document)
    requires Lists(prefs, doc)
    ensures AllAllowed(kinds, prefs) <==> Permitted(kinds, doc)
  {
    if AllAllowed(kinds, prefs) {
      forall c, k | Chooses(doc, c, k) ensures (c, k) in kinds && !kinds[(c, k)] {
        assert Has(prefs, c, k);
        var i :| 0 <= i < |prefs| && prefs[i].client == c && prefs[i].kind == k;
        assert Allowed(kinds, prefs[i]);
      }
    } else {
      var i :| 0 <= i < |prefs| && !Allowed(kinds, prefs[i]);
      assert From(doc, prefs[i]);
    }
  }

  // ---------------------------------------------------------------- histories

  /** A PATCH of one user, or a new set of kinds (which the registrar writes).
      `broken`: some statement of the transaction failed. */
  datatype Event =
    | Patch(user: string, global: bool, doc: Document, broken: bool)
    | Register(kinds: map<(string, string), bool>)

  ghost predicate Commits(s: Store, e: Event) {
    e.Patch? && WellFormed(e.doc) && Permitted(s.kinds, e.doc) && !e.broken
  }

  ghost function Applied(s: Store, e: Event): Store {
    match e
    case Register(kinds) => s.(kinds := kinds)
    case Patch(user, global, doc, _) =>
      if !Commits(s, e) then s
      else s.(globals := Flagged(s.globals, user, global),
              unsubscribes := ChosenBy(s.unsubscribes, user, doc))
  }

  /** A committed update, user by user and kind by kind. */
  lemma {:induction false} CommittedUpdate(s: Store, e: Event)
    requires Commits(s, e)
    ensures
      var t := Applied(s, e);
      && (e.user in t.globals <==> e.global)
      && (forall c, k :: Chooses(e.doc, c, k) ==>
            (Unsubscribe(e.user, c, k) in t.unsubscribes <==> e.doc[c][k].email == Email(false)))
      && (forall u :: u != e.user ==> (u in t.globals <==> u in s.globals))
      && (forall u: Unsubscribe :: u.user != e.user || !Chooses(e.doc, u.client, u.kind) ==>
            (u in t.unsubscribes <==> u in s.unsubscribes))
  {
    forall c, k | Chooses(e.doc, c, k)
      ensures Unsubscribe(e.user, c, k) in Applied(s, e).unsubscribes <==> e.doc[c][k].email == Email(false)
    { assert ClientOK(e.doc[c]); }
  }

  ghost function After(s: Store, events: seq<Event>): Store {
    if events == [] then s else Applied(After(s, events[..|events| - 1]), events[|events| - 1])
  }

  /** The global flag of the user's last committed update. */
  ghost predicate LastGlobal(s: Store, events: seq<Event>, user: string) {
    if events == [] then user in s.globals
    else
      var before, e := events[..|events| - 1], events[|events| - 1];
      if Commits(After(s, before), e) && e.user == user then e.global else LastGlobal(s, before, user)
  }

  /** The user's last committed choice for a kind. */
  ghost predicate LastChoice(s: Store, events: seq<Event>, u: Unsubscribe) {
    if events == [] then u !in s.unsubscribes
    else
      var before, e := events[..|events| - 1], events[|events| - 1];
      if Commits(After(s, before), e) && e.user == u.user && Chooses(e.doc, u.client, u.kind)
      then Wants(e.doc, u.client, u.kind)
      else LastChoice(s, before, u)
  }

  datatype Delivery = Delivery(user: string, email: string, client: string, kind: string)

  predicate Critical(s: Store, d: Delivery) {
    (d.client, d.kind) in s.kinds && s.kinds[(d.client, d.kind)]
  }

  /** What shouldDeliver asks for a kind that is not critical. */
  predicate Subscribed(s: Store, d: Delivery) {
    d.user !in s.globals && Unsubscribe(d.user, d.client, d.kind) !in s.unsubscribes && '@' in d.email
  }

  /** shouldDeliver, when no lookup fails. */
  predicate ShouldDeliver(s: Store, d: Delivery) {
    Critical(s, d) || Subscribed(s, d)
  }

  lemma {:induction false} GlobalIsLast(s: Store, events: seq<Event>, user: string)
    ensures user in After(s, events).globals <==> LastGlobal(s, events, user)
  {
    if events != [] { GlobalIsLast(s, events[..|events| - 1], user); }
  }

  lemma {:induction false} ChoiceIsLast(s: Store, events: seq<Event>, u: Unsubscribe)
    ensures u !in After(s, events).unsubscribes <==> LastChoice(s, events, u)
  {
    if events != [] {
      var before, e := events[..|events| - 1], events[|events| - 1];
      ChoiceIsLast(s, before, u);
      if Commits(After(s, before), e) && Chooses(e.doc, u.client, u.kind) {
        assert Wants(e.doc, u.client, u.kind) || Refuses(e.doc, u.client, u.kind);
      }
    }
  }

  /** The kinds as they were registered last. */
  ghost function LastKinds(s: Store, events: seq<Event>): map<(string, string), bool> {
    if events == [] then s.kinds
    else
      var e := events[|events| - 1];
      if e.Register? then e.kinds else LastKinds(s, events[..|events| - 1])
  }

  lemma {:induction false} KindsAreLast(s: Store, events: seq<Event>)
    ensures After(s, events).kinds == LastKinds(s, events)
  {
    if events != [] { KindsAreLast(s, events[..|events| - 1]); }
  }

  /** After any history of committed and rolled-back updates and of kind changes, a
      message goes out exactly when its kind was registered as critical the last time
      kinds were registered, or the user's last committed global flag is off, the last
      committed choice for the kind is to receive it, and the address has an "@". */
  lemma {:induction false} DeliveryFollowsLastUpdates(s: Store, events: seq<Event>, d: Delivery)
    ensures
      var kinds, key := LastKinds(s, events), (d.client, d.kind);
      ShouldDeliver(After(s, events), d) <==>
        || (key in kinds && kinds[key])
        || (!LastGlobal(s, events, d.user) && LastChoice(s, events, Unsubscribe(d.user, d.client, d.kind)) && '@' in d.email)
  {
    KindsAreLast(s, events);
    GlobalIsLast(s, events, d.user);
    ChoiceIsLast(s, events, Unsubscribe(d.user, d.client, d.kind));
  }

  // ---------------------------------------------------------------- PreferencesBuilder.Add

  function Described(p: Preference): Kind {
    Kind(p.count, Email(p.email),
         if p.kindDescription == "" then p.kind else p.kindDescription,
         if p.sourceDescription == "" then p.client else p.sourceDescription)
  }

  function Added(doc: Document, p: Preference): Document {
    doc[p.client := (if p.client in doc then doc[p.client] else map[])[p.kind := Described(p)]]
  }

  function AddedAll(doc: Document, prefs: seq<Preference>): Document {
    if prefs == [] then doc else Added(AddedAll(doc, prefs[..|prefs| - 1]), prefs[|prefs| - 1])
  }

  /** The entry for a kind that was added last. */
  function LastEntry(prefs: seq<Preference>, c: string, k: string): Preference
    requires Has(prefs, c, k)
  {
    var last := prefs[|prefs| - 1];
    if last.client == c && last.kind == k then last
    else
      assert Has(prefs[..|prefs| - 1], c, k) by {
        var i :| 0 <= i < |prefs| && prefs[i].client == c && prefs[i].kind == k;
        assert prefs[..|prefs| - 1][i] == prefs[i];
      }
      LastEntry(prefs[..|prefs| - 1], c, k)
  }

  lemma AddedIsWellFormed(doc: Document, p: Preference)
    requires WellFormed(doc)
    ensures WellFormed(Added(doc, p))
  {
    assert p.kind in Added(doc, p)[p.client];
    assert p.client in doc ==> ClientOK(doc[p.client]);
  }

  lemma HasMore(prefs: seq<Preference>, p: Preference, c: string, k: string)
    ensures Has(prefs + [p], c, k) <==> Has(prefs, c, k) || (p.client == c && p.kind == k)
  {
    if Has(prefs, c, k) {
      var i :| 0 <= i < |prefs| && prefs[i].client == c && prefs[i].kind == k;
      assert (prefs + [p])[i] == prefs[i];
    } else if p.client == c && p.kind == k {
      assert (prefs + [p])[|prefs|] == p;
    }
  }

  lemma AddedChooses(doc: Document, p: Preference, c: string, k: string)
    ensures Chooses(Added(doc, p), c, k) <==> Chooses(doc, c, k) || (p.client == c && p.kind == k)
    ensures Chooses(Added(doc, p), c, k) ==>
      Added(doc, p)[c][k] == if p.client == c && p.kind == k then Described(p) else doc[c][k]
  {}

  /** A document built by Add is accepted by ToPreferences, mentions exactly the
      kinds added, and carries for each the entry added last. */
  lemma {:induction false} BuiltDocument(prefs: seq<Preference>, c: string, k: string)
    ensures WellFormed(AddedAll(map[], prefs))
    ensures Chooses(AddedAll(map[], prefs), c, k) <==> Has(prefs, c, k)
    ensures Has(prefs, c, k) ==> AddedAll(map[], prefs)[c][k] == Described(LastEntry(prefs, c, k))
  {
    if prefs != [] {
      var before, last := prefs[..|prefs| - 1], prefs[|prefs| - 1];
      BuiltDocument(before, c, k);
      AddedIsWellFormed(AddedAll(map[], before), last);
      AddedChooses(AddedAll(map[], before), last, c, k);
      HasMore(before, last, c, k);
      assert before + [last] == prefs;
    }
  }

  /** A list of preferences that says of each kind what the tables say. */
  predicate Truthful(s: Store, user: string, prefs: seq<Preference>) {
    forall i :: 0 <= i < |prefs| ==>
      && Allowed(s.kinds, prefs[i])
      && (prefs[i].email <==> Unsubscribe(user, prefs[i].client, prefs[i].kind) !in s.unsubscribes)
  }

  lemma {:induction false} LastEntryIn(prefs: seq<Preference>, c: string, k: string)
    requires Has(prefs, c, k)
    ensures LastEntry(prefs, c, k) in prefs && LastEntry(prefs, c, k).client == c && LastEntry(prefs, c, k).kind == k
  {
    var n := |prefs| - 1;
    if !(prefs[n].client == c && prefs[n].kind == k) {
      assert Has(prefs[..n], c, k) by {
        var i :| 0 <= i < |prefs| && prefs[i].client == c && prefs[i].kind == k;
        assert prefs[..n][i] == prefs[i];
      }
      LastEntryIn(prefs[..n], c, k);
    }
  }

  lemma {:induction false} FoundSaysTruth(s: Store, user: string, prefs: seq<Preference>, c: string, k: string)
    requires Truthful(s, user, prefs) && Chooses(AddedAll(map[], prefs), c, k)
    ensures (c, k) in s.kinds && !s.kinds[(c, k)]
    ensures Wants(AddedAll(map[], prefs), c, k) <==> Unsubscribe(user, c, k) !in s.unsubscribes
    ensures Refuses(AddedAll(map[], prefs), c, k) <==> Unsubscribe(user, c, k) in s.unsubscribes
  {
    BuiltDocument(prefs, c, k);
    LastEntryIn(prefs, c, k);
  }

  /** Sending back what one has fetched changes nothing. */
  lemma {:induction false} FetchedUpdateChangesNothing(s: Store, user: string, prefs: seq<Preference>)
    requires Truthful(s, user, prefs)
    ensures
      var update := Patch(user, user in s.globals, AddedAll(map[], prefs), false);
      Commits(s, update) && Applied(s, update) == s
  {
    var doc := AddedAll(map[], prefs);
    BuiltDocument(prefs, "", "");
    forall c, k | Chooses(doc, c, k)
      ensures (c, k) in s.kinds && !s.kinds[(c, k)]
      ensures Wants(doc, c, k) <==> Unsubscribe(user, c, k) !in s.unsubscribes
      ensures Refuses(doc, c, k) <==> Unsubscribe(user, c, k) in s.unsubscribes
    { FoundSaysTruth(s, user, prefs, c, k); }
    assert ChosenBy(s.unsubscribes, user, doc) == s.unsubscribes;
  }
}
