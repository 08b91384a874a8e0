/** PreferenceUpdater, PreferencesBuilder and the repositories behind them, on
    tables whose rows carry an auto-incremented primary key, and the worker's
    decision whether to deliver. */
module PreferenceStore {
  import opened Preferences

  /** What a SELECT of one row gives. */
  datatype Lookup = Row(primary: int) | NoRow | Broken

  datatype Outcome = Done | MissingKind | CriticalKind | RepositoryError

  datatype Response = NoContent | Invalid | ServerError

  /** The first preference that cannot be changed decides. */
  function Verdict(kinds: map<(string, string), bool>, prefs: seq<Preference>): (r: Outcome)
    ensures r != RepositoryError
  {
    if prefs == [] then Done
    else if Allowed(kinds, prefs[0]) then Verdict(kinds, prefs[1..])
    else if (prefs[0].client, prefs[0].kind) in kinds then CriticalKind
    else MissingKind
  }

  /** One preference more, seen from both ends of the list. */
  lemma OneMore(kinds: map<(string, string), bool>, before: set<Unsubscribe>, user: string, prefs: seq<Preference>, i: nat)
    requires i < |prefs|
    ensures Verdict(kinds, prefs[i..]) ==
      if Allowed(kinds, prefs[i]) then Verdict(kinds, prefs[i + 1..])
      else if (prefs[i].client, prefs[i].kind) in kinds then CriticalKind
      else MissingKind
    ensures Chosen(before, user, prefs[..i + 1]) == Choose(Chosen(before, user, prefs[..i]), user, prefs[i])
  {
    assert prefs[i..][1..] == prefs[i + 1..];
    assert prefs[..i + 1][..i] == prefs[..i];
  }

  // ---------------------------------------------------------------- tables

  /** A table with unique rows and an auto-increment counter. */
  predicate TableOK<T(==)>(rows: map<int, T>, next: int) {
    && 1 <= next
    && (forall p :: p in rows ==> 1 <= p < next)
    && (forall p, q :: p in rows && q in rows && rows[p] == rows[q] ==> p == q)
  }

  ghost function Rows<T>(rows: map<int, T>): set<T> {
    set p | p in rows :: rows[p]
  }

  lemma Inserted<T>(rows: map<int, T>, next: int, row: T)
    requires TableOK(rows, next) && row !in Rows(rows)
    ensures TableOK(rows[next := row], next + 1) && Rows(rows[next := row]) == Rows(rows) + {row}
  {
    var after := rows[next := row];
    assert after[next] == row;
    forall p | p in rows ensures after[p] == rows[p] && rows[p] != row { assert rows[p] in Rows(rows); }
    forall t | t in Rows(rows) + {row} ensures t in Rows(after) {
      if t != row {
        var p :| p in rows && rows[p] == t;
        assert after[p] == t;
      }
    }
  }

  lemma Deleted<T>(rows: map<int, T>, next: int, p: int)
    requires TableOK(rows, next) && p in rows
    ensures TableOK(rows - {p}, next) && Rows(rows - {p}) == Rows(rows) - {rows[p]}
  {
    forall t | t in Rows(rows) - {rows[p]} ensures t in Rows(rows - {p}) {
      var q :| q in rows && rows[q] == t;
      assert (rows - {p})[q] == t;
    }
  }

  // ---------------------------------------------------------------- PreferencesBuilder

  class PreferencesBuilder {
    var global: bool
    var clients: Document

    constructor ()
      ensures clients == map[] && !global
    {
      global, clients := false, map[];
    }

    /** Add: the last preference for a kind stands, and no other kind is affected. */
    method Add(preference: Preference)
      modifies this`clients
      ensures clients == Added(old(clients), preference)
      ensures From(clients, preference)
      ensures
        var kind := clients[preference.client][preference.kind];
        && kind.count == preference.count && kind.email == Email(preference.email)
        && kind.kindDescription == (if preference.kindDescription != "" then preference.kindDescription else preference.kind)
        && kind.sourceDescription == if preference.sourceDescription != "" then preference.sourceDescription else preference.client
      ensures forall c, k :: c != preference.client || k != preference.kind ==>
        (Chooses(clients, c, k) <==> Chooses(old(clients), c, k)) && (Chooses(clients, c, k) ==> clients[c][k] == old(clients)[c][k])
      ensures WellFormed(old(clients)) ==> WellFormed(clients)
    {
      var data := Described(preference);
      if preference.client in clients {
        clients := clients[preference.client := clients[preference.client][preference.kind := data]];
      } else {
        clients := clients[preference.client := map[preference.kind := data]];
      }
      if WellFormed(old(clients)) { AddedIsWellFormed(old(clients), preference); }
    }
  }

  /** The inner loop of ToPreferences; `todo` is whatever order the map gives. */
  method ClientPreferences(client: string, kinds: map<string, Kind>) returns (prefs: seq<Preference>, ok: bool)
    ensures ok <==> forall k :: k in kinds ==> kinds[k].email.Email?
    ensures ok ==> Lists(prefs, map[client := kinds])
  {
    var todo := kinds.Keys;
    prefs := [];
    while todo != {}
      invariant todo <= kinds.Keys
      invariant forall k :: k in kinds && k !in todo ==> kinds[k].email.Email? && Has(prefs, client, k)
      invariant forall i :: 0 <= i < |prefs| ==> From(map[client := kinds], prefs[i]) && prefs[i].kind !in todo
      invariant Distinct(prefs)
      decreases |todo|
    {
      var k :| k in todo;
      if kinds[k].email.Unset? { return prefs, false; }
      ghost var before := prefs;
      prefs := prefs + [Preference(client, k, kinds[k].email.wanted, 0, "", "")];
      forall j | j in kinds && j !in todo - {k} ensures Has(prefs, client, j) { HasMore(before, prefs[|before|], client, j); }
      todo := todo - {k};
    }
    ok := true;
  }

  lemma HasEither(a: seq<Preference>, b: seq<Preference>, c: string, k: string)
    ensures Has(a + b, c, k) <==> Has(a, c, k) || Has(b, c, k)
  {
    if Has(a, c, k) {
      var i :| 0 <= i < |a| && a[i].client == c && a[i].kind == k;
      assert (a + b)[i] == a[i];
    } else if Has(b, c, k) {
      var i :| 0 <= i < |b| && b[i].client == c && b[i].kind == k;
      assert (a + b)[|a| + i] == b[i];
    }
  }

  /** What the outer loop has listed when the clients `todo` are still to come. */
  ghost predicate Listed(prefs: seq<Preference>, doc: Document, todo: set<string>) {
    && Distinct(prefs)
    && (forall i :: 0 <= i < |prefs| ==> From(doc, prefs[i]) && prefs[i].client !in todo)
    && (forall c, k :: Chooses(doc, c, k) && c !in todo ==> Has(prefs, c, k))
  }

  lemma ListedMore(prefs: seq<Preference>, doc: Document, todo: set<string>, client: string, more: seq<Preference>)
    requires Listed(prefs, doc, todo) && client in todo && client in doc
    requires Lists(more, map[client := doc[client]])
    ensures Listed(prefs + more, doc, todo - {client})
  {
    forall i | 0 <= i < |prefs + more|
      ensures From(doc, (prefs + more)[i]) && (prefs + more)[i].client !in todo - {client}
    {
      if i >= |prefs| { assert From(map[client := doc[client]], more[i - |prefs|]); }
    }
    forall c, k | Chooses(doc, c, k) && c !in todo - {client} ensures Has(prefs + more, c, k) {
      HasEither(prefs, more, c, k);
      assert c == client ==> Chooses(map[client := doc[client]], c, k);
    }
    forall i, j | 0 <= i < j < |prefs + more|
      ensures var l := prefs + more; l[i].client != l[j].client || l[i].kind != l[j].kind
    {
      if j >= |prefs| { assert From(map[client := doc[client]], more[j - |prefs|]); }
    }
  }

  /** ToPreferences: every choice of the document once, or the reason why not. */
  method ToPreferences(doc: Document) returns (prefs: seq<Preference>, ok: bool)
    ensures ok <==> WellFormed(doc)
    ensures ok <==> forall c :: c in doc ==> doc[c] != map[] && forall k :: k in doc[c] ==> doc[c][k].email != Unset
    ensures ok ==> Lists(prefs, doc)
  {
    var todo := doc.Keys;
    prefs := [];
    while todo != {}
      invariant todo <= doc.Keys
      invariant forall c :: c in doc && c !in todo ==> ClientOK(doc[c])
      invariant Listed(prefs, doc, todo)
      decreases |todo|
    {
      var c :| c in todo;
      if |doc[c]| == 0 { return prefs, false; }
      var more, fine := ClientPreferences(c, doc[c]);
      if !fine { return prefs, false; }
      ListedMore(prefs, doc, todo, c, more);
      prefs := prefs + more;
      todo := todo - {c};
    }
    ok := true;
  }

  // ---------------------------------------------------------------- repositories

  class Database {
    var globals: map<int, string>
    var unsubscribes: map<int, Unsubscribe>
    var kinds: map<(string, string), bool>
    var nextGlobal: int
    var nextUnsubscribe: int
    ghost var broken: bool         // some statement of the current request failed

    constructor ()
      ensures Valid() && View() == Store({}, {}, map[])
    {
      globals, unsubscribes, kinds := map[], map[], map[];
      nextGlobal, nextUnsubscribe, broken := 1, 1, false;
    }

    ghost predicate Valid()
      reads this
    {
      TableOK(globals, nextGlobal) && TableOK(unsubscribes, nextUnsubscribe)
    }

    ghost function View(): Store
      reads this
    {
      Store(Rows(globals), Rows(unsubscribes), kinds)
    }

    /** Any statement may fail on the way to the server. */
    method Statement() returns (fails: bool)
      requires !broken
      modifies this`broken
      ensures broken == fails
    {
      fails := *;
      broken := fails;
    }

    // ------------------------------------------ GlobalUnsubscribesRepo

    method FindGlobal(user: string) returns (r: Lookup)
      requires Valid() && !broken
      modifies this`broken
      ensures r.Broken? == broken
      ensures r.Row? ==> r.primary in globals && globals[r.primary] == user
      ensures r.NoRow? ==> user !in View().globals
    {
      var fails := Statement();
      if fails {
        r := Broken;
      } else if p :| p in globals && globals[p] == user {
        r := Row(p);
      } else {
        r := NoRow;
      }
    }

    /** Set: the record found, or a fresh one whose Primary is zero, decides
        between insert, delete and nothing. */
    method SetGlobal(user: string, unsubscribe: bool) returns (ok: bool)
      requires Valid() && !broken
      modifies this`globals, this`nextGlobal, this`broken
      ensures Valid() && ok == !broken
      ensures ok ==> View().globals == Flagged(old(View()).globals, user, unsubscribe)
    {
      var found := FindGlobal(user);
      if found.Broken? { return false; }
      var primary := if found.Row? then found.primary else 0;
      if found.Row? { assert globals[primary] in Rows(globals); }
      if unsubscribe && primary == 0 {
        var fails := Statement();
        if fails { return false; }
        Inserted(globals, nextGlobal, user);
        globals, nextGlobal := globals[nextGlobal := user], nextGlobal + 1;
      } else if !unsubscribe && primary != 0 {
        var fails := Statement();
        if fails { return false; }
        Deleted(globals, nextGlobal, primary);
        globals := globals - {primary};
      }
      ok := true;
    }

    /** Get */
    method GetGlobal(user: string) returns (unsubscribed: bool, ok: bool)
      requires Valid() && !broken
      modifies this`broken
      ensures ok == !broken
      ensures ok ==> (unsubscribed <==> user in View().globals)
    {
      var found := FindGlobal(user);
      unsubscribed, ok := found.Row?, !found.Broken?;
      if found.Row? { assert globals[found.primary] in Rows(globals); }
    }

    // ------------------------------------------ UnsubscribesRepo

    method Find(u: Unsubscribe) returns (r: Lookup)
      requires Valid() && !broken
      modifies this`broken
      ensures r.Broken? == broken
      ensures r.Row? ==> r.primary in unsubscribes && unsubscribes[r.primary] == u && u in View().unsubscribes
      ensures r.NoRow? ==> u !in View().unsubscribes
    {
      var fails := Statement();
      if fails {
        r := Broken;
      } else if p :| p in unsubscribes && unsubscribes[p] == u {
        r := Row(p);
        assert unsubscribes[p] in Rows(unsubscribes);
      } else {
        r := NoRow;
      }
    }

    /** Create: the unique key rejects a second row for the same choice. */
    method Create(u: Unsubscribe) returns (ok: bool)
      requires Valid() && !broken
      modifies this`unsubscribes, this`nextUnsubscribe, this`broken
      ensures Valid()
      ensures ok == (!broken && u !in old(View()).unsubscribes)
      ensures View().unsubscribes == if ok then old(View()).unsubscribes + {u} else old(View()).unsubscribes
    {
      var fails := Statement();
      if fails { return false; }
      if p :| p in unsubscribes && unsubscribes[p] == u {
        assert unsubscribes[p] in Rows(unsubscribes);
        return false;
      }
      Inserted(unsubscribes, nextUnsubscribe, u);
      unsubscribes, nextUnsubscribe := unsubscribes[nextUnsubscribe := u], nextUnsubscribe + 1;
      ok := true;
    }

    method Upsert(u: Unsubscribe) returns (ok: bool)
      requires Valid() && !broken
      modifies this`unsubscribes, this`nextUnsubscribe, this`broken
      ensures Valid() && ok == !broken
      ensures ok ==> View().unsubscribes == old(View()).unsubscribes + {u}
    {
      var found := Find(u);
      match found
      case NoRow => ok := Create(u);
      case Broken => ok := false;
      case Row(_) => ok := true;
    }

    method Destroy(u: Unsubscribe) returns (ok: bool)
      requires Valid() && !broken
      modifies this`unsubscribes, this`broken
      ensures Valid() && ok == !broken
      ensures ok ==> View().unsubscribes == old(View()).unsubscribes - {u}
    {
      var found := Find(u);
      match found
      case NoRow => ok := true;
      case Broken => ok := false;
      case Row(p) =>
        var fails := Statement();
        if fails { return false; }
        Deleted(unsubscribes, nextUnsubscribe, p);
        unsubscribes := unsubscribes - {p};
        ok := true;
    }

    // ------------------------------------------ PreferencesFinder

    /** Find: the user's flag and the preferences that the repository lists. */
    method FindPreferences(user: string, preferences: seq<Preference>) returns (builder: PreferencesBuilder, ok: bool)
      requires Valid() && !broken
      modifies this`broken
      ensures fresh(builder) && ok == !broken
      ensures ok ==> (builder.global <==> user in View().globals) && builder.clients == AddedAll(map[], preferences)
    {
      builder := new PreferencesBuilder();
      var unsubscribed: bool;
      unsubscribed, ok := GetGlobal(user);
      if !ok { return; }
      var fails := Statement();
      if fails { return builder, false; }
      builder.global := unsubscribed;
      for i := 0 to |preferences|
        invariant !broken && builder.global == unsubscribed && builder.clients == AddedAll(map[], preferences[..i])
      {
        builder.Add(preferences[i]);
        assert preferences[..i + 1][..i] == preferences[..i];
      }
      assert preferences[..|preferences|] == preferences;
    }

    // ------------------------------------------ PreferenceUpdater

    /** One turn of Execute's loop.  Any error of the kind's lookup is reported as a missing kind. */
    method ExecuteOne(p: Preference, user: string) returns (r: Outcome)
      requires Valid() && !broken
      modifies this`unsubscribes, this`nextUnsubscribe, this`broken
      ensures Valid()
      ensures (r == Done ==> !broken) && (r == RepositoryError ==> broken)
      ensures r == Done ==> Allowed(kinds, p) && View().unsubscribes == Choose(old(View()).unsubscribes, user, p)
      ensures r == MissingKind ==> broken || (p.client, p.kind) !in kinds
      ensures r == CriticalKind ==> (p.client, p.kind) in kinds && kinds[(p.client, p.kind)]
    {
      var fails := Statement();
      if fails || (p.client, p.kind) !in kinds { return MissingKind; }
      if kinds[(p.client, p.kind)] { return CriticalKind; }
      var ok: bool;
      if !p.email {
        ok := Upsert(Unsubscribe(user, p.client, p.kind));
      } else {
        ok := Destroy(Unsubscribe(user, p.client, p.kind));
      }
      r := if ok then Done else RepositoryError;
    }

    /** Execute: all choices are stored in order, unless a kind is missing or
        critical or a statement fails. */
    method Execute(prefs: seq<Preference>, global: bool, user: string) returns (r: Outcome)
      requires Valid() && !broken
      modifies this`globals, this`nextGlobal, this`unsubscribes, this`nextUnsubscribe, this`broken
      ensures Valid()
      ensures !broken ==> r == Verdict(kinds, prefs)
      ensures r == Done <==> !broken && AllAllowed(kinds, prefs)
      ensures r == Done ==> View() == old(View()).(
        globals := Flagged(old(View()).globals, user, global),
        unsubscribes := Chosen(old(View()).unsubscribes, user, prefs))
    {
      var ok := SetGlobal(user, global);
      if !ok { return RepositoryError; }
      r := ExecuteAll(prefs, user);
    }

    /** Execute's loop. */
    method ExecuteAll(prefs: seq<Preference>, user: string) returns (r: Outcome)
      requires Valid() && !broken
      modifies this`unsubscribes, this`nextUnsubscribe, this`broken
      ensures Valid()
      ensures !broken ==> r == Verdict(kinds, prefs)
      ensures r == Done <==> !broken && AllAllowed(kinds, prefs)
      ensures r == Done ==> View().unsubscribes == Chosen(old(View()).unsubscribes, user, prefs)
    {
      ghost var before := View().unsubscribes;
      for i := 0 to |prefs|
        invariant Valid() && !broken && AllAllowed(kinds, prefs[..i])
        invariant Verdict(kinds, prefs) == Verdict(kinds, prefs[i..])
        invariant View().unsubscribes == Chosen(before, user, prefs[..i])
      {
        r := ExecuteOne(prefs[i], user);
        OneMore(kinds, before, user, prefs, i);
        if r != Done { return; }
      }
      assert prefs[..|prefs|] == prefs;
      r := Done;
    }

    /** The update in its transaction, which is rolled back when anything goes wrong. */
    method Transact(prefs: seq<Preference>, global: bool, user: string) returns (r: Response)
      requires Valid() && !broken
      modifies this`globals, this`nextGlobal, this`unsubscribes, this`nextUnsubscribe, this`broken
      ensures Valid()
      ensures r == NoContent <==> !broken && AllAllowed(kinds, prefs)
      ensures r == ServerError ==> broken
      ensures View() == if r != NoContent then old(View()) else old(View()).(
        globals := Flagged(old(View()).globals, user, global),
        unsubscribes := Chosen(old(View()).unsubscribes, user, prefs))
    {
      var begun := (globals, nextGlobal, unsubscribes, nextUnsubscribe);
      var outcome := Execute(prefs, global, user);
      if outcome == Done {
        var fails := Statement();
        r := if fails then ServerError else NoContent;
      } else {
        r := if outcome == RepositoryError then ServerError else Invalid;
      }
      if r != NoContent {
        globals, nextGlobal, unsubscribes, nextUnsubscribe := begun.0, begun.1, begun.2, begun.3;
      }
    }

    /** The PATCH handler. */
    method UpdatePreferences(doc: Document, global: bool, user: string) returns (r: Response)
      requires Valid()
      modifies this
      ensures Valid()
      ensures View() == Applied(old(View()), Patch(user, global, doc, broken))
      ensures r == NoContent <==> Commits(old(View()), Patch(user, global, doc, broken))
      ensures r == NoContent ==> (user in View().globals <==> global)
      ensures r == NoContent ==> forall c, k :: Chooses(doc, c, k) ==>
        (Unsubscribe(user, c, k) in View().unsubscribes <==> doc[c][k].email == Email(false))
      ensures !WellFormed(doc) || (!broken && !Permitted(kinds, doc)) ==> r == Invalid
      ensures (exists c :: c in doc && doc[c] == map[]) ==> r == Invalid
      ensures r == ServerError ==> broken
    {
      broken := false;
      var prefs, ok := ToPreferences(doc);
      if !ok { return Invalid; }
      OrderDoesNotMatter(View().unsubscribes, user, prefs, doc);
      PermittedList(kinds, prefs, doc);
      ghost var before := View();
      r := Transact(prefs, global, user);
      if r == NoContent { CommittedUpdate(before, Patch(user, global, doc, broken)); }
    }

    // ------------------------------------------ DeliveryWorker.shouldDeliver

    /** isCritical: only "not found" counts as an answer; after any other error
        the zero kind is not critical. */
    method IsCritical(d: Delivery) returns (critical: bool)
      requires !broken
      modifies this`broken
      ensures critical == (!broken && Critical(View(), d))
      ensures critical <==> !broken && (d.client, d.kind) in kinds && kinds[(d.client, d.kind)]
    {
      var fails := Statement();
      critical := !fails && (d.client, d.kind) in kinds && kinds[(d.client, d.kind)];
    }

    /** shouldDeliver: a failing lookup never sends what the tables forbid. */
    method Decide(d: Delivery) returns (deliver: bool)
      requires Valid() && !broken
      modifies this`broken
      ensures deliver ==> ShouldDeliver(View(), d)
      ensures !broken ==> (deliver <==> ShouldDeliver(View(), d))
      ensures !broken && (d.client, d.kind) in kinds && kinds[(d.client, d.kind)] ==> deliver
      ensures deliver ==>
        || ((d.client, d.kind) in kinds && kinds[(d.client, d.kind)])
        || (d.user !in View().globals && Unsubscribe(d.user, d.client, d.kind) !in View().unsubscribes && '@' in d.email)
    {
      var critical := IsCritical(d);
      if critical { return true; }
      ghost var lost := broken;
      broken := false;
      var unsubscribed, ok := GetGlobal(d.user);
      if !ok || unsubscribed { broken := broken || lost; return false; }
      var found := Find(Unsubscribe(d.user, d.client, d.kind));
      broken := broken || lost;
      deliver := found.NoRow? && d.email != "" && '@' in d.email;
    }
  }
}
