/** Registering a client's notification kinds: what Register and Prune together
    leave in the `kinds` table. */
module Registrar {

  const DEFAULT_TEMPLATE := "default"

  /** models.Kind and models.Client without their primary key. */
  datatype Kind = Kind(
    id: string, client: string, description: string, critical: bool, template: string, createdAt: int, updatedAt: int)

  datatype Client = Client(id: string, description: string, template: string, createdAt: int)

  type Kinds = map<(string, string), Kind>

  type Clients = map<string, Client>

  function Key(k: Kind): (string, string) { (k.client, k.id) }

  // ---------------------------------------------------------------- specification

  /** KindsRepo.Create and Update, on what the table means. */
  function Created(k: Kind, now: int): Kind {
    k.(createdAt := now, updatedAt := now, template := if k.template == "" then DEFAULT_TEMPLATE else k.template)
  }

  function Updated(existing: Kind, k: Kind, now: int): Kind {
    k.(createdAt := existing.createdAt, updatedAt := now,
       template := if k.template == "" then existing.template else k.template)
  }

  function Upserted(s: Kinds, k: Kind, now: int): Kinds {
    s[Key(k) := if Key(k) in s then Updated(s[Key(k)], k, now) else Created(k, now)]
  }

  function ClientUpserted(s: Clients, c: Client, now: int): Clients {
    s[c.id :=
      if c.id in s then c.(createdAt := s[c.id].createdAt, template := if c.template == "" then s[c.id].template else c.template)
      else c.(createdAt := now, template := if c.template == "" then DEFAULT_TEMPLATE else c.template)]
  }

  /** Register's loop: entries without an ID are skipped. */
  function Registered(s: Kinds, kinds: seq<Kind>, times: seq<int>): Kinds
    requires |times| == |kinds|
  {
    if kinds == [] then s
    else
      var n := |kinds| - 1;
      var before := Registered(s, kinds[..n], times[..n]);
      if kinds[n].id == "" then before else Upserted(before, kinds[n], times[n])
  }

  /** Prune: the client keeps only the kinds whose ID is listed. */
  function Pruned(s: Kinds, client: string, ids: seq<string>): Kinds {
    map key | key in s && !(key.0 == client && key.1 !in ids) :: s[key]
  }

  function IDs(kinds: seq<Kind>): seq<string> {
    seq(|kinds|, i requires 0 <= i < |kinds| => kinds[i].id)
  }

  predicate Mentions(kinds: seq<Kind>, key: (string, string)) {
    exists i :: 0 <= i < |kinds| && Key(kinds[i]) == key
  }

  /** The last entry for a kind. */
  function LastFor(kinds: seq<Kind>, key: (string, string)): (k: Kind)
    requires Mentions(kinds, key)
  {
    var n := |kinds| - 1;
    if Key(kinds[n]) == key then kinds[n]
    else
      assert Mentions(kinds[..n], key) by {
        var i :| 0 <= i < |kinds| && Key(kinds[i]) == key;
        assert kinds[..n][i] == kinds[i];
      }
      LastFor(kinds[..n], key)
  }

  /** The last template asked for, or "". */
  function LastTemplate(kinds: seq<Kind>, key: (string, string)): string {
    if kinds == [] then ""
    else
      var n := |kinds| - 1;
      if Key(kinds[n]) == key && kinds[n].template != "" then kinds[n].template else LastTemplate(kinds[..n], key)
  }

  lemma MentionsSplit(kinds: seq<Kind>, key: (string, string))
    requires kinds != []
    ensures Mentions(kinds, key) <==> Mentions(kinds[..|kinds| - 1], key) || Key(kinds[|kinds| - 1]) == key
  {
    var n := |kinds| - 1;
    if Mentions(kinds[..n], key) {
      var i :| 0 <= i < n && Key(kinds[..n][i]) == key;
      assert Key(kinds[i]) == key;
    }
    if Mentions(kinds, key) && Key(kinds[n]) != key {
      var i :| 0 <= i < |kinds| && Key(kinds[i]) == key;
      assert kinds[..n][i] == kinds[i];
    }
  }

  /** The template of a kind that nobody asked to change. */
  function Fallback(s: Kinds, key: (string, string)): string {
    if key in s then s[key].template else DEFAULT_TEMPLATE
  }

  predicate Asked(kinds: seq<Kind>, key: (string, string)) {
    key.1 != "" && Mentions(kinds, key)
  }

  /** What registering leaves at one key. */
  predicate RegisteredKind(s: Kinds, kinds: seq<Kind>, key: (string, string), k: Kind)
    requires Mentions(kinds, key)
  {
    && Key(k) == key
    && k.description == LastFor(kinds, key).description
    && k.critical == LastFor(kinds, key).critical
    && k.template == (if LastTemplate(kinds, key) != "" then LastTemplate(kinds, key) else Fallback(s, key))
    && (key in s ==> k.createdAt == s[key].createdAt)
  }

  lemma NoTemplate(kinds: seq<Kind>, key: (string, string))
    requires !Mentions(kinds, key)
    ensures LastTemplate(kinds, key) == ""
  {
    if kinds != [] {
      MentionsSplit(kinds, key);
      NoTemplate(kinds[..|kinds| - 1], key);
    }
  }

  lemma {:induction false} RegisteredAt(s: Kinds, kinds: seq<Kind>, times: seq<int>, key: (string, string))
    requires |times| == |kinds|
    ensures
      var t := Registered(s, kinds, times);
      if Asked(kinds, key) then key in t && RegisteredKind(s, kinds, key, t[key])
      else (key in t <==> key in s) && (key in s ==> t[key] == s[key])
  {
    if kinds != [] {
      var n := |kinds| - 1;
      RegisteredAt(s, kinds[..n], times[..n], key);
      MentionsSplit(kinds, key);
      if !Mentions(kinds[..n], key) { NoTemplate(kinds[..n], key); }
    }
  }

  /** Register and then Prune, key by key: other clients keep what they had,
      except for kinds the list itself puts under them; the client keeps exactly
      the listed IDs that were written or were there before. */
  lemma {:induction false} RegisterThenPrune(s: Kinds, client: string, kinds: seq<Kind>, times: seq<int>, key: (string, string))
    requires |times| == |kinds|
    ensures
      var t := Pruned(Registered(s, kinds, times), client, IDs(kinds));
      && (key in t <==> (Asked(kinds, key) || key in s) && (key.0 == client ==> key.1 in IDs(kinds)))
      && (key in t && Asked(kinds, key) ==> RegisteredKind(s, kinds, key, t[key]))
      && (key in t && !Asked(kinds, key) ==> t[key] == s[key])
  {
    RegisteredAt(s, kinds, times, key);
  }

  predicate Own(client: string, kinds: seq<Kind>) {
    forall i :: 0 <= i < |kinds| ==> kinds[i].client == client && kinds[i].id != ""
  }

  /** With the client's own, named kinds: its kinds are exactly the requested ones. */
  lemma {:induction false} ExactlyTheRequested(s: Kinds, client: string, kinds: seq<Kind>, times: seq<int>, key: (string, string))
    requires |times| == |kinds| && Own(client, kinds)
    ensures
      var t := Pruned(Registered(s, kinds, times), client, IDs(kinds));
      if key.0 == client then
        (key in t <==> key.1 in IDs(kinds)) && (key in t ==> Mentions(kinds, key) && RegisteredKind(s, kinds, key, t[key]))
      else
        (key in t <==> key in s) && (key in s ==> t[key] == s[key])
  {
    RegisterThenPrune(s, client, kinds, times, key);
    if key.0 == client && key.1 in IDs(kinds) {
      var i :| 0 <= i < |kinds| && IDs(kinds)[i] == key.1;
      assert Key(kinds[i]) == key;
    }
  }

  /** An entry without an ID is not written, but it protects a stored kind whose
      ID is empty from being pruned; that is the only way the two lists differ. */
  lemma {:induction false} EmptyIDKept(s: Kinds, client: string, kinds: seq<Kind>, times: seq<int>)
    requires |times| == |kinds|
    ensures
      var t := Pruned(Registered(s, kinds, times), client, IDs(kinds));
      (client, "") in t <==> (client, "") in s && "" in IDs(kinds)
  {
    RegisterThenPrune(s, client, kinds, times, (client, ""));
  }

  predicate SameButTime(a: Kind, b: Kind) {
    a.(updatedAt := b.updatedAt) == b
  }

  lemma RegisteredTwice(s: Kinds, t: Kinds, kinds: seq<Kind>, key: (string, string), a: Kind, b: Kind)
    requires Mentions(kinds, key) && key in t && t[key] == a
    requires RegisteredKind(s, kinds, key, a) && RegisteredKind(t, kinds, key, b)
    ensures SameButTime(a, b)
  {}

  /** Repeating a registration changes nothing but the update times. */
  lemma {:induction false} RegisterIsIdempotent(
    s: Kinds, client: string, kinds: seq<Kind>, times: seq<int>, again: seq<int>, key: (string, string))
    requires |times| == |again| == |kinds|
    ensures
      var t := Pruned(Registered(s, kinds, times), client, IDs(kinds));
      var u := Pruned(Registered(t, kinds, again), client, IDs(kinds));
      (key in u <==> key in t) && (key in t ==> SameButTime(t[key], u[key]))
  {
    var t := Pruned(Registered(s, kinds, times), client, IDs(kinds));
    RegisterThenPrune(s, client, kinds, times, key);
    RegisterThenPrune(t, client, kinds, again, key);
    if Asked(kinds, key) {
      MentionedIsListed(kinds, key);
      var u := Pruned(Registered(t, kinds, again), client, IDs(kinds));
      RegisteredTwice(s, t, kinds, key, t[key], u[key]);
    }
  }

  lemma MentionedIsListed(kinds: seq<Kind>, key: (string, string))
    requires Mentions(kinds, key)
    ensures key.1 in IDs(kinds)
  {
    var i :| 0 <= i < |kinds| && Key(kinds[i]) == key;
    assert IDs(kinds)[i] == key.1;
  }
}
