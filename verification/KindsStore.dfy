/** KindsRepo, ClientsRepo and Registrar on tables keyed by an auto-incremented
    primary key, with a unique key besides, inside one transaction. */
module KindsStore {
  import opened Registrar

  // ---------------------------------------------------------------- the kinds table

  type Index = map<(string, string), int>

  /** `index` is the unique key (id, client_id): each row is under its own key, each key has a row. */
  ghost predicate TableOK(rows: map<int, Kind>, index: Index, next: int) {
    && (forall p :: p in rows ==> 1 <= p < next && Key(rows[p]) in index && index[Key(rows[p])] == p)
    && (forall k :: k in index ==> index[k] in rows && Key(rows[index[k]]) == k)
  }

  /** The table by its unique key. */
  ghost function ByKey(rows: map<int, Kind>, index: Index): Kinds
    requires forall k :: k in index ==> index[k] in rows
  {
    map k | k in index :: rows[index[k]]
  }

  /** Insert under a fresh primary key, or rewrite a row under its own unique key. */
  lemma Stored(rows: map<int, Kind>, index: Index, next: int, p: int, row: Kind)
    requires TableOK(rows, index, next) && 1 <= p <= next
    requires if p in rows then Key(rows[p]) == Key(row) else Key(row) !in index
    ensures TableOK(rows[p := row], index[Key(row) := p], if p == next then next + 1 else next)
    ensures ByKey(rows[p := row], index[Key(row) := p]) == ByKey(rows, index)[Key(row) := row]
  {}

  /** The unique key without the rows `gone`. */
  ghost function Without(index: Index, gone: set<int>): Index {
    map k | k in index && index[k] !in gone :: index[k]
  }

  ghost function Members(list: seq<int>): set<int> { set p | p in list }

  /** One row more is gone. */
  lemma MembersMore(rows: map<int, Kind>, index: Index, list: seq<int>, i: nat)
    requires i < |list|
    ensures rows - Members(list[..i]) - {list[i]} == rows - Members(list[..i + 1])
    ensures Without(Without(index, Members(list[..i])), {list[i]}) == Without(index, Members(list[..i + 1]))
  {
    assert Members(list[..i + 1]) == Members(list[..i]) + {list[i]} by { assert list[..i + 1] == list[..i] + [list[i]]; }
  }

  lemma OneRemoved(rows: map<int, Kind>, index: Index, next: int, p: int)
    requires TableOK(rows, index, next)
    ensures TableOK(rows - {p}, Without(index, {p}), next)
  {}

  lemma Removed(rows: map<int, Kind>, index: Index, next: int, gone: set<int>, client: string, ids: seq<string>)
    requires TableOK(rows, index, next)
    requires forall p :: p in rows ==> (p in gone <==> rows[p].client == client && rows[p].id !in ids)
    ensures
      var left := Without(index, gone);
      TableOK(rows - gone, left, next) && ByKey(rows - gone, left) == Pruned(ByKey(rows, index), client, ids)
  {
    var left := Without(index, gone);
    forall k ensures k in left <==> k in Pruned(ByKey(rows, index), client, ids) {
      if k in index {
        var p := index[k];
        assert Key(rows[p]) == k;
      }
    }
    forall k | k in left ensures ByKey(rows - gone, left)[k] == ByKey(rows, index)[k] {
      assert (rows - gone)[left[k]] == rows[index[k]];
    }
  }

  // ---------------------------------------------------------------- the clients table

  ghost predicate ClientsOK(rows: map<int, Client>, index: map<string, int>, next: int) {
    && (forall p :: p in rows ==> 1 <= p < next && rows[p].id in index && index[rows[p].id] == p)
    && (forall k :: k in index ==> index[k] in rows && rows[index[k]].id == k)
  }

  ghost function ByID(rows: map<int, Client>, index: map<string, int>): Clients
    requires forall k :: k in index ==> index[k] in rows
  {
    map k | k in index :: rows[index[k]]
  }

  lemma ClientStored(rows: map<int, Client>, index: map<string, int>, next: int, p: int, row: Client)
    requires ClientsOK(rows, index, next) && 1 <= p <= next
    requires if p in rows then rows[p].id == row.id else row.id !in index
    ensures ClientsOK(rows[p := row], index[row.id := p], if p == next then next + 1 else next)
    ensures ByID(rows[p := row], index[row.id := p]) == ByID(rows, index)[row.id := row]
  {}

  // ---------------------------------------------------------------- repositories

  /** The primary key found, zero (the zero struct) if there is none. */
  datatype Lookup = Row(primary: int) | NoRow | Broken

  class Registry {
    var clients: map<int, Client>
    var nextClient: int
    var kinds: map<int, Kind>
    var nextKind: int
    var now: int
    ghost var index: Index
    ghost var clientIndex: map<string, int>
    ghost var broken: bool

    ghost predicate Valid()
      reads this
    {
      && nextKind >= 1 && TableOK(kinds, index, nextKind)
      && nextClient >= 1 && ClientsOK(clients, clientIndex, nextClient)
    }

    ghost function KindsView(): Kinds
      requires Valid()
      reads this
    {
      ByKey(kinds, index)
    }

    ghost function ClientsView(): Clients
      requires Valid()
      reads this
    {
      ByID(clients, clientIndex)
    }

    constructor ()
      ensures Valid() && KindsView() == map[] && ClientsView() == map[]
    {
      clients, kinds, index, clientIndex := map[], map[], map[], map[];
      nextClient, nextKind, now, broken := 1, 1, 0, false;
    }

    /** Any statement may fail on the way to the server. */
    method Statement() returns (fails: bool)
      requires !broken
      modifies this`broken
      ensures broken == fails
    {
      fails := *;
      broken := fails;
    }

    /** time.Now() */
    method Clock() returns (t: int)
      modifies this`now
      ensures t == now >= old(now)
    {
      t :| t >= now;
      now := t;
    }

    // ------------------------------------------ KindsRepo

    method FindKind(id: string, client: string) returns (r: Lookup)
      requires Valid() && !broken
      modifies this`broken
      ensures r.Broken? == broken
      ensures r.Row? ==> r.primary in kinds && Key(kinds[r.primary]) == (client, id)
      ensures r.Row? ==> (client, id) in KindsView() && kinds[r.primary] == KindsView()[(client, id)]
      ensures r.NoRow? ==> (client, id) !in KindsView()
    {
      ghost var q := if (client, id) in index then index[(client, id)] else 0;
      assert (client, id) in index ==> q in kinds && Key(kinds[q]) == (client, id);
      var fails := Statement();
      if fails {
        r := Broken;
      } else if p :| p in kinds && Key(kinds[p]) == (client, id) {
        r := Row(p);
      } else {
        r := NoRow;
      }
    }

    method InsertKind(row: Kind)
      requires Valid() && Key(row) !in KindsView()
      modifies this`kinds, this`index, this`nextKind
      ensures Valid() && KindsView() == old(KindsView())[Key(row) := row]
    {
      Stored(kinds, index, nextKind, nextKind, row);
      index := index[Key(row) := nextKind];
      kinds, nextKind := kinds[nextKind := row], nextKind + 1;
    }

    /** Create: the unique key rejects a kind that is already there. */
    method CreateKind(kind: Kind) returns (ok: bool)
      requires Valid() && !broken
      modifies this`kinds, this`index, this`nextKind, this`now, this`broken
      ensures Valid() && ok == (!broken && Key(kind) !in old(KindsView()))
      ensures KindsView() == if ok then Upserted(old(KindsView()), kind, now) else old(KindsView())
      ensures ok ==>
        var row := kind.(createdAt := now, updatedAt := now, template := if kind.template == "" then "default" else kind.template);
        KindsView()[(kind.client, kind.id)] == row
    {
      ghost var q := if Key(kind) in index then index[Key(kind)] else 0;
      assert Key(kind) in index ==> q in kinds && Key(kinds[q]) == Key(kind);
      var t := Clock();
      var row := kind.(createdAt := t, updatedAt := t);
      if row.template == "" { row := row.(template := DEFAULT_TEMPLATE); }
      var fails := Statement();
      if fails || exists p :: p in kinds && Key(kinds[p]) == Key(kind) { return false; }
      InsertKind(row);
      ok := true;
    }

    /** Update reads the stored kind, keeps its creation time and, unless a
        template is given, its template, and writes by primary key. */
    method UpdateKind(kind: Kind) returns (ok: bool)
      requires Valid() && !broken
      modifies this`kinds, this`index, this`now, this`broken
      ensures Valid() && ok == (!broken && Key(kind) in old(KindsView()))
      ensures ok ==> KindsView() == Upserted(old(KindsView()), kind, now)
      ensures ok ==>
        var was := old(KindsView())[(kind.client, kind.id)];
        KindsView()[(kind.client, kind.id)] ==
          kind.(createdAt := was.createdAt, updatedAt := now, template := if kind.template == "" then was.template else kind.template)
    {
      var found := FindKind(kind.id, kind.client);
      if !found.Row? { return false; }
      var t := Clock();
      var row := kind.(createdAt := kinds[found.primary].createdAt, updatedAt := t);
      if row.template == "" { row := row.(template := kinds[found.primary].template); }
      var fails := Statement();
      if fails { return false; }
      Stored(kinds, index, nextKind, found.primary, row);
      index := index[Key(row) := found.primary];
      kinds := kinds[found.primary := row];
      var again := FindKind(kind.id, kind.client);
      ok := again.Row?;
    }

    method UpsertKind(kind: Kind) returns (ok: bool)
      requires Valid() && !broken
      modifies this`kinds, this`index, this`nextKind, this`now, this`broken
      ensures Valid() && ok == !broken
      ensures ok ==> KindsView() == Upserted(old(KindsView()), kind, now)
    {
      var found := FindKind(kind.id, kind.client);
      match found
      case NoRow => ok := CreateKind(kind);
      case Row(_) => ok := UpdateKind(kind);
      case Broken => ok := false;
    }

    /** IDSet.Contains */
    static method Contains(ids: seq<string>, id: string) returns (found: bool)
      ensures found <==> id in ids
    {
      for i := 0 to |ids|
        invariant id !in ids[..i]
      {
        if ids[i] == id { return true; }
      }
      found := false;
    }

    /** Trim's loop: the client's kinds that are not listed. */
    method Unlisted(client: string, ids: seq<string>) returns (list: seq<int>)
      requires Valid()
      ensures forall p :: p in kinds ==> (p in list <==> kinds[p].client == client && kinds[p].id !in ids)
    {
      list := [];
      for p := 1 to nextKind
        invariant forall q :: q in list ==> q in kinds && q < p && kinds[q].client == client && kinds[q].id !in ids
        invariant forall q :: q in kinds && q < p && kinds[q].client == client && kinds[q].id !in ids ==> q in list
      {
        if p in kinds && kinds[p].client == client {
          var listed := Contains(ids, kinds[p].id);
          if !listed { list := list + [p]; }
        }
      }
    }

    /** One row is deleted by its primary key. */
    method DeleteKind(p: int) returns (ok: bool)
      requires Valid() && !broken
      modifies this`kinds, this`index, this`broken
      ensures Valid() && ok == !broken
      ensures ok ==> kinds == old(kinds) - {p} && index == Without(old(index), {p})
    {
      var fails := Statement();
      if fails { return false; }
      OneRemoved(kinds, index, nextKind, p);
      index := Without(index, {p});
      kinds := kinds - {p};
      ok := true;
    }

    /** gorp's delete of a list: one statement for each row. */
    method DeleteKinds(list: seq<int>) returns (ok: bool)
      requires Valid() && !broken
      modifies this`kinds, this`index, this`broken
      ensures Valid() && ok == !broken
      ensures ok ==> kinds == old(kinds) - Members(list) && index == Without(old(index), Members(list))
    {
      ghost var start, startIndex := kinds, index;
      assert Without(index, {}) == index;
      for i := 0 to |list|
        invariant Valid() && !broken
        invariant kinds == start - Members(list[..i]) && index == Without(startIndex, Members(list[..i]))
      {
        ok := DeleteKind(list[i]);
        if !ok { return; }
        MembersMore(start, startIndex, list, i);
      }
      assert list[..|list|] == list;
      ok := true;
    }

    /** Trim: what is not listed is deleted by primary key. */
    method Trim(client: string, ids: seq<string>) returns (ok: bool)
      requires Valid() && !broken
      modifies this`kinds, this`index, this`broken
      ensures Valid() && ok == !broken
      ensures ok ==> KindsView() == Pruned(old(KindsView()), client, ids)
    {
      var fails := Statement();
      if fails { return false; }
      var list := Unlisted(client, ids);
      Removed(kinds, index, nextKind, Members(list), client, ids);
      ok := DeleteKinds(list);
    }

    // ------------------------------------------ ClientsRepo

    method FindClient(id: string) returns (r: Lookup)
      requires Valid() && !broken
      modifies this`broken
      ensures r.Broken? == broken
      ensures r.Row? ==> r.primary in clients && clients[r.primary].id == id
      ensures r.Row? ==> id in ClientsView() && clients[r.primary] == ClientsView()[id]
      ensures r.NoRow? ==> id !in ClientsView()
    {
      ghost var q := if id in clientIndex then clientIndex[id] else 0;
      assert id in clientIndex ==> q in clients && clients[q].id == id;
      var fails := Statement();
      if fails {
        r := Broken;
      } else if p :| p in clients && clients[p].id == id {
        r := Row(p);
      } else {
        r := NoRow;
      }
    }

    /** Create: the unique key rejects a client that is already there. */
    method InsertClient(row: Client)
      requires Valid() && row.id !in ClientsView()
      modifies this`clients, this`clientIndex, this`nextClient
      ensures Valid() && ClientsView() == old(ClientsView())[row.id := row]
    {
      ClientStored(clients, clientIndex, nextClient, nextClient, row);
      clientIndex := clientIndex[row.id := nextClient];
      clients, nextClient := clients[nextClient := row], nextClient + 1;
    }

    method CreateClient(client: Client) returns (ok: bool)
      requires Valid() && !broken
      modifies this`clients, this`clientIndex, this`nextClient, this`now, this`broken
      ensures Valid() && ok == (!broken && client.id !in old(ClientsView()))
      ensures ClientsView() == if ok then ClientUpserted(old(ClientsView()), client, now) else old(ClientsView())
    {
      ghost var q := if client.id in clientIndex then clientIndex[client.id] else 0;
      assert client.id in clientIndex ==> q in clients && clients[q].id == client.id;
      var t := Clock();
      var row := client.(createdAt := t);
      if row.template == "" { row := row.(template := DEFAULT_TEMPLATE); }
      var fails := Statement();
      if fails || exists p :: p in clients && clients[p].id == client.id { return false; }
      InsertClient(row);
      ok := true;
    }

    /** Update: writes by the primary key that the struct carries, keeping the
        stored template unless one is given, and reads the client back. */
    method UpdateClient(client: Client, primary: int) returns (ok: bool)
      requires Valid() && !broken && primary in clients && clients[primary].id == client.id
      modifies this`clients, this`clientIndex, this`broken
      ensures Valid() && ok == !broken
      ensures ok ==> ClientsView() == old(ClientsView())[client.id :=
        if client.template == "" then client.(template := old(ClientsView())[client.id].template) else client]
    {
      var row := client;
      assert clientIndex[client.id] == primary;
      if row.template == "" {
        var found := FindClient(client.id);
        if !found.Row? { return false; }
        row := row.(template := clients[found.primary].template);
      }
      var fails := Statement();
      if fails { return false; }
      ClientStored(clients, clientIndex, nextClient, primary, row);
      clientIndex := clientIndex[row.id := primary];
      clients := clients[primary := row];
      var again := FindClient(client.id);
      ok := again.Row?;
    }

    /** Upsert: the creation time and, unless a template is given, the template are kept. */
    method UpsertClient(client: Client) returns (ok: bool)
      requires Valid() && !broken
      modifies this`clients, this`clientIndex, this`nextClient, this`now, this`broken
      ensures Valid() && ok == !broken
      ensures ok ==> ClientsView() == ClientUpserted(old(ClientsView()), client, now)
      ensures ok && client.id !in old(ClientsView()) ==>
        ClientsView()[client.id] == client.(createdAt := now, template := if client.template == "" then "default" else client.template)
      ensures ok && client.id in old(ClientsView()) ==>
        var was := old(ClientsView())[client.id];
        ClientsView()[client.id] == client.(createdAt := was.createdAt, template := if client.template == "" then was.template else client.template)
      ensures ok ==> forall id :: id != client.id ==>
        (id in ClientsView() <==> id in old(ClientsView())) && (id in ClientsView() ==> ClientsView()[id] == old(ClientsView())[id])
    {
      var found := FindClient(client.id);
      match found
      case NoRow => ok := CreateClient(client);
      case Row(p) => ok := UpdateClient(client.(createdAt := clients[p].createdAt), p);
      case Broken => ok := false;
    }

    // ------------------------------------------ Registrar

    /** Register: `at` and `times` are the moments at which the client and the kinds were stored. */
    method Register(client: Client, requested: seq<Kind>) returns (ok: bool, ghost at: int, ghost times: seq<int>)
      requires Valid() && !broken
      modifies this`clients, this`clientIndex, this`nextClient, this`kinds, this`index, this`nextKind, this`now, this`broken
      ensures Valid() && ok == !broken
      ensures ok ==> ClientsView() == ClientUpserted(old(ClientsView()), client, at)
      ensures ok ==> |times| == |requested| && KindsView() == Registered(old(KindsView()), requested, times)
    {
      at, times := 0, [];
      ok := UpsertClient(client);
      if !ok { return; }
      at := now;
      ok, times := RegisterKinds(requested);
    }

    /** The loop of Register. */
    method RegisterKinds(requested: seq<Kind>) returns (ok: bool, ghost times: seq<int>)
      requires Valid() && !broken
      modifies this`kinds, this`index, this`nextKind, this`now, this`broken
      ensures Valid() && ok == !broken
      ensures ok ==> |times| == |requested| && KindsView() == Registered(old(KindsView()), requested, times)
    {
      times := [];
      for i := 0 to |requested|
        invariant Valid() && !broken && |times| == i
        invariant KindsView() == Registered(old(KindsView()), requested[..i], times)
      {
        if requested[i].id != "" {
          ok := UpsertKind(requested[i]);
          if !ok { return; }
        }
        assert requested[..i + 1][..i] == requested[..i];
        times := times + [now];
        assert times[..i] == times[..|times| - 1];
      }
      assert requested[..|requested|] == requested;
      ok := true;
    }

    /** Prune */
    method Prune(client: Client, requested: seq<Kind>) returns (ok: bool)
      requires Valid() && !broken
      modifies this`kinds, this`index, this`broken
      ensures Valid() && ok == !broken
      ensures ok ==> KindsView() == Pruned(old(KindsView()), client.id, IDs(requested))
    {
      var ids: seq<string> := [];
      for i := 0 to |requested|
        invariant ids == IDs(requested[..i])
      {
        ids := ids + [requested[i].id];
      }
      assert requested[..|requested|] == requested;
      ok := Trim(client.id, ids);
    }

    /** What Register and, if kinds were sent, Prune leave in the kinds table. */
    static ghost function Result(before: Kinds, client: string, requested: seq<Kind>, times: seq<int>): Kinds
      requires |times| == |requested|
    {
      if requested == [] then before else Pruned(Registered(before, requested, times), client, IDs(requested))
    }

    /** Every named kind that was sent is there, and the client has no kind whose ID was not sent. */
    static ghost predicate OnlyRequested(kinds: Kinds, client: string, requested: seq<Kind>) {
      && (forall i :: 0 <= i < |requested| && requested[i].id != "" ==> (requested[i].client, requested[i].id) in kinds)
      && (forall key :: key in kinds && key.0 == client ==> exists i :: 0 <= i < |requested| && requested[i].id == key.1)
    }

    static lemma {:induction false} ResultIsRequested(before: Kinds, client: string, requested: seq<Kind>, times: seq<int>)
      requires |times| == |requested| && requested != []
      ensures OnlyRequested(Result(before, client, requested, times), client, requested)
    {
      var after := Result(before, client, requested, times);
      forall i | 0 <= i < |requested| && requested[i].id != ""
        ensures (requested[i].client, requested[i].id) in after
      {
        var key := Key(requested[i]);
        RegisterThenPrune(before, client, requested, times, key);
        assert IDs(requested)[i] == key.1;
      }
      forall key | key in after && key.0 == client
        ensures exists i :: 0 <= i < |requested| && requested[i].id == key.1
      {
        RegisterThenPrune(before, client, requested, times, key);
        var i :| 0 <= i < |requested| && IDs(requested)[i] == key.1;
        assert requested[i].id == key.1;
      }
    }

    method RegisterAndPrune(client: Client, requested: seq<Kind>) returns (ok: bool, ghost at: int, ghost times: seq<int>)
      requires Valid() && !broken
      modifies this`clients, this`clientIndex, this`nextClient, this`kinds, this`index, this`nextKind, this`now, this`broken
      ensures Valid() && ok == !broken
      ensures ok ==> ClientsView() == ClientUpserted(old(ClientsView()), client, at)
      ensures ok ==> |times| == |requested| && KindsView() == Result(old(KindsView()), client.id, requested, times)
    {
      ok, at, times := Register(client, requested);
      if ok && |requested| > 0 { ok := Prune(client, requested); }
    }

    /** The registration handler: prune only if kinds were sent, and keep nothing
        of a registration that fails. */
    method RegisterNotifications(client: Client, requested: seq<Kind>) returns (ok: bool, ghost at: int, ghost times: seq<int>)
      requires Valid()
      modifies this
      ensures Valid() && ok == !broken
      ensures !ok ==> KindsView() == old(KindsView()) && ClientsView() == old(ClientsView())
      ensures ok ==> ClientsView() == ClientUpserted(old(ClientsView()), client, at)
      ensures ok ==> |times| == |requested| && KindsView() == Result(old(KindsView()), client.id, requested, times)
      ensures ok && requested == [] ==> KindsView() == old(KindsView())
      ensures ok && requested != [] ==> OnlyRequested(KindsView(), client.id, requested)
    {
      broken := false;
      var begun := (clients, nextClient, kinds, nextKind);
      ghost var indexed := (clientIndex, index);
      ok, at, times := RegisterAndPrune(client, requested);
      if ok {
        if requested != [] { ResultIsRequested(old(KindsView()), client.id, requested, times); }
        var fails := Statement();
        ok := !fails;
      }
      if !ok {
        clients, nextClient, kinds, nextKind := begun.0, begun.1, begun.2, begun.3;
        clientIndex, index := indexed.0, indexed.1;
      }
    }
  }
}
