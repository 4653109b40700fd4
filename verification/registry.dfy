/** The object registry of `wayland/server.c`: a hash map from ids to objects and, beside it, one bitmap
    for the client's ids and one for the ids the server allocates. */
module Registry {
  import opened ChainedMap
  import opened Bitmaps

  type Id = nat

  const SERVER_BASE: Id := 0xFF000000
  const NEW_SERVER_ID: Id := 0
  const POOL := 4096
  const BUCKETS := 1024

  class Connection {
    const objects: Map
    const clientPool: Bitmap
    const serverPool: Bitmap

    ghost predicate Valid()
      reads this, objects, objects.pairs, objects.region, clientPool, serverPool
    {
      && objects.Valid() && objects.NonNull() && clientPool.Valid() && serverPool.Valid()
      && clientPool.size == POOL && serverPool.size == POOL && clientPool.bytes != serverPool.bytes
      && (var store: set<object> := {objects, objects.pairs} + objects.region;
          clientPool.bytes !in store && serverPool.bytes !in store)
    }

    ghost predicate Live(id: Id)
      requires objects.pairs.Length > 0 && |objects.buckets| == objects.pairs.Length
      reads this, objects
    {
      objects.Values(id) != []
    }

    ghost function LiveIds(): (r: iset<Id>)
      requires objects.pairs.Length > 0 && |objects.buckets| == objects.pairs.Length
      reads this, objects
      ensures forall id :: id in r <==> Live(id)
    {
      iset id: Id | Live(id)
    }

    /** The map is a finite map, and a bit is set exactly when its id is live. */
    ghost predicate Consistent()
      requires Valid()
      reads this, objects, objects.pairs, objects.region, clientPool, serverPool, clientPool.bytes, serverPool.bytes
    {
      && (forall id :: |objects.Values(id)| <= 1)
      && Matches(LiveIds(), clientPool.Used(), serverPool.Used())
    }

    constructor ()
      ensures Valid() && Consistent() && fresh(objects) && fresh(objects.pairs) && fresh(objects.region)
      ensures fresh(clientPool) && fresh(clientPool.bytes) && fresh(serverPool) && fresh(serverPool.bytes)
      ensures forall id :: !Live(id)
    {
      objects := new Map(BUCKETS);
      clientPool := new Bitmap(POOL);
      serverPool := new Bitmap(POOL);
    }

    /** The bits that c_wl_object_add sets, and the id it settles on. */
    method Reserve(id: Id) returns (newId: Id)
      requires Valid() && id != POOL + 1
      modifies clientPool.bytes, serverPool.bytes
      ensures Valid()
      ensures clientPool.Used() == ClientAfter(old(clientPool.Used()), id)
      ensures serverPool.Used() == ServerAfter(old(serverPool.Used()), id, newId)
      ensures Allocated(old(serverPool.Used()), id, newId)
    {
      newId := id;
      if 0 < id < SERVER_BASE {
        var _ := clientPool.Set(id - 1);
      } else if id == NEW_SERVER_ID {
        var free := serverPool.GetFree();
        var _ := serverPool.Set(free);
        newId := free + SERVER_BASE;
      } else {
        var _ := serverPool.Set(id - 1);
      }
    }

    /** c_wl_object_add; `copy` is the address of the copy that the map stores. */
    method Add(id: Id, copy: Value) returns (r: Value, newId: Id)
      requires Valid() && Consistent() && copy != NULL && id != POOL + 1
      modifies objects, objects.pairs, objects.region, clientPool.bytes, serverPool.bytes
      ensures Valid() && fresh(objects.region - old(objects.region))
      ensures r == if old(Live(id)) then NULL else copy
      ensures r == NULL ==> Consistent() && forall k :: objects.Values(k) == old(objects.Values(k))
      ensures r != NULL ==>
        && objects.Values(newId) == [copy] + old(objects.Values(newId))
        && (forall k :: k != newId ==> objects.Values(k) == old(objects.Values(k)))
        && Allocated(old(serverPool.Used()), id, newId)
        && (Consistent() <==> Sound(old(serverPool.Used()), id))
        && (Sound(old(serverPool.Used()), id) ==> !old(Live(newId)))
    {
      hide Matches, Sound, Allocated, ClientAfter, ServerAfter;
      objects.NoneNull(id);
      var present := objects.Get(id);
      if present != NULL { return NULL, id; }
      ghost var live, cu, su := LiveIds(), clientPool.Used(), serverPool.Used();
      newId := Reserve(id);
      r := objects.Set(newId, copy);
      AddedMatches(live, cu, su, id, newId);
      assert LiveIds() == live + iset{newId};
    }

    /** c_wl_object_del, without the reference the object's data loses. */
    method Del(id: Id) returns (status: int)
      requires Valid() && Consistent() && id != POOL + 1 && id != SERVER_BASE + POOL
      modifies objects, objects.pairs, objects.region, clientPool.bytes, serverPool.bytes
      ensures Valid() && Consistent() && fresh(objects.region - old(objects.region))
      ensures status == if old(Live(id)) then 0 else 1
      ensures !Live(id) && forall k :: k != id ==> objects.Values(k) == old(objects.Values(k))
    {
      hide Matches;
      objects.NoneNull(id);
      var o := objects.Get(id);
      if o == NULL { return 1; }
      ghost var live, cu, su := LiveIds(), clientPool.Used(), serverPool.Used();
      RemovedMatches(live, cu, su, id);
      objects.Remove(id);
      assert LiveIds() == live - iset{id};
      Release(id);
      return 0;
    }

    /** The bit that c_wl_object_del clears. */
    method Release(id: Id)
      requires Valid() && 0 < id && id != POOL + 1 && id != SERVER_BASE + POOL
      modifies clientPool.bytes, serverPool.bytes
      ensures Valid()
      ensures clientPool.Used() ==
        (if id < SERVER_BASE then old(clientPool.Used()) - {id - 1} else old(clientPool.Used()))
      ensures serverPool.Used() ==
        (if id >= SERVER_BASE then old(serverPool.Used()) - {id - SERVER_BASE} else old(serverPool.Used()))
    {
      if id < SERVER_BASE {
        var _ := clientPool.Unset(id - 1);
      } else {
        var _ := serverPool.Unset(id - SERVER_BASE);
      }
    }
  }

  // ---------------------------------------------------------------- ids and bits

  ghost predicate Matches(live: iset<Id>, client: set<nat>, server: set<nat>) {
    && NEW_SERVER_ID !in live
    && (forall n: nat :: n in client <==> n < POOL && n + 1 in live)
    && (forall n: nat :: n in server <==> n < POOL && SERVER_BASE + n in live)
  }

  function ClientAfter(client: set<nat>, id: Id): set<nat> {
    if 0 < id < SERVER_BASE && id - 1 < POOL then client + {id - 1} else client
  }

  function ServerAfter(server: set<nat>, id: Id, newId: Id): set<nat> {
    if id == NEW_SERVER_ID && newId >= SERVER_BASE then server + {newId - SERVER_BASE} else server
  }

  predicate Full(server: set<nat>) { forall n :: 0 <= n < POOL ==> n in server }

  /** Which id an object gets: the one asked for, or the least one free, or the first when none is. */
  predicate Allocated(server: set<nat>, id: Id, newId: Id) {
    if id != NEW_SERVER_ID then newId == id
    else
      && SERVER_BASE <= newId < SERVER_BASE + POOL
      && (if Full(server) then newId == SERVER_BASE
          else newId - SERVER_BASE !in server && forall n :: 0 <= n < newId - SERVER_BASE ==> n in server)
  }

  /** Does adding under this id keep bits and live ids in step? A server id asked for with the pool full
      repeats a live one, and an explicit id from the pool's range never gets its bit. */
  predicate Sound(server: set<nat>, id: Id) {
    if id == NEW_SERVER_ID then !Full(server) else id < SERVER_BASE || id >= SERVER_BASE + POOL
  }

  lemma AddedMatches(live: iset<Id>, client: set<nat>, server: set<nat>, id: Id, newId: Id)
    requires Matches(live, client, server) && id !in live && id != POOL + 1 && Allocated(server, id, newId)
    ensures newId !in live && Matches(live + iset{newId}, ClientAfter(client, id), ServerAfter(server, id, newId)) <==>
      Sound(server, id)
    ensures Sound(server, id) ==> newId !in live
  {
    if id == NEW_SERVER_ID {
      var n := newId - SERVER_BASE;
      assert newId == SERVER_BASE + n;
    } else if !Sound(server, id) {
      var n := id - SERVER_BASE;
      assert n !in server && SERVER_BASE + n == id;
    }
  }

  lemma RemovedMatches(live: iset<Id>, client: set<nat>, server: set<nat>, id: Id)
    requires Matches(live, client, server) && id in live
    ensures id > 0
    ensures id < SERVER_BASE ==> Matches(live - iset{id}, client - {id - 1}, server)
    ensures id >= SERVER_BASE ==> Matches(live - iset{id}, client, server - {id - SERVER_BASE})
  {
  }

  // ---------------------------------------------------------------- runs

  /** An object is added, under an id of the client's or under one the server allocates, or deleted. */
  datatype Change = AddObject(id: Id, copy: Value) | DelObject(id: Id)

  /** The changes after which the pools still tell which ids are live. */
  predicate Takeable(server: set<nat>, t: Change) {
    match t
    case AddObject(id, copy) => copy != NULL && id != POOL + 1 && Sound(server, id)
    case DelObject(id) => id != POOL + 1 && id != SERVER_BASE + POOL
  }

  /** What a change does to the live ids: an id is added only while it is not live, and the server
      allocates the least of its ids that is not. */
  ghost predicate Changes(live: iset<Id>, t: Change, live': iset<Id>) {
    match t
    case AddObject(id, _) =>
      if id in live then live' == live
      else exists newId :: newId !in live && live' == live + iset{newId} && Chosen(live, id, newId)
    case DelObject(id) => live' == live - iset{id}
  }

  ghost predicate Chosen(live: iset<Id>, id: Id, newId: Id) {
    if id != NEW_SERVER_ID then newId == id
    else SERVER_BASE <= newId < SERVER_BASE + POOL && forall i :: SERVER_BASE <= i < newId ==> i in live
  }

  ghost predicate History(changes: seq<Change>, lives: seq<iset<Id>>) {
    && 1 <= |lives| <= |changes| + 1 && lives[0] == iset{DISPLAY}
    && forall k :: 0 <= k < |lives| - 1 ==> Changes(lives[k], changes[k], lives[k + 1])
  }

  const DISPLAY: Id := 1

  lemma AllocatedChosen(live: iset<Id>, client: set<nat>, server: set<nat>, id: Id, newId: Id)
    requires Matches(live, client, server) && Allocated(server, id, newId) && Sound(server, id)
    ensures Chosen(live, id, newId)
  {
    if id == NEW_SERVER_ID {
      forall i | SERVER_BASE <= i < newId ensures i in live { assert i - SERVER_BASE in server; }
    }
  }

  lemma Extended(changes: seq<Change>, lives: seq<iset<Id>>, live': iset<Id>)
    requires History(changes, lives) && |lives| <= |changes|
    requires Changes(lives[|lives| - 1], changes[|lives| - 1], live')
    ensures History(changes, lives + [live'])
  {
    hide Changes;
  }

  /** A connection from its start, with `wl_display`, through any changes: the pools and the live ids stay
      in step, and no id is ever given to two live objects. `lives` are the live ids at every point. */
  method Run(changes: seq<Change>, display: Value) returns (c: Connection, taken: nat, ghost lives: seq<iset<Id>>)
    requires display != NULL
    ensures c.Valid() && c.Consistent() && taken <= |changes|
    ensures taken < |changes| ==> !Takeable(c.serverPool.Used(), changes[taken])
    ensures History(changes, lives) && |lives| == taken + 1 && lives[taken] == c.LiveIds()
  {
    hide Matches, Changes, Chosen;
    c := new Connection();
    ghost var none := c.LiveIds();
    assert none == iset{};
    var _, first := c.Add(DISPLAY, display);
    assert first == DISPLAY;
    assert c.LiveIds() == none + iset{DISPLAY};
    hide Allocated;
    lives, taken := [c.LiveIds()], 0;
    while taken < |changes| && Takeable(c.serverPool.Used(), changes[taken])
      invariant taken <= |changes| && c.Valid() && c.Consistent()
      invariant fresh(c.objects) && fresh(c.objects.pairs) && fresh(c.objects.region)
      invariant fresh(c.clientPool.bytes) && fresh(c.serverPool.bytes)
      invariant History(changes, lives) && |lives| == taken + 1 && lives[taken] == c.LiveIds()
    {
      Apply(c, changes[taken]);
      Extended(changes, lives, c.LiveIds());
      lives := lives + [c.LiveIds()];
      taken := taken + 1;
    }
  }

  method Apply(c: Connection, t: Change)
    requires c.Valid() && c.Consistent() && Takeable(c.serverPool.Used(), t)
    modifies c.objects, c.objects.pairs, c.objects.region, c.clientPool.bytes, c.serverPool.bytes
    ensures c.Valid() && c.Consistent() && fresh(c.objects.region - old(c.objects.region))
    ensures Changes(old(c.LiveIds()), t, c.LiveIds())
  {
    hide Matches, Allocated, Chosen;
    ghost var live := c.LiveIds();
    match t {
      case AddObject(id, copy) =>
        ghost var client, server := c.clientPool.Used(), c.serverPool.Used();
        var r, newId := c.Add(id, copy);
        if r == NULL {
          assert c.LiveIds() == live;
        } else {
          AllocatedChosen(live, client, server, id, newId);
          assert c.LiveIds() == live + iset{newId};
        }
      case DelObject(id) =>
        var _ := c.Del(id);
        assert c.LiveIds() == live - iset{id};
    }
  }
}
