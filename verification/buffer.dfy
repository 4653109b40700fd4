/** `wayland/impl/wayland.c`: shared-memory pools and the buffers cut from them. */
module BufferObjects {
  import opened Memory
  import opened Invariant
  import opened Erasure
  import opened Creation
  import opened ClientState

  /** wl_shm_create_pool; `mapped` is whether mmap succeeded. */
  method WlShmCreatePool(c: Client, id: Id, pool: Ptr, mapped: bool) returns (status: int)
    requires Inv(c.H()) && id != 0 && pool != NULL && pool !in c.mem
    modifies c`mem, c`reg
    ensures Inv(c.H())
    ensures status == 0 <==> id !in old(c.reg) && mapped
    ensures status != 0 ==> c.mem == old(c.mem) && c.reg == old(c.reg)
    ensures status == 0 ==>
      && c.reg == old(c.reg)[id := Object(KPool, pool)] && c.mem == old(c.mem)[pool := Block(1, Pool)]
  {
    hide CoreInv, Extra, In, Target, Weakens;
    ghost var h := c.H();
    if id in c.reg { return -1; }
    NothingPointsAt(h, pool);
    c.Alloc(pool, Pool);
    if !mapped {
      c.Unref(pool);
      assert c.mem == h.mem;
      return -1;
    }
    c.ObjectAdd(id, KPool, pool);
    PoolMade(h, c.H(), pool, id);
    return 0;
  }

  lemma PoolMade(h: Heap, h': Heap, pool: Ptr, id: Id)
    requires CoreInv(h) && pool !in h.mem && pool != NULL && id !in h.reg && id != 0
    requires h'.cbs == h.cbs && h'.reg == h.reg[id := Object(KPool, pool)] && h'.mem == h.mem[pool := Block(1, Pool)]
    requires forall u :: Target(h, u) != pool
    requires forall u :: Target(h', u) == if u == Reg(id) then pool else Target(h, u)
    ensures CoreInv(h')
  {
    hide CoreInv, Roles, WellFormedBodies, Target;
    SameLinks(h);
    CreationBodies(h, h', pool);
    CreationRoles(h, h', pool, id, KPool);
    CreationKeepsCore(h, h', pool, id, KPool, {});
  }

  lemma SameLinks(h: Heap)
    ensures forall q :: q in h.mem ==> SameButLinks(h.mem[q].body, h.mem[q].body)
  {
  }

  /** Entry id is gone, and at most its pool with it. */
  ghost predicate PoolDestroyed(h: Heap, h': Heap, id: Id) {
    && id in h.reg && h'.reg == h.reg - {id}
    && h'.mem.Keys - {h.reg[id].data} == h.mem.Keys - {h.reg[id].data}
    && (forall u :: Target(h', u) == if u == Reg(id) then NULL else Target(h, u))
    && forall q :: q in h'.mem ==> q in h.mem && h'.mem[q].body == h.mem[q].body
  }

  method WlShmPoolDestroy(c: Client, id: Id)
    requires Inv(c.H()) && id in c.reg && c.reg[id].kind == KPool
    modifies c`mem, c`reg, c`sent
    ensures Inv(c.H())
    ensures PoolDestroyed(old(c.H()), c.H(), id) && c.sent == old(c.sent) + DeletedId(id)
  {
    hide CoreInv, Extra, In, Target, Weakens, RolesKept;
    ghost var h := c.H();
    RegistryEntry(h, id);
    var pool := c.reg[id].data;
    LeafHolders(h, pool);
    var _ := c.ObjectDel(id);
    DeletionKeepsInv(h, c.H(), id, pool);
  }

  /** Pools and pixel buffers store no pointers and are in no link. */
  lemma LeafHolders(h: Heap, p: Ptr)
    requires CoreInv(h) && p in h.mem && IsLeaf(h.mem[p].body)
    ensures forall t :: Owns(t, p) ==> Target(h, t) == NULL
    ensures forall t :: Linked(t) ==> Target(h, t) != p
    ensures forall q :: q != NULL ==> OutDegree(h.mem[p].body, q) == 0
  {
    forall t | Linked(t) && Target(h, t) == p ensures false { LinkEnds(h, t); }
    forall q | q != NULL ensures OutDegree(h.mem[p].body, q) == 0 {
      assert Holding(h.mem[p].body, q) == {};
    }
  }

  // ---------------------------------------------------------------- wl_shm_pool_create_buffer

  /** A buffer and its pixels are new, the pool has one holder more, and everything else is as before. */
  ghost predicate BufferCreated(h: Heap, h': Heap, poolId: Id, id: Id, buf: Ptr, pixels: Ptr) {
    && poolId in h.reg && h'.reg == h.reg[id := Object(KBuffer, buf)] && h'.mem.Keys == h.mem.Keys + {buf, pixels}
    && h'.mem[buf].body == Buffer(id, h.reg[poolId].data, pixels, NULL) && h'.mem[pixels].body == Pixels
    && (forall q :: q in h.mem ==> h'.mem[q].body == h.mem[q].body)
    && forall u ::
      Target(h', u) == (
        if u == Reg(id) then buf else if u == At(buf, BufferPixels) then pixels
        else if u == At(buf, BufferPool) then h.reg[poolId].data else Target(h, u))
  }

  /** `valid` is the outcome of the stride and size checks; `buf` and `pixels` are the addresses the
      allocator returns for the buffer and its raw pixel description. */
  method WlShmPoolCreateBuffer(c: Client, poolId: Id, id: Id, buf: Ptr, pixels: Ptr, valid: bool) returns (status: int)
    requires Inv(c.H()) && poolId in c.reg && c.reg[poolId].kind == KPool && id != 0
    requires buf != NULL && pixels != NULL && buf !in c.mem && pixels !in c.mem && buf != pixels
    modifies c`mem, c`reg
    ensures Inv(c.H())
    ensures status == 0 <==> id !in old(c.reg) && valid
    ensures status != 0 ==> c.mem == old(c.mem) && c.reg == old(c.reg)
    ensures status == 0 ==> BufferCreated(old(c.H()), c.H(), poolId, id, buf, pixels)
  {
    hide CoreInv, Extra, In, Target, Weakens;
    ghost var h := c.H();
    RegistryEntry(h, poolId);
    var pool := c.reg[poolId].data;
    if id in c.reg || !valid { return -1; }
    NothingPointsAt(h, buf);
    NothingPointsAt(h, pixels);
    AllocateBuffer(c, id, buf, pixels, pool);
    c.ObjectAdd(id, KBuffer, buf);
    BufferMade(h, c.H(), buf, pixels, pool, id);
    return 0;
  }

  method AllocateBuffer(c: Client, id: Id, buf: Ptr, pixels: Ptr, pool: Ptr)
    requires buf != NULL && pixels != NULL && buf !in c.mem && pixels !in c.mem && buf != pixels && pool in c.mem
    requires pool != NULL
    modifies c`mem
    ensures var m := old(c.mem);
      c.mem == m[buf := Block(1, Buffer(id, pool, pixels, NULL))][pixels := Block(1,
        Pixels)][pool := Block(m[pool].refs + 1, m[pool].body)]
    ensures forall q :: q != NULL ==> Extra(c.H(), q) == Extra(old(c.H()), q) + Is(q == buf)
    ensures forall u ::
      Target(c.H(), u) == if u == At(buf, BufferPixels) then pixels else if u == At(buf, BufferPool) then pool
        else Target(old(c.H()), u)
  {
    hide Extra, In, Target, Weakens;
    AtNothing(c.H(), buf);
    c.Alloc(buf, Buffer(id, NULL, NULL, NULL));
    c.Alloc(pixels, Pixels);
    c.Set(buf, BufferPool, pool);
    c.Ref(pool);
    c.Set(buf, BufferPixels, pixels);
  }

  ghost predicate BufferAdded(h: Heap, h': Heap, buf: Ptr, pixels: Ptr, pool: Ptr, id: Id) {
    && buf !in h.mem && pixels !in h.mem && buf != NULL && pixels != NULL && buf != pixels && id !in h.reg && id != 0
    && pool in h.mem && h.mem[pool].body.Pool?
    && h'.cbs == h.cbs && h'.reg == h.reg[id := Object(KBuffer, buf)]
    && h'.mem == h.mem[buf := Block(1, Buffer(id, pool, pixels, NULL))][pixels := Block(1,
      Pixels)][pool := Block(h.mem[pool].refs + 1, Pool)]
    && (forall u :: Target(h, u) != buf && Target(h, u) != pixels)
    && (forall u ::
      Target(h', u) == (
        if u == Reg(id) then buf else if u == At(buf, BufferPixels) then pixels
        else if u == At(buf, BufferPool) then pool else Target(h, u)))
  }

  lemma BufferMade(h: Heap, h': Heap, buf: Ptr, pixels: Ptr, pool: Ptr, id: Id)
    requires CoreInv(h) && BufferAdded(h, h', buf, pixels, pool, id)
    ensures CoreInv(h')
  {
    hide Mutual, Typed, Registered, Named, Roles, Waiting, Callbacks, WellFormedBodies, Live, BufferAdded;
    BufferMadeTyped(h, h', buf, pixels, pool, id);
    BufferMadeRegistry(h, h', buf, pixels, pool, id);
    BufferMadeRoles(h, h', buf, pixels, pool, id);
    BufferExtends(h, h', buf, pixels, pool, id);
    ExtensionCallbacks(h, h', {buf, pixels});
    ExtensionWaiting(h, h', {buf, pixels});
  }

  lemma BufferMadeTyped(h: Heap, h': Heap, buf: Ptr, pixels: Ptr, pool: Ptr, id: Id)
    requires CoreInv(h) && BufferAdded(h, h', buf, pixels, pool, id)
    ensures Typed(h') && Mutual(h')
  {
    hide Registered, Named, Roles, Callbacks, Waiting, WellFormedBodies;
    forall u | Target(h', u) in h'.mem
      ensures Fits(h', u, h'.mem[Target(h', u)].body)
    {
      if Target(h', u) == Target(h, u) { assert Fits(h, u, h.mem[Target(h, u)].body); }
    }
    forall u | Linked(u) && Target(h', u) != NULL
      ensures Target(h', Back(u, Target(h', u))) == u.owner
    {
      BackOfBack(h, u);
    }
  }

  lemma BufferMadePixels(h: Heap, h': Heap, buf: Ptr, pixels: Ptr, pool: Ptr, id: Id)
    requires CoreInv(h) && BufferAdded(h, h', buf, pixels, pool, id)
    ensures PixelsUnshared(h')
  {
    hide Typed, Mutual, Registered, Named, Callbacks, Waiting, Roles, Target;
    forall p, q | p in h'.mem && q in h'.mem && h'.mem[p].body.Buffer? && h'.mem[q].body.Buffer? &&
      h'.mem[p].body.pixels == h'.mem[q].body.pixels
      ensures p == q
    {
      if p in h.mem { AtField(h, p, BufferPixels); }
      if q in h.mem { AtField(h, q, BufferPixels); }
    }
  }

  lemma BufferMadeRegistry(h: Heap, h': Heap, buf: Ptr, pixels: Ptr, pool: Ptr, id: Id)
    requires CoreInv(h) && BufferAdded(h, h', buf, pixels, pool, id)
    ensures Registered(h') && Named(h') && WellFormedBodies(h') && Live(h')
  {
    hide Typed, Mutual, Callbacks, Waiting, Roles, Target, PixelsUnshared;
    BufferMadePixels(h, h', buf, pixels, pool, id);
  }

  lemma BufferExtends(h: Heap, h': Heap, buf: Ptr, pixels: Ptr, pool: Ptr, id: Id)
    requires BufferAdded(h, h', buf, pixels, pool, id)
    ensures Extends(h, h', {buf, pixels})
  {
    hide Target;
  }

  lemma BufferMadeRoles(h: Heap, h': Heap, buf: Ptr, pixels: Ptr, pool: Ptr, id: Id)
    requires CoreInv(h) && BufferAdded(h, h', buf, pixels, pool, id)
    ensures Roles(h')
  {
    hide Typed, Mutual, Registered, Callbacks, Waiting, WellFormedBodies, Target;
    forall i | i in h'.reg && h'.reg[i].kind == KToplevel && HasSurface(h', h'.reg[i].data)
      ensures HasSurface(h, h'.reg[i].data) && ToplevelRoleOk(h', h'.reg[i].data)
    {
      var x := h.reg[i].data;
      assert ToplevelRoleOk(h, x) && x in h.mem;
      AtField(h, x, XdgSurfaceSurface);
      LinkEnds(h, At(x, XdgSurfaceSurface));
    }
  }

  // ---------------------------------------------------------------- wl_buffer_destroy

  /** Entry id is gone. Its buffer survives, without an id, exactly while something else holds it, and
      takes its pointers and at most its parts along otherwise. */
  ghost predicate BufferDestroyed(h: Heap, h': Heap, id: Id) {
    && id in h.reg && h'.reg == h.reg - {id}
    && var b := h.reg[id].data;
    && b in h.mem && h.mem[b].body.Buffer?
    && (b in h'.mem <==> exists u :: u != Reg(id) && Target(h, u) == b)
    && (b in h'.mem ==> h'.mem[b].body == Buffer(0, h.mem[b].body.pool, h.mem[b].body.pixels, h.mem[b].body.cb))
    && (forall q :: q in h'.mem && q != b ==> q in h.mem && h'.mem[q].body == h.mem[q].body)
    && (forall q :: q in h.mem && q !in h'.mem ==> q == b || IsLeaf(h.mem[q].body))
    && forall u :: Target(h', u) == if u == Reg(id) || (b !in h'.mem && Owns(u, b)) then NULL else Target(h, u)
  }

  method WlBufferDestroy(c: Client, id: Id)
    requires Inv(c.H()) && id in c.reg && c.reg[id].kind == KBuffer
    modifies c`mem, c`reg, c`sent
    ensures Inv(c.H())
    ensures BufferDestroyed(old(c.H()), c.H(), id) && c.sent == old(c.sent) + DeletedId(id)
  {
    hide CoreInv, Extra, In, Target, Weakens, RolesKept;
    ghost var h := c.H();
    RegistryEntry(h, id);
    var buffer := c.reg[id].data;
    BufferParts(h, buffer);
    c.Note(buffer, Buffer(0, c.mem[buffer].body.pool, c.mem[buffer].body.pixels, c.mem[buffer].body.cb));
    var _ := c.ObjectDel(id);
    BufferUnregistered(h, c.H(), buffer, id);
    BufferAlive(h, c.H(), buffer, id);
  }

  lemma BufferParts(h: Heap, b: Ptr)
    requires Inv(h) && b in h.mem && h.mem[b].body.Buffer?
    ensures Droppable(h.mem, b)
    ensures forall t :: Linked(t) ==> Target(h, t) != b && !(Owns(t, b) && Target(h, t) != NULL)
    ensures forall t :: Owns(t, b) ==> Target(h, t) != b
  {
    BufferLinks(h, b);
    BufferDroppable(h, b);
  }

  /** A buffer is in no link and does not point at itself. */
  lemma BufferLinks(h: Heap, b: Ptr)
    requires CoreInv(h) && b in h.mem && h.mem[b].body.Buffer?
    ensures forall t :: Linked(t) ==> Target(h, t) != b && !(Owns(t, b) && Target(h, t) != NULL)
    ensures forall t :: Owns(t, b) ==> Target(h, t) != b
  {
    hide Registered, Named, WellFormedBodies, Roles, Callbacks, Waiting;
    forall t | Owns(t, b) ensures Target(h, t) != b {
      assert Target(h, t) == b ==> Fits(h, t, h.mem[b].body);
    }
    forall t | Linked(t) && Target(h, t) == b ensures false { BackTo(h, t); }
  }

  lemma BackTo(h: Heap, t: Slot)
    requires Mutual(h) && Linked(t) && Target(h, t) != NULL && Live(h)
    ensures var p := Target(h, t); p in h.mem && !h.mem[p].body.Buffer?
  {
    assert Target(h, Back(t, Target(h, t))) == t.owner;
  }

  lemma BufferDroppable(h: Heap, b: Ptr)
    requires Inv(h) && b in h.mem && h.mem[b].body.Buffer?
    ensures Droppable(h.mem, b)
  {
    hide Registered, Named, WellFormedBodies, Roles, Callbacks, Waiting, Mutual, Extra, In;
    AtField(h, b, BufferPool);
    AtField(h, b, BufferPixels);
    if h.mem[b].body.pool != NULL { Held(h, At(b, BufferPool)); assert Fits(h, At(b, BufferPool),
      h.mem[h.mem[b].body.pool].body); }
    if h.mem[b].body.pixels != NULL { Held(h, At(b, BufferPixels)); assert Fits(h, At(b, BufferPixels),
      h.mem[h.mem[b].body.pixels].body); }
  }

  /** Clearing `obj` and the registry entry together keeps everything but the count. */
  lemma UnregisterKeepsCore(h: Heap, h': Heap, b: Ptr, id: Id)
    requires CoreInv(h) && id in h.reg && h.reg[id] == Object(KBuffer, b) && b in h.mem && h.mem[b].body.Buffer?
    requires var y := h.mem[b].body;
      h' == h.(mem := h.mem[b := Block(h.mem[b].refs, Buffer(0, y.pool, y.pixels, y.cb))], reg := h.reg - {id})
    ensures CoreInv(h')
    ensures forall u :: Target(h', u) == if u == Reg(id) then NULL else Target(h, u)
  {
    forall u ensures Target(h', u) == if u == Reg(id) then NULL else Target(h, u) {
      match u case Reg(_) => case At(_, _) => case Child(_, _) => case Armed(_) => case Quad(_, _) =>
    }
    UnregisterTyped(h, h', b, id);
    UnregisterRegistry(h, h', b, id);
    UnregisterWaiting(h, h', b, id);
    UnregisterCallbacks(h, h', b, id);
  }

  lemma UnregisterTyped(h: Heap, h': Heap, b: Ptr, id: Id)
    requires CoreInv(h) && b in h.mem && h.mem[b].body.Buffer? && h'.reg == h.reg - {id} && h'.mem.Keys == h.mem.Keys
    requires forall q :: q in h.mem && q != b ==> h'.mem[q] == h.mem[q]
    requires h'.mem[b].body.Buffer?
    requires forall u :: Target(h', u) == if u == Reg(id) then NULL else Target(h, u)
    ensures Typed(h') && Mutual(h')
  {
    hide Target, Registered, Named, Roles, Callbacks, Waiting, WellFormedBodies;
    forall u | Target(h', u) in h'.mem
      ensures Fits(h', u, h'.mem[Target(h', u)].body)
    {
      if u != Reg(id) { assert Fits(h, u, h.mem[Target(h, u)].body); }
    }
    forall u | Linked(u) && Target(h', u) != NULL
      ensures Target(h', Back(u, Target(h', u))) == u.owner
    {
      BackOfBack(h, u);
    }
  }

  lemma UnregisterRegistry(h: Heap, h': Heap, b: Ptr, id: Id)
    requires CoreInv(h) && id in h.reg && h.reg[id] == Object(KBuffer, b) && b in h.mem && h.mem[b].body.Buffer?
    requires h'.reg == h.reg - {id} && h'.mem.Keys == h.mem.Keys
    requires forall q :: q in h.mem && q != b ==> h'.mem[q] == h.mem[q]
    requires h'.mem[b].body == Buffer(0, h.mem[b].body.pool, h.mem[b].body.pixels, h.mem[b].body.cb)
    requires h'.mem[b].refs == h.mem[b].refs
    ensures Registered(h') && Named(h') && WellFormedBodies(h') && Live(h')
  {
    hide Target, Mutual, Typed, Callbacks, Waiting, Roles;
  }

  lemma UnregisterWaiting(h: Heap, h': Heap, b: Ptr, id: Id)
    requires CoreInv(h) && id in h.reg && h.reg[id] == Object(KBuffer, b) && b in h.mem && h.mem[b].body.Buffer?
    requires h'.reg == h.reg - {id} && h'.mem.Keys == h.mem.Keys
    requires forall q :: q in h.mem && q != b ==> h'.mem[q] == h.mem[q]
    requires h'.mem[b].body.Buffer?
    ensures Roles(h') && Waiting(h')
  {
    hide Target, Mutual, Typed, Callbacks, Registered, WellFormedBodies;
    UnregisterQueues(h, h', b, id);
    UnregisterRoles(h, h', b, id);
  }

  lemma UnregisterQueues(h: Heap, h': Heap, b: Ptr, id: Id)
    requires Waiting(h) && id in h.reg && h.reg[id] == Object(KBuffer, b) && b in h.mem && h.mem[b].body.Buffer?
    requires h'.reg == h.reg - {id} && h'.mem.Keys == h.mem.Keys && h'.mem[b].body.Buffer?
    requires forall q :: q in h.mem && q != b ==> h'.mem[q] == h.mem[q]
    ensures Waiting(h')
  {
    forall q ensures Frames(h', q) == Frames(h, q) && Feedbacks(h', q) == Feedbacks(h, q) { }
    hide Frames, Feedbacks;
  }

  lemma UnregisterRoles(h: Heap, h': Heap, b: Ptr, id: Id)
    requires Roles(h) && b in h.mem && h.mem[b].body.Buffer? && h'.mem.Keys == h.mem.Keys && h'.mem[b].body.Buffer?
    requires h'.reg == h.reg - {id} && forall q :: q in h.mem && q != b ==> h'.mem[q] == h.mem[q]
    ensures Roles(h')
  {
    forall i | i in h'.reg && h'.reg[i].kind == KToplevel && HasSurface(h', h'.reg[i].data)
      ensures HasSurface(h, h'.reg[i].data) && ToplevelRoleOk(h', h'.reg[i].data)
    {
      assert ToplevelRoleOk(h, h.reg[i].data);
    }
  }

  lemma UnregisterCallbacks(h: Heap, h': Heap, b: Ptr, id: Id)
    requires CoreInv(h) && b in h.mem && h.mem[b].body.Buffer? && h'.cbs == h.cbs && h'.mem.Keys == h.mem.Keys
    requires forall q :: q in h.mem && q != b ==> h'.mem[q] == h.mem[q]
    requires h'.mem[b].body.Buffer? && h'.mem[b].body.cb == h.mem[b].body.cb
    ensures Callbacks(h')
  {
    hide Target, Mutual, Typed, Registered, Named, Waiting, Roles;
    forall a | a in h'.cbs ensures CallbackOk(h', a, h'.cbs[a]) { assert CallbackOk(h, a, h.cbs[a]); }
    forall q | q in h'.mem ensures ArmedOk(h', q, h'.mem[q].body) { assert ArmedOk(h, q, h.mem[q].body); }
  }

  lemma BufferUnregistered(h: Heap, h': Heap, b: Ptr, id: Id)
    requires CoreInv(h) && id in h.reg && h.reg[id] == Object(KBuffer, b) && b in h.mem && h.mem[b].body.Buffer?
    requires Balanced(h')
    requires h'.cbs == h.cbs && h'.scene == h.scene && h'.reg == h.reg - {id}
    requires var y := h.mem[b].body; var m := h.mem[b := Block(h.mem[b].refs, Buffer(0, y.pool, y.pixels, y.cb))];
      Droppable(m, b) && h'.mem == Drop(m, b)
    requires forall t :: Linked(t) ==> Target(h, t) != b && !(Owns(t, b) && Target(h, t) != NULL)
    requires forall u :: Target(h', u) == if u == Reg(id) || (b !in h'.mem && Owns(u, b)) then NULL else Target(h, u)
    ensures Inv(h')
  {
    hide CoreInv, Target, Weakens, RolesKept, Drop, Droppable;
    var y := h.mem[b].body;
    var h1 := h.(mem := h.mem[b := Block(h.mem[b].refs, Buffer(0, y.pool, y.pixels, y.cb))], reg := h.reg - {id});
    UnregisterKeepsCore(h, h1, b, id);
    DropWeakens(h1, h', b);
    DropKeepsInv(h1, h', b);
  }

  /** Dropping one reference keeps the invariant when the counts agree afterwards and no link is touched. */
  lemma DropKeepsInv(h: Heap, h': Heap, p: Ptr)
    requires CoreInv(h) && Weakens(h, h') && RolesKept(h, h') && Balanced(h') && h'.reg == h.reg
    requires forall u :: Target(h', u) == Target(h, u) || (Target(h', u) == NULL && Owns(u, p))
    requires forall t :: Linked(t) ==> Target(h, t) != p && !(Owns(t, p) && Target(h, t) != NULL)
    ensures Inv(h')
  {
    forall i | i in h'.reg && !NoData(h.reg[i].kind) ensures h.reg[i].data in h'.mem {
      assert Target(h', Reg(i)) == h.reg[i].data;
      Held(h', Reg(i));
    }
    forall a | a in h.cbs && h.cbs[a].listener.BufferReleased? ensures h.cbs[a].userdata in h'.mem {
      assert CallbackOk(h, a, h.cbs[a]);
      assert Target(h', Armed(a)) == h.cbs[a].userdata;
      Held(h', Armed(a));
    }
    forall u | Linked(u) && Target(h, u) != NULL ensures Target(h', u) == Target(h, u) { }
    forall u | Linked(u) && Target(h, u) != NULL
      ensures Target(h', Back(u, Target(h, u))) != NULL
    {
      BackOfBack(h, u);
      LinkEnds(h, u);
    }
    assert BothEnds(h, h');
    WeakeningRoles(h, h');
    WeakeningKeepsCore(h, h');
  }

  lemma BufferAlive(h: Heap, h': Heap, b: Ptr, id: Id)
    requires Inv(h) && Inv(h') && b in h.mem && b != NULL && Target(h, Reg(id)) == b
    requires forall u :: Target(h', u) == if u == Reg(id) || (b !in h'.mem && Owns(u, b)) then NULL else Target(h, u)
    requires forall t :: Owns(t, b) ==> Target(h, t) != b
    ensures b in h'.mem <==> exists u :: u != Reg(id) && Target(h, u) == b
  {
    hide CoreInv, Balanced, Target;
    LiveIffHeld(h', b);
    if b in h'.mem {
      var u :| Target(h', u) == b;
      assert u != Reg(id) && Target(h, u) == b;
    }
    if u :| u != Reg(id) && Target(h, u) == b {
      assert !Owns(u, b);
      assert Target(h', u) == b;
    }
  }
}
