/** `wayland/impl/wayland.c` and `output/output.c`: surfaces, the buffers attached to them, and the
    callbacks a commit arms. */
module Surfaces {
  import opened Memory
  import opened Invariant
  import opened Erasure
  import opened Creation
  import opened BufferSteps
  import opened ClientState
  import BufferObjects

  function FreshSurface(id: Id): Body {
    Surface(id, NULL, false, NULL, [], [], NoRole, NULL, NULL, NULL, [], NULL, NULL, 0)
  }

  /** wl_compositor_create_surface; `s` is the address the allocator returns. */
  method WlCompositorCreateSurface(c: Client, id: Id, s: Ptr) returns (status: int)
    requires Inv(c.H()) && id != 0 && s != NULL && s !in c.mem
    modifies c`mem, c`reg
    ensures Inv(c.H())
    ensures status == 0 <==> id !in old(c.reg)
    ensures status != 0 ==> c.mem == old(c.mem) && c.reg == old(c.reg)
    ensures status == 0 ==>
      && c.reg == old(c.reg)[id := Object(KSurface, s)] && c.mem == old(c.mem)[s := Block(1, FreshSurface(id))]
  {
    hide CoreInv, Extra, In, Target;
    ghost var h := c.H();
    if id in c.reg { return -1; }
    NothingPointsAt(h, s);
    c.Alloc(s, FreshSurface(id));
    c.ObjectAdd(id, KSurface, s);
    SurfaceMade(h, c.H(), s, id);
    return 0;
  }

  lemma SurfaceMade(h: Heap, h': Heap, s: Ptr, id: Id)
    requires CoreInv(h) && s !in h.mem && s != NULL && id !in h.reg && id != 0
    requires h'.cbs == h.cbs && h'.reg == h.reg[id := Object(KSurface, s)]
    requires h'.mem == h.mem[s := Block(1, FreshSurface(id))]
    requires forall u :: Target(h, u) != s
    requires forall u :: Target(h', u) == if u == Reg(id) then s else Target(h, u)
    ensures CoreInv(h')
  {
    hide CoreInv, Roles, WellFormedBodies, Target;
    CreationBodies(h, h', s);
    CreationRoles(h, h', s, id, KSurface);
    CreationKeepsCore(h, h', s, id, KSurface, {});
  }

  // ---------------------------------------------------------------- wl_surface_attach

  /** `badOffset` is the version and offset check; `bufferId` is 0 to detach. */
  method WlSurfaceAttach(c: Client, id: Id, badOffset: bool, bufferId: Id) returns (status: int)
    requires Inv(c.H()) && id in c.reg && c.reg[id].kind == KSurface
    requires bufferId in c.reg ==> c.reg[bufferId].kind == KBuffer
    modifies c`mem
    ensures Inv(c.H())
    ensures status == 0 <==> !badOffset && (bufferId == 0 || bufferId in c.reg)
    ensures status != 0 ==> c.mem == old(c.mem)
    ensures status == 0 ==> Attached(old(c.H()), c.H(), c.reg[id].data, Target(old(c.H()), Reg(bufferId)))
  {
    hide CoreInv, Extra, In, Target, Weakens, Drop, OutDegree, Holding;
    if badOffset { return -1; }
    if bufferId > 0 && bufferId !in c.reg { return -1; }
    RegistryEntry(c.H(), id);
    var surface := c.reg[id].data;
    var buffer := NULL;
    if bufferId > 0 {
      RegistryEntry(c.H(), bufferId);
      buffer := c.reg[bufferId].data;
    } else {
      NoZero(c.H());
    }
    Attach(c, surface, buffer, bufferId);
    return 0;
  }

  lemma NoZero(h: Heap)
    requires CoreInv(h)
    ensures Target(h, Reg(0)) == NULL
  {
  }

  /** The pending buffer is `b`; every other pointer is as before, except that the replaced buffer
      takes its own pointers with it if nobody else held it. */
  ghost predicate Attached(h: Heap, h': Heap, s: Ptr, b: Ptr) {
    && s in h.mem && h.mem[s].body.Surface? && s in h'.mem &&
      h'.mem[s].body == h.mem[s].body.(pending := b, attached := true)
    && (forall q :: q in h'.mem && q != s ==> q in h.mem && h'.mem[q].body == h.mem[q].body)
    && (forall q :: q in h.mem && q !in h'.mem ==> q == h.mem[s].body.pending || IsLeaf(h.mem[q].body))
    && forall u ::
      Target(h', u) == if u == At(s, SurfacePending) then b else if u.At? &&
        u.owner !in h'.mem then NULL else Target(h, u)
  }

  method Attach(c: Client, surface: Ptr, buffer: Ptr, bufferId: Id)
    requires Inv(c.H()) && surface in c.mem && c.mem[surface].body.Surface?
    requires buffer != NULL ==> buffer in c.mem && c.mem[buffer].body.Buffer? && Target(c.H(), Reg(bufferId)) == buffer
    modifies c`mem
    ensures Inv(c.H()) && Attached(old(c.H()), c.H(), surface, buffer)
  {
    hide CoreInv, Extra, In, Target;
    ghost var h := c.H();
    AlwaysLive(h);
    ActiveIsBuffer(h, surface);
    DropPending(c, surface, buffer, bufferId);
    SetPending(c, surface, buffer);
    AtField(h, surface, SurfaceActive);
    AtField(h, surface, SurfacePending);
    ReassignedInv(h, c.H(), surface, buffer, h.mem[surface].body.active, true, h.mem[surface].body.pending);
  }

  /** Lines 483 to 486. */
  method SetPending(c: Client, surface: Ptr, buffer: Ptr)
    requires surface in c.mem && c.mem[surface].body.Surface? && surface != buffer
    requires (buffer != NULL ==> buffer in c.mem)
    modifies c`mem
    ensures c.mem.Keys == old(c.mem).Keys && forall q :: q in c.mem && q != surface ==>
      c.mem[q].body == old(c.mem)[q].body
    ensures forall q :: q in c.mem ==> c.mem[q].refs >= old(c.mem)[q].refs
    ensures c.mem[surface].body == old(c.mem)[surface].body.(pending := buffer, attached := true)
    ensures forall q :: q != NULL ==>
      Extra(c.H(), q) == Extra(old(c.H()), q) + Is(Target(old(c.H()), At(surface, SurfacePending)) == q)
    ensures forall u :: Target(c.H(), u) == if u == At(surface, SurfacePending) then buffer else Target(old(c.H()), u)
  {
    hide Extra, In, Target;
    c.Set(surface, SurfacePending, buffer);
    if buffer != NULL { c.Ref(buffer); }
    c.SetAttached(surface, true);
  }

  /** Lines 479 to 481: a pending buffer that was never committed loses its reference. */
  method DropPending(c: Client, surface: Ptr, ghost buffer: Ptr, ghost bufferId: Id)
    requires Inv(c.H()) && surface in c.mem && c.mem[surface].body.Surface?
    requires buffer != NULL ==> buffer in c.mem && c.mem[buffer].body.Buffer? && Target(c.H(), Reg(bufferId)) == buffer
    modifies c`mem
    ensures surface in c.mem && (buffer != NULL ==> buffer in c.mem)
    ensures forall q :: q in c.mem ==> q in old(c.mem) && c.mem[q].body == old(c.mem)[q].body && c.mem[q].refs >= 1
    ensures forall q :: q in old(c.mem) && q !in c.mem ==>
      q == c.mem[surface].body.pending || IsLeaf(old(c.mem)[q].body)
    ensures forall q :: q != NULL ==> Extra(c.H(), q) == 0 - Is(q == c.mem[surface].body.pending)
    ensures var p := c.mem[surface].body.pending; forall u ::
      Target(c.H(), u) == if p in old(c.mem) && p !in c.mem && Owns(u, p) then NULL else Target(old(c.H()), u)
  {
    hide CoreInv, Extra, In, Target, Weakens, Drop, OutDegree, Holding, RolesKept;
    ghost var h := c.H();
    AlwaysLive(h);
    AtField(h, surface, SurfacePending);
    SurfaceFlags(h, surface);
    if c.mem[surface].body.attached && c.mem[surface].body.pending != NULL {
      BufferHeld(h, At(surface, SurfacePending));
      if buffer == c.mem[surface].body.pending { HeldTwice(h, Reg(bufferId), At(surface, SurfacePending)); }
      c.Unref(c.mem[surface].body.pending);
    }
  }

  lemma SurfaceFlags(h: Heap, s: Ptr)
    requires CoreInv(h) && s in h.mem && h.mem[s].body.Surface?
    ensures h.mem[s].body.pending != NULL ==> h.mem[s].body.attached
  {
  }

  lemma BufferHeld(h: Heap, t: Slot)
    requires Inv(h) && t.At? && (t.field == SurfacePending || t.field == SurfaceActive) && Target(h, t) != NULL
    ensures Droppable(h.mem, Target(h, t)) && h.mem[Target(h, t)].body.Buffer?
  {
    Held(h, t);
    assert Fits(h, t, h.mem[Target(h, t)].body);
    BufferObjects.BufferParts(h, Target(h, t));
  }

  lemma ActiveIsBuffer(h: Heap, s: Ptr)
    requires Inv(h) && s in h.mem && h.mem[s].body.Surface?
    ensures h.mem[s].body.active != NULL ==> h.mem[s].body.active in h.mem && h.mem[h.mem[s].body.active].body.Buffer?
    ensures h.mem[s].body.pending != NULL ==>
      h.mem[s].body.pending in h.mem && h.mem[h.mem[s].body.pending].body.Buffer?
  {
    AtField(h, s, SurfaceActive);
    AtField(h, s, SurfacePending);
    if h.mem[s].body.active != NULL { BufferHeld(h, At(s, SurfaceActive)); }
    if h.mem[s].body.pending != NULL { BufferHeld(h, At(s, SurfacePending)); }
  }

  /** Buffers and leaves are in no link, and what is not in memory stores nothing. */
  lemma NoLinksOfBuffers(h: Heap, h': Heap)
    requires CoreInv(h) && forall q :: q in h.mem && q !in h'.mem ==> h.mem[q].body.Buffer? || IsLeaf(h.mem[q].body)
    ensures forall u :: Linked(u) && u.owner !in h'.mem ==> Target(h, u) == NULL
    ensures forall u: Slot :: u.Child? && u.owner !in h'.mem ==> Target(h, u) == NULL
    ensures forall u: Slot, q :: Owns(u, q) && q in h.mem && IsLeaf(h.mem[q].body) ==> Target(h, u) == NULL
    ensures forall u: Slot :: u.At? && u.owner !in h.mem ==> Target(h, u) == NULL
  {
  }

  /** Reassigning the buffers of surface s, after dropping the one at p. */
  lemma ReassignedInv(h: Heap, h': Heap, s: Ptr, pending: Ptr, active: Ptr, attached: bool, p: Ptr)
    requires CoreInv(h) && h'.reg == h.reg && h'.cbs == h.cbs && Balanced(h')
    requires forall q :: q in h'.mem ==>
      q in h.mem && (q != s ==> h'.mem[q].body == h.mem[q].body) && h'.mem[q].refs >= 1
    requires forall q :: q in h.mem && q !in h'.mem ==> q == p || IsLeaf(h.mem[q].body)
    requires p in h.mem ==> h.mem[p].body.Buffer?
    requires s in h'.mem && h.mem[s].body.Surface?
    requires h'.mem[s].body == h.mem[s].body.(pending := pending, active := active, attached := attached)
    requires pending != NULL ==> pending in h.mem && h.mem[pending].body.Buffer? && attached
    requires active != NULL ==> active in h.mem && h.mem[active].body.Buffer?
    requires forall u ::
      Target(h', u) == (
        if u == At(s, SurfacePending) then pending else if u == At(s, SurfaceActive) then active
        else if p in h.mem && p !in h'.mem && Owns(u, p) then NULL else Target(h, u))
    ensures Inv(h')
    ensures forall u ::
      Target(h', u) == (
        if u == At(s, SurfacePending) then pending else if u == At(s, SurfaceActive) then active
        else if u.At? && u.owner !in h'.mem then NULL else Target(h, u))
  {
    hide Target, Registered, Named, Roles, Callbacks, Waiting, Typed, Mutual;
    NoLinksOfBuffers(h, h');
    MovesBuffersKeepsInv(h, h');
  }
}
