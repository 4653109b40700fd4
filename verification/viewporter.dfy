/** `wayland/impl/viewporter.c`: the link between a surface and its viewport. */
module Viewporter {
  import opened Memory
  import opened Invariant
  import opened Erasure
  import opened Creation
  import opened ClientState

  /** The first half of wp_viewport_destroy: if the surface is still there, both ends of the link and
      both counts go. */
  method Unlink(c: Client, viewport: Ptr)
    requires Inv(c.H()) && viewport in c.mem && c.mem[viewport].body.Viewport?
    modifies c`mem
    ensures Inv(c.H()) && c.mem.Keys == old(c.mem).Keys
    ensures Unlinked(old(c.H()), c.H(), At(viewport, ViewportSurface)) && Weakens(old(c.H()), c.H())
    ensures RolesKept(old(c.H()), c.H())
    ensures viewport in c.mem && c.mem[viewport].body == Viewport(old(c.mem)[viewport].body.obj, NULL)
  {
    hide CoreInv, Extra, In, Target, Weakens, RolesKept, Drop, OutDegree, Holding;
    ghost var h := c.H();
    var surface := c.mem[viewport].body.surface;
    AtField(h, viewport, ViewportSurface);
    if surface != NULL {
      LinkEnds(h, At(viewport, ViewportSurface));
      ObjectOf(h, surface);
      ObjectOf(h, viewport);
      AlwaysLive(h);
      ClearLink(c, viewport, surface);
      UnlinkKeepsCore(h, c.H(), At(viewport, ViewportSurface));
    } else {
      c.Set(viewport, ViewportSurface, NULL);
      assert c.mem == h.mem;
    }
  }

  /** surface->viewport = NULL; c_unref(viewport); c_unref(surface); viewport->surface = NULL */
  method ClearLink(c: Client, viewport: Ptr, surface: Ptr)
    requires viewport in c.mem && c.mem[viewport].body.Viewport? && surface in c.mem && c.mem[surface].body.Surface?
    requires viewport != NULL && surface != NULL && Live(c.H()) && forall q :: q != NULL ==> Extra(c.H(), q) == 0
    requires Target(c.H(), At(viewport, ViewportSurface)) == surface
    requires Target(c.H(), At(surface, SurfaceViewport)) == viewport
    requires Target(c.H(), Reg(c.mem[viewport].body.obj)) == viewport
    requires Target(c.H(), Reg(c.mem[surface].body.obj)) == surface
    modifies c`mem
    ensures c.mem.Keys == old(c.mem).Keys && Weakens(old(c.H()), c.H()) && RolesKept(old(c.H()), c.H())
    ensures forall q :: q != NULL ==> Extra(c.H(), q) == 0
    ensures forall u ::
      Target(c.H(), u) == if u == At(viewport, ViewportSurface) ||
        u == At(surface, SurfaceViewport) then NULL else Target(old(c.H()), u)
    ensures viewport in c.mem && c.mem[viewport].body == Viewport(old(c.mem)[viewport].body.obj, NULL)
  {
    hide Extra, In, Target, Weakens, RolesKept, Drop, OutDegree, Holding;
    ghost var h := c.H();
    c.Set(surface, SurfaceViewport, NULL);
    ghost var h1 := c.H();
    HeldOnce(h1, Reg(c.mem[viewport].body.obj));
    c.UnrefShared(viewport);
    ghost var h2 := c.H();
    HeldTwice(h2, Reg(c.mem[surface].body.obj), At(viewport, ViewportSurface));
    c.UnrefShared(surface);
    ghost var h3 := c.H();
    c.Set(viewport, ViewportSurface, NULL);
    WeakensTwice(h, h1, h2);
    WeakensTwice(h, h2, h3);
    WeakensTwice(h, h3, c.H());
  }

  method WpViewportDestroy(c: Client, id: Id)
    requires Inv(c.H()) && id in c.reg && c.reg[id].kind == KViewport
    modifies c`mem, c`reg, c`sent
    ensures Inv(c.H())
    ensures SatelliteDestroyed(old(c.H()), c.H(), id) && c.sent == old(c.sent) + DeletedId(id)
    ensures RolesKept(old(c.H()), c.H())
  {
    hide CoreInv, Extra, In, Target, Weakens, RolesKept, Shrinks;
    RegistryEntry(c.H(), id);
    var viewport := c.reg[id].data;
    Unlink(c, viewport);
    ghost var h := c.H();
    RegistryEntry(h, id);
    ViewportHolders(h, viewport);
    OnlyHolder(h, Reg(id));
    var _ := c.ObjectDel(id);
    forall q | q != NULL ensures Extra(c.H(), q) == 0 {
      UnlinkedOut(h.mem[viewport].body, q);
    }
    WeakensTwice(old(c.H()), h, c.H());
    UnlinkThenDelete(old(c.H()), h, c.H(), At(viewport, ViewportSurface), id, viewport);
    ErasedKeepsInv(old(c.H()), c.H(), id, viewport);
  }

  ghost predicate ViewportLinked(h: Heap, h': Heap, id: Id, surfaceId: Id, viewport: Ptr) {
    && surfaceId in h.reg && h'.reg == h.reg[id := Object(KViewport, viewport)] &&
      h'.mem.Keys == h.mem.Keys + {viewport}
    && var s := h.reg[surfaceId].data;
    && h'.mem[viewport].body == Viewport(id, s) && RolesKept(h, h')
    && (forall q :: q in h.mem ==> SameButLinks(h.mem[q].body, h'.mem[q].body))
    && forall u ::
      Target(h', u) == (
        if u == Reg(id) || u == At(s, SurfaceViewport) then viewport
        else if u == At(viewport, ViewportSurface) then s
        else Target(h, u))
  }

  /** wp_viewporter_get_viewport; `viewport` is the address the allocator returns. */
  method WpViewporterGetViewport(c: Client, id: Id, surfaceId: Id, viewport: Ptr) returns (status: int)
    requires Inv(c.H()) && id != 0 && viewport != NULL && viewport !in c.mem
    requires surfaceId in c.reg ==> c.reg[surfaceId].kind == KSurface
    modifies c`mem, c`reg
    ensures Inv(c.H())
    ensures status == 0 <==>
      id !in old(c.reg) && surfaceId in old(c.reg) && old(c.mem)[old(c.reg)[surfaceId].data].body.viewport == NULL
    ensures status != 0 ==> c.mem == old(c.mem) && c.reg == old(c.reg)
    ensures status == 0 ==> ViewportLinked(old(c.H()), c.H(), id, surfaceId, viewport)
  {
    hide CoreInv, Extra, In, Target, LinksMade, Extends, WellFormedBodies, Roles, Live;
    ghost var h := c.H();
    if surfaceId in c.reg { RegistryEntry(h, surfaceId); }
    if id in c.reg { return -1; }
    if surfaceId !in c.reg { return -1; }
    var surface := c.reg[surfaceId].data;
    if c.mem[surface].body.viewport != NULL { return -1; }

    AtNothing(h, viewport);
    AtField(h, surface, SurfaceViewport);
    Link(c, id, surface, viewport);
    c.ObjectAdd(id, KViewport, viewport);
    NothingPointsAt(h, viewport);
    ViewportMade(h, c.H(), surface, viewport, id);
    return 0;
  }

  /** Lines 63 to 68. */
  method Link(c: Client, id: Id, surface: Ptr, viewport: Ptr)
    requires surface in c.mem && c.mem[surface].body.Surface? && surface != NULL && viewport != NULL
    requires viewport !in c.mem
    requires Target(c.H(), At(surface, SurfaceViewport)) == NULL && Target(c.H(), At(viewport, ViewportSurface)) == NULL
    modifies c`mem
    ensures var m := old(c.mem);
      c.mem == m[viewport := Block(2, Viewport(id, surface))][surface := Block(m[surface].refs + 1,
        m[surface].body.(viewport := viewport))]
    ensures forall q :: q != NULL ==> Extra(c.H(), q) == Extra(old(c.H()), q) + Is(q == viewport)
    ensures forall u ::
      Target(c.H(), u) == (
        if u == At(surface, SurfaceViewport) then viewport else if u == At(viewport, ViewportSurface) then surface
          else Target(old(c.H()), u))
  {
    hide Extra, In, Target;
    c.Alloc(viewport, Viewport(id, NULL));
    c.Set(viewport, ViewportSurface, surface);
    c.Ref(surface);
    c.Set(surface, SurfaceViewport, viewport);
    c.Ref(viewport);
  }

  lemma ViewportMade(h: Heap, h': Heap, s: Ptr, vp: Ptr, id: Id)
    requires CoreInv(h) && vp !in h.mem && vp != NULL && id !in h.reg && id != 0
    requires s != NULL && s in h.mem && h.mem[s].body.Surface? && h.mem[s].body.viewport == NULL
    requires h'.cbs == h.cbs && h'.reg == h.reg[id := Object(KViewport, vp)]
    requires h'.mem ==
      h.mem[vp := Block(2, Viewport(id, s))][s := Block(h.mem[s].refs + 1, h.mem[s].body.(viewport := vp))]
    requires forall u :: Target(h, u) != vp
    requires forall u ::
      Target(h', u) == (if u == Reg(id) ||
        u == At(s, SurfaceViewport) then vp else if u == At(vp, ViewportSurface) then s else Target(h, u))
    ensures CoreInv(h')
  {
    hide CoreInv, Roles, LinksMade, WellFormedBodies, Target;
    AtNothing(h, vp);
    AtField(h, s, SurfaceViewport);
    OneLinkMade(h, h', At(vp, ViewportSurface), s);
    CreationBodies(h, h', vp);
    CreationRoles(h, h', vp, id, KViewport);
    CreationKeepsCore(h, h', vp, id, KViewport, {At(vp, ViewportSurface), At(s, SurfaceViewport)});
  }
}
