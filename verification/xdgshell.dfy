/** `wayland/impl/xdg-shell.c`: the link between a surface and its xdg_surface, and the toplevel
    object that holds the xdg_surface a second time. Toplevel parents and popups are not modelled. */
module XdgShell {
  import opened Memory
  import opened Invariant
  import opened Erasure
  import opened Creation
  import opened ClientState

  // ---------------------------------------------------------------- xdg_wm_base_get_xdg_surface

  ghost predicate XdgSurfaceLinked(h: Heap, h': Heap, id: Id, surfaceId: Id, xs: Ptr) {
    && surfaceId in h.reg && h'.reg == h.reg[id := Object(KXdgSurface, xs)] && h'.mem.Keys == h.mem.Keys + {xs}
    && var s := h.reg[surfaceId].data;
    && h'.mem[xs].body == XdgSurface(id, s) && RolesKept(h, h')
    && (forall q :: q in h.mem ==> SameButLinks(h.mem[q].body, h'.mem[q].body))
    && forall u ::
      Target(h', u) == (
        if u == Reg(id) || u == At(s, SurfaceXdg) then xs
        else if u == At(xs, XdgSurfaceSurface) then s
        else Target(h, u))
  }

  /** `xs` is the address the allocator returns. The link a surface may already have is overwritten,
      and then the old xdg_surface keeps a count that nobody holds: the invariant survives exactly
      when there was none. */
  method XdgWmBaseGetXdgSurface(c: Client, id: Id, surfaceId: Id, xs: Ptr) returns (status: int)
    requires Inv(c.H()) && id != 0 && xs != NULL && xs !in c.mem
    requires surfaceId in c.reg ==> c.reg[surfaceId].kind == KSurface
    modifies c`mem, c`reg
    ensures status == 0 <==> id !in old(c.reg) && surfaceId in old(c.reg)
    ensures status != 0 ==> c.mem == old(c.mem) && c.reg == old(c.reg)
    ensures status == 0 ==>
      && XdgSurfaceLinked(old(c.H()), c.H(), id, surfaceId, xs)
      && (Inv(c.H()) <==> Target(old(c.H()), At(old(c.reg)[surfaceId].data, SurfaceXdg)) == NULL)
  {
    hide CoreInv, Extra, In, Target, Weakens, OutDegree, Holding, Drop;
    ghost var h := c.H();
    if surfaceId in c.reg { RegistryEntry(h, surfaceId); }
    if id in c.reg { return -1; }
    if surfaceId !in c.reg { return -1; }
    var surface := c.reg[surfaceId].data;
    NothingPointsAt(h, xs);
    AtNothing(h, xs);
    AtField(h, surface, SurfaceXdg);

    Link(c, id, surface, xs);
    c.ObjectAdd(id, KXdgSurface, xs);
    ghost var x := h.mem[surface].body.xdg;
    if x == NULL {
      XdgSurfaceMade(h, c.H(), surface, xs, id);
    } else {
      assert Extra(c.H(), x) == 1;
    }
    return 0;
  }

  method Link(c: Client, id: Id, surface: Ptr, xs: Ptr)
    requires surface in c.mem && c.mem[surface].body.Surface? && surface != NULL && xs != NULL && xs !in c.mem
    requires Target(c.H(), At(xs, XdgSurfaceSurface)) == NULL
    modifies c`mem
    ensures var m := old(c.mem);
      c.mem == m[xs := Block(2, XdgSurface(id, surface))][surface := Block(m[surface].refs + 1,
        m[surface].body.(xdg := xs))]
    ensures forall q :: q != NULL ==>
      Extra(c.H(), q) == Extra(old(c.H()), q) + Is(q == xs) + Is(Target(old(c.H()), At(surface, SurfaceXdg)) == q)
    ensures forall u ::
      Target(c.H(), u) == (
        if u == At(surface, SurfaceXdg) then xs else if u == At(xs, XdgSurfaceSurface) then surface
          else Target(old(c.H()), u))
  {
    hide Extra, In, Target;
    c.Alloc(xs, XdgSurface(id, NULL));
    c.Set(xs, XdgSurfaceSurface, surface);
    c.Ref(surface);
    c.Set(surface, SurfaceXdg, xs);
    c.Ref(xs);
  }

  lemma XdgSurfaceMade(h: Heap, h': Heap, s: Ptr, xs: Ptr, id: Id)
    requires CoreInv(h) && xs !in h.mem && xs != NULL && id !in h.reg && id != 0
    requires s != NULL && s in h.mem && h.mem[s].body.Surface? && h.mem[s].body.xdg == NULL
    requires h'.cbs == h.cbs && h'.reg == h.reg[id := Object(KXdgSurface, xs)]
    requires h'.mem ==
      h.mem[xs := Block(2, XdgSurface(id, s))][s := Block(h.mem[s].refs + 1, h.mem[s].body.(xdg := xs))]
    requires forall u :: Target(h, u) != xs
    requires forall u ::
      Target(h', u) == (if u == Reg(id) ||
        u == At(s, SurfaceXdg) then xs else if u == At(xs, XdgSurfaceSurface) then s else Target(h, u))
    ensures CoreInv(h')
  {
    hide CoreInv, Roles, LinksMade, WellFormedBodies, Target;
    AtNothing(h, xs);
    AtField(h, s, SurfaceXdg);
    OneLinkMade(h, h', At(xs, XdgSurfaceSurface), s);
    CreationBodies(h, h', xs);
    CreationRoles(h, h', xs, id, KXdgSurface);
    CreationKeepsCore(h, h', xs, id, KXdgSurface, {At(xs, XdgSurfaceSurface), At(s, SurfaceXdg)});
  }

  // ---------------------------------------------------------------- xdg_surface_get_toplevel

  /** The xdg_surface has a second entry, and its surface is a toplevel. */
  ghost predicate ToplevelCreated(h: Heap, h': Heap, xdgId: Id, id: Id) {
    && xdgId in h.reg
    && var x := h.reg[xdgId].data;
    && h'.reg == h.reg[id := Object(KToplevel, x)] && h'.mem.Keys == h.mem.Keys
    && (forall q :: q in h'.mem ==> SameButRole(h.mem[q].body, h'.mem[q].body))
    && RoleOfXdg(h', x) == ToplevelRole && RolesKeptBut(h, h', SurfaceOfXdg(h, x))
    && forall u :: Target(h', u) == if u == Reg(id) then x else Target(h, u)
  }

  /** xdg_surface_get_toplevel reads the role of the surface without asking whether it still is there.
      It gets that far exactly when the new id is free. */
  method XdgSurfaceGetToplevel(c: Client, xdgId: Id, id: Id) returns (status: int)
    requires Inv(c.H()) && xdgId in c.reg && c.reg[xdgId].kind == KXdgSurface && id != 0
    requires id in c.reg || HasSurface(c.H(), c.reg[xdgId].data)
    modifies c`mem, c`reg
    ensures Inv(c.H())
    ensures status == 0 <==> id !in old(c.reg) && RoleOfXdg(old(c.H()), old(c.reg)[xdgId].data) == NoRole
    ensures status != 0 ==> c.mem == old(c.mem) && c.reg == old(c.reg)
    ensures status == 0 ==> ToplevelCreated(old(c.H()), c.H(), xdgId, id)
  {
    hide CoreInv, Extra, In, Target, Weakens;
    ghost var h := c.H();
    RegistryEntry(h, xdgId);
    if id in c.reg { return -1; }
    var xdgSurface := c.reg[xdgId].data;
    var surface := c.mem[xdgSurface].body.surface;
    AtField(h, xdgSurface, XdgSurfaceSurface);
    LinkEnds(h, At(xdgSurface, XdgSurfaceSurface));
    if c.mem[surface].body.role != NoRole { return -1; }
    c.SetRole(surface, ToplevelRole);
    c.Ref(xdgSurface);
    c.ObjectAdd(id, KToplevel, xdgSurface);
    ToplevelMade(h, c.H(), xdgSurface, surface, id);
    return 0;
  }

  function RoleOfXdg(h: Heap, x: Ptr): Role {
    if HasSurface(h, x) && h.mem[x].body.surface in h.mem && h.mem[h.mem[x].body.surface].body.Surface?
    then h.mem[h.mem[x].body.surface].body.role else NoRole
  }

  lemma ToplevelMade(h: Heap, h': Heap, x: Ptr, s: Ptr, id: Id)
    requires CoreInv(h) && id !in h.reg && id != 0 && x in h.mem && x != NULL && h.mem[x].body.XdgSurface?
    requires h.mem[x].body.surface == s != NULL
    requires s in h.mem && h.mem[s].body.Surface? && h.mem[s].body.role == NoRole
    requires h'.cbs == h.cbs && h'.reg == h.reg[id := Object(KToplevel, x)]
    requires h'.mem ==
      h.mem[s := Block(h.mem[s].refs, h.mem[s].body.(role := ToplevelRole))][x := Block(h.mem[x].refs + 1,
        h.mem[x].body)]
    requires forall u :: Target(h', u) == if u == Reg(id) then x else Target(h, u)
    ensures CoreInv(h')
  {
    hide Mutual, Typed, Registered, Named, Roles, Waiting, Callbacks, WellFormedBodies, Target;
    ToplevelMadeRegistry(h, h', x, s, id);
    ToplevelMadeTyped(h, h', x, id);
    ToplevelMadeRoles(h, h', x, s, id);
    ExtensionCallbacks(h, h', {});
    ExtensionWaiting(h, h', {});
  }

  lemma ToplevelMadeRegistry(h: Heap, h': Heap, x: Ptr, s: Ptr, id: Id)
    requires CoreInv(h) && id !in h.reg && id != 0 && x in h.mem && x != NULL && h.mem[x].body.XdgSurface?
    requires s in h.mem && h.mem[s].body.Surface? && h'.reg == h.reg[id := Object(KToplevel, x)]
    requires h'.mem ==
      h.mem[s := Block(h.mem[s].refs, h.mem[s].body.(role := ToplevelRole))][x := Block(h.mem[x].refs + 1,
        h.mem[x].body)]
    ensures Registered(h') && Named(h') && WellFormedBodies(h')
  {
    hide Mutual, Typed, Roles, Waiting, Callbacks, Target;
  }

  lemma ToplevelMadeTyped(h: Heap, h': Heap, x: Ptr, id: Id)
    requires CoreInv(h) && id !in h.reg && x in h.mem && h.mem[x].body.XdgSurface?
    requires h'.reg == h.reg[id := Object(KToplevel, x)]
    requires Extends(h, h', {})
    requires forall u :: Target(h', u) == if u == Reg(id) then x else Target(h, u)
    ensures Typed(h') && Mutual(h')
  {
    forall u | Target(h', u) in h'.mem
      ensures Fits(h', u, h'.mem[Target(h', u)].body)
    {
      if u != Reg(id) { assert Fits(h, u, h.mem[Target(h, u)].body); }
    }
    forall u | Linked(u) && Target(h', u) != NULL
      ensures Target(h', Back(u, Target(h', u))) == u.owner
    {
      BackOfBack(h, u);
    }
  }

  lemma ToplevelMadeRoles(h: Heap, h': Heap, x: Ptr, s: Ptr, id: Id)
    requires CoreInv(h) && id !in h.reg && x in h.mem && h.mem[x].body.XdgSurface? && h.mem[x].body.surface == s != NULL
    requires s in h.mem && h.mem[s].body.Surface? && h.mem[s].body.role == NoRole
    requires h'.reg == h.reg[id := Object(KToplevel, x)]
    requires h'.mem ==
      h.mem[s := Block(h.mem[s].refs, h.mem[s].body.(role := ToplevelRole))][x := Block(h.mem[x].refs + 1,
        h.mem[x].body)]
    ensures Roles(h')
  {
    hide Mutual, Typed, Registered, Waiting, Callbacks, WellFormedBodies, Target;
    forall i | i in h.reg && h.reg[i].kind == KToplevel && HasSurface(h, h.reg[i].data)
      ensures h.reg[i].data != x && ToplevelRoleOk(h', h.reg[i].data)
    {
      var y := h.reg[i].data;
      assert ToplevelRoleOk(h, y);
      AtField(h, y, XdgSurfaceSurface);
      LinkEnds(h, At(y, XdgSurfaceSurface));
    }
  }

  // ---------------------------------------------------------------- xdg_surface_destroy

  method Unlink(c: Client, xs: Ptr)
    requires Inv(c.H()) && xs in c.mem && c.mem[xs].body.XdgSurface?
    modifies c`mem
    ensures Inv(c.H()) && c.mem.Keys == old(c.mem).Keys
    ensures Unlinked(old(c.H()), c.H(), At(xs, XdgSurfaceSurface))
    ensures Weakens(old(c.H()), c.H()) && RolesKept(old(c.H()), c.H())
    ensures xs in c.mem && c.mem[xs].body == XdgSurface(old(c.mem)[xs].body.obj, NULL)
  {
    hide CoreInv, Extra, In, Target, Weakens, RolesKept, Shrinks;
    ghost var h := c.H();
    var surface := c.mem[xs].body.surface;
    AtField(h, xs, XdgSurfaceSurface);
    if surface != NULL {
      LinkEnds(h, At(xs, XdgSurfaceSurface));
      ObjectOf(h, surface);
      ObjectOf(h, xs);
      c.Set(surface, SurfaceXdg, NULL);
      ghost var h1 := c.H();
      HeldTwice(h1, Reg(c.mem[surface].body.obj), At(xs, XdgSurfaceSurface));
      c.UnrefShared(surface);
      ghost var h2 := c.H();
      c.Set(xs, XdgSurfaceSurface, NULL);
      ghost var h3 := c.H();
      HeldOnce(h3, Reg(c.mem[xs].body.obj));
      c.UnrefShared(xs);
      WeakensTwice(h, h1, h2);
      WeakensTwice(h, h2, h3);
      WeakensTwice(h, h3, c.H());
      UnlinkKeepsCore(h, c.H(), At(xs, XdgSurfaceSurface));
    } else {
      WeakensSelf(h);
    }
  }

  /** The entry and both ends of the link are gone, and at most the xdg_surface with them. */
  ghost predicate XdgSurfaceDestroyed(h: Heap, h': Heap, id: Id) {
    && id in h.reg && h'.reg == h.reg - {id} && Weakens(h, h')
    && var x := h.reg[id].data;
    && h'.mem.Keys - {x} == h.mem.Keys - {x} && RolesKept(h, h')
    && forall u ::
      Target(h', u) == (
        if u == Reg(id) || u == At(x, XdgSurfaceSurface) || u == At(Target(h, At(x, XdgSurfaceSurface)), SurfaceXdg)
        then NULL else Target(h, u))
  }

  method XdgSurfaceDestroy(c: Client, id: Id)
    requires Inv(c.H()) && id in c.reg && c.reg[id].kind == KXdgSurface
    modifies c`mem, c`reg, c`sent
    ensures Inv(c.H())
    ensures XdgSurfaceDestroyed(old(c.H()), c.H(), id) && c.sent == old(c.sent) + DeletedId(id)
  {
    hide CoreInv, Extra, In, Target, Weakens, RolesKept, OutDegree, Holding, Drop;
    RegistryEntry(c.H(), id);
    var xdgSurface := c.reg[id].data;
    AtField(c.H(), xdgSurface, XdgSurfaceSurface);
    if c.mem[xdgSurface].body.surface == NULL { NoXdgOfNull(c.H()); }
    Unlink(c, xdgSurface);
    ghost var h := c.H();
    RegistryEntry(h, id);
    XdgHolders(h, xdgSurface);
    var _ := c.ObjectDel(id);
    forall q | q != NULL ensures Extra(c.H(), q) == 0 {
      UnlinkedOut(h.mem[xdgSurface].body, q);
    }
    WeakensTwice(old(c.H()), h, c.H());
    DeletionKeepsInv(h, c.H(), id, xdgSurface);
  }

  lemma NoXdgOfNull(h: Heap)
    requires CoreInv(h)
    ensures Target(h, At(NULL, SurfaceXdg)) == NULL
  {
  }

  /** An xdg_surface whose surface is gone stores no pointer and is in no link. */
  lemma XdgHolders(h: Heap, x: Ptr)
    requires CoreInv(h) && x in h.mem && h.mem[x].body.XdgSurface? && h.mem[x].body.surface == NULL
    ensures forall t :: Owns(t, x) ==> Target(h, t) == NULL
    ensures forall t :: Linked(t) ==> Target(h, t) != x
  {
    forall t | Linked(t) && Target(h, t) == x ensures false {
      LinkEnds(h, t);
    }
  }

  // ---------------------------------------------------------------- xdg_toplevel_destroy

  /** The toplevel's entry is gone, the surface has no role, and at most the xdg_surface is freed. */
  ghost predicate ToplevelDestroyed(h: Heap, h': Heap, id: Id) {
    && id in h.reg && h'.reg == h.reg - {id} && Weakens(h, h')
    && var x := h.reg[id].data;
    && h'.mem.Keys - {x} == h.mem.Keys - {x} && RoleOfXdg(h', x) == NoRole
    && RolesKeptBut(h, h', SurfaceOfXdg(h, x))
    && forall u :: Target(h', u) == if u == Reg(id) then NULL else Target(h, u)
  }

  method XdgToplevelDestroy(c: Client, id: Id)
    requires Inv(c.H()) && id in c.reg && c.reg[id].kind == KToplevel
    modifies c`mem, c`reg, c`sent
    ensures Inv(c.H())
    ensures ToplevelDestroyed(old(c.H()), c.H(), id) && c.sent == old(c.sent) + DeletedId(id)
  {
    hide CoreInv, Extra, In, Target, Weakens, RolesKept, OutDegree, Holding, Live, Roles, GivenBack;
    ghost var h := c.H();
    RegistryEntry(h, id);
    var xdgSurface := c.reg[id].data;
    ClearRole(c, xdgSurface, id);
    ghost var h1 := c.H();
    var _ := c.ObjectDel(id);
    WeakensTwice(h, h1, c.H());
    NothingGivenBack(h1, xdgSurface, h1.mem[xdgSurface].body.surface);
    ToplevelRolesAfter(h, c.H(), xdgSurface, id);
    DeletionKeepsInv(h, c.H(), id, xdgSurface);
  }

  /** The surface, if it is still there, loses its role; then the xdg_surface outlives its toplevel. */
  method ClearRole(c: Client, xs: Ptr, ghost id: Id)
    requires Inv(c.H()) && id in c.reg && c.reg[id] == Object(KToplevel, xs) && xs in c.mem
    requires c.mem[xs].body.XdgSurface?
    modifies c`mem
    ensures c.mem.Keys == old(c.mem).Keys && c.mem[xs] == old(c.mem)[xs] && Weakens(old(c.H()), c.H())
    ensures Refs(c.H(), xs) >= 1
    ensures (c.mem[xs].body.surface != NULL ==> Refs(c.H(), xs) >= 2 && c.mem[xs].body.surface in c.mem)
    ensures forall q :: q in c.mem ==> SameButRole(old(c.mem)[q].body, c.mem[q].body)
    ensures forall q :: q in c.mem && q != c.mem[xs].body.surface ==> c.mem[q].body == old(c.mem)[q].body
    ensures RoleOfXdg(c.H(), xs) == NoRole && RolesKeptBut(old(c.H()), c.H(), SurfaceOfXdg(old(c.H()), xs))
    ensures forall q :: q != NULL ==> Extra(c.H(), q) == 0
    ensures forall u :: Target(c.H(), u) == Target(old(c.H()), u)
    ensures c.mem[xs].body.surface == NULL ==> forall u :: Owns(u, xs) ==> Target(c.H(), u) == NULL
    ensures c.mem[xs].body.surface == NULL ==> forall u :: Linked(u) ==> Target(c.H(), u) != xs
  {
    hide CoreInv, Extra, In, Target, Weakens, RolesKept;
    ghost var h := c.H();
    RegistryEntry(h, id);
    var surface := c.mem[xs].body.surface;
    AtField(h, xs, XdgSurfaceSurface);
    if surface != NULL {
      LinkEnds(h, At(xs, XdgSurfaceSurface));
      ObjectOf(h, xs);
      c.SetRole(surface, NoRole);
      HeldTwice(c.H(), Reg(id), Reg(c.mem[xs].body.obj));
    } else {
      WeakensSelf(h);
      XdgHolders(h, xs);
    }
  }

  lemma NothingGivenBack(h: Heap, x: Ptr, s: Ptr)
    requires x in h.mem && h.mem[x].body.XdgSurface? && s == h.mem[x].body.surface
    ensures s == NULL || !Freed(h.mem, x) ==> forall q :: q != NULL ==> GivenBack(h.mem, x, q) == 0
  {
    forall q | q != NULL && s == NULL ensures GivenBack(h.mem, x, q) == 0 { UnlinkedOut(h.mem[x].body, q); }
  }

  lemma ToplevelRolesAfter(h: Heap, h': Heap, x: Ptr, id: Id)
    requires CoreInv(h) && id in h.reg && h.reg[id] == Object(KToplevel, x) && h'.reg == h.reg - {id}
    requires forall q :: q in h'.mem ==> q in h.mem && SameButRole(h.mem[q].body, h'.mem[q].body)
    requires forall q :: q in h'.mem && q in h.mem && h.mem[q].body.Surface? && q != SurfaceOfXdg(h, x) ==>
      h'.mem[q].body == h.mem[q].body
    ensures Roles(h')
  {
    forall p | p in h'.mem && h'.mem[p].body.Surface? && h'.mem[p].body.subsurface != NULL
      ensures h'.mem[p].body.role == SubsurfaceRole
    {
      assert ToplevelRoleOk(h, x);
    }
    forall i | i in h'.reg && h'.reg[i].kind == KToplevel && HasSurface(h', h'.reg[i].data)
      ensures HasSurface(h, h'.reg[i].data) && ToplevelRoleOk(h', h'.reg[i].data)
    {
      var y := h.reg[i].data;
      assert ToplevelRoleOk(h, y);
      assert y != x;
      OneXdgPerSurface(h, x, y);
    }
  }

  predicate SameButRole(a: Body, b: Body) {
    if a.Surface? then b.Surface? && a.(role := b.role) == b else a == b
  }

  function SurfaceOfXdg(h: Heap, x: Ptr): Ptr {
    if x in h.mem && h.mem[x].body.XdgSurface? then h.mem[x].body.surface else NULL
  }

  /** Different xdg_surfaces have different surfaces. */
  lemma OneXdgPerSurface(h: Heap, x: Ptr, y: Ptr)
    requires CoreInv(h) && x != y && HasSurface(h, y)
    ensures SurfaceOfXdg(h, x) != SurfaceOfXdg(h, y)
  {
    AtField(h, y, XdgSurfaceSurface);
    LinkEnds(h, At(y, XdgSurfaceSurface));
    if SurfaceOfXdg(h, x) == SurfaceOfXdg(h, y) {
      AtField(h, x, XdgSurfaceSurface);
      LinkEnds(h, At(x, XdgSurfaceSurface));
    }
  }
}
