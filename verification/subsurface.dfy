/** `wayland/impl/wayland.c`: a subsurface ties a surface to its parent, with counted pointers in
    all four directions. */
module SubsurfaceLinks {
  import opened ListSpec
  import opened Memory
  import opened Invariant
  import opened Erasure
  import opened Creation
  import opened ClientState

  /** wl_subcompositor_get_subsurface; `ss` is the address the allocator returns. */
  method WlSubcompositorGetSubsurface(c: Client, id: Id, surfaceId: Id, parentId: Id, ss: Ptr) returns (status: int)
    requires Inv(c.H()) && id != 0 && ss != NULL && ss !in c.mem
    requires surfaceId in c.reg ==> c.reg[surfaceId].kind == KSurface
    requires parentId in c.reg ==> c.reg[parentId].kind == KSurface
    modifies c`mem, c`reg
    ensures Inv(c.H())
    ensures status == 0 <==>
      && id !in old(c.reg) && surfaceId in old(c.reg) && parentId in old(c.reg)
      && old(c.reg)[surfaceId].data != old(c.reg)[parentId].data
      && RoleOf(old(c.H()), old(c.reg)[surfaceId].data) == NoRole
    ensures status != 0 ==> c.mem == old(c.mem) && c.reg == old(c.reg)
    ensures status == 0 ==>
      SubsurfaceLinked(old(c.H()), c.H(), old(c.reg)[surfaceId].data, old(c.reg)[parentId].data, ss, id)
  {
    hide CoreInv, Extra, In, Target, WellFormedBodies, Roles, Live, SubsurfaceLinked, Balanced;
    if surfaceId in c.reg { RegistryEntry(c.H(), surfaceId); }
    if parentId in c.reg { RegistryEntry(c.H(), parentId); }
    if id in c.reg { return -1; }
    if surfaceId !in c.reg || parentId !in c.reg { return -1; }
    var surface := c.reg[surfaceId].data;
    var parent := c.reg[parentId].data;
    if surface == parent || c.mem[surface].body.role != NoRole {
      ghost var m := c.mem;
      c.Alloc(ss, Subsurface(id, NULL, NULL, false));
      c.Unref(ss);
      assert c.mem == m;
      return -1;
    }
    Create(c, id, surface, parent, ss);
    return 0;
  }

  /** The part of get_subsurface past the error checks. */
  method Create(c: Client, id: Id, surface: Ptr, parent: Ptr, ss: Ptr)
    requires Inv(c.H()) && id != 0 && id !in c.reg && ss != NULL && ss !in c.mem
    requires surface in c.mem && c.mem[surface].body.Surface? && c.mem[surface].body.role == NoRole && surface != NULL
    requires parent in c.mem && c.mem[parent].body.Surface? && parent != surface && parent != NULL
    modifies c`mem, c`reg
    ensures Inv(c.H()) && SubsurfaceLinked(old(c.H()), c.H(), surface, parent, ss, id)
  {
    hide CoreInv, Extra, In, Target, Weakens, SubsurfaceBlocks, RolesKept, Live, RoleOf, ChildrenOf;
    ghost var h := c.H();
    SurfaceWithoutRole(h, surface);
    NothingPointsAt(h, ss);
    AtNothing(h, ss);
    ChildrenAreSubsurfaces(h, surface, parent);
    ChildrenAreSubsurfaces(h, parent, ss);

    c.Alloc(ss, Subsurface(id, NULL, NULL, true));
    LinkAndAdopt(c, surface, parent, ss);
    c.ObjectAdd(id, KSubsurface, ss);
    SubsurfaceBlocksMade(h, c.H(), surface, parent, ss, id);
    SubsurfaceMade(h, c.H(), surface, parent, ss, id);
  }

  /** Lines 569 to 590. The search of line 581 looks for a surface among subsurfaces and finds nothing. */
  method LinkAndAdopt(c: Client, surface: Ptr, parent: Ptr, ss: Ptr)
    requires surface in c.mem && c.mem[surface].body.Surface? && parent in c.mem && c.mem[parent].body.Surface?
    requires ss in c.mem && c.mem[ss].body.Subsurface? && surface != parent && surface != NULL && parent != NULL
    requires ss != NULL
    requires Target(c.H(), At(ss, SubsurfaceParent)) == NULL && Target(c.H(), At(ss, SubsurfaceSurface)) == NULL
    requires Target(c.H(), At(surface, SurfaceSubsurface)) == NULL
    requires ss !in c.mem[parent].body.children && parent !in c.mem[surface].body.children
    modifies c`mem
    ensures var m := old(c.mem);
      c.mem == m[ss := Block(m[ss].refs + 2, Subsurface(m[ss].body.obj, surface, parent, m[ss].body.sync))]
               [surface := Block(m[surface].refs + 1, m[surface].body.(subsurface := ss, role := SubsurfaceRole))]
               [parent := Block(m[parent].refs + 1, m[parent].body.(children := m[parent].body.children + [ss]))]
    ensures forall q :: q != NULL ==> Extra(c.H(), q) == Extra(old(c.H()), q)
    ensures forall u ::
      Target(c.H(), u) == (
        if u == At(ss, SubsurfaceParent) then parent else if u == At(ss, SubsurfaceSurface) then surface
        else if u == At(surface, SurfaceSubsurface) || u == Child(parent, ss) then ss else Target(old(c.H()), u))
  {
    hide Extra, In, Target;
    Link(c, surface, parent, ss);
    c.SetRole(surface, SubsurfaceRole);
    if parent in c.mem[surface].body.children { assert false; }
    Adopt(c, parent, ss);
  }

  /** The pointer assignments and counts of lines 570 to 577. */
  method Link(c: Client, surface: Ptr, parent: Ptr, ss: Ptr)
    requires surface in c.mem && c.mem[surface].body.Surface? && parent in c.mem && c.mem[parent].body.Surface?
    requires ss in c.mem && c.mem[ss].body.Subsurface? && surface != parent && surface != NULL && parent != NULL
    requires ss != NULL
    requires Target(c.H(), At(ss, SubsurfaceParent)) == NULL && Target(c.H(), At(ss, SubsurfaceSurface)) == NULL
    requires Target(c.H(), At(surface, SurfaceSubsurface)) == NULL
    modifies c`mem
    ensures var m := old(c.mem);
      c.mem == m[ss := Block(m[ss].refs + 1, Subsurface(m[ss].body.obj, surface, parent, m[ss].body.sync))]
               [surface := Block(m[surface].refs + 1, m[surface].body.(subsurface := ss))]
               [parent := Block(m[parent].refs + 1, m[parent].body)]
    ensures forall q :: q != NULL ==> Extra(c.H(), q) == Extra(old(c.H()), q)
    ensures forall u ::
      Target(c.H(), u) == (
        if u == At(ss, SubsurfaceParent) then parent else if u == At(ss, SubsurfaceSurface) then surface
        else if u == At(surface, SurfaceSubsurface) then ss else Target(old(c.H()), u))
  {
    hide Extra, In, Target;
    c.Set(ss, SubsurfaceParent, parent);
    c.Ref(parent);
    c.Set(surface, SurfaceSubsurface, ss);
    c.Ref(ss);
    c.Set(ss, SubsurfaceSurface, surface);
    c.Ref(surface);
  }

  /** Lines 586 to 590: the parent's list of children holds a counted pointer too. */
  method Adopt(c: Client, parent: Ptr, ss: Ptr)
    requires parent in c.mem && c.mem[parent].body.Surface? && ss != NULL && ss in c.mem && ss != parent
    requires ss !in c.mem[parent].body.children
    modifies c`mem
    ensures var m := old(c.mem);
      c.mem == m[ss := Block(m[ss].refs + 1, m[ss].body)]
               [parent := Block(m[parent].refs, m[parent].body.(children := m[parent].body.children + [ss]))]
    ensures forall q :: q != NULL ==> Extra(c.H(), q) == Extra(old(c.H()), q)
    ensures forall u :: Target(c.H(), u) == if u == Child(parent, ss) then ss else Target(old(c.H()), u)
  {
    hide Extra, In, Target;
    c.ChildPush(parent, ss);
    c.Ref(ss);
  }

  function RoleOf(h: Heap, s: Ptr): Role {
    if s in h.mem && h.mem[s].body.Surface? then h.mem[s].body.role else NoRole
  }

  /** Surface s has its role, p has a last child more, and everything else about the blocks is as before. */
  predicate SubsurfaceBlocks(h: Heap, h': Heap, s: Ptr, p: Ptr, ss: Ptr) {
    && h'.mem.Keys == h.mem.Keys + {ss}
    && RoleOf(h', s) == SubsurfaceRole
    && (forall q :: q in h.mem ==>
      SameButLinks(h.mem[q].body, h'.mem[q].body) && (q != s ==> RoleOf(h', q) == RoleOf(h, q)))
    && ChildrenOf(h'.mem, p) == ChildrenOf(h.mem, p) + [ss]
  }

  lemma SubsurfaceBlocksMade(h: Heap, h': Heap, s: Ptr, p: Ptr, ss: Ptr, id: Id)
    requires ss !in h.mem && s in h.mem && h.mem[s].body.Surface? && p in h.mem && h.mem[p].body.Surface? && s != p
    requires h'.mem == h.mem[ss := Block(3, Subsurface(id, s, p, true))]
      [s := Block(h.mem[s].refs + 1, h.mem[s].body.(subsurface := ss, role := SubsurfaceRole))]
      [p := Block(h.mem[p].refs + 1, h.mem[p].body.(children := h.mem[p].body.children + [ss]))]
    ensures SubsurfaceBlocks(h, h', s, p, ss)
  {
  }

  ghost predicate SubsurfaceLinked(h: Heap, h': Heap, s: Ptr, p: Ptr, ss: Ptr, id: Id) {
    && h'.reg == h.reg[id := Object(KSubsurface, ss)]
    && SubsurfaceBlocks(h, h', s, p, ss)
    && h'.mem[ss].body == Subsurface(id, s, p, true)
    && forall u ::
      Target(h', u) == (
        if u == Reg(id) || u == At(s, SurfaceSubsurface) || u == Child(p, ss) then ss
        else if u == At(ss, SubsurfaceSurface) then s
        else if u == At(ss, SubsurfaceParent) then p
        else Target(h, u))
  }

  lemma SurfaceWithoutRole(h: Heap, s: Ptr)
    requires CoreInv(h) && s in h.mem && h.mem[s].body.Surface?
    ensures Target(h, At(s, SurfaceSubsurface)) == h.mem[s].body.subsurface
    ensures h.mem[s].body.role == NoRole ==> h.mem[s].body.subsurface == NULL
  {
  }

  /** The list of children holds subsurfaces, so searching it for a surface, or for an address that
      is not allocated, finds nothing. */
  lemma ChildrenAreSubsurfaces(h: Heap, s: Ptr, p: Ptr)
    requires CoreInv(h) && s in h.mem && h.mem[s].body.Surface? && p != NULL
    requires p in h.mem ==> !h.mem[p].body.Subsurface?
    ensures p !in h.mem[s].body.children
  {
    if p in h.mem[s].body.children {
      assert Target(h, Child(s, p)) == p;
      LinkEnds(h, Child(s, p));
    }
  }

  lemma SubsurfaceMade(h: Heap, h': Heap, s: Ptr, p: Ptr, ss: Ptr, id: Id)
    requires CoreInv(h) && ss !in h.mem && ss != NULL && id !in h.reg && id != 0 && s != NULL && p != NULL && s != p
    requires s in h.mem && h.mem[s].body.Surface? && h.mem[s].body.subsurface == NULL && h.mem[s].body.role == NoRole
    requires p in h.mem && h.mem[p].body.Surface? && ss !in h.mem[p].body.children
    requires h'.cbs == h.cbs
    requires h'.mem == h.mem[ss := Block(3, Subsurface(id, s, p, true))]
      [s := Block(h.mem[s].refs + 1, h.mem[s].body.(subsurface := ss, role := SubsurfaceRole))]
      [p := Block(h.mem[p].refs + 1, h.mem[p].body.(children := h.mem[p].body.children + [ss]))]
    requires SubsurfaceLinked(h, h', s, p, ss, id)
    requires forall u :: Target(h, u) != ss
    ensures CoreInv(h')
  {
    hide CoreInv, Roles, WellFormedBodies, Target, Extends, LinksMade;
    AtNothing(h, ss);
    AtField(h, s, SurfaceSubsurface);
    var made := {At(s, SurfaceSubsurface), At(ss, SubsurfaceSurface), At(ss, SubsurfaceParent), Child(p, ss)};
    ChildOf(h, p, ss);
    KidsDistinct(h, p);
    SubsurfaceExtends(h, h', s, p, ss, id);
    SubsurfaceLinksMade(h, h', s, p, ss, id);
    CreationBodies(h, h', ss);
    SubsurfaceRoles(h, h', s, p, ss, id);
    CreationKeepsCore(h, h', ss, id, KSubsurface, made);
  }

  lemma SubsurfaceLinksMade(h: Heap, h': Heap, s: Ptr, p: Ptr, ss: Ptr, id: Id)
    requires SubsurfaceLinked(h, h', s, p, ss, id) && s != NULL && p != NULL && ss != NULL
    requires Target(h, At(s, SurfaceSubsurface)) == NULL && Target(h, Child(p, ss)) == NULL
    requires Target(h, At(ss, SubsurfaceSurface)) == NULL && Target(h, At(ss, SubsurfaceParent)) == NULL
    ensures LinksMade(h, h',
      {At(s, SurfaceSubsurface), At(ss, SubsurfaceSurface), At(ss, SubsurfaceParent), Child(p, ss)})
  {
    hide Target, RoleOf, SubsurfaceBlocks;
  }

  lemma SubsurfaceExtends(h: Heap, h': Heap, s: Ptr, p: Ptr, ss: Ptr, id: Id)
    requires s in h.mem && h.mem[s].body.Surface? && p in h.mem && h.mem[p].body.Surface? && ss !in h.mem && ss != NULL
    requires s != p
    requires h'.cbs == h.cbs && forall i :: i in h.reg ==> i in h'.reg && h'.reg[i] == h.reg[i]
    requires h'.mem == h.mem[ss := Block(3, Subsurface(id, s, p, true))]
      [s := Block(h.mem[s].refs + 1, h.mem[s].body.(subsurface := ss, role := SubsurfaceRole))]
      [p := Block(h.mem[p].refs + 1, h.mem[p].body.(children := h.mem[p].body.children + [ss]))]
    ensures Extends(h, h', {ss})
  {
  }

  lemma ChildOf(h: Heap, p: Ptr, ss: Ptr)
    requires p in h.mem && h.mem[p].body.Surface?
    ensures Target(h, Child(p, ss)) == if ss in h.mem[p].body.children then ss else NULL
  {
  }

  lemma KidsDistinct(h: Heap, p: Ptr)
    requires CoreInv(h) && p in h.mem && h.mem[p].body.Surface?
    ensures NoDuplicates(h.mem[p].body.children) && NULL !in h.mem[p].body.children
  {
  }

  lemma SubsurfaceRoles(h: Heap, h': Heap, s: Ptr, p: Ptr, ss: Ptr, id: Id)
    requires CoreInv(h) && ss !in h.mem && id !in h.reg && s in h.mem && h.mem[s].body.Surface?
    requires h.mem[s].body.role == NoRole
    requires p in h.mem && h.mem[p].body.Surface? && p != s
    requires h'.reg == h.reg[id := Object(KSubsurface, ss)]
    requires h'.mem == h.mem[ss := Block(3, Subsurface(id, s, p, true))]
      [s := Block(h.mem[s].refs + 1, h.mem[s].body.(subsurface := ss, role := SubsurfaceRole))]
      [p := Block(h.mem[p].refs + 1, h.mem[p].body.(children := h.mem[p].body.children + [ss]))]
    ensures Roles(h')
  {
    hide Typed, Mutual, Registered, Callbacks, Waiting, WellFormedBodies, Target;
    forall i | i in h'.reg && h'.reg[i].kind == KToplevel && HasSurface(h', h'.reg[i].data)
      ensures HasSurface(h, h'.reg[i].data) && ToplevelRoleOk(h', h'.reg[i].data)
    {
      var x := h.reg[i].data;
      assert ToplevelRoleOk(h, x) && x in h.mem;
      AtField(h, x, XdgSurfaceSurface);
      LinkEnds(h, At(x, XdgSurfaceSurface));
    }
  }

  // ---------------------------------------------------------------- wl_subsurface_destroy

  /** The subsurface leaves its parent's list, and two counts go. Its own `parent` field stays, so
      until it is freed the parent is one count short. */
  method LeaveParent(c: Client, ss: Ptr)
    requires Inv(c.H()) && ss in c.mem && c.mem[ss].body.Subsurface?
    modifies c`mem
    ensures c.mem.Keys == old(c.mem).Keys && Weakens(old(c.H()), c.H()) && RolesKept(old(c.H()), c.H()) && Live(c.H())
    ensures forall q :: q in c.mem && q != old(c.mem)[ss].body.parent ==> c.mem[q].body == old(c.mem)[q].body
    ensures c.mem[ss].body == old(c.mem)[ss].body
    ensures forall q :: q != NULL ==> Extra(c.H(), q) == 0 - Is(q == c.mem[ss].body.parent)
    ensures forall u ::
      Target(c.H(), u) == if u == Child(c.mem[ss].body.parent, ss) then NULL else Target(old(c.H()), u)
  {
    hide CoreInv, Extra, In, Target, Weakens, RolesKept, Live;
    ghost var h := c.H();
    var parent := c.mem[ss].body.parent;
    AtField(h, ss, SubsurfaceParent);
    NoChildOfNull(h, ss);
    AlwaysLive(h);
    if parent != NULL {
      LinkEnds(h, At(ss, SubsurfaceParent));
      ObjectOf(h, ss);
      ObjectOf(h, parent);
      KidsDistinct(h, parent);
      ChildOf(h, parent, ss);
      c.ChildRemove(parent, ss);
      ghost var h1 := c.H();
      HeldOnce(h1, Reg(c.mem[ss].body.obj));
      c.UnrefShared(ss);
      ghost var h2 := c.H();
      HeldTwice(h2, Reg(c.mem[parent].body.obj), At(ss, SubsurfaceParent));
      c.UnrefShared(parent);
      WeakensTwice(h, h1, h2);
      WeakensTwice(h, h2, c.H());
      WeakensLive(h, c.H());
    } else {
      WeakensSelf(h);
    }
  }

  lemma NoChildOfNull(h: Heap, ss: Ptr)
    requires CoreInv(h)
    ensures Target(h, Child(NULL, ss)) == NULL
  {
  }

  /** The surface forgets its role and its subsurface, and two counts go. */
  method LeaveSurface(c: Client, ss: Ptr)
    requires ss in c.mem && c.mem[ss].body.Subsurface? && ss != NULL && NULL !in c.mem && Live(c.H())
    requires Target(c.H(), Reg(c.mem[ss].body.obj)) == ss
    requires var s := c.mem[ss].body.surface; s != NULL ==>
      && s in c.mem && c.mem[s].body.Surface?
      && Target(c.H(), At(ss, SubsurfaceSurface)) == s && Target(c.H(), At(s, SurfaceSubsurface)) == ss
      && Target(c.H(), Reg(c.mem[s].body.obj)) == s && Extra(c.H(), s) == 0 && Extra(c.H(), ss) == 0
    requires c.mem[ss].body.surface == NULL ==> Target(c.H(), At(NULL, SurfaceSubsurface)) == NULL
    modifies c`mem
    ensures c.mem.Keys == old(c.mem).Keys && Weakens(old(c.H()), c.H())
    ensures c.mem[ss].body == old(c.mem)[ss].body
    ensures forall q :: q in c.mem && q != c.mem[ss].body.surface ==> c.mem[q].body == old(c.mem)[q].body
    ensures RoleOf(c.H(), c.mem[ss].body.surface) == NoRole
    ensures forall q :: q != NULL ==> Extra(c.H(), q) == Extra(old(c.H()), q) - Is(q == c.mem[ss].body.surface)
    ensures forall u ::
      Target(c.H(), u) == if u == At(c.mem[ss].body.surface, SurfaceSubsurface) then NULL else Target(old(c.H()), u)
  {
    hide Extra, In, Target, Weakens, Drop, OutDegree, Holding, Live, RolesKept;
    ghost var h := c.H();
    var surface := c.mem[ss].body.surface;
    if surface != NULL {
      c.SetRole(surface, NoRole);
      ghost var h1 := c.H();
      c.Set(surface, SurfaceSubsurface, NULL);
      ghost var h2 := c.H();
      HeldTwice(h2, Reg(c.mem[surface].body.obj), At(ss, SubsurfaceSurface));
      c.UnrefShared(surface);
      ghost var h3 := c.H();
      HeldOnce(h3, Reg(c.mem[ss].body.obj));
      c.UnrefShared(ss);
      WeakensTwice(h, h1, h2);
      WeakensTwice(h, h2, h3);
      WeakensTwice(h, h3, c.H());
    } else {
      WeakensSelf(h);
    }
  }

  /** Lines 638 to 650: both links go, and what the subsurface still stores is owed. */
  method Leave(c: Client, ss: Ptr)
    requires Inv(c.H()) && ss in c.mem && c.mem[ss].body.Subsurface?
    modifies c`mem
    ensures c.mem.Keys == old(c.mem).Keys && Weakens(old(c.H()), c.H()) && Live(c.H())
    ensures c.mem[ss].body == old(c.mem)[ss].body
    ensures var b := c.mem[ss].body;
      && (forall q :: q in c.mem && q != b.parent && q != b.surface ==> c.mem[q].body == old(c.mem)[q].body)
      && RolesKeptBut(old(c.H()), c.H(), b.surface) && RoleOf(c.H(), b.surface) == NoRole
      && (forall q :: q != NULL ==> Extra(c.H(), q) == 0 - Is(q == b.parent) - Is(q == b.surface))
      && forall u ::
        Target(c.H(), u) == if u == Child(b.parent, ss) ||
          u == At(b.surface, SurfaceSubsurface) then NULL else Target(old(c.H()), u)
  {
    hide CoreInv, Extra, In, Target, Weakens;
    ghost var h := c.H();
    SubsurfaceEnds(h, ss);
    ParentIsSurface(h, ss);
    LeaveParent(c, ss);
    ghost var h1 := c.H();
    LeaveSurface(c, ss);
    WeakensTwice(h, h1, c.H());
    WeakensLive(h1, c.H());
  }

  lemma ParentIsSurface(h: Heap, ss: Ptr)
    requires CoreInv(h) && ss in h.mem && h.mem[ss].body.Subsurface?
    ensures ss != NULL && h.mem[ss].body.parent != ss
  {
    AtField(h, ss, SubsurfaceParent);
    if h.mem[ss].body.parent != NULL { LinkEnds(h, At(ss, SubsurfaceParent)); }
  }

  lemma WeakensLive(h: Heap, h': Heap)
    requires Live(h) && Weakens(h, h')
    ensures Live(h')
  {
  }

  /** Surface s has no role any more, and the others have theirs. */
  predicate SurfaceReleased(h: Heap, h': Heap, s: Ptr) { RoleOf(h', s) == NoRole && RolesKeptBut(h, h', s) }

  method WlSubsurfaceDestroy(c: Client, id: Id)
    requires Inv(c.H()) && id in c.reg && c.reg[id].kind == KSubsurface
    modifies c`mem, c`reg, c`sent
    ensures Inv(c.H())
    ensures SatelliteDestroyed(old(c.H()), c.H(), id) && c.sent == old(c.sent) + DeletedId(id)
    ensures SurfaceReleased(old(c.H()), c.H(), Target(old(c.H()), At(old(c.reg)[id].data, SubsurfaceSurface)))
  {
    hide CoreInv, Extra, In, Target, Weakens, Drop, OutDegree, Holding, Live, RolesKept;
    ghost var h := c.H();
    RegistryEntry(h, id);
    var ss := c.reg[id].data;
    SubsurfaceHolders(h, ss);
    SubsurfaceEnds(h, ss);
    Leave(c, ss);
    ghost var h2 := c.H();
    OnlyHolder(h2, Reg(id));
    var _ := c.ObjectDel(id);
    WeakensTwice(h, h2, c.H());
    RolesStillKept(h, h2, c.H(), h.mem[ss].body.surface);
    forall q | q != NULL ensures Extra(c.H(), q) == 0 {
      SubsurfaceOut(h.mem[ss].body, q);
    }
    SubsurfaceErased(h, c.H(), id, ss);
    SubsurfaceRolesAfter(h, c.H(), id, ss);
    ErasedKeepsInv(h, c.H(), id, ss);
  }

  lemma RolesStillKept(h: Heap, h1: Heap, h2: Heap, s: Ptr)
    requires RolesKeptBut(h, h1, s) && RolesKept(h1, h2) && Weakens(h, h1) && Weakens(h1, h2)
    ensures RolesKeptBut(h, h2, s)
    ensures RoleOf(h1, s) == NoRole ==> RoleOf(h2, s) == NoRole
  {
  }

  lemma SubsurfaceEnds(h: Heap, ss: Ptr)
    requires CoreInv(h) && ss in h.mem && h.mem[ss].body.Subsurface?
    ensures Live(h) && Target(h, Reg(h.mem[ss].body.obj)) == ss
    ensures Target(h, At(ss, SubsurfaceSurface)) == h.mem[ss].body.surface
    ensures Target(h, At(ss, SubsurfaceParent)) == h.mem[ss].body.parent
    ensures var s := h.mem[ss].body.surface;
      && (s == NULL ==> Target(h, At(NULL, SurfaceSubsurface)) == NULL)
      && (s != NULL ==>
        && s in h.mem && h.mem[s].body.Surface? && Target(h, At(s, SurfaceSubsurface)) == ss
        && Target(h, Reg(h.mem[s].body.obj)) == s && s != h.mem[ss].body.parent)
  {
    var s := h.mem[ss].body.surface;
    if s != NULL { LinkEnds(h, At(ss, SubsurfaceSurface)); ObjectOf(h, s); }
    ObjectOf(h, ss);
  }

  lemma SubsurfaceErased(h: Heap, h': Heap, id: Id, ss: Ptr)
    requires CoreInv(h) && ss in h.mem && h.mem[ss].body.Subsurface? && id == h.mem[ss].body.obj
    requires h'.mem.Keys == h.mem.Keys - {ss}
    requires forall u ::
      Target(h', u) == (
        if u == Reg(id) || Owns(u, ss) || u == Child(h.mem[ss].body.parent, ss) ||
          u == At(h.mem[ss].body.surface, SurfaceSubsurface)
        then NULL else Target(h, u))
    ensures Erased(h, h', ss)
  {
    SubsurfaceEnds(h, ss);
    SubsurfaceHolders(h, ss);
    if h.mem[ss].body.parent != NULL { LinkEnds(h, At(ss, SubsurfaceParent)); }
    NoChildOfNull(h, ss);
  }

  lemma SubsurfaceRolesAfter(h: Heap, h': Heap, id: Id, ss: Ptr)
    requires CoreInv(h) && ss in h.mem && h.mem[ss].body.Subsurface?
    requires Weakens(h, h') && Erased(h, h', ss) && h'.mem.Keys == h.mem.Keys - {ss} && h'.reg == h.reg - {id}
    requires RolesKeptBut(h, h', h.mem[ss].body.surface)
    requires RoleOf(h', h.mem[ss].body.surface) == NoRole
    ensures Roles(h')
  {
    hide Typed, Mutual, Registered, Callbacks, Waiting, WellFormedBodies, Target;
    forall p | p in h'.mem && h'.mem[p].body.Surface? && h'.mem[p].body.subsurface != NULL
      ensures h'.mem[p].body.role == SubsurfaceRole
    {
      AtField(h', p, SurfaceSubsurface);
      AtField(h, p, SurfaceSubsurface);
      SubsurfaceEnds(h, ss);
    }
    forall i | i in h'.reg && h'.reg[i].kind == KToplevel && HasSurface(h', h'.reg[i].data)
      ensures HasSurface(h, h'.reg[i].data) && ToplevelRoleOk(h', h'.reg[i].data)
    {
      ToplevelElsewhere(h, ss, i);
    }
  }

  /** The surface of a subsurface is not the surface of a toplevel. */
  lemma ToplevelElsewhere(h: Heap, ss: Ptr, i: Id)
    requires CoreInv(h) && ss in h.mem && h.mem[ss].body.Subsurface? && i in h.reg && h.reg[i].kind == KToplevel
    ensures HasSurface(h, h.reg[i].data) ==>
      var s := h.mem[h.reg[i].data].body.surface; s in h.mem && h.mem[s].body.Surface? && s != h.mem[ss].body.surface
  {
    hide Typed, Registered, Callbacks, Waiting, WellFormedBodies;
    var x := h.reg[i].data;
    if HasSurface(h, x) {
      AtField(h, x, XdgSurfaceSurface);
      LinkEnds(h, At(x, XdgSurfaceSurface));
      SubsurfaceEnds(h, ss);
      assert ToplevelRoleOk(h, x);
    }
  }
}
