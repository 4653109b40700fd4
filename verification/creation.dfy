/** Requests that create a protocol object: when adding a block, its registry entry and its links
    keeps the invariant. */
module Creation {
  import opened ListSpec
  import opened Memory
  import opened Invariant

  /** Equal except for surface roles and the links a surface stores. */
  predicate SameButLinks(a: Body, b: Body) {
    if a.Surface? then
      b.Surface? && a.(role := b.role, xdg := b.xdg, subsurface := b.subsurface, viewport := b.viewport,
        children := b.children) == b
    else a == b
  }

  /** A body fresh from the allocator waits for nothing. */
  predicate Idle(b: Body) {
    && (b.Surface? ==> b.frames == [] && b.feedbacks == [] && b.frameCb == NULL && b.feedbackCb == NULL)
    && (b.Buffer? ==> b.cb == NULL)
  }

  predicate Extends(h: Heap, h': Heap, added: set<Ptr>) {
    && h'.cbs == h.cbs && h'.mem.Keys == h.mem.Keys + added && h.mem.Keys !! added && NULL !in added
    && (forall q :: q in h.mem ==> SameButLinks(h.mem[q].body, h'.mem[q].body) && h'.mem[q].refs >= h.mem[q].refs)
    && (forall q :: q in added ==> Idle(h'.mem[q].body) && h'.mem[q].refs >= 1)
    && (forall i :: i in h.reg ==> i in h'.reg && h'.reg[i] == h.reg[i])
  }

  lemma ExtensionCallbacks(h: Heap, h': Heap, added: set<Ptr>)
    requires Extends(h, h', added) && Callbacks(h)
    ensures Callbacks(h')
  {
    forall a | a in h'.cbs ensures CallbackOk(h', a, h'.cbs[a]) {
      assert CallbackOk(h, a, h.cbs[a]);
    }
    forall q | q in h'.mem ensures ArmedOk(h', q, h'.mem[q].body) {
      if q in h.mem { assert ArmedOk(h, q, h.mem[q].body); }
    }
  }

  lemma ExtensionWaiting(h: Heap, h': Heap, added: set<Ptr>)
    requires Extends(h, h', added) && Waiting(h)
    ensures Waiting(h')
  {
    forall q ensures Frames(h', q) == Frames(h, q) && Feedbacks(h', q) == Feedbacks(h, q) { }
  }

  /** The links in `made` are new, and each points back at its owner. */
  ghost predicate LinksMade(h: Heap, h': Heap, made: set<Slot>) {
    && (forall u :: u in made ==>
          && Linked(u) && Target(h, u) == NULL && Target(h', u) != NULL
          && Target(h', Back(u, Target(h', u))) == u.owner)
    && (forall u :: Linked(u) && u !in made ==> Target(h', u) == Target(h, u))
  }

  lemma LinksMadeMutual(h: Heap, h': Heap, made: set<Slot>)
    requires Live(h) && Mutual(h) && LinksMade(h, h', made)
    ensures Mutual(h')
  {
    forall u | Linked(u) && Target(h', u) != NULL
      ensures Target(h', Back(u, Target(h', u))) == u.owner
    {
      if u !in made {
        var v := Back(u, Target(h, u));
        assert Target(h, v) == u.owner;
        assert Linked(v);
      }
    }
  }

  lemma CreationTyped(h: Heap, h': Heap, p: Ptr, id: Id, k: Kind)
    requires CoreInv(h) && Extends(h, h', {p}) && id !in h.reg
    requires h'.reg == h.reg[id := Object(k, p)] && KindFits(k, h'.mem[p].body)
    requires forall u :: !Linked(u) && u != Reg(id) ==> Target(h', u) == Target(h, u) || Target(h', u) == NULL
    requires forall u :: Target(h, u) != p
    ensures Typed(h')
  {
    forall u | Target(h', u) in h'.mem
      ensures Fits(h', u, h'.mem[Target(h', u)].body)
    {
      if !Linked(u) && u != Reg(id) {
        assert Fits(h, u, h.mem[Target(h, u)].body);
      }
    }
  }

  lemma CreationRegistry(h: Heap, h': Heap, p: Ptr, id: Id, k: Kind)
    requires CoreInv(h) && Extends(h, h', {p}) && id !in h.reg && id != 0
    requires h'.reg == h.reg[id := Object(k, p)] && KindFits(k, h'.mem[p].body) && !k.KToplevel?
    requires !k.KPool? ==> h'.mem[p].body.obj == id
    ensures Registered(h') && Named(h')
  {
    hide Target, Typed, Mutual, Roles, WellFormedBodies, Callbacks, Waiting;
  }

  /** Registering a new object p under id, with its first links. */
  lemma CreationKeepsCore(h: Heap, h': Heap, p: Ptr, id: Id, k: Kind, made: set<Slot>)
    requires CoreInv(h) && Extends(h, h', {p}) && id !in h.reg && id != 0
    requires h'.reg == h.reg[id := Object(k, p)] && KindFits(k, h'.mem[p].body) && !k.KToplevel?
    requires !k.KPool? ==> h'.mem[p].body.obj == id
    requires LinksMade(h, h', made)
    requires forall u :: !Linked(u) && u != Reg(id) ==> Target(h', u) == Target(h, u)
    requires forall u :: Target(h, u) != p
    requires WellFormedBodies(h') && Roles(h')
    ensures CoreInv(h')
  {
    hide Roles, WellFormedBodies;
    assert Live(h');
    CreationTyped(h, h', p, id, k);
    LinksMadeMutual(h, h', made);
    CreationRegistry(h, h', p, id, k);
    ExtensionCallbacks(h, h', {p});
    ExtensionWaiting(h, h', {p});
  }

  /** Roles survive a creation that gives no surface a role or a subsurface. */
  lemma CreationRoles(h: Heap, h': Heap, p: Ptr, id: Id, k: Kind)
    requires CoreInv(h) && Extends(h, h', {p}) && id !in h.reg && h'.reg == h.reg[id := Object(k, p)] && !k.KToplevel?
    requires forall q :: q in h.mem && h.mem[q].body.Surface? ==>
      h'.mem[q].body.role == h.mem[q].body.role && h'.mem[q].body.subsurface == h.mem[q].body.subsurface
    requires h'.mem[p].body.Surface? ==> h'.mem[p].body.subsurface == NULL
    ensures Roles(h')
  {
    hide CoreInv, ToplevelRoleOk, HasSurface;
    assert Roles(h) by { CoreRoles(h); }
    forall i | i in h'.reg && h'.reg[i].kind == KToplevel
      ensures i in h.reg && h'.reg[i] == h.reg[i] && ToplevelRoleOk(h', h.reg[i].data)
      ensures HasSurface(h', h.reg[i].data) ==> HasSurface(h, h.reg[i].data)
    {
      ToplevelStays(h, h', p, i);
    }
  }

  lemma CoreRoles(h: Heap)
    requires CoreInv(h)
    ensures Roles(h)
  {
  }

  lemma ToplevelStays(h: Heap, h': Heap, p: Ptr, i: Id)
    requires CoreInv(h) && Extends(h, h', {p}) && i in h.reg && h.reg[i].kind == KToplevel
    requires forall q :: q in h.mem && h.mem[q].body.Surface? ==> h'.mem[q].body.role == h.mem[q].body.role
    ensures HasSurface(h', h.reg[i].data) ==> HasSurface(h, h.reg[i].data)
    ensures ToplevelRoleOk(h', h.reg[i].data)
  {
    hide Typed, Mutual, Registered, Callbacks, Waiting, WellFormedBodies, Target;
    var x := h.reg[i].data;
    assert x in h.mem && ToplevelRoleOk(h, x);
    if HasSurface(h', x) {
      AtField(h, x, XdgSurfaceSurface);
      LinkEnds(h, At(x, XdgSurfaceSurface));
    }
  }

  lemma CreationBodies(h: Heap, h': Heap, p: Ptr)
    requires CoreInv(h) && Extends(h, h', {p}) && WellFormed(h'.mem[p].body) && !h'.mem[p].body.Buffer?
    requires forall q :: q in h.mem && h.mem[q].body.Surface? ==>
      h'.mem[q].body.children == h.mem[q].body.children ||
        (NoDuplicates(h'.mem[q].body.children) && NULL !in h'.mem[q].body.children)
    ensures WellFormedBodies(h')
  {
    hide Target, Typed, Mutual, Registered, Named, Roles, Callbacks, Waiting;
  }

  lemma OneLinkMade(h: Heap, h': Heap, t: Slot, p: Ptr)
    requires Linked(t) && p != NULL && t.owner != NULL && Linked(Back(t, p)) && Back(Back(t, p), t.owner) == t
    requires Back(t, p) != t
    requires Target(h, t) == NULL && Target(h, Back(t, p)) == NULL
    requires forall u :: Linked(u) ==>
      Target(h', u) == if u == t then p else if u == Back(t, p) then t.owner else Target(h, u)
    ensures LinksMade(h, h', {t, Back(t, p)})
  {
    assert Back(t, p).owner == p;
  }

  /** Nothing can point at an address that has not been allocated yet. */
  lemma NothingPointsAt(h: Heap, p: Ptr)
    requires Balanced(h) && p !in h.mem && p != NULL
    ensures forall u :: Target(h, u) != p
  {
    forall u ensures Target(h, u) != p {
      if Target(h, u) == p { Held(h, u); }
    }
  }
}
