/** Requests that destroy something only ever clear pointers and remove blocks. This module proves,
    once for all of them, when such a weakening keeps the invariant. */
module Erasure {
  import opened Memory
  import opened Invariant

  /** Equal up to surface roles and the links between surfaces and their satellites. */
  predicate SameCore(a: Body, b: Body) {
    match a
    case Surface(_, _, _, _, _, _, _, _, _, _, _, _, _, _) =>
      b.Surface? && (b.role == a.role || b.role == NoRole) && a.(role := b.role, xdg := b.xdg,
        subsurface := b.subsurface, viewport := b.viewport, children := b.children) == b
    case Subsurface(_, _, _, _) =>
      && b.Subsurface? && b.obj == a.obj && b.sync == a.sync && (b.surface == NULL || b.surface == a.surface) &&
        (b.parent == NULL || b.parent == a.parent)
    case Viewport(_, _) => b.Viewport? && b.obj == a.obj
    case XdgSurface(_, _) => b.XdgSurface? && b.obj == a.obj && (b.surface == NULL || b.surface == a.surface)
    case _ => a == b
  }

  predicate LinkField(f: Field) {
    f in {SurfaceXdg, SurfaceSubsurface, SurfaceViewport,
          XdgSurfaceSurface, SubsurfaceSurface, SubsurfaceParent, ViewportSurface}
  }

  predicate HasCallback(b: Body) { b.Surface? && (b.frameCb != NULL || b.feedbackCb != NULL) }

  /** h' has lost blocks and links of h, but no block lost anything else, and no surface left with
      an output callback still pointing at it. */
  predicate Weakens(h: Heap, h': Heap) {
    && h'.cbs == h.cbs
    && (forall q :: q in h'.mem ==> q in h.mem && SameCore(h.mem[q].body, h'.mem[q].body))
    && (WellFormedBodies(h) ==> WellFormedBodies(h'))
    && (forall q :: q in h.mem && q !in h'.mem ==> !HasCallback(h.mem[q].body))
    && (Live(h) ==> Live(h'))
  }

  predicate RolesKept(h: Heap, h': Heap) {
    forall p :: p in h.mem && p in h'.mem && h.mem[p].body.Surface? && h'.mem[p].body.Surface? ==>
      h'.mem[p].body.role == h.mem[p].body.role
  }

  /** No surface but s has changed its role. */
  predicate RolesKeptBut(h: Heap, h': Heap, s: Ptr) {
    forall p :: p in h.mem && p in h'.mem && p != s && h.mem[p].body.Surface? && h'.mem[p].body.Surface? ==>
      h'.mem[p].body.role == h.mem[p].body.role
  }

  lemma WeakensTwice(h: Heap, h': Heap, h'': Heap)
    requires Weakens(h, h') && Weakens(h', h'')
    ensures Weakens(h, h'')
    ensures RolesKept(h, h') && RolesKept(h', h'') ==> RolesKept(h, h'')
  {
  }

  lemma WeakensSelf(h: Heap)
    ensures Weakens(h, h) && RolesKept(h, h)
  {
    forall q | q in h.mem ensures SameCore(h.mem[q].body, h.mem[q].body) {
      match h.mem[q].body
      case Surface(_, _, _, _, _, _, _, _, _, _, _, _, _, _) =>
      case _ =>
    }
  }

  lemma DropWeakens(h: Heap, h': Heap, p: Ptr)
    requires Droppable(h.mem, p) && h' == h.(mem := Drop(h.mem, p))
    ensures !(Freed(h.mem, p) && HasCallback(h.mem[p].body)) ==> Weakens(h, h')
    ensures RolesKept(h, h')
  {
    DropShrinks(h.mem, p);
  }

  ghost predicate OnlyCleared(h: Heap, h': Heap) {
    forall t :: Target(h', t) == Target(h, t) || Target(h', t) == NULL
  }

  /** A link loses both its ends or none. */
  ghost predicate BothEnds(h: Heap, h': Heap) {
    forall t :: Linked(t) && Target(h, t) != NULL && Target(h', t) != NULL ==> Target(h', Back(t, Target(h, t))) != NULL
  }

  /** The registry loses only entries whose objects are gone, or no longer stand under that id. */
  predicate RegistryShrinks(h: Heap, h': Heap) {
    && (forall i :: i in h'.reg ==>
      i in h.reg && h'.reg[i] == h.reg[i] && (NoData(h.reg[i].kind) || h.reg[i].data in h'.mem))
    && (forall i :: i in h.reg && i !in h'.reg ==>
          !NoData(h.reg[i].kind) && (h.reg[i].data !in h'.mem || !HasObject(h'.mem[h.reg[i].data].body) ||
            h.reg[i].kind.KToplevel? || h.reg[i].kind.KPool?))
  }

  lemma WeakeningKeepsCore(h: Heap, h': Heap)
    requires Roles(h') && CoreInv(h) && Weakens(h, h') && OnlyCleared(h, h') && BothEnds(h, h')
    requires RegistryShrinks(h, h')
    requires forall a :: a in h.cbs && h.cbs[a].listener.BufferReleased? ==> h.cbs[a].userdata in h'.mem
    ensures CoreInv(h')
  {
    WeakeningTyped(h, h');
    WeakeningMutual(h, h');
    WeakeningRegistry(h, h');
    WeakeningCallbacks(h, h');
    WeakeningWaiting(h, h');
  }

  lemma WeakeningTyped(h: Heap, h': Heap)
    requires Typed(h) && Live(h) && Weakens(h, h') && OnlyCleared(h, h') && RegistryShrinks(h, h')
    ensures Typed(h')
  {
    forall t | Target(h', t) in h'.mem
      ensures Fits(h', t, h'.mem[Target(h', t)].body)
    {
      assert Target(h, t) == Target(h', t);
      assert Fits(h, t, h.mem[Target(h, t)].body);
    }
  }

  lemma WeakeningRoles(h: Heap, h': Heap)
    requires Roles(h) && Named(h) && Mutual(h) && Weakens(h, h') && OnlyCleared(h, h') && RegistryShrinks(h, h')
    requires RolesKept(h, h')
    ensures Roles(h')
  {
    hide Mutual, Named, OnlyCleared, RolesKept, RegistryShrinks, Weakens, ToplevelRoleOk, HasSurface;
    SubsurfaceRoles(h, h');
    forall i | i in h'.reg && h'.reg[i].kind == KToplevel ensures ToplevelRoleOk(h', h'.reg[i].data) {
      EntryBefore(h, h', i);
      ToplevelRole(h, h', h.reg[i].data);
    }
    forall i, j | i in h'.reg && j in h'.reg && h'.reg[i].kind == KToplevel && h'.reg[j] == h'.reg[i] &&
      HasSurface(h', h'.reg[i].data)
      ensures i == j
    {
      EntryBefore(h, h', i);
      EntryBefore(h, h', j);
      SurfaceBefore(h, h', h.reg[i].data);
    }
  }

  lemma EntryBefore(h: Heap, h': Heap, i: Id)
    requires RegistryShrinks(h, h') && i in h'.reg
    ensures i in h.reg && h.reg[i] == h'.reg[i]
  {
  }

  /** Surfaces that still have a subsurface had it before. */
  lemma SubsurfaceRoles(h: Heap, h': Heap)
    requires Roles(h) && Weakens(h, h') && OnlyCleared(h, h') && RolesKept(h, h')
    ensures forall p :: p in h'.mem && h'.mem[p].body.Surface? && h'.mem[p].body.subsurface != NULL ==>
      h'.mem[p].body.role == SubsurfaceRole
  {
    forall p | p in h'.mem && h'.mem[p].body.Surface? && h'.mem[p].body.subsurface != NULL
      ensures h'.mem[p].body.role == SubsurfaceRole
    {
      assert SameCore(h.mem[p].body, h'.mem[p].body);
      assert Target(h', At(p, SurfaceSubsurface)) == h'.mem[p].body.subsurface;
      assert Target(h, At(p, SurfaceSubsurface)) == h.mem[p].body.subsurface;
    }
  }

  lemma SurfaceBefore(h: Heap, h': Heap, x: Ptr)
    requires Weakens(h, h') && HasSurface(h', x)
    ensures HasSurface(h, x) && h.mem[x].body.surface == h'.mem[x].body.surface
  {
    assert SameCore(h.mem[x].body, h'.mem[x].body);
  }

  lemma ToplevelRole(h: Heap, h': Heap, x: Ptr)
    requires Roles(h) && Weakens(h, h') && RolesKept(h, h') && exists i ::
      i in h.reg && h.reg[i].kind == KToplevel && h.reg[i].data == x
    ensures ToplevelRoleOk(h', x)
  {
    assert ToplevelRoleOk(h, x);
    if HasSurface(h', x) {
      SurfaceBefore(h, h', x);
      var s := h'.mem[x].body.surface;
      assert s in h'.mem && h'.mem[s].body.Surface? ==> SameCore(h.mem[s].body, h'.mem[s].body);
    }
  }

  lemma WeakeningMutual(h: Heap, h': Heap)
    requires Mutual(h) && OnlyCleared(h, h') && BothEnds(h, h')
    ensures Mutual(h')
  {
    forall t | Linked(t) && Target(h', t) != NULL
      ensures Target(h', Back(t, Target(h', t))) == t.owner
    {
      assert Target(h, Back(t, Target(h, t))) == t.owner;
    }
  }

  lemma WeakeningRegistry(h: Heap, h': Heap)
    requires Registered(h) && Named(h) && Weakens(h, h') && RegistryShrinks(h, h')
    ensures Registered(h') && Named(h')
  {
    forall q | q in h'.mem && HasObject(h'.mem[q].body)
      ensures h'.mem[q].body.obj in h'.reg && h'.reg[h'.mem[q].body.obj] == Object(KindOf(h'.mem[q].body), q)
    {
      assert HasObject(h.mem[q].body);
    }
  }

  lemma WeakeningCallbacks(h: Heap, h': Heap)
    requires Callbacks(h) && Weakens(h, h') && Live(h)
    requires forall a :: a in h.cbs && h.cbs[a].listener.BufferReleased? ==> h.cbs[a].userdata in h'.mem
    ensures Callbacks(h')
  {
    forall a | a in h'.cbs ensures CallbackOk(h', a, h'.cbs[a]) {
      assert CallbackOk(h, a, h.cbs[a]);
    }
    forall q | q in h'.mem ensures ArmedOk(h', q, h'.mem[q].body) {
      assert ArmedOk(h, q, h.mem[q].body);
    }
  }

  /** A surface that is left has its queues, and callbacks own no data. */
  lemma QueuesLeft(h: Heap, h': Heap)
    requires Weakens(h, h') && RegistryShrinks(h, h')
    ensures forall q :: Frames(h', q) == Frames(h, q) || Frames(h', q) == []
    ensures forall q :: Feedbacks(h', q) == Feedbacks(h, q) || Feedbacks(h', q) == []
    ensures forall id, k :: NoData(k) && RegisteredAs(h, id, k) ==> RegisteredAs(h', id, k)
  {
    forall q ensures Frames(h', q) == Frames(h, q) || Frames(h', q) == [] { }
    forall q ensures Feedbacks(h', q) == Feedbacks(h, q) || Feedbacks(h', q) == [] { }
  }

  lemma WeakeningWaiting(h: Heap, h': Heap)
    requires Waiting(h) && Weakens(h, h') && RegistryShrinks(h, h')
    ensures Waiting(h')
  {
    QueuesLeft(h, h');
    hide Weakens, RegistryShrinks, Frames, Feedbacks, RegisteredAs;
  }

  // ---------------------------------------------------------------- the two uses

  /** h' is h with both ends of the link at t cleared. */
  ghost predicate Unlinked(h: Heap, h': Heap, t: Slot)
    requires Linked(t)
  {
    forall u :: Target(h', u) == if u == t ||
      (Target(h, t) != NULL && u == Back(t, Target(h, t))) then NULL else Target(h, u)
  }

  lemma UnlinkBothEnds(h: Heap, h': Heap, t: Slot)
    requires Live(h) && Mutual(h) && Linked(t) && Target(h, t) != NULL && Unlinked(h, h', t)
    ensures OnlyCleared(h, h') && BothEnds(h, h')
  {
    var b := Back(t, Target(h, t));
    assert Target(h, b) == t.owner;
    forall u | Linked(u) && Target(h, u) != NULL && Target(h', u) != NULL
      ensures Target(h', Back(u, Target(h, u))) != NULL
    {
      var v := Back(u, Target(h, u));
      assert Target(h, v) == u.owner;
      BackOfBack(h, u);
      BackOfBack(h, t);
      assert v == t ==> u == b;
      assert v == b ==> u == t;
    }
  }

  lemma ReleasedBuffers(h: Heap, h': Heap)
    requires Callbacks(h)
    requires forall a :: a in h.cbs && h.cbs[a].listener.BufferReleased? && h.cbs[a].userdata in h.mem ==>
      h.cbs[a].userdata in h'.mem
    ensures forall a :: a in h.cbs && h.cbs[a].listener.BufferReleased? ==> h.cbs[a].userdata in h'.mem
  {
    forall a | a in h.cbs && h.cbs[a].listener.BufferReleased? ensures h.cbs[a].userdata in h'.mem {
      assert CallbackOk(h, a, h.cbs[a]);
    }
  }

  /** Clearing both ends of one link and dropping both counts leaves everything else as it was. */
  lemma UnlinkKeepsCore(h: Heap, h': Heap, t: Slot)
    requires CoreInv(h) && Linked(t) && Target(h, t) != NULL
    requires Unlinked(h, h', t) && Weakens(h, h') && h'.mem.Keys == h.mem.Keys && h'.reg == h.reg
    requires RolesKept(h, h') || Roles(h')
    ensures CoreInv(h')
  {
    hide Target, Mutual, Registered, Typed, Callbacks, Waiting, WellFormedBodies, Weakens, OnlyCleared, BothEnds;
    hide Unlinked, Live, Roles, RolesKept;
    UnlinkBothEnds(h, h', t);
    ReleasedBuffers(h, h');
    if RolesKept(h, h') { WeakeningRoles(h, h'); }
    WeakeningKeepsCore(h, h');
  }

  lemma BackOfBack(h: Heap, u: Slot)
    requires Linked(u) && Target(h, u) != NULL
    ensures var v := Back(u, Target(h, u)); Linked(v) && Back(v, u.owner) == u
  {
    match u
    case Child(_, _) =>
    case At(_, _) =>
    case _ =>
  }

  /** h' is h without the pointers to p, without the pointers p stored, and without those that a
      buffer freed along the way stored. Every other pointer is as it was. */
  ghost predicate Erased(h: Heap, h': Heap, p: Ptr) {
    forall u ::
      Target(h', u) == (if Target(h, u) == p || Owns(u, p) || (u.At? && u.owner !in h'.mem) then NULL else Target(h, u))
  }

  /** Entry id is gone with its object and every pointer to it and from it; the other blocks are there. */
  ghost predicate SatelliteDestroyed(h: Heap, h': Heap, id: Id) {
    && id in h.reg && h'.reg == h.reg - {id}
    && Erased(h, h', h.reg[id].data) && h'.mem.Keys == h.mem.Keys - {h.reg[id].data} && Weakens(h, h')
  }

  lemma ErasedBothEnds(h: Heap, h': Heap, p: Ptr)
    requires CoreInv(h) && Erased(h, h', p) && p !in h'.mem
    requires forall q :: q in h.mem && q !in h'.mem && q != p ==> h.mem[q].body.Buffer? || IsLeaf(h.mem[q].body)
    ensures OnlyCleared(h, h') && BothEnds(h, h')
  {
    forall u | Linked(u) && Target(h, u) != NULL && Target(h', u) != NULL
      ensures Target(h', Back(u, Target(h, u))) != NULL
    {
      var v := Back(u, Target(h, u));
      LinkEnds(h, u);
      BackOfBack(h, u);
      assert v.owner == Target(h, u) by { match u case Child(_, _) => case At(_, _) => case _ => }
      assert !(h.mem[v.owner].body.Buffer? || IsLeaf(h.mem[v.owner].body));
    }
  }

  /** Erasing p together with its registry entry keeps the invariant. */
  lemma ErasedKeepsInv(h: Heap, h': Heap, id: Id, p: Ptr)
    requires CoreInv(h) && id in h.reg && h.reg[id].data == p != NULL && !NoData(h.reg[id].kind)
    requires h'.reg == h.reg - {id}
    requires Weakens(h, h') && Erased(h, h', p) && p !in h'.mem && Balanced(h')
    requires forall q :: q in h.mem && q !in h'.mem && q != p ==> h.mem[q].body.Buffer? || IsLeaf(h.mem[q].body)
    requires RolesKept(h, h') || Roles(h')
    ensures Inv(h')
  {
    ErasedBothEnds(h, h', p);
    SurvivingEntries(h, h', p);
    RegistryWithout(h, h', id, p);
    hide Target, Weakens, RolesKept, Balanced, Erased, OnlyCleared, BothEnds, RegistryShrinks;
    if RolesKept(h, h') { WeakeningRoles(h, h'); }
    hide CoreInv;
    WeakeningKeepsCore(h, h');
  }

  lemma SurvivingEntries(h: Heap, h': Heap, p: Ptr)
    requires Named(h) && Callbacks(h) && Live(h) && Erased(h, h', p) && Balanced(h')
    requires p != NULL && h'.cbs == h.cbs && h'.reg.Keys <= h.reg.Keys
    requires forall i :: i in h'.reg ==> h'.reg[i] == h.reg[i]
    requires p !in h'.mem
    ensures forall i :: i in h'.reg && !NoData(h.reg[i].kind) ==> h.reg[i].data in h'.mem
    ensures forall a :: a in h.cbs && h.cbs[a].listener.BufferReleased? ==> h.cbs[a].userdata in h'.mem
  {
    forall i | i in h'.reg && !NoData(h.reg[i].kind) ensures h.reg[i].data in h'.mem {
      assert Target(h', Reg(i)) == h.reg[i].data;
      Held(h', Reg(i));
    }
    forall a | a in h.cbs && h.cbs[a].listener.BufferReleased? ensures h.cbs[a].userdata in h'.mem {
      assert CallbackOk(h, a, h.cbs[a]);
      assert Target(h', Armed(a)) == h.cbs[a].userdata;
      Held(h', Armed(a));
    }
  }

  /** Unlinking p's only link and then deleting its registry entry erases p. */
  lemma UnlinkThenDelete(h: Heap, h1: Heap, h2: Heap, t: Slot, id: Id, p: Ptr)
    requires CoreInv(h) && p != NULL && Linked(t) && t.owner == p && Unlinked(h, h1, t)
    requires id in h.reg && h.reg[id].data == p && h2.mem.Keys == h.mem.Keys - {p} && Balanced(h2)
    requires forall u :: Target(h2, u) == if u == Reg(id) || Owns(u, p) then NULL else Target(h1, u)
    ensures Erased(h, h2, p)
  {
    if Target(h, t) != NULL { LinkEnds(h, t); }
    forall u
      ensures Target(h2, u) ==
        (if Target(h, u) == p || Owns(u, p) || (u.At? && u.owner !in h2.mem) then NULL else Target(h, u))
    {
      if Target(h2, u) == p { Held(h2, u); }
    }
  }

  /** Deleting a registry entry frees its object if that was the last holder. The object may still
      store buffer pointers, but no links. */
  ghost predicate Deleted(h: Heap, h': Heap, id: Id, p: Ptr) {
    && h'.reg == h.reg - {id}
    && (forall u :: Target(h', u) == if u == Reg(id) || (p !in h'.mem && Owns(u, p)) then NULL else Target(h, u))
    && (p !in h'.mem ==> forall u :: Linked(u) && Target(h, u) != NULL ==> Target(h, u) != p && u.owner != p)
  }

  lemma DeletionKeepsInv(h: Heap, h': Heap, id: Id, p: Ptr)
    requires CoreInv(h) && id in h.reg && h.reg[id].data == p != NULL && Weakens(h, h') && Deleted(h, h', id, p)
    requires Balanced(h')
    requires p !in h'.mem || !HasObject(h'.mem[p].body) || h.reg[id].kind.KToplevel? || h.reg[id].kind.KPool?
    requires RolesKept(h, h') || Roles(h')
    ensures Inv(h')
  {
    DeletedEntries(h, h', id, p);
    DeletedLinks(h, h', id, p);
    RegistryWithout(h, h', id, p);
    hide Target, Weakens, RolesKept, Balanced, Deleted, OnlyCleared, BothEnds, RegistryShrinks;
    if RolesKept(h, h') { WeakeningRoles(h, h'); }
    hide CoreInv;
    WeakeningKeepsCore(h, h');
  }

  lemma DeletedEntries(h: Heap, h': Heap, id: Id, p: Ptr)
    requires CoreInv(h) && id in h.reg && Deleted(h, h', id, p) && Balanced(h') && h'.cbs == h.cbs
    requires h.reg[id].data == p != NULL
    ensures forall i :: i in h'.reg && !NoData(h.reg[i].kind) ==> h.reg[i].data in h'.mem
    ensures forall a :: a in h.cbs && h.cbs[a].listener.BufferReleased? ==> h.cbs[a].userdata in h'.mem
  {
    hide Typed, Mutual, Registered, Roles, WellFormedBodies, Waiting;
    forall i | i in h'.reg && !NoData(h.reg[i].kind) ensures h.reg[i].data in h'.mem {
      assert Target(h', Reg(i)) == h.reg[i].data;
      Held(h', Reg(i));
    }
    forall a | a in h.cbs && h.cbs[a].listener.BufferReleased? ensures h.cbs[a].userdata in h'.mem {
      assert CallbackOk(h, a, h.cbs[a]);
      assert Target(h', Armed(a)) == h.cbs[a].userdata;
      Held(h', Armed(a));
    }
  }

  lemma RegistryWithout(h: Heap, h': Heap, id: Id, p: Ptr)
    requires CoreInv(h) && id in h.reg && h.reg[id].data == p != NULL && h'.reg == h.reg - {id}
    requires forall i :: i in h'.reg && !NoData(h.reg[i].kind) ==> h.reg[i].data in h'.mem
    requires p !in h'.mem || !HasObject(h'.mem[p].body) || h.reg[id].kind.KToplevel? || h.reg[id].kind.KPool?
    ensures RegistryShrinks(h, h')
  {
    hide Typed, Mutual, Registered, Roles, WellFormedBodies, Waiting, Callbacks;
  }

  lemma DeletedLinks(h: Heap, h': Heap, id: Id, p: Ptr)
    requires CoreInv(h) && Deleted(h, h', id, p)
    ensures OnlyCleared(h, h') && BothEnds(h, h')
  {
    hide CoreInv, Target;
    forall u | Linked(u) && Target(h, u) != NULL ensures Target(h', u) == Target(h, u) { }
    forall u | Linked(u) && Target(h, u) != NULL
      ensures Target(h', Back(u, Target(h, u))) != NULL
    {
      BackOfBack(h, u);
      LinkEnds(h, u);
    }
  }
}
