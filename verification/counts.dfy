/** What balanced counts mean for each kind of protocol object: the count, holder by holder. */
module HolderCounts {
  import opened ListSpec
  import opened Memory
  import opened Invariant

  /** The ids p is registered under. */
  ghost function Entries(h: Heap, p: Ptr): set<Id> { set id | id in h.reg && h.reg[id].data == p }

  /** The objects that store p in field f. */
  ghost function Storing(h: Heap, p: Ptr, f: Field): set<Ptr> { set o | o in h.mem && Get(h.mem[o].body, f) == p }

  /** The slots of field f that store p. */
  ghost function FieldSlots(h: Heap, p: Ptr, f: Field): set<Slot> { set o | o in Storing(h, p, f) :: At(o, f) }

  ghost function EntrySlots(h: Heap, p: Ptr): set<Slot> { set id | id in Entries(h, p) :: Reg(id) }

  function One(b: bool, t: Slot): set<Slot> { if b then {t} else {} }

  lemma {:induction false} IdsSize(s: set<Id>)
    ensures |set id | id in s :: Reg(id)| == |s|
  {
    if s != {} {
      var x :| x in s;
      IdsSize(s - {x});
      assert (set id | id in s :: Reg(id)) == (set id | id in s - {x} :: Reg(id)) + {Reg(x)};
    }
  }

  lemma {:induction false} OwnersSize(s: set<Ptr>, f: Field)
    ensures |set o | o in s :: At(o, f)| == |s|
  {
    if s != {} {
      var x :| x in s;
      OwnersSize(s - {x}, f);
      assert (set o | o in s :: At(o, f)) == (set o | o in s - {x} :: At(o, f)) + {At(x, f)};
    }
  }

  // ---------------------------------------------------------------- buffers

  lemma Sizes(h: Heap, p: Ptr, f: Field)
    ensures |EntrySlots(h, p)| == |Entries(h, p)| && |FieldSlots(h, p, f)| == |Storing(h, p, f)|
    ensures forall t :: t in EntrySlots(h, p) ==> t.Reg?
    ensures forall t :: t in FieldSlots(h, p, f) ==> t.At? && t.field == f
  {
    IdsSize(Entries(h, p));
    OwnersSize(Storing(h, p, f), f);
  }

  ghost function BufferSlots(h: Heap, b: Ptr, cb: Ptr): set<Slot> {
    EntrySlots(h, b) + FieldSlots(h, b, SurfacePending) + FieldSlots(h, b, SurfaceActive) + One(cb != NULL, Armed(cb))
  }

  lemma BufferHolders(h: Heap, b: Ptr, t: Slot)
    requires CoreInv(h) && b in h.mem && h.mem[b].body.Buffer?
    ensures Target(h, t) == b <==> t in BufferSlots(h, b, h.mem[b].body.cb)
  {
    assert b != NULL;
    if Target(h, t) == b {
      assert Fits(h, t, h.mem[b].body);
      if Linked(t) { LinkEnds(h, t); }
    }
  }

  lemma BufferSlotsSize(h: Heap, b: Ptr, cb: Ptr)
    ensures |BufferSlots(h, b, cb)| ==
      |Entries(h, b)| + |Storing(h, b, SurfacePending)| + |Storing(h, b, SurfaceActive)| + Is(cb != NULL)
  {
    hide EntrySlots, FieldSlots, Entries, Storing;
    Sizes(h, b, SurfacePending);
    Sizes(h, b, SurfaceActive);
    assert EntrySlots(h, b) !! FieldSlots(h, b, SurfacePending) !! FieldSlots(h, b, SurfaceActive) !! One(cb != NULL,
      Armed(cb));
  }

  /** A buffer under its id: `obj` is set exactly while the registry holds the buffer, once. */
  lemma BufferEntries(h: Heap, b: Ptr)
    requires CoreInv(h) && b in h.mem && h.mem[b].body.Buffer?
    ensures Entries(h, b) == if h.mem[b].body.obj == 0 then {} else {h.mem[b].body.obj}
  {
    forall id | id in Entries(h, b) ensures id == h.mem[b].body.obj != 0 {
      assert Target(h, Reg(id)) == b;
      assert Fits(h, Reg(id), h.mem[b].body);
    }
  }

  /** A buffer's count: its registry entry, the surfaces with it pending, the surfaces with it active,
      and its release callback while that is armed. */
  lemma BufferCount(h: Heap, b: Ptr)
    requires Inv(h) && b in h.mem && h.mem[b].body.Buffer?
    ensures h.mem[b].refs ==
      Is(h.mem[b].body.obj != 0) + |Storing(h, b, SurfacePending)| + |Storing(h, b,
        SurfaceActive)| + Is(h.mem[b].body.cb != NULL)
    ensures h.mem[b].body.obj != 0 <==> h.mem[b].body.obj in h.reg && h.reg[h.mem[b].body.obj] == Object(KBuffer, b)
    ensures h.mem[b].body.cb != NULL <==> Listens(h, h.mem[b].body.cb, BufferReleased, b)
  {
    BufferNames(h, b);
    BufferIn(h, b);
    hide CoreInv, Target, Storing, Entries, In, BufferSlots;
    BufferEntries(h, b);
    BufferSlotsSize(h, b, h.mem[b].body.cb);
    assert Extra(h, b) == 0;
  }

  lemma BufferIn(h: Heap, b: Ptr)
    requires CoreInv(h) && b in h.mem && h.mem[b].body.Buffer? && b != NULL
    ensures In(h, b) == BufferSlots(h, b, h.mem[b].body.cb)
  {
    hide CoreInv, Target, Storing, Entries, In, BufferSlots;
    forall t ensures t in In(h, b) <==> t in BufferSlots(h, b, h.mem[b].body.cb) { BufferHolders(h, b, t); }
  }

  lemma BufferNames(h: Heap, b: Ptr)
    requires CoreInv(h) && b in h.mem && h.mem[b].body.Buffer?
    ensures b != NULL
    ensures h.mem[b].body.obj != 0 <==> h.mem[b].body.obj in h.reg && h.reg[h.mem[b].body.obj] == Object(KBuffer, b)
    ensures h.mem[b].body.cb != NULL <==> Listens(h, h.mem[b].body.cb, BufferReleased, b)
  {
  }

  // ---------------------------------------------------------------- surfaces and what they are linked to

  function Parents(children: seq<Ptr>): set<Slot> { set c | c in children :: At(c, SubsurfaceParent) }

  lemma {:induction false} ParentsSize(children: seq<Ptr>)
    requires NoDuplicates(children)
    ensures |Parents(children)| == |children|
  {
    if children != [] {
      var rest := children[1..];
      ParentsSize(rest);
      assert children == [children[0]] + rest;
      assert Parents(children) == Parents(rest) + {At(children[0], SubsurfaceParent)};
      assert At(children[0], SubsurfaceParent) !in Parents(rest);
    }
  }

  function LinkSlots(b: Body): set<Slot>
    requires b.Surface?
  {
    One(b.xdg != NULL, At(b.xdg, XdgSurfaceSurface)) +
    One(b.subsurface != NULL, At(b.subsurface, SubsurfaceSurface)) +
    One(b.viewport != NULL, At(b.viewport, ViewportSurface))
  }

  function SurfaceSlots(b: Body): set<Slot>
    requires b.Surface?
  {
    {Reg(b.obj)} + LinkSlots(b) + Parents(b.children)
  }

  lemma SurfaceSlotsSize(b: Body)
    requires b.Surface? && NoDuplicates(b.children)
    ensures |SurfaceSlots(b)| ==
      1 + Is(b.xdg != NULL) + Is(b.subsurface != NULL) + Is(b.viewport != NULL) + |b.children|
  {
    ParentsSize(b.children);
    assert {Reg(b.obj)} !! LinkSlots(b) !! Parents(b.children);
    var x, u, v := One(b.xdg != NULL, At(b.xdg, XdgSurfaceSurface)), One(b.subsurface != NULL,
      At(b.subsurface, SubsurfaceSurface)), One(b.viewport != NULL, At(b.viewport, ViewportSurface));
    assert x !! u !! v;
  }

  lemma SurfaceHolders(h: Heap, s: Ptr, t: Slot)
    requires CoreInv(h) && s in h.mem && h.mem[s].body.Surface? && Target(h, t) == s
    ensures t in SurfaceSlots(h.mem[s].body)
  {
    assert Fits(h, t, h.mem[s].body);
    if Linked(t) { LinkEnds(h, t); }
  }

  lemma SurfaceHeld(h: Heap, s: Ptr, t: Slot)
    requires CoreInv(h) && s in h.mem && h.mem[s].body.Surface? && t in SurfaceSlots(h.mem[s].body)
    ensures Target(h, t) == s
  {
    var b := h.mem[s].body;
    if t in Parents(b.children) {
      ChildEnds(h, s, t.owner);
    } else if t in LinkSlots(b) {
      LinkHeld(h, s, t);
    } else {
      ObjectOf(h, s);
    }
  }

  lemma LinkHeld(h: Heap, s: Ptr, t: Slot)
    requires CoreInv(h) && s in h.mem && h.mem[s].body.Surface? && t in LinkSlots(h.mem[s].body)
    ensures Target(h, t) == s
  {
    hide Live, Typed, Registered, Named, WellFormedBodies, Roles, Callbacks, Waiting;
    var u := At(s, if t.field == XdgSurfaceSurface then SurfaceXdg else if t.field == SubsurfaceSurface
      then SurfaceSubsurface else SurfaceViewport);
    assert Linked(u) && Target(h, u) == t.owner && Back(u, t.owner) == t;
  }

  lemma ChildEnds(h: Heap, s: Ptr, c: Ptr)
    requires CoreInv(h) && s in h.mem && h.mem[s].body.Surface? && c in h.mem[s].body.children
    ensures Target(h, At(c, SubsurfaceParent)) == s
  {
    assert WellFormed(h.mem[s].body);
    LinkEnds(h, Child(s, c));
  }

  /** A surface's count: its registry entry, and one for each object that points back at it, which are
      exactly the objects it points to. */
  lemma SurfaceCount(h: Heap, s: Ptr)
    requires Inv(h) && s in h.mem && h.mem[s].body.Surface?
    ensures var b := h.mem[s].body;
      h.mem[s].refs == 1 + Is(b.xdg != NULL) + Is(b.subsurface != NULL) + Is(b.viewport != NULL) + |b.children|
  {
    var b := h.mem[s].body;
    SurfaceChildren(h, s);
    SurfaceSlotsSize(b);
    hide CoreInv, SurfaceSlots, Target, In;
    forall t ensures t in In(h, s) <==> t in SurfaceSlots(b) {
      if Target(h, t) == s { SurfaceHolders(h, s, t); }
      if t in SurfaceSlots(b) { SurfaceHeld(h, s, t); }
    }
    assert Extra(h, s) == 0;
    assert In(h, s) == SurfaceSlots(b);
  }

  lemma SurfaceChildren(h: Heap, s: Ptr)
    requires CoreInv(h) && s in h.mem && h.mem[s].body.Surface?
    ensures s != NULL && NoDuplicates(h.mem[s].body.children)
  {
    assert WellFormed(h.mem[s].body);
  }

  lemma SubsurfaceHeld(h: Heap, p: Ptr, t: Slot)
    requires CoreInv(h) && p in h.mem && h.mem[p].body.Subsurface? && t in SubsurfaceSlots(h.mem[p].body, p)
    ensures Target(h, t) == p
  {
    if t.Reg? { ObjectOf(h, p); }
    if t.At? { LinkEnds(h, At(p, SubsurfaceSurface)); }
    if t.Child? { LinkEnds(h, At(p, SubsurfaceParent)); }
  }

  lemma SubsurfaceHolder(h: Heap, p: Ptr, t: Slot)
    requires CoreInv(h) && p in h.mem && h.mem[p].body.Subsurface? && Target(h, t) == p
    ensures t in SubsurfaceSlots(h.mem[p].body, p)
  {
    SubsurfaceHolders(h, p);
    if Linked(t) { LinkEnds(h, t); }
  }

  function SubsurfaceSlots(b: Body, p: Ptr): set<Slot>
    requires b.Subsurface?
  {
    {Reg(b.obj)} + One(b.surface != NULL, At(b.surface, SurfaceSubsurface)) + One(b.parent != NULL, Child(b.parent, p))
  }

  lemma SubsurfaceIn(h: Heap, p: Ptr)
    requires CoreInv(h) && p in h.mem && h.mem[p].body.Subsurface? && p != NULL
    ensures In(h, p) == SubsurfaceSlots(h.mem[p].body, p)
  {
    hide CoreInv, Target, In, SubsurfaceSlots;
    forall t ensures t in In(h, p) <==> t in SubsurfaceSlots(h.mem[p].body, p) {
      if Target(h, t) == p { SubsurfaceHolder(h, p, t); }
      if t in SubsurfaceSlots(h.mem[p].body, p) { SubsurfaceHeld(h, p, t); }
    }
  }

  lemma SubsurfaceSlotsSize(b: Body, p: Ptr)
    requires b.Subsurface?
    ensures |SubsurfaceSlots(b, p)| == 1 + Is(b.surface != NULL) + Is(b.parent != NULL)
  {
    assert {Reg(b.obj)} !! One(b.surface != NULL, At(b.surface, SurfaceSubsurface)) !! One(b.parent != NULL,
      Child(b.parent, p));
  }

  /** A subsurface's count: its registry entry, its surface and its parent. */
  lemma SubsurfaceCount(h: Heap, p: Ptr)
    requires Inv(h) && p in h.mem && h.mem[p].body.Subsurface?
    ensures h.mem[p].refs == 1 + Is(h.mem[p].body.surface != NULL) + Is(h.mem[p].body.parent != NULL)
  {
    assert p != NULL;
    SubsurfaceIn(h, p);
    SubsurfaceSlotsSize(h.mem[p].body, p);
    hide CoreInv, Target, In, SubsurfaceSlots;
    assert Extra(h, p) == 0;
  }

  lemma ViewportHeld(h: Heap, p: Ptr, t: Slot)
    requires CoreInv(h) && p in h.mem && h.mem[p].body.Viewport?
    ensures Target(h, t) == p <==> t in ViewportSlots(h.mem[p].body)
  {
    ViewportHolders(h, p);
    ObjectOf(h, p);
    if h.mem[p].body.surface != NULL { LinkEnds(h, At(p, ViewportSurface)); }
  }

  function ViewportSlots(b: Body): set<Slot>
    requires b.Viewport?
  {
    {Reg(b.obj)} + One(b.surface != NULL, At(b.surface, SurfaceViewport))
  }

  /** A viewport's count: its registry entry and its surface. */
  lemma ViewportCount(h: Heap, p: Ptr)
    requires Inv(h) && p in h.mem && h.mem[p].body.Viewport?
    ensures h.mem[p].refs == 1 + Is(h.mem[p].body.surface != NULL)
  {
    var b := h.mem[p].body;
    assert p != NULL;
    hide CoreInv, Target, In;
    forall t ensures t in In(h, p) <==> t in ViewportSlots(b) { ViewportHeld(h, p, t); }
    assert Extra(h, p) == 0;
    assert In(h, p) == ViewportSlots(b);
  }

  lemma XdgSurfaceHolders(h: Heap, x: Ptr, t: Slot)
    requires CoreInv(h) && x in h.mem && h.mem[x].body.XdgSurface?
    ensures Target(h, t) == x <==>
      t in EntrySlots(h, x) + One(h.mem[x].body.surface != NULL, At(h.mem[x].body.surface, SurfaceXdg))
  {
    var s := h.mem[x].body.surface;
    if s != NULL { LinkEnds(h, At(x, XdgSurfaceSurface)); }
    if Target(h, t) == x {
      assert Fits(h, t, h.mem[x].body);
      if Linked(t) { LinkEnds(h, t); }
    }
  }

  /** An xdg_surface's count: its registry entries, of which one may be a toplevel, and its surface. */
  lemma XdgSurfaceCount(h: Heap, x: Ptr)
    requires Inv(h) && x in h.mem && h.mem[x].body.XdgSurface?
    ensures h.mem[x].refs == |Entries(h, x)| + Is(h.mem[x].body.surface != NULL)
  {
    var s := h.mem[x].body.surface;
    assert x != NULL && Extra(h, x) == 0;
    forall t ensures t in In(h, x) <==> t in EntrySlots(h, x) + One(s != NULL, At(s, SurfaceXdg)) {
      XdgSurfaceHolders(h, x, t);
    }
    Sizes(h, x, SurfaceXdg);
    hide CoreInv, EntrySlots, Entries, Target, In;
    assert In(h, x) == EntrySlots(h, x) + One(s != NULL, At(s, SurfaceXdg));
  }

  // ---------------------------------------------------------------- what is left without a client

  /** A buffer nobody can name any more, kept by its release callback alone. */
  predicate Releasing(h: Heap, b: Ptr) {
    b in h.mem && h.mem[b].body.Buffer? && h.mem[b].refs == 1 && Listens(h, h.mem[b].body.cb, BufferReleased, b)
  }

  /** What the registry still holds stores no pointer: `wl_display`, globals and callbacks that wait. */
  predicate NoClientObjects(h: Heap) { forall id :: id in h.reg ==> NoData(h.reg[id].kind) }

  /** When the last object of a connection is gone, whatever the order they went in, all that is left
      are buffers about to be released, their pools and their pixels, and pixels that are shown. */
  lemma NothingButShown(h: Heap, p: Ptr)
    requires Inv(h) && NoClientObjects(h) && p in h.mem
    ensures
      || Releasing(h, p)
      || (h.mem[p].body.Pool? && exists b :: Releasing(h, b) && h.mem[b].body.pool == p)
      || (h.mem[p].body.Pixels? && ((exists b :: Releasing(h, b) && h.mem[b].body.pixels == p) || exists t: Slot ::
        t.Quad? && Target(h, t) == p))
  {
    hide Releasing;
    NothingNamed(h, p);
    if h.mem[p].body.Buffer? {
      BufferLeft(h, p);
    } else {
      LeafLeft(h, p);
    }
  }

  lemma NothingNamed(h: Heap, p: Ptr)
    requires Inv(h) && NoClientObjects(h) && p in h.mem
    ensures p != NULL && h.mem[p].refs >= 1 && (h.mem[p].body.Buffer? || IsLeaf(h.mem[p].body))
  {
    if h.mem[p].body.XdgSurface? {
      NoEntries(h, p);
      XdgSurfaceCount(h, p);
    }
  }

  lemma NoEntries(h: Heap, p: Ptr)
    requires Named(h) && NoClientObjects(h) && p != NULL
    ensures Entries(h, p) == {}
  {
  }

  lemma BufferLeft(h: Heap, b: Ptr)
    requires Inv(h) && NoClientObjects(h) && b in h.mem && h.mem[b].body.Buffer?
    ensures Releasing(h, b)
  {
    BufferCount(h, b);
    forall o | o in h.mem ensures o !in Storing(h, b, SurfacePending) && o !in Storing(h, b, SurfaceActive) {
      NothingNamed(h, o);
    }
    assert Storing(h, b, SurfacePending) == {} && Storing(h, b, SurfaceActive) == {};
    NothingNamed(h, b);
  }

  lemma LeafLeft(h: Heap, p: Ptr)
    requires Inv(h) && NoClientObjects(h) && p in h.mem && IsLeaf(h.mem[p].body) && p != NULL
    ensures
      || (h.mem[p].body.Pool? && exists b :: Releasing(h, b) && h.mem[b].body.pool == p)
      || (h.mem[p].body.Pixels? && ((exists b :: Releasing(h, b) && h.mem[b].body.pixels == p) || exists t: Slot ::
        t.Quad? && Target(h, t) == p))
  {
    LiveIffHeld(h, p);
    var t :| Target(h, t) == p;
    assert Fits(h, t, h.mem[p].body);
    if Linked(t) { LinkEnds(h, t); }
    if t.At? {
      NothingNamed(h, t.owner);
      BufferLeft(h, t.owner);
    }
  }
}
