/** What holds of the compositor's heap between any two requests or page flips. */
module Invariant {
  import opened ListSpec
  import opened Memory

  /** Every count equals the number of holders; in particular no slot holds a freed address. */
  ghost predicate Balanced(h: Heap) { forall p :: p != NULL ==> Extra(h, p) == 0 }

  predicate Live(h: Heap) { NULL !in h.mem && forall p :: p in h.mem ==> h.mem[p].refs >= 1 }

  // ---------------------------------------------------------------- types of pointers

  predicate KindFits(k: Kind, b: Body) {
    match k
    case KGlobal | KCallback | KFeedback => false
    case KPool => b.Pool?
    case KBuffer => b.Buffer?
    case KSurface => b.Surface?
    case KSubsurface => b.Subsurface?
    case KViewport => b.Viewport?
    case KXdgSurface | KToplevel => b.XdgSurface?
  }

  /** May slot t hold a pointer to an object with body b? */
  predicate Fits(h: Heap, t: Slot, b: Body) {
    match t
    case Reg(id) => id in h.reg && KindFits(h.reg[id].kind, b)
    case At(_, BufferPool) => b.Pool?
    case At(_, BufferPixels) => b.Pixels?
    case At(_, SurfacePending) => b.Buffer?
    case At(_, SurfaceActive) => b.Buffer?
    case Armed(_) => b.Buffer?
    case Quad(_, _) => b.Pixels?
    case _ => true
  }

  ghost predicate Typed(h: Heap) {
    forall t :: Target(h, t) in h.mem ==> Fits(h, t, h.mem[Target(h, t)].body)
  }

  // ---------------------------------------------------------------- forward and back links

  /** Slots that come in pairs: one end of a surface link and the other. */
  predicate Linked(t: Slot) {
    t.Child? ||
    (t.At? && t.field in {SurfaceXdg, SurfaceSubsurface, SurfaceViewport,
                          XdgSurfaceSurface, SubsurfaceSurface, SubsurfaceParent, ViewportSurface})
  }

  /** The slot of p that must point back at the owner of t. */
  function Back(t: Slot, p: Ptr): Slot
    requires Linked(t)
  {
    match t
    case Child(o, c) => At(c, SubsurfaceParent)
    case At(o, SurfaceXdg) => At(p, XdgSurfaceSurface)
    case At(o, SurfaceSubsurface) => At(p, SubsurfaceSurface)
    case At(o, SurfaceViewport) => At(p, ViewportSurface)
    case At(o, XdgSurfaceSurface) => At(p, SurfaceXdg)
    case At(o, SubsurfaceSurface) => At(p, SurfaceSubsurface)
    case At(o, SubsurfaceParent) => Child(p, o)
    case At(o, ViewportSurface) => At(p, SurfaceViewport)
    case _ => t
  }

  ghost predicate Mutual(h: Heap) {
    forall t :: Linked(t) && Target(h, t) != NULL ==> Target(h, Back(t, Target(h, t))) == t.owner
  }

  // ---------------------------------------------------------------- registry

  function KindOf(b: Body): Kind {
    match b
    case Pool => KPool
    case Pixels => KGlobal
    case Buffer(_, _, _, _) => KBuffer
    case Surface(_, _, _, _, _, _, _, _, _, _, _, _, _, _) => KSurface
    case Subsurface(_, _, _, _) => KSubsurface
    case Viewport(_, _) => KViewport
    case XdgSurface(_, _) => KXdgSurface
  }

  /** Bodies that are registered under their own `obj` id: surfaces, subsurfaces and viewports for as
      long as they live, an xdg_surface while it has a surface, a buffer until `obj` is cleared. */
  predicate HasObject(b: Body) {
    b.Surface? || b.Subsurface? || b.Viewport? || (b.Buffer? && b.obj != 0) || (b.XdgSurface? && b.surface != NULL)
  }

  predicate Registered(h: Heap) {
    forall p :: p in h.mem && HasObject(h.mem[p].body) ==>
      var b := h.mem[p].body;
      b.obj in h.reg && h.reg[b.obj] == Object(KindOf(b), p)
  }

  predicate NoData(k: Kind) { k.KGlobal? || k.KCallback? || k.KFeedback? }

  function ObjectId(b: Body): Id {
    if b.Pool? || b.Pixels? then 0 else b.obj
  }

  /** A registry entry and the object it registers agree on the id. */
  predicate Named(h: Heap) {
    && 0 !in h.reg
    && forall id :: id in h.reg ==>
      var o := h.reg[id];
      if NoData(o.kind) then o.data == NULL
      else
        && o.data in h.mem && KindFits(o.kind, h.mem[o.data].body)
        && (!o.kind.KToplevel? && !o.kind.KPool? ==> h.mem[o.data].body.obj == id)
  }

  // ---------------------------------------------------------------- surfaces

  const MAX_FRAMES := 8

  predicate WellFormed(b: Body) {
    && (b.Surface? ==>
      && (b.pending != NULL ==> b.attached)
      && NoDuplicates(b.children) && NULL !in b.children
      && |b.frames| <= MAX_FRAMES
      && |b.feedbacks| <= MAX_FRAMES)
    && (b.Subsurface? && b.surface != NULL ==> b.surface != b.parent)
    && (b.Buffer? ==> b.pixels != NULL)
  }

  /** Every pixel buffer belongs to one wl_buffer. */
  predicate PixelsUnshared(h: Heap) {
    forall p, q | p in h.mem && q in h.mem && h.mem[p].body.Buffer? && h.mem[q].body.Buffer? ::
      h.mem[p].body.pixels == h.mem[q].body.pixels ==> p == q
  }

  predicate WellFormedBodies(h: Heap) { PixelsUnshared(h) && forall p :: p in h.mem ==> WellFormed(h.mem[p].body) }

  /** A surface with a subsurface has that role, and a live toplevel is the only one of its surface. */
  predicate Roles(h: Heap) {
    && (forall p :: p in h.mem && h.mem[p].body.Surface? && h.mem[p].body.subsurface != NULL ==>
          h.mem[p].body.role == SubsurfaceRole)
    && (forall i :: i in h.reg && h.reg[i].kind == KToplevel ==> ToplevelRoleOk(h, h.reg[i].data))
    && (forall i, j | i in h.reg && j in h.reg && h.reg[i].kind == KToplevel && h.reg[j] == h.reg[i] ::
      HasSurface(h, h.reg[i].data) ==> i == j)
  }

  predicate HasSurface(h: Heap, x: Ptr) {
    x in h.mem && h.mem[x].body.XdgSurface? && h.mem[x].body.surface != NULL
  }

  predicate ToplevelRoleOk(h: Heap, x: Ptr) {
    HasSurface(h, x) && h.mem[x].body.surface in h.mem && h.mem[h.mem[x].body.surface].body.Surface? ==>
      h.mem[h.mem[x].body.surface].body.role == ToplevelRole
  }

  function ChildrenOf(mem: map<Ptr, Block>, s: Ptr): seq<Ptr> {
    if s in mem && mem[s].body.Surface? then mem[s].body.children else []
  }

  /** The surface behind a subsurface, if it still has one. */
  function SurfaceOf(mem: map<Ptr, Block>, ss: Ptr): Ptr {
    if ss in mem && mem[ss].body.Subsurface? then mem[ss].body.surface else NULL
  }

  // ---------------------------------------------------------------- output callbacks

  /** The callback field that a listener's node belongs to. */
  predicate CallbackOk(h: Heap, a: Ptr, c: Callback) {
    match c.listener
    case Redraw => true
    case BufferReleased => c.userdata in h.mem && h.mem[c.userdata].body.Buffer? && h.mem[c.userdata].body.cb == a
    case FramesDone =>
      && c.userdata in h.mem && h.mem[c.userdata].body.Surface?
      && h.mem[c.userdata].body.frameCb == a && h.mem[c.userdata].body.output == c.output
    case Presented =>
      && c.userdata in h.mem && h.mem[c.userdata].body.Surface?
      && h.mem[c.userdata].body.feedbackCb == a && h.mem[c.userdata].body.output == c.output
  }

  predicate Listens(h: Heap, a: Ptr, l: Listener, p: Ptr) {
    a in h.cbs && h.cbs[a].listener == l && h.cbs[a].userdata == p
  }

  predicate ArmedOk(h: Heap, p: Ptr, b: Body) {
    && (b.Buffer? && b.cb != NULL ==> Listens(h, b.cb, BufferReleased, p))
    && (b.Surface? && b.frameCb != NULL ==> Listens(h, b.frameCb, FramesDone, p))
    && (b.Surface? && b.feedbackCb != NULL ==> Listens(h, b.feedbackCb, Presented, p))
  }

  /** A callback field is non-null exactly when its node is listed, and no node names a dead object. */
  predicate Callbacks(h: Heap) {
    && NULL !in h.cbs
    && (forall a :: a in h.cbs ==> h.cbs[a].output != 0 && CallbackOk(h, a, h.cbs[a]))
    && (forall p :: p in h.mem ==> ArmedOk(h, p, h.mem[p].body))
  }

  // ---------------------------------------------------------------- frame callbacks

  function Frames(h: Heap, p: Ptr): seq<Id> {
    if p in h.mem && h.mem[p].body.Surface? then h.mem[p].body.frames else []
  }

  function Feedbacks(h: Heap, p: Ptr): seq<Id> {
    if p in h.mem && h.mem[p].body.Surface? then h.mem[p].body.feedbacks else []
  }

  predicate RegisteredAs(h: Heap, id: Id, k: Kind) { id in h.reg && h.reg[id] == Object(k, NULL) }

  /** Every id waiting for an answer is a registered callback, and waits in one place only. */
  ghost predicate Waiting(h: Heap) {
    && (forall p, i :: 0 <= i < |Frames(h, p)| ==> RegisteredAs(h, Frames(h, p)[i], KCallback))
    && (forall p, i :: 0 <= i < |Feedbacks(h, p)| ==> RegisteredAs(h, Feedbacks(h, p)[i], KFeedback))
    && (forall p, q, i, j ::
      0 <= i < |Frames(h, p)| && 0 <= j < |Frames(h, q)| && Frames(h, p)[i] == Frames(h, q)[j] ==> p == q && i == j)
    && (forall p, q, i, j | 0 <= i < |Feedbacks(h, p)| && 0 <= j < |Feedbacks(h, q)| ::
      Feedbacks(h, p)[i] == Feedbacks(h, q)[j] ==> p == q && i == j)
  }

  /** Everything except the counts. */
  ghost predicate CoreInv(h: Heap) {
    Live(h) && Typed(h) && Mutual(h) && Registered(h) && Named(h) && WellFormedBodies(h) && Roles(h) && Callbacks(h) &&
      Waiting(h)
  }

  ghost predicate Inv(h: Heap) { Balanced(h) && CoreInv(h) }

  // ---------------------------------------------------------------- consequences

  /** A stored pointer is never dangling: what a slot names is live. */
  lemma Held(h: Heap, t: Slot)
    requires Target(h, t) != NULL && Extra(h, Target(h, t)) >= 0
    ensures Target(h, t) in h.mem && h.mem[Target(h, t)].refs >= 1
  {
    HeldOnce(h, t);
  }

  /** Two holders keep an object alive through one c_unref. */
  lemma HeldTwice(h: Heap, t: Slot, u: Slot)
    requires t != u && Target(h, t) == Target(h, u) != NULL
    ensures Refs(h, Target(h, t)) >= 2 + Extra(h, Target(h, t))
  {
    var p := Target(h, t);
    assert {t, u} <= In(h, p);
    assert |{t, u}| == 2;
    SubsetSize({t, u}, In(h, p));
  }

  lemma HeldOnce(h: Heap, t: Slot)
    requires Target(h, t) != NULL
    ensures Refs(h, Target(h, t)) >= 1 + Extra(h, Target(h, t))
  {
    var p := Target(h, t);
    assert {t} <= In(h, p);
    SubsetSize({t}, In(h, p));
  }

  lemma OnlyHolder(h: Heap, t: Slot)
    requires Target(h, t) != NULL
    requires forall u :: Target(h, u) == Target(h, t) ==> u == t
    ensures Refs(h, Target(h, t)) == 1 + Extra(h, Target(h, t))
  {
    assert In(h, Target(h, t)) == {t};
  }

  lemma {:induction false} SubsetSize<T>(a: set<T>, b: set<T>)
    requires a <= b
    ensures |a| <= |b|
  {
    if a != {} {
      var x :| x in a;
      SubsetSize(a - {x}, b - {x});
    }
  }

  /** An object is in memory exactly while somebody holds it: nothing leaks and nothing is freed early. */
  lemma LiveIffHeld(h: Heap, p: Ptr)
    requires Inv(h) && p != NULL
    ensures p in h.mem <==> exists t :: Target(h, t) == p
  {
    if p in h.mem {
      assert Extra(h, p) == 0;
      assert In(h, p) != {};
      var t :| t in In(h, p);
      assert Target(h, t) == p;
    }
    if t :| Target(h, t) == p { Held(h, t); }
  }

  // ---------------------------------------------------------------- facts the handlers start from

  lemma RegistryEntry(h: Heap, id: Id)
    requires CoreInv(h) && id in h.reg && !NoData(h.reg[id].kind)
    ensures var p := h.reg[id].data;
      p != NULL && Target(h, Reg(id)) == p && p in h.mem && h.mem[p].refs >= 1 &&
        KindFits(h.reg[id].kind, h.mem[p].body) &&
      (!h.reg[id].kind.KToplevel? && !h.reg[id].kind.KPool? ==> h.mem[p].body.obj == id != 0)
  {
  }

  /** Both ends of a link point at each other and are objects of the right type. */
  lemma LinkEnds(h: Heap, t: Slot)
    requires CoreInv(h) && Linked(t) && Target(h, t) != NULL
    ensures var p := Target(h, t); var b := Back(t, p);
      p in h.mem && h.mem[p].refs >= 1 && Target(h, b) == t.owner != NULL && t.owner in h.mem &&
        h.mem[t.owner].refs >= 1 &&
      b != t && (b.At? ==> Has(h.mem[p].body, b.field)) && (b.Child? ==> h.mem[p].body.Surface?) &&
      HasObject(h.mem[p].body) && HasObject(h.mem[t.owner].body)
  {
  }

  lemma ObjectOf(h: Heap, p: Ptr)
    requires CoreInv(h) && p in h.mem && HasObject(h.mem[p].body)
    ensures var id := h.mem[p].body.obj;
      id in h.reg && h.reg[id] == Object(KindOf(h.mem[p].body), p) && Target(h, Reg(id)) == p
  {
  }

  lemma AlwaysLive(h: Heap)
    requires CoreInv(h)
    ensures Live(h)
  {
  }

  lemma AtField(h: Heap, p: Ptr, f: Field)
    requires p in h.mem
    ensures Target(h, At(p, f)) == Get(h.mem[p].body, f)
  {
  }

  /** A subsurface is held by the registry, by its surface and by its parent's list of children. */
  lemma SubsurfaceHolders(h: Heap, ss: Ptr)
    requires CoreInv(h) && ss in h.mem && h.mem[ss].body.Subsurface?
    ensures forall t :: Target(h, t) == ss ==>
      || t == Reg(h.mem[ss].body.obj)
      || (t.At? && t.owner != NULL && t == At(h.mem[ss].body.surface, SurfaceSubsurface))
      || (t.Child? && t.owner != NULL && t == Child(h.mem[ss].body.parent, ss))
  {
    forall t | Target(h, t) == ss
      ensures
        || t == Reg(h.mem[ss].body.obj)
        || (t.At? && t.owner != NULL && t == At(h.mem[ss].body.surface, SurfaceSubsurface))
        || (t.Child? && t.owner != NULL && t == Child(h.mem[ss].body.parent, ss))
    {
      assert Fits(h, t, h.mem[ss].body);
      if Linked(t) { LinkEnds(h, t); }
    }
  }

  lemma RegNothing(h: Heap, id: Id)
    requires id !in h.reg
    ensures Target(h, Reg(id)) == NULL
  {
  }

  lemma AtNothing(h: Heap, p: Ptr)
    requires p !in h.mem
    ensures forall f :: Target(h, At(p, f)) == NULL
  {
  }

  /** A viewport is held by the registry and, while it is linked, by its surface. */
  lemma ViewportHolders(h: Heap, vp: Ptr)
    requires CoreInv(h) && vp in h.mem && h.mem[vp].body.Viewport?
    ensures forall t :: Target(h, t) == vp ==>
      t == Reg(h.mem[vp].body.obj) || (t.At? && t.owner != NULL && t == At(h.mem[vp].body.surface, SurfaceViewport))
    ensures forall t :: Owns(t, vp) && Target(h, t) != NULL ==> t == At(vp, ViewportSurface)
  {
    forall t | Target(h, t) == vp
      ensures t == Reg(h.mem[vp].body.obj) ||
        (t.At? && t.owner != NULL && t == At(h.mem[vp].body.surface, SurfaceViewport))
    {
      assert Fits(h, t, h.mem[vp].body);
      if Linked(t) { LinkEnds(h, t); }
    }
  }
}
