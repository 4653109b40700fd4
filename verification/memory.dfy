/** The compositor's C heap, as far as reference counting sees it: every object that
    `util/mem.c` allocates is a block with a count and a body, a pointer is an address,
    and freeing a block removes its address. Whether a count is right is judged against
    the pointers actually stored, so nothing here is bookkeeping that could be wrong twice. */
module Memory {

  type Ptr = nat
  const NULL: Ptr := 0

  /** Protocol object ids; 0 stands for the NULL `obj` pointer. */
  type Id = nat

  /** Outputs; 0 stands for a surface that has no output yet. */
  type OutputId = nat

  datatype Role = NoRole | ToplevelRole | SubsurfaceRole

  datatype Body =
    | Pool
    | Pixels
    | Buffer(obj: Id, pool: Ptr, pixels: Ptr, cb: Ptr)
    | Surface(obj: Id, pending: Ptr, attached: bool, active: Ptr, frames: seq<Id>, feedbacks: seq<Id>,
              role: Role, xdg: Ptr, subsurface: Ptr, viewport: Ptr, children: seq<Ptr>,
              frameCb: Ptr, feedbackCb: Ptr, output: OutputId)
    | Subsurface(obj: Id, surface: Ptr, parent: Ptr, sync: bool)
    | Viewport(obj: Id, surface: Ptr)
    | XdgSurface(obj: Id, surface: Ptr)

  datatype Block = Block(refs: nat, body: Body)

  datatype Kind = KGlobal | KCallback | KFeedback | KPool | KBuffer |
    KSurface | KSubsurface | KViewport | KXdgSurface | KToplevel

  /** A registry entry: the interface it speaks and the data pointer it owns, if any. */
  datatype Object = Object(kind: Kind, data: Ptr)

  /** The registry of a new connection: `wl_display`, which owns no data. */
  const NEW_REGISTRY: map<Id, Object> := map[1 := Object(KGlobal, NULL)]

  datatype Listener = Redraw | FramesDone | Presented | BufferReleased

  /** A node of some output's callback list. */
  datatype Callback = Callback(listener: Listener, userdata: Ptr, output: OutputId)

  datatype Heap = Heap(mem: map<Ptr, Block>, reg: map<Id, Object>, cbs: map<Ptr, Callback>, scene: map<nat, seq<Ptr>>)

  // ---------------------------------------------------------------- counted pointers

  datatype Field =
    | BufferPool | BufferPixels
    | SurfacePending | SurfaceActive | SurfaceXdg | SurfaceSubsurface | SurfaceViewport
    | SubsurfaceSurface | SubsurfaceParent | ViewportSurface | XdgSurfaceSurface

  /** A place that stores one counted pointer. */
  datatype Slot =
    | Reg(id: Id)
    | At(owner: Ptr, field: Field)
    | Child(owner: Ptr, child: Ptr)
    | Armed(cb: Ptr)
    | Quad(node: nat, index: nat)

  predicate Has(body: Body, f: Field) {
    match f
    case BufferPool | BufferPixels => body.Buffer?
    case SurfacePending | SurfaceActive | SurfaceXdg | SurfaceSubsurface | SurfaceViewport => body.Surface?
    case SubsurfaceSurface | SubsurfaceParent => body.Subsurface?
    case ViewportSurface => body.Viewport?
    case XdgSurfaceSurface => body.XdgSurface?
  }

  function Get(body: Body, f: Field): Ptr {
    if !Has(body, f) then NULL else
    match f
    case BufferPool => body.pool
    case BufferPixels => body.pixels
    case SurfacePending => body.pending
    case SurfaceActive => body.active
    case SurfaceXdg => body.xdg
    case SurfaceSubsurface => body.subsurface
    case SurfaceViewport => body.viewport
    case SubsurfaceSurface | ViewportSurface | XdgSurfaceSurface => body.surface
    case SubsurfaceParent => body.parent
  }

  function Put(body: Body, f: Field, p: Ptr): (r: Body)
    requires Has(body, f)
    ensures forall g :: Has(r, g) <==> Has(body, g)
    ensures forall g :: Get(r, g) == if g == f then p else Get(body, g)
  {
    match f
    case BufferPool => body.(pool := p)
    case BufferPixels => body.(pixels := p)
    case SurfacePending => body.(pending := p)
    case SurfaceActive => body.(active := p)
    case SurfaceXdg => body.(xdg := p)
    case SurfaceSubsurface => body.(subsurface := p)
    case SurfaceViewport => body.(viewport := p)
    case SubsurfaceSurface => Subsurface(body.obj, p, body.parent, body.sync)
    case SubsurfaceParent => body.(parent := p)
    case ViewportSurface => Viewport(body.obj, p)
    case XdgSurfaceSurface => XdgSurface(body.obj, p)
  }

  /** What a slot points to; NULL for a slot that is empty or does not exist. */
  function Target(h: Heap, t: Slot): Ptr {
    match t
    case Reg(id) => if id in h.reg then h.reg[id].data else NULL
    case At(o, f) => if o in h.mem then Get(h.mem[o].body, f) else NULL
    case Child(o, c) => if o in h.mem && h.mem[o].body.Surface? && c in h.mem[o].body.children then c else NULL
    case Armed(a) => if a in h.cbs && h.cbs[a].listener.BufferReleased? then h.cbs[a].userdata else NULL
    case Quad(n, i) => if n in h.scene && i < |h.scene[n]| then h.scene[n][i] else NULL
  }

  ghost function Slots(h: Heap): set<Slot> {
    (set id | id in h.reg :: Reg(id)) +
    (set o, f: Field | o in h.mem :: At(o, f)) +
    (set o, c | o in h.mem && h.mem[o].body.Surface? && c in h.mem[o].body.children :: Child(o, c)) +
    (set a | a in h.cbs :: Armed(a)) +
    (set n, i: nat | n in h.scene && 0 <= i < |h.scene[n]| :: Quad(n, i))
  }

  /** The holders of p: every slot whose pointer is p. */
  ghost function In(h: Heap, p: Ptr): (r: set<Slot>)
    requires p != NULL
    ensures forall t :: t in r <==> Target(h, t) == p
  {
    var r := set t | t in Slots(h) && Target(h, t) == p;
    forall t | Target(h, t) == p ensures t in Slots(h) { InSlots(h, t); }
    r
  }

  lemma InSlots(h: Heap, t: Slot)
    requires Target(h, t) != NULL
    ensures t in Slots(h)
  {
    match t
    case Reg(id) =>
    case At(o, f) =>
    case Child(o, c) =>
    case Armed(a) =>
    case Quad(n, i) =>
  }

  function Refs(h: Heap, p: Ptr): nat {
    if p in h.mem then h.mem[p].refs else 0
  }

  /** How far p's count exceeds the number of its holders. A freed address counts 0. */
  ghost function Extra(h: Heap, p: Ptr): int {
    if p == NULL then 0 else Refs(h, p) - |In(h, p)|
  }

  function Is(b: bool): nat { if b then 1 else 0 }

  /** Overwriting one slot moves exactly one unit of Extra. */
  lemma SlotChange(h: Heap, h': Heap, t: Slot)
    requires forall u :: u != t ==> Target(h', u) == Target(h, u)
    requires forall p :: Refs(h', p) == Refs(h, p)
    ensures forall p :: p != NULL ==>
      Extra(h', p) == Extra(h, p) + Is(Target(h, t) == p) - Is(Target(h', t) == p)
  {
    forall p | p != NULL
      ensures Extra(h', p) == Extra(h, p) + Is(Target(h, t) == p) - Is(Target(h', t) == p)
    {
      var s, s' := In(h, p), In(h', p);
      assert s' - {t} == s - {t};
      assert |s' - {t}| == |s'| - Is(t in s');
      assert |s - {t}| == |s| - Is(t in s);
    }
  }

  /** Changing counts only moves Extra by the change of the count. */
  lemma CountChange(h: Heap, h': Heap, p: Ptr)
    requires p != NULL
    requires forall u :: Target(h', u) == Target(h, u)
    ensures Extra(h', p) == Extra(h, p) + Refs(h', p) - Refs(h, p)
  {
    assert In(h', p) == In(h, p);
  }

  // ---------------------------------------------------------------- dropping a reference

  predicate IsLeaf(body: Body) { body.Pool? || body.Pixels? }

  /** c_unref on an object without a defer function and without counted fields. */
  function DropLeaf(mem: map<Ptr, Block>, p: Ptr): map<Ptr, Block> {
    if p == NULL || p !in mem then mem
    else if mem[p].refs > 1 then mem[p := Block(mem[p].refs - 1, mem[p].body)]
    else mem - {p}
  }

  /** c_unref: the last reference to a buffer also drops its pixels and its pool. */
  function Drop(mem: map<Ptr, Block>, p: Ptr): map<Ptr, Block>
    requires p in mem
  {
    if mem[p].refs > 1 then mem[p := Block(mem[p].refs - 1, mem[p].body)]
    else if mem[p].body.Buffer? then DropLeaf(DropLeaf(mem, mem[p].body.pixels), mem[p].body.pool) - {p}
    else mem - {p}
  }

  predicate Owns(t: Slot, p: Ptr) { (t.At? || t.Child?) && t.owner == p }

  ghost function Holding(body: Body, q: Ptr): set<Field> { set f: Field | Get(body, f) == q }

  /** How many counted pointers to q a body stores. */
  ghost function OutDegree(body: Body, q: Ptr): nat {
    |Holding(body, q)| + Is(body.Surface? && q in body.children)
  }

  /** Freeing p takes away the pointers p stored, and nothing else. */
  lemma FreeTargets(h: Heap, h': Heap, p: Ptr)
    requires h' == h.(mem := h.mem - {p})
    ensures forall t :: Target(h', t) == if Owns(t, p) then NULL else Target(h, t)
  {
    forall t ensures Target(h', t) == if Owns(t, p) then NULL else Target(h, t) {
      match t
      case Reg(id) =>
      case At(o, f) =>
      case Child(o, c) =>
      case Armed(a) =>
      case Quad(n, i) =>
    }
  }

  lemma {:induction false} ImageSize(p: Ptr, fs: set<Field>)
    ensures |set f | f in fs :: At(p, f)| == |fs|
  {
    if fs != {} {
      var g :| g in fs;
      ImageSize(p, fs - {g});
      var rest := set f | f in fs - {g} :: At(p, f);
      assert (set f | f in fs :: At(p, f)) == rest + {At(p, g)};
    }
  }

  /** The slots of p that point at q. */
  ghost function Owned(p: Ptr, b: Body, q: Ptr): set<Slot> {
    (set f | f in Holding(b, q) :: At(p, f)) + (if b.Surface? && q in b.children then {Child(p, q)} else {})
  }

  lemma OwnedSize(p: Ptr, b: Body, q: Ptr)
    ensures |Owned(p, b, q)| == OutDegree(b, q)
  {
    ImageSize(p, Holding(b, q));
    var fields := set f | f in Holding(b, q) :: At(p, f);
    var kid := if b.Surface? && q in b.children then {Child(p, q)} else {};
    assert fields !! kid;
  }

  lemma OwnedSlots(h: Heap, p: Ptr, q: Ptr)
    requires p in h.mem && q != NULL
    ensures forall t :: t in Owned(p, h.mem[p].body, q) <==> Target(h, t) == q && Owns(t, p)
  {
    forall t ensures t in Owned(p, h.mem[p].body, q) <==> Target(h, t) == q && Owns(t, p) {
      match t
      case Reg(id) =>
      case At(o, f) =>
      case Child(o, c) =>
      case Armed(a) =>
      case Quad(n, k) =>
    }
  }

  lemma FreeOne(h: Heap, h': Heap, p: Ptr, q: Ptr)
    requires p in h.mem && q != NULL
    requires h' == h.(mem := h.mem - {p})
    ensures |In(h', q)| == |In(h, q)| - OutDegree(h.mem[p].body, q)
  {
    hide Target, Owned, OutDegree;
    FreeTargets(h, h', p);
    OwnedSlots(h, p, q);
    OwnedSize(p, h.mem[p].body, q);
    assert In(h', q) == In(h, q) - Owned(p, h.mem[p].body, q);
    assert Owned(p, h.mem[p].body, q) <= In(h, q);
  }

  lemma DropLeafExtra(h: Heap, h': Heap, p: Ptr)
    requires h' == h.(mem := DropLeaf(h.mem, p))
    requires p != NULL ==> p in h.mem && h.mem[p].refs >= 1 && IsLeaf(h.mem[p].body)
    ensures forall q :: q != NULL ==> Extra(h', q) == Extra(h, q) - Is(q == p)
    ensures forall t :: Target(h', t) == Target(h, t)
  {
    forall t ensures Target(h', t) == Target(h, t) {
      match t
      case Reg(id) =>
      case At(o, f) =>
      case Child(o, c) =>
      case Armed(a) =>
      case Quad(n, i) =>
    }
    forall q | q != NULL ensures Extra(h', q) == Extra(h, q) - Is(q == p) {
      CountChange(h, h', q);
    }
  }

  /** The blocks that the last reference to p takes with it. */
  predicate Droppable(mem: map<Ptr, Block>, p: Ptr) {
    p in mem && mem[p].refs >= 1 && p != NULL &&
    (mem[p].body.Buffer? ==>
      var b := mem[p].body;
      && (b.pixels != NULL ==> b.pixels in mem && mem[b.pixels].refs >= 1 && mem[b.pixels].body.Pixels?)
      && (b.pool != NULL ==> b.pool in mem && mem[b.pool].refs >= 1 && mem[b.pool].body.Pool?))
  }

  predicate Freed(mem: map<Ptr, Block>, p: Ptr)
    requires p in mem
  {
    mem[p].refs == 1
  }

  /** What one dropped reference to p does to the set of blocks. */
  predicate Shrinks(mem: map<Ptr, Block>, mem': map<Ptr, Block>, p: Ptr)
    requires p in mem
  {
    && (forall q :: q in mem' ==> q in mem && mem'[q].body == mem[q].body && (mem[q].refs >= 1 ==> mem'[q].refs >= 1))
    && (!Freed(mem, p) ==> mem'.Keys == mem.Keys)
    && (Freed(mem, p) && !mem[p].body.Buffer? ==> mem'.Keys == mem.Keys - {p})
    && (Freed(mem, p) ==> p !in mem' && forall q :: q in mem && q != p && !IsLeaf(mem[q].body) ==> q in mem')
  }

  lemma DropShrinks(mem: map<Ptr, Block>, p: Ptr)
    requires Droppable(mem, p)
    ensures Shrinks(mem, Drop(mem, p), p)
  {
  }

  /** Dropping a reference lowers Extra of p by one. Freeing a buffer is neutral for its pixels and
      its pool; freeing anything else gives back the counts of the pointers it still stored. */
  lemma DropExtra(h: Heap, h': Heap, p: Ptr)
    requires Droppable(h.mem, p)
    requires h' == h.(mem := Drop(h.mem, p))
    ensures forall q :: q != NULL ==> Extra(h', q) == Extra(h, q) - Is(q == p) + GivenBack(h.mem, p, q)
    ensures forall t :: Target(h', t) == if Freed(h.mem, p) && Owns(t, p) then NULL else Target(h, t)
  {
    if h.mem[p].refs > 1 {
      forall t ensures Target(h', t) == Target(h, t) {
        match t
        case Reg(id) =>
        case At(o, f) =>
        case Child(o, c) =>
        case Armed(a) =>
        case Quad(n, k) =>
      }
      forall q | q != NULL ensures Extra(h', q) == Extra(h, q) - Is(q == p) {
        CountChange(h, h', q);
      }
    } else if h.mem[p].body.Buffer? {
      DropBufferExtra(h, h', p);
    } else {
      FreeTargets(h, h', p);
      forall q | q != NULL
        ensures Extra(h', q) == Extra(h, q) - Is(q == p) + OutDegree(h.mem[p].body, q)
      {
        FreeOne(h, h', p, q);
      }
    }
  }

  function Single(b: bool, f: Field): set<Field> { if b then {f} else {} }

  lemma BufferOut(b: Body, q: Ptr)
    requires b.Buffer? && q != NULL
    ensures OutDegree(b, q) == Is(b.pool == q) + Is(b.pixels == q)
  {
    assert Holding(b, q) == Single(b.pool == q, BufferPool) + Single(b.pixels == q, BufferPixels);
  }

  lemma SubsurfaceFields(b: Body, q: Ptr)
    requires b.Subsurface? && q != NULL && forall f :: f != SubsurfaceSurface && f != SubsurfaceParent ==>
      Get(b, f) == NULL
    requires Get(b, SubsurfaceSurface) == b.surface && Get(b, SubsurfaceParent) == b.parent
    ensures OutDegree(b, q) == Is(b.surface == q) + Is(b.parent == q)
  {
    hide Get;
    assert Holding(b, q) == Single(b.surface == q, SubsurfaceSurface) + Single(b.parent == q, SubsurfaceParent);
  }

  lemma SubsurfaceOut(b: Body, q: Ptr)
    requires b.Subsurface? && q != NULL
    ensures OutDegree(b, q) == Is(b.surface == q) + Is(b.parent == q)
  {
    assert forall f :: f != SubsurfaceSurface && f != SubsurfaceParent ==> Get(b, f) == NULL;
    assert Get(b, SubsurfaceSurface) == b.surface && Get(b, SubsurfaceParent) == b.parent;
    SubsurfaceFields(b, q);
  }

  lemma UnlinkedOut(b: Body, q: Ptr)
    requires (b.Viewport? || b.XdgSurface?) && b.surface == NULL && q != NULL
    ensures OutDegree(b, q) == 0
  {
    assert Holding(b, q) == {};
  }

  lemma UnlinkedSurfaceOut(b: Body, q: Ptr)
    requires b.Surface? && b.xdg == NULL && b.subsurface == NULL && b.viewport == NULL && b.children == [] && q != NULL
    ensures OutDegree(b, q) == Is(b.pending == q) + Is(b.active == q)
  {
    assert Holding(b, q) == Single(b.pending == q, SurfacePending) + Single(b.active == q, SurfaceActive);
  }

  /** Dropping one leaf leaves other blocks as they were. */
  lemma DropLeafKeeps(mem: map<Ptr, Block>, p: Ptr, q: Ptr)
    requires q in mem && q != p
    ensures q in DropLeaf(mem, p) && DropLeaf(mem, p)[q] == mem[q]
  {
  }

  lemma DropBufferExtra(h: Heap, h': Heap, p: Ptr)
    requires Droppable(h.mem, p) && Freed(h.mem, p) && h.mem[p].body.Buffer?
    requires h' == h.(mem := Drop(h.mem, p))
    ensures forall q :: q != NULL ==> Extra(h', q) == Extra(h, q) - Is(q == p)
    ensures forall t :: Target(h', t) == if Owns(t, p) then NULL else Target(h, t)
  {
    var b := h.mem[p].body;
    var h1 := h.(mem := DropLeaf(h.mem, b.pixels));
    var h2 := h1.(mem := DropLeaf(h1.mem, b.pool));
    assert h' == h2.(mem := h2.mem - {p});
    hide Drop, DropLeaf, In, Target, OutDegree;
    if b.pool != NULL { DropLeafKeeps(h.mem, b.pixels, b.pool); }
    DropLeafKeeps(h.mem, b.pixels, p);
    DropLeafKeeps(h1.mem, b.pool, p);
    DropLeafExtra(h, h1, b.pixels);
    DropLeafExtra(h1, h2, b.pool);
    FreeTargets(h2, h', p);
    forall q | q != NULL ensures Extra(h', q) == Extra(h, q) - Is(q == p) {
      FreeOne(h2, h', p, q);
      BufferOut(b, q);
      assert Refs(h', q) == if q == p then 0 else Refs(h2, q);
      assert Refs(h2, p) == 1;
    }
  }

  ghost function GivenBack(mem: map<Ptr, Block>, p: Ptr, q: Ptr): nat
    requires p in mem
  {
    if Freed(mem, p) && !mem[p].body.Buffer? then OutDegree(mem[p].body, q) else 0
  }
}
