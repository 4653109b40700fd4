/** `compositor/scene.c`: a window node draws quads that point at pixel buffers and share in their
    counts. The node's quads are replaced as a whole when its window tree changes. */
module SceneQuads {
  import opened Memory
  import opened Invariant
  import opened Erasure
  import opened ClientState
  import opened BufferSteps

  type NodeId = nat

  // ---------------------------------------------------------------- counting quads

  ghost function QuadSlots(n: NodeId, quads: seq<Ptr>, q: Ptr): set<Slot> {
    set i: nat | i < |quads| && quads[i] == q :: Quad(n, i)
  }

  /** How often q occurs in a list of quads. */
  function Occurrences(quads: seq<Ptr>, q: Ptr): nat {
    if quads == [] then 0 else Occurrences(quads[..|quads| - 1], q) + Is(quads[|quads| - 1] == q)
  }

  lemma {:induction false} QuadSlotsSize(n: NodeId, quads: seq<Ptr>, q: Ptr)
    ensures |QuadSlots(n, quads, q)| == Occurrences(quads, q)
  {
    if quads != [] {
      var k := |quads| - 1;
      QuadSlotsSize(n, quads[..k], q);
      if quads[k] == q {
        assert QuadSlots(n, quads, q) == QuadSlots(n, quads[..k], q) + {Quad(n, k)};
      } else {
        assert QuadSlots(n, quads, q) == QuadSlots(n, quads[..k], q);
      }
    }
  }

  lemma OccurrencesNext(quads: seq<Ptr>, i: nat, q: Ptr)
    requires i < |quads|
    ensures Occurrences(quads[..i + 1], q) == Occurrences(quads[..i], q) + Is(quads[i] == q)
  {
    assert quads[..i + 1][..i] == quads[..i];
  }

  lemma {:induction false} OccurrencesPrefix(quads: seq<Ptr>, i: nat, q: Ptr)
    requires i <= |quads|
    ensures Occurrences(quads[..i], q) <= Occurrences(quads, q)
    ensures i < |quads| && quads[i] == q ==> Occurrences(quads[..i], q) < Occurrences(quads, q)
  {
    if i < |quads| {
      var k := |quads| - 1;
      if i < k { OccurrencesPrefix(quads[..k], i, q); assert quads[..k][..i] == quads[..i]; }
    } else {
      assert quads[..i] == quads;
    }
  }

  lemma OccursIn(quads: seq<Ptr>, q: Ptr)
    ensures Occurrences(quads, q) > 0 <==> q in quads
  {
    if q in quads {
      var i :| 0 <= i < |quads| && quads[i] == q;
      OccurrencesPrefix(quads, i, q);
    } else if quads != [] {
      assert quads[|quads| - 1] in quads;
      OccursIn(quads[..|quads| - 1], q);
    }
  }

  function QuadsOf(h: Heap, n: NodeId): seq<Ptr> { if n in h.scene then h.scene[n] else [] }

  lemma QuadSlotsAre(h: Heap, n: NodeId, q: Ptr)
    requires q != NULL
    ensures forall t :: t in QuadSlots(n, QuadsOf(h, n), q) <==> t.Quad? && t.node == n && Target(h, t) == q
  {
  }

  lemma Remainder<T>(a: set<T>, b: set<T>)
    requires b <= a
    ensures |a - b| == |a| - |b|
  {
  }

  /** Replacing the quads of node n moves the counts by the change of occurrences. */
  lemma SetQuadsExtra(h: Heap, h': Heap, n: NodeId, q: Ptr)
    requires q != NULL && Refs(h', q) == Refs(h, q)
    requires forall u: Slot :: !(u.Quad? && u.node == n) ==> Target(h', u) == Target(h, u)
    ensures Extra(h', q) == Extra(h, q) + Occurrences(QuadsOf(h, n), q) - Occurrences(QuadsOf(h', n), q)
  {
    hide Target, QuadSlots, In;
    var was, now := QuadSlots(n, QuadsOf(h, n), q), QuadSlots(n, QuadsOf(h', n), q);
    QuadSlotsAre(h, n, q);
    QuadSlotsAre(h', n, q);
    QuadSlotsSize(n, QuadsOf(h, n), q);
    QuadSlotsSize(n, QuadsOf(h', n), q);
    OthersSame(h, h', n, q, was, now);
  }

  lemma OthersSame(h: Heap, h': Heap, n: NodeId, q: Ptr, was: set<Slot>, now: set<Slot>)
    requires q != NULL && forall u: Slot :: !(u.Quad? && u.node == n) ==> Target(h', u) == Target(h, u)
    requires forall t :: t in was <==> t.Quad? && t.node == n && Target(h, t) == q
    requires forall t :: t in now <==> t.Quad? && t.node == n && Target(h', t) == q
    ensures |In(h', q)| == |In(h, q)| - |was| + |now|
  {
    hide Target, In;
    var i, i' := In(h, q), In(h', q);
    assert was <= i && now <= i';
    assert i' - now == i - was;
    Remainder(i, was);
    Remainder(i', now);
  }

  method SetQuads(c: Client, n: NodeId, quads: seq<Ptr>)
    requires n in c.scene
    modifies c`scene
    ensures c.scene == old(c.scene)[n := quads]
    ensures forall q :: q != NULL ==>
      Extra(c.H(), q) == Extra(old(c.H()), q) + Occurrences(old(c.scene)[n], q) - Occurrences(quads, q)
    ensures forall u ::
      Target(c.H(), u) == if u.Quad? &&
        u.node == n then (if u.index < |quads| then quads[u.index] else NULL) else Target(old(c.H()), u)
  {
    ghost var h := c.H();
    c.scene := c.scene[n := quads];
    SceneChanged(h, c.H(), n);
    forall q | q != NULL
      ensures Extra(c.H(), q) == Extra(h, q) + Occurrences(h.scene[n], q) - Occurrences(quads, q)
    {
      SetQuadsExtra(h, c.H(), n, q);
    }
  }

  lemma SceneChanged(h: Heap, h': Heap, n: NodeId)
    requires h'.mem == h.mem && h'.reg == h.reg && h'.cbs == h.cbs
    requires forall m :: m != n ==> QuadsOf(h', m) == QuadsOf(h, m)
    ensures forall u ::
      Target(h', u) == if u.Quad? &&
        u.node == n then (if u.index < |QuadsOf(h', n)| then QuadsOf(h', n)[u.index] else NULL) else Target(h, u)
  {
    forall u
      ensures Target(h', u) ==
        if u.Quad? && u.node == n then (if u.index < |QuadsOf(h', n)| then QuadsOf(h', n)[u.index] else NULL)
          else Target(h, u)
    {
      match u
      case Reg(_) =>
      case At(_, _) =>
      case Child(_, _) =>
      case Armed(_) =>
      case Quad(m, i) => assert m != n ==> QuadsOf(h', m) == QuadsOf(h, m);
    }
  }

  // ---------------------------------------------------------------- unref_window_quads, ref_window_quads

  /** Only pixel buffers have been freed, and only counts have changed. */
  ghost predicate PixelsOnly(h: Heap, h': Heap) {
    && h'.reg == h.reg && h'.cbs == h.cbs
    && (forall q :: q in h'.mem ==> q in h.mem && h'.mem[q].body == h.mem[q].body && h'.mem[q].refs >= 1)
    && (forall q :: q in h.mem && q !in h'.mem ==> h.mem[q].body.Pixels?)
  }

  /** A quad that has not been dropped yet keeps its pixels alive. */
  lemma QuadAlive(h: Heap, n: NodeId, i: nat)
    requires n in h.scene && i < |h.scene[n]| && h.scene[n][i] != NULL
    requires Extra(h, h.scene[n][i]) == 0 - Occurrences(h.scene[n][..i], h.scene[n][i])
    ensures Refs(h, h.scene[n][i]) >= 1
  {
    var quads := h.scene[n];
    var q := quads[i];
    QuadSlotsSize(n, quads, q);
    forall u | u in QuadSlots(n, quads, q) ensures Target(h, u) == q { }
    assert QuadSlots(n, quads, q) <= In(h, q);
    SubsetSize(QuadSlots(n, quads, q), In(h, q));
    OccurrencesPrefix(quads, i, q);
  }

  lemma QuadIsPixels(h: Heap, n: NodeId, i: nat)
    requires Inv(h) && n in h.scene && i < |h.scene[n]| && h.scene[n][i] != NULL
    ensures h.scene[n][i] in h.mem && h.mem[h.scene[n][i]].body.Pixels?
  {
    assert Target(h, Quad(n, i)) == h.scene[n][i];
    Held(h, Quad(n, i));
    assert Fits(h, Quad(n, i), h.mem[h.scene[n][i]].body);
  }

  method UnrefWindowQuads(c: Client, n: NodeId)
    requires Inv(c.H()) && n in c.scene && NULL !in c.scene[n]
    modifies c`mem
    ensures PixelsOnly(old(c.H()), c.H())
    ensures forall q :: q != NULL ==> Extra(c.H(), q) == 0 - Occurrences(c.scene[n], q)
    ensures forall u :: Target(c.H(), u) == Target(old(c.H()), u)
  {
    hide CoreInv, Extra, In, Target, Drop, OutDegree, Holding, Weakens, RolesKept, Occurrences;
    ghost var h := c.H();
    AlwaysLive(h);
    var quads := c.scene[n];
    NothingYet(quads);
    var i := 0;
    while i < |quads|
      invariant 0 <= i <= |quads| && PixelsOnly(h, c.H())
      invariant forall q :: q != NULL ==> Extra(c.H(), q) == 0 - Occurrences(quads[..i], q)
      invariant forall u :: Target(c.H(), u) == Target(h, u)
    {
      QuadIsPixels(h, n, i);
      QuadAlive(c.H(), n, i);
      ghost var h1 := c.H();
      c.Unref(quads[i]);
      LeafGivesNothing(h1, quads[i]);
      forall q ensures Occurrences(quads[..i + 1], q) == Occurrences(quads[..i], q) + Is(quads[i] == q) {
        OccurrencesNext(quads, i, q);
      }
      i := i + 1;
    }
    assert quads[..i] == quads;
  }

  lemma NoQuads()
    ensures forall q :: Occurrences([], q) == 0
  {
  }

  lemma NothingYet(quads: seq<Ptr>)
    ensures forall q :: Occurrences(quads[..0], q) == 0
  {
    assert quads[..0] == [];
  }

  lemma LeafGivesNothing(h: Heap, p: Ptr)
    requires p in h.mem && h.mem[p].body.Pixels?
    ensures forall q :: q != NULL ==> GivenBack(h.mem, p, q) == 0
    ensures forall u :: Owns(u, p) ==> Target(h, u) == NULL
  {
    forall q | q != NULL ensures OutDegree(h.mem[p].body, q) == 0 { assert Holding(h.mem[p].body, q) == {}; }
  }

  method RefWindowQuads(c: Client, n: NodeId)
    requires n in c.scene && NULL !in c.scene[n] && forall q :: q in c.scene[n] ==> q in c.mem
    modifies c`mem
    ensures c.mem.Keys == old(c.mem).Keys && forall q :: q in c.mem ==>
      c.mem[q].body == old(c.mem)[q].body && c.mem[q].refs >= old(c.mem)[q].refs
    ensures forall q :: q != NULL ==> Extra(c.H(), q) == Extra(old(c.H()), q) + Occurrences(c.scene[n], q)
    ensures forall u :: Target(c.H(), u) == Target(old(c.H()), u)
  {
    hide Extra, In, Target, Occurrences;
    ghost var h := c.H();
    var quads := c.scene[n];
    NothingYet(quads);
    var i := 0;
    while i < |quads|
      invariant 0 <= i <= |quads|
      invariant c.mem.Keys == h.mem.Keys && forall q :: q in c.mem ==>
        c.mem[q].body == h.mem[q].body && c.mem[q].refs >= h.mem[q].refs
      invariant forall q :: q != NULL ==> Extra(c.H(), q) == Extra(h, q) + Occurrences(quads[..i], q)
      invariant forall u :: Target(c.H(), u) == Target(h, u)
    {
      c.Ref(quads[i]);
      forall q ensures Occurrences(quads[..i + 1], q) == Occurrences(quads[..i], q) + Is(quads[i] == q) {
        OccurrencesNext(quads, i, q);
      }
      i := i + 1;
    }
    assert quads[..i] == quads;
  }

  // ---------------------------------------------------------------- collect_window_tree

  /** Subsurface trees have no cycles; the compositor relies on it without checking. */
  predicate Ranked(mem: map<Ptr, Block>, rank: map<Ptr, nat>) {
    forall s :: s in mem && mem[s].body.Surface? ==>
      && s in rank
      && forall k :: 0 <= k < |mem[s].body.children| ==> Below(mem, rank, s, mem[s].body.children[k])
  }

  predicate Below(mem: map<Ptr, Block>, rank: map<Ptr, nat>, s: Ptr, ss: Ptr)
    requires s in rank
  {
    var t := SurfaceOf(mem, ss);
    t in mem && mem[t].body.Surface? ==> t in rank && rank[t] < rank[s]
  }

  predicate Shows(mem: map<Ptr, Block>, s: Ptr) {
    && s in mem && mem[s].body.Surface?
    && mem[s].body.active in mem && mem[mem[s].body.active].body.Buffer?
  }

  /** The pixel buffers of the tree below s, each surface before its children. */
  ghost function Painted(mem: map<Ptr, Block>, rank: map<Ptr, nat>, s: Ptr): seq<Ptr>
    requires Ranked(mem, rank)
    decreases if s in rank then rank[s] else 0, |if Shows(mem, s) then mem[s].body.children else []| + 1
  {
    if !Shows(mem, s) then []
    else [mem[mem[s].body.active].body.pixels] + PaintedBelow(mem, rank, s, |mem[s].body.children|)
  }

  ghost function PaintedBelow(mem: map<Ptr, Block>, rank: map<Ptr, nat>, s: Ptr, k: nat): seq<Ptr>
    requires Ranked(mem, rank) && Shows(mem, s) && k <= |mem[s].body.children|
    decreases rank[s], k
  {
    if k == 0 then []
    else
      var ss := mem[s].body.children[k - 1];
      var t := SurfaceOf(mem, ss);
      assert Below(mem, rank, s, ss);
      PaintedBelow(mem, rank, s, k - 1) + (if Shows(mem, t) then Painted(mem, rank, t) else [])
  }

  /** What the walk relies on: active buffers show pixels, and children are subsurfaces of surfaces. */
  predicate TreesOk(mem: map<Ptr, Block>) {
    forall s :: s in mem && mem[s].body.Surface? ==>
      && (mem[s].body.active != NULL <==> Shows(mem, s))
      && (Shows(mem, s) ==> PixelsAt(mem, mem[mem[s].body.active].body.pixels))
      && forall k :: 0 <= k < |mem[s].body.children| ==> ChildOk(mem, mem[s].body.children[k])
  }

  predicate PixelsAt(mem: map<Ptr, Block>, p: Ptr) { p != NULL && p in mem && mem[p].body.Pixels? }

  predicate ChildOk(mem: map<Ptr, Block>, ss: Ptr) {
    && ss in mem && mem[ss].body.Subsurface?
    && var t := mem[ss].body.surface; t != NULL ==> t in mem && mem[t].body.Surface?
  }

  lemma InvTrees(h: Heap)
    requires Inv(h)
    ensures TreesOk(h.mem) && NULL !in h.mem
  {
    forall s | s in h.mem && h.mem[s].body.Surface?
      ensures h.mem[s].body.active != NULL <==> Shows(h.mem, s)
      ensures Shows(h.mem, s) ==> PixelsAt(h.mem, h.mem[h.mem[s].body.active].body.pixels)
      ensures forall k :: 0 <= k < |h.mem[s].body.children| ==> ChildOk(h.mem, h.mem[s].body.children[k])
    {
      ShownSurface(h, s);
      forall k | 0 <= k < |h.mem[s].body.children| ensures ChildOk(h.mem, h.mem[s].body.children[k]) {
        ShownChild(h, s, k);
      }
    }
  }

  lemma ShownSurface(h: Heap, s: Ptr)
    requires Inv(h) && s in h.mem && h.mem[s].body.Surface?
    ensures h.mem[s].body.active != NULL ==> Shows(h.mem, s)
    ensures h.mem[s].body.active == NULL ==> !Shows(h.mem, s)
    ensures Shows(h.mem, s) ==>
      var p := h.mem[h.mem[s].body.active].body.pixels; p != NULL && p in h.mem && h.mem[p].body.Pixels?
  {
    var b := h.mem[s].body.active;
    AtField(h, s, SurfaceActive);
    if b != NULL {
      Held(h, At(s, SurfaceActive));
      assert Fits(h, At(s, SurfaceActive), h.mem[b].body);
      AtField(h, b, BufferPixels);
      Held(h, At(b, BufferPixels));
      assert Fits(h, At(b, BufferPixels), h.mem[h.mem[b].body.pixels].body);
    }
  }

  lemma ShownChild(h: Heap, s: Ptr, k: nat)
    requires Inv(h) && s in h.mem && h.mem[s].body.Surface? && k < |h.mem[s].body.children|
    ensures var ss := h.mem[s].body.children[k];
      ss in h.mem && h.mem[ss].body.Subsurface? && var t := h.mem[ss].body.surface; t != NULL ==>
        t in h.mem && h.mem[t].body.Surface?
  {
    var ss := h.mem[s].body.children[k];
    assert ss in h.mem[s].body.children && ss != NULL;
    assert Target(h, Child(s, ss)) == ss;
    LinkEnds(h, Child(s, ss));
    var t := h.mem[ss].body.surface;
    AtField(h, ss, SubsurfaceSurface);
    if t != NULL { LinkEnds(h, At(ss, SubsurfaceSurface)); }
  }

  /** Everything painted is a live pixel buffer. */
  lemma {:induction false} PaintedLive(mem: map<Ptr, Block>, rank: map<Ptr, nat>, s: Ptr)
    requires TreesOk(mem) && Ranked(mem, rank)
    ensures forall q :: q in Painted(mem, rank, s) ==> PixelsAt(mem, q)
    decreases if s in rank then rank[s] else 0, |if Shows(mem, s) then mem[s].body.children else []| + 1
  {
    if Shows(mem, s) {
      PaintedBelowLive(mem, rank, s, |mem[s].body.children|);
    }
  }

  lemma {:induction false} PaintedBelowLive(mem: map<Ptr, Block>, rank: map<Ptr, nat>, s: Ptr, k: nat)
    requires TreesOk(mem) && Ranked(mem, rank) && Shows(mem, s) && k <= |mem[s].body.children|
    ensures forall q :: q in PaintedBelow(mem, rank, s, k) ==> PixelsAt(mem, q)
    decreases rank[s], k
  {
    if k > 0 {
      PaintedBelowLive(mem, rank, s, k - 1);
      var t := SurfaceOf(mem, mem[s].body.children[k - 1]);
      assert Below(mem, rank, s, mem[s].body.children[k - 1]);
      if Shows(mem, t) { PaintedLive(mem, rank, t); }
    }
  }

  lemma Appended(a: seq<Ptr>, b: seq<Ptr>, c: seq<Ptr>, d: seq<Ptr>)
    ensures a + (b + c) + d == a + (b + (c + d))
  {
  }

  lemma NotShown(mem: map<Ptr, Block>, rank: map<Ptr, nat>, t: Ptr)
    requires Ranked(mem, rank)
    ensures (if Shows(mem, t) then Painted(mem, rank, t) else []) == Painted(mem, rank, t)
  {
  }

  /** collect_window_tree, pushing onto the node's list as it goes. The popups of an xdg_surface are
      not part of the model. */
  method CollectWindowTree(c: Client, n: NodeId, s: Ptr, ghost rank: map<Ptr, nat>)
    requires TreesOk(c.mem) && NULL !in c.mem && n in c.scene && Ranked(c.mem, rank)
    requires s != NULL ==> s in c.mem && c.mem[s].body.Surface?
    modifies c`scene
    ensures c.scene == old(c.scene)[n := old(c.scene)[n] + Painted(c.mem, rank, s)]
    decreases if s in c.mem && c.mem[s].body.Surface? && s in rank then rank[s] + 1 else 0
  {
    if s == NULL || c.mem[s].body.active == NULL {
      assert c.scene[n] + [] == c.scene[n];
      return;
    }
    ghost var was := c.scene[n];
    var first := [c.mem[c.mem[s].body.active].body.pixels];
    c.scene := c.scene[n := c.scene[n] + first];
    var kids := c.mem[s].body.children;
    var i := 0;
    assert first + PaintedBelow(c.mem, rank, s, 0) == first;
    while i < |kids|
      invariant 0 <= i <= |kids|
      invariant c.scene == old(c.scene)[n := was + (first + PaintedBelow(c.mem, rank, s, i))]
    {
      var ss := kids[i];
      assert ChildOk(c.mem, ss) && Below(c.mem, rank, s, ss);
      CollectWindowTree(c, n, c.mem[ss].body.surface, rank);
      NotShown(c.mem, rank, c.mem[ss].body.surface);
      Appended(was, first, PaintedBelow(c.mem, rank, s, i), Painted(c.mem, rank, c.mem[ss].body.surface));
      assert c.scene[n] == was + (first + PaintedBelow(c.mem, rank, s, i + 1));
      i := i + 1;
    }
  }

  // ---------------------------------------------------------------- c_scene_node_update, c_scene_node_remove

  ghost predicate SceneOk(scene: map<NodeId, seq<Ptr>>) { forall n :: n in scene ==> NULL !in scene[n] }

  /** A scene step that frees nothing but pixel buffers and ends with all counts right keeps the
      invariant. */
  lemma SceneStepInv(h: Heap, h': Heap)
    requires Inv(h) && PixelsOnly(h, h') && Balanced(h')
    requires forall u: Slot :: !u.Quad? ==> Target(h', u) == Target(h, u)
    requires forall n :: QuadsOf(h', n) == QuadsOf(h, n) || forall q :: q in QuadsOf(h', n) ==> PixelsAt(h.mem, q)
    ensures Inv(h')
  {
    forall u: Slot | u.Quad? && Target(h', u) != Target(h, u) && Target(h', u) != NULL
      ensures Target(h', u) in h.mem && h.mem[Target(h', u)].body.Pixels?
    {
      assert QuadsOf(h', u.node) != QuadsOf(h, u.node);
      assert Target(h', u) in QuadsOf(h', u.node);
    }
    assert MovesBuffers(h, h');
    MovesBuffersKeepsInv(h, h');
  }

  /** Losing pixel buffers does not change what a tree shows. */
  lemma SameTrees(h: Heap, h': Heap, rank: map<Ptr, nat>)
    requires PixelsOnly(h, h') && Ranked(h.mem, rank)
    ensures Ranked(h'.mem, rank)
    ensures forall s :: Shows(h'.mem, s) <==> Shows(h.mem, s)
    ensures forall s :: Shows(h.mem, s) ==>
      h'.mem[s].body == h.mem[s].body && h'.mem[h.mem[s].body.active].body == h.mem[h.mem[s].body.active].body
    ensures forall ss :: SurfaceOf(h'.mem, ss) == SurfaceOf(h.mem, ss)
  {
    forall s | s in h'.mem && h'.mem[s].body.Surface?
      ensures s in rank
      ensures forall k :: 0 <= k < |h'.mem[s].body.children| ==> Below(h'.mem, rank, s, h'.mem[s].body.children[k])
    {
      forall k | 0 <= k < |h.mem[s].body.children| ensures Below(h'.mem, rank, s, h.mem[s].body.children[k]) {
        assert Below(h.mem, rank, s, h.mem[s].body.children[k]);
      }
    }
  }

  lemma {:induction false} SamePainted(h: Heap, h': Heap, rank: map<Ptr, nat>, s: Ptr)
    requires PixelsOnly(h, h') && Ranked(h.mem, rank) && Ranked(h'.mem, rank)
    ensures Painted(h'.mem, rank, s) == Painted(h.mem, rank, s)
    decreases if s in rank then rank[s] else 0, |if Shows(h.mem, s) then h.mem[s].body.children else []| + 1
  {
    hide PixelsOnly;
    SameTrees(h, h', rank);
    if Shows(h.mem, s) { SamePaintedBelow(h, h', rank, s, |h.mem[s].body.children|); }
  }

  lemma {:induction false} SamePaintedBelow(h: Heap, h': Heap, rank: map<Ptr, nat>, s: Ptr, k: nat)
    requires PixelsOnly(h, h') && Ranked(h.mem, rank) && Ranked(h'.mem, rank)
    requires Shows(h.mem, s) && Shows(h'.mem, s) && h'.mem[s].body == h.mem[s].body && k <= |h.mem[s].body.children|
    ensures PaintedBelow(h'.mem, rank, s, k) == PaintedBelow(h.mem, rank, s, k)
    decreases rank[s], k
  {
    hide PixelsOnly;
    if k > 0 {
      SameTrees(h, h', rank);
      SamePaintedBelow(h, h', rank, s, k - 1);
      assert Below(h.mem, rank, s, h.mem[s].body.children[k - 1]);
      if Shows(h.mem, SurfaceOf(h.mem, h.mem[s].body.children[k - 1])) {
        SamePainted(h, h', rank, SurfaceOf(h.mem, h.mem[s].body.children[k - 1]));
      }
    }
  }

  /** unref_window_quads and c_list_clear */
  method DropQuads(c: Client, n: NodeId)
    requires Inv(c.H()) && SceneOk(c.scene) && n in c.scene
    modifies c`mem, c`scene
    ensures Inv(c.H()) && SceneOk(c.scene) && PixelsOnly(old(c.H()), c.H()) && c.scene == old(c.scene)[n := []]
    ensures forall u: Slot :: !u.Quad? ==> Target(c.H(), u) == Target(old(c.H()), u)
  {
    hide CoreInv, Extra, In, Target, Occurrences, PixelsOnly;
    ghost var h := c.H();
    UnrefWindowQuads(c, n);
    ghost var h1 := c.H();
    SetQuads(c, n, []);
    NoQuads();
    PixelsOnlyScene(h, h1, c.H());
    SceneStepInv(h, c.H());
  }

  lemma PixelsOnlyScene(h: Heap, h1: Heap, h2: Heap)
    requires PixelsOnly(h, h1) && h2.mem == h1.mem && h2.reg == h1.reg && h2.cbs == h1.cbs
    ensures PixelsOnly(h, h2)
  {
  }

  /** The tree of the window's surface as it is now takes the place of the old quads. */
  method NodeUpdate(c: Client, n: NodeId, s: Ptr, ghost rank: map<Ptr, nat>)
    requires Inv(c.H()) && SceneOk(c.scene) && n in c.scene && Ranked(c.mem, rank)
    requires s != NULL ==> s in c.mem && c.mem[s].body.Surface?
    modifies c`mem, c`scene
    ensures Inv(c.H()) && SceneOk(c.scene) && PixelsOnly(old(c.H()), c.H())
    ensures Ranked(old(c.mem), rank) && c.scene == old(c.scene)[n := Painted(old(c.mem), rank, s)]
  {
    hide CoreInv, Extra, In, Target, Occurrences, Ranked, Painted, TreesOk, Inv;
    ghost var h := c.H();
    DropQuads(c, n);
    ghost var h1 := c.H();
    SameTrees(h, h1, rank);
    SamePainted(h, h1, rank, s);
    InvTrees(h1);
    PaintedLive(c.mem, rank, s);
    CollectWindowTree(c, n, s, rank);
    ghost var h2 := c.H();
    assert h2.scene[n] == Painted(h1.mem, rank, s);
    RefWindowQuads(c, n);
    QuadsReplaced(h1, h2, c.H(), n);
    PixelsOnlyTwice(h, h1, c.H());
  }

  lemma PixelsOnlyTwice(h: Heap, h1: Heap, h2: Heap)
    requires PixelsOnly(h, h1) && PixelsOnly(h1, h2)
    ensures PixelsOnly(h, h2)
  {
  }

  /** Filling an empty node and then taking one reference for every quad balances. */
  lemma QuadsReplaced(h1: Heap, h2: Heap, h3: Heap, n: NodeId)
    requires Inv(h1) && n in h1.scene && h1.scene[n] == [] && n in h2.scene && h2.scene == h1.scene[n := h2.scene[n]]
    requires h2.mem == h1.mem && h2.reg == h1.reg && h2.cbs == h1.cbs
    requires forall q :: q in h2.scene[n] ==> PixelsAt(h1.mem, q)
    requires h3.reg == h2.reg && h3.cbs == h2.cbs && h3.scene == h2.scene && h3.mem.Keys == h2.mem.Keys
    requires forall q :: q in h3.mem ==> h3.mem[q].body == h2.mem[q].body && h3.mem[q].refs >= h2.mem[q].refs
    requires forall q :: q != NULL ==> Extra(h3, q) == Extra(h2, q) + Occurrences(h2.scene[n], q)
    requires forall u :: Target(h3, u) == Target(h2, u)
    ensures Inv(h3) && PixelsOnly(h1, h3)
  {
    hide Extra, In, Target, Occurrences, CoreInv;
    AlwaysLive(h1);
    SceneChanged(h1, h2, n);
    NoQuads();
    forall q | q != NULL ensures Extra(h3, q) == 0 {
      SetQuadsExtra(h1, h2, n, q);
    }
    SceneStepInv(h1, h3);
  }

  /** `c_scene_node_remove` of a window node; the node itself is freed. */
  method NodeRemove(c: Client, n: NodeId)
    requires Inv(c.H()) && SceneOk(c.scene) && n in c.scene
    modifies c`mem, c`scene
    ensures Inv(c.H()) && SceneOk(c.scene) && PixelsOnly(old(c.H()), c.H())
    ensures c.scene == old(c.scene) - {n}
  {
    hide CoreInv, Extra, In, Target, Occurrences, PixelsOnly;
    ghost var h := c.H();
    DropQuads(c, n);
    ghost var h1 := c.H();
    c.scene := c.scene - {n};
    SceneChanged(h1, c.H(), n);
    NoQuads();
    forall q | q != NULL ensures Extra(c.H(), q) == 0 { SetQuadsExtra(h1, c.H(), n, q); }
    PixelsOnlyScene(h, h1, c.H());
    SceneStepInv(h, c.H());
  }

  /** node_create for a window */
  method NodeCreate(c: Client, n: NodeId)
    requires Inv(c.H()) && SceneOk(c.scene) && n !in c.scene
    modifies c`scene
    ensures Inv(c.H()) && SceneOk(c.scene) && c.scene == old(c.scene)[n := []]
  {
    hide CoreInv, Extra, In, Target, Occurrences, PixelsOnly;
    ghost var h := c.H();
    NoQuads();
    c.scene := c.scene[n := []];
    SceneChanged(h, c.H(), n);
    forall q | q != NULL ensures Extra(c.H(), q) == 0 { SetQuadsExtra(h, c.H(), n, q); }
    PixelsOnlySelf(h);
    PixelsOnlyScene(h, h, c.H());
    SceneStepInv(h, c.H());
  }

  lemma PixelsOnlySelf(h: Heap)
    requires CoreInv(h)
    ensures PixelsOnly(h, h)
  {
  }

  // ---------------------------------------------------------------- what the count means

  /** All occurrences of p in the quads of all nodes. */
  ghost function AllQuads(h: Heap, p: Ptr): set<(NodeId, nat)> {
    set n, i: nat | n in h.scene && 0 <= i < |h.scene[n]| && h.scene[n][i] == p :: (n, i)
  }

  ghost predicate Owner(h: Heap, p: Ptr, b: Ptr) { b in h.mem && h.mem[b].body.Buffer? && h.mem[b].body.pixels == p }

  /** A pixel buffer's count is one for the wl_buffer it belongs to, while that is alive, and one for
      every quad that shows it. */
  lemma PixelCount(h: Heap, p: Ptr)
    requires Inv(h) && p in h.mem && h.mem[p].body.Pixels?
    ensures h.mem[p].refs == Is(exists b :: Owner(h, p, b)) + |AllQuads(h, p)|
  {
    hide CoreInv, Target, AllQuads, Owner, In;
    PixelSlots(h, p);
    QuadPairs(AllQuads(h, p));
    var quads := set a | a in AllQuads(h, p) :: Quad(a.0, a.1);
    AllQuadSlots(h, p);
    assert Extra(h, p) == 0;
    if b :| Owner(h, p, b) {
      assert In(h, p) == quads + {At(b, BufferPixels)};
    } else {
      assert In(h, p) == quads;
    }
  }

  lemma AllQuadSlots(h: Heap, p: Ptr)
    requires p != NULL
    ensures forall t :: t in (set a | a in AllQuads(h, p) :: Quad(a.0, a.1)) <==> t.Quad? && Target(h, t) == p
  {
    forall t: Slot | t.Quad? && Target(h, t) == p ensures t in (set a | a in AllQuads(h, p) :: Quad(a.0, a.1)) {
      assert (t.node, t.index) in AllQuads(h, p);
    }
  }

  lemma {:induction false} QuadPairs(s: set<(NodeId, nat)>)
    ensures |set a | a in s :: Quad(a.0, a.1)| == |s|
  {
    if s != {} {
      var x :| x in s;
      QuadPairs(s - {x});
      assert (set a | a in s :: Quad(a.0, a.1)) == (set a | a in s - {x} :: Quad(a.0, a.1)) + {Quad(x.0, x.1)};
    }
  }

  lemma PixelSlots(h: Heap, p: Ptr)
    requires Inv(h) && p in h.mem && h.mem[p].body.Pixels?
    ensures p != NULL
    ensures forall t :: Target(h, t) == p ==> t.Quad? || (t.At? && t.field == BufferPixels && Owner(h, p, t.owner))
    ensures forall b, d :: Owner(h, p, b) && Owner(h, p, d) ==> b == d
    ensures forall b :: Owner(h, p, b) ==> Target(h, At(b, BufferPixels)) == p
  {
    forall t | Target(h, t) == p ensures t.Quad? || (t.At? && t.field == BufferPixels && Owner(h, p, t.owner)) {
      assert Fits(h, t, h.mem[p].body);
      if Linked(t) { LinkEnds(h, t); }
    }
  }

  /** So no quad ever points at pixels that are gone. */
  lemma QuadsLive(h: Heap, n: NodeId, i: nat)
    requires Inv(h) && SceneOk(h.scene) && n in h.scene && i < |h.scene[n]|
    ensures h.scene[n][i] in h.mem && h.mem[h.scene[n][i]].body.Pixels? && h.mem[h.scene[n][i]].refs >= 1
  {
    QuadIsPixels(h, n, i);
    AlwaysLive(h);
  }

  /** While its wl_buffer lives, so does the pool whose mapping holds the pixels. */
  lemma MappingHeld(h: Heap, p: Ptr, b: Ptr)
    requires Inv(h) && Owner(h, p, b) && h.mem[b].body.pool != NULL
    ensures h.mem[b].body.pool in h.mem && h.mem[h.mem[b].body.pool].body.Pool?
  {
    AtField(h, b, BufferPool);
    Held(h, At(b, BufferPool));
    assert Fits(h, At(b, BufferPool), h.mem[h.mem[b].body.pool].body);
  }
}
