/** `wl_surface_destroy` and its listener of `output/output.c`: a surface gives up its buffers and its
    links one block at a time, stays alive through all of it, and is freed by its own deletion. */
module SurfaceDestroy {
  import opened ListSpec
  import opened Memory
  import opened Invariant
  import opened Erasure
  import opened ClientState
  import opened QuietSteps
  import opened Surfaces
  import opened Commits

  // ---------------------------------------------------------------- composing the blocks

  /** Only pointers that touch s, or that belonged to a block freed meanwhile, have been cleared. */
  ghost predicate Clears(h: Heap, h': Heap, s: Ptr) {
    && h'.mem.Keys <= h.mem.Keys
    && forall u ::
      Target(h', u) == Target(h, u)
      || (Target(h', u) == NULL && (Target(h, u) == s || Owns(u, s) || (u.At? && u.owner !in h'.mem)))
  }

  lemma ClearsTwice(h: Heap, h': Heap, h'': Heap, s: Ptr)
    requires Clears(h, h', s) && Clears(h', h'', s)
    ensures Clears(h, h'', s)
  {
    hide Target;
  }

  /** What the surface still owes while its buffer fields are stale: one count for each. */
  ghost predicate Owing(h: Heap, pending: Ptr, active: Ptr) {
    forall q :: q != NULL ==> Extra(h, q) == 0 - Is(q == pending) - Is(q == active)
  }

  // ---------------------------------------------------------------- one link

  function Partner(f: Field): Field
    requires f in {SurfaceXdg, SurfaceSubsurface, SurfaceViewport}
  {
    match f
    case SurfaceXdg => XdgSurfaceSurface
    case SurfaceSubsurface => SubsurfaceSurface
    case _ => ViewportSurface
  }

  /** Lines 383 to 395 and 409 to 414: the same block for the xdg_surface, the subsurface and the viewport. */
  method Detach(c: Client, s: Ptr, f: Field)
    requires CoreInv(c.H()) && s in c.mem && c.mem[s].body.Surface?
    requires f in {SurfaceXdg, SurfaceSubsurface, SurfaceViewport}
    requires forall q :: q != NULL && q in c.mem && !c.mem[q].body.Buffer? ==> Extra(c.H(), q) == 0
    modifies c`mem
    ensures CoreInv(c.H()) && c.mem.Keys == old(c.mem).Keys && Weakens(old(c.H()), c.H())
    ensures RolesKept(old(c.H()), c.H())
    ensures Clears(old(c.H()), c.H(), s)
    ensures s in c.mem && c.mem[s].body == Put(old(c.mem)[s].body, f, NULL)
    ensures forall q :: q != NULL ==> Extra(c.H(), q) == Extra(old(c.H()), q)
    ensures forall q :: q in c.mem && !c.mem[q].body.Buffer? ==> q in old(c.mem) && !old(c.mem)[q].body.Buffer?
  {
    hide CoreInv, Extra, In, Target, Weakens, RolesKept, Drop, OutDegree, Holding, Clears;
    ghost var h := c.H();
    AtField(h, s, f);
    SurfaceIsNamed(h, s);
    var x := Get(c.mem[s].body, f);
    if x != NULL {
      LinkEnds(h, At(s, f));
      AtField(h, x, Partner(f));
      ObjectOf(h, x);
      UnlinkPair(c, s, f, x);
      UnlinkKeepsCore(h, c.H(), At(s, f));
      UnlinkedClears(h, c.H(), s, f);
    } else {
      WeakensSelf(h);
      ClearsSelf(h, s);
    }
  }

  /** x->surface = NULL; c_unref(x); s->f = NULL; c_unref(s) */
  method UnlinkPair(c: Client, s: Ptr, f: Field, x: Ptr)
    requires s in c.mem && c.mem[s].body.Surface? && f in {SurfaceXdg, SurfaceSubsurface, SurfaceViewport} && s != NULL
    requires x in c.mem && Has(c.mem[x].body, Partner(f)) && x != NULL && x != s && Live(c.H())
    requires Target(c.H(), At(s, f)) == x && Target(c.H(), At(x, Partner(f))) == s
    requires Target(c.H(), Reg(c.mem[s].body.obj)) == s && Target(c.H(), Reg(ObjectId(c.mem[x].body))) == x
    requires Extra(c.H(), s) == 0 && Extra(c.H(), x) == 0
    modifies c`mem
    ensures c.mem.Keys == old(c.mem).Keys && Weakens(old(c.H()), c.H()) && RolesKept(old(c.H()), c.H())
    ensures forall q :: q != NULL ==> Extra(c.H(), q) == Extra(old(c.H()), q)
    ensures forall u ::
      Target(c.H(), u) == if u == At(s, f) || u == At(x, Partner(f)) then NULL else Target(old(c.H()), u)
    ensures s in c.mem && c.mem[s].body == Put(old(c.mem)[s].body, f, NULL)
    ensures forall q :: q in c.mem && q != s && q != x ==> c.mem[q].body == old(c.mem)[q].body
    ensures x in c.mem && Has(c.mem[x].body, Partner(f))
  {
    hide Extra, In, Target, Weakens, RolesKept, Drop, OutDegree, Holding, Put, Get;
    ghost var h := c.H();
    PutKeepsObject(c.mem[s].body, f);
    PutKeepsObject(c.mem[x].body, Partner(f));
    c.Set(x, Partner(f), NULL);
    ghost var h1 := c.H();
    HeldTwice(h1, Reg(ObjectId(c.mem[x].body)), At(s, f));
    c.UnrefShared(x);
    ghost var h2 := c.H();
    c.Set(s, f, NULL);
    ghost var h3 := c.H();
    HeldOnce(h3, Reg(ObjectId(c.mem[s].body)));
    c.UnrefShared(s);
    WeakensTwice(h, h1, h2);
    WeakensTwice(h, h2, h3);
    WeakensTwice(h, h3, c.H());
  }

  lemma PutKeepsObject(b: Body, f: Field)
    requires Has(b, f)
    ensures ObjectId(Put(b, f, NULL)) == ObjectId(b) && Has(Put(b, f, NULL), f)
    ensures Put(b, f, NULL).Buffer? == b.Buffer? && Put(b, f, NULL).Surface? == b.Surface?
  {
  }

  lemma SurfaceIsNamed(h: Heap, s: Ptr)
    requires CoreInv(h) && s in h.mem && h.mem[s].body.Surface?
    ensures Target(h, Reg(h.mem[s].body.obj)) == s && s != NULL && Live(h)
  {
  }

  lemma UnlinkedClears(h: Heap, h': Heap, s: Ptr, f: Field)
    requires CoreInv(h) && Linked(At(s, f)) && Target(h, At(s, f)) != NULL && Unlinked(h, h', At(s, f))
    requires h'.mem.Keys == h.mem.Keys
    ensures Clears(h, h', s)
  {
    LinkEnds(h, At(s, f));
  }

  lemma ClearsSelf(h: Heap, s: Ptr)
    ensures Clears(h, h, s)
  {
  }

  // ---------------------------------------------------------------- the children

  /** The children in `told` have been told that their parent is gone. */
  ghost predicate Orphaned(h: Heap, h': Heap, told: set<Ptr>) {
    && h'.mem.Keys == h.mem.Keys && h'.reg == h.reg && h'.scene == h.scene && Weakens(h, h') && RolesKept(h, h') &&
      Live(h')
    && (forall q :: q in h.mem && q !in told ==> h'.mem[q].body == h.mem[q].body)
    && (forall q :: q in h.mem && q in told ==>
      h'.mem[q].body.Subsurface? && ObjectId(h'.mem[q].body) == ObjectId(h.mem[q].body))
    && (forall q :: q != NULL ==> Extra(h', q) == Extra(h, q) - Is(q in told))
    && (forall u ::
      Target(h', u) == if u.At? && u.field == SubsurfaceParent && u.owner in told then NULL else Target(h, u))
  }

  function Elements(s: seq<Ptr>): (r: set<Ptr>)
    ensures forall x :: x in r <==> x in s
  {
    set x | x in s
  }

  lemma ChildEnds(h: Heap, s: Ptr, ss: Ptr)
    requires CoreInv(h) && s in h.mem && h.mem[s].body.Surface? && ss in h.mem[s].body.children
    ensures ss in h.mem && h.mem[ss].body.Subsurface? && ss != NULL && ss != s && h.mem[ss].body.parent == s
    ensures Target(h, Child(s, ss)) == ss && Target(h, Reg(h.mem[ss].body.obj)) == ss
    ensures Target(h, At(ss, SubsurfaceParent)) == s
  {
    KidIsChild(h, s, ss);
    LinkEnds(h, Child(s, ss));
    ObjectOf(h, ss);
  }

  lemma KidIsChild(h: Heap, s: Ptr, ss: Ptr)
    requires CoreInv(h) && s in h.mem && h.mem[s].body.Surface? && ss in h.mem[s].body.children
    ensures Target(h, Child(s, ss)) == ss
    ensures ss != NULL
  {
  }

  /** ss->parent = NULL; c_unref(ss); c_unref(surface) */
  method Orphan(c: Client, s: Ptr, ss: Ptr)
    requires s in c.mem && c.mem[s].body.Surface? && s != NULL && ss in c.mem && c.mem[ss].body.Subsurface?
    requires ss != NULL && Live(c.H())
    requires Target(c.H(), At(ss, SubsurfaceParent)) == s && Target(c.H(), Child(s, ss)) == ss
    requires Target(c.H(), Reg(c.mem[ss].body.obj)) == ss && Target(c.H(), Reg(c.mem[s].body.obj)) == s
    requires Extra(c.H(), s) == 0 && Extra(c.H(), ss) == 0
    modifies c`mem
    ensures c.mem.Keys == old(c.mem).Keys && Weakens(old(c.H()), c.H()) && RolesKept(old(c.H()), c.H()) && Live(c.H())
    ensures forall q :: q in c.mem && q != ss ==> c.mem[q].body == old(c.mem)[q].body
    ensures ss in c.mem && c.mem[ss].body == old(c.mem)[ss].body.(parent := NULL)
    ensures forall q :: q != NULL ==> Extra(c.H(), q) == Extra(old(c.H()), q) - Is(q == ss)
    ensures forall u :: Target(c.H(), u) == if u == At(ss, SubsurfaceParent) then NULL else Target(old(c.H()), u)
  {
    hide Extra, In, Target, Weakens, RolesKept, Drop, OutDegree, Holding;
    ghost var h := c.H();
    c.Set(ss, SubsurfaceParent, NULL);
    ghost var h1 := c.H();
    HeldTwice(h1, Reg(c.mem[ss].body.obj), Child(s, ss));
    c.Unref(ss);
    ghost var h2 := c.H();
    HeldOnce(h2, Reg(c.mem[s].body.obj));
    c.UnrefShared(s);
    WeakensTwice(h, h1, h2);
    WeakensTwice(h, h2, c.H());
  }

  lemma OrphanedStep(h: Heap, h1: Heap, h2: Heap, told: set<Ptr>, ss: Ptr)
    requires Orphaned(h, h1, told) && ss in h.mem && ss !in told
    requires h2.mem.Keys == h1.mem.Keys && h2.reg == h1.reg && h2.scene == h1.scene && Weakens(h1, h2)
    requires RolesKept(h1, h2) && Live(h2)
    requires forall q :: q in h2.mem && q != ss ==> h2.mem[q].body == h1.mem[q].body
    requires h2.mem[ss].body.Subsurface? && ObjectId(h2.mem[ss].body) == ObjectId(h1.mem[ss].body)
    requires forall q :: q != NULL ==> Extra(h2, q) == Extra(h1, q) - Is(q == ss)
    requires forall u :: Target(h2, u) == if u == At(ss, SubsurfaceParent) then NULL else Target(h1, u)
    ensures Orphaned(h, h2, told + {ss})
  {
    hide Target, Extra, Weakens, RolesKept, Live;
    WeakensTwice(h, h1, h2);
  }

  lemma ChildrenDistinct(h: Heap, s: Ptr)
    requires CoreInv(h) && s in h.mem && h.mem[s].body.Surface?
    ensures NoDuplicates(h.mem[s].body.children)
  {
  }

  lemma OrphanNext(h: Heap, h1: Heap, s: Ptr, i: nat)
    requires CoreInv(h) && s in h.mem && h.mem[s].body.Surface? && i < |h.mem[s].body.children|
    requires Orphaned(h, h1, Elements(h.mem[s].body.children[..i]))
    requires forall q :: q != NULL && q in h.mem && !h.mem[q].body.Buffer? ==> Extra(h, q) == 0
    ensures var ss := h.mem[s].body.children[i];
      && s in h1.mem && h1.mem[s].body == h.mem[s].body && s != NULL && ss in h1.mem && h1.mem[ss].body.Subsurface? &&
        ss != NULL
      && ss in h.mem && ss !in h.mem[s].body.children[..i]
      && Elements(h.mem[s].body.children[..i + 1]) == Elements(h.mem[s].body.children[..i]) + {ss}
      && Target(h1, At(ss, SubsurfaceParent)) == s && Target(h1, Child(s, ss)) == ss
      && Target(h1, Reg(h1.mem[ss].body.obj)) == ss && Target(h1, Reg(h1.mem[s].body.obj)) == s
      && Extra(h1, s) == 0 && Extra(h1, ss) == 0 && Live(h1)
  {
    hide Target, Extra, Weakens, RolesKept, CoreInv;
    var kids := h.mem[s].body.children;
    ChildrenDistinct(h, s);
    assert kids[i] !in kids[..i];
    assert kids[..i + 1] == kids[..i] + [kids[i]];
    ChildEnds(h, s, kids[i]);
    SurfaceIsNamed(h, s);
    if s in kids[..i] { ChildEnds(h, s, s); }
  }

  /** Lines 397 to 407. */
  method DetachChildren(c: Client, s: Ptr)
    requires CoreInv(c.H()) && s in c.mem && c.mem[s].body.Surface?
    requires forall q :: q != NULL && q in c.mem && !c.mem[q].body.Buffer? ==> Extra(c.H(), q) == 0
    modifies c`mem
    ensures CoreInv(c.H()) && c.mem.Keys == old(c.mem).Keys && Weakens(old(c.H()), c.H())
    ensures RolesKept(old(c.H()), c.H())
    ensures Clears(old(c.H()), c.H(), s)
    ensures s in c.mem && c.mem[s].body == old(c.mem)[s].body.(children := [])
    ensures forall q :: q != NULL ==> Extra(c.H(), q) == Extra(old(c.H()), q)
    ensures forall q :: q in c.mem && !c.mem[q].body.Buffer? ==> q in old(c.mem) && !old(c.mem)[q].body.Buffer?
  {
    hide CoreInv, Extra, In, Target, Weakens, RolesKept, Clears, Orphaned;
    ghost var h := c.H();
    var kids := c.mem[s].body.children;
    OrphanedStart(h, s);
    var i := 0;
    while i < |kids|
      invariant 0 <= i <= |kids| && Orphaned(h, c.H(), Elements(kids[..i]))
    {
      ghost var h1 := c.H();
      OrphanNext(h, h1, s, i);
      Orphan(c, s, kids[i]);
      OrphanedStep(h, h1, c.H(), Elements(kids[..i]), kids[i]);
      i := i + 1;
    }
    ghost var h1 := c.H();
    assert kids[..i] == kids;
    OrphanedKeeps(h, h1, s);
    c.ChildrenDestroy(s);
    OrphanedEnd(h, h1, c.H(), s);
  }

  lemma OrphanedStart(h: Heap, s: Ptr)
    requires CoreInv(h) && s in h.mem && h.mem[s].body.Surface?
    ensures Orphaned(h, h, Elements(h.mem[s].body.children[..0]))
  {
    assert Elements(h.mem[s].body.children[..0]) == {};
    WeakensSelf(h);
  }

  lemma OrphanedKeeps(h: Heap, h1: Heap, s: Ptr)
    requires CoreInv(h) && s in h.mem && h.mem[s].body.Surface? && Orphaned(h, h1, Elements(h.mem[s].body.children))
    ensures s in h1.mem && h1.mem[s].body == h.mem[s].body && h1.mem.Keys == h.mem.Keys
  {
    if s in h.mem[s].body.children { ChildEnds(h, s, s); }
  }

  lemma OrphanedEnd(h: Heap, h1: Heap, h2: Heap, s: Ptr)
    requires CoreInv(h) && s in h.mem && h.mem[s].body.Surface? && Orphaned(h, h1, Elements(h.mem[s].body.children))
    requires s in h1.mem && h1.mem[s].body == h.mem[s].body
    requires h2 == h1.(mem := h1.mem[s := Block(h1.mem[s].refs, h1.mem[s].body.(children := []))]) && Weakens(h1, h2)
    requires RolesKept(h1, h2)
    requires forall q :: q != NULL ==> Extra(h2, q) == Extra(h1, q) + Is(q in h1.mem[s].body.children)
    requires forall u :: Target(h2, u) == if u.Child? && u.owner == s then NULL else Target(h1, u)
    ensures CoreInv(h2) && Weakens(h, h2) && RolesKept(h, h2) && Clears(h, h2, s)
    ensures forall q :: q != NULL ==> Extra(h2, q) == Extra(h, q)
    ensures forall q :: q in h2.mem && !h2.mem[q].body.Buffer? ==> q in h.mem && !h.mem[q].body.Buffer?
  {
    hide Extra, In, CoreInv, Weakens, RolesKept, Target, Live, Balanced, RegistryShrinks, BothEnds, OnlyCleared;
    var kids := h.mem[s].body.children;
    WeakensTwice(h, h1, h2);
    WeakensKinds(h, h2);
    forall q | q in kids ensures Target(h, At(q, SubsurfaceParent)) == s { ChildEnds(h, s, q); }
    OrphansBothEnds(h, h2, s);
    RegistrySame(h, h2);
    WeakeningKeepsCoreAndRoles(h, h2);
  }

  lemma WeakensKinds(h: Heap, h': Heap)
    requires Weakens(h, h')
    ensures forall q :: q in h'.mem ==> q in h.mem && (h'.mem[q].body.Buffer? <==> h.mem[q].body.Buffer?)
  {
  }

  lemma RegistrySame(h: Heap, h': Heap)
    requires CoreInv(h) && h'.reg == h.reg && h'.mem.Keys == h.mem.Keys && h'.cbs == h.cbs
    ensures RegistryShrinks(h, h')
    ensures forall a :: a in h.cbs && h.cbs[a].listener.BufferReleased? ==> h.cbs[a].userdata in h'.mem
  {
    ReleasedBuffers(h, h');
  }

  lemma WeakeningKeepsCoreAndRoles(h: Heap, h': Heap)
    requires CoreInv(h) && Weakens(h, h') && OnlyCleared(h, h') && BothEnds(h, h') && RegistryShrinks(h, h')
    requires RolesKept(h, h')
    requires forall a :: a in h.cbs && h.cbs[a].listener.BufferReleased? ==> h.cbs[a].userdata in h'.mem
    ensures CoreInv(h')
  {
    hide Target, Mutual, Registered, Typed, Callbacks, Waiting, WellFormedBodies, Weakens, OnlyCleared, BothEnds, Live;
    hide Roles, RolesKept;
    WeakeningRoles(h, h');
    WeakeningKeepsCore(h, h');
  }

  lemma OrphansBothEnds(h: Heap, h': Heap, s: Ptr)
    requires CoreInv(h) && s in h.mem && h.mem[s].body.Surface?
    requires forall q :: q in h.mem[s].body.children ==> Target(h, At(q, SubsurfaceParent)) == s
    requires forall u ::
      Target(h', u) == (
        if (u.Child? && u.owner == s) ||
          (u.At? && u.field == SubsurfaceParent && u.owner in h.mem[s].body.children) then NULL
        else Target(h, u))
    ensures OnlyCleared(h, h') && BothEnds(h, h')
  {
    forall u | Linked(u) && Target(h, u) != NULL && Target(h', u) != NULL
      ensures Target(h', Back(u, Target(h, u))) != NULL
    {
      var v := Back(u, Target(h, u));
      LinkEnds(h, u);
      BackOfBack(h, u);
      if v.Child? && v.owner == s { ChildTarget(h, v); }
    }
  }

  lemma ChildTarget(h: Heap, v: Slot)
    requires v.Child? && Target(h, v) != NULL
    ensures v.owner in h.mem && h.mem[v.owner].body.Surface? && v.child in h.mem[v.owner].body.children
    ensures Target(h, v) == v.child
  {
  }

  // ---------------------------------------------------------------- the listener of output.c, lines 293 to 310

  method ForgetCallback(c: Client, s: Ptr, l: Listener)
    requires Ready(c) && s in c.mem && c.mem[s].body.Surface? && s != NULL && (l == FramesDone || l == Presented)
    requires var b := c.mem[s].body; if l == FramesDone then b.frameCb != NULL else b.feedbackCb != NULL
    modifies c`mem, c`cbs, c`lists
    ensures Ready(c)
    ensures var b := old(c.mem)[s].body;
      && c.cbs == old(c.cbs) - {if l == FramesDone then b.frameCb else b.feedbackCb}
      && c.lists == Parted(old(c.lists), true, b.output, if l == FramesDone then b.frameCb else b.feedbackCb)
      && c.mem == old(c.mem)[s := Block(old(c.mem)[s].refs,
        if l == FramesDone then b.(frameCb := NULL) else b.(feedbackCb := NULL))]
    ensures forall u :: Target(c.H(), u) == Target(old(c.H()), u)
  {
    hide CoreInv, Extra, In, Target, ListsOk;
    ghost var h := c.H();
    SurfaceListens(h, s);
    var a := if l == FramesDone then c.mem[s].body.frameCb else c.mem[s].body.feedbackCb;
    DistinctList(c.lists, c.cbs, c.mem[s].body.output);
    RemoveKeepsLists(c.lists, c.cbs, a);
    c.CallbackRemove(c.mem[s].body.output, a);
    if l == FramesDone {
      c.SetSurfaceCallbacks(s, NULL, c.mem[s].body.feedbackCb);
    } else {
      c.SetSurfaceCallbacks(s, c.mem[s].body.frameCb, NULL);
    }
    ArmedNothing(h, a);
    ForgottenInv(h, c.H(), s, a, l);
  }

  lemma DistinctList(lists: map<OutputId, seq<Ptr>>, cbs: map<Ptr, Callback>, o: OutputId)
    requires ListsOk(lists, cbs)
    ensures NoDuplicates(ListOf(lists, o))
  {
  }

  lemma ArmedNothing(h: Heap, a: Ptr)
    requires a in h.cbs && !h.cbs[a].listener.BufferReleased?
    ensures Target(h, Armed(a)) == NULL
  {
  }

  lemma SurfaceListens(h: Heap, s: Ptr)
    requires CoreInv(h) && s in h.mem && h.mem[s].body.Surface?
    ensures var b := h.mem[s].body;
      && (b.frameCb != NULL ==> b.frameCb in h.cbs && h.cbs[b.frameCb] == Callback(FramesDone, s, b.output))
      && (b.feedbackCb != NULL ==> b.feedbackCb in h.cbs && h.cbs[b.feedbackCb] == Callback(Presented, s, b.output))
      && (b.output == 0 ==> b.frameCb == NULL && b.feedbackCb == NULL)
  {
    assert ArmedOk(h, s, h.mem[s].body);
    var b := h.mem[s].body;
    if b.frameCb != NULL { assert CallbackOk(h, b.frameCb, h.cbs[b.frameCb]); }
    if b.feedbackCb != NULL { assert CallbackOk(h, b.feedbackCb, h.cbs[b.feedbackCb]); }
  }

  lemma ForgottenInv(h: Heap, h': Heap, s: Ptr, a: Ptr, l: Listener)
    requires CoreInv(h) && s in h.mem && h.mem[s].body.Surface? && a in h.cbs && a != NULL && h.cbs[a].listener == l
    requires h.cbs[a].userdata == s
    requires h'.reg == h.reg && h'.cbs == h.cbs - {a}
    requires (l == FramesDone && h.mem[s].body.frameCb == a &&
      h'.mem == h.mem[s := Block(h.mem[s].refs, h.mem[s].body.(frameCb := NULL))])
          || (l == Presented && h.mem[s].body.feedbackCb == a &&
            h'.mem == h.mem[s := Block(h.mem[s].refs, h.mem[s].body.(feedbackCb := NULL))])
    requires forall u :: Target(h', u) == Target(h, u)
    ensures CoreInv(h')
  {
    hide Typed, Mutual, Registered, Named, Roles, Waiting, Callbacks, Target, Live;
    SurfaceArmedQuiet(h, h', s);
    QuietKeepsStructure(h, h');
    ForgottenCallbacks(h, h', s, a, l);
    SurfaceArmedWaiting(h, h', s);
  }

  lemma ForgottenCallbacks(h: Heap, h': Heap, s: Ptr, a: Ptr, l: Listener)
    requires Callbacks(h) && s in h.mem && h.mem[s].body.Surface? && a in h.cbs && a != NULL && h.cbs[a].listener == l
    requires h.cbs[a].userdata == s
    requires h'.cbs == h.cbs - {a}
    requires (l == FramesDone && h.mem[s].body.frameCb == a &&
      h'.mem == h.mem[s := Block(h.mem[s].refs, h.mem[s].body.(frameCb := NULL))])
          || (l == Presented && h.mem[s].body.feedbackCb == a &&
            h'.mem == h.mem[s := Block(h.mem[s].refs, h.mem[s].body.(feedbackCb := NULL))])
    ensures Callbacks(h')
  {
    forall x | x in h'.cbs ensures CallbackOk(h', x, h'.cbs[x]) { assert CallbackOk(h, x, h.cbs[x]); }
    forall q | q in h'.mem ensures ArmedOk(h', q, h'.mem[q].body) { assert ArmedOk(h, q, h.mem[q].body); }
  }

  function DestroyedLists(h: Heap, lists: map<OutputId, seq<Ptr>>, s: Ptr): map<OutputId, seq<Ptr>> {
    if s !in h.mem || !h.mem[s].body.Surface? || h.mem[s].body.output == 0 then lists else
    var b := h.mem[s].body;
    Parted(Parted(lists, b.feedbackCb != NULL, b.output, b.feedbackCb), b.frameCb != NULL, b.output, b.frameCb)
  }

  method OnWlSurfaceDestroy(c: Client, s: Ptr)
    requires Ready(c) && s in c.mem && c.mem[s].body.Surface? && s != NULL
    modifies c`mem, c`cbs, c`lists
    ensures Ready(c)
    ensures c.cbs == old(c.cbs) - ({old(c.mem)[s].body.frameCb, old(c.mem)[s].body.feedbackCb} - {NULL})
    ensures c.lists == DestroyedLists(old(c.H()), old(c.lists), s)
    ensures c.mem ==
      old(c.mem)[s := Block(old(c.mem)[s].refs, old(c.mem)[s].body.(frameCb := NULL, feedbackCb := NULL))]
    ensures forall u :: Target(c.H(), u) == Target(old(c.H()), u)
  {
    hide CoreInv, Extra, In, Target, ListsOk, Balanced;
    SurfaceListens(c.H(), s);
    NoNullNode(c.H());
    if c.mem[s].body.output != 0 {
      if c.mem[s].body.feedbackCb != NULL { ForgetCallback(c, s, Presented); }
      if c.mem[s].body.frameCb != NULL { ForgetCallback(c, s, FramesDone); }
    }
  }

  lemma NoNullNode(h: Heap)
    requires CoreInv(h)
    ensures NULL !in h.cbs
  {
  }

  // ---------------------------------------------------------------- discarded feedback, lines 363 to 366

  /** The loop resets its own bound, so it runs at most once. */
  method DiscardFeedbacks(c: Client, s: Ptr)
    requires Inv(c.H()) && s in c.mem && c.mem[s].body.Surface?
    modifies c`mem, c`sent
    ensures Inv(c.H())
    ensures c.mem == old(c.mem)[s := Block(old(c.mem)[s].refs, old(c.mem)[s].body.(feedbacks := []))]
    ensures c.sent == old(c.sent) + DiscardEvents(old(c.mem)[s].body.feedbacks)
    ensures forall u :: Target(c.H(), u) == Target(old(c.H()), u)
  {
    hide CoreInv, Extra, In, Target;
    ghost var h := c.H();
    var ids := c.mem[s].body.feedbacks;
    var n := |ids|;
    var i := 0;
    while i < n
      invariant 0 <= i <= 1 && (i == 0 ==> n == |ids|) && (i == 1 ==> n == 0 && |ids| > 0) && n <= |ids|
      invariant c.mem == old(c.mem) && c.sent == old(c.sent) + if i == 0 then [] else DiscardEvents(ids)
      decreases n
    {
      c.sent := c.sent + [Discarded(ids[i])];
      n := 0;
      i := i + 1;
    }
    c.SetFrames(s, c.mem[s].body.frames, []);
    DiscardedInv(h, c.H(), s);
  }

  function DiscardEvents(ids: seq<Id>): seq<Event> {
    if ids == [] then [] else [Discarded(ids[0])]
  }

  /** So every waiting feedback is told exactly when at most one is waiting. */
  lemma DiscardedOnlyFirst(ids: seq<Id>)
    requires NoDuplicates(ids)
    ensures (forall k :: 0 <= k < |ids| ==> Discarded(ids[k]) in DiscardEvents(ids)) <==> |ids| <= 1
  {
    if |ids| > 1 {
      assert ids[1] != ids[0];
      assert Discarded(ids[1]) !in DiscardEvents(ids);
    }
  }

  lemma DiscardedInv(h: Heap, h': Heap, s: Ptr)
    requires CoreInv(h) && s in h.mem && h.mem[s].body.Surface? && h'.reg == h.reg && h'.cbs == h.cbs
    requires h'.mem == h.mem[s := Block(h.mem[s].refs, h.mem[s].body.(feedbacks := []))]
    requires forall u :: Target(h', u) == Target(h, u)
    ensures CoreInv(h')
  {
    hide Typed, Mutual, Registered, Named, Roles, Waiting, Callbacks, Target, Live;
    SurfaceArmedQuiet(h, h', s);
    QuietKeepsStructure(h, h');
    DiscardedCallbacks(h, h', s);
    DiscardedWaiting(h, h', s);
  }

  lemma DiscardedCallbacks(h: Heap, h': Heap, s: Ptr)
    requires Callbacks(h) && s in h.mem && h.mem[s].body.Surface? && h'.cbs == h.cbs
    requires h'.mem == h.mem[s := Block(h.mem[s].refs, h.mem[s].body.(feedbacks := []))]
    ensures Callbacks(h')
  {
    forall x | x in h'.cbs ensures CallbackOk(h', x, h'.cbs[x]) { assert CallbackOk(h, x, h.cbs[x]); }
    forall q | q in h'.mem ensures ArmedOk(h', q, h'.mem[q].body) { assert ArmedOk(h, q, h.mem[q].body); }
  }

  lemma DiscardedWaiting(h: Heap, h': Heap, s: Ptr)
    requires Waiting(h) && s in h.mem && h.mem[s].body.Surface? && h'.reg == h.reg
    requires h'.mem == h.mem[s := Block(h.mem[s].refs, h.mem[s].body.(feedbacks := []))]
    ensures Waiting(h')
  {
    forall q ensures Frames(h', q) == Frames(h, q) && Feedbacks(h', q) == (if q == s then [] else Feedbacks(h, q)) { }
  }

  // ---------------------------------------------------------------- the buffers, lines 368 to 374

  lemma HoldersAre(h: Heap, b: Ptr, d: set<Slot>)
    requires b != NULL && (forall t :: t in d ==> Target(h, t) == b) && |d| >= Refs(h, b) - Extra(h, b)
    ensures forall t :: Target(h, t) == b ==> t in d
  {
    var i := In(h, b);
    assert d <= i;
    if exists t :: t in i && t !in d {
      var t :| t in i && t !in d;
      SubsetSize(d + {t}, i);
    }
  }

  /** The parts of a buffer can take one c_unref, as long as their own counts are right. */
  lemma PartsHeld(h: Heap, b: Ptr)
    requires CoreInv(h) && b in h.mem && h.mem[b].body.Buffer?
    requires Extra(h, h.mem[b].body.pool) == 0 && Extra(h, h.mem[b].body.pixels) == 0
    ensures Droppable(h.mem, b)
    ensures forall t :: Linked(t) ==> Target(h, t) != b && !(Owns(t, b) && Target(h, t) != NULL)
    ensures forall q :: q in h.mem && q !in Drop(h.mem, b) && q != b ==> forall i :: Target(h, Reg(i)) != q
  {
    hide Drop, Typed, Mutual, Registered, Named, WellFormedBodies, Roles, Callbacks, Waiting;
    AtField(h, b, BufferPool);
    AtField(h, b, BufferPixels);
    PartIsLeaf(h, At(b, BufferPool));
    PartIsLeaf(h, At(b, BufferPixels));
    assert Droppable(h.mem, b) by { SurfaceFree(h); }
    PartsFreed(h.mem, b);
    forall t | Linked(t) && Target(h, t) == b ensures false { LinkEnds(h, t); }
  }

  lemma SurfaceFree(h: Heap)
    requires CoreInv(h)
    ensures Live(h)
  {
  }

  lemma PartsFreed(mem: map<Ptr, Block>, b: Ptr)
    requires Droppable(mem, b) && mem[b].body.Buffer?
    ensures forall q :: q in mem && q !in Drop(mem, b) && q != b ==>
      q != NULL && mem[q].refs == 1 && (q == mem[b].body.pool || q == mem[b].body.pixels)
  {
  }

  lemma PartIsLeaf(h: Heap, t: Slot)
    requires CoreInv(h) && t.At? && (t.field == BufferPool || t.field == BufferPixels)
    requires Target(h, t) != NULL ==> Extra(h, Target(h, t)) == 0
    ensures var p := Target(h, t); p != NULL ==>
      && p in h.mem && h.mem[p].refs >= 1 &&
        (if t.field == BufferPool then h.mem[p].body.Pool? else h.mem[p].body.Pixels?)
      && (h.mem[p].refs == 1 ==> forall i :: Target(h, Reg(i)) != p)
  {
    var p := Target(h, t);
    if p != NULL {
      Held(h, t);
      assert Fits(h, t, h.mem[p].body);
      if h.mem[p].refs == 1 { HoldersAre(h, p, {t}); }
    }
  }

  lemma DropCore(h: Heap, h': Heap, b: Ptr)
    requires CoreInv(h) && Droppable(h.mem, b) && h.mem[b].body.Buffer? && h' == h.(mem := Drop(h.mem, b))
    requires forall t :: Linked(t) ==> Target(h, t) != b && !(Owns(t, b) && Target(h, t) != NULL)
    requires forall u :: Target(h', u) == if Freed(h.mem, b) && Owns(u, b) then NULL else Target(h, u)
    requires Freed(h.mem, b) ==> forall t: Slot :: t.Reg? || t.Armed? ==> Target(h, t) != b
    requires forall q :: q in h.mem && q !in h'.mem && q != b ==> forall i :: Target(h, Reg(i)) != q
    ensures CoreInv(h') && Weakens(h, h') && RolesKept(h, h')
  {
    hide Drop;
    DropWeakens(h, h', b);
    DropShrinks(h.mem, b);
    forall i | i in h'.reg && !NoData(h.reg[i].kind) ensures h.reg[i].data in h'.mem {
      assert Target(h, Reg(i)) == h.reg[i].data;
    }
    DropReleased(h, h', b);
    DropBothEnds(h, h', b);
    WeakeningKeepsCoreAndRoles(h, h');
  }

  lemma DropReleased(h: Heap, h': Heap, b: Ptr)
    requires CoreInv(h) && Droppable(h.mem, b) && Shrinks(h.mem, h'.mem, b)
    requires Freed(h.mem, b) ==> forall t: Slot :: t.Reg? || t.Armed? ==> Target(h, t) != b
    ensures forall a :: a in h.cbs && h.cbs[a].listener.BufferReleased? ==> h.cbs[a].userdata in h'.mem
  {
    forall a | a in h.cbs && h.cbs[a].listener.BufferReleased? ensures h.cbs[a].userdata in h'.mem {
      assert CallbackOk(h, a, h.cbs[a]);
      assert Target(h, Armed(a)) == h.cbs[a].userdata;
    }
  }

  lemma DropBothEnds(h: Heap, h': Heap, b: Ptr)
    requires CoreInv(h) && Droppable(h.mem, b)
    requires forall t :: Linked(t) ==> Target(h, t) != b && !(Owns(t, b) && Target(h, t) != NULL)
    requires forall u :: Target(h', u) == if Freed(h.mem, b) && Owns(u, b) then NULL else Target(h, u)
    ensures OnlyCleared(h, h') && BothEnds(h, h')
  {
    forall u | Linked(u) && Target(h, u) != NULL && Target(h', u) != NULL
      ensures Target(h', Back(u, Target(h, u))) != NULL
    {
      BackOfBack(h, u);
      LinkEnds(h, u);
    }
  }

  /** c_unref(surface->f) while the field keeps its value. Besides the slots in d nothing holds the
      buffer if this was its last counted reference. */
  method DropHeld(c: Client, s: Ptr, b: Ptr, ghost d: set<Slot>)
    requires CoreInv(c.H()) && s in c.mem && c.mem[s].body.Surface? && b in c.mem && c.mem[b].body.Buffer? && b != NULL
    requires Extra(c.H(), c.mem[b].body.pool) == 0 && Extra(c.H(), c.mem[b].body.pixels) == 0
    requires (forall t: Slot :: t in d ==> Target(c.H(), t) == b && !t.Reg? && !t.Armed?) && |d| == 1 - Extra(c.H(), b)
    modifies c`mem
    ensures CoreInv(c.H()) && Weakens(old(c.H()), c.H()) && RolesKept(old(c.H()), c.H())
    ensures Clears(old(c.H()), c.H(), s)
    ensures s in c.mem && c.mem[s].body == old(c.mem)[s].body
    ensures forall q :: q in c.mem ==> q in old(c.mem) && c.mem[q].body == old(c.mem)[q].body
    ensures forall q :: q in old(c.mem) && q !in c.mem ==> q == b || IsLeaf(old(c.mem)[q].body)
    ensures old(c.mem)[b].refs > 1 ==> b in c.mem
    ensures forall q :: q != NULL ==> Extra(c.H(), q) == Extra(old(c.H()), q) - Is(q == b)
    ensures forall u :: !Owns(u, b) ==> Target(c.H(), u) == Target(old(c.H()), u)
  {
    hide CoreInv, Extra, In, Target, Weakens, RolesKept, Drop, OutDegree, Holding, Clears;
    ghost var h := c.H();
    PartsHeld(h, b);
    if Refs(h, b) <= 1 { HoldersAre(h, b, d); }
    c.Unref(b);
    DropCore(h, c.H(), b);
    DropClears(h, c.H(), s, b);
  }

  lemma DropClears(h: Heap, h': Heap, s: Ptr, b: Ptr)
    requires CoreInv(h) && b in h.mem && h.mem[b].body.Buffer? && Shrinks(h.mem, h'.mem, b)
    requires forall u :: Target(h', u) == if Freed(h.mem, b) && Owns(u, b) then NULL else Target(h, u)
    ensures Clears(h, h', s)
  {
    forall u: Slot | u.Child? && u.owner == b ensures Target(h, u) == NULL { }
  }

  method DropBuffers(c: Client, s: Ptr)
    requires Inv(c.H()) && s in c.mem && c.mem[s].body.Surface?
    modifies c`mem
    ensures CoreInv(c.H()) && Weakens(old(c.H()), c.H()) && RolesKept(old(c.H()), c.H())
    ensures Clears(old(c.H()), c.H(), s)
    ensures s in c.mem && c.mem[s].body == old(c.mem)[s].body
    ensures forall q :: q in c.mem ==> q in old(c.mem) && c.mem[q].body == old(c.mem)[q].body
    ensures forall q :: q in old(c.mem) && q !in c.mem ==> old(c.mem)[q].body.Buffer? || IsLeaf(old(c.mem)[q].body)
    ensures Owing(c.H(), c.mem[s].body.pending, c.mem[s].body.active)
  {
    hide CoreInv, Extra, In, Target, Weakens, RolesKept, Clears;
    ghost var h := c.H();
    ActiveIsBuffer(h, s);
    AtField(h, s, SurfaceActive);
    AtField(h, s, SurfacePending);
    WeakensSelf(h);
    ClearsSelf(h, s);
    BufferPartTypes(h);
    NullOwesNothing(h);
    var active, pending := c.mem[s].body.active, c.mem[s].body.pending;
    if active != NULL {
      if active == pending { HeldTwice(h, At(s, SurfaceActive), At(s, SurfacePending)); }
      DropHeld(c, s, active, {At(s, SurfaceActive)});
    }
    ghost var h1 := c.H();
    NullOwesNothing(h1);
    if pending != NULL {
      DropHeld(c, s, pending,
        if active == pending then {At(s, SurfaceActive), At(s, SurfacePending)} else {At(s, SurfacePending)});
      WeakensTwice(h, h1, c.H());
      ClearsTwice(h, h1, c.H(), s);
    }
  }

  lemma NullOwesNothing(h: Heap)
    ensures Extra(h, NULL) == 0
  {
  }

  lemma BufferPartTypes(h: Heap)
    requires Inv(h)
    ensures forall b :: b in h.mem && h.mem[b].body.Buffer? ==>
      && (h.mem[b].body.pool in h.mem ==> h.mem[h.mem[b].body.pool].body.Pool?)
      && (h.mem[b].body.pixels in h.mem ==> h.mem[h.mem[b].body.pixels].body.Pixels?)
  {
    forall b | b in h.mem && h.mem[b].body.Buffer?
      ensures h.mem[b].body.pool in h.mem ==> h.mem[h.mem[b].body.pool].body.Pool?
      ensures h.mem[b].body.pixels in h.mem ==> h.mem[h.mem[b].body.pixels].body.Pixels?
    {
      AtField(h, b, BufferPool);
      AtField(h, b, BufferPixels);
      assert Target(h, At(b, BufferPool)) in h.mem ==>
        Fits(h, At(b, BufferPool), h.mem[Target(h, At(b, BufferPool))].body);
      assert Target(h, At(b, BufferPixels)) in h.mem ==>
        Fits(h, At(b, BufferPixels), h.mem[Target(h, At(b, BufferPixels))].body);
    }
  }

  // ---------------------------------------------------------------- wl_surface_destroy

  /** A surface without links is held by nothing but its registry entry. */
  lemma SurfaceHolders(h: Heap, s: Ptr)
    requires CoreInv(h) && s in h.mem && h.mem[s].body.Surface?
    requires var b := h.mem[s].body; b.xdg == NULL && b.subsurface == NULL && b.viewport == NULL && b.children == []
    ensures forall t :: Target(h, t) == s ==> t == Reg(h.mem[s].body.obj)
  {
    forall t | Target(h, t) == s ensures t == Reg(h.mem[s].body.obj) {
      assert Fits(h, t, h.mem[s].body);
      if Linked(t) { LinkEnds(h, t); }
    }
  }

  /** The links go, the counts of everything but the buffers stay right, and the surface survives. */
  method DetachAll(c: Client, s: Ptr)
    requires CoreInv(c.H()) && s in c.mem && c.mem[s].body.Surface?
    requires forall q :: q != NULL && q in c.mem && !c.mem[q].body.Buffer? ==> Extra(c.H(), q) == 0
    modifies c`mem
    ensures CoreInv(c.H()) && c.mem.Keys == old(c.mem).Keys && Weakens(old(c.H()), c.H())
    ensures RolesKept(old(c.H()), c.H())
    ensures Clears(old(c.H()), c.H(), s)
    ensures s in c.mem
    ensures c.mem[s].body == old(c.mem)[s].body.(xdg := NULL, subsurface := NULL, viewport := NULL, children := [])
    ensures forall q :: q != NULL ==> Extra(c.H(), q) == Extra(old(c.H()), q)
  {
    hide CoreInv, Extra, In, Target, Weakens, RolesKept, Clears;
    ghost var h := c.H();
    Detach(c, s, SurfaceXdg);
    ghost var h1 := c.H();
    Detach(c, s, SurfaceSubsurface);
    ghost var h2 := c.H();
    DetachChildren(c, s);
    ghost var h3 := c.H();
    Detach(c, s, SurfaceViewport);
    ghost var h4 := c.H();
    WeakensTwice(h, h1, h2);
    WeakensTwice(h, h2, h3);
    WeakensTwice(h, h3, h4);
    ClearsTwice(h, h1, h2, s);
    ClearsTwice(h, h2, h3, s);
    ClearsTwice(h, h3, h4, s);
  }

  /** Once the buffers are dropped, only buffers are owed anything. */
  lemma NoBufferOwes(h: Heap, h1: Heap, s: Ptr)
    requires Inv(h) && s in h.mem && h.mem[s].body.Surface? && s in h1.mem && h1.mem[s].body == h.mem[s].body
    requires forall q :: q in h1.mem ==> q in h.mem && h1.mem[q].body == h.mem[q].body
    requires Owing(h1, h1.mem[s].body.pending, h1.mem[s].body.active)
    ensures forall q :: q != NULL && q in h1.mem && !h1.mem[q].body.Buffer? ==> Extra(h1, q) == 0
  {
    hide Extra, In, Target;
    ActiveIsBuffer(h, s);
  }

  lemma DeletedClears(h: Heap, h': Heap, s: Ptr, id: Id)
    requires Target(h, Reg(id)) == s && h'.mem.Keys == h.mem.Keys - {s}
    requires forall u :: Target(h', u) == if u == Reg(id) || Owns(u, s) then NULL else Target(h, u)
    ensures Clears(h, h', s)
  {
  }

  lemma ClearedIsErased(h: Heap, h': Heap, s: Ptr)
    requires Clears(h, h', s) && Balanced(h') && s !in h'.mem && s != NULL
    ensures Erased(h, h', s)
  {
    forall u
      ensures Target(h', u) ==
        (if Target(h, u) == s || Owns(u, s) || (u.At? && u.owner !in h'.mem) then NULL else Target(h, u))
    {
      if Target(h', u) == s { Held(h', u); }
    }
  }

  lemma WeakensBodies(h: Heap, h': Heap)
    requires Weakens(h, h')
    ensures forall q :: q in h'.mem ==> q in h.mem && SameCore(h.mem[q].body, h'.mem[q].body)
  {
  }

  lemma RolesThrough(h0: Heap, h: Heap, h': Heap)
    requires RolesKept(h0, h) && RolesKept(h, h')
    requires forall q :: q in h'.mem ==> q in h.mem && SameCore(h.mem[q].body, h'.mem[q].body)
    ensures RolesKept(h0, h')
  {
  }

  lemma ErasedThrough(h0: Heap, h: Heap, h': Heap, s: Ptr)
    requires (forall u :: Target(h, u) == Target(h0, u)) && Erased(h, h', s)
    ensures Erased(h0, h', s)
  {
  }

  /** Entry id is gone with its surface, every pointer to it and from it, and its listeners; besides it
      at most buffers and their parts are freed. */
  ghost predicate SurfaceDestroyed(h: Heap, h': Heap, id: Id) {
    && id in h.reg && h'.reg == h.reg - {id}
    && var s := h.reg[id].data;
    && s in h.mem && h.mem[s].body.Surface? && s !in h'.mem && Erased(h, h', s) && RolesKept(h, h')
    && (forall q :: q in h.mem && q !in h'.mem && q != s ==> h.mem[q].body.Buffer? || IsLeaf(h.mem[q].body))
    && (forall q :: q in h'.mem ==> q in h.mem && SameCore(h.mem[q].body, h'.mem[q].body))
    && h'.cbs == h.cbs - ({h.mem[s].body.frameCb, h.mem[s].body.feedbackCb} - {NULL})
  }

  method WlSurfaceDestroy(c: Client, id: Id)
    requires Ready(c) && id in c.reg && c.reg[id].kind == KSurface
    modifies c`mem, c`reg, c`cbs, c`lists, c`sent
    ensures Ready(c)
    ensures SurfaceDestroyed(old(c.H()), c.H(), id)
    ensures c.lists == DestroyedLists(old(c.H()), old(c.lists), old(c.reg)[id].data)
    ensures c.sent == old(c.sent) + DiscardEvents(old(c.mem)[old(c.reg)[id].data].body.feedbacks) + DeletedId(id)
  {
    hide CoreInv, Extra, In, Target, Weakens, RolesKept, Clears, ListsOk, Balanced, Erased;
    RegistryEntry(c.H(), id);
    var surface := c.reg[id].data;
    OnWlSurfaceDestroy(c, surface);
    DiscardFeedbacks(c, surface);
    ghost var h := c.H();
    Vacate(c, surface, id);
    ErasedThrough(old(c.H()), h, c.H(), surface);
    RolesThrough(old(c.H()), h, c.H());
  }

  /** The rest of wl_surface_destroy, once the surface is off its output. */
  method Vacate(c: Client, s: Ptr, id: Id)
    requires Inv(c.H()) && id in c.reg && c.reg[id] == Object(KSurface, s) && s in c.mem && c.mem[s].body.Surface?
    requires !HasCallback(c.mem[s].body) && s != NULL
    modifies c`mem, c`reg, c`sent
    ensures Inv(c.H()) && Erased(old(c.H()), c.H(), s) && s !in c.mem
    ensures forall q :: q in old(c.mem) && q !in c.mem && q != s ==>
      old(c.mem)[q].body.Buffer? || IsLeaf(old(c.mem)[q].body)
    ensures forall q :: q in c.mem ==> q in old(c.mem) && SameCore(old(c.mem)[q].body, c.mem[q].body)
    ensures c.reg == old(c.reg) - {id} && c.sent == old(c.sent) + DeletedId(id) && RolesKept(old(c.H()), c.H())
  {
    hide CoreInv, Extra, In, Target, Weakens, RolesKept, Clears, Erased, OutDegree, Holding, Drop;
    ghost var h := c.H();
    RegistryEntry(h, id);
    DropBuffers(c, s);
    ghost var h1 := c.H();
    NoBufferOwes(h, h1, s);
    DetachAll(c, s);
    ghost var h2 := c.H();
    WeakensTwice(h, h1, h2);
    ClearsTwice(h, h1, h2, s);
    SurfaceHolders(h2, s);
    RegistryEntry(h2, id);
    OnlyHolder(h2, Reg(id));
    var _ := c.ObjectDel(id);
    ghost var h3 := c.H();
    WeakensTwice(h, h2, h3);
    forall q | q != NULL ensures Extra(h3, q) == 0 {
      UnlinkedSurfaceOut(h2.mem[s].body, q);
    }
    DeletedClears(h2, h3, s, id);
    ClearsTwice(h, h2, h3, s);
    ClearedIsErased(h, h3, s);
    WeakensBodies(h, h3);
    ErasedKeepsInv(h, h3, id, s);
  }
}
