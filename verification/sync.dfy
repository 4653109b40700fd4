/** `wl_subsurface.set_sync` and `set_desync`: the flag of a subsurface and of everything below it. */
module SubsurfaceSync {
  import opened Memory
  import opened Invariant
  import opened ClientState
  import opened Commits
  import opened SceneQuads

  // ---------------------------------------------------------------- the subsurfaces below one

  function RankOf(rank: map<Ptr, nat>, s: Ptr): nat { if s in rank then rank[s] else 0 }

  /** ss and the subsurfaces in the tree of its surface. */
  function Family(mem: map<Ptr, Block>, rank: map<Ptr, nat>, ss: Ptr): set<Ptr>
    requires Ranked(mem, rank)
    decreases RankOf(rank, SurfaceOf(mem, ss)), |ChildrenOf(mem, SurfaceOf(mem, ss))| + 1
  {
    {ss} + FamilyBelow(mem, rank, ss, |ChildrenOf(mem, SurfaceOf(mem, ss))|)
  }

  function FamilyBelow(mem: map<Ptr, Block>, rank: map<Ptr, nat>, ss: Ptr, k: nat): set<Ptr>
    requires Ranked(mem, rank) && k <= |ChildrenOf(mem, SurfaceOf(mem, ss))|
    decreases RankOf(rank, SurfaceOf(mem, ss)), k
  {
    if k == 0 then {}
    else
      var s := SurfaceOf(mem, ss);
      var child := mem[s].body.children[k - 1];
      assert Below(mem, rank, s, child);
      FamilyBelow(mem, rank, ss, k - 1) + (if Nested(mem, child) then Family(mem, rank, child) else {child})
  }

  /** A child that still has its surface. */
  predicate Nested(mem: map<Ptr, Block>, ss: Ptr) {
    SurfaceOf(mem, ss) in mem && mem[SurfaceOf(mem, ss)].body.Surface?
  }

  /** The same memory with the flag of some subsurfaces set. */
  function WithSync(mem: map<Ptr, Block>, flagged: set<Ptr>, sync: bool): map<Ptr, Block> {
    map p | p in mem :: if p in flagged && mem[p].body.Subsurface? then Flagged(mem[p], sync) else mem[p]
  }

  function Flagged(b: Block, sync: bool): Block
    requires b.body.Subsurface?
  {
    Block(b.refs, Subsurface(b.body.obj, b.body.surface, b.body.parent, sync))
  }

  lemma WithSyncTwice(mem: map<Ptr, Block>, a: set<Ptr>, b: set<Ptr>, sync: bool)
    ensures WithSync(WithSync(mem, a, sync), b, sync) == WithSync(mem, a + b, sync)
  {
  }

  // ---------------------------------------------------------------- the flag means nothing to the invariant

  lemma SyncTargets(h: Heap, h': Heap, flagged: set<Ptr>, sync: bool)
    requires h' == h.(mem := WithSync(h.mem, flagged, sync))
    ensures forall u :: Target(h', u) == Target(h, u)
  {
    forall u ensures Target(h', u) == Target(h, u) {
      match u case Reg(_) => case At(_, _) => case Child(_, _) => case Armed(_) => case Quad(_, _) =>
    }
  }

  lemma SyncKeepsInv(h: Heap, h': Heap, flagged: set<Ptr>, sync: bool)
    requires Inv(h) && h' == h.(mem := WithSync(h.mem, flagged, sync))
    ensures Inv(h')
  {
    hide CoreInv, Extra, Target;
    SyncTargets(h, h', flagged, sync);
    forall q | q != NULL ensures Extra(h', q) == 0 {
      assert Extra(h, q) == 0;
      CountChange(h, h', q);
    }
    SyncKeepsCore(h, h', flagged, sync);
  }

  lemma SyncKeepsCore(h: Heap, h': Heap, flagged: set<Ptr>, sync: bool)
    requires CoreInv(h) && h' == h.(mem := WithSync(h.mem, flagged, sync)) && forall u :: Target(h', u) == Target(h, u)
    ensures CoreInv(h')
  {
    hide Typed, Mutual, Registered, Named, WellFormedBodies, Roles, Callbacks, Waiting, Target;
    SyncTyped(h, h', flagged, sync);
    SyncRegistry(h, h', flagged, sync);
    SyncRoles(h, h', flagged, sync);
    SyncCallbacks(h, h', flagged, sync);
  }

  lemma SyncTyped(h: Heap, h': Heap, flagged: set<Ptr>, sync: bool)
    requires Typed(h) && Mutual(h) && h' == h.(mem := WithSync(h.mem, flagged, sync)) && forall u ::
      Target(h', u) == Target(h, u)
    ensures Typed(h') && Mutual(h')
  {
    hide Target;
    forall u | Target(h', u) in h'.mem ensures Fits(h', u, h'.mem[Target(h', u)].body) {
      assert Fits(h, u, h.mem[Target(h, u)].body);
    }
  }

  lemma SyncRegistry(h: Heap, h': Heap, flagged: set<Ptr>, sync: bool)
    requires Registered(h) && Named(h) && WellFormedBodies(h) && h' == h.(mem := WithSync(h.mem, flagged, sync))
    ensures Registered(h') && Named(h') && WellFormedBodies(h')
  {
  }

  lemma SyncRoles(h: Heap, h': Heap, flagged: set<Ptr>, sync: bool)
    requires Roles(h) && h' == h.(mem := WithSync(h.mem, flagged, sync))
    ensures Roles(h')
  {
    forall i | i in h'.reg && h'.reg[i].kind == KToplevel ensures ToplevelRoleOk(h', h'.reg[i].data) {
      assert ToplevelRoleOk(h, h.reg[i].data);
    }
  }

  lemma SyncCallbacks(h: Heap, h': Heap, flagged: set<Ptr>, sync: bool)
    requires Callbacks(h) && Waiting(h) && h' == h.(mem := WithSync(h.mem, flagged, sync))
    ensures Callbacks(h') && Waiting(h')
  {
    forall x | x in h'.cbs ensures CallbackOk(h', x, h'.cbs[x]) { assert CallbackOk(h, x, h.cbs[x]); }
    forall q | q in h'.mem ensures ArmedOk(h', q, h'.mem[q].body) { assert ArmedOk(h, q, h.mem[q].body); }
    forall q ensures Frames(h', q) == Frames(h, q) && Feedbacks(h', q) == Feedbacks(h, q) { }
  }

  // ---------------------------------------------------------------- wl_subsurface_set_sync, wl_subsurface_set_desync

  /** The request reads the children of the subsurface's surface, and so on down the tree: every member
      of the family must still have its surface. */
  predicate AllNested(mem: map<Ptr, Block>, family: set<Ptr>) { forall x :: x in family ==> Nested(mem, x) }

  /** What the walk reads is not what it writes. */
  lemma SameLinks(mem: map<Ptr, Block>, flagged: set<Ptr>, sync: bool, x: Ptr)
    requires x in mem
    ensures var m := WithSync(mem, flagged, sync);
      && x in m && m[x].body.Subsurface? == mem[x].body.Subsurface? && m[x].body.Surface? == mem[x].body.Surface?
      && (mem[x].body.Subsurface? ==> m[x].body.surface == mem[x].body.surface && m[x].body.obj == mem[x].body.obj)
      && (mem[x].body.Surface? ==> m[x].body == mem[x].body)
      && (m[x].body.Subsurface? ==> m[x := Flagged(m[x], sync)] == WithSync(mem, flagged + {x}, sync))
  {
  }

  lemma ChildNamed(h: Heap, s: Ptr, k: nat)
    requires CoreInv(h) && s in h.mem && h.mem[s].body.Surface? && k < |h.mem[s].body.children|
    ensures var ss := h.mem[s].body.children[k];
      ss in h.mem && h.mem[ss].body.Subsurface? && h.mem[ss].body.obj in h.reg &&
        h.reg[h.mem[ss].body.obj] == Object(KSubsurface, ss)
  {
    var ss := h.mem[s].body.children[k];
    assert WellFormed(h.mem[s].body) && ss in h.mem[s].body.children;
    assert Target(h, Child(s, ss)) == ss;
    LinkEnds(h, Child(s, ss));
    ObjectOf(h, ss);
  }

  /** The i-th child of the surface behind ss is a registered subsurface of a smaller family. */
  lemma NextChild(h: Heap, rank: map<Ptr, nat>, ss: Ptr, i: nat)
    requires CoreInv(h) && Ranked(h.mem, rank) && ss in h.mem && AllNested(h.mem, Family(h.mem, rank, ss))
    requires i < |ChildrenOf(h.mem, SurfaceOf(h.mem, ss))|
    ensures var child := ChildrenOf(h.mem, SurfaceOf(h.mem, ss))[i];
      && child in h.mem && h.mem[child].body.Subsurface?
      && h.mem[child].body.obj in h.reg && h.reg[h.mem[child].body.obj] == Object(KSubsurface, child)
      && AllNested(h.mem, Family(h.mem, rank, child))
      && FamilyBelow(h.mem, rank, ss, i + 1) == FamilyBelow(h.mem, rank, ss, i) + Family(h.mem, rank, child)
      && RankOf(rank, SurfaceOf(h.mem, child)) < RankOf(rank, SurfaceOf(h.mem, ss))
  {
    hide CoreInv, AllNested;
    var s := SurfaceOf(h.mem, ss);
    ChildNamed(h, s, i);
    assert Below(h.mem, rank, s, h.mem[s].body.children[i]);
    FamilyGrows(h.mem, rank, ss, i);
    FamilyMember(h.mem, Family(h.mem, rank, ss), h.mem[s].body.children[i]);
    MembersNested(h.mem, Family(h.mem, rank, ss), Family(h.mem, rank, h.mem[s].body.children[i]));
  }

  lemma FamilyStarts(mem: map<Ptr, Block>, rank: map<Ptr, nat>, ss: Ptr)
    requires Ranked(mem, rank)
    ensures ss in Family(mem, rank, ss) && FamilyBelow(mem, rank, ss, 0) == {}
    ensures Family(mem, rank, ss) == {ss} + FamilyBelow(mem, rank, ss, |ChildrenOf(mem, SurfaceOf(mem, ss))|)
  {
  }

  lemma Regroup(a: set<Ptr>, b: set<Ptr>, c: set<Ptr>, d: set<Ptr>)
    ensures a + (b + c) + d == a + (b + (c + d))
  {
  }

  /** `flagged` are the subsurfaces that earlier calls of the same walk have set. */
  method SetSync(c: Client, id: Id, sync: bool, ghost h: Heap, ghost flagged: set<Ptr>, ghost rank: map<Ptr, nat>)
    requires CoreInv(h) && Ranked(h.mem, rank) && c.H() == h.(mem := WithSync(h.mem, flagged, sync))
    requires id in c.reg && c.reg[id].kind == KSubsurface && AllNested(h.mem, Family(h.mem, rank, c.reg[id].data))
    modifies c`mem
    ensures c.H() == h.(mem := WithSync(h.mem, flagged + Family(h.mem, rank, c.reg[id].data), sync))
    decreases RankOf(rank, SurfaceOf(h.mem, h.reg[id].data)) + 1
  {
    hide CoreInv, AllNested, Ranked, Family, FamilyBelow, WithSync;
    var ss := c.reg[id].data;
    RegistryEntry(h, id);
    FamilyStarts(h.mem, rank, ss);
    FamilyMember(h.mem, Family(h.mem, rank, ss), ss);
    SameLinks(h.mem, flagged, sync, ss);
    c.mem := c.mem[ss := Flagged(c.mem[ss], sync)];
    ghost var done := flagged + {ss};
    SameLinks(h.mem, done, sync, ss);
    var surface := c.mem[ss].body.surface;
    SameLinks(h.mem, done, sync, surface);
    var children := c.mem[surface].body.children;
    var i := 0;
    assert {ss} + {} == {ss};
    while i < |children|
      invariant 0 <= i <= |children|
      invariant c.H() == h.(mem := WithSync(h.mem, flagged + ({ss} + FamilyBelow(h.mem, rank, ss, i)), sync))
    {
      done := flagged + ({ss} + FamilyBelow(h.mem, rank, ss, i));
      NextChild(h, rank, ss, i);
      SameLinks(h.mem, done, sync, children[i]);
      SetSync(c, c.mem[children[i]].body.obj, sync, h, done, rank);
      Regroup(flagged, {ss}, FamilyBelow(h.mem, rank, ss, i), Family(h.mem, rank, children[i]));
      i := i + 1;
    }
  }

  lemma FamilyMember(mem: map<Ptr, Block>, family: set<Ptr>, x: Ptr)
    requires AllNested(mem, family) && x in family
    ensures Nested(mem, x)
  {
  }

  lemma MembersNested(mem: map<Ptr, Block>, family: set<Ptr>, part: set<Ptr>)
    requires AllNested(mem, family) && part <= family
    ensures AllNested(mem, part)
  {
  }

  lemma {:induction false} FamilyGrows(mem: map<Ptr, Block>, rank: map<Ptr, nat>, ss: Ptr, i: nat)
    requires Ranked(mem, rank) && i < |ChildrenOf(mem, SurfaceOf(mem, ss))|
    ensures FamilyBelow(mem, rank, ss, i + 1) <= Family(mem, rank, ss)
    ensures ChildrenOf(mem, SurfaceOf(mem, ss))[i] in FamilyBelow(mem, rank, ss, i + 1)
    ensures var child := ChildrenOf(mem, SurfaceOf(mem, ss))[i];
      Nested(mem, child) ==>
        FamilyBelow(mem, rank, ss, i + 1) == FamilyBelow(mem, rank, ss, i) + Family(mem, rank, child)
    decreases |ChildrenOf(mem, SurfaceOf(mem, ss))| - i
  {
    if i + 1 < |ChildrenOf(mem, SurfaceOf(mem, ss))| { FamilyGrows(mem, rank, ss, i + 1); }
  }

  /** Does the walk from ss, in the order of the source, come to a subsurface without a surface? */
  predicate WalkReadsNull(mem: map<Ptr, Block>, rank: map<Ptr, nat>, ss: Ptr)
    requires Ranked(mem, rank)
    decreases RankOf(rank, SurfaceOf(mem, ss)), |ChildrenOf(mem, SurfaceOf(mem, ss))| + 1
  {
    !Nested(mem, ss) || WalkBelowReadsNull(mem, rank, ss, |ChildrenOf(mem, SurfaceOf(mem, ss))|)
  }

  predicate WalkBelowReadsNull(mem: map<Ptr, Block>, rank: map<Ptr, nat>, ss: Ptr, k: nat)
    requires Ranked(mem, rank) && k <= |ChildrenOf(mem, SurfaceOf(mem, ss))|
    decreases RankOf(rank, SurfaceOf(mem, ss)), k
  {
    k > 0 &&
    (WalkBelowReadsNull(mem, rank, ss, k - 1) ||
     var child := mem[SurfaceOf(mem, ss)].body.children[k - 1];
     assert Below(mem, rank, SurfaceOf(mem, ss), child);
     !Nested(mem, child) || WalkReadsNull(mem, rank, child))
  }

  /** The request reads through a missing surface exactly when some member of the family lost its own. */
  lemma {:induction false} SetSyncReadsNull(mem: map<Ptr, Block>, rank: map<Ptr, nat>, ss: Ptr)
    requires Ranked(mem, rank)
    ensures WalkReadsNull(mem, rank, ss) <==> !AllNested(mem, Family(mem, rank, ss))
    decreases RankOf(rank, SurfaceOf(mem, ss)), |ChildrenOf(mem, SurfaceOf(mem, ss))| + 1
  {
    SetSyncReadsNullBelow(mem, rank, ss, |ChildrenOf(mem, SurfaceOf(mem, ss))|);
    FamilyStarts(mem, rank, ss);
  }

  lemma {:induction false} SetSyncReadsNullBelow(mem: map<Ptr, Block>, rank: map<Ptr, nat>, ss: Ptr, k: nat)
    requires Ranked(mem, rank) && k <= |ChildrenOf(mem, SurfaceOf(mem, ss))|
    ensures WalkBelowReadsNull(mem, rank, ss, k) <==> !AllNested(mem, FamilyBelow(mem, rank, ss, k))
    decreases RankOf(rank, SurfaceOf(mem, ss)), k
  {
    if k > 0 {
      var child := mem[SurfaceOf(mem, ss)].body.children[k - 1];
      assert Below(mem, rank, SurfaceOf(mem, ss), child);
      SetSyncReadsNullBelow(mem, rank, ss, k - 1);
      if Nested(mem, child) { SetSyncReadsNull(mem, rank, child); }
    }
  }

  method WlSubsurfaceSetSync(c: Client, id: Id, sync: bool, ghost rank: map<Ptr, nat>)
    requires Inv(c.H()) && Ranked(c.mem, rank) && id in c.reg && c.reg[id].kind == KSubsurface
    requires AllNested(c.mem, Family(c.mem, rank, c.reg[id].data))
    modifies c`mem
    ensures Inv(c.H()) && c.mem == WithSync(old(c.mem), Family(old(c.mem), rank, c.reg[id].data), sync)
  {
    hide Inv, AllNested, CoreInv;
    ghost var h := c.H();
    assert c.mem == WithSync(h.mem, {}, sync);
    assert CoreInv(h) by { InvCore(h); }
    SetSync(c, id, sync, h, {}, rank);
    assert {} + Family(h.mem, rank, c.reg[id].data) == Family(h.mem, rank, c.reg[id].data);
    SyncKeepsInv(h, c.H(), Family(h.mem, rank, c.reg[id].data), sync);
  }

  lemma InvCore(h: Heap)
    requires Inv(h)
    ensures CoreInv(h)
  {
  }

  // ---------------------------------------------------------------- what the flag is for

  lemma {:induction false} FamilyClosed(mem: map<Ptr, Block>, rank: map<Ptr, nat>, ss: Ptr, x: Ptr, child: Ptr)
    requires Ranked(mem, rank) && x in Family(mem, rank, ss) && child in ChildrenOf(mem, SurfaceOf(mem, x))
    ensures child in Family(mem, rank, ss)
    decreases RankOf(rank, SurfaceOf(mem, ss)), |ChildrenOf(mem, SurfaceOf(mem, ss))| + 1
  {
    var kids := ChildrenOf(mem, SurfaceOf(mem, ss));
    if x == ss {
      var k :| 0 <= k < |kids| && kids[k] == child;
      FamilyGrows(mem, rank, ss, k);
    } else {
      FamilyBelowClosed(mem, rank, ss, x, child, |kids|);
    }
  }

  lemma {:induction false} FamilyBelowClosed(mem: map<Ptr, Block>, rank: map<Ptr, nat>, ss: Ptr, x: Ptr, child: Ptr,
                                             k: nat)
    requires Ranked(mem, rank) && k <= |ChildrenOf(mem, SurfaceOf(mem, ss))|
    requires x in FamilyBelow(mem, rank, ss, k) && child in ChildrenOf(mem, SurfaceOf(mem, x))
    ensures child in FamilyBelow(mem, rank, ss, k)
    decreases RankOf(rank, SurfaceOf(mem, ss)), k
  {
    var y := mem[SurfaceOf(mem, ss)].body.children[k - 1];
    assert Below(mem, rank, SurfaceOf(mem, ss), y);
    if x in FamilyBelow(mem, rank, ss, k - 1) {
      FamilyBelowClosed(mem, rank, ss, x, child, k - 1);
    } else if Nested(mem, y) {
      FamilyClosed(mem, rank, y, x, child);
    }
  }

  /** Nothing belongs to the family but what its closure makes so. */
  lemma {:induction false} FamilyLeast(mem: map<Ptr, Block>, rank: map<Ptr, nat>, ss: Ptr, closed: set<Ptr>)
    requires Ranked(mem, rank) && ss in closed
    requires forall x, child :: x in closed && child in ChildrenOf(mem, SurfaceOf(mem, x)) ==> child in closed
    ensures Family(mem, rank, ss) <= closed
    decreases RankOf(rank, SurfaceOf(mem, ss)), |ChildrenOf(mem, SurfaceOf(mem, ss))| + 1
  {
    FamilyBelowLeast(mem, rank, ss, |ChildrenOf(mem, SurfaceOf(mem, ss))|, closed);
  }

  lemma {:induction false} FamilyBelowLeast(mem: map<Ptr, Block>, rank: map<Ptr, nat>, ss: Ptr, k: nat,
                                            closed: set<Ptr>)
    requires Ranked(mem, rank) && ss in closed && k <= |ChildrenOf(mem, SurfaceOf(mem, ss))|
    requires forall x, child :: x in closed && child in ChildrenOf(mem, SurfaceOf(mem, x)) ==> child in closed
    ensures FamilyBelow(mem, rank, ss, k) <= closed
    decreases RankOf(rank, SurfaceOf(mem, ss)), k
  {
    if k > 0 {
      var child := ChildrenOf(mem, SurfaceOf(mem, ss))[k - 1];
      assert Below(mem, rank, SurfaceOf(mem, ss), child);
      FamilyBelowLeast(mem, rank, ss, k - 1, closed);
      if Nested(mem, child) { FamilyLeast(mem, rank, child, closed); }
    }
  }
}
