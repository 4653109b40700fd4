/** Steps that move buffer pointers around: attach, commit, the release of a buffer, and the scene's quads. */
module BufferSteps {
  import opened Memory
  import opened Invariant
  import opened Erasure

  /** Equal except for which buffers a surface has pending and active. */
  predicate SameButBuffers(a: Body, b: Body) {
    if a.Surface? then b.Surface? && a.(pending := b.pending, attached := b.attached, active := b.active) == b
    else a == b
  }

  /** Buffer slots of surfaces may change, and buffers nobody holds any more are gone. */
  ghost predicate MovesBuffers(h: Heap, h': Heap) {
    && h'.reg == h.reg && h'.cbs == h.cbs
    && (forall q :: q in h'.mem ==> q in h.mem && SameButBuffers(h.mem[q].body, h'.mem[q].body) && h'.mem[q].refs >= 1)
    && (forall q :: q in h.mem && q !in h'.mem ==> h.mem[q].body.Buffer? || IsLeaf(h.mem[q].body))
    && (forall u :: Linked(u) ==> Target(h', u) == Target(h, u))
    && (forall u :: Target(h', u) != Target(h, u) && Target(h', u) != NULL ==>
          && Target(h', u) in h.mem
          && (if u.Quad? then h.mem[Target(h', u)].body.Pixels?
              else (u.At? && (u.field == SurfacePending || u.field == SurfaceActive) &&
                    h.mem[Target(h', u)].body.Buffer?)))
    && (forall u: Slot :: u.Reg? || u.Armed? ==> Target(h', u) == Target(h, u))
  }

  lemma MovesBuffersKeepsInv(h: Heap, h': Heap)
    requires CoreInv(h) && MovesBuffers(h, h') && Balanced(h') && WellFormedBodies(h')
    ensures Inv(h')
  {
    hide WellFormedBodies;
    assert Live(h');
    MovesTyped(h, h');
    MovesRegistry(h, h');
    MovesRoles(h, h');
    MovesCallbacks(h, h');
    forall q ensures Frames(h', q) == Frames(h, q) && Feedbacks(h', q) == Feedbacks(h, q) { }
  }

  lemma MovesTyped(h: Heap, h': Heap)
    requires CoreInv(h) && MovesBuffers(h, h')
    ensures Typed(h') && Mutual(h')
  {
    forall u | Target(h', u) in h'.mem
      ensures Fits(h', u, h'.mem[Target(h', u)].body)
    {
      if Target(h', u) == Target(h, u) { assert Fits(h, u, h.mem[Target(h, u)].body); }
    }
    forall u | Linked(u) && Target(h', u) != NULL
      ensures Target(h', Back(u, Target(h', u))) == u.owner
    {
      BackOfBack(h, u);
    }
  }

  lemma MovesRegistry(h: Heap, h': Heap)
    requires CoreInv(h) && MovesBuffers(h, h') && Balanced(h')
    ensures Registered(h') && Named(h')
  {
    hide Typed, Mutual, Roles, Callbacks, Waiting, WellFormedBodies, Balanced;
    forall i | i in h'.reg && !NoData(h.reg[i].kind) ensures h.reg[i].data in h'.mem {
      assert Target(h', Reg(i)) == h.reg[i].data;
      BalancedHeld(h', Reg(i));
    }
  }

  lemma BalancedHeld(h: Heap, t: Slot)
    requires Balanced(h) && Target(h, t) != NULL
    ensures Target(h, t) in h.mem
  {
    Held(h, t);
  }

  lemma MovesRoles(h: Heap, h': Heap)
    requires CoreInv(h) && MovesBuffers(h, h')
    ensures Roles(h')
  {
    forall i | i in h'.reg && h'.reg[i].kind == KToplevel && HasSurface(h', h'.reg[i].data)
      ensures HasSurface(h, h'.reg[i].data) && ToplevelRoleOk(h', h'.reg[i].data)
    {
      assert ToplevelRoleOk(h, h.reg[i].data);
    }
  }

  lemma MovesCallbacks(h: Heap, h': Heap)
    requires CoreInv(h) && MovesBuffers(h, h') && Balanced(h')
    ensures Callbacks(h')
  {
    forall a | a in h'.cbs ensures CallbackOk(h', a, h'.cbs[a]) {
      assert CallbackOk(h, a, h.cbs[a]);
      if h.cbs[a].listener.BufferReleased? {
        assert Target(h', Armed(a)) == h.cbs[a].userdata;
        Held(h', Armed(a));
      }
    }
    forall q | q in h'.mem ensures ArmedOk(h', q, h'.mem[q].body) {
      assert ArmedOk(h, q, h.mem[q].body);
    }
  }
}
