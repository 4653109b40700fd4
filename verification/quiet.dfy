/** Requests that touch no counted pointer of a surface: frame and feedback requests, arming and
    disarming output callbacks, assigning an output. */
module QuietSteps {
  import opened Memory
  import opened Invariant
  import opened Erasure

  /** Equal up to what waits for the output. */
  predicate SameStructure(a: Body, b: Body) {
    if a.Surface? then
      && b.Surface?
      && a.(frames := b.frames, feedbacks := b.feedbacks, frameCb := b.frameCb, feedbackCb := b.feedbackCb,
        output := b.output) == b
    else if a.Buffer? then b.Buffer? && a.(cb := b.cb) == b
    else a == b
  }

  /** Only callback objects, which own no data, come and go. */
  predicate QuietRegistry(h: Heap, h': Heap) {
    && 0 !in h'.reg
    && (forall i :: i in h.reg && !NoData(h.reg[i].kind) ==> i in h'.reg && h'.reg[i] == h.reg[i])
    && (forall i :: i in h'.reg && !(i in h.reg && h'.reg[i] == h.reg[i]) ==>
      NoData(h'.reg[i].kind) && h'.reg[i].data == NULL)
  }

  ghost predicate Quiet(h: Heap, h': Heap) {
    && h'.mem.Keys == h.mem.Keys && QuietRegistry(h, h')
    && (forall q :: q in h.mem ==> SameStructure(h.mem[q].body, h'.mem[q].body) && h'.mem[q].refs >= 1)
    && (forall u: Slot :: !u.Armed? ==> Target(h', u) == Target(h, u))
    && (forall u: Slot :: u.Armed? && Target(h', u) in h.mem ==> h.mem[Target(h', u)].body.Buffer?)
  }

  lemma QuietKeepsStructure(h: Heap, h': Heap)
    requires CoreInv(h) && Quiet(h, h')
    ensures Live(h') && Typed(h') && Mutual(h') && Registered(h') && Named(h') && Roles(h')
  {
    QuietTyped(h, h');
    QuietRoles(h, h');
    QuietNames(h, h');
  }

  lemma QuietTyped(h: Heap, h': Heap)
    requires CoreInv(h) && Quiet(h, h')
    ensures Live(h') && Typed(h') && Mutual(h')
  {
    hide Registered, Roles, Callbacks, Waiting, WellFormedBodies;
    forall u | Target(h', u) in h'.mem
      ensures Fits(h', u, h'.mem[Target(h', u)].body)
    {
      if !u.Armed? { assert Fits(h, u, h.mem[Target(h, u)].body); }
    }
    forall u | Linked(u) && Target(h', u) != NULL
      ensures Target(h', Back(u, Target(h', u))) == u.owner
    {
      BackOfBack(h, u);
    }
  }

  lemma QuietNames(h: Heap, h': Heap)
    requires CoreInv(h) && Quiet(h, h')
    ensures Registered(h') && Named(h')
  {
    hide Typed, Mutual, Roles, Callbacks, Waiting, WellFormedBodies, Target;
  }

  lemma QuietBodies(h: Heap, h': Heap)
    requires WellFormedBodies(h) && Quiet(h, h')
    requires forall q :: q in h'.mem && h'.mem[q].body.Surface? ==>
      |h'.mem[q].body.frames| <= MAX_FRAMES && |h'.mem[q].body.feedbacks| <= MAX_FRAMES
    ensures WellFormedBodies(h')
  {
    hide Target;
  }

  lemma QuietRoles(h: Heap, h': Heap)
    requires CoreInv(h) && Quiet(h, h')
    ensures Roles(h')
  {
    hide Typed, Mutual, Registered, Callbacks, Waiting, WellFormedBodies, Target;
    forall i | i in h'.reg && h'.reg[i].kind == KToplevel && HasSurface(h', h'.reg[i].data)
      ensures HasSurface(h, h'.reg[i].data) && ToplevelRoleOk(h', h'.reg[i].data)
    {
      assert ToplevelRoleOk(h, h.reg[i].data);
    }
  }
}
