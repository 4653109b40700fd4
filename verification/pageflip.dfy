/** `output/output.c`: a completed page flip walks the output's callback list; every protocol listener
    answers its clients and takes itself off the list. */
module PageFlips {
  import opened ListSpec
  import opened Memory
  import opened Invariant
  import opened Erasure
  import opened ClientState
  import opened QuietSteps
  import opened Commits
  import BufferObjects
  import CallbackWalk

  // ---------------------------------------------------------------- what is sent

  function DoneEvents(ids: seq<Id>): seq<Event> {
    if ids == [] then [] else [Done(ids[0])] + DeletedId(ids[0]) + DoneEvents(ids[1..])
  }

  function PresentedEvents(ids: seq<Id>): seq<Event> {
    if ids == [] then [] else [PresentedTo(ids[0])] + DeletedId(ids[0]) + PresentedEvents(ids[1..])
  }

  /** What one listener sends when a flip completes. */
  function EventsOf(h: Heap, a: Ptr): seq<Event> {
    if a !in h.cbs then [] else
    var p := h.cbs[a].userdata;
    match h.cbs[a].listener
    case Redraw => []
    case FramesDone => DoneEvents(Frames(h, p))
    case Presented => PresentedEvents(Feedbacks(h, p))
    case BufferReleased =>
      if p in h.mem && h.mem[p].body.Buffer? && h.mem[p].body.obj != 0 then [Release(h.mem[p].body.obj)] else []
  }

  function FlipEvents(h: Heap, nodes: seq<Ptr>): seq<Event> {
    if nodes == [] then [] else FlipEvents(h, nodes[..|nodes| - 1]) + EventsOf(h, nodes[|nodes| - 1])
  }

  /** How often e is sent. */
  function Sends(events: seq<Event>, e: Event): nat {
    if events == [] then 0 else Sends(events[..|events| - 1], e) + Is(events[|events| - 1] == e)
  }

  /** How many times id is told done. */
  function Dones(events: seq<Event>, id: Id): nat { Sends(events, Done(id)) }

  /** Is id a frame callback that has not been answered? */
  function Awaited(reg: map<Id, Object>, id: Id): nat { Is(id in reg && reg[id] == Object(KCallback, NULL)) }

  /** Every frame callback that left the registry was told done exactly once, and no other was. */
  ghost predicate Settled(reg: map<Id, Object>, reg': map<Id, Object>, events: seq<Event>) {
    forall id :: Awaited(reg', id) == Awaited(reg, id) - Dones(events, id)
  }

  lemma {:induction false} SendsAppend(a: seq<Event>, b: seq<Event>, e: Event)
    ensures Sends(a + b, e) == Sends(a, e) + Sends(b, e)
  {
    if b == [] {
      assert a + b == a;
    } else {
      assert (a + b)[..|a + b| - 1] == a + b[..|b| - 1];
      SendsAppend(a, b[..|b| - 1], e);
    }
  }

  lemma SendsOne(x: Event, e: Event)
    ensures Sends([x], e) == Is(x == e)
  {
    assert [x][..0] == [];
  }

  lemma DonesAppend(a: seq<Event>, b: seq<Event>, id: Id)
    ensures Dones(a + b, id) == Dones(a, id) + Dones(b, id)
  {
    SendsAppend(a, b, Done(id));
  }

  lemma SettledTwice(r: map<Id, Object>, r1: map<Id, Object>, r2: map<Id, Object>, a: seq<Event>, b: seq<Event>)
    requires Settled(r, r1, a) && Settled(r1, r2, b)
    ensures Settled(r, r2, a + b)
  {
    forall id ensures Awaited(r2, id) == Awaited(r, id) - Dones(a + b, id) { DonesAppend(a, b, id); }
  }

  lemma {:induction false} DonesOfFrames(ids: seq<Id>, id: Id)
    requires NoDuplicates(ids)
    ensures Dones(DoneEvents(ids), id) == Is(id in ids)
  {
    if ids != [] {
      DonesOfFrames(ids[1..], id);
      DonesAppend([Done(ids[0])] + DeletedId(ids[0]), DoneEvents(ids[1..]), id);
      DonesAppend([Done(ids[0])], DeletedId(ids[0]), id);
      assert [Done(ids[0])][..0] == [] && [DeleteId(ids[0])][..0] == [];
      assert ids[0] !in ids[1..];
      assert ids == [ids[0]] + ids[1..];
    }
  }

  lemma {:induction false} DonesOfPresented(ids: seq<Id>, id: Id)
    ensures Dones(PresentedEvents(ids), id) == 0
  {
    if ids != [] {
      DonesOfPresented(ids[1..], id);
      DonesAppend([PresentedTo(ids[0])] + DeletedId(ids[0]), PresentedEvents(ids[1..]), id);
      DonesAppend([PresentedTo(ids[0])], DeletedId(ids[0]), id);
      assert [PresentedTo(ids[0])][..0] == [] && [DeleteId(ids[0])][..0] == [];
    }
  }

  lemma SettledFrames(h: Heap, a: Ptr)
    requires CoreInv(h) && a in h.cbs && h.cbs[a].listener == FramesDone
    ensures Settled(h.reg, Removing(h.reg, Frames(h, h.cbs[a].userdata)), EventsOf(h, a))
  {
    var ids := Frames(h, h.cbs[a].userdata);
    FramesArmed(h, a);
    forall id ensures Awaited(Removing(h.reg, ids), id) == Awaited(h.reg, id) - Dones(DoneEvents(ids), id) {
      DonesOfFrames(ids, id);
    }
  }

  lemma SettledFeedbacks(h: Heap, a: Ptr)
    requires CoreInv(h) && a in h.cbs && h.cbs[a].listener == Presented
    ensures Settled(h.reg, Removing(h.reg, Feedbacks(h, h.cbs[a].userdata)), EventsOf(h, a))
  {
    var ids := Feedbacks(h, h.cbs[a].userdata);
    FramesArmed(h, a);
    forall id ensures Awaited(Removing(h.reg, ids), id) == Awaited(h.reg, id) - Dones(PresentedEvents(ids), id) {
      DonesOfPresented(ids, id);
      if id in ids { assert RegisteredAs(h, id, KFeedback); }
    }
  }

  lemma SettledOther(reg: map<Id, Object>, events: seq<Event>)
    requires |events| <= 1 && forall e :: e in events ==> !e.Done?
    ensures Settled(reg, reg, events)
  {
    forall id ensures Dones(events, id) == 0 {
      if events != [] {
        assert events == [events[0]] && events[0] in events;
        SendsOne(events[0], Done(id));
      }
    }
  }

  // ---------------------------------------------------------------- what else the client is told

  /** Is id a feedback object that has not been presented? */
  function Expected(reg: map<Id, Object>, id: Id): nat { Is(id in reg && reg[id] == Object(KFeedback, NULL)) }

  /** Every feedback object that left the registry was told so exactly once, and no other was; every id of
      the client that left it was named free exactly once, and no other was; what owns data stays. */
  ghost predicate Tallied(reg: map<Id, Object>, reg': map<Id, Object>, events: seq<Event>) {
    && (forall id: Id ::
      && Sends(events, PresentedTo(id)) == Expected(reg, id) - Expected(reg', id)
      && Sends(events, DeleteId(id)) == (if id < SERVER_BASE then Is(id in reg) - Is(id in reg') else 0)
      && Sends(events, Discarded(id)) == 0)
    && (forall id :: id in reg' ==> id in reg && reg'[id] == reg[id])
    && (forall id :: id in reg && reg[id].data != NULL ==> id in reg')
  }

  lemma TalliedTwice(r: map<Id, Object>, r1: map<Id, Object>, r2: map<Id, Object>, a: seq<Event>, b: seq<Event>)
    requires Tallied(r, r1, a) && Tallied(r1, r2, b)
    ensures Tallied(r, r2, a + b)
  {
    hide Sends;
    forall id: Id
      ensures Sends(a + b, PresentedTo(id)) == Expected(r, id) - Expected(r2, id)
      ensures Sends(a + b, DeleteId(id)) == (if id < SERVER_BASE then Is(id in r) - Is(id in r2) else 0)
      ensures Sends(a + b, Discarded(id)) == 0
    {
      SendsAppend(a, b, PresentedTo(id));
      SendsAppend(a, b, DeleteId(id));
      SendsAppend(a, b, Discarded(id));
    }
  }

  lemma TalliedOther(reg: map<Id, Object>, events: seq<Event>)
    requires |events| <= 1 && forall e :: e in events ==> e.Release?
    ensures Tallied(reg, reg, events)
  {
    if events != [] {
      assert events == [events[0]] && events[0] in events;
      forall e ensures Sends(events, e) == Is(events[0] == e) { SendsOne(events[0], e); }
    }
  }

  /** What one answer and the end of its object count for. */
  lemma SendsAnswer(x: Event, id: Id, e: Event)
    ensures Sends([x] + DeletedId(id), e) == Is(x == e) + Is(id < SERVER_BASE && e == DeleteId(id))
  {
    SendsAppend([x], DeletedId(id), e);
    SendsOne(x, e);
    SendsOne(DeleteId(id), e);
  }

  lemma {:induction false} SendsOfFrames(ids: seq<Id>, e: Event)
    requires NoDuplicates(ids)
    ensures Sends(DoneEvents(ids), e) ==
      match e
      case Done(id) => Is(id in ids)
      case DeleteId(id) => Is(id in ids && id < SERVER_BASE)
      case _ => 0
  {
    if ids != [] {
      SendsOfFrames(ids[1..], e);
      SendsAppend([Done(ids[0])] + DeletedId(ids[0]), DoneEvents(ids[1..]), e);
      SendsAnswer(Done(ids[0]), ids[0], e);
      assert ids == [ids[0]] + ids[1..];
    }
  }

  lemma {:induction false} SendsOfPresented(ids: seq<Id>, e: Event)
    requires NoDuplicates(ids)
    ensures Sends(PresentedEvents(ids), e) ==
      match e
      case PresentedTo(id) => Is(id in ids)
      case DeleteId(id) => Is(id in ids && id < SERVER_BASE)
      case _ => 0
  {
    if ids != [] {
      SendsOfPresented(ids[1..], e);
      SendsAppend([PresentedTo(ids[0])] + DeletedId(ids[0]), PresentedEvents(ids[1..]), e);
      SendsAnswer(PresentedTo(ids[0]), ids[0], e);
      assert ids == [ids[0]] + ids[1..];
    }
  }

  /** Answering some registered callbacks of one kind and deleting them. */
  lemma TalliedRemoving(reg: map<Id, Object>, ids: seq<Id>, k: Kind, events: seq<Event>)
    requires forall id :: id in ids ==> id in reg && reg[id] == Object(k, NULL)
    requires forall id: Id :: Sends(events, PresentedTo(id)) == Is(k == KFeedback && id in ids)
    requires forall id: Id :: Sends(events, DeleteId(id)) == Is(id in ids && id < SERVER_BASE)
    requires forall id: Id :: Sends(events, Discarded(id)) == 0
    ensures Tallied(reg, Removing(reg, ids), events)
  {
    hide Sends;
  }

  lemma TalliedFrames(h: Heap, a: Ptr)
    requires CoreInv(h) && a in h.cbs && h.cbs[a].listener == FramesDone
    ensures Tallied(h.reg, Removing(h.reg, Frames(h, h.cbs[a].userdata)), EventsOf(h, a))
  {
    var ids := Frames(h, h.cbs[a].userdata);
    FramesArmed(h, a);
    assert forall id :: id in ids ==> RegisteredAs(h, id, KCallback);
    hide CoreInv, Sends, Tallied, Frames;
    forall e: Event { SendsOfFrames(ids, e); }
    TalliedRemoving(h.reg, ids, KCallback, DoneEvents(ids));
  }

  lemma TalliedFeedbacks(h: Heap, a: Ptr)
    requires CoreInv(h) && a in h.cbs && h.cbs[a].listener == Presented
    ensures Tallied(h.reg, Removing(h.reg, Feedbacks(h, h.cbs[a].userdata)), EventsOf(h, a))
  {
    var ids := Feedbacks(h, h.cbs[a].userdata);
    FramesArmed(h, a);
    assert forall id :: id in ids ==> RegisteredAs(h, id, KFeedback);
    hide CoreInv, Sends, Tallied, Feedbacks;
    forall e: Event { SendsOfPresented(ids, e); }
    TalliedRemoving(h.reg, ids, KFeedback, PresentedEvents(ids));
  }

  /** Only what waits for the output has changed, and nothing but buffers has been freed. */
  predicate StructureKept(m: map<Ptr, Block>, m': map<Ptr, Block>) {
    && (forall q :: q in m' ==> q in m && SameStructure(m[q].body, m'[q].body))
    && (forall q :: q in m && q !in m' ==> m[q].body.Buffer? || IsLeaf(m[q].body))
  }

  lemma StructureKeptTwice(m: map<Ptr, Block>, m1: map<Ptr, Block>, m2: map<Ptr, Block>)
    requires StructureKept(m, m1) && StructureKept(m1, m2)
    ensures StructureKept(m, m2)
  {
  }

  lemma StructureKeptSelf(m: map<Ptr, Block>)
    ensures StructureKept(m, m)
  {
  }

  /** Every node still listed has the same answer ready. */
  ghost predicate Undisturbed(h: Heap, h': Heap) {
    forall x :: x in h'.cbs ==> x in h.cbs && h'.cbs[x] == h.cbs[x] && EventsOf(h', x) == EventsOf(h, x)
  }

  lemma {:induction false} DoneAppend(ids: seq<Id>, id: Id)
    ensures DoneEvents(ids + [id]) == DoneEvents(ids) + ([Done(id)] + DeletedId(id))
  {
    if ids == [] {
      assert DoneEvents([id]) == [Done(id)] + DeletedId(id) + DoneEvents([]);
    } else {
      assert (ids + [id])[1..] == ids[1..] + [id];
      DoneAppend(ids[1..], id);
    }
  }

  lemma {:induction false} PresentedAppend(ids: seq<Id>, id: Id)
    ensures PresentedEvents(ids + [id]) == PresentedEvents(ids) + ([PresentedTo(id)] + DeletedId(id))
  {
    if ids == [] {
      assert PresentedEvents([id]) == [PresentedTo(id)] + DeletedId(id) + PresentedEvents([]);
    } else {
      assert (ids + [id])[1..] == ids[1..] + [id];
      PresentedAppend(ids[1..], id);
    }
  }

  // ---------------------------------------------------------------- wl_surface_done_frames

  function Removing(reg: map<Id, Object>, ids: seq<Id>): map<Id, Object> {
    reg - (set i | i in ids)
  }

  /** The loop over surface->frames. */
  method AnswerFrames(c: Client, ids: seq<Id>)
    requires forall k :: 0 <= k < |ids| ==> ids[k] in c.reg && c.reg[ids[k]].data == NULL
    requires forall j, k :: 0 <= j < k < |ids| ==> ids[j] != ids[k]
    modifies c`mem, c`reg, c`sent
    ensures c.mem == old(c.mem) && c.reg == Removing(old(c.reg), ids) && c.sent == old(c.sent) + DoneEvents(ids)
  {
    hide Extra, In, Target, Weakens, Drop;
    var i := 0;
    while i < |ids|
      invariant 0 <= i <= |ids|
      invariant c.mem == old(c.mem) && c.reg == Removing(old(c.reg), ids[..i])
      invariant c.sent == old(c.sent) + DoneEvents(ids[..i])
    {
      c.sent := c.sent + [Done(ids[i])];
      var _ := c.ObjectDel(ids[i]);
      DoneAppend(ids[..i], ids[i]);
      assert ids[..i + 1] == ids[..i] + [ids[i]];
      i := i + 1;
    }
    assert ids[..i] == ids;
  }

  method OnFramesDone(c: Client, o: OutputId, a: Ptr)
    requires Ready(c) && a in c.cbs && c.cbs[a].listener == FramesDone && c.cbs[a].output == o
    modifies c`mem, c`reg, c`cbs, c`lists, c`sent
    ensures Ready(c) && Undisturbed(old(c.H()), c.H())
    ensures c.cbs == old(c.cbs) - {a} && c.lists == old(c.lists)[o := Without(old(c.List(o)), a)]
    ensures c.sent == old(c.sent) + EventsOf(old(c.H()), a)
    ensures var s := old(c.cbs)[a].userdata;
      && c.reg == Removing(old(c.reg), Frames(old(c.H()), s))
      && s in old(c.mem) && old(c.mem)[s].body.Surface?
      && c.mem == old(c.mem)[s := Block(old(c.mem)[s].refs, old(c.mem)[s].body.(frames := [], frameCb := NULL))]
  {
    hide CoreInv, Extra, In, Target, ListsOk, Undisturbed;
    ghost var h := c.H();
    var surface := c.cbs[a].userdata;
    FramesArmed(h, a);
    ListIsDistinct(c.lists, c.cbs, o);
    AnswerFrames(c, c.mem[surface].body.frames);
    RemoveKeepsLists(c.lists, c.cbs, a);
    c.CallbackRemove(o, a);
    c.SetFrames(surface, [], c.mem[surface].body.feedbacks);
    c.SetSurfaceCallbacks(surface, NULL, c.mem[surface].body.feedbackCb);
    AnsweredInv(h, c.H(), surface, a, FramesDone);
  }

  lemma ListIsDistinct(lists: map<OutputId, seq<Ptr>>, cbs: map<Ptr, Callback>, o: OutputId)
    requires ListsOk(lists, cbs)
    ensures NoDuplicates(ListOf(lists, o))
  {
  }

  lemma FramesArmed(h: Heap, a: Ptr)
    requires CoreInv(h) && a in h.cbs && (h.cbs[a].listener == FramesDone || h.cbs[a].listener == Presented)
    ensures var s := h.cbs[a].userdata;
      && s in h.mem && h.mem[s].body.Surface?
      && (forall k :: 0 <= k < |h.mem[s].body.frames| ==> RegisteredAs(h, h.mem[s].body.frames[k], KCallback))
      && (forall k :: 0 <= k < |h.mem[s].body.feedbacks| ==> RegisteredAs(h, h.mem[s].body.feedbacks[k], KFeedback))
      && NoDuplicates(h.mem[s].body.frames) && NoDuplicates(h.mem[s].body.feedbacks)
      && (if h.cbs[a].listener == FramesDone then h.mem[s].body.frameCb == a else h.mem[s].body.feedbackCb == a)
  {
    var s := h.cbs[a].userdata;
    assert CallbackOk(h, a, h.cbs[a]);
    assert Frames(h, s) == h.mem[s].body.frames;
    assert Feedbacks(h, s) == h.mem[s].body.feedbacks;
  }

  // ---------------------------------------------------------------- wp_presentation_presented

  method AnswerFeedbacks(c: Client, ids: seq<Id>)
    requires forall k :: 0 <= k < |ids| ==> ids[k] in c.reg && c.reg[ids[k]].data == NULL
    requires forall j, k :: 0 <= j < k < |ids| ==> ids[j] != ids[k]
    modifies c`mem, c`reg, c`sent
    ensures c.mem == old(c.mem) && c.reg == Removing(old(c.reg), ids) && c.sent == old(c.sent) + PresentedEvents(ids)
  {
    hide Extra, In, Target, Weakens, Drop;
    var i := 0;
    while i < |ids|
      invariant 0 <= i <= |ids|
      invariant c.mem == old(c.mem) && c.reg == Removing(old(c.reg), ids[..i])
      invariant c.sent == old(c.sent) + PresentedEvents(ids[..i])
    {
      c.sent := c.sent + [PresentedTo(ids[i])];
      var _ := c.ObjectDel(ids[i]);
      PresentedAppend(ids[..i], ids[i]);
      assert ids[..i + 1] == ids[..i] + [ids[i]];
      i := i + 1;
    }
    assert ids[..i] == ids;
  }

  method OnPresented(c: Client, o: OutputId, a: Ptr)
    requires Ready(c) && a in c.cbs && c.cbs[a].listener == Presented && c.cbs[a].output == o
    modifies c`mem, c`reg, c`cbs, c`lists, c`sent
    ensures Ready(c) && Undisturbed(old(c.H()), c.H())
    ensures c.cbs == old(c.cbs) - {a} && c.lists == old(c.lists)[o := Without(old(c.List(o)), a)]
    ensures c.sent == old(c.sent) + EventsOf(old(c.H()), a)
    ensures var s := old(c.cbs)[a].userdata;
      && c.reg == Removing(old(c.reg), Feedbacks(old(c.H()), s))
      && s in old(c.mem) && old(c.mem)[s].body.Surface?
      && c.mem == old(c.mem)[s := Block(old(c.mem)[s].refs, old(c.mem)[s].body.(feedbacks := [], feedbackCb := NULL))]
  {
    hide CoreInv, Extra, In, Target, ListsOk, Undisturbed;
    ghost var h := c.H();
    var surface := c.cbs[a].userdata;
    FramesArmed(h, a);
    ListIsDistinct(c.lists, c.cbs, o);
    AnswerFeedbacks(c, c.mem[surface].body.feedbacks);
    RemoveKeepsLists(c.lists, c.cbs, a);
    c.CallbackRemove(o, a);
    c.SetFrames(surface, c.mem[surface].body.frames, []);
    c.SetSurfaceCallbacks(surface, c.mem[surface].body.frameCb, NULL);
    AnsweredInv(h, c.H(), surface, a, Presented);
  }

  // ---------------------------------------------------------------- why answering keeps the invariant

  ghost predicate Answered(h: Heap, h': Heap, s: Ptr, a: Ptr, l: Listener) {
    && s in h.mem && h.mem[s].body.Surface? && a in h.cbs && h.cbs[a].userdata == s && h.cbs[a].listener == l
    && h'.cbs == h.cbs - {a} && h'.scene == h.scene
    && ((l == FramesDone && h.mem[s].body.frameCb == a && h'.reg == Removing(h.reg, h.mem[s].body.frames)
         && h'.mem == h.mem[s := Block(h.mem[s].refs, h.mem[s].body.(frames := [], frameCb := NULL))])
       || (l == Presented && h.mem[s].body.feedbackCb == a && h'.reg == Removing(h.reg, h.mem[s].body.feedbacks)
         && h'.mem == h.mem[s := Block(h.mem[s].refs, h.mem[s].body.(feedbacks := [], feedbackCb := NULL))]))
  }

  lemma AnsweredInv(h: Heap, h': Heap, s: Ptr, a: Ptr, l: Listener)
    requires Inv(h) && Answered(h, h', s, a, l)
    ensures Inv(h') && Undisturbed(h, h')
  {
    hide Typed, Mutual, Registered, Named, Roles, Waiting, Callbacks, Target, Extra, In, Answered, Undisturbed, Live;
    AnsweredTargets(h, h', s, a, l);
    forall q | q != NULL ensures Extra(h', q) == 0 { SameCounts(h, h', q); }
    AnsweredQuiet(h, h', s, a, l);
    QuietKeepsStructure(h, h');
    AnsweredCallbacks(h, h', s, a, l);
    AnsweredWaiting(h, h', s, a, l);
    AnsweredBodies(h, h', s, a, l);
  }

  lemma SameCounts(h: Heap, h': Heap, q: Ptr)
    requires q != NULL && Refs(h', q) == Refs(h, q) && forall u :: Target(h', u) == Target(h, u)
    ensures Extra(h', q) == Extra(h, q)
  {
    CountChange(h, h', q);
  }

  lemma AnsweredTargets(h: Heap, h': Heap, s: Ptr, a: Ptr, l: Listener)
    requires CoreInv(h) && Answered(h, h', s, a, l)
    ensures forall u :: Target(h', u) == Target(h, u)
    ensures forall q :: Refs(h', q) == Refs(h, q)
  {
    hide Typed, Mutual, Registered, Roles, Waiting, Callbacks, CoreInv;
    FramesArmed(h, a);
    forall u ensures Target(h', u) == Target(h, u) {
      match u case Reg(i) => case At(_, _) => case Child(_, _) => case Armed(_) => case Quad(_, _) =>
    }
  }

  lemma AnsweredQuiet(h: Heap, h': Heap, s: Ptr, a: Ptr, l: Listener)
    requires CoreInv(h) && Answered(h, h', s, a, l) && forall u :: Target(h', u) == Target(h, u)
    ensures Quiet(h, h')
  {
    hide Mutual, Registered, Roles, Waiting, Callbacks, Target;
    FramesArmed(h, a);
    forall u: Slot | u.Armed? && Target(h', u) in h.mem ensures h.mem[Target(h', u)].body.Buffer? {
      assert Fits(h, u, h.mem[Target(h, u)].body);
    }
  }

  lemma AnsweredBodies(h: Heap, h': Heap, s: Ptr, a: Ptr, l: Listener)
    requires CoreInv(h) && Answered(h, h', s, a, l)
    ensures WellFormedBodies(h')
  {
  }

  lemma AnsweredCallbacks(h: Heap, h': Heap, s: Ptr, a: Ptr, l: Listener)
    requires Callbacks(h) && Answered(h, h', s, a, l)
    ensures Callbacks(h') && Undisturbed(h, h')
  {
    hide Target;
    forall x | x in h'.cbs
      ensures CallbackOk(h', x, h'.cbs[x]) && EventsOf(h', x) == EventsOf(h, x)
    {
      assert CallbackOk(h, x, h.cbs[x]);
    }
    forall q | q in h'.mem ensures ArmedOk(h', q, h'.mem[q].body) { assert ArmedOk(h, q, h.mem[q].body); }
  }

  lemma AnsweredWaiting(h: Heap, h': Heap, s: Ptr, a: Ptr, l: Listener)
    requires CoreInv(h) && Answered(h, h', s, a, l)
    ensures Waiting(h')
  {
    hide Target, Typed, Mutual, Registered, Named, Roles, Callbacks;
    forall q ensures Frames(h', q) == if q == s && l == FramesDone then [] else Frames(h, q) { }
    forall q ensures Feedbacks(h', q) == if q == s && l == Presented then [] else Feedbacks(h, q) { }
    forall p, i | 0 <= i < |Frames(h', p)| ensures RegisteredAs(h', Frames(h', p)[i], KCallback) {
      StillWaiting(h, p, s, i);
    }
    forall p, i | 0 <= i < |Feedbacks(h', p)| ensures RegisteredAs(h', Feedbacks(h', p)[i], KFeedback) {
      StillWaitingFeedback(h, p, s, i);
    }
  }

  lemma StillWaiting(h: Heap, p: Ptr, s: Ptr, i: int)
    requires Waiting(h) && 0 <= i < |Frames(h, p)|
    ensures p != s ==> Frames(h, p)[i] !in Frames(h, s)
    ensures Frames(h, p)[i] !in Feedbacks(h, s)
    ensures RegisteredAs(h, Frames(h, p)[i], KCallback)
  {
  }

  lemma StillWaitingFeedback(h: Heap, p: Ptr, s: Ptr, i: int)
    requires Waiting(h) && 0 <= i < |Feedbacks(h, p)|
    ensures p != s ==> Feedbacks(h, p)[i] !in Feedbacks(h, s)
    ensures Feedbacks(h, p)[i] !in Frames(h, s)
    ensures RegisteredAs(h, Feedbacks(h, p)[i], KFeedback)
  {
  }

  // ---------------------------------------------------------------- wl_buffer_released

  method OnBufferReleased(c: Client, o: OutputId, a: Ptr)
    requires Ready(c) && a in c.cbs && c.cbs[a].listener == BufferReleased && c.cbs[a].output == o
    modifies c`mem, c`cbs, c`lists, c`sent
    ensures Ready(c) && Undisturbed(old(c.H()), c.H())
    ensures c.cbs == old(c.cbs) - {a} && c.lists == old(c.lists)[o := Without(old(c.List(o)), a)]
    ensures c.sent == old(c.sent) + EventsOf(old(c.H()), a)
    ensures var b := old(c.cbs)[a].userdata;
      && (forall q :: q in c.mem && q != b ==> q in old(c.mem) && c.mem[q].body == old(c.mem)[q].body)
      && (forall q :: q in old(c.mem) && q !in c.mem ==> q == b || IsLeaf(old(c.mem)[q].body))
      && b in old(c.mem) && old(c.mem)[b].body.Buffer?
      && (b in c.mem ==> c.mem[b].body == old(c.mem)[b].body.(cb := NULL))
  {
    hide CoreInv, Extra, In, Target, ListsOk, Undisturbed, Weakens, Drop, OutDegree, Holding, RolesKept, CallbackOk;
    hide Dones, Shrinks;
    ghost var h := c.H();
    var buf := c.cbs[a].userdata;
    ReleaseArmed(h, a);
    BufferObjects.BufferParts(h, buf);
    ListIsDistinct(c.lists, c.cbs, o);
    if c.mem[buf].body.obj != 0 {
      c.sent := c.sent + [Release(c.mem[buf].body.obj)];
    }
    RemoveKeepsLists(c.lists, c.cbs, a);
    c.CallbackRemove(o, a);
    c.SetBufferCallback(buf, NULL);
    ghost var h1 := c.H();
    DisarmedInv(h, h1, buf, a);
    c.Unref(buf);
    BufferObjects.DropKeepsInv(h1, c.H(), buf);
    ReleasedBodies(h.mem, h1.mem, c.mem, buf);
    ReleaseUndisturbed(h, c.H(), buf, a);
  }

  lemma ReleasedBodies(m: map<Ptr, Block>, m1: map<Ptr, Block>, m2: map<Ptr, Block>, b: Ptr)
    requires b in m && m[b].body.Buffer? && m1 == m[b := Block(m[b].refs, m[b].body.(cb := NULL))] && Shrinks(m1, m2, b)
    ensures forall q :: q in m2 && q != b ==> q in m && m2[q].body == m[q].body
    ensures forall q :: q in m && q !in m2 ==> q == b || IsLeaf(m[q].body)
    ensures b in m2 ==> m2[b].body == m[b].body.(cb := NULL)
  {
  }

  lemma ReleaseArmed(h: Heap, a: Ptr)
    requires CoreInv(h) && a in h.cbs && h.cbs[a].listener == BufferReleased
    ensures var b := h.cbs[a].userdata;
      b in h.mem && h.mem[b].body.Buffer? && h.mem[b].body.cb == a && b != NULL && Target(h, Armed(a)) == b && Live(h)
  {
    assert CallbackOk(h, a, h.cbs[a]);
  }

  lemma DisarmedInv(h: Heap, h': Heap, b: Ptr, a: Ptr)
    requires CoreInv(h) && a in h.cbs && h.cbs[a].listener == BufferReleased && h.cbs[a].userdata == b
    requires b in h.mem && h.mem[b].body.Buffer? && h.mem[b].body.cb == a
    requires h'.reg == h.reg && h'.cbs == h.cbs - {a}
    requires h'.mem == h.mem[b := Block(h.mem[b].refs, h.mem[b].body.(cb := NULL))]
    requires forall u :: Target(h', u) == if u == Armed(a) then NULL else Target(h, u)
    ensures CoreInv(h')
  {
    hide Typed, Mutual, Registered, Named, Roles, Waiting, Callbacks, Target, Live;
    DisarmedQuiet(h, h', b, a);
    QuietKeepsStructure(h, h');
    DisarmedCallbacks(h, h', b, a);
    ArmedWaiting(h, h', b);
  }

  lemma DisarmedQuiet(h: Heap, h': Heap, b: Ptr, a: Ptr)
    requires CoreInv(h) && b in h.mem && h.mem[b].body.Buffer? && h'.reg == h.reg && h'.mem.Keys == h.mem.Keys
    requires h'.mem == h.mem[b := Block(h.mem[b].refs, h.mem[b].body.(cb := NULL))]
    requires forall u :: Target(h', u) == if u == Armed(a) then NULL else Target(h, u)
    ensures Quiet(h, h')
  {
    hide Mutual, Registered, Roles, Waiting, Callbacks, Target;
    forall u: Slot | u.Armed? && Target(h', u) in h.mem ensures h.mem[Target(h', u)].body.Buffer? {
      if u != Armed(a) { assert Fits(h, u, h.mem[Target(h, u)].body); }
    }
  }

  lemma DisarmedCallbacks(h: Heap, h': Heap, b: Ptr, a: Ptr)
    requires Callbacks(h) && a in h.cbs && h.cbs[a].listener == BufferReleased && h.cbs[a].userdata == b
    requires b in h.mem && h.mem[b].body.Buffer? && h.mem[b].body.cb == a
    requires h'.cbs == h.cbs - {a} && h'.mem == h.mem[b := Block(h.mem[b].refs, h.mem[b].body.(cb := NULL))]
    ensures Callbacks(h')
  {
    forall x | x in h'.cbs ensures CallbackOk(h', x, h'.cbs[x]) { assert CallbackOk(h, x, h.cbs[x]); }
    forall q | q in h'.mem ensures ArmedOk(h', q, h'.mem[q].body) { assert ArmedOk(h, q, h.mem[q].body); }
  }

  lemma ReleaseUndisturbed(h: Heap, h': Heap, b: Ptr, a: Ptr)
    requires CoreInv(h) && CoreInv(h') && a in h.cbs && h.cbs[a].listener == BufferReleased && h.cbs[a].userdata == b
    requires b in h.mem && h.mem[b].body.Buffer? && h.mem[b].body.cb == a && h'.cbs == h.cbs - {a}
    requires forall q :: q in h'.mem && q != b ==> q in h.mem && h'.mem[q].body == h.mem[q].body
    requires forall q :: q in h.mem && q !in h'.mem ==> q == b || IsLeaf(h.mem[q].body)
    ensures Undisturbed(h, h')
  {
    forall x | x in h'.cbs ensures EventsOf(h', x) == EventsOf(h, x) {
      assert CallbackOk(h, x, h.cbs[x]);
      assert CallbackOk(h', x, h'.cbs[x]);
    }
  }

  // ---------------------------------------------------------------- page_flip_handler

  /** The nodes of a list that a page flip leaves in place: the scene's, which only listens for redraws. */
  function Staying(cbs: map<Ptr, Callback>, nodes: seq<Ptr>): seq<Ptr> {
    if nodes == [] then []
    else Staying(cbs, nodes[..|nodes| - 1]) + (if Stays(cbs, nodes[|nodes| - 1]) then [nodes[|nodes| - 1]] else [])
  }

  predicate Stays(cbs: map<Ptr, Callback>, a: Ptr) { a in cbs && cbs[a].listener == Redraw }

  lemma {:induction false} StayingSubset(cbs: map<Ptr, Callback>, nodes: seq<Ptr>)
    ensures forall x :: x in Staying(cbs, nodes) <==> x in nodes && Stays(cbs, x)
  {
    if nodes != [] {
      StayingSubset(cbs, nodes[..|nodes| - 1]);
      assert nodes == nodes[..|nodes| - 1] + [nodes[|nodes| - 1]];
    }
  }

  /** The listeners that take themselves off the list. */
  ghost function Leaving(cbs: map<Ptr, Callback>): set<Ptr> {
    set a | a in cbs && cbs[a].listener != Redraw
  }

  /** So the list after a flip is what the walk over the linked list leaves. */
  lemma {:induction false} StayingIsRemaining(cbs: map<Ptr, Callback>, nodes: seq<Ptr>)
    requires forall x :: x in nodes ==> x in cbs
    ensures Staying(cbs, nodes) == CallbackWalk.Remaining(nodes, Leaving(cbs))
  {
    if nodes != [] {
      assert nodes[|nodes| - 1] in nodes;
      StayingIsRemaining(cbs, nodes[..|nodes| - 1]);
    }
  }

  /** Does node a answer the frames of surface s? */
  predicate Tells(h: Heap, a: Ptr, s: Ptr) { a in h.cbs && h.cbs[a].listener == FramesDone && h.cbs[a].userdata == s }

  /** Only surfaces that one of these nodes speaks for have lost their waiting frames. */
  ghost predicate QueuesTold(h0: Heap, h: Heap, nodes: seq<Ptr>) {
    forall s :: Frames(h, s) == Frames(h0, s) || exists x :: x in nodes && Tells(h0, x, s)
  }

  /** Does node a answer the feedback of surface s? */
  predicate Presents(h: Heap, a: Ptr, s: Ptr) { a in h.cbs && h.cbs[a].listener == Presented && h.cbs[a].userdata == s }

  /** Exactly the surfaces that one of these nodes speaks for have lost their waiting feedback. */
  ghost predicate FeedbacksTold(h0: Heap, h: Heap, nodes: seq<Ptr>) {
    forall s ::
      Feedbacks(h, s) == if exists x :: x in nodes && Presents(h0, x, s) then [] else Feedbacks(h0, s)
  }

  /** One listener of the walk. */
  method NotifyPageflip(c: Client, o: OutputId, a: Ptr)
    requires Ready(c) && a in c.cbs && c.cbs[a].output == o
    modifies c`mem, c`reg, c`cbs, c`lists, c`sent
    ensures Ready(c) && Undisturbed(old(c.H()), c.H())
    ensures c.sent == old(c.sent) + EventsOf(old(c.H()), a)
    ensures old(c.cbs)[a].listener == Redraw ==> c.cbs == old(c.cbs) && c.lists == old(c.lists)
    ensures old(c.cbs)[a].listener != Redraw ==>
      c.cbs == old(c.cbs) - {a} && c.lists == old(c.lists)[o := Without(old(c.List(o)), a)]
    ensures AnswersDone(old(c.H()), c.H(), a)
    ensures forall s :: Frames(c.H(), s) == Frames(old(c.H()), s) || Tells(old(c.H()), a, s)
    ensures c.reg.Keys <= old(c.reg).Keys
    ensures Settled(old(c.reg), c.reg, EventsOf(old(c.H()), a)) && StructureKept(old(c.mem), c.mem)
    ensures Tallied(old(c.reg), c.reg, EventsOf(old(c.H()), a))
    ensures forall s :: Feedbacks(c.H(), s) == if Presents(old(c.H()), a, s) then [] else Feedbacks(old(c.H()), s)
  {
    hide CoreInv, Balanced, Target, ListsOk, Settled, Tallied, Undisturbed, Without;
    match c.cbs[a].listener {
      case Redraw =>
        UndisturbedSelf(c.H());
        SettledOther(c.reg, []);
        TalliedOther(c.reg, []);
      case FramesDone =>
        SettledFrames(c.H(), a);
        TalliedFrames(c.H(), a);
        OnFramesDone(c, o, a);
      case Presented =>
        SettledFeedbacks(c.H(), a);
        TalliedFeedbacks(c.H(), a);
        OnPresented(c, o, a);
      case BufferReleased =>
        SettledOther(c.reg, EventsOf(c.H(), a));
        TalliedOther(c.reg, EventsOf(c.H(), a));
        OnBufferReleased(c, o, a);
    }
  }

  /** The walk has asked the first i nodes of the list it started from. */
  ghost predicate Walked(h0: Heap, h: Heap, list: seq<Ptr>, nodes: seq<Ptr>, i: nat, sent0: seq<Event>,
                         sent: seq<Event>) {
    Visited(h0.cbs, h.cbs, list, nodes, i) && Told(h0, h, nodes[..i], sent0, sent)
  }

  /** The nodes asked have left the list unless they stay, the others are still on it. */
  ghost predicate Visited(cbs0: map<Ptr, Callback>, cbs: map<Ptr, Callback>, list: seq<Ptr>, nodes: seq<Ptr>, i: nat) {
    && i <= |nodes| && NoDuplicates(nodes) && (forall x :: x in nodes ==> x in cbs0)
    && list == Staying(cbs0, nodes[..i]) + nodes[i..]
    && (forall x :: x in cbs <==> x in cbs0 && (x in nodes[..i] ==> Stays(cbs0, x)))
  }

  /** What the nodes asked have told and changed. */
  ghost predicate Told(h0: Heap, h: Heap, asked: seq<Ptr>, sent0: seq<Event>, sent: seq<Event>) {
    && Undisturbed(h0, h)
    && sent == sent0 + FlipEvents(h0, asked)
    && (forall k :: 0 <= k < |asked| ==> AnswersDone(h0, h, asked[k]))
    && Settled(h0.reg, h.reg, FlipEvents(h0, asked)) && StructureKept(h0.mem, h.mem)
    && QueuesTold(h0, h, asked)
    && Tallied(h0.reg, h.reg, FlipEvents(h0, asked)) && FeedbacksTold(h0, h, asked)
  }

  /** If node x told a surface's frames, that surface waits no longer and the callbacks are gone. */
  ghost predicate AnswersDone(h0: Heap, h: Heap, x: Ptr) {
    x in h0.cbs && h0.cbs[x].listener == FramesDone ==>
      var s := h0.cbs[x].userdata;
      Frames(h, s) == [] && forall id :: id in Frames(h0, s) ==> id !in h.reg
  }

  lemma WalkedList(cbs: map<Ptr, Callback>, list: seq<Ptr>, list': seq<Ptr>, nodes: seq<Ptr>, i: nat)
    requires i < |nodes| && NoDuplicates(nodes) && list == Staying(cbs, nodes[..i]) + nodes[i..]
    requires list' == if Stays(cbs, nodes[i]) then list else Without(list, nodes[i])
    ensures list' == Staying(cbs, nodes[..i + 1]) + nodes[i + 1..]
  {
    assert nodes[..i + 1] == nodes[..i] + [nodes[i]];
    assert nodes[i..] == [nodes[i]] + nodes[i + 1..];
    LeavesWalk(cbs, nodes[..i], nodes[i], nodes[i + 1..]);
  }

  lemma LeavesWalk(cbs: map<Ptr, Callback>, asked: seq<Ptr>, a: Ptr, rest: seq<Ptr>)
    requires a !in asked
    ensures Staying(cbs, asked + [a]) + rest ==
      if Stays(cbs, a) then Staying(cbs, asked) + ([a] + rest) else Without(Staying(cbs, asked) + ([a] + rest), a)
  {
    hide Staying, Stays, Without;
    StayingAppend(cbs, asked, a);
    StayingSubset(cbs, asked);
    var s := Staying(cbs, asked);
    assert s + ([a] + rest) == s + [a] + rest;
    if !Stays(cbs, a) { WithoutMiddle(s, a, rest); }
  }

  lemma StayingAppend(cbs: map<Ptr, Callback>, asked: seq<Ptr>, a: Ptr)
    ensures Staying(cbs, asked + [a]) == Staying(cbs, asked) + (if Stays(cbs, a) then [a] else [])
  {
    hide Stays;
    assert (asked + [a])[..|asked|] == asked;
  }

  lemma WalkedNodes(cbs0: map<Ptr, Callback>, cbs: map<Ptr, Callback>, cbs': map<Ptr, Callback>, nodes: seq<Ptr>,
                    i: nat)
    requires i < |nodes| && forall x :: x in nodes ==> x in cbs0
    requires forall x :: x in cbs <==> x in cbs0 && (x in nodes[..i] ==> Stays(cbs0, x))
    requires cbs' == if Stays(cbs0, nodes[i]) then cbs else cbs - {nodes[i]}
    ensures forall x :: x in cbs' <==> x in cbs0 && (x in nodes[..i + 1] ==> Stays(cbs0, x))
  {
    hide Stays;
    assert nodes[..i + 1] == nodes[..i] + [nodes[i]];
    assert nodes[i] in nodes;
  }

  lemma WalkedStep(h0: Heap, h: Heap, h': Heap, list: seq<Ptr>, list': seq<Ptr>, nodes: seq<Ptr>, i: nat,
                   sent0: seq<Event>, sent: seq<Event>, sent': seq<Event>)
    requires Walked(h0, h, list, nodes, i, sent0, sent) && i < |nodes| && Undisturbed(h, h')
    requires sent' == sent + EventsOf(h, nodes[i])
    requires list' == if Stays(h0.cbs, nodes[i]) then list else Without(list, nodes[i])
    requires h'.cbs == if Stays(h0.cbs, nodes[i]) then h.cbs else h.cbs - {nodes[i]}
    requires AnswersDone(h, h', nodes[i])
    requires forall s :: Frames(h', s) == Frames(h, s) || Tells(h, nodes[i], s)
    requires h'.reg.Keys <= h.reg.Keys
    requires Settled(h.reg, h'.reg, EventsOf(h, nodes[i])) && StructureKept(h.mem, h'.mem)
    requires Tallied(h.reg, h'.reg, EventsOf(h, nodes[i]))
    requires forall s :: Feedbacks(h', s) == if Presents(h, nodes[i], s) then [] else Feedbacks(h, s)
    ensures Walked(h0, h', list', nodes, i + 1, sent0, sent')
  {
    hide Told, Stays, EventsOf, Frames, AnswersDone, Settled, StructureKept, Staying, Without, Undisturbed;
    hide Tells, Tallied, Presents, Feedbacks;
    WalkedNodes(h0.cbs, h.cbs, h'.cbs, nodes, i);
    WalkedList(h0.cbs, list, list', nodes, i);
    assert nodes[..i + 1] == nodes[..i] + [nodes[i]];
    assert nodes[i] in h.cbs;
    ToldStep(h0, h, h', nodes[..i], nodes[i], sent0, sent, sent');
  }

  lemma ToldStep(h0: Heap, h: Heap, h': Heap, asked: seq<Ptr>, a: Ptr,
                 sent0: seq<Event>, sent: seq<Event>, sent': seq<Event>)
    requires Told(h0, h, asked, sent0, sent) && a in h.cbs && Undisturbed(h, h')
    requires sent' == sent + EventsOf(h, a)
    requires AnswersDone(h, h', a)
    requires forall s :: Frames(h', s) == Frames(h, s) || Tells(h, a, s)
    requires h'.reg.Keys <= h.reg.Keys
    requires Settled(h.reg, h'.reg, EventsOf(h, a)) && StructureKept(h.mem, h'.mem)
    requires Tallied(h.reg, h'.reg, EventsOf(h, a))
    requires forall s :: Feedbacks(h', s) == if Presents(h, a, s) then [] else Feedbacks(h, s)
    ensures Told(h0, h', asked + [a], sent0, sent')
  {
    hide EventsOf, Frames, AnswersDone, FlipEvents, Settled, StructureKept, Undisturbed, QueuesTold;
    hide Tells, Tallied, FeedbacksTold, Presents, Feedbacks;
    WalkedAnswers(h0, h, h', asked, a);
    FlipAppend(h0, asked, a);
    UndisturbedTwice(h0, h, h', a);
    SettledTwice(h0.reg, h.reg, h'.reg, FlipEvents(h0, asked), EventsOf(h0, a));
    StructureKeptTwice(h0.mem, h.mem, h'.mem);
    QueuesToldNext(h0, h, h', asked, a);
    TalliedTwice(h0.reg, h.reg, h'.reg, FlipEvents(h0, asked), EventsOf(h0, a));
    FeedbacksToldNext(h0, h, h', asked, a);
    assert sent' == sent0 + (FlipEvents(h0, asked) + EventsOf(h0, a));
  }

  lemma QueuesToldNext(h0: Heap, h: Heap, h': Heap, asked: seq<Ptr>, a: Ptr)
    requires Undisturbed(h0, h) && a in h.cbs && QueuesTold(h0, h, asked)
    requires forall s :: Frames(h', s) == Frames(h, s) || Tells(h, a, s)
    ensures QueuesTold(h0, h', asked + [a])
  {
    hide EventsOf, Frames;
    forall s | Frames(h', s) != Frames(h0, s) ensures exists x :: x in asked + [a] && Tells(h0, x, s) {
      if Frames(h', s) != Frames(h, s) {
        assert a in asked + [a] && Tells(h0, a, s);
      } else {
        var x :| x in asked && Tells(h0, x, s);
        assert x in asked + [a];
      }
    }
  }

  lemma FeedbacksToldNext(h0: Heap, h: Heap, h': Heap, asked: seq<Ptr>, a: Ptr)
    requires Undisturbed(h0, h) && a in h.cbs && FeedbacksTold(h0, h, asked)
    requires forall s :: Feedbacks(h', s) == if Presents(h, a, s) then [] else Feedbacks(h, s)
    ensures FeedbacksTold(h0, h', asked + [a])
  {
    hide EventsOf, Feedbacks;
    forall s ensures Presents(h, a, s) == Presents(h0, a, s) { }
    forall s
      ensures (exists x :: x in asked + [a] && Presents(h0, x, s)) <==>
        (exists x :: x in asked && Presents(h0, x, s)) || Presents(h0, a, s)
    {
      if Presents(h0, a, s) { assert a in asked + [a]; }
    }
  }

  lemma UndisturbedSelf(h: Heap)
    ensures Undisturbed(h, h)
  {
    hide EventsOf;
  }

  lemma UndisturbedTwice(h0: Heap, h: Heap, h': Heap, a: Ptr)
    requires Undisturbed(h0, h) && Undisturbed(h, h') && a in h.cbs
    ensures Undisturbed(h0, h') && EventsOf(h, a) == EventsOf(h0, a)
  {
    hide EventsOf;
  }

  lemma FlipAppend(h: Heap, asked: seq<Ptr>, a: Ptr)
    ensures FlipEvents(h, asked + [a]) == FlipEvents(h, asked) + EventsOf(h, a)
  {
    assert (asked + [a])[..|asked|] == asked;
  }

  lemma WalkedAnswers(h0: Heap, h: Heap, h': Heap, asked: seq<Ptr>, a: Ptr)
    requires Undisturbed(h0, h) && a in h.cbs
    requires forall k :: 0 <= k < |asked| ==> AnswersDone(h0, h, asked[k])
    requires AnswersDone(h, h', a) && h'.reg.Keys <= h.reg.Keys
    requires forall s :: Frames(h', s) == Frames(h, s) || Tells(h, a, s)
    ensures forall k :: 0 <= k < |asked| + 1 ==> AnswersDone(h0, h', (asked + [a])[k])
  {
    hide EventsOf, Frames;
    if h.cbs[a].listener == FramesDone { SameFrames(h0, h, a); }
  }

  lemma SameFrames(h0: Heap, h: Heap, a: Ptr)
    requires Undisturbed(h0, h) && a in h.cbs && h.cbs[a].listener == FramesDone
    ensures DoneEvents(Frames(h, h.cbs[a].userdata)) == DoneEvents(Frames(h0, h.cbs[a].userdata))
    ensures Frames(h, h.cbs[a].userdata) == Frames(h0, h.cbs[a].userdata)
  {
    DoneInjective(Frames(h, h.cbs[a].userdata), Frames(h0, h.cbs[a].userdata));
  }

  lemma {:induction false} DoneInjective(s: seq<Id>, t: seq<Id>)
    requires DoneEvents(s) == DoneEvents(t)
    ensures s == t
  {
    if s != [] && t != [] {
      assert DoneEvents(s)[0] == Done(s[0]) && DoneEvents(t)[0] == Done(t[0]);
      var n := 1 + |DeletedId(s[0])|;
      assert DoneEvents(s)[n..] == DoneEvents(s[1..]) && DoneEvents(t)[n..] == DoneEvents(t[1..]);
      DoneInjective(s[1..], t[1..]);
      assert s == [s[0]] + s[1..] && t == [t[0]] + t[1..];
    }
  }

  /** The walk over the list as it was when the flip completed. Every node is asked once, in order;
      afterwards only the scene's nodes are left, and no surface of this output waits any more. */
  method PageFlip(c: Client, o: OutputId)
    requires Ready(c)
    modifies c`mem, c`reg, c`cbs, c`lists, c`sent
    ensures Ready(c)
    ensures c.sent == old(c.sent) + FlipEvents(old(c.H()), old(c.List(o)))
    ensures c.List(o) == Staying(old(c.cbs), old(c.List(o))) && forall p :: p != o ==>
      ListOf(c.lists, p) == ListOf(old(c.lists), p)
    ensures forall x :: x in c.cbs <==>
      x in old(c.cbs) && (old(c.cbs)[x].output == o ==> old(c.cbs)[x].listener == Redraw)
    ensures forall x :: x in c.cbs ==> c.cbs[x] == old(c.cbs)[x]
    ensures forall x :: x in old(c.List(o)) ==> AnswersDone(old(c.H()), c.H(), x)
    ensures Settled(old(c.reg), c.reg, FlipEvents(old(c.H()), old(c.List(o)))) && StructureKept(old(c.mem), c.mem)
    ensures QueuesTold(old(c.H()), c.H(), old(c.List(o)))
    ensures Tallied(old(c.reg), c.reg, FlipEvents(old(c.H()), old(c.List(o))))
    ensures FeedbacksTold(old(c.H()), c.H(), old(c.List(o)))
  {
    hide CoreInv, Balanced, Target, ListsOk, Walked, EventsOf, Frames, FlipEvents, Staying, AnswersDone, Undisturbed;
    hide Settled, StructureKept, QueuesTold, Stays, Ready, Tallied, FeedbacksTold;
    ghost var h := c.H();
    var nodes := c.List(o);
    StartsWalk(c, o);
    var i := 0;
    while i < |nodes|
      invariant 0 <= i <= |nodes|
      invariant Ready(c) && Walked(h, c.H(), c.List(o), nodes, i, old(c.sent), c.sent)
      invariant OtherLists(old(c.lists), c.lists, o)
    {
      NotifyNext(c, o, nodes, i, h, old(c.sent));
      i := i + 1;
    }
    WalkEnds(h, c.H(), c.List(o), nodes, old(c.sent), c.sent);
    LeftByOutput(h.cbs, c.cbs, old(c.lists), o);
  }

  ghost predicate OtherLists(lists: map<OutputId, seq<Ptr>>, lists': map<OutputId, seq<Ptr>>, o: OutputId) {
    forall p :: p != o ==> ListOf(lists', p) == ListOf(lists, p)
  }

  lemma StartsWalk(c: Client, o: OutputId)
    requires Ready(c)
    ensures Walked(c.H(), c.H(), c.List(o), c.List(o), 0, c.sent, c.sent) && ListsOk(c.lists, c.cbs)
  {
    hide CoreInv, Balanced, Target, ListsOk, Walked;
    ListMembers(c.lists, c.cbs, o);
    WalkStarts(c.H(), c.List(o), c.sent);
  }

  /** One turn of the walk; `h` and `sent` are from its start. */
  method NotifyNext(c: Client, o: OutputId, nodes: seq<Ptr>, i: nat, ghost h: Heap, ghost sent: seq<Event>)
    requires Ready(c) && i < |nodes| && Walked(h, c.H(), c.List(o), nodes, i, sent, c.sent)
    modifies c`mem, c`reg, c`cbs, c`lists, c`sent
    ensures Ready(c) && Walked(h, c.H(), c.List(o), nodes, i + 1, sent, c.sent)
    ensures OtherLists(old(c.lists), c.lists, o)
  {
    hide CoreInv, Balanced, Target, ListsOk, Walked, EventsOf, Frames, FlipEvents, Staying, AnswersDone, Undisturbed;
    hide Settled, StructureKept, QueuesTold, Tallied, FeedbacksTold, Feedbacks;
    ghost var h1, list1, sent1 := c.H(), c.List(o), c.sent;
    WalkNext(h, h1, list1, nodes, i, sent, sent1);
    ListMembers(c.lists, c.cbs, o);
    NotifyPageflip(c, o, nodes[i]);
    WalkedStep(h, h1, c.H(), list1, c.List(o), nodes, i, sent, sent1, c.sent);
  }

  lemma LeftByOutput(cbs: map<Ptr, Callback>, cbs': map<Ptr, Callback>, lists: map<OutputId, seq<Ptr>>, o: OutputId)
    requires ListsOk(lists, cbs)
    requires forall x :: x in cbs' <==> x in cbs && (x in ListOf(lists, o) ==> Stays(cbs, x))
    ensures forall x :: x in cbs' <==> x in cbs && (cbs[x].output == o ==> cbs[x].listener == Redraw)
  {
    hide ListsOk;
    ListMembers(lists, cbs, o);
  }

  lemma WalkStarts(h: Heap, nodes: seq<Ptr>, sent: seq<Event>)
    requires NoDuplicates(nodes) && forall x :: x in nodes ==> x in h.cbs
    ensures Walked(h, h, nodes, nodes, 0, sent, sent)
  {
    assert nodes[..0] == [];
    SettledOther(h.reg, []);
    TalliedOther(h.reg, []);
    StructureKeptSelf(h.mem);
  }

  lemma WalkNext(h0: Heap, h: Heap, list: seq<Ptr>, nodes: seq<Ptr>, i: nat, sent0: seq<Event>, sent: seq<Event>)
    requires Walked(h0, h, list, nodes, i, sent0, sent) && i < |nodes|
    ensures nodes[i] in h.cbs && nodes[i] in list && nodes[i] in h0.cbs && h.cbs[nodes[i]] == h0.cbs[nodes[i]]
  {
    assert nodes[i] == nodes[i..][0];
    assert nodes[i] !in nodes[..i];
  }

  lemma WalkEnds(h0: Heap, h: Heap, list: seq<Ptr>, nodes: seq<Ptr>, sent0: seq<Event>, sent: seq<Event>)
    requires Walked(h0, h, list, nodes, |nodes|, sent0, sent)
    ensures list == Staying(h0.cbs, nodes) && sent == sent0 + FlipEvents(h0, nodes)
    ensures forall x :: x in h.cbs <==> x in h0.cbs && (x in nodes ==> Stays(h0.cbs, x))
    ensures forall x :: x in h.cbs ==> h.cbs[x] == h0.cbs[x]
    ensures forall x :: x in nodes ==> AnswersDone(h0, h, x)
    ensures Settled(h0.reg, h.reg, FlipEvents(h0, nodes)) && StructureKept(h0.mem, h.mem) && QueuesTold(h0, h, nodes)
    ensures Tallied(h0.reg, h.reg, FlipEvents(h0, nodes)) && FeedbacksTold(h0, h, nodes)
  {
    assert nodes[..|nodes|] == nodes;
    forall x | x in nodes ensures AnswersDone(h0, h, x) {
      var k :| 0 <= k < |nodes| && nodes[k] == x;
      assert AnswersDone(h0, h, nodes[k]);
    }
  }

  lemma ListMembers(lists: map<OutputId, seq<Ptr>>, cbs: map<Ptr, Callback>, o: OutputId)
    requires ListsOk(lists, cbs)
    ensures forall a :: a in ListOf(lists, o) <==> a in cbs && cbs[a].output == o
    ensures NoDuplicates(ListOf(lists, o))
  {
  }
}
