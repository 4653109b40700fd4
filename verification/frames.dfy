/** `wl_surface.frame` and `wp_presentation.feedback`: requests that wait for the output. */
module FrameRequests {
  import opened Memory
  import opened Invariant
  import opened ClientState
  import opened QuietSteps
  import opened Commits

  /** The callback is registered and last in the queue of its surface. */
  predicate FrameQueued(h: Heap, h': Heap, id: Id, callbackId: Id) {
    && id in h.reg
    && var s := h.reg[id].data;
    && s in h.mem && h.mem[s].body.Surface?
    && h'.reg == h.reg[callbackId := Object(KCallback, NULL)]
    && h'.mem == h.mem[s := Block(h.mem[s].refs, h.mem[s].body.(frames := h.mem[s].body.frames + [callbackId]))]
  }

  /** The feedback is registered and last in the queue of its surface, which listens to its output. */
  predicate FeedbackQueued(h: Heap, h': Heap, id: Id, feedbackId: Id, a: Ptr) {
    && id in h.reg
    && var s := h.reg[id].data;
    && s in h.mem && h.mem[s].body.Surface?
    && var b := h.mem[s].body;
    && var arms := b.feedbackCb == NULL && b.output != 0;
    && h'.reg == h.reg[feedbackId := Object(KFeedback, NULL)]
    && h'.mem == h.mem[s := Block(h.mem[s].refs,
      b.(feedbacks := b.feedbacks + [feedbackId], feedbackCb := if arms then a else b.feedbackCb))]
    && h'.cbs == if arms then h.cbs[a := Callback(Presented, s, b.output)] else h.cbs
  }

  function FeedbackLists(h: Heap, lists: map<OutputId, seq<Ptr>>, id: Id, a: Ptr): map<OutputId, seq<Ptr>> {
    if id in h.reg && h.reg[id].data in h.mem && h.mem[h.reg[id].data].body.Surface? then
      var b := h.mem[h.reg[id].data].body;
      Joined(lists, b.feedbackCb == NULL && b.output != 0, b.output, a)
    else lists
  }

  /** wl_surface_frame */
  method WlSurfaceFrame(c: Client, id: Id, callbackId: Id) returns (status: int)
    requires Ready(c) && id in c.reg && c.reg[id].kind == KSurface && callbackId != 0
    modifies c`mem, c`reg
    ensures Ready(c)
    ensures status == 0 <==> callbackId !in old(c.reg) && |Frames(old(c.H()), old(c.reg)[id].data)| < MAX_FRAMES
    ensures status != 0 ==> c.mem == old(c.mem) && c.reg == old(c.reg)
    ensures status == 0 ==> FrameQueued(old(c.H()), c.H(), id, callbackId)
  {
    hide CoreInv, Extra, In, Target, ListsOk;
    ghost var h := c.H();
    RegistryEntry(h, id);
    if callbackId in c.reg { return -1; }
    var surface := c.reg[id].data;
    if |c.mem[surface].body.frames| >= MAX_FRAMES { return -1; }
    RegNothing(h, callbackId);
    c.SetFrames(surface, c.mem[surface].body.frames + [callbackId], c.mem[surface].body.feedbacks);
    c.ObjectAdd(callbackId, KCallback, NULL);
    WaitInv(h, c.H(), surface, callbackId, KCallback);
    return 0;
  }

  /** wp_presentation_feedback, followed by its listener of output.c, lines 312 to 318. */
  method WpPresentationFeedback(c: Client, id: Id, feedbackId: Id, a: Ptr) returns (status: int)
    requires Ready(c) && (id in c.reg ==> c.reg[id].kind == KSurface) && feedbackId != 0 && a != NULL && a !in c.cbs
    modifies c`mem, c`reg, c`cbs, c`lists
    ensures Ready(c)
    ensures status == 0 <==>
      feedbackId !in old(c.reg) && id in old(c.reg) && |Feedbacks(old(c.H()), old(c.reg)[id].data)| < MAX_FRAMES
    ensures status != 0 ==> c.mem == old(c.mem) && c.reg == old(c.reg) && c.cbs == old(c.cbs) && c.lists == old(c.lists)
    ensures status == 0 ==>
      && FeedbackQueued(old(c.H()), c.H(), id, feedbackId, a)
      && c.lists == FeedbackLists(old(c.H()), old(c.lists), id, a)
  {
    hide CoreInv, Extra, In, Target, ListsOk;
    ghost var h := c.H();
    if feedbackId in c.reg { return -1; }
    if id !in c.reg { return -1; }
    RegistryEntry(h, id);
    var surface := c.reg[id].data;
    if |c.mem[surface].body.feedbacks| >= MAX_FRAMES { return -1; }
    RegNothing(h, feedbackId);
    c.SetFrames(surface, c.mem[surface].body.frames, c.mem[surface].body.feedbacks + [feedbackId]);
    c.ObjectAdd(feedbackId, KFeedback, NULL);
    WaitInv(h, c.H(), surface, feedbackId, KFeedback);
    ArmFeedback(c, surface, a);
    return 0;
  }

  method ArmFeedback(c: Client, s: Ptr, a: Ptr)
    requires Ready(c) && s in c.mem && c.mem[s].body.Surface? && s != NULL && a != NULL && a !in c.cbs
    modifies c`mem, c`cbs, c`lists
    ensures Ready(c)
    ensures var b := old(c.mem)[s].body; if b.feedbackCb == NULL && b.output != 0
      then c.cbs == old(c.cbs)[a := Callback(Presented, s, b.output)] &&
        c.mem == old(c.mem)[s := Block(old(c.mem)[s].refs, b.(feedbackCb := a))]
      else c.cbs == old(c.cbs) && c.mem == old(c.mem)
    ensures var b := old(c.mem)[s].body; c.lists == Joined(old(c.lists), b.feedbackCb == NULL && b.output != 0,
      b.output, a)
  {
    hide CoreInv, Extra, In, Target, ListsOk;
    ghost var h := c.H();
    if c.mem[s].body.feedbackCb == NULL && c.mem[s].body.output != 0 {
      var o := c.mem[s].body.output;
      ListenKeepsLists(c.lists, c.cbs, a, Callback(Presented, s, o));
      c.Listen(o, Presented, s, a);
      c.SetSurfaceCallbacks(s, c.mem[s].body.frameCb, a);
      SurfaceArmedInv(h, c.H(), s, a, Presented);
    }
  }

  /** A surface starts waiting for one more answer. */
  lemma WaitInv(h: Heap, h': Heap, s: Ptr, id: Id, k: Kind)
    requires CoreInv(h) && s in h.mem && h.mem[s].body.Surface? && id !in h.reg && id != 0
    requires h'.reg == h.reg[id := Object(k, NULL)] && h'.cbs == h.cbs
    requires (k == KCallback && |h.mem[s].body.frames| < MAX_FRAMES
              && h'.mem == h.mem[s := Block(h.mem[s].refs, h.mem[s].body.(frames := h.mem[s].body.frames + [id]))])
          || (k == KFeedback && |h.mem[s].body.feedbacks| < MAX_FRAMES
              && h'.mem == h.mem[s := Block(h.mem[s].refs,
                h.mem[s].body.(feedbacks := h.mem[s].body.feedbacks + [id]))])
    requires forall u :: Target(h', u) == Target(h, u)
    ensures CoreInv(h')
  {
    hide Typed, Mutual, Registered, Named, Roles, Waiting, Callbacks, Target;
    WaitQuiet(h, h', s, id, k);
    QuietKeepsStructure(h, h');
    WaitCallbacks(h, h', s);
    WaitWaiting(h, h', s, id, k);
  }

  lemma WaitQuiet(h: Heap, h': Heap, s: Ptr, id: Id, k: Kind)
    requires CoreInv(h) && s in h.mem && h.mem[s].body.Surface? && id !in h.reg && id != 0 && NoData(k)
    requires h'.reg == h.reg[id := Object(k, NULL)] && h'.mem.Keys == h.mem.Keys
    requires forall q :: q in h.mem && q != s ==> h'.mem[q] == h.mem[q]
    requires SameStructure(h.mem[s].body, h'.mem[s].body) && h'.mem[s].refs == h.mem[s].refs
    requires forall u :: Target(h', u) == Target(h, u)
    ensures Quiet(h, h')
  {
    hide Mutual, Registered, Roles, Waiting, Callbacks, Target;
    forall u: Slot | u.Armed? && Target(h', u) in h.mem ensures h.mem[Target(h', u)].body.Buffer? {
      assert Fits(h, u, h.mem[Target(h, u)].body);
    }
  }

  lemma WaitCallbacks(h: Heap, h': Heap, s: Ptr)
    requires Callbacks(h) && s in h.mem && h.mem[s].body.Surface? && h'.cbs == h.cbs && h'.mem.Keys == h.mem.Keys
    requires forall q :: q in h.mem && q != s ==> h'.mem[q] == h.mem[q]
    requires var b := h'.mem[s].body; var b0 := h.mem[s].body;
      b.Surface? && b.frameCb == b0.frameCb && b.feedbackCb == b0.feedbackCb && b.output == b0.output
    ensures Callbacks(h')
  {
    forall x | x in h'.cbs ensures CallbackOk(h', x, h'.cbs[x]) { assert CallbackOk(h, x, h.cbs[x]); }
    forall q | q in h'.mem ensures ArmedOk(h', q, h'.mem[q].body) { assert ArmedOk(h, q, h.mem[q].body); }
  }

  lemma WaitWaiting(h: Heap, h': Heap, s: Ptr, id: Id, k: Kind)
    requires Waiting(h) && s in h.mem && h.mem[s].body.Surface? && id !in h.reg
    requires h'.reg == h.reg[id := Object(k, NULL)]
    requires (k == KCallback &&
      h'.mem == h.mem[s := Block(h.mem[s].refs, h.mem[s].body.(frames := h.mem[s].body.frames + [id]))])
          || (k == KFeedback &&
            h'.mem == h.mem[s := Block(h.mem[s].refs, h.mem[s].body.(feedbacks := h.mem[s].body.feedbacks + [id]))])
    ensures Waiting(h')
  {
    forall q ensures Frames(h', q) == if q == s && k == KCallback then Frames(h, q) + [id] else Frames(h, q) { }
    forall q ensures Feedbacks(h', q) == if q == s &&
      k == KFeedback then Feedbacks(h, q) + [id] else Feedbacks(h, q) { }
    MoreWaiting(h, h', s, id, k);
  }

  lemma MoreWaiting(h: Heap, h': Heap, s: Ptr, id: Id, k: Kind)
    requires Waiting(h) && id !in h.reg && (k == KCallback || k == KFeedback) && h'.reg == h.reg[id := Object(k, NULL)]
    requires forall q :: Frames(h', q) == if q == s && k == KCallback then Frames(h, q) + [id] else Frames(h, q)
    requires forall q ::
      Feedbacks(h', q) == if q == s && k == KFeedback then Feedbacks(h, q) + [id] else Feedbacks(h, q)
    ensures Waiting(h')
  {
    hide Frames, Feedbacks;
    forall p, i | 0 <= i < |Frames(h, p)| ensures Frames(h, p)[i] != id {
      assert RegisteredAs(h, Frames(h, p)[i], KCallback);
    }
    forall p, i | 0 <= i < |Feedbacks(h, p)| ensures Feedbacks(h, p)[i] != id {
      assert RegisteredAs(h, Feedbacks(h, p)[i], KFeedback);
    }
  }
}
