/** `wl_surface_commit` and the two listeners behind it: the pending buffer becomes active, the old
    one is released now or on the next flip, and waiting frame callbacks get their listener. */
module Commits {
  import opened Memory
  import opened Invariant
  import opened Erasure
  import opened ClientState
  import opened QuietSteps
  import opened Surfaces

  ghost predicate Ready(c: Client)
    reads c
  {
    Inv(c.H()) && ListsOk(c.lists, c.cbs)
  }

  // ---------------------------------------------------------------- release callbacks

  /** output.c:271-272: the buffer's release callback takes a reference and joins o's list at node a. */
  method ArmRelease(c: Client, b: Ptr, o: OutputId, a: Ptr)
    requires Ready(c) && b in c.mem && c.mem[b].body.Buffer? && c.mem[b].body.cb == NULL && o != 0
    requires a !in c.cbs && a != NULL
    modifies c`mem, c`cbs, c`lists
    ensures Ready(c)
    ensures c.cbs == old(c.cbs)[a := Callback(BufferReleased, b, o)]
    ensures c.lists == old(c.lists)[o := old(c.List(o)) + [a]]
    ensures c.mem == old(c.mem)[b := Block(old(c.mem)[b].refs + 1, old(c.mem)[b].body.(cb := a))]
    ensures forall u :: Target(c.H(), u) == if u == Armed(a) then b else Target(old(c.H()), u)
  {
    hide CoreInv, Extra, In, Target, ListsOk;
    ghost var h := c.H();
    AlwaysLive(h);
    ListenKeepsLists(c.lists, c.cbs, a, Callback(BufferReleased, b, o));
    c.Ref(b);
    c.Listen(o, BufferReleased, b, a);
    c.SetBufferCallback(b, a);
    ArmedInv(h, c.H(), b, o, a);
  }

  lemma ArmedInv(h: Heap, h': Heap, b: Ptr, o: OutputId, a: Ptr)
    requires CoreInv(h) && b in h.mem && h.mem[b].body.Buffer? && h.mem[b].body.cb == NULL && a !in h.cbs && a != NULL
    requires o != 0
    requires h'.reg == h.reg && h'.cbs == h.cbs[a := Callback(BufferReleased, b, o)]
    requires h'.mem == h.mem[b := Block(h.mem[b].refs + 1, h.mem[b].body.(cb := a))]
    requires forall u :: Target(h', u) == if u == Armed(a) then b else Target(h, u)
    ensures CoreInv(h')
  {
    hide Typed, Mutual, Registered, Named, Roles, Waiting, Callbacks, Target;
    ArmedQuiet(h, h', b, a);
    QuietKeepsStructure(h, h');
    ArmedCallbacks(h, h', b, o, a);
    ArmedWaiting(h, h', b);
  }

  lemma ArmedQuiet(h: Heap, h': Heap, b: Ptr, a: Ptr)
    requires CoreInv(h) && b in h.mem && h.mem[b].body.Buffer? && h'.reg == h.reg && h'.mem.Keys == h.mem.Keys
    requires forall q :: q in h.mem && q != b ==> h'.mem[q] == h.mem[q]
    requires SameStructure(h.mem[b].body, h'.mem[b].body) && h'.mem[b].refs >= 1
    requires forall u :: Target(h', u) == if u == Armed(a) then b else Target(h, u)
    ensures Quiet(h, h')
  {
    hide Mutual, Registered, Roles, Waiting, Callbacks, Target;
    forall u: Slot | u.Armed? && Target(h', u) in h.mem ensures h.mem[Target(h', u)].body.Buffer? {
      if u != Armed(a) { assert Fits(h, u, h.mem[Target(h, u)].body); }
    }
  }

  lemma ArmedCallbacks(h: Heap, h': Heap, b: Ptr, o: OutputId, a: Ptr)
    requires CoreInv(h) && b in h.mem && h.mem[b].body.Buffer? && h.mem[b].body.cb == NULL && a !in h.cbs && a != NULL
    requires o != 0
    requires h'.cbs == h.cbs[a := Callback(BufferReleased, b, o)]
    requires h'.mem == h.mem[b := Block(h.mem[b].refs + 1, h.mem[b].body.(cb := a))]
    ensures Callbacks(h')
  {
    hide Typed, Mutual, Registered, Named, Roles, Waiting, Target;
    forall x | x in h'.cbs ensures CallbackOk(h', x, h'.cbs[x]) {
      if x != a { assert CallbackOk(h, x, h.cbs[x]); }
    }
    forall q | q in h'.mem ensures ArmedOk(h', q, h'.mem[q].body) { assert ArmedOk(h, q, h.mem[q].body); }
  }

  lemma ArmedWaiting(h: Heap, h': Heap, b: Ptr)
    requires Waiting(h) && b in h.mem && h.mem[b].body.Buffer? && h'.reg == h.reg && h'.mem.Keys == h.mem.Keys
    requires h'.mem[b].body.Buffer? && forall q :: q in h.mem && q != b ==> h'.mem[q] == h.mem[q]
    ensures Waiting(h')
  {
    forall q ensures Frames(h', q) == Frames(h, q) && Feedbacks(h', q) == Feedbacks(h, q) { }
  }

  // ---------------------------------------------------------------- the buffer swap

  /** output.c:276-284: the active buffer loses its reference, the pending one takes its place. */
  method SwapBuffers(c: Client, s: Ptr)
    requires Inv(c.H()) && s in c.mem && c.mem[s].body.Surface?
    modifies c`mem
    ensures Inv(c.H())
    ensures s in c.mem
    ensures c.mem[s].body ==
      old(c.mem)[s].body.(active := old(c.mem)[s].body.pending, pending := NULL, attached := false)
    ensures forall q :: q in c.mem && q != s ==> q in old(c.mem) && c.mem[q].body == old(c.mem)[q].body
    ensures forall q :: q in old(c.mem) && q !in c.mem ==> q == old(c.mem)[s].body.active || IsLeaf(old(c.mem)[q].body)
    ensures forall u ::
      Target(c.H(), u) == (
        if u == At(s, SurfacePending) then NULL else if u == At(s, SurfaceActive) then old(c.mem)[s].body.pending
        else if u.At? && u.owner !in c.mem then NULL else Target(old(c.H()), u))
  {
    hide CoreInv, Extra, In, Target, Weakens, Drop, OutDegree, Holding, RolesKept;
    ghost var h := c.H();
    AlwaysLive(h);
    ActiveIsBuffer(h, s);
    AtField(h, s, SurfaceActive);
    AtField(h, s, SurfacePending);
    if c.mem[s].body.active != NULL {
      BufferHeld(h, At(s, SurfaceActive));
      if c.mem[s].body.pending == c.mem[s].body.active { HeldTwice(h, At(s, SurfacePending), At(s, SurfaceActive)); }
      c.Unref(c.mem[s].body.active);
    }
    c.Set(s, SurfaceActive, c.mem[s].body.pending);
    c.Set(s, SurfacePending, NULL);
    c.SetAttached(s, false);
    ReassignedInv(h, c.H(), s, NULL, h.mem[s].body.pending, false, h.mem[s].body.active);
  }

  // ---------------------------------------------------------------- frame callbacks

  /** output.c:287-289 */
  method ArmFrames(c: Client, s: Ptr, a: Ptr)
    requires Ready(c) && s in c.mem && c.mem[s].body.Surface? && c.mem[s].body.frameCb == NULL
    requires c.mem[s].body.output != 0
    requires a !in c.cbs && a != NULL
    modifies c`mem, c`cbs, c`lists
    ensures Ready(c)
    ensures var o := old(c.mem)[s].body.output;
      && c.cbs == old(c.cbs)[a := Callback(FramesDone, s, o)] && c.lists == old(c.lists)[o := old(c.List(o)) + [a]]
    ensures c.mem == old(c.mem)[s := Block(old(c.mem)[s].refs, old(c.mem)[s].body.(frameCb := a))]
  {
    hide CoreInv, Extra, In, Target, ListsOk;
    ghost var h := c.H();
    var o := c.mem[s].body.output;
    AlwaysLive(h);
    ListenKeepsLists(c.lists, c.cbs, a, Callback(FramesDone, s, o));
    c.Listen(o, FramesDone, s, a);
    c.SetSurfaceCallbacks(s, a, c.mem[s].body.feedbackCb);
    SurfaceArmedInv(h, c.H(), s, a, FramesDone);
  }

  /** A surface's frame or feedback callback field receives a new node of its output's list. */
  lemma SurfaceArmedInv(h: Heap, h': Heap, s: Ptr, a: Ptr, l: Listener)
    requires CoreInv(h) && s in h.mem && s != NULL && h.mem[s].body.Surface? && h.mem[s].body.output != 0 && a !in h.cbs
    requires a != NULL
    requires h'.reg == h.reg && h'.cbs == h.cbs[a := Callback(l, s, h.mem[s].body.output)]
    requires (l == FramesDone && h.mem[s].body.frameCb == NULL &&
      h'.mem == h.mem[s := Block(h.mem[s].refs, h.mem[s].body.(frameCb := a))])
          || (l == Presented && h.mem[s].body.feedbackCb == NULL &&
            h'.mem == h.mem[s := Block(h.mem[s].refs, h.mem[s].body.(feedbackCb := a))])
    requires forall u :: Target(h', u) == Target(h, u)
    ensures CoreInv(h')
  {
    hide Typed, Mutual, Registered, Named, Roles, Waiting, Callbacks, Target, PixelsUnshared, Quiet;
    SurfaceArmedQuiet(h, h', s);
    QuietKeepsStructure(h, h');
    QuietBodies(h, h');
    SurfaceArmedCallbacks(h, h', s, a, l);
    SurfaceArmedWaiting(h, h', s);
  }

  lemma SurfaceArmedQuiet(h: Heap, h': Heap, s: Ptr)
    requires CoreInv(h) && s in h.mem && h'.reg == h.reg && h'.mem.Keys == h.mem.Keys
    requires forall q :: q in h.mem && q != s ==> h'.mem[q] == h.mem[q]
    requires SameStructure(h.mem[s].body, h'.mem[s].body) && h'.mem[s].refs == h.mem[s].refs
    requires forall u :: Target(h', u) == Target(h, u)
    ensures Quiet(h, h')
  {
    hide Mutual, Registered, Roles, Waiting, Callbacks, Target;
    forall u: Slot | u.Armed? && Target(h', u) in h.mem ensures h.mem[Target(h', u)].body.Buffer? {
      assert Fits(h, u, h.mem[Target(h, u)].body);
    }
  }

  lemma SurfaceArmedCallbacks(h: Heap, h': Heap, s: Ptr, a: Ptr, l: Listener)
    requires Callbacks(h) && s in h.mem && h.mem[s].body.Surface? && h.mem[s].body.output != 0 && a !in h.cbs
    requires a != NULL
    requires h'.cbs == h.cbs[a := Callback(l, s, h.mem[s].body.output)]
    requires (l == FramesDone && h.mem[s].body.frameCb == NULL &&
      h'.mem == h.mem[s := Block(h.mem[s].refs, h.mem[s].body.(frameCb := a))])
          || (l == Presented && h.mem[s].body.feedbackCb == NULL &&
            h'.mem == h.mem[s := Block(h.mem[s].refs, h.mem[s].body.(feedbackCb := a))])
    ensures Callbacks(h')
  {
    forall x | x in h'.cbs ensures CallbackOk(h', x, h'.cbs[x]) {
      if x != a { assert CallbackOk(h, x, h.cbs[x]); }
    }
    forall q | q in h'.mem ensures ArmedOk(h', q, h'.mem[q].body) { assert ArmedOk(h, q, h.mem[q].body); }
  }

  lemma SurfaceArmedWaiting(h: Heap, h': Heap, s: Ptr)
    requires Waiting(h) && s in h.mem && h'.reg == h.reg && h'.mem.Keys == h.mem.Keys
    requires h.mem[s].body.Surface? && h'.mem[s].body.Surface?
    requires h'.mem[s].body.frames == h.mem[s].body.frames && h'.mem[s].body.feedbacks == h.mem[s].body.feedbacks
    requires forall q :: q in h.mem && q != s ==> h'.mem[q] == h.mem[q]
    ensures Waiting(h')
  {
    forall q ensures Frames(h', q) == Frames(h, q) && Feedbacks(h', q) == Feedbacks(h, q) { }
  }

  // ---------------------------------------------------------------- wl_surface_commit

  /** Will the surface's active buffer be released by the next flip of its output, through a callback
      armed by this commit? */
  predicate ArmsRelease(h: Heap, s: Ptr) {
    && s in h.mem && h.mem[s].body.Surface? && h.mem[s].body.attached && h.mem[s].body.output != 0
    && var b := h.mem[s].body.active;
    && b != NULL && b in h.mem && h.mem[b].body.Buffer?
    && h.mem[b].body.obj != 0 && h.mem[b].body.cb == NULL
  }

  function WithCallback(b: Body, a: Ptr): Body {
    if b.Buffer? then Buffer(b.obj, b.pool, b.pixels, a) else b
  }

  /** Apart from s and the buffer `armed`, whose callback is a now, every surviving body is as it was;
      gone are at most the replaced buffer and its parts. */
  predicate OthersKept(m: map<Ptr, Block>, m': map<Ptr, Block>, s: Ptr, active: Ptr, armed: Ptr, a: Ptr) {
    && (forall q :: q in m && q !in m' ==> q == active || IsLeaf(m[q].body))
    && (forall q :: q in m' && q != s ==> q in m)
    && (forall q :: q in m' && q != s && q != armed ==> m'[q].body == m[q].body)
    && (armed in m' && armed in m && armed != s && armed != NULL ==> m'[armed].body == WithCallback(m[armed].body, a))
  }

  /** The release events this commit sends itself: for a replaced buffer that no callback can report. */
  function ReleaseNow(h: Heap, s: Ptr): seq<Event> {
    if s in h.mem && h.mem[s].body.Surface? && h.mem[s].body.attached && !ArmsRelease(h, s) then
      var b := h.mem[s].body.active;
      if b != NULL && b in h.mem && h.mem[b].body.Buffer? &&
        h.mem[b].body.obj != 0 then [Release(h.mem[b].body.obj)] else []
    else []
  }

  predicate ArmsFrames(b: Body) {
    b.Surface? && b.frameCb == NULL && b.output != 0 && b.frames != []
  }

  /** The output's list gets the release callback first, then the frame listener. */
  function CommittedLists(h: Heap, lists: map<OutputId, seq<Ptr>>, s: Ptr, a1: Ptr, a2: Ptr): map<OutputId, seq<Ptr>> {
    if s !in h.mem || !h.mem[s].body.Surface? then lists else
    var o := h.mem[s].body.output;
    Joined(Joined(lists, ArmsRelease(h, s), o, a1), ArmsFrames(h.mem[s].body), o, a2)
  }

  /** The listener of output.c, lines 262 to 291. */
  method OnWlSurfaceCommit(c: Client, s: Ptr, a1: Ptr, a2: Ptr)
    requires Ready(c) && s in c.mem && c.mem[s].body.Surface? && s != NULL
    requires a1 != NULL && a2 != NULL && a1 != a2 && a1 !in c.cbs && a2 !in c.cbs
    modifies c`mem, c`cbs, c`lists, c`sent
    ensures Ready(c) && s in c.mem
    ensures var b := old(c.mem)[s].body;
      c.mem[s].body == (if b.attached then b.(active := b.pending, pending := NULL, attached := false) else b).(
        frameCb := if ArmsFrames(b) then a2 else b.frameCb)
    ensures OthersKept(old(c.mem), c.mem, s, old(c.mem)[s].body.active,
      if ArmsRelease(old(c.H()), s) then old(c.mem)[s].body.active else NULL, a1)
    ensures c.sent == old(c.sent) + ReleaseNow(old(c.H()), s)
    ensures c.cbs ==
      (if ArmsRelease(old(c.H()), s)
        then old(c.cbs)[a1 := Callback(BufferReleased, old(c.mem)[s].body.active, old(c.mem)[s].body.output)]
          else old(c.cbs)) +
      (if ArmsFrames(old(c.mem)[s].body) then map[a2 := Callback(FramesDone, s, old(c.mem)[s].body.output)] else map[])
    ensures c.lists == CommittedLists(old(c.H()), old(c.lists), s, a1, a2)
  {
    hide CoreInv, ListsOk, Balanced, Target, ArmsRelease, ReleaseNow, OthersKept;
    ghost var m, armed := c.mem, if ArmsRelease(c.H(), s) then c.mem[s].body.active else NULL;
    BufferState(c, s, a1);
    ghost var m1 := c.mem;
    FrameState(c, s, a2);
    OthersStillKept(m, m1, c.mem, s, m[s].body.active, armed, a1);
  }

  /** Lines 287 to 289: waiting frame callbacks get their listener, if they have none. */
  method FrameState(c: Client, s: Ptr, a: Ptr)
    requires Ready(c) && s in c.mem && c.mem[s].body.Surface? && s != NULL && a !in c.cbs && a != NULL
    modifies c`mem, c`cbs, c`lists
    ensures Ready(c) && c.mem.Keys == old(c.mem).Keys && forall q :: q in c.mem && q != s ==> c.mem[q] == old(c.mem)[q]
    ensures var b := old(c.mem)[s].body; c.mem[s].body == b.(frameCb := if ArmsFrames(b) then a else b.frameCb)
    ensures var b := old(c.mem)[s].body;
      && c.cbs == old(c.cbs) + (if ArmsFrames(b) then map[a := Callback(FramesDone, s, b.output)] else map[])
      && c.lists == Joined(old(c.lists), ArmsFrames(b), b.output, a)
  {
    hide CoreInv, ListsOk, Balanced, Target;
    if c.mem[s].body.frameCb == NULL && c.mem[s].body.output != 0 && c.mem[s].body.frames != [] {
      ArmFrames(c, s, a);
    }
  }

  lemma OthersStillKept(m: map<Ptr, Block>, m1: map<Ptr, Block>, m2: map<Ptr, Block>, s: Ptr, active: Ptr, armed: Ptr,
                        a: Ptr)
    requires OthersKept(m, m1, s, active, armed, a) && s in m1 && armed != s && m2.Keys == m1.Keys
    requires forall q :: q in m1 && q != s ==> m2[q] == m1[q]
    ensures OthersKept(m, m2, s, active, armed, a)
  {
  }

  /** Lines 267 to 285: nothing happens unless a buffer was attached. */
  method BufferState(c: Client, s: Ptr, a: Ptr)
    requires Ready(c) && s in c.mem && c.mem[s].body.Surface? && s != NULL && a !in c.cbs && a != NULL
    modifies c`mem, c`cbs, c`lists, c`sent
    ensures Ready(c) && s in c.mem && (ArmsRelease(old(c.H()), s) ==> old(c.mem)[s].body.active != s)
    ensures var b := old(c.mem)[s].body; c.mem[s].body == if b.attached
      then b.(active := b.pending, pending := NULL, attached := false) else b
    ensures OthersKept(old(c.mem), c.mem, s, old(c.mem)[s].body.active,
      if ArmsRelease(old(c.H()), s) then old(c.mem)[s].body.active else NULL, a)
    ensures c.sent == old(c.sent) + ReleaseNow(old(c.H()), s)
    ensures c.cbs == if ArmsRelease(old(c.H()), s)
      then old(c.cbs)[a := Callback(BufferReleased, old(c.mem)[s].body.active, old(c.mem)[s].body.output)]
        else old(c.cbs)
    ensures c.lists == Joined(old(c.lists), ArmsRelease(old(c.H()), s), old(c.mem)[s].body.output, a)
  {
    hide CoreInv, ListsOk, Balanced, Target;
    NoNullBlock(c.H());
    if c.mem[s].body.attached {
      ReplaceActive(c, s, a);
    }
  }

  /** Lines 268 to 284. */
  method ReplaceActive(c: Client, s: Ptr, a: Ptr)
    requires Ready(c) && s in c.mem && c.mem[s].body.Surface? && s != NULL && c.mem[s].body.attached && a !in c.cbs
    requires a != NULL
    modifies c`mem, c`cbs, c`lists, c`sent
    ensures Ready(c) && s in c.mem
    ensures c.mem[s].body ==
      old(c.mem)[s].body.(active := old(c.mem)[s].body.pending, pending := NULL, attached := false)
    ensures OthersKept(old(c.mem), c.mem, s, old(c.mem)[s].body.active,
      if ArmsRelease(old(c.H()), s) then old(c.mem)[s].body.active else NULL, a)
    ensures c.sent == old(c.sent) + ReleaseNow(old(c.H()), s)
    ensures c.cbs == if ArmsRelease(old(c.H()), s)
      then old(c.cbs)[a := Callback(BufferReleased, old(c.mem)[s].body.active, old(c.mem)[s].body.output)]
        else old(c.cbs)
    ensures c.lists == Joined(old(c.lists), ArmsRelease(old(c.H()), s), old(c.mem)[s].body.output, a)
  {
    hide CoreInv, ListsOk, Balanced, Target, ReleaseNow, ArmsRelease;
    ghost var m, active := c.mem, c.mem[s].body.active;
    ghost var armed := if ArmsRelease(c.H(), s) then active else NULL;
    NoNullBlock(c.H());
    ReleaseActive(c, s, a);
    ghost var m1 := c.mem;
    SwapBuffers(c, s);
    SwapKept(m, m1, c.mem, s, active, armed, a);
  }

  lemma NoNullBlock(h: Heap)
    requires CoreInv(h)
    ensures NULL !in h.mem
  {
  }

  lemma SwapKept(m: map<Ptr, Block>, m1: map<Ptr, Block>, m2: map<Ptr, Block>, s: Ptr, active: Ptr, armed: Ptr, a: Ptr)
    requires OthersKept(m, m1, s, active, armed, a) && m1.Keys == m.Keys && NULL !in m
    requires (armed == active || armed == NULL)
    requires s in m && m[s].body.Surface? && m1[s].body == m[s].body
    requires forall q :: q in m2 && q != s ==> q in m1 && m2[q].body == m1[q].body
    requires forall q :: q in m1 && q !in m2 ==> q == active || IsLeaf(m1[q].body)
    ensures OthersKept(m, m2, s, active, armed, a)
  {
    forall q | q in m && q !in m2 ensures q == active || IsLeaf(m[q].body) {
      assert q in m1;
    }
  }

  /** Lines 269 to 275: before the swap, arrange for the active buffer to be reported as released. */
  method ReleaseActive(c: Client, s: Ptr, a: Ptr)
    requires Ready(c) && s in c.mem && c.mem[s].body.Surface? && s != NULL && c.mem[s].body.attached && a !in c.cbs
    requires a != NULL
    modifies c`mem, c`cbs, c`lists, c`sent
    ensures Ready(c) && s in c.mem && c.mem[s].body == old(c.mem)[s].body
    ensures OthersKept(old(c.mem), c.mem, s, old(c.mem)[s].body.active,
      if ArmsRelease(old(c.H()), s) then old(c.mem)[s].body.active else NULL, a)
    ensures c.mem.Keys == old(c.mem).Keys
    ensures c.sent == old(c.sent) + ReleaseNow(old(c.H()), s)
    ensures c.cbs == if ArmsRelease(old(c.H()), s)
      then old(c.cbs)[a := Callback(BufferReleased, old(c.mem)[s].body.active, old(c.mem)[s].body.output)]
        else old(c.cbs)
    ensures c.lists == Joined(old(c.lists), ArmsRelease(old(c.H()), s), old(c.mem)[s].body.output, a)
  {
    hide CoreInv, ListsOk, Balanced, Target;
    ActiveIsBuffer(c.H(), s);
    var b := c.mem[s].body.active;
    if b != NULL {
      if c.mem[b].body.obj != 0 && c.mem[s].body.output != 0 && c.mem[b].body.cb == NULL {
        ArmRelease(c, b, c.mem[s].body.output, a);
      } else if c.mem[b].body.obj != 0 {
        c.sent := c.sent + [Release(c.mem[b].body.obj)];
      }
    }
  }

  // ---------------------------------------------------------------- c_wl_surface_state_apply

  /** What applying double-buffered state comes to: a status, or a read through a missing surface. */
  datatype Outcome = Status(code: int) | ReadsNull

  const REFUSED := -1

  /** Does applying the state of s fail? `oversized` are the surfaces whose viewport shows more than
      their pending buffer has. */
  predicate Refuses(h: Heap, s: Ptr, oversized: set<Ptr>) {
    && s in h.mem && h.mem[s].body.Surface?
    && h.mem[s].body.viewport != NULL && h.mem[s].body.pending != NULL && s in oversized
  }

  function ApplyOutcome(h: Heap, s: Ptr, oversized: set<Ptr>): Outcome {
    if s == NULL then ReadsNull else Status(if Refuses(h, s, oversized) then REFUSED else 0)
  }

  predicate SyncedChild(h: Heap, ss: Ptr) { ss in h.mem && h.mem[ss].body.Subsurface? && h.mem[ss].body.sync }

  function ChildOutcome(h: Heap, ss: Ptr, oversized: set<Ptr>): Outcome {
    if SyncedChild(h, ss) then ApplyOutcome(h, SurfaceOf(h.mem, ss), oversized) else Status(0)
  }

  /** The walk over the children: it ends at the first one whose state is not applied. */
  function ChildrenOutcome(h: Heap, children: seq<Ptr>, oversized: set<Ptr>): Outcome {
    if children == [] then Status(0)
    else if ChildOutcome(h, children[0], oversized) != Status(0) then ChildOutcome(h, children[0], oversized)
    else ChildrenOutcome(h, children[1..], oversized)
  }

  function CommitOutcome(h: Heap, s: Ptr, oversized: set<Ptr>): Outcome {
    if Synchronized(h, s) then Status(0)
    else if Refuses(h, s, oversized) then Status(REFUSED)
    else if s in h.mem && h.mem[s].body.Surface? then ChildrenOutcome(h, h.mem[s].body.children, oversized)
    else ReadsNull
  }

  /** A synchronized child that has outlived its surface. */
  predicate Orphan(h: Heap, ss: Ptr) { SyncedChild(h, ss) && SurfaceOf(h.mem, ss) == NULL }

  predicate RefusesChild(h: Heap, ss: Ptr, oversized: set<Ptr>) {
    SyncedChild(h, ss) && Refuses(h, SurfaceOf(h.mem, ss), oversized)
  }

  predicate OrphanReached(h: Heap, children: seq<Ptr>, oversized: set<Ptr>, k: nat) {
    k < |children| && Orphan(h, children[k]) && forall j :: 0 <= j < k ==> !RefusesChild(h, children[j], oversized)
  }

  lemma {:induction false} WalkReadsNull(h: Heap, children: seq<Ptr>, oversized: set<Ptr>)
    requires NULL !in h.mem
    ensures ChildrenOutcome(h, children, oversized).ReadsNull? <==>
      exists k: nat :: OrphanReached(h, children, oversized, k)
  {
    if children != [] {
      var rest := children[1..];
      WalkReadsNull(h, rest, oversized);
      if k: nat :| OrphanReached(h, rest, oversized, k) {
        if !RefusesChild(h, children[0], oversized) {
          forall j | 0 <= j < k + 1 ensures !RefusesChild(h, children[j], oversized) {
            if j > 0 { assert children[j] == rest[j - 1]; }
          }
          assert OrphanReached(h, children, oversized, k + 1);
        }
      }
      if k: nat :| OrphanReached(h, children, oversized, k) {
        if k > 0 {
          assert !RefusesChild(h, children[0], oversized);
          forall j | 0 <= j < k - 1 ensures !RefusesChild(h, rest[j], oversized) { assert rest[j] == children[j + 1]; }
          assert OrphanReached(h, rest, oversized, k - 1);
        }
      }
      if Orphan(h, children[0]) { assert OrphanReached(h, children, oversized, 0); }
    }
  }

  /** Past the early return and the surface's own state, a commit reads through a missing surface
      exactly when it reaches a synchronized child that has outlived its surface. */
  lemma CommitReadsNull(h: Heap, s: Ptr, oversized: set<Ptr>)
    requires CoreInv(h) && s in h.mem && h.mem[s].body.Surface?
    ensures CommitOutcome(h, s, oversized).ReadsNull? <==>
      && !Synchronized(h, s) && !Refuses(h, s, oversized)
      && exists k: nat :: OrphanReached(h, h.mem[s].body.children, oversized, k)
  {
    NoNullBlock(h);
    WalkReadsNull(h, h.mem[s].body.children, oversized);
  }

  /** So no viewport can make a commit unsafe exactly when the surface is synchronized itself or every
      synchronized child still has its surface. */
  lemma CommitSafe(h: Heap, s: Ptr)
    requires CoreInv(h) && s in h.mem && h.mem[s].body.Surface?
    ensures (forall oversized :: !CommitOutcome(h, s, oversized).ReadsNull?) <==>
      Synchronized(h, s) || forall k :: 0 <= k < |h.mem[s].body.children| ==> !Orphan(h, h.mem[s].body.children[k])
  {
    hide CoreInv, CommitOutcome, Orphan;
    var kids := h.mem[s].body.children;
    if !Synchronized(h, s) && exists k :: 0 <= k < |kids| && Orphan(h, kids[k]) {
      var k :| 0 <= k < |kids| && Orphan(h, kids[k]);
      CommitReadsNull(h, s, {});
      assert OrphanReached(h, kids, {}, k);
    } else {
      forall oversized ensures !CommitOutcome(h, s, oversized).ReadsNull? { CommitReadsNull(h, s, oversized); }
    }
  }

  /** A surface whose viewport shows no more than its pending buffer has, in its fields. */
  predicate Presentable(h: Heap, s: Ptr, oversized: set<Ptr>) {
    && s in h.mem && h.mem[s].body.Surface?
    && (h.mem[s].body.viewport == NULL || h.mem[s].body.pending == NULL || s !in oversized)
  }

  /** A commit is accepted exactly when the surface is synchronized, or it and all its synchronized children
      are presentable. */
  lemma CommitAccepted(h: Heap, s: Ptr, oversized: set<Ptr>)
    requires CoreInv(h) && s in h.mem && h.mem[s].body.Surface?
    ensures CommitOutcome(h, s, oversized) == Status(0) <==>
      || (h.mem[s].body.subsurface in h.mem && h.mem[h.mem[s].body.subsurface].body.Subsurface? &&
          h.mem[h.mem[s].body.subsurface].body.sync)
      || (Presentable(h, s, oversized) && forall k :: 0 <= k < |h.mem[s].body.children| ==>
           Harmless(h, h.mem[s].body.children[k], oversized))
  {
    NoNullBlock(h);
    SubsurfaceOf(h, s);
    ChildrenAre(h, s);
    hide CoreInv;
    ChildrenAccepted(h, h.mem[s].body.children, oversized);
  }

  /** Child ss is left alone or has a presentable surface. */
  predicate Harmless(h: Heap, ss: Ptr, oversized: set<Ptr>) {
    ss in h.mem && h.mem[ss].body.Subsurface? &&
      (h.mem[ss].body.sync ==> Presentable(h, h.mem[ss].body.surface, oversized))
  }

  predicate ChildLinked(h: Heap, ss: Ptr) {
    && ss in h.mem && h.mem[ss].body.Subsurface?
    && (h.mem[ss].body.surface != NULL ==>
      h.mem[ss].body.surface in h.mem && h.mem[h.mem[ss].body.surface].body.Surface?)
  }

  lemma ChildrenAre(h: Heap, s: Ptr)
    requires CoreInv(h) && s in h.mem && h.mem[s].body.Surface?
    ensures forall k :: 0 <= k < |h.mem[s].body.children| ==> ChildLinked(h, h.mem[s].body.children[k])
  {
    forall k | 0 <= k < |h.mem[s].body.children| ensures ChildLinked(h, h.mem[s].body.children[k]) {
      ChildSurface(h, s, h.mem[s].body.children[k]);
    }
  }

  lemma {:induction false} ChildrenAccepted(h: Heap, children: seq<Ptr>, oversized: set<Ptr>)
    requires NULL !in h.mem && forall k :: 0 <= k < |children| ==> ChildLinked(h, children[k])
    ensures ChildrenOutcome(h, children, oversized) == Status(0) <==>
      forall k :: 0 <= k < |children| ==> Harmless(h, children[k], oversized)
  {
    if children != [] {
      ChildrenAccepted(h, children[1..], oversized);
      assert ChildOutcome(h, children[0], oversized) == Status(0) <==> Harmless(h, children[0], oversized);
      assert forall k :: 0 < k < |children| ==> children[k] == children[1..][k - 1];
      assert (forall k :: 0 <= k < |children| ==> Harmless(h, children[k], oversized)) <==>
        Harmless(h, children[0], oversized) &&
        forall k :: 0 <= k < |children| - 1 ==> Harmless(h, children[1..][k], oversized);
    }
  }

  /** c_wl_surface_state_apply: what it reads through is there, because links have two ends. */
  method StateApply(c: Client, s: Ptr, oversized: set<Ptr>) returns (error: int)
    requires CoreInv(c.H()) && s in c.mem && c.mem[s].body.Surface?
    ensures Status(error) == ApplyOutcome(c.H(), s, oversized)
  {
    hide CoreInv, Target;
    NoNullBlock(c.H());
    AtField(c.H(), s, SurfaceXdg);
    AtField(c.H(), s, SurfaceViewport);
    var xdgSurface := c.mem[s].body.xdg;
    if xdgSurface != NULL {
      LinkEnds(c.H(), At(s, SurfaceXdg));
      assert c.mem[xdgSurface].body.XdgSurface?;
    }
    var viewport := c.mem[s].body.viewport;
    if viewport != NULL {
      LinkEnds(c.H(), At(s, SurfaceViewport));
      AtField(c.H(), viewport, ViewportSurface);
      var surface := c.mem[viewport].body.surface;
      if c.mem[surface].body.pending != NULL && surface in oversized { return REFUSED; }
    }
    return 0;
  }

  lemma ChildSurface(h: Heap, s: Ptr, ss: Ptr)
    requires CoreInv(h) && s in h.mem && h.mem[s].body.Surface? && ss in h.mem[s].body.children
    ensures ss in h.mem && h.mem[ss].body.Subsurface?
    ensures var t := h.mem[ss].body.surface; t != NULL ==> t in h.mem && h.mem[t].body.Surface?
  {
    assert WellFormed(h.mem[s].body);
    assert Target(h, Child(s, ss)) == ss;
    LinkEnds(h, Child(s, ss));
    AtField(h, ss, SubsurfaceSurface);
    if h.mem[ss].body.surface != NULL { LinkEnds(h, At(ss, SubsurfaceSurface)); }
  }

  /** wl_surface_commit itself, lines 497 to 509. */
  method ApplyAll(c: Client, s: Ptr, oversized: set<Ptr>) returns (error: int)
    requires CoreInv(c.H()) && s in c.mem && c.mem[s].body.Surface?
    requires !CommitOutcome(c.H(), s, oversized).ReadsNull?
    ensures Status(error) == CommitOutcome(c.H(), s, oversized)
  {
    hide CoreInv;
    NoNullBlock(c.H());
    SubsurfaceOf(c.H(), s);
    if c.mem[s].body.subsurface != NULL && c.mem[c.mem[s].body.subsurface].body.sync { return 0; }
    error := StateApply(c, s, oversized);
    if error != 0 { return; }
    var children := c.mem[s].body.children;
    var i := 0;
    while i < |children|
      invariant 0 <= i <= |children|
      invariant CommitOutcome(c.H(), s, oversized) == ChildrenOutcome(c.H(), children[i..], oversized)
    {
      var ss := children[i];
      ChildSurface(c.H(), s, ss);
      assert children[i..][0] == ss && children[i..][1..] == children[i + 1..];
      if c.mem[ss].body.sync {
        error := StateApply(c, c.mem[ss].body.surface, oversized);
        if error != 0 { return; }
      }
      i := i + 1;
    }
    return 0;
  }

  /** Everything a commit with status 0 does. */
  ghost predicate Committed(h: Heap, h': Heap, s: Ptr, focused: OutputId, a1: Ptr, a2: Ptr) {
    && s in h.mem && h.mem[s].body.Surface? && s in h'.mem && h'.reg == h.reg && h'.scene == h.scene
    && var b := h.mem[s].body;
    && h'.mem[s].body == (if b.attached then b.(active := b.pending, pending := NULL, attached := false) else b).(
      frameCb := (if ArmsFrames(b) then a2 else b.frameCb), output := if b.output == 0 then focused else b.output)
    && OthersKept(h.mem, h'.mem, s, b.active, if ArmsRelease(h, s) then b.active else NULL, a1)
    && h'.cbs ==
      (if ArmsRelease(h, s) then h.cbs[a1 := Callback(BufferReleased, b.active, b.output)] else h.cbs) +
      (if ArmsFrames(b) then map[a2 := Callback(FramesDone, s, b.output)] else map[])
  }

  /** `oversized` says which viewports ask for too much, `focused` is the client's wl_output for the
      focused monitor, if it has bound one. */
  method WlSurfaceCommit(c: Client, id: Id, oversized: set<Ptr>, focused: OutputId, a1: Ptr, a2: Ptr)
    returns (status: int)
    requires Ready(c) && id in c.reg && c.reg[id].kind == KSurface
    requires !CommitOutcome(c.H(), c.reg[id].data, oversized).ReadsNull?
    requires a1 != NULL && a2 != NULL && a1 != a2 && a1 !in c.cbs && a2 !in c.cbs
    modifies c`mem, c`cbs, c`lists, c`sent
    ensures Ready(c)
    ensures Status(status) == CommitOutcome(old(c.H()), c.reg[id].data, oversized)
    ensures status != 0 ==>
      c.mem == old(c.mem) && c.cbs == old(c.cbs) && c.lists == old(c.lists) && c.sent == old(c.sent)
    ensures status == 0 ==>
      && Committed(old(c.H()), c.H(), c.reg[id].data, focused, a1, a2)
      && c.sent == old(c.sent) + ReleaseNow(old(c.H()), c.reg[id].data)
      && c.lists == CommittedLists(old(c.H()), old(c.lists), c.reg[id].data, a1, a2)
  {
    hide CoreInv, ListsOk, Balanced, Target, CommitOutcome;
    RegistryEntry(c.H(), id);
    var surface := c.reg[id].data;
    status := ApplyAll(c, surface, oversized);
    if status != 0 { return; }
    OnWlSurfaceCommit(c, surface, a1, a2);
    if c.mem[surface].body.output == 0 {
      AssignOutput(c, surface, focused);
    }
  }

  predicate Synchronized(h: Heap, s: Ptr) {
    && s in h.mem && h.mem[s].body.Surface?
    && var ss := h.mem[s].body.subsurface;
    && ss != NULL && ss in h.mem && h.mem[ss].body.Subsurface? && h.mem[ss].body.sync
  }

  lemma SubsurfaceOf(h: Heap, s: Ptr)
    requires CoreInv(h) && s in h.mem && h.mem[s].body.Surface?
    ensures var ss := h.mem[s].body.subsurface; ss != NULL ==> ss in h.mem && h.mem[ss].body.Subsurface?
  {
    AtField(h, s, SurfaceSubsurface);
    if h.mem[s].body.subsurface != NULL { LinkEnds(h, At(s, SurfaceSubsurface)); }
  }

  /** cuts.c:372-386: a surface gets an output once. */
  method AssignOutput(c: Client, s: Ptr, o: OutputId)
    requires Ready(c) && s in c.mem && c.mem[s].body.Surface? && c.mem[s].body.output == 0
    modifies c`mem
    ensures Ready(c) && c.mem == old(c.mem)[s := Block(old(c.mem)[s].refs, old(c.mem)[s].body.(output := o))]
  {
    hide CoreInv, Extra, In, Target, ListsOk;
    ghost var h := c.H();
    AlwaysLive(h);
    c.SetOutput(s, o);
    AssignedInv(h, c.H(), s, o);
  }

  lemma AssignedInv(h: Heap, h': Heap, s: Ptr, o: OutputId)
    requires CoreInv(h) && s in h.mem && h.mem[s].body.Surface? && h.mem[s].body.output == 0
    requires h'.reg == h.reg && h'.cbs == h.cbs
    requires h'.mem == h.mem[s := Block(h.mem[s].refs, h.mem[s].body.(output := o))]
    requires forall u :: Target(h', u) == Target(h, u)
    ensures CoreInv(h')
  {
    hide Typed, Mutual, Registered, Named, Roles, Waiting, Callbacks, Target, PixelsUnshared, Quiet;
    SurfaceArmedQuiet(h, h', s);
    QuietKeepsStructure(h, h');
    QuietBodies(h, h');
    AssignedCallbacks(h, h', s, o);
    SurfaceArmedWaiting(h, h', s);
  }

  lemma AssignedCallbacks(h: Heap, h': Heap, s: Ptr, o: OutputId)
    requires Callbacks(h) && s in h.mem && h.mem[s].body.Surface? && h.mem[s].body.output == 0
    requires h'.cbs == h.cbs && h'.mem == h.mem[s := Block(h.mem[s].refs, h.mem[s].body.(output := o))]
    ensures Callbacks(h')
  {
    forall x | x in h'.cbs ensures CallbackOk(h', x, h'.cbs[x]) { assert CallbackOk(h, x, h.cbs[x]); }
    forall q | q in h'.mem ensures ArmedOk(h', q, h'.mem[q].body) { assert ArmedOk(h, q, h.mem[q].body); }
  }
}
