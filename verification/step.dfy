/** The steps a run of the compositor is made of, which of them it can take, and what each one does. */
module Steps {
  import opened Memory
  import opened Invariant
  import opened Erasure
  import opened Creation
  import opened ClientState
  import opened Commits
  import opened PageFlips
  import BufferObjects
  import Surfaces
  import SubsurfaceLinks
  import SubsurfaceSync
  import Viewporter
  import XdgShell
  import FrameRequests
  import SurfaceDestroy
  import SceneQuads

  /** One step, with what the environment contributes to it: addresses the allocator returns, outcomes
      of system calls and of checks that only look at the request. */
  datatype Step =
    | CreatePool(id: Id, pool: Ptr, mapped: bool)
    | PoolDestroy(id: Id)
    | CreateBuffer(poolId: Id, id: Id, buf: Ptr, pixels: Ptr, valid: bool)
    | BufferDestroy(id: Id)
    | CreateSurface(id: Id, s: Ptr)
    | SurfaceAttach(id: Id, badOffset: bool, bufferId: Id)
    | SurfaceCommit(id: Id, oversized: set<Ptr>, focused: OutputId, a1: Ptr, a2: Ptr)
    | SurfaceFrame(id: Id, callbackId: Id)
    | Feedback(id: Id, feedbackId: Id, a: Ptr)
    | SurfaceDestroy(id: Id)
    | GetSubsurface(id: Id, surfaceId: Id, parentId: Id, p: Ptr)
    | SubsurfaceDestroy(id: Id)
    | SetSync(id: Id, sync: bool, rank: map<Ptr, nat>)
    | GetViewport(id: Id, surfaceId: Id, p: Ptr)
    | ViewportDestroy(id: Id)
    | GetXdgSurface(id: Id, surfaceId: Id, p: Ptr)
    | XdgSurfaceDestroy(id: Id)
    | GetToplevel(id: Id, xdgId: Id)
    | ToplevelDestroy(id: Id)
    | Watch(o: OutputId, a: Ptr)
    | Flip(o: OutputId)
    | WindowAdd(n: nat)
    | WindowUpdate(n: nat, s: Ptr, rank: map<Ptr, nat>)
    | WindowRemove(n: nat)

  predicate Names(h: Heap, id: Id, k: Kind) { id in h.reg && h.reg[id].kind == k }

  predicate NamesOrNothing(h: Heap, id: Id, k: Kind) { id in h.reg ==> h.reg[id].kind == k }

  predicate Unused(h: Heap, p: Ptr) { p != NULL && p !in h.mem }

  /** The steps the compositor takes without checking: object arguments have the type the interface
      gives them, the allocator returns unused addresses, an xdg_surface is asked for once, and trees
      have no cycles. */
  predicate Admissible(h: Heap, t: Step) {
    match t
    case CreatePool(id, pool, _) => id != 0 && Unused(h, pool)
    case PoolDestroy(id) => Names(h, id, KPool)
    case CreateBuffer(poolId, id, buf, pixels, _) => id != 0 && Names(h, poolId, KPool) && Unused(h, buf) &&
      Unused(h, pixels) && buf != pixels
    case BufferDestroy(id) => Names(h, id, KBuffer)
    case CreateSurface(id, s) => id != 0 && Unused(h, s)
    case SurfaceAttach(id, _, bufferId) => Names(h, id, KSurface) && NamesOrNothing(h, bufferId, KBuffer)
    case SurfaceCommit(id, oversized, _, a1, a2) =>
      Names(h, id, KSurface) && !CommitOutcome(h, h.reg[id].data, oversized).ReadsNull? && a1 != a2 && a1 != NULL &&
        a2 != NULL && a1 !in h.cbs && a2 !in h.cbs
    case SurfaceFrame(id, callbackId) => Names(h, id, KSurface) && callbackId != 0
    case Feedback(id, feedbackId, a) => NamesOrNothing(h, id, KSurface) && feedbackId != 0 && a != NULL && a !in h.cbs
    case SurfaceDestroy(id) => Names(h, id, KSurface)
    case GetSubsurface(id, surfaceId, parentId, p) => id != 0 && NamesOrNothing(h, surfaceId, KSurface) &&
      NamesOrNothing(h, parentId, KSurface) && Unused(h, p)
    case SubsurfaceDestroy(id) => Names(h, id, KSubsurface)
    case SetSync(id, _, rank) =>
      Names(h, id, KSubsurface) && SceneQuads.Ranked(h.mem, rank) &&
      SubsurfaceSync.AllNested(h.mem, SubsurfaceSync.Family(h.mem, rank, h.reg[id].data))
    case GetViewport(id, surfaceId, p) => id != 0 && NamesOrNothing(h, surfaceId, KSurface) && Unused(h, p)
    case ViewportDestroy(id) => Names(h, id, KViewport)
    case GetXdgSurface(id, surfaceId, p) =>
      id != 0 && NamesOrNothing(h, surfaceId, KSurface) && Unused(h, p) &&
      (surfaceId in h.reg ==> Target(h, At(h.reg[surfaceId].data, SurfaceXdg)) == NULL)
    case XdgSurfaceDestroy(id) => Names(h, id, KXdgSurface)
    case GetToplevel(id, xdgId) => id != 0 && Names(h, xdgId, KXdgSurface) &&
      (id in h.reg || HasSurface(h, h.reg[xdgId].data))
    case ToplevelDestroy(id) => Names(h, id, KToplevel)
    case Watch(o, a) => o != 0 && a != NULL && a !in h.cbs
    case Flip(_) => true
    case WindowAdd(n) => n !in h.scene
    case WindowUpdate(n, s, rank) => n in h.scene && (s != NULL ==> s in h.mem && h.mem[s].body.Surface?) &&
      SceneQuads.Ranked(h.mem, rank)
    case WindowRemove(n) => n in h.scene
  }

  // ---------------------------------------------------------------- what a step does

  /** All that a step can change: the heap, the outputs' callback lists and the events sent so far. */
  datatype State = State(h: Heap, lists: map<OutputId, seq<Ptr>>, sent: seq<Event>)

  ghost predicate Sound(a: State) {
    Inv(a.h) && ListsOk(a.lists, a.h.cbs) && SceneQuads.SceneOk(a.h.scene)
  }

  /** Only blocks and registry entries differ. */
  predicate OnlyObjects(a: State, b: State) { b == a.(h := a.h.(mem := b.h.mem, reg := b.h.reg)) }

  /** Only blocks and registry entries differ, and the client has heard that id is free. */
  predicate OnlyDeletes(a: State, b: State, id: Id) {
    b == a.(h := a.h.(mem := b.h.mem, reg := b.h.reg), sent := a.sent + DeletedId(id))
  }

  ghost predicate BufferEffect(a: State, t: Step, b: State) {
    match t
    case CreatePool(id, pool, mapped) =>
      if id !in a.h.reg && mapped
      then b == a.(h := a.h.(mem := a.h.mem[pool := Block(1, Pool)], reg := a.h.reg[id := Object(KPool, pool)]))
      else b == a
    case PoolDestroy(id) => OnlyDeletes(a, b, id) && BufferObjects.PoolDestroyed(a.h, b.h, id)
    case CreateBuffer(poolId, id, buf, pixels, valid) =>
      if id !in a.h.reg && valid then OnlyObjects(a, b) &&
        BufferObjects.BufferCreated(a.h, b.h, poolId, id, buf, pixels) else b == a
    case BufferDestroy(id) => OnlyDeletes(a, b, id) && BufferObjects.BufferDestroyed(a.h, b.h, id)
    case _ => true
  }

  predicate FeedbackAccepted(h: Heap, id: Id, feedbackId: Id) {
    feedbackId !in h.reg && id in h.reg && |Feedbacks(h, h.reg[id].data)| < MAX_FRAMES
  }

  ghost predicate SurfaceEffect(a: State, t: Step, b: State) {
    match t
    case CreateSurface(id, s) =>
      if id !in a.h.reg
      then b == a.(h := a.h.(mem := a.h.mem[s := Block(1, Surfaces.FreshSurface(id))],
        reg := a.h.reg[id := Object(KSurface, s)]))
      else b == a
    case SurfaceAttach(id, badOffset, bufferId) =>
      if !badOffset && (bufferId == 0 || bufferId in a.h.reg)
      then OnlyObjects(a, b) && b.h.reg == a.h.reg && id in a.h.reg &&
        Surfaces.Attached(a.h, b.h, a.h.reg[id].data, Target(a.h, Reg(bufferId)))
      else b == a
    case SurfaceCommit(id, oversized, focused, a1, a2) =>
      id in a.h.reg && var s := a.h.reg[id].data;
      if CommitOutcome(a.h, s, oversized) == Status(0)
      then
        && Committed(a.h, b.h, s, focused, a1, a2)
        && b.lists == CommittedLists(a.h, a.lists, s, a1, a2) && b.sent == a.sent + ReleaseNow(a.h, s)
      else b == a
    case SurfaceFrame(id, callbackId) =>
      if Accepted(a.h, t) then OnlyObjects(a, b) && FrameRequests.FrameQueued(a.h, b.h, id, callbackId) else b == a
    case Feedback(id, feedbackId, x) =>
      b.sent == a.sent && b.h.scene == a.h.scene &&
      if FeedbackAccepted(a.h, id, feedbackId)
      then FrameRequests.FeedbackQueued(a.h, b.h, id, feedbackId, x) &&
        b.lists == FrameRequests.FeedbackLists(a.h, a.lists, id, x)
      else b == a
    case SurfaceDestroy(id) =>
      && SurfaceDestroy.SurfaceDestroyed(a.h, b.h, id) && b.h.scene == a.h.scene
      && b.lists == SurfaceDestroy.DestroyedLists(a.h, a.lists, a.h.reg[id].data)
      && b.sent == a.sent + SurfaceDestroy.DiscardEvents(a.h.mem[a.h.reg[id].data].body.feedbacks) + DeletedId(id)
    case _ => true
  }

  ghost predicate LinkEffect(a: State, t: Step, b: State) {
    match t
    case GetSubsurface(id, surfaceId, parentId, p) =>
      if && id !in a.h.reg && surfaceId in a.h.reg && parentId in a.h.reg
         && a.h.reg[surfaceId].data != a.h.reg[parentId].data &&
           SubsurfaceLinks.RoleOf(a.h, a.h.reg[surfaceId].data) == NoRole
      then OnlyObjects(a, b) &&
        SubsurfaceLinks.SubsurfaceLinked(a.h, b.h, a.h.reg[surfaceId].data, a.h.reg[parentId].data, p, id)
      else b == a
    case SubsurfaceDestroy(id) =>
      && OnlyDeletes(a, b, id) && SatelliteDestroyed(a.h, b.h, id)
      && SubsurfaceLinks.SurfaceReleased(a.h, b.h, Target(a.h, At(a.h.reg[id].data, SubsurfaceSurface)))
    case SetSync(id, sync, rank) =>
      && SceneQuads.Ranked(a.h.mem, rank) && id in a.h.reg
      && var family := SubsurfaceSync.Family(a.h.mem, rank, a.h.reg[id].data);
      b == a.(h := a.h.(mem := SubsurfaceSync.WithSync(a.h.mem, family, sync)))
    case GetViewport(id, surfaceId, p) =>
      if id !in a.h.reg && surfaceId in a.h.reg && Target(a.h, At(a.h.reg[surfaceId].data, SurfaceViewport)) == NULL
      then OnlyObjects(a, b) && Viewporter.ViewportLinked(a.h, b.h, id, surfaceId, p)
      else b == a
    case ViewportDestroy(id) => OnlyDeletes(a, b, id) && SatelliteDestroyed(a.h, b.h, id) && RolesKept(a.h, b.h)
    case GetXdgSurface(id, surfaceId, p) =>
      if id !in a.h.reg && surfaceId in a.h.reg
      then OnlyObjects(a, b) && XdgShell.XdgSurfaceLinked(a.h, b.h, id, surfaceId, p)
      else b == a
    case XdgSurfaceDestroy(id) => OnlyDeletes(a, b, id) && XdgShell.XdgSurfaceDestroyed(a.h, b.h, id)
    case GetToplevel(id, xdgId) =>
      if id !in a.h.reg && xdgId in a.h.reg && XdgShell.RoleOfXdg(a.h, a.h.reg[xdgId].data) == NoRole
      then OnlyObjects(a, b) && XdgShell.ToplevelCreated(a.h, b.h, xdgId, id)
      else b == a
    case ToplevelDestroy(id) => OnlyDeletes(a, b, id) && XdgShell.ToplevelDestroyed(a.h, b.h, id)
    case _ => true
  }

  /** What a completed flip of output o does. */
  ghost predicate FlipEffect(a: State, o: OutputId, b: State) {
    && b.h.scene == a.h.scene
    && b.sent == a.sent + FlipEvents(a.h, ListOf(a.lists, o))
    && ListOf(b.lists, o) == Staying(a.h.cbs, ListOf(a.lists, o))
    && (forall p :: p != o ==> ListOf(b.lists, p) == ListOf(a.lists, p))
    && (forall x :: x in b.h.cbs <==> x in a.h.cbs && (a.h.cbs[x].output == o ==> a.h.cbs[x].listener == Redraw))
    && (forall x :: x in b.h.cbs ==> b.h.cbs[x] == a.h.cbs[x])
    && (forall x :: x in ListOf(a.lists, o) ==> AnswersDone(a.h, b.h, x))
    && Settled(a.h.reg, b.h.reg, FlipEvents(a.h, ListOf(a.lists, o)))
    && QueuesTold(a.h, b.h, ListOf(a.lists, o)) && StructureKept(a.h.mem, b.h.mem)
    && Tallied(a.h.reg, b.h.reg, FlipEvents(a.h, ListOf(a.lists, o))) && FeedbacksTold(a.h, b.h, ListOf(a.lists, o))
  }

  ghost predicate SceneEffect(a: State, t: Step, b: State) {
    match t
    case Watch(o, x) =>
      b == a.(h := a.h.(cbs := a.h.cbs[x := Callback(Redraw, NULL, o)]),
        lists := a.lists[o := ListOf(a.lists, o) + [x]])
    case WindowAdd(n) => b == a.(h := a.h.(scene := a.h.scene[n := []]))
    case WindowUpdate(n, s, rank) =>
      && b == a.(h := a.h.(mem := b.h.mem, scene := b.h.scene)) && SceneQuads.PixelsOnly(a.h, b.h)
      && SceneQuads.Ranked(a.h.mem, rank) && b.h.scene == a.h.scene[n := SceneQuads.Painted(a.h.mem, rank, s)]
    case WindowRemove(n) =>
      b == a.(h := a.h.(mem := b.h.mem, scene := a.h.scene - {n})) && SceneQuads.PixelsOnly(a.h, b.h)
    case Flip(o) => FlipEffect(a, o, b)
    case _ => true
  }

  ghost predicate Effect(a: State, t: Step, b: State) {
    BufferEffect(a, t, b) && SurfaceEffect(a, t, b) && LinkEffect(a, t, b) && SceneEffect(a, t, b)
  }

  // ---------------------------------------------------------------- what a step does to waiting clients

  /** Is t a frame request that the compositor accepts? */
  predicate Accepted(h: Heap, t: Step) {
    t.SurfaceFrame? && t.callbackId !in h.reg && t.id in h.reg && |Frames(h, h.reg[t.id].data)| < MAX_FRAMES
  }

  /** What t adds to the queue of surface s. */
  function AskedNow(h: Heap, t: Step, s: Ptr): seq<Id> {
    if Accepted(h, t) && h.reg[t.id].data == s then [t.callbackId] else []
  }

  /** Exactly the accepted id becomes awaited, and exactly the ids told done stop being so. */
  ghost predicate Accounted(h: Heap, h': Heap, t: Step, news: seq<Event>) {
    forall id ::
      Awaited(h'.reg, id) + Dones(news, id) == Awaited(h.reg, id) + Is(Accepted(h, t) && t.callbackId == id)
  }

  predicate Destroys(h: Heap, t: Step, s: Ptr) {
    t.SurfaceDestroy? && t.id in h.reg && h.reg[t.id].data == s
  }

  /** Is t a flip of the output that x listens to? */
  predicate Flips(h: Heap, t: Step, x: Ptr) { t.Flip? && x in h.cbs && h.cbs[x].output == t.o }

  /** A frame listener stays listed until its output flips or its surface is destroyed. */
  predicate ListenersStay(h: Heap, h': Heap, t: Step) {
    forall x :: x in h.cbs && h.cbs[x].listener == FramesDone ==>
      (x in h'.cbs && h'.cbs[x] == h.cbs[x]) || Flips(h, t, x) || Destroys(h, t, h.cbs[x].userdata)
  }

  /** A queue of waiting frames gets exactly the accepted request, at its end, until a flip answers it
      or its surface is destroyed. */
  ghost predicate QueuesStay(h: Heap, h': Heap, t: Step) {
    forall s ::
      || Frames(h', s) == Frames(h, s) + AskedNow(h, t, s)
      || Destroys(h, t, s)
      || exists x :: Tells(h, x, s) && Flips(h, t, x)
  }

  predicate NoDone(news: seq<Event>) { forall k :: 0 <= k < |news| ==> !news[k].Done? }

  /** What every effect comes to for the clients that wait. */
  ghost predicate Stepped(a: State, t: Step, b: State) {
    && a.sent <= b.sent
    && (!t.Flip? ==> NoDone(b.sent[|a.sent|..]))
    && Accounted(a.h, b.h, t, b.sent[|a.sent|..])
    && ListenersStay(a.h, b.h, t) && QueuesStay(a.h, b.h, t)
  }

  lemma {:induction false} NoDonesCounted(news: seq<Event>, id: Id)
    requires NoDone(news)
    ensures Dones(news, id) == 0
  {
    if news != [] { NoDonesCounted(news[..|news| - 1], id); }
  }

  /** No queue changes. */
  predicate FramesKept(h: Heap, h': Heap) {
    && (forall s :: s in h.mem && h.mem[s].body.Surface? ==>
          s in h'.mem && h'.mem[s].body.Surface? && h.mem[s].body.frames == h'.mem[s].body.frames)
    && (forall s :: s in h'.mem && h'.mem[s].body.Surface? && !(s in h.mem && h.mem[s].body.Surface?) ==>
      h'.mem[s].body.frames == [])
  }

  /** Steps after which every queue, every listener and every waiting callback is as before. */
  ghost predicate Ordinary(a: State, b: State) {
    && (forall id :: Awaited(b.h.reg, id) == Awaited(a.h.reg, id))
    && a.sent <= b.sent && NoDone(b.sent[|a.sent|..]) && FramesKept(a.h, b.h)
    && forall x :: x in a.h.cbs ==> x in b.h.cbs && b.h.cbs[x] == a.h.cbs[x]
  }

  lemma OrdinaryStep(a: State, t: Step, b: State)
    requires Ordinary(a, b) && !t.SurfaceFrame? && !t.Flip?
    ensures Stepped(a, t, b)
  {
    forall id ensures Dones(b.sent[|a.sent|..], id) == 0 { NoDonesCounted(b.sent[|a.sent|..], id); }
    forall s ensures Frames(b.h, s) == Frames(a.h, s) + AskedNow(a.h, t, s) { }
  }

  lemma DataIs(h: Heap, id: Id)
    requires CoreInv(h) && id in h.reg && !NoData(h.reg[id].kind)
    ensures h.reg[id].data in h.mem && KindFits(h.reg[id].kind, h.mem[h.reg[id].data].body)
  {
  }

  predicate IsBufferStep(t: Step) { t.CreatePool? || t.PoolDestroy? || t.CreateBuffer? || t.BufferDestroy? }

  lemma BufferStepped(a: State, t: Step, b: State)
    requires Sound(a) && Admissible(a.h, t) && BufferEffect(a, t, b) && IsBufferStep(t)
    ensures Ordinary(a, b)
  {
    hide Inv, Target, ListsOk, Ordinary, BufferObjects.PoolDestroyed, BufferObjects.BufferCreated;
    hide BufferObjects.BufferDestroyed;
    match t {
      case CreatePool(id, pool, mapped) => PoolOrdinary(a, b, id, pool, mapped);
      case PoolDestroy(id) => PoolDestroyOrdinary(a, b, id);
      case CreateBuffer(poolId, id, buf, pixels, valid) => BufferOrdinary(a, b, poolId, id, buf, pixels);
      case BufferDestroy(id) => BufferDestroyOrdinary(a, b, id);
    }
  }

  lemma PoolOrdinary(a: State, b: State, id: Id, pool: Ptr, mapped: bool)
    requires Unused(a.h, pool) && BufferEffect(a, CreatePool(id, pool, mapped), b)
    ensures Ordinary(a, b)
  {
  }

  lemma PoolDestroyOrdinary(a: State, b: State, id: Id)
    requires Sound(a) && Names(a.h, id, KPool) && OnlyDeletes(a, b, id) && BufferObjects.PoolDestroyed(a.h, b.h, id)
    ensures Ordinary(a, b)
  {
    hide CoreInv, Balanced, Target, ListsOk;
    DataIs(a.h, id);
    assert forall q :: q in a.h.mem && q != a.h.reg[id].data ==> q in b.h.mem.Keys - {a.h.reg[id].data};
  }

  lemma BufferOrdinary(a: State, b: State, poolId: Id, id: Id, buf: Ptr, pixels: Ptr)
    requires Unused(a.h, buf) && Unused(a.h, pixels) && buf != pixels
    requires b == a || (OnlyObjects(a, b) && id !in a.h.reg &&
      BufferObjects.BufferCreated(a.h, b.h, poolId, id, buf, pixels))
    ensures Ordinary(a, b)
  {
    hide Target;
    if b == a { SameOrdinary(a); }
  }

  lemma BufferDestroyOrdinary(a: State, b: State, id: Id)
    requires Sound(a) && Names(a.h, id, KBuffer) && OnlyDeletes(a, b, id) && BufferObjects.BufferDestroyed(a.h, b.h, id)
    ensures Ordinary(a, b)
  {
    hide CoreInv, Balanced, Target, ListsOk, Owns;
    DataIs(a.h, id);
  }

  predicate IsSurfaceStep(t: Step) { t.CreateSurface? || t.SurfaceAttach? || t.Feedback? || t.SurfaceCommit? }

  lemma SurfaceStepped(a: State, t: Step, b: State)
    requires Sound(a) && Admissible(a.h, t) && SurfaceEffect(a, t, b) && IsSurfaceStep(t)
    ensures Ordinary(a, b)
  {
    hide Inv, Target, ListsOk, CommitOutcome, ReleaseNow, ArmsRelease, Ordinary, Surfaces.Attached, Committed;
    match t {
      case CreateSurface(id, s) => CreatedOrdinary(a, b, id, s);
      case SurfaceAttach(id, _, bufferId) =>
        AttachOrdinary(a, b, a.h.reg[id].data, Target(a.h, Reg(bufferId)));
      case SurfaceCommit(id, oversized, focused, a1, a2) =>
        if CommitOutcome(a.h, a.h.reg[id].data, oversized) == Status(0) {
          CommitOrdinary(a, b, a.h.reg[id].data, focused, a1, a2);
        } else {
          SameOrdinary(a);
        }
      case Feedback(id, feedbackId, x) => FeedbackOrdinary(a, b, id, feedbackId, x);
    }
  }

  lemma SameOrdinary(a: State)
    ensures Ordinary(a, a)
  {
  }

  lemma CreatedOrdinary(a: State, b: State, id: Id, s: Ptr)
    requires Unused(a.h, s) && SurfaceEffect(a, CreateSurface(id, s), b)
    ensures Ordinary(a, b)
  {
  }

  lemma AttachOrdinary(a: State, b: State, s: Ptr, buffer: Ptr)
    requires Sound(a) && (b == a || (OnlyObjects(a, b) && b.h.reg == a.h.reg && Surfaces.Attached(a.h, b.h, s, buffer)))
    ensures Ordinary(a, b)
  {
    hide CoreInv, Balanced, Target, ListsOk;
    NoNullBlock(a.h);
    if b != a { Surfaces.ActiveIsBuffer(a.h, s); }
  }

  lemma CommitOrdinary(a: State, b: State, s: Ptr, focused: OutputId, a1: Ptr, a2: Ptr)
    requires Sound(a) && Committed(a.h, b.h, s, focused, a1, a2) && b.sent == a.sent + ReleaseNow(a.h, s)
    requires a1 !in a.h.cbs && a2 !in a.h.cbs
    ensures Ordinary(a, b)
  {
    hide CoreInv, Balanced, Target, ListsOk, ReleaseNow, ArmsRelease;
    NoNullBlock(a.h);
    Surfaces.ActiveIsBuffer(a.h, s);
    NoReleaseDone(a.h, s);
  }

  lemma FeedbackOrdinary(a: State, b: State, id: Id, feedbackId: Id, x: Ptr)
    requires SurfaceEffect(a, Feedback(id, feedbackId, x), b) && x !in a.h.cbs
    ensures Ordinary(a, b)
  {
  }

  lemma NoReleaseDone(h: Heap, s: Ptr)
    ensures NoDone(ReleaseNow(h, s))
  {
  }

  predicate IsLinkStep(t: Step) {
    || t.GetSubsurface? || t.SubsurfaceDestroy? || t.GetViewport? || t.ViewportDestroy?
    || t.SetSync? || t.GetXdgSurface? || t.XdgSurfaceDestroy? || t.GetToplevel? || t.ToplevelDestroy?
  }

  lemma LinkStepped(a: State, t: Step, b: State)
    requires Sound(a) && Admissible(a.h, t) && LinkEffect(a, t, b) && IsLinkStep(t)
    ensures Ordinary(a, b)
  {
    hide CoreInv, Balanced, ListsOk, Erased, Weakens, FramesKept, Ordinary, SubsurfaceSync.WithSync, SceneQuads.Ranked;
    hide SubsurfaceLinks.SubsurfaceLinked, Viewporter.ViewportLinked, XdgShell.XdgSurfaceLinked;
    hide XdgShell.ToplevelCreated;
    match t {
      case SubsurfaceDestroy(id) => UnlinkOrdinary(a, b, id);
      case ViewportDestroy(id) => UnlinkOrdinary(a, b, id);
      case XdgSurfaceDestroy(id) => UnlinkOrdinary(a, b, id);
      case ToplevelDestroy(id) => UnlinkOrdinary(a, b, id);
      case GetSubsurface(id, _, _, p) => SubsurfaceOrdinary(a, t, b);
      case GetViewport(id, surfaceId, p) => ViewportOrdinary(a, b, id, surfaceId, p);
      case GetXdgSurface(id, surfaceId, p) => XdgSurfaceOrdinary(a, b, id, surfaceId, p);
      case GetToplevel(id, xdgId) => ToplevelOrdinary(a, b, id, xdgId);
      case SetSync(id, sync, rank) => SyncOrdinary(a, b, SubsurfaceSync.Family(a.h.mem, rank, a.h.reg[id].data), sync);
    }
  }

  lemma UnlinkOrdinary(a: State, b: State, id: Id)
    requires CoreInv(a.h) && OnlyDeletes(a, b, id) && id in a.h.reg && b.h.reg == a.h.reg - {id} && Weakens(a.h, b.h)
    requires !NoData(a.h.reg[id].kind) && a.h.reg[id].kind != KSurface
    requires var x := a.h.reg[id].data; b.h.mem.Keys - {x} == a.h.mem.Keys - {x}
    ensures Ordinary(a, b)
  {
    hide CoreInv, Weakens, FramesKept;
    DataIs(a.h, id);
    WeakenedFrames(a.h, b.h, a.h.reg[id].data);
  }

  lemma SubsurfaceOrdinary(a: State, t: Step, b: State)
    requires t.GetSubsurface? && LinkEffect(a, t, b) && Unused(a.h, t.p)
    ensures Ordinary(a, b)
  {
    hide Target, FramesKept;
    if b == a { SameOrdinary(a); } else { LinkedFrames(a.h, b.h, t.p); }
  }

  lemma ViewportOrdinary(a: State, b: State, id: Id, surfaceId: Id, p: Ptr)
    requires b == a || (OnlyObjects(a, b) && id !in a.h.reg && Unused(a.h, p) &&
      Viewporter.ViewportLinked(a.h, b.h, id, surfaceId, p))
    ensures Ordinary(a, b)
  {
    hide Target, FramesKept;
    if b == a { SameOrdinary(a); } else { LinkedFrames(a.h, b.h, p); }
  }

  lemma XdgSurfaceOrdinary(a: State, b: State, id: Id, surfaceId: Id, p: Ptr)
    requires b == a || (OnlyObjects(a, b) && id !in a.h.reg && Unused(a.h, p) &&
      XdgShell.XdgSurfaceLinked(a.h, b.h, id, surfaceId, p))
    ensures Ordinary(a, b)
  {
    hide Target, FramesKept;
    if b == a { SameOrdinary(a); } else { LinkedFrames(a.h, b.h, p); }
  }

  lemma ToplevelOrdinary(a: State, b: State, id: Id, xdgId: Id)
    requires b == a || (OnlyObjects(a, b) && id !in a.h.reg && XdgShell.ToplevelCreated(a.h, b.h, xdgId, id))
    ensures Ordinary(a, b)
  {
    hide Target, FramesKept;
    if b == a { SameOrdinary(a); } else { ToplevelFrames(a.h, b.h); }
  }

  lemma SyncOrdinary(a: State, b: State, family: set<Ptr>, sync: bool)
    requires b == a.(h := a.h.(mem := SubsurfaceSync.WithSync(a.h.mem, family, sync)))
    ensures Ordinary(a, b)
  {
    hide FramesKept, SubsurfaceSync.WithSync;
    SyncFrames(a.h, b.h, family, sync);
  }

  lemma WeakenedFrames(h: Heap, h': Heap, x: Ptr)
    requires Weakens(h, h') && x in h.mem && !h.mem[x].body.Surface? && h'.mem.Keys - {x} == h.mem.Keys - {x}
    ensures FramesKept(h, h')
  {
    assert forall q :: q in h.mem && q != x ==> q in h'.mem.Keys - {x};
  }

  lemma LinkedFrames(h: Heap, h': Heap, p: Ptr)
    requires p !in h.mem && p in h'.mem && !h'.mem[p].body.Surface? && h'.mem.Keys <= h.mem.Keys + {p}
    requires forall q :: q in h.mem ==> q in h'.mem && SameButLinks(h.mem[q].body, h'.mem[q].body)
    ensures FramesKept(h, h')
  {
  }

  lemma SyncFrames(h: Heap, h': Heap, family: set<Ptr>, sync: bool)
    requires h'.mem == SubsurfaceSync.WithSync(h.mem, family, sync)
    ensures FramesKept(h, h')
  {
  }

  lemma ToplevelFrames(h: Heap, h': Heap)
    requires h'.mem.Keys == h.mem.Keys && forall q :: q in h.mem ==> XdgShell.SameButRole(h.mem[q].body, h'.mem[q].body)
    ensures FramesKept(h, h')
  {
  }

  predicate IsSceneStep(t: Step) { t.Watch? || t.WindowAdd? || t.WindowUpdate? || t.WindowRemove? }

  lemma SceneStepped(a: State, t: Step, b: State)
    requires Admissible(a.h, t) && SceneEffect(a, t, b) && IsSceneStep(t)
    ensures Ordinary(a, b)
  {
    hide SceneQuads.Ranked;
  }

  lemma FrameStepped(a: State, t: Step, b: State)
    requires SurfaceEffect(a, t, b) && t.SurfaceFrame?
    ensures Stepped(a, t, b)
  {
    assert b.sent[|a.sent|..] == [];
  }

  lemma DestroyStepped(a: State, t: Step, b: State)
    requires Sound(a) && Admissible(a.h, t) && SurfaceEffect(a, t, b) && t.SurfaceDestroy?
    ensures Stepped(a, t, b)
  {
    hide Balanced, Erased, Target, ListsOk, ListenersStay, QueuesStay, CoreInv;
    DataIs(a.h, t.id);
    assert NoDone(b.sent[|a.sent|..]);
    forall id ensures Dones(b.sent[|a.sent|..], id) == 0 { NoDonesCounted(b.sent[|a.sent|..], id); }
    DestroyedListeners(a.h, b.h, t);
    DestroyedQueues(a.h, b.h, t);
  }

  lemma DestroyedListeners(h: Heap, h': Heap, t: Step)
    requires CoreInv(h) && t.SurfaceDestroy? && SurfaceDestroy.SurfaceDestroyed(h, h', t.id)
    ensures ListenersStay(h, h', t)
  {
    hide Erased, Target, Typed, Mutual, Registered, Named, Roles, Waiting, WellFormedBodies;
    SurfaceDestroy.SurfaceListens(h, h.reg[t.id].data);
    forall x | x in h.cbs && h.cbs[x].listener == FramesDone
      ensures (x in h'.cbs && h'.cbs[x] == h.cbs[x]) || h.cbs[x].userdata == h.reg[t.id].data
    {
      assert CallbackOk(h, x, h.cbs[x]);
    }
  }

  lemma DestroyedQueues(h: Heap, h': Heap, t: Step)
    requires t.SurfaceDestroy? && SurfaceDestroy.SurfaceDestroyed(h, h', t.id)
    ensures QueuesStay(h, h', t)
  {
    hide Erased, Target;
    forall s | s != h.reg[t.id].data ensures Frames(h', s) == Frames(h, s) + AskedNow(h, t, s) { }
  }

  lemma FlipStepped(a: State, t: Step, b: State)
    requires Sound(a) && t.Flip? && FlipEffect(a, t.o, b)
    ensures Stepped(a, t, b)
  {
    hide Inv, Staying, FlipEvents, AnswersDone, Dones, Awaited, Frames, Tallied, FeedbacksTold, StructureKept;
    assert b.sent[|a.sent|..] == FlipEvents(a.h, ListOf(a.lists, t.o));
    forall s | Frames(b.h, s) != Frames(a.h, s) ensures exists x :: Tells(a.h, x, s) && Flips(a.h, t, x) {
      var x :| x in ListOf(a.lists, t.o) && Tells(a.h, x, s);
      assert Flips(a.h, t, x);
    }
    forall s ensures Frames(a.h, s) + AskedNow(a.h, t, s) == Frames(a.h, s) { }
  }

  lemma EffectStepped(a: State, t: Step, b: State)
    requires Sound(a) && Admissible(a.h, t) && Effect(a, t, b)
    ensures Stepped(a, t, b)
  {
    hide Sound, Admissible, Stepped, Ordinary, FlipEffect, BufferEffect, SurfaceEffect, LinkEffect;
    if IsBufferStep(t) {
      BufferStepped(a, t, b);
      OrdinaryStep(a, t, b);
    } else if IsSurfaceStep(t) {
      SurfaceStepped(a, t, b);
      OrdinaryStep(a, t, b);
    } else if IsLinkStep(t) {
      LinkStepped(a, t, b);
      OrdinaryStep(a, t, b);
    } else if IsSceneStep(t) {
      SceneStepped(a, t, b);
      OrdinaryStep(a, t, b);
    } else if t.SurfaceFrame? {
      FrameStepped(a, t, b);
    } else if t.SurfaceDestroy? {
      DestroyStepped(a, t, b);
    } else {
      FlipStepped(a, t, b);
    }
  }
}
