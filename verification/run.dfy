/** Whole runs: any sequence of requests of one client, page flips and scene updates, in any order. */
module Runs {
  import opened Memory
  import opened Invariant
  import opened Erasure
  import opened ClientState
  import opened Commits
  import opened PageFlips
  import opened Steps
  import opened Traces
  import BufferObjects
  import Surfaces
  import SubsurfaceLinks
  import SubsurfaceSync
  import Viewporter
  import XdgShell
  import FrameRequests
  import SurfaceDestroy
  import SceneQuads

  ghost function Now(c: Client): State
    reads c
  {
    State(c.H(), c.lists, c.sent)
  }

  // ---------------------------------------------------------------- one step

  method BufferStep(c: Client, t: Step)
    requires Sound(Now(c)) && Admissible(c.H(), t) && IsBufferStep(t)
    modifies c`mem, c`reg, c`sent
    ensures Sound(Now(c)) && Effect(old(Now(c)), t, Now(c))
  {
    hide Inv, Target, ListsOk, BufferObjects.PoolDestroyed, BufferObjects.BufferCreated, BufferObjects.BufferDestroyed;
    match t {
      case CreatePool(id, pool, mapped) =>
        var _ := BufferObjects.WlShmCreatePool(c, id, pool, mapped);
      case PoolDestroy(id) =>
        BufferObjects.WlShmPoolDestroy(c, id);
      case CreateBuffer(poolId, id, buf, pixels, valid) =>
        var _ := BufferObjects.WlShmPoolCreateBuffer(c, poolId, id, buf, pixels, valid);
      case BufferDestroy(id) =>
        BufferObjects.WlBufferDestroy(c, id);
    }
  }

  method SurfaceStep(c: Client, t: Step)
    requires Sound(Now(c)) && Admissible(c.H(), t)
    requires (t.CreateSurface? || t.SurfaceAttach? || t.Feedback? || t.SurfaceFrame?)
    modifies c`mem, c`reg, c`cbs, c`lists
    ensures Sound(Now(c)) && Effect(old(Now(c)), t, Now(c))
  {
    hide Inv, Target, ListsOk, Surfaces.Attached, FrameRequests.FeedbackQueued, FrameRequests.FrameQueued;
    match t {
      case CreateSurface(id, s) =>
        var _ := Surfaces.WlCompositorCreateSurface(c, id, s);
      case SurfaceAttach(id, badOffset, bufferId) =>
        var _ := Surfaces.WlSurfaceAttach(c, id, badOffset, bufferId);
      case SurfaceFrame(id, callbackId) =>
        var _ := FrameRequests.WlSurfaceFrame(c, id, callbackId);
      case Feedback(id, feedbackId, a) =>
        var _ := FrameRequests.WpPresentationFeedback(c, id, feedbackId, a);
    }
  }

  method CommitStep(c: Client, t: Step)
    requires Sound(Now(c)) && Admissible(c.H(), t) && t.SurfaceCommit?
    modifies c`mem, c`cbs, c`lists, c`sent
    ensures Sound(Now(c)) && Effect(old(Now(c)), t, Now(c))
  {
    hide Inv, Target, ListsOk, Committed, CommitOutcome, ReleaseNow;
    var status := WlSurfaceCommit(c, t.id, t.oversized, t.focused, t.a1, t.a2);
    assert status == 0 <==> Status(status) == Status(0);
  }

  method DestroyStep(c: Client, t: Step)
    requires Sound(Now(c)) && Admissible(c.H(), t) && t.SurfaceDestroy?
    modifies c`mem, c`reg, c`cbs, c`lists, c`sent
    ensures Sound(Now(c)) && Effect(old(Now(c)), t, Now(c))
  {
    hide Inv, Target, ListsOk, SurfaceDestroy.DiscardEvents, Erased;
    SurfaceDestroy.WlSurfaceDestroy(c, t.id);
  }

  method LinkStep(c: Client, t: Step)
    requires Sound(Now(c)) && Admissible(c.H(), t)
    requires (t.GetSubsurface? || t.GetViewport? || t.GetXdgSurface? || t.GetToplevel?)
    modifies c`mem, c`reg
    ensures Sound(Now(c)) && Effect(old(Now(c)), t, Now(c))
  {
    hide Inv, ListsOk, SubsurfaceLinks.SubsurfaceLinked, Viewporter.ViewportLinked, XdgShell.XdgSurfaceLinked;
    hide XdgShell.ToplevelCreated;
    match t {
      case GetSubsurface(id, surfaceId, parentId, p) =>
        var _ := SubsurfaceLinks.WlSubcompositorGetSubsurface(c, id, surfaceId, parentId, p);
      case GetViewport(id, surfaceId, p) =>
        if surfaceId in c.reg { SurfaceIs(c.H(), surfaceId); }
        var _ := Viewporter.WpViewporterGetViewport(c, id, surfaceId, p);
      case GetXdgSurface(id, surfaceId, p) =>
        var _ := XdgShell.XdgWmBaseGetXdgSurface(c, id, surfaceId, p);
      case GetToplevel(id, xdgId) =>
        var _ := XdgShell.XdgSurfaceGetToplevel(c, xdgId, id);
    }
  }

  method SyncStep(c: Client, t: Step)
    requires Sound(Now(c)) && Admissible(c.H(), t) && t.SetSync?
    modifies c`mem
    ensures Sound(Now(c)) && Effect(old(Now(c)), t, Now(c))
  {
    hide Inv, ListsOk, SubsurfaceSync.WithSync, SubsurfaceSync.AllNested, SceneQuads.Ranked;
    SubsurfaceSync.WlSubsurfaceSetSync(c, t.id, t.sync, t.rank);
  }

  lemma SurfaceIs(h: Heap, id: Id)
    requires Inv(h) && id in h.reg && h.reg[id].kind == KSurface
    ensures h.reg[id].data in h.mem && h.mem[h.reg[id].data].body.Surface?
  {
  }

  method UnlinkStep(c: Client, t: Step)
    requires Sound(Now(c)) && Admissible(c.H(), t)
    requires (t.SubsurfaceDestroy? || t.ViewportDestroy? || t.XdgSurfaceDestroy? || t.ToplevelDestroy?)
    modifies c`mem, c`reg, c`sent
    ensures Sound(Now(c)) && Effect(old(Now(c)), t, Now(c))
  {
    hide Inv, Target, ListsOk, SatelliteDestroyed, XdgShell.XdgSurfaceDestroyed, XdgShell.ToplevelDestroyed;
    match t {
      case SubsurfaceDestroy(id) => SubsurfaceLinks.WlSubsurfaceDestroy(c, id);
      case ViewportDestroy(id) => Viewporter.WpViewportDestroy(c, id);
      case XdgSurfaceDestroy(id) => XdgShell.XdgSurfaceDestroy(c, id);
      case ToplevelDestroy(id) => XdgShell.XdgToplevelDestroy(c, id);
    }
  }

  method SceneStep(c: Client, t: Step)
    requires Sound(Now(c)) && Admissible(c.H(), t) && IsSceneStep(t)
    modifies c`mem, c`scene, c`cbs, c`lists
    ensures Sound(Now(c)) && Effect(old(Now(c)), t, Now(c))
  {
    hide CoreInv, Balanced, Target, ListsOk, SceneQuads.Ranked, SceneQuads.Painted, SceneQuads.PixelsOnly;
    ghost var h := c.H();
    match t {
      case Watch(o, a) =>
        ListenKeepsLists(c.lists, c.cbs, a, Callback(Redraw, NULL, o));
        c.Listen(o, Redraw, NULL, a);
        WatchInv(h, c.H(), o, a);
      case WindowAdd(n) =>
        SceneQuads.NodeCreate(c, n);
      case WindowUpdate(n, s, rank) =>
        SceneQuads.NodeUpdate(c, n, s, rank);
      case WindowRemove(n) =>
        SceneQuads.NodeRemove(c, n);
    }
  }

  lemma WatchInv(h: Heap, h': Heap, o: OutputId, a: Ptr)
    requires Inv(h) && a !in h.cbs && a != NULL && o != 0
    requires h'.mem == h.mem && h'.reg == h.reg && h'.cbs == h.cbs[a := Callback(Redraw, NULL, o)]
    requires (forall u :: Target(h', u) == Target(h, u)) && forall q :: q != NULL ==> Extra(h', q) == Extra(h, q)
    ensures Inv(h')
  {
    hide Target, Extra, In, Typed, Mutual, Waiting;
    WatchTyped(h, h');
    WatchWaiting(h, h');
    forall x | x in h'.cbs ensures CallbackOk(h', x, h'.cbs[x]) {
      if x != a { assert CallbackOk(h, x, h.cbs[x]); }
    }
    forall q | q in h'.mem ensures ArmedOk(h', q, h'.mem[q].body) { assert ArmedOk(h, q, h.mem[q].body); }
    assert Roles(h') by { WatchRoles(h, h'); }
  }

  lemma WatchRoles(h: Heap, h': Heap)
    requires Roles(h) && h'.mem == h.mem && h'.reg == h.reg
    ensures Roles(h')
  {
    forall i | i in h'.reg && h'.reg[i].kind == KToplevel ensures ToplevelRoleOk(h', h'.reg[i].data) {
      assert ToplevelRoleOk(h, h.reg[i].data);
    }
  }

  lemma WatchTyped(h: Heap, h': Heap)
    requires Typed(h) && Mutual(h) && h'.mem == h.mem && h'.reg == h.reg && forall u :: Target(h', u) == Target(h, u)
    ensures Typed(h') && Mutual(h')
  {
    hide Target;
    forall u | Target(h', u) in h'.mem ensures Fits(h', u, h'.mem[Target(h', u)].body) {
      assert Fits(h, u, h.mem[Target(h, u)].body);
    }
  }

  lemma WatchWaiting(h: Heap, h': Heap)
    requires Waiting(h) && h'.mem == h.mem && h'.reg == h.reg
    ensures Waiting(h')
  {
    forall q ensures Frames(h', q) == Frames(h, q) && Feedbacks(h', q) == Feedbacks(h, q) { }
  }

  method FlipStep(c: Client, t: Step)
    requires Sound(Now(c)) && t.Flip?
    modifies c`mem, c`reg, c`cbs, c`lists, c`sent
    ensures Sound(Now(c)) && Effect(old(Now(c)), t, Now(c))
  {
    hide Inv, Target, ListsOk, Staying, FlipEvents, AnswersDone, QueuesTold, Settled, StructureKept, Tallied;
    hide FeedbacksTold;
    PageFlip(c, t.o);
  }

  // ---------------------------------------------------------------- runs

  method Take(c: Client, t: Step)
    requires Sound(Now(c)) && Admissible(c.H(), t)
    modifies c
    ensures Sound(Now(c)) && Takes(old(Now(c)), t, Now(c))
  {
    hide Sound, Effect, Admissible;
    if IsBufferStep(t) {
      BufferStep(c, t);
    } else if IsSceneStep(t) {
      SceneStep(c, t);
    } else if t.SurfaceCommit? {
      CommitStep(c, t);
    } else if t.SurfaceDestroy? {
      DestroyStep(c, t);
    } else if t.Flip? {
      FlipStep(c, t);
    } else if t.GetSubsurface? || t.GetViewport? || t.GetXdgSurface? || t.GetToplevel? {
      LinkStep(c, t);
    } else if t.SetSync? {
      SyncStep(c, t);
    } else if IsLinkStep(t) {
      UnlinkStep(c, t);
    } else {
      SurfaceStep(c, t);
    }
  }

  lemma FreshHeap(h: Heap)
    requires h == Heap(map[], NEW_REGISTRY, map[], map[])
    ensures Inv(h)
  {
    forall p | p != NULL ensures Extra(h, p) == 0 {
      assert In(h, p) == {};
    }
  }

  /** Serve a connection from its first request on. The run ends early exactly at the first step the
      compositor could not take. `trace` lists the states it went through. */
  method Serve(steps: seq<Step>) returns (c: Client, taken: nat, ghost trace: seq<State>)
    ensures fresh(c) && taken <= |steps| && (taken < |steps| ==> !Admissible(c.H(), steps[taken]))
    ensures IsRun(steps, trace) && |trace| == taken + 1 && trace[taken] == Now(c)
    ensures forall id :: Requests(Asked(steps, trace, taken), id) == Dones(c.sent, id) + Awaited(c.reg, id)
  {
    hide Inv, Takes, Admissible;
    c := new Client();
    FreshHeap(c.H());
    assert Sound(Now(c));
    hide Sound;
    taken, trace := 0, [Now(c)];
    while taken < |steps| && Admissible(c.H(), steps[taken])
      invariant 0 <= taken <= |steps| && fresh(c)
      invariant IsRun(steps, trace) && |trace| == taken + 1 && trace[taken] == Now(c)
    {
      Take(c, steps[taken]);
      trace := trace + [Now(c)];
      taken := taken + 1;
    }
    forall id ensures Requests(Asked(steps, trace, taken), id) == Dones(c.sent, id) + Awaited(c.reg, id) {
      RequestsAnswered(steps, trace, taken, id);
    }
  }
}
