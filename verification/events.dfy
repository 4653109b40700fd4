/** What becomes of ids over whole runs: an accepted feedback is presented, discarded or forgotten, and the
    client hears once of every id of its own that is free again. */
module ClientEvents {
  import opened ListSpec
  import opened Memory
  import opened Invariant
  import opened Erasure
  import opened Creation
  import opened ClientState
  import opened QuietSteps
  import opened Commits
  import opened PageFlips
  import opened Steps
  import opened Traces
  import opened Accounts
  import BufferObjects
  import Surfaces
  import SubsurfaceLinks
  import SubsurfaceSync
  import Viewporter
  import XdgShell
  import FrameRequests
  import SurfaceDestroy
  import SceneQuads

  // ---------------------------------------------------------------- wl_display.delete_id

  lemma SendsDeleted(x: Id, e: Event)
    ensures Sends(DeletedId(x), e) == Is(x < SERVER_BASE && e == DeleteId(x))
  {
    SendsOne(DeleteId(x), e);
  }

  /** The client is told of exactly those of its ids that leave the registry, and of none of the server's. */
  lemma DeleteStep(a: State, t: Step, b: State, id: Id)
    requires Sound(a) && Takes(a, t, b)
    ensures a.sent <= b.sent
    ensures Sends(Sent(a, b), DeleteId(id)) == Is(id in a.h.reg && id !in b.h.reg && id < SERVER_BASE)
  {
    hide Sound, Takes, Sends;
    if t.Flip? {
      FlipTaken(a, t.o, b);
      FlipDeletes(a, t.o, b, id);
    } else if t.SurfaceDestroy? {
      DestroyDeletes(a, t, b, id);
    } else if t.SurfaceCommit? {
      CommitDeletes(a, t, b, id);
    } else if t.PoolDestroy? || t.BufferDestroy? {
      BufferDeletes(a, t, b);
      SendsDeleted(t.id, DeleteId(id));
    } else if t.SubsurfaceDestroy? || t.ViewportDestroy? || t.XdgSurfaceDestroy? || t.ToplevelDestroy? {
      LinkDeletes(a, t, b);
      SendsDeleted(t.id, DeleteId(id));
    } else {
      NothingSent(a, t, b);
      NoEvents(DeleteId(id));
    }
  }

  lemma FlipDeletes(a: State, o: OutputId, b: State, id: Id)
    requires FlipEffect(a, o, b)
    ensures a.sent <= b.sent
    ensures Sends(Sent(a, b), DeleteId(id)) == Is(id in a.h.reg && id !in b.h.reg && id < SERVER_BASE)
  {
    hide Staying, AnswersDone, QueuesTold, FeedbacksTold, Settled, StructureKept, Sends, FlipEvents;
    assert Sent(a, b) == FlipEvents(a.h, ListOf(a.lists, o));
  }

  lemma DestroyDeletes(a: State, t: Step, b: State, id: Id)
    requires Takes(a, t, b) && t.SurfaceDestroy?
    ensures a.sent <= b.sent && b.h.reg == a.h.reg - {t.id} && t.id in a.h.reg
    ensures Sends(Sent(a, b), DeleteId(id)) == Is(id == t.id && id < SERVER_BASE)
  {
    hide BufferEffect, LinkEffect, SceneEffect, Sends, Erased, RolesKept, SurfaceDestroy.DestroyedLists;
    var first := SurfaceDestroy.DiscardEvents(a.h.mem[a.h.reg[t.id].data].body.feedbacks);
    assert Sent(a, b) == first + DeletedId(t.id);
    SendsAppend(first, DeletedId(t.id), DeleteId(id));
    SendsDeleted(t.id, DeleteId(id));
    if first != [] {
      SendsOne(first[0], DeleteId(id));
    } else {
      assert Sends([], DeleteId(id)) == 0 by { NoEvents(DeleteId(id)); }
    }
  }

  lemma NoEvents(e: Event)
    ensures Sends([], e) == 0
  {
  }

  lemma CommitDeletes(a: State, t: Step, b: State, id: Id)
    requires Takes(a, t, b) && t.SurfaceCommit?
    ensures a.sent <= b.sent && b.h.reg == a.h.reg && Sends(Sent(a, b), DeleteId(id)) == 0
    ensures Sends(Sent(a, b), PresentedTo(id)) == 0 && Sends(Sent(a, b), Discarded(id)) == 0
  {
    if a != b {
      CommitTaken(a, t, b);
      assert Sent(a, b) == ReleaseNow(a.h, a.h.reg[t.id].data);
      hide Takes, CommitOutcome, OthersKept;
    }
  }

  lemma BufferDeletes(a: State, t: Step, b: State)
    requires Takes(a, t, b) && (t.PoolDestroy? || t.BufferDestroy?)
    ensures a.sent <= b.sent && Sent(a, b) == DeletedId(t.id) && t.id in a.h.reg && b.h.reg == a.h.reg - {t.id}
  {
    hide SurfaceEffect, LinkEffect, SceneEffect, Target;
  }

  lemma LinkDeletes(a: State, t: Step, b: State)
    requires Takes(a, t, b)
    requires t.SubsurfaceDestroy? || t.ViewportDestroy? || t.XdgSurfaceDestroy? || t.ToplevelDestroy?
    ensures a.sent <= b.sent && Sent(a, b) == DeletedId(t.id) && t.id in a.h.reg && b.h.reg == a.h.reg - {t.id}
  {
    hide BufferEffect, SurfaceEffect, SceneEffect, Target, Weakens, Erased, RolesKept, RolesKeptBut;
  }

  predicate Quiet(t: Step) {
    !t.Flip? && !t.SurfaceDestroy? && !t.SurfaceCommit? && !t.PoolDestroy? && !t.BufferDestroy? &&
    !t.SubsurfaceDestroy? && !t.ViewportDestroy? && !t.XdgSurfaceDestroy? && !t.ToplevelDestroy?
  }

  lemma NothingSent(a: State, t: Step, b: State)
    requires Takes(a, t, b) && Quiet(t)
    ensures a.sent <= b.sent && Sent(a, b) == [] && forall i :: i in a.h.reg ==> i in b.h.reg
  {
    hide Takes;
    if IsBufferStep(t) { BufferGrows(a, t, b); }
    else if IsLinkStep(t) { LinkGrows(a, t, b); }
    else if IsSceneStep(t) { SceneGrows(a, t, b); }
    else { SurfaceGrows(a, t, b); }
  }

  lemma BufferGrows(a: State, t: Step, b: State)
    requires Takes(a, t, b) && (t.CreatePool? || t.CreateBuffer?)
    ensures b.sent == a.sent && forall i :: i in a.h.reg ==> i in b.h.reg
  {
    hide SurfaceEffect, LinkEffect, SceneEffect, Target, Admissible;
  }

  lemma LinkGrows(a: State, t: Step, b: State)
    requires Takes(a, t, b) && (t.GetSubsurface? || t.GetViewport? || t.GetXdgSurface? || t.GetToplevel? || t.SetSync?)
    ensures b.sent == a.sent && forall i :: i in a.h.reg ==> i in b.h.reg
  {
    hide BufferEffect, SurfaceEffect, SceneEffect, Target, Admissible, RolesKept, RolesKeptBut, SceneQuads.Ranked;
  }

  lemma SceneGrows(a: State, t: Step, b: State)
    requires Takes(a, t, b) && IsSceneStep(t)
    ensures b.sent == a.sent && forall i :: i in a.h.reg ==> i in b.h.reg
  {
    hide BufferEffect, SurfaceEffect, LinkEffect, Target, Admissible, SceneQuads.Ranked, SceneQuads.Painted;
  }

  lemma SurfaceGrows(a: State, t: Step, b: State)
    requires Takes(a, t, b) && (t.CreateSurface? || t.SurfaceAttach? || t.SurfaceFrame? || t.Feedback?)
    ensures b.sent == a.sent && forall i :: i in a.h.reg ==> i in b.h.reg
  {
    hide BufferEffect, LinkEffect, SceneEffect, Target, Admissible, Surfaces.Attached;
  }

  /** How often id has left the registry in the first n steps. */
  function Departures(trace: seq<State>, n: nat, id: Id): nat
    requires n < |trace|
  {
    if n == 0 then 0
    else Departures(trace, n - 1, id) + Is(id in trace[n - 1].h.reg && id !in trace[n].h.reg)
  }

  /** Along every run, the client is told once each time one of its ids is free again, and never of an id
      that the server allocated. */
  lemma {:induction false} DeletesTold(steps: seq<Step>, trace: seq<State>, n: nat, id: Id)
    requires IsRun(steps, trace) && n < |trace|
    ensures Sends(trace[n].sent, DeleteId(id)) == if id < SERVER_BASE then Departures(trace, n, id) else 0
  {
    hide Sound, Takes, Sends, Stepped;
    NoEvents(DeleteId(id));
    if n > 0 {
      DeletesTold(steps, trace, n - 1, id);
      StepOf(steps, trace, n - 1);
      DeleteStep(trace[n - 1], steps[n - 1], trace[n], id);
      SendsAppend(trace[n - 1].sent, Sent(trace[n - 1], trace[n]), DeleteId(id));
      assert trace[n].sent == trace[n - 1].sent + Sent(trace[n - 1], trace[n]);
    }
  }

  // ---------------------------------------------------------------- presentation feedback

  /** Does id wait in the queue of some surface? */
  ghost predicate Queued(h: Heap, id: Id) { exists s :: id in Feedbacks(h, s) }

  /** Is t a feedback request for id that the compositor accepts? */
  predicate AsksFeedback(h: Heap, t: Step, id: Id) {
    t.Feedback? && t.feedbackId == id && FeedbackAccepted(h, t.id, id)
  }

  /** Does t destroy a surface on which id waits behind another feedback? Of such nobody is told. */
  predicate Forgets(h: Heap, t: Step, id: Id) {
    t.SurfaceDestroy? && t.id in h.reg && |Feedbacks(h, h.reg[t.id].data)| > 1 &&
      id in Feedbacks(h, h.reg[t.id].data)[1..]
  }

  /** A feedback waits in one queue, once. */
  lemma QueuedOnce(h: Heap, id: Id, s: Ptr, q: Ptr)
    requires CoreInv(h) && id in Feedbacks(h, s) && id in Feedbacks(h, q)
    ensures s == q
  {
    var i :| 0 <= i < |Feedbacks(h, s)| && Feedbacks(h, s)[i] == id;
    var j :| 0 <= j < |Feedbacks(h, q)| && Feedbacks(h, q)[j] == id;
  }

  lemma QueueDistinct(h: Heap, s: Ptr)
    requires CoreInv(h)
    ensures NoDuplicates(Feedbacks(h, s)) && forall id :: id in Feedbacks(h, s) ==> RegisteredAs(h, id, KFeedback)
  {
    hide Live, Typed, Mutual, Registered, Named, WellFormedBodies, Roles, Callbacks;
    var ids := Feedbacks(h, s);
    forall i, j | 0 <= i < j < |ids| ensures ids[i] != ids[j] { }
    forall id | id in ids ensures RegisteredAs(h, id, KFeedback) {
      var i :| 0 <= i < |ids| && ids[i] == id;
    }
  }

  /** Does node x present id? */
  predicate PresentsId(h: Heap, x: Ptr, id: Id) {
    x in h.cbs && h.cbs[x].listener == Presented && id in Feedbacks(h, h.cbs[x].userdata)
  }

  lemma NodePresents(h: Heap, x: Ptr, id: Id)
    requires CoreInv(h) && x in h.cbs
    ensures Sends(EventsOf(h, x), PresentedTo(id)) == Is(PresentsId(h, x, id))
  {
    var p := h.cbs[x].userdata;
    match h.cbs[x].listener {
      case Redraw => NoEvents(PresentedTo(id));
      case FramesDone =>
        FramesArmed(h, x);
        hide CoreInv;
        SendsOfFrames(Frames(h, p), PresentedTo(id));
      case Presented =>
        FramesArmed(h, x);
        hide CoreInv;
        SendsOfPresented(Feedbacks(h, p), PresentedTo(id));
      case BufferReleased =>
        hide CoreInv;
        if p in h.mem && h.mem[p].body.Buffer? && h.mem[p].body.obj != 0 {
          SendsOne(Release(h.mem[p].body.obj), PresentedTo(id));
        } else {
          NoEvents(PresentedTo(id));
        }
    }
  }

  /** One node speaks for a surface's feedback. */
  lemma OnePresents(h: Heap, x: Ptr, y: Ptr, id: Id)
    requires CoreInv(h) && PresentsId(h, x, id) && PresentsId(h, y, id)
    ensures x == y
  {
    QueuedOnce(h, id, h.cbs[x].userdata, h.cbs[y].userdata);
    assert CallbackOk(h, x, h.cbs[x]) && CallbackOk(h, y, h.cbs[y]);
  }

  lemma {:induction false} NodesPresent(h: Heap, nodes: seq<Ptr>, id: Id)
    requires CoreInv(h) && NoDuplicates(nodes) && forall x :: x in nodes ==> x in h.cbs
    ensures Sends(FlipEvents(h, nodes), PresentedTo(id)) == Is(exists x :: x in nodes && PresentsId(h, x, id))
  {
    hide CoreInv, EventsOf, PresentsId, Sends;
    if nodes == [] {
      NoEvents(PresentedTo(id));
    } else {
      var n := |nodes| - 1;
      assert nodes == nodes[..n] + [nodes[n]];
      NodesPresent(h, nodes[..n], id);
      NodePresents(h, nodes[n], id);
      SendsAppend(FlipEvents(h, nodes[..n]), EventsOf(h, nodes[n]), PresentedTo(id));
      assert nodes[n] !in nodes[..n];
      if x :| x in nodes[..n] && PresentsId(h, x, id) {
        assert x in nodes;
        if PresentsId(h, nodes[n], id) { OnePresents(h, x, nodes[n], id); }
      }
      if PresentsId(h, nodes[n], id) { assert nodes[n] in nodes; }
    }
  }

  /** A flip presents exactly the feedback whose queue it empties. */
  lemma FlipFeedback(a: State, o: OutputId, b: State, id: Id)
    requires Sound(a) && FlipEffect(a, o, b)
    ensures a.sent <= b.sent && Sends(Sent(a, b), Discarded(id)) == 0
    ensures Sends(Sent(a, b), PresentedTo(id)) + Is(Queued(b.h, id)) == Is(Queued(a.h, id))
  {
    hide Staying, QueuesTold, AnswersDone, Settled, StructureKept, Balanced, EventsOf, CoreInv, Sends;
    hide SceneQuads.SceneOk;
    hide Feedbacks, Queued;
    var nodes := ListOf(a.lists, o);
    assert Sent(a, b) == FlipEvents(a.h, nodes);
    ListMembers(a.lists, a.h.cbs, o);
    hide ListsOk, FlipEvents, Tallied;
    NodesPresent(a.h, nodes, id);
    if x :| x in nodes && PresentsId(a.h, x, id) {
      QueueEmptied(a.h, b.h, nodes, x, id);
    } else {
      QueueStays(a.h, b.h, nodes, id);
    }
  }

  lemma QueueEmptied(h: Heap, h': Heap, nodes: seq<Ptr>, x: Ptr, id: Id)
    requires CoreInv(h) && FeedbacksTold(h, h', nodes) && x in nodes && PresentsId(h, x, id)
    ensures Queued(h, id) && !Queued(h', id)
  {
    hide CoreInv, Feedbacks;
    assert Presents(h, x, h.cbs[x].userdata);
    if s :| id in Feedbacks(h', s) {
      QueuedOnce(h, id, s, h.cbs[x].userdata);
    }
  }

  lemma QueueStays(h: Heap, h': Heap, nodes: seq<Ptr>, id: Id)
    requires FeedbacksTold(h, h', nodes) && forall x :: x in nodes ==> !PresentsId(h, x, id)
    ensures Queued(h', id) <==> Queued(h, id)
  {
    hide Feedbacks;
    if s :| id in Feedbacks(h, s) { assert id in Feedbacks(h', s); }
  }

  /** A destroyed surface's first feedback is discarded; the others are forgotten. */
  lemma DestroyFeedback(a: State, t: Step, b: State, id: Id)
    requires Sound(a) && Takes(a, t, b) && t.SurfaceDestroy?
    ensures a.sent <= b.sent && Sends(Sent(a, b), PresentedTo(id)) == 0
    ensures Sends(Sent(a, b), Discarded(id)) + Is(Forgets(a.h, t, id)) + Is(Queued(b.h, id)) == Is(Queued(a.h, id))
  {
    SoundCore(a);
    hide Sound, CoreInv, BufferEffect, LinkEffect, SceneEffect, Sends, Erased, RolesKept, SurfaceDestroy.DestroyedLists;
    var s := a.h.reg[t.id].data;
    var ids := a.h.mem[s].body.feedbacks;
    assert Sent(a, b) == SurfaceDestroy.DiscardEvents(ids) + DeletedId(t.id);
    QueuesOfDestroyed(a.h, b.h, t.id, s);
    hide Takes, Queued, Feedbacks;
    assert Feedbacks(a.h, s) == ids;
    DiscardSent(ids, t.id, id);
    QueueGone(a.h, b.h, s, id);
  }

  lemma QueuesOfDestroyed(h: Heap, h': Heap, id: Id, s: Ptr)
    requires SurfaceDestroy.SurfaceDestroyed(h, h', id) && s == h.reg[id].data
    ensures forall q :: Feedbacks(h', q) == if q == s then [] else Feedbacks(h, q)
    ensures Feedbacks(h, s) == h.mem[s].body.feedbacks
  {
    hide Erased, RolesKept;
  }

  lemma DiscardSent(ids: seq<Id>, gone: Id, id: Id)
    ensures var news := SurfaceDestroy.DiscardEvents(ids) + DeletedId(gone);
      Sends(news, PresentedTo(id)) == 0 && Sends(news, Discarded(id)) == Is(ids != [] && ids[0] == id)
  {
    hide Sends;
    DiscardOne(ids, gone, PresentedTo(id));
    DiscardOne(ids, gone, Discarded(id));
  }

  lemma DiscardOne(ids: seq<Id>, gone: Id, e: Event)
    ensures Sends(SurfaceDestroy.DiscardEvents(ids) + DeletedId(gone), e) ==
      Is(ids != [] && e == Discarded(ids[0])) + Is(gone < SERVER_BASE && e == DeleteId(gone))
  {
    hide Sends;
    SendsAppend(SurfaceDestroy.DiscardEvents(ids), DeletedId(gone), e);
    SendsDeleted(gone, e);
    NoEvents(e);
    if ids != [] { SendsOne(Discarded(ids[0]), e); }
  }

  lemma QueueGone(h: Heap, h': Heap, s: Ptr, id: Id)
    requires CoreInv(h) && forall q :: Feedbacks(h', q) == if q == s then [] else Feedbacks(h, q)
    ensures var ids := Feedbacks(h, s);
      Is(ids != [] && ids[0] == id) + Is(|ids| > 1 && id in ids[1..]) + Is(Queued(h', id)) == Is(Queued(h, id))
  {
    var ids := Feedbacks(h, s);
    QueueDistinct(h, s);
    hide CoreInv, Feedbacks;
    if id in ids {
      assert ids == [ids[0]] + ids[1..];
      if q :| id in Feedbacks(h', q) { QueuedOnce(h, id, s, q); }
    } else {
      if q :| id in Feedbacks(h, q) { assert id in Feedbacks(h', q); }
    }
  }

  /** No queue changes. */
  ghost predicate QueuesSame(h: Heap, h': Heap) { forall s :: Feedbacks(h', s) == Feedbacks(h, s) }

  lemma SameQueued(h: Heap, h': Heap, id: Id)
    requires QueuesSame(h, h')
    ensures Queued(h', id) <==> Queued(h, id)
  {
    hide Feedbacks;
    if s :| id in Feedbacks(h, s) { assert id in Feedbacks(h', s); }
  }

  /** An accepted feedback joins the queue of its surface. */
  lemma RequestQueued(a: State, t: Step, b: State, id: Id)
    requires Sound(a) && Takes(a, t, b) && t.Feedback?
    ensures a.sent == b.sent && Is(Queued(b.h, id)) == Is(Queued(a.h, id)) + Is(AsksFeedback(a.h, t, id))
  {
    SoundCore(a);
    hide Sound, CoreInv, BufferEffect, LinkEffect, SceneEffect, FrameRequests.FeedbackLists, Queued;
    if FeedbackAccepted(a.h, t.id, t.feedbackId) {
      var s := a.h.reg[t.id].data;
      QueueGrown(a.h, b.h, t, s);
      hide Takes, Feedbacks;
      JoinsQueue(a.h, b.h, t.feedbackId, s, id);
    }
  }

  lemma QueueGrown(h: Heap, h': Heap, t: Step, s: Ptr)
    requires t.Feedback? && FrameRequests.FeedbackQueued(h, h', t.id, t.feedbackId, t.a) && s == h.reg[t.id].data
    ensures forall q :: Feedbacks(h', q) == if q == s then Feedbacks(h, q) + [t.feedbackId] else Feedbacks(h, q)
  {
  }

  lemma JoinsQueue(h: Heap, h': Heap, x: Id, s: Ptr, id: Id)
    requires CoreInv(h) && x !in h.reg
    requires forall q :: Feedbacks(h', q) == if q == s then Feedbacks(h, q) + [x] else Feedbacks(h, q)
    ensures Is(Queued(h', id)) == Is(Queued(h, id)) + Is(x == id)
  {
    hide CoreInv, Feedbacks;
    forall q ensures x !in Feedbacks(h, q) { QueueDistinct(h, q); }
    if q :| id in Feedbacks(h, q) { assert id in Feedbacks(h', q); }
    if q :| id in Feedbacks(h', q) { assert id in Feedbacks(h, q) || id == x; }
    assert x in Feedbacks(h', s);
  }

  /** Surfaces stay with their queues, and new ones have none. */
  predicate SurfacesStay(m: map<Ptr, Block>, m': map<Ptr, Block>) {
    && (forall q :: q in m && m[q].body.Surface? ==>
      q in m' && m'[q].body.Surface? && m'[q].body.feedbacks == m[q].body.feedbacks)
    && (forall q :: q in m' && m'[q].body.Surface? && !(q in m && m[q].body.Surface?) ==> m'[q].body.feedbacks == [])
  }

  lemma QueuesOfStaying(h: Heap, h': Heap)
    requires SurfacesStay(h.mem, h'.mem)
    ensures QueuesSame(h, h')
  {
  }

  /** All other steps leave the queues of all surfaces alone. */
  lemma OtherQueues(a: State, t: Step, b: State)
    requires Sound(a) && Takes(a, t, b) && !t.Feedback? && !t.SurfaceDestroy? && !t.Flip?
    ensures QueuesSame(a.h, b.h)
  {
    SoundCore(a);
    hide Sound, CoreInv, Takes, QueuesSame, SurfacesStay;
    if a != b {
      if IsBufferStep(t) {
        BufferQueues(a, t, b);
      } else if t.SurfaceCommit? {
        CommitQueues(a, t, b);
      } else if t.SurfaceAttach? {
        AttachQueues(a, t, b);
      } else if t.CreateSurface? || t.SurfaceFrame? {
        SurfaceQueues(a, t, b);
      } else if IsLinkStep(t) {
        LinkQueues(a, t, b);
      } else {
        SceneQueues(a, t, b);
      }
      QueuesOfStaying(a.h, b.h);
    } else {
      SameStay(a.h.mem);
      QueuesOfStaying(a.h, b.h);
    }
  }

  lemma SameStay(m: map<Ptr, Block>)
    ensures SurfacesStay(m, m)
  {
  }

  lemma BufferQueues(a: State, t: Step, b: State)
    requires CoreInv(a.h) && Takes(a, t, b) && IsBufferStep(t) && a != b
    ensures SurfacesStay(a.h.mem, b.h.mem)
  {
    hide CoreInv, Takes, SurfacesStay;
    if t.PoolDestroy? {
      PoolQueues(a, t, b);
    } else if t.BufferDestroy? {
      GoneQueues(a, t, b);
    } else {
      MadeQueues(a, t, b);
    }
  }

  lemma PoolQueues(a: State, t: Step, b: State)
    requires CoreInv(a.h) && Takes(a, t, b) && t.PoolDestroy?
    ensures SurfacesStay(a.h.mem, b.h.mem)
  {
    hide CoreInv, SurfaceEffect, LinkEffect, SceneEffect, Target;
    DataIs(a.h, t.id);
    var x := a.h.reg[t.id].data;
    assert forall q :: q in a.h.mem && q != x ==> q in b.h.mem.Keys - {x};
  }

  lemma GoneQueues(a: State, t: Step, b: State)
    requires CoreInv(a.h) && Takes(a, t, b) && t.BufferDestroy?
    ensures SurfacesStay(a.h.mem, b.h.mem)
  {
    hide CoreInv, SurfaceEffect, LinkEffect, SceneEffect, Target;
    DataIs(a.h, t.id);
  }

  lemma MadeQueues(a: State, t: Step, b: State)
    requires Takes(a, t, b) && (t.CreatePool? || t.CreateBuffer?) && a != b
    ensures SurfacesStay(a.h.mem, b.h.mem)
  {
    hide SurfaceEffect, LinkEffect, SceneEffect, Target;
  }

  lemma CommitQueues(a: State, t: Step, b: State)
    requires Sound(a) && Takes(a, t, b) && t.SurfaceCommit? && a != b
    ensures SurfacesStay(a.h.mem, b.h.mem)
  {
    CommitTaken(a, t, b);
    hide Takes, CommitOutcome, Committed;
    SurfaceThere(a.h, b.h, a.h.reg[t.id].data, t);
    Surfaces.ActiveIsBuffer(a.h, a.h.reg[t.id].data);
    SoundCore(a);
    NoNullBlock(a.h);
    hide Sound;
    CommittedQueues(a.h, b.h, a.h.reg[t.id].data, t.focused, t.a1, t.a2);
  }

  lemma SurfaceThere(h: Heap, h': Heap, s: Ptr, t: Step)
    requires t.SurfaceCommit? && Committed(h, h', s, t.focused, t.a1, t.a2)
    ensures s in h.mem && h.mem[s].body.Surface?
  {
    hide ArmsRelease, OthersKept;
  }

  lemma CommittedQueues(h: Heap, h': Heap, s: Ptr, focused: OutputId, a1: Ptr, a2: Ptr)
    requires Committed(h, h', s, focused, a1, a2) && NULL !in h.mem && s in h.mem && h.mem[s].body.Surface?
    requires var x := h.mem[s].body.active; x != NULL ==> x in h.mem && h.mem[x].body.Buffer?
    ensures SurfacesStay(h.mem, h'.mem)
  {
    hide ArmsRelease;
  }

  lemma AttachQueues(a: State, t: Step, b: State)
    requires Sound(a) && Takes(a, t, b) && t.SurfaceAttach? && a != b
    ensures SurfacesStay(a.h.mem, b.h.mem)
  {
    AttachTaken(a, t, b);
    Surfaces.ActiveIsBuffer(a.h, a.h.reg[t.id].data);
    SoundCore(a);
    NoNullBlock(a.h);
    hide Takes, Sound, CoreInv, Target, Surfaces.Attached;
    AttachedQueues(a.h, b.h, a.h.reg[t.id].data, Target(a.h, Reg(t.bufferId)));
  }

  lemma AttachedQueues(h: Heap, h': Heap, s: Ptr, b: Ptr)
    requires Surfaces.Attached(h, h', s, b) && NULL !in h.mem
    requires var x := h.mem[s].body.pending; x != NULL ==> x in h.mem && h.mem[x].body.Buffer?
    ensures SurfacesStay(h.mem, h'.mem)
  {
    hide Target;
  }

  lemma AttachTaken(a: State, t: Step, b: State)
    requires Takes(a, t, b) && t.SurfaceAttach? && a != b
    ensures t.id in a.h.reg && Surfaces.Attached(a.h, b.h, a.h.reg[t.id].data, Target(a.h, Reg(t.bufferId)))
  {
    hide BufferEffect, LinkEffect, SceneEffect, Target, Surfaces.Attached;
  }

  lemma SurfaceQueues(a: State, t: Step, b: State)
    requires Takes(a, t, b) && (t.CreateSurface? || t.SurfaceFrame?) && a != b
    ensures SurfacesStay(a.h.mem, b.h.mem)
  {
    hide BufferEffect, LinkEffect, SceneEffect, Target;
  }

  lemma LinkQueues(a: State, t: Step, b: State)
    requires CoreInv(a.h) && Takes(a, t, b) && IsLinkStep(t) && a != b
    ensures SurfacesStay(a.h.mem, b.h.mem)
  {
    hide CoreInv, Takes, SurfacesStay;
    if t.SubsurfaceDestroy? || t.ViewportDestroy? || t.XdgSurfaceDestroy? || t.ToplevelDestroy? {
      UnlinkTaken(a, t, b);
      DataNoSurface(a, t, b);
      UnlinkQueues(a.h, b.h, a.h.reg[t.id].data);
    } else {
      LinkedQueues(a, t, b);
    }
  }

  lemma LinkedQueues(a: State, t: Step, b: State)
    requires Takes(a, t, b) && (t.GetSubsurface? || t.GetViewport? || t.GetXdgSurface? || t.GetToplevel? || t.SetSync?)
    requires a != b
    ensures SurfacesStay(a.h.mem, b.h.mem)
  {
    hide Takes, SurfacesStay;
    if t.GetToplevel? || t.SetSync? {
      NothingNew(a, t, b);
    } else {
      OneNew(a, t, b);
      LinkedStay(a.h, b.h, t.p);
    }
  }

  lemma NothingNew(a: State, t: Step, b: State)
    requires Takes(a, t, b) && (t.GetToplevel? || t.SetSync?) && a != b
    ensures SurfacesStay(a.h.mem, b.h.mem)
  {
    hide BufferEffect, SurfaceEffect, SceneEffect, Target, RolesKeptBut, SceneQuads.Ranked, SubsurfaceSync.Family;
  }

  lemma OneNew(a: State, t: Step, b: State)
    requires Takes(a, t, b) && (t.GetSubsurface? || t.GetViewport? || t.GetXdgSurface?) && a != b
    ensures t.p !in a.h.mem && t.p in b.h.mem && !b.h.mem[t.p].body.Surface? && b.h.mem.Keys <= a.h.mem.Keys + {t.p}
    ensures forall q :: q in a.h.mem ==> q in b.h.mem && SameButLinks(a.h.mem[q].body, b.h.mem[q].body)
  {
    hide BufferEffect, SurfaceEffect, SceneEffect, Target, RolesKept, RolesKeptBut, SameButLinks;
  }

  lemma LinkedStay(h: Heap, h': Heap, p: Ptr)
    requires p !in h.mem && p in h'.mem && !h'.mem[p].body.Surface? && h'.mem.Keys <= h.mem.Keys + {p}
    requires forall q :: q in h.mem ==> q in h'.mem && SameButLinks(h.mem[q].body, h'.mem[q].body)
    ensures SurfacesStay(h.mem, h'.mem)
  {
  }

  lemma UnlinkTaken(a: State, t: Step, b: State)
    requires Takes(a, t, b)
    requires t.SubsurfaceDestroy? || t.ViewportDestroy? || t.XdgSurfaceDestroy? || t.ToplevelDestroy?
    ensures t.id in a.h.reg && Weakens(a.h, b.h)
    ensures var x := a.h.reg[t.id].data; b.h.mem.Keys - {x} == a.h.mem.Keys - {x}
  {
    hide BufferEffect, SurfaceEffect, SceneEffect, Target, Erased, RolesKept, RolesKeptBut, Weakens;
  }

  lemma DataNoSurface(a: State, t: Step, b: State)
    requires CoreInv(a.h) && Takes(a, t, b)
    requires t.SubsurfaceDestroy? || t.ViewportDestroy? || t.XdgSurfaceDestroy? || t.ToplevelDestroy?
    ensures t.id in a.h.reg && a.h.reg[t.id].data in a.h.mem && !a.h.mem[a.h.reg[t.id].data].body.Surface?
  {
    hide BufferEffect, SurfaceEffect, LinkEffect, SceneEffect, CoreInv;
    DataIs(a.h, t.id);
  }

  lemma UnlinkQueues(h: Heap, h': Heap, x: Ptr)
    requires Weakens(h, h') && h'.mem.Keys - {x} == h.mem.Keys - {x} && x in h.mem && !h.mem[x].body.Surface?
    ensures SurfacesStay(h.mem, h'.mem)
  {
    assert forall q :: q in h.mem && q != x ==> q in h'.mem.Keys - {x};
  }

  lemma SceneQueues(a: State, t: Step, b: State)
    requires Takes(a, t, b) && IsSceneStep(t)
    ensures SurfacesStay(a.h.mem, b.h.mem)
  {
    hide BufferEffect, SurfaceEffect, LinkEffect, SceneQuads.Ranked, SceneQuads.Painted;
  }

  // ---------------------------------------------------------------- along a run

  /** Whatever a step does, no feedback is told twice, and none leaves its queue untold but behind another
      one on a surface that is destroyed. */
  lemma FeedbackStep(a: State, t: Step, b: State, id: Id)
    requires Sound(a) && Sound(b) && Takes(a, t, b)
    ensures a.sent <= b.sent
    ensures Is(Queued(a.h, id)) + Is(AsksFeedback(a.h, t, id)) ==
      Is(Queued(b.h, id)) + Sends(Sent(a, b), PresentedTo(id)) + Sends(Sent(a, b), Discarded(id)) +
      Is(Forgets(a.h, t, id))
  {
    SoundCore(a);
    SoundCore(b);
    OnlyThese(a.h, t, id);
    hide Sound, CoreInv, Takes, Sends, Queued, AsksFeedback, Forgets, QueuesSame;
    if t.Flip? {
      FlipTaken(a, t.o, b);
      FlipFeedback(a, t.o, b, id);
    } else if t.SurfaceDestroy? {
      DestroyFeedback(a, t, b, id);
    } else if t.Feedback? {
      RequestQueued(a, t, b, id);
      NoneSent(a, b, id);
    } else {
      OtherQueues(a, t, b);
      SameQueued(a.h, b.h, id);
      OtherSent(a, t, b, id);
    }
  }

  lemma OnlyThese(h: Heap, t: Step, id: Id)
    ensures !t.Feedback? ==> !AsksFeedback(h, t, id)
    ensures !t.SurfaceDestroy? ==> !Forgets(h, t, id)
  {
  }

  lemma NoneSent(a: State, b: State, id: Id)
    requires a.sent == b.sent
    ensures a.sent <= b.sent && Sends(Sent(a, b), PresentedTo(id)) == 0 && Sends(Sent(a, b), Discarded(id)) == 0
  {
    assert Sent(a, b) == [];
  }

  lemma OtherSent(a: State, t: Step, b: State, id: Id)
    requires Takes(a, t, b) && !t.Feedback? && !t.SurfaceDestroy? && !t.Flip?
    ensures a.sent <= b.sent && Sends(Sent(a, b), PresentedTo(id)) == 0 && Sends(Sent(a, b), Discarded(id)) == 0
  {
    hide Takes, Sends;
    if t.SurfaceCommit? {
      CommitDeletes(a, t, b, id);
    } else if Quiet(t) {
      NothingSent(a, t, b);
      NoEvents(PresentedTo(id));
      NoEvents(Discarded(id));
    } else {
      if t.PoolDestroy? || t.BufferDestroy? { BufferDeletes(a, t, b); } else { LinkDeletes(a, t, b); }
      SendsDeleted(t.id, PresentedTo(id));
      SendsDeleted(t.id, Discarded(id));
    }
  }

  /** How often a feedback with this id is accepted in the first n steps. */
  function FeedbackAsked(steps: seq<Step>, trace: seq<State>, n: nat, id: Id): nat
    requires n <= |steps| && n <= |trace|
  {
    if n == 0 then 0 else FeedbackAsked(steps, trace, n - 1, id) + Is(AsksFeedback(trace[n - 1].h, steps[n - 1], id))
  }

  function Forgotten(steps: seq<Step>, trace: seq<State>, n: nat, id: Id): nat
    requires n <= |steps| && n <= |trace|
  {
    if n == 0 then 0 else Forgotten(steps, trace, n - 1, id) + Is(Forgets(trace[n - 1].h, steps[n - 1], id))
  }

  /** Along every run, the feedback accepted under an id has been presented, discarded or forgotten, each
      once, but for one that waits. */
  lemma {:induction false} FeedbackTold(steps: seq<Step>, trace: seq<State>, n: nat, id: Id)
    requires IsRun(steps, trace) && n < |trace|
    ensures FeedbackAsked(steps, trace, n, id) ==
      Sends(trace[n].sent, PresentedTo(id)) + Sends(trace[n].sent, Discarded(id)) +
      Forgotten(steps, trace, n, id) + Is(Queued(trace[n].h, id))
  {
    hide Sound, Takes, Sends, Stepped, Queued, AsksFeedback, Forgets;
    NoEvents(PresentedTo(id));
    NoEvents(Discarded(id));
    if n == 0 {
      NothingQueued(trace[0].h, id);
    } else {
      FeedbackTold(steps, trace, n - 1, id);
      StepOf(steps, trace, n - 1);
      FeedbackStep(trace[n - 1], steps[n - 1], trace[n], id);
      var was, news := trace[n - 1].sent, Sent(trace[n - 1], trace[n]);
      SendsAppend(was, news, PresentedTo(id));
      SendsAppend(was, news, Discarded(id));
      assert trace[n].sent == was + news;
    }
  }

  lemma NothingQueued(h: Heap, id: Id)
    requires h.mem == map[]
    ensures !Queued(h, id)
  {
  }
}
