/** What a client is told over whole runs: every buffer that a commit replaces is released once, every
    feedback is presented, discarded or forgotten, and every id of the client that is free again is named
    once. */
module Accounts {
  import opened ListSpec
  import opened Memory
  import opened Invariant
  import opened Erasure
  import opened Creation
  import opened ClientState
  import opened QuietSteps
  import opened Commits
  import opened PageFlips
  import opened Steps
  import opened Traces
  import BufferObjects
  import Surfaces
  import SubsurfaceLinks
  import SubsurfaceSync
  import Viewporter
  import XdgShell
  import FrameRequests
  import SurfaceDestroy
  import SceneQuads

  // ---------------------------------------------------------------- the release callback of a buffer

  /** The armed callback of the buffer that is registered under id, if there is one. */
  function BufferCb(h: Heap, id: Id): Ptr {
    if Names(h, id, KBuffer) && h.reg[id].data in h.mem && h.mem[h.reg[id].data].body.Buffer?
    then h.mem[h.reg[id].data].body.cb else NULL
  }

  /** A callback is armed exactly while it is listed for that buffer. */
  lemma CbListed(h: Heap, id: Id, x: Ptr)
    requires CoreInv(h)
    ensures x != NULL && BufferCb(h, id) == x <==>
      Names(h, id, KBuffer) && Listens(h, x, BufferReleased, h.reg[id].data)
  {
    hide Target, Typed, Mutual, Roles, Waiting, WellFormedBodies;
    if Names(h, id, KBuffer) {
      if BufferCb(h, id) != NULL { assert ArmedOk(h, h.reg[id].data, h.mem[h.reg[id].data].body); }
      if x in h.cbs { assert CallbackOk(h, x, h.cbs[x]); }
    }
  }

  /** The events of one node release the buffer under id exactly when it is that buffer's callback. */
  lemma NodeReleases(h: Heap, x: Ptr, id: Id)
    requires CoreInv(h) && x in h.cbs
    ensures Sends(EventsOf(h, x), Release(id)) == Is(BufferCb(h, id) == x)
  {
    CbListed(h, id, x);
    var p := h.cbs[x].userdata;
    match h.cbs[x].listener {
      case Redraw => NotReleased(h, x, id);
      case FramesDone =>
        FramesArmed(h, x);
        NotReleased(h, x, id);
        hide CoreInv;
        SendsOfFrames(Frames(h, p), Release(id));
      case Presented =>
        FramesArmed(h, x);
        NotReleased(h, x, id);
        hide CoreInv;
        SendsOfPresented(Feedbacks(h, p), Release(id));
      case BufferReleased =>
        ReleaseArmed(h, x);
        BufferNamed(h, p, id);
        hide CoreInv;
        if h.mem[p].body.obj != 0 { SendsOne(Release(h.mem[p].body.obj), Release(id)); }
    }
  }

  lemma NotReleased(h: Heap, x: Ptr, id: Id)
    requires CoreInv(h) && x in h.cbs && h.cbs[x].listener != BufferReleased
    ensures BufferCb(h, id) != x
  {
    CbListed(h, id, x);
    NoNullNode(h);
  }

  lemma NoNullNode(h: Heap)
    requires CoreInv(h)
    ensures NULL !in h.cbs
  {
  }

  lemma BufferNamed(h: Heap, b: Ptr, id: Id)
    requires CoreInv(h) && b in h.mem && h.mem[b].body.Buffer? && b != NULL
    ensures h.mem[b].body.obj == id != 0 <==> Names(h, id, KBuffer) && h.reg[id].data == b
  {
    hide Target, Typed, Mutual, Roles, Waiting, WellFormedBodies, Callbacks;
  }

  lemma {:induction false} NodesRelease(h: Heap, nodes: seq<Ptr>, id: Id)
    requires CoreInv(h) && NoDuplicates(nodes) && forall x :: x in nodes ==> x in h.cbs
    ensures Sends(FlipEvents(h, nodes), Release(id)) == Is(BufferCb(h, id) in nodes)
  {
    hide CoreInv, EventsOf, BufferCb;
    if nodes != [] {
      var n := |nodes| - 1;
      assert nodes == nodes[..n] + [nodes[n]];
      NodesRelease(h, nodes[..n], id);
      NodeReleases(h, nodes[n], id);
      SendsAppend(FlipEvents(h, nodes[..n]), EventsOf(h, nodes[n]), Release(id));
      assert nodes[n] !in nodes[..n];
    }
  }

  // ---------------------------------------------------------------- what each step does to it

  /** What the step sends. */
  function Sent(a: State, b: State): seq<Event>
    requires a.sent <= b.sent
  {
    b.sent[|a.sent|..]
  }

  /** Does the step replace the buffer registered under id as the active one of some surface? */
  predicate Replaces(h: Heap, t: Step, id: Id) {
    && t.SurfaceCommit? && t.id in h.reg && Names(h, id, KBuffer)
    && var s := h.reg[t.id].data;
    && s in h.mem && h.mem[s].body.Surface? && h.mem[s].body.attached && h.mem[s].body.active == h.reg[id].data
    && CommitOutcome(h, s, t.oversized) == Status(0)
  }

  /** Can the replaced buffer wait for a flip: is the surface shown, and the buffer's callback free? */
  predicate CanWait(h: Heap, t: Step, id: Id) {
    && t.SurfaceCommit? && t.id in h.reg && h.reg[t.id].data in h.mem && h.mem[h.reg[t.id].data].body.Surface?
    && h.mem[h.reg[t.id].data].body.output != 0 && BufferCb(h, id) == NULL
  }

  /** A buffer that a commit replaces is told released at once, unless it can wait: then its callback is
      listed for the output of the surface and nothing is told yet. */
  lemma CommitReleases(a: State, t: Step, b: State, id: Id)
    requires Sound(a) && Sound(b) && Takes(a, t, b) && t.SurfaceCommit?
    ensures a.sent <= b.sent && (Names(b.h, id, KBuffer) <==> Names(a.h, id, KBuffer))
    ensures if Replaces(a.h, t, id) && CanWait(a.h, t, id)
      then Sends(Sent(a, b), Release(id)) == 0 && BufferCb(b.h, id) == t.a1 != NULL &&
        t.a1 in b.h.cbs && b.h.cbs[t.a1].output == a.h.mem[a.h.reg[t.id].data].body.output
      else Sends(Sent(a, b), Release(id)) == Is(Replaces(a.h, t, id)) && BufferCb(b.h, id) == BufferCb(a.h, id)
  {
    hide Sound, Takes, Replaces, CanWait, BufferCb;
    if a != b {
      SoundCore(a);
      SoundCore(b);
      CommitTaken(a, t, b);
      CommittedReleases(a.h, b.h, t, id);
    } else {
      NothingReplaced(a, t, id);
    }
  }

  /** A commit that is refused replaces nothing, and one that is not changes something. */
  lemma NothingReplaced(a: State, t: Step, id: Id)
    requires Sound(a) && Takes(a, t, a) && t.SurfaceCommit?
    ensures !Replaces(a.h, t, id)
  {
    hide BufferEffect, LinkEffect, SceneEffect, Inv, CommitOutcome, CommittedLists, ReleaseNow, OthersKept, ListsOk;
  }

  lemma CommittedReleases(h: Heap, h': Heap, t: Step, id: Id)
    requires CoreInv(h) && CoreInv(h') && t.SurfaceCommit? && t.id in h.reg && t.a1 != NULL
    requires Committed(h, h', h.reg[t.id].data, t.focused, t.a1, t.a2)
    requires CommitOutcome(h, h.reg[t.id].data, t.oversized) == Status(0)
    ensures Names(h', id, KBuffer) <==> Names(h, id, KBuffer)
    ensures var news := ReleaseNow(h, h.reg[t.id].data);
      if Replaces(h, t, id) && CanWait(h, t, id)
      then Sends(news, Release(id)) == 0 && BufferCb(h', id) == t.a1 && t.a1 in h'.cbs &&
        h'.cbs[t.a1].output == h.mem[h.reg[t.id].data].body.output
      else Sends(news, Release(id)) == Is(Replaces(h, t, id)) && BufferCb(h', id) == BufferCb(h, id)
  {
    hide CommitOutcome, Target, Typed, Mutual, Roles, Waiting, WellFormedBodies, Callbacks;
  }

  /** A flip of an output tells every registered buffer whose callback is listed there, once, and disarms
      it; it tells no other. */
  lemma FlipReleases(a: State, o: OutputId, b: State, id: Id)
    requires Sound(a) && Sound(b) && FlipEffect(a, o, b)
    ensures a.sent <= b.sent && (Names(b.h, id, KBuffer) <==> Names(a.h, id, KBuffer))
    ensures var x := BufferCb(a.h, id); if x in a.h.cbs && a.h.cbs[x].output == o
      then Sends(Sent(a, b), Release(id)) == 1 && BufferCb(b.h, id) == NULL
      else Sends(Sent(a, b), Release(id)) == 0 && BufferCb(b.h, id) == BufferCb(a.h, id)
  {
    hide Staying, QueuesTold, FeedbacksTold, AnswersDone, Settled, StructureKept, Balanced, EventsOf, BufferCb, CoreInv;
    hide SceneQuads.SceneOk;
    var nodes := ListOf(a.lists, o);
    var x := BufferCb(a.h, id);
    assert Sent(a, b) == FlipEvents(a.h, nodes);
    ListMembers(a.lists, a.h.cbs, o);
    hide ListsOk, FlipEvents;
    NodesRelease(a.h, nodes, id);
    SameNames(a.h, b.h, id);
    CbListed(a.h, id, x);
    CbListed(b.h, id, x);
    CbListed(b.h, id, BufferCb(b.h, id));
    CbListed(a.h, id, BufferCb(b.h, id));
  }

  lemma SameNames(h: Heap, h': Heap, id: Id)
    requires CoreInv(h) && (forall i :: i in h'.reg ==> i in h.reg && h'.reg[i] == h.reg[i])
    requires forall i :: i in h.reg && h.reg[i].data != NULL ==> i in h'.reg
    ensures Names(h', id, KBuffer) <==> Names(h, id, KBuffer)
    ensures Names(h, id, KBuffer) ==> h'.reg[id] == h.reg[id]
  {
    hide Target, Typed, Mutual, Roles, Waiting, WellFormedBodies, Callbacks;
  }

  // ---------------------------------------------------------------- all other steps

  /** No release among the events. */
  predicate NoRelease(news: seq<Event>) { forall k :: 0 <= k < |news| ==> !news[k].Release? }

  lemma {:induction false} NoReleaseCounted(news: seq<Event>, id: Id)
    requires NoRelease(news)
    ensures Sends(news, Release(id)) == 0
  {
    if news != [] { NoReleaseCounted(news[..|news| - 1], id); }
  }

  lemma OtherReleases(a: State, t: Step, b: State, id: Id)
    requires Sound(a) && Sound(b) && Takes(a, t, b) && !t.SurfaceCommit? && !t.Flip? && !t.BufferDestroy?
    ensures a.sent <= b.sent && NoRelease(Sent(a, b))
    ensures BufferCb(b.h, id) == BufferCb(a.h, id)
  {
    SoundCore(a);
    SoundCore(b);
    hide Sound, CoreInv, Takes, BufferCb;
    if IsBufferStep(t) {
      BufferSteps(a, t, b, id);
    } else if t.SurfaceDestroy? {
      DestroySteps(a, t, b, id);
    } else if IsSurfaceStep(t) || t.SurfaceFrame? {
      SurfaceSteps(a, t, b, id);
    } else if IsLinkStep(t) {
      LinkSteps(a, t, b, id);
    } else {
      SceneSteps(a, t, b, id);
    }
  }

  lemma BufferSteps(a: State, t: Step, b: State, id: Id)
    requires CoreInv(a.h) && CoreInv(b.h) && Takes(a, t, b) && IsBufferStep(t) && !t.BufferDestroy?
    ensures a.sent <= b.sent && NoRelease(Sent(a, b)) && BufferCb(b.h, id) == BufferCb(a.h, id)
  {
    hide SurfaceEffect, LinkEffect, SceneEffect, Target, Typed, Mutual, Roles, Waiting, WellFormedBodies, Callbacks;
  }

  lemma DestroySteps(a: State, t: Step, b: State, id: Id)
    requires CoreInv(a.h) && CoreInv(b.h) && Takes(a, t, b) && t.SurfaceDestroy?
    ensures a.sent <= b.sent && NoRelease(Sent(a, b)) && BufferCb(b.h, id) == BufferCb(a.h, id)
  {
    hide BufferEffect, LinkEffect, SceneEffect, Target, Typed, Mutual, Roles, Waiting, WellFormedBodies, Callbacks;
    hide Erased, SurfaceDestroy.DestroyedLists;
  }

  lemma SurfaceSteps(a: State, t: Step, b: State, id: Id)
    requires CoreInv(a.h) && CoreInv(b.h) && Takes(a, t, b) && (IsSurfaceStep(t) || t.SurfaceFrame?)
    requires !t.SurfaceCommit?
    ensures a.sent <= b.sent && NoRelease(Sent(a, b)) && BufferCb(b.h, id) == BufferCb(a.h, id)
  {
    hide BufferEffect, LinkEffect, SceneEffect, Target, Typed, Mutual, Roles, Waiting, WellFormedBodies, Callbacks;
  }

  lemma LinkSteps(a: State, t: Step, b: State, id: Id)
    requires CoreInv(a.h) && CoreInv(b.h) && Takes(a, t, b) && IsLinkStep(t)
    ensures a.sent <= b.sent && NoRelease(Sent(a, b)) && BufferCb(b.h, id) == BufferCb(a.h, id)
  {
    hide CoreInv, Takes, BufferCb, NoRelease;
    if t.SubsurfaceDestroy? || t.ViewportDestroy? || t.XdgSurfaceDestroy? || t.ToplevelDestroy? {
      UnlinkSteps(a, t, b, id);
    } else if t.SetSync? {
      SyncSteps(a, t, b, id);
    } else {
      LinkedSteps(a, t, b, id);
    }
  }

  lemma SyncSteps(a: State, t: Step, b: State, id: Id)
    requires Takes(a, t, b) && t.SetSync?
    ensures a.sent <= b.sent && NoRelease(Sent(a, b)) && BufferCb(b.h, id) == BufferCb(a.h, id)
  {
    hide BufferEffect, SurfaceEffect, SceneEffect, SceneQuads.Ranked, SubsurfaceSync.Family, SubsurfaceSync.AllNested;
  }

  lemma LinkedSteps(a: State, t: Step, b: State, id: Id)
    requires CoreInv(a.h) && CoreInv(b.h) && Takes(a, t, b)
    requires (t.GetSubsurface? || t.GetViewport? || t.GetXdgSurface? || t.GetToplevel?)
    ensures a.sent <= b.sent && NoRelease(Sent(a, b)) && BufferCb(b.h, id) == BufferCb(a.h, id)
  {
    hide BufferEffect, SurfaceEffect, SceneEffect, Target, Typed, Mutual, Roles, Waiting, WellFormedBodies, Callbacks;
    hide RolesKept, RolesKeptBut;
  }

  lemma UnlinkSteps(a: State, t: Step, b: State, id: Id)
    requires CoreInv(a.h) && CoreInv(b.h) && Takes(a, t, b)
    requires (t.SubsurfaceDestroy? || t.ViewportDestroy? || t.XdgSurfaceDestroy? || t.ToplevelDestroy?)
    ensures a.sent <= b.sent && NoRelease(Sent(a, b)) && BufferCb(b.h, id) == BufferCb(a.h, id)
  {
    hide BufferEffect, SurfaceEffect, SceneEffect, Target, Typed, Mutual, Roles, Waiting, WellFormedBodies, Callbacks;
    hide Erased, RolesKept, RolesKeptBut;
  }

  lemma SceneSteps(a: State, t: Step, b: State, id: Id)
    requires CoreInv(a.h) && CoreInv(b.h) && Takes(a, t, b) && IsSceneStep(t)
    ensures a.sent <= b.sent && NoRelease(Sent(a, b)) && BufferCb(b.h, id) == BufferCb(a.h, id)
  {
    hide BufferEffect, SurfaceEffect, LinkEffect, Target, Typed, Mutual, Roles, Waiting, WellFormedBodies, Callbacks;
  }

  lemma BufferGone(a: State, t: Step, b: State, id: Id)
    requires Sound(a) && Sound(b) && Takes(a, t, b) && t.BufferDestroy?
    ensures a.sent <= b.sent && NoRelease(Sent(a, b))
    ensures BufferCb(b.h, id) == if t.id == id then NULL else BufferCb(a.h, id)
  {
    SoundCore(a);
    SoundCore(b);
    hide Sound, CoreInv, SurfaceEffect, LinkEffect, SceneEffect, BufferObjects.BufferDestroyed, BufferCb;
    assert OnlyDeletes(a, b, t.id) && BufferObjects.BufferDestroyed(a.h, b.h, t.id);
    hide Takes;
    OthersSame(a.h, b.h, t.id, id);
  }

  lemma OthersSame(h: Heap, h': Heap, gone: Id, id: Id)
    requires CoreInv(h) && CoreInv(h') && BufferObjects.BufferDestroyed(h, h', gone)
    ensures BufferCb(h', id) == if gone == id then NULL else BufferCb(h, id)
  {
    hide Target, Typed, Mutual, Roles, Waiting, WellFormedBodies, Callbacks;
  }

  // ---------------------------------------------------------------- along a run

  /** Is the buffer under id destroyed while its callback is still armed? */
  predicate Abandons(h: Heap, t: Step, id: Id) { t == BufferDestroy(id) && BufferCb(h, id) != NULL }

  /** Each replacement is one release, now or by the callback it arms. */
  lemma ReleaseStep(a: State, t: Step, b: State, id: Id)
    requires Sound(a) && Sound(b) && Takes(a, t, b)
    ensures a.sent <= b.sent
    ensures Is(BufferCb(a.h, id) != NULL) + Is(Replaces(a.h, t, id)) ==
      Sends(Sent(a, b), Release(id)) + Is(BufferCb(b.h, id) != NULL) + Is(Abandons(a.h, t, id))
  {
    hide Sound, Takes, BufferCb, Replaces, CanWait, NoRelease, Sends;
    if t.SurfaceCommit? {
      CommitReleases(a, t, b, id);
      FreeCallback(a.h, t, id);
    } else {
      NotReplacing(a.h, t, id);
      if t.Flip? {
        FlipTaken(a, t.o, b);
        FlipReleases(a, t.o, b, id);
        ArmedListed(a, id);
      } else if t.BufferDestroy? {
        BufferGone(a, t, b, id);
        NoReleaseCounted(Sent(a, b), id);
      } else {
        OtherReleases(a, t, b, id);
        NoReleaseCounted(Sent(a, b), id);
      }
    }
  }

  lemma NotReplacing(h: Heap, t: Step, id: Id)
    requires !t.SurfaceCommit?
    ensures !Replaces(h, t, id)
  {
  }

  lemma FreeCallback(h: Heap, t: Step, id: Id)
    ensures CanWait(h, t, id) ==> BufferCb(h, id) == NULL
  {
  }

  lemma ArmedListed(a: State, id: Id)
    requires Sound(a)
    ensures NULL !in a.h.cbs && (BufferCb(a.h, id) != NULL ==> BufferCb(a.h, id) in a.h.cbs)
  {
    NoNullNode(a.h);
    CbListed(a.h, id, BufferCb(a.h, id));
  }

  /** How often the buffer under id is replaced between i and n. */
  function Replaced(steps: seq<Step>, trace: seq<State>, i: nat, n: nat, id: Id): nat
    requires i <= n <= |steps| && n <= |trace|
    decreases n
  {
    if n == i then 0 else Replaced(steps, trace, i, n - 1, id) + Is(Replaces(trace[n - 1].h, steps[n - 1], id))
  }

  /** How often a buffer under id is destroyed with its callback armed. */
  function Abandoned(steps: seq<Step>, trace: seq<State>, i: nat, n: nat, id: Id): nat
    requires i <= n <= |steps| && n <= |trace|
    decreases n
  {
    if n == i then 0 else Abandoned(steps, trace, i, n - 1, id) + Is(Abandons(trace[n - 1].h, steps[n - 1], id))
  }

  /** Over any part of a run, the commits that replaced the buffer under id are its releases, and one more
      while its callback is armed, unless it was destroyed with the callback armed. */
  lemma {:induction false} ReplacementsReleased(steps: seq<Step>, trace: seq<State>, i: nat, n: nat, id: Id)
    requires IsRun(steps, trace) && i <= n < |trace|
    ensures trace[i].sent <= trace[n].sent
    ensures Is(BufferCb(trace[i].h, id) != NULL) + Replaced(steps, trace, i, n, id) ==
      Sends(Sent(trace[i], trace[n]), Release(id)) + Is(BufferCb(trace[n].h, id) != NULL) +
      Abandoned(steps, trace, i, n, id)
    decreases n
  {
    hide Sound, Takes, BufferCb, Replaces, Abandons;
    if n > i {
      ReplacementsReleased(steps, trace, i, n - 1, id);
      StepOf(steps, trace, n - 1);
      ReleaseStep(trace[n - 1], steps[n - 1], trace[n], id);
      SentOn(trace[i], trace[n - 1], trace[n], Release(id));
    }
  }

  lemma SentOn(a: State, b: State, c: State, e: Event)
    requires a.sent <= b.sent <= c.sent
    ensures a.sent <= c.sent && Sends(Sent(a, c), e) == Sends(Sent(a, b), e) + Sends(Sent(b, c), e)
  {
    SendsAppend(Sent(a, b), Sent(b, c), e);
    assert Sent(a, c) == Sent(a, b) + Sent(b, c);
  }

  // ---------------------------------------------------------------- while it stays registered

  /** A buffer that is not destroyed meanwhile has lost no release. */
  lemma {:induction false} NoneAbandoned(steps: seq<Step>, trace: seq<State>, i: nat, n: nat, id: Id)
    requires i <= n <= |steps| && n <= |trace| && forall k :: i <= k < n ==> steps[k] != BufferDestroy(id)
    ensures Abandoned(steps, trace, i, n, id) == 0
    decreases n
  {
    if n > i { NoneAbandoned(steps, trace, i, n - 1, id); }
  }

  /** From the creation of a buffer on, and until it is destroyed, its releases are the commits that
      replaced it, but for one that its armed callback has still to tell. */
  lemma EveryReplacementReleased(steps: seq<Step>, trace: seq<State>, i: nat, n: nat, id: Id)
    requires IsRun(steps, trace) && i < n < |trace| && steps[i].CreateBuffer? && steps[i].id == id
    requires id !in trace[i].h.reg && forall k :: i < k < n ==> steps[k] != BufferDestroy(id)
    ensures trace[i].sent <= trace[n].sent
    ensures Replaced(steps, trace, i, n, id) ==
      Sends(Sent(trace[i], trace[n]), Release(id)) + Is(BufferCb(trace[n].h, id) != NULL)
  {
    hide Replaces, Sound, Takes;
    ReplacementsReleased(steps, trace, i, n, id);
    NoneAbandoned(steps, trace, i, n, id);
  }

  /** The callback of a buffer stays armed until its output flips or the buffer is destroyed. */
  lemma {:induction false} StaysArmed(steps: seq<Step>, trace: seq<State>, i: nat, j: nat, id: Id, o: OutputId)
    requires IsRun(steps, trace) && i <= j < |trace| && ArmedFor(trace[i].h, id, o)
    requires forall k :: i <= k < j ==> steps[k] != Flip(o) && steps[k] != BufferDestroy(id)
    ensures ArmedFor(trace[j].h, id, o) && BufferCb(trace[j].h, id) == BufferCb(trace[i].h, id)
    decreases j
  {
    hide Sound, Takes, ArmedFor, BufferCb, Stepped;
    if i < j {
      StaysArmed(steps, trace, i, j - 1, id, o);
      StepOf(steps, trace, j - 1);
      ArmedOn(trace[j - 1], steps[j - 1], trace[j], id, o);
    }
  }

  /** The buffer under id waits for a flip of output o. */
  predicate ArmedFor(h: Heap, id: Id, o: OutputId) {
    BufferCb(h, id) != NULL && BufferCb(h, id) in h.cbs && h.cbs[BufferCb(h, id)].output == o
  }

  lemma ArmedOn(a: State, t: Step, b: State, id: Id, o: OutputId)
    requires Sound(a) && Sound(b) && Takes(a, t, b) && ArmedFor(a.h, id, o)
    requires t != Flip(o) && t != BufferDestroy(id)
    ensures ArmedFor(b.h, id, o) && BufferCb(b.h, id) == BufferCb(a.h, id)
  {
    hide Sound, Takes, BufferCb, Replaces, CanWait, NoRelease, Sends;
    if t.SurfaceCommit? {
      CommitReleases(a, t, b, id);
      FreeCallback(a.h, t, id);
    } else if t.Flip? {
      FlipTaken(a, t.o, b);
      FlipReleases(a, t.o, b, id);
    } else if t.BufferDestroy? {
      BufferGone(a, t, b, id);
    } else {
      OtherReleases(a, t, b, id);
    }
    ListedStill(a, t, b, id);
  }

  /** Where a callback is listed does not change while it is. */
  lemma ListedStill(a: State, t: Step, b: State, id: Id)
    requires Sound(a) && Sound(b) && Takes(a, t, b)
    requires BufferCb(a.h, id) == BufferCb(b.h, id) != NULL
    ensures BufferCb(b.h, id) in b.h.cbs && BufferCb(a.h, id) in a.h.cbs
    ensures b.h.cbs[BufferCb(b.h, id)] == a.h.cbs[BufferCb(a.h, id)]
  {
    hide Takes, BufferCb;
    var x := BufferCb(a.h, id);
    ArmedListed(a, id);
    ArmedListed(b, id);
    hide Sound;
    SameCallback(a, t, b, x);
  }

  lemma SameCallback(a: State, t: Step, b: State, x: Ptr)
    requires Takes(a, t, b) && x in a.h.cbs && x in b.h.cbs
    ensures b.h.cbs[x] == a.h.cbs[x]
  {
    hide Takes;
    if IsBufferStep(t) {
      BufferCallbacks(a, t, b);
    } else if t.SurfaceDestroy? {
      DestroyCallbacks(a, t, b, x);
    } else if IsSurfaceStep(t) || t.SurfaceFrame? {
      SurfaceCallbacks(a, t, b, x);
    } else if IsLinkStep(t) {
      LinkCallbacks(a, t, b);
    } else {
      SceneCallbacks(a, t, b, x);
    }
  }

  lemma BufferCallbacks(a: State, t: Step, b: State)
    requires Takes(a, t, b) && IsBufferStep(t)
    ensures b.h.cbs == a.h.cbs
  {
    hide SurfaceEffect, LinkEffect, SceneEffect, Admissible, BufferObjects.PoolDestroyed, BufferObjects.BufferCreated;
    hide BufferObjects.BufferDestroyed;
  }

  lemma DestroyCallbacks(a: State, t: Step, b: State, x: Ptr)
    requires Takes(a, t, b) && t.SurfaceDestroy? && x in a.h.cbs && x in b.h.cbs
    ensures b.h.cbs[x] == a.h.cbs[x]
  {
    hide BufferEffect, LinkEffect, SceneEffect, Admissible, Erased, RolesKept, SurfaceDestroy.DestroyedLists;
    hide SurfaceDestroy.DiscardEvents;
  }

  lemma SurfaceCallbacks(a: State, t: Step, b: State, x: Ptr)
    requires Takes(a, t, b) && (IsSurfaceStep(t) || t.SurfaceFrame?) && x in a.h.cbs && x in b.h.cbs
    ensures b.h.cbs[x] == a.h.cbs[x]
  {
    hide BufferEffect, LinkEffect, SceneEffect, CommitOutcome, Surfaces.Attached, OthersKept, ReleaseNow;
    hide CommittedLists;
  }

  lemma LinkCallbacks(a: State, t: Step, b: State)
    requires Takes(a, t, b) && IsLinkStep(t)
    ensures b.h.cbs == a.h.cbs
  {
    hide BufferEffect, SurfaceEffect, SceneEffect, Admissible, SatelliteDestroyed, XdgShell.XdgSurfaceDestroyed;
    hide XdgShell.ToplevelDestroyed, SubsurfaceLinks.SubsurfaceLinked, Viewporter.ViewportLinked;
    hide XdgShell.XdgSurfaceLinked, XdgShell.ToplevelCreated, SceneQuads.Ranked, SubsurfaceSync.Family;
  }

  lemma SceneCallbacks(a: State, t: Step, b: State, x: Ptr)
    requires Takes(a, t, b) && (IsSceneStep(t) || t.Flip?) && x in a.h.cbs && x in b.h.cbs
    ensures b.h.cbs[x] == a.h.cbs[x]
  {
    hide BufferEffect, SurfaceEffect, LinkEffect, Staying, FlipEvents, AnswersDone, Settled, Tallied, FeedbacksTold;
    hide QueuesTold, StructureKept, SceneQuads.Ranked, SceneQuads.Painted;
  }

  /** Once armed, the next flip of its output tells the buffer released, exactly once and not earlier by
      this callback, unless the buffer has been destroyed. */
  lemma NextFlipReleases(steps: seq<Step>, trace: seq<State>, i: nat, j: nat, id: Id, o: OutputId)
    requires IsRun(steps, trace) && i <= j < |trace| - 1 && ArmedFor(trace[i].h, id, o) && steps[j] == Flip(o)
    requires forall k :: i <= k < j ==> steps[k] != Flip(o) && steps[k] != BufferDestroy(id)
    ensures ArmedFor(trace[j].h, id, o) && trace[j].sent <= trace[j + 1].sent
    ensures Sends(Sent(trace[j], trace[j + 1]), Release(id)) == 1 && BufferCb(trace[j + 1].h, id) == NULL
  {
    hide Sound, Takes, ArmedFor, BufferCb, Stepped;
    StaysArmed(steps, trace, i, j, id, o);
    StepOf(steps, trace, j);
    FlipTaken(trace[j], o, trace[j + 1]);
    FlipReleases(trace[j], o, trace[j + 1], id);
    IsArmed(trace[j].h, id, o);
  }

  lemma IsArmed(h: Heap, id: Id, o: OutputId)
    requires ArmedFor(h, id, o)
    ensures BufferCb(h, id) != NULL && BufferCb(h, id) in h.cbs && h.cbs[BufferCb(h, id)].output == o
  {
  }

  /** A commit that lets the replaced buffer wait arms it for the output of the surface. */
  lemma ReplacedWaits(a: State, t: Step, b: State, id: Id)
    requires Sound(a) && Sound(b) && Takes(a, t, b) && Replaces(a.h, t, id) && CanWait(a.h, t, id)
    ensures ArmedFor(b.h, id, a.h.mem[a.h.reg[t.id].data].body.output)
  {
    hide Sound, Takes, BufferCb;
    CommitReleases(a, t, b, id);
  }
}
