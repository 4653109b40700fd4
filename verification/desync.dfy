/** What `wl_subsurface.set_desync` is for: once a child is desynchronized, its parent can be committed
    whatever is destroyed below it. */
module Desynchronized {
  import opened Memory
  import opened Invariant
  import opened Erasure
  import opened Creation
  import opened QuietSteps
  import opened ClientState
  import opened Commits
  import opened PageFlips
  import opened Steps
  import opened Traces
  import opened SceneQuads
  import opened SubsurfaceSync
  import BufferObjects
  import Surfaces
  import SubsurfaceLinks
  import Viewporter
  import XdgShell
  import FrameRequests
  import SurfaceDestroy

  /** As a child of s, c is not synchronized. */
  predicate Calm(h: Heap, s: Ptr, c: Ptr) { c in ChildrenOf(h.mem, s) ==> !SyncedChild(h, c) }

  /** The steps that can synchronize child c of s: becoming a child, and `set_sync` above it. */
  predicate Stirs(h: Heap, t: Step, s: Ptr, c: Ptr) {
    match t
    case GetSubsurface(_, _, parentId, p) => p == c && parentId in h.reg && h.reg[parentId].data == s
    case SetSync(id, sync, rank) =>
      && sync && c in ChildrenOf(h.mem, s) && Ranked(h.mem, rank)
      && id in h.reg && c in Family(h.mem, rank, h.reg[id].data)
    case _ => false
  }

  // ---------------------------------------------------------------- every other step

  /** What a body may become: a surface gains no child, and the flag of a subsurface stays. */
  predicate Sheds(a: Body, b: Body) {
    && (b.Surface? ==> a.Surface? && forall c :: c in b.children ==> c in a.children)
    && (b.Subsurface? ==> a.Subsurface? && b.sync == a.sync)
  }

  /** New blocks are neither subsurfaces nor surfaces with children. */
  predicate AllShed(m: map<Ptr, Block>, m': map<Ptr, Block>) {
    forall q :: q in m' ==>
      (q in m && Sheds(m[q].body, m'[q].body)) ||
      (!m'[q].body.Subsurface? && (m'[q].body.Surface? ==> m'[q].body.children == []))
  }

  lemma ShedStaysCalm(h: Heap, h': Heap, s: Ptr, c: Ptr)
    requires AllShed(h.mem, h'.mem) && Calm(h, s, c)
    ensures Calm(h', s, c)
  {
  }

  /** Child slots that are empty or as before, and subsurfaces as before. */
  lemma LinksShed(h: Heap, h': Heap)
    requires CoreInv(h')
    requires forall s, c :: Target(h', Child(s, c)) == Target(h, Child(s, c)) || Target(h', Child(s, c)) == NULL
    requires forall q :: q in h'.mem && h'.mem[q].body.Surface? && h'.mem[q].body.children != [] ==>
      q in h.mem && h.mem[q].body.Surface?
    requires forall q :: q in h'.mem && h'.mem[q].body.Subsurface? ==>
      q in h.mem && h.mem[q].body.Subsurface? && h'.mem[q].body.sync == h.mem[q].body.sync
    ensures AllShed(h.mem, h'.mem)
  {
    hide Target;
    forall q, c | q in h'.mem && h'.mem[q].body.Surface? && c in h'.mem[q].body.children
      ensures q in h.mem && h.mem[q].body.Surface? && c in h.mem[q].body.children
    {
      assert h'.mem[q].body.children != [];
      ChildSlot(h', q, c);
      ChildSlotBack(h, q, c);
    }
  }

  lemma ChildSlot(h: Heap, s: Ptr, c: Ptr)
    requires CoreInv(h) && s in h.mem && h.mem[s].body.Surface? && c in h.mem[s].body.children
    ensures Target(h, Child(s, c)) == c != NULL
  {
    assert WellFormed(h.mem[s].body);
  }

  lemma ChildSlotBack(h: Heap, s: Ptr, c: Ptr)
    requires s in h.mem && h.mem[s].body.Surface? && Target(h, Child(s, c)) == c != NULL
    ensures c in h.mem[s].body.children
  {
  }

  lemma BufferShed(a: State, t: Step, b: State)
    requires Sound(a) && Takes(a, t, b) && IsBufferStep(t)
    ensures AllShed(a.h.mem, b.h.mem)
  {
    hide Inv, Target, ListsOk, SurfaceEffect, LinkEffect, SceneEffect, Admissible;
  }

  lemma SurfaceShed(a: State, t: Step, b: State)
    requires Sound(a) && Sound(b) && Takes(a, t, b) && (IsSurfaceStep(t) || t.SurfaceFrame?)
    ensures AllShed(a.h.mem, b.h.mem)
  {
    hide Sound, Takes, AllShed;
    if a == b {
      SameShed(a.h);
    } else if t.SurfaceCommit? {
      CommitTaken(a, t, b);
      SoundCore(b);
      CommitShed(a.h, b.h, a.h.reg[t.id].data, t.focused, t.a1, t.a2);
    } else if t.SurfaceAttach? {
      AttachShed(a, t, b);
    } else {
      RequestShed(a, t, b);
    }
  }

  lemma AttachShed(a: State, t: Step, b: State)
    requires Takes(a, t, b) && a != b && t.SurfaceAttach?
    ensures AllShed(a.h.mem, b.h.mem)
  {
    hide BufferEffect, LinkEffect, SceneEffect, Admissible, Target;
  }

  lemma RequestShed(a: State, t: Step, b: State)
    requires Takes(a, t, b) && (t.CreateSurface? || t.SurfaceFrame? || t.Feedback?)
    ensures AllShed(a.h.mem, b.h.mem)
  {
    hide BufferEffect, LinkEffect, SceneEffect, Admissible;
  }

  lemma CommitShed(h: Heap, h': Heap, s: Ptr, focused: OutputId, a1: Ptr, a2: Ptr)
    requires Committed(h, h', s, focused, a1, a2) && CoreInv(h')
    ensures AllShed(h.mem, h'.mem)
  {
    NoNullBlock(h');
    hide CoreInv, ArmsRelease;
  }

  lemma DestroyShed(a: State, t: Step, b: State)
    requires Sound(b) && Takes(a, t, b) && t.SurfaceDestroy?
    ensures AllShed(a.h.mem, b.h.mem)
  {
    hide Takes, Sound;
    DestroyTaken(a, t, b);
    SoundCore(b);
    DestroyedShed(a.h, b.h, t.id);
  }

  lemma DestroyTaken(a: State, t: Step, b: State)
    requires Takes(a, t, b) && t.SurfaceDestroy?
    ensures SurfaceDestroy.SurfaceDestroyed(a.h, b.h, t.id)
  {
    hide BufferEffect, LinkEffect, SceneEffect, Admissible, SurfaceDestroy.DiscardEvents, SurfaceDestroy.DestroyedLists;
    hide SurfaceDestroy.SurfaceDestroyed;
  }

  lemma DestroyedShed(h: Heap, h': Heap, id: Id)
    requires CoreInv(h') && SurfaceDestroy.SurfaceDestroyed(h, h', id)
    ensures AllShed(h.mem, h'.mem)
  {
    hide CoreInv, Target, AllShed, RolesKept;
    assert forall s, c :: Target(h', Child(s, c)) == Target(h, Child(s, c)) || Target(h', Child(s, c)) == NULL;
    LinksShed(h, h');
  }

  /** The links of a surface to anything but its children come and go. */
  lemma LinkShed(a: State, t: Step, b: State)
    requires Sound(b) && Takes(a, t, b) && IsLinkStep(t) && !t.GetSubsurface? && !t.SetSync?
    ensures AllShed(a.h.mem, b.h.mem)
  {
    SoundCore(b);
    hide Sound, CoreInv, AllShed, Takes;
    if a == b {
      SameShed(a.h);
    } else if t.GetViewport? || t.GetXdgSurface? || t.GetToplevel? {
      LinkedShed(a, t, b);
    } else {
      UnlinkTaken(a, t, b);
      WeakenedShed(a.h, b.h);
    }
  }

  lemma UnlinkTaken(a: State, t: Step, b: State)
    requires Takes(a, t, b)
    requires (t.SubsurfaceDestroy? || t.ViewportDestroy? || t.XdgSurfaceDestroy? || t.ToplevelDestroy?)
    ensures Weakens(a.h, b.h)
    ensures forall s, c :: Target(b.h, Child(s, c)) == Target(a.h, Child(s, c)) || Target(b.h, Child(s, c)) == NULL
  {
    hide BufferEffect, SurfaceEffect, SceneEffect, Admissible, Target, RolesKept, RolesKeptBut, Weakens;
  }

  lemma SameShed(h: Heap)
    ensures AllShed(h.mem, h.mem)
  {
  }

  lemma LinkedShed(a: State, t: Step, b: State)
    requires CoreInv(b.h) && Takes(a, t, b) && a != b && (t.GetViewport? || t.GetXdgSurface? || t.GetToplevel?)
    ensures AllShed(a.h.mem, b.h.mem)
  {
    hide BufferEffect, SurfaceEffect, SceneEffect, Admissible, CoreInv, Target, RolesKept, RolesKeptBut, AllShed;
    LinksShed(a.h, b.h);
  }

  lemma WeakenedShed(h: Heap, h': Heap)
    requires CoreInv(h') && Weakens(h, h')
    requires forall s, c :: Target(h', Child(s, c)) == Target(h, Child(s, c)) || Target(h', Child(s, c)) == NULL
    ensures AllShed(h.mem, h'.mem)
  {
    hide CoreInv, Target, WellFormedBodies, Live;
    LinksShed(h, h');
  }

  lemma SceneShed(a: State, t: Step, b: State)
    requires Takes(a, t, b) && (IsSceneStep(t) || t.Flip?)
    ensures AllShed(a.h.mem, b.h.mem)
  {
    hide BufferEffect, SurfaceEffect, LinkEffect, Admissible;
    hide Staying, FlipEvents, AnswersDone, QueuesTold, Settled, Ranked, Painted;
  }

  /** A subsurface joins the children of one surface, all of which keep their flags. */
  lemma AdoptionCalm(a: State, t: Step, b: State, s: Ptr, c: Ptr)
    requires Sound(a) && Sound(b) && Takes(a, t, b) && t.GetSubsurface? && Calm(a.h, s, c) && !Stirs(a.h, t, s, c)
    ensures Calm(b.h, s, c)
  {
    hide Sound, Takes, Calm, Stirs;
    if a != b {
      AdoptionTaken(a, t, b);
      SoundCore(a);
      SoundCore(b);
      AdoptedCalm(a.h, b.h, t, s, c);
    }
  }

  lemma AdoptionTaken(a: State, t: Step, b: State)
    requires Takes(a, t, b) && t.GetSubsurface? && a != b
    ensures t.surfaceId in a.h.reg && t.parentId in a.h.reg
    ensures SubsurfaceLinks.SubsurfaceLinked(a.h, b.h, a.h.reg[t.surfaceId].data, a.h.reg[t.parentId].data, t.p, t.id)
  {
    hide BufferEffect, SurfaceEffect, SceneEffect, Admissible, SubsurfaceLinks.SubsurfaceLinked;
  }

  lemma AdoptedCalm(h: Heap, h': Heap, t: Step, s: Ptr, c: Ptr)
    requires CoreInv(h) && CoreInv(h') && t.GetSubsurface? && t.surfaceId in h.reg && t.parentId in h.reg
    requires SubsurfaceLinks.SubsurfaceLinked(h, h', h.reg[t.surfaceId].data, h.reg[t.parentId].data, t.p, t.id)
    requires Calm(h, s, c) && !Stirs(h, t, s, c)
    ensures Calm(h', s, c)
  {
    hide CoreInv, Target;
    if c in ChildrenOf(h'.mem, s) {
      ChildSlot(h', s, c);
      assert Target(h, Child(s, c)) == c;
      ChildOfAnySurface(h, s, c);
    }
  }

  lemma ChildOfAnySurface(h: Heap, s: Ptr, c: Ptr)
    requires CoreInv(h) && Target(h, Child(s, c)) == c != NULL
    ensures c in ChildrenOf(h.mem, s) && c in h.mem
  {
    hide CoreInv;
    ChildSurface(h, s, c);
  }

  lemma FlagsCalm(a: State, t: Step, b: State, s: Ptr, c: Ptr)
    requires Takes(a, t, b) && t.SetSync? && Calm(a.h, s, c) && !Stirs(a.h, t, s, c)
    ensures Calm(b.h, s, c)
  {
    hide BufferEffect, SurfaceEffect, SceneEffect, Ranked, AllNested;
  }

  lemma StepSheds(a: State, t: Step, b: State)
    requires Sound(a) && Sound(b) && Takes(a, t, b) && !t.GetSubsurface? && !t.SetSync?
    ensures AllShed(a.h.mem, b.h.mem)
  {
    hide Sound, Takes, AllShed;
    if IsBufferStep(t) {
      BufferShed(a, t, b);
    } else if IsSurfaceStep(t) || t.SurfaceFrame? {
      SurfaceShed(a, t, b);
    } else if t.SurfaceDestroy? {
      DestroyShed(a, t, b);
    } else if IsLinkStep(t) {
      LinkShed(a, t, b);
    } else {
      SceneShed(a, t, b);
    }
  }

  lemma StaysCalm(a: State, t: Step, b: State, s: Ptr, c: Ptr)
    requires Sound(a) && Sound(b) && Takes(a, t, b) && Calm(a.h, s, c) && !Stirs(a.h, t, s, c)
    ensures Calm(b.h, s, c)
  {
    hide Sound, Takes, Calm, Stirs, AllShed;
    if t.GetSubsurface? {
      AdoptionCalm(a, t, b, s, c);
    } else if t.SetSync? {
      FlagsCalm(a, t, b, s, c);
    } else {
      StepSheds(a, t, b);
      ShedStaysCalm(a.h, b.h, s, c);
    }
  }

  // ---------------------------------------------------------------- along a run

  /** No step from i to j synchronizes child c of s. */
  predicate Untouched(steps: seq<Step>, trace: seq<State>, i: nat, j: nat, s: Ptr, c: Ptr)
    requires j <= |steps| && j <= |trace|
  {
    forall k :: i <= k < j ==> !Stirs(trace[k].h, steps[k], s, c)
  }

  /** No step from i to j synchronizes any child of s. */
  ghost predicate LeftAlone(steps: seq<Step>, trace: seq<State>, i: nat, j: nat, s: Ptr)
    requires j <= |steps| && j <= |trace|
  {
    forall c :: Untouched(steps, trace, i, j, s, c)
  }

  /** No child of s is synchronized. */
  ghost predicate AllCalm(h: Heap, s: Ptr) { forall c :: Calm(h, s, c) }

  /** A child that is not synchronized stays so, whatever is destroyed meanwhile. */
  lemma {:induction false} CalmAlong(steps: seq<Step>, trace: seq<State>, i: nat, j: nat, s: Ptr, c: Ptr)
    requires IsRun(steps, trace) && i <= j < |trace| && Calm(trace[i].h, s, c) && Untouched(steps, trace, i, j, s, c)
    ensures Calm(trace[j].h, s, c)
    decreases j
  {
    hide Sound, Takes, Calm, Stirs;
    if i < j {
      CalmAlong(steps, trace, i, j - 1, s, c);
      assert Takes(trace[j - 1], steps[j - 1], trace[j]);
      StaysCalm(trace[j - 1], steps[j - 1], trace[j], s, c);
    }
  }

  /** A surface none of whose children is synchronized can be committed from then on, whichever of
      their surfaces have been destroyed. */
  lemma CalmParentSafe(steps: seq<Step>, trace: seq<State>, i: nat, j: nat, s: Ptr, oversized: set<Ptr>)
    requires IsRun(steps, trace) && i <= j < |trace| && s in trace[j].h.mem && trace[j].h.mem[s].body.Surface?
    requires AllCalm(trace[i].h, s) && LeftAlone(steps, trace, i, j, s)
    ensures !CommitOutcome(trace[j].h, s, oversized).ReadsNull?
  {
    hide Sound, Takes, CommitOutcome, Untouched;
    var h := trace[j].h;
    forall k | 0 <= k < |h.mem[s].body.children| ensures !Orphan(h, h.mem[s].body.children[k]) {
      CalmAlong(steps, trace, i, j, s, h.mem[s].body.children[k]);
    }
    SoundCore(trace[j]);
    CommitSafe(h, s);
  }

  // ---------------------------------------------------------------- set_desync

  /** The flag goes through the whole family and nothing else changes. */
  lemma FamilyFlags(a: State, t: Step, b: State)
    requires Takes(a, t, b) && t.SetSync? && !t.sync
    ensures Ranked(a.h.mem, t.rank) && t.id in a.h.reg
    ensures forall s :: ChildrenOf(b.h.mem, s) == ChildrenOf(a.h.mem, s)
    ensures forall x :: x in Family(a.h.mem, t.rank, a.h.reg[t.id].data) ==> !SyncedChild(b.h, x)
  {
    hide BufferEffect, SurfaceEffect, SceneEffect, Ranked, AllNested, Family;
  }

  predicate Desyncs(h: Heap, t: Step, x: Ptr) {
    t.SetSync? && !t.sync && Ranked(h.mem, t.rank) && t.id in h.reg && x in Family(h.mem, t.rank, h.reg[t.id].data)
  }

  /** After set_desync at i no commit of a surface in that tree reads through a missing surface, as long
      as that surface gets no new child and none of its children is synchronized again. */
  lemma DesyncedTreeSafe(steps: seq<Step>, trace: seq<State>, i: nat, j: nat, x: Ptr, s: Ptr, oversized: set<Ptr>)
    requires IsRun(steps, trace) && i < j < |trace| && s in trace[j].h.mem && trace[j].h.mem[s].body.Surface?
    requires Desyncs(trace[i].h, steps[i], x) && SurfaceOf(trace[i].h.mem, x) == s
    requires LeftAlone(steps, trace, i + 1, j, s)
    ensures !CommitOutcome(trace[j].h, s, oversized).ReadsNull?
  {
    hide Sound, Takes, CommitOutcome, LeftAlone, Family, Ranked, Stirs, SyncedChild;
    assert Takes(trace[i], steps[i], trace[i + 1]);
    FamilyFlags(trace[i], steps[i], trace[i + 1]);
    var h, h' := trace[i].h, trace[i + 1].h;
    forall c ensures Calm(h', s, c) {
      if c in ChildrenOf(h.mem, s) { FamilyClosed(h.mem, steps[i].rank, h.reg[steps[i].id].data, x, c); }
    }
    CalmParentSafe(steps, trace, i + 1, j, s, oversized);
  }

  /** Nor does a commit of any surface read through the missing surface of a member of that tree. */
  lemma DesyncedNeverOrphan(steps: seq<Step>, trace: seq<State>, i: nat, j: nat, x: Ptr, s: Ptr)
    requires IsRun(steps, trace) && i < j < |trace| && Desyncs(trace[i].h, steps[i], x)
    requires Untouched(steps, trace, i + 1, j, s, x) && x in ChildrenOf(trace[j].h.mem, s)
    ensures !Orphan(trace[j].h, x)
  {
    hide Sound, Takes, Untouched, Family, Ranked, Stirs;
    assert Takes(trace[i], steps[i], trace[i + 1]);
    FamilyFlags(trace[i], steps[i], trace[i + 1]);
    CalmAlong(steps, trace, i + 1, j, s, x);
  }
}
