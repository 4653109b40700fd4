/** What `wl_subsurface.set_sync` is for: the state of a synchronized subsurface is not applied by its own
    commits, whatever happens around it. */
module Deferral {
  import opened Memory
  import opened Invariant
  import opened Erasure
  import opened Creation
  import opened QuietSteps
  import opened ClientState
  import opened Commits
  import opened PageFlips
  import opened Steps
  import opened Traces
  import opened Accounts
  import opened Desynchronized
  import opened SceneQuads
  import opened SubsurfaceSync
  import BufferObjects
  import Surfaces
  import SubsurfaceLinks
  import Viewporter
  import XdgShell
  import FrameRequests
  import SurfaceDestroy

  // ---------------------------------------------------------------- what set_sync and set_desync write

  /** The flag of p after a walk over the family with this value. */
  predicate FlagIs(mem: map<Ptr, Block>, mem': map<Ptr, Block>, p: Ptr, sync: bool) {
    && p in mem && mem[p].body.Subsurface? && p in mem'
    && mem'[p] == Block(mem[p].refs, Subsurface(mem[p].body.obj, mem[p].body.surface, mem[p].body.parent, sync))
  }

  /** Every member of the family has the flag asked for, every other subsurface the one it had, and nothing
      else is different. */
  lemma FlagsWritten(a: State, t: Step, b: State)
    requires Takes(a, t, b) && t.SetSync?
    ensures Ranked(a.h.mem, t.rank) && t.id in a.h.reg && b.h.mem.Keys == a.h.mem.Keys
    ensures b == a.(h := a.h.(mem := b.h.mem))
    ensures var family := Family(a.h.mem, t.rank, a.h.reg[t.id].data);
      forall p :: p in a.h.mem ==>
        if !a.h.mem[p].body.Subsurface? then b.h.mem[p] == a.h.mem[p]
        else FlagIs(a.h.mem, b.h.mem, p, if p in family then t.sync else a.h.mem[p].body.sync)
  {
    hide BufferEffect, SurfaceEffect, SceneEffect, Ranked, AllNested, Family;
  }

  // ---------------------------------------------------------------- a synchronized surface stays so

  /** Surface s has the subsurface x, and x is synchronized. */
  ghost predicate SyncedAs(h: Heap, s: Ptr, x: Ptr) {
    Target(h, At(s, SurfaceSubsurface)) == x != NULL && SyncedChild(h, x)
  }

  /** The steps that end it: set_desync from above, and the destruction of either. */
  predicate Loosens(h: Heap, t: Step, s: Ptr, x: Ptr) {
    match t
    case SetSync(id, sync, rank) => !sync && Ranked(h.mem, rank) && id in h.reg &&
      x in Family(h.mem, rank, h.reg[id].data)
    case SubsurfaceDestroy(id) => id in h.reg && h.reg[id].data == x
    case SurfaceDestroy(id) => id in h.reg && h.reg[id].data == s
    case _ => false
  }

  /** What s and x are, as far as they are known from their link. */
  lemma LinkedPair(h: Heap, s: Ptr, x: Ptr)
    requires CoreInv(h) && Target(h, At(s, SurfaceSubsurface)) == x != NULL
    ensures s in h.mem && h.mem[s].body.Surface? && h.mem[s].body.subsurface == x
    ensures x in h.mem && h.mem[x].body.Subsurface? && h.mem[s].body.role == SubsurfaceRole
  {
    LinkEnds(h, At(s, SurfaceSubsurface));
    hide Typed, Mutual, Registered, Named, WellFormedBodies, Callbacks, Waiting;
  }

  /** A body keeps its subsurface. */
  predicate KeepsLink(m: map<Ptr, Block>, m': map<Ptr, Block>, s: Ptr) {
    s in m && m[s].body.Surface? && s in m' && m'[s].body.Surface? && m'[s].body.subsurface == m[s].body.subsurface
  }

  lemma LinkByBody(h: Heap, h': Heap, s: Ptr)
    requires KeepsLink(h.mem, h'.mem, s)
    ensures Target(h', At(s, SurfaceSubsurface)) == Target(h, At(s, SurfaceSubsurface))
  {
  }

  /** Unless a step ends it, the surface keeps its subsurface. */
  lemma LinkStays(a: State, t: Step, b: State, s: Ptr, x: Ptr)
    requires Sound(a) && Sound(b) && Takes(a, t, b) && SyncedAs(a.h, s, x) && !Loosens(a.h, t, s, x)
    ensures Target(b.h, At(s, SurfaceSubsurface)) == x
  {
    SoundCore(a);
    LinkedPair(a.h, s, x);
    hide Sound, Takes, Target, CoreInv, Loosens;
    if IsBufferStep(t) {
      BufferLink(a, t, b, s);
    } else if t.SurfaceDestroy? {
      DestroyLink(a, t, b, s, x);
    } else if t.SurfaceCommit? {
      CommitLink(a, t, b, s);
    } else if t.SurfaceAttach? {
      AttachLink(a, t, b, s);
    } else if IsSurfaceStep(t) || t.SurfaceFrame? {
      SurfaceLink(a, t, b, s);
    } else if t.SubsurfaceDestroy? || t.ViewportDestroy? {
      UnlinkLink(a, t, b, s, x);
    } else if IsLinkStep(t) {
      LinkLink(a, t, b, s, x);
    } else {
      SceneLink(a, t, b, s);
    }
  }

  lemma BufferLink(a: State, t: Step, b: State, s: Ptr)
    requires Sound(a) && Takes(a, t, b) && IsBufferStep(t) && s in a.h.mem && a.h.mem[s].body.Surface?
    ensures Target(b.h, At(s, SurfaceSubsurface)) == Target(a.h, At(s, SurfaceSubsurface))
  {
    hide Sound, SurfaceEffect, LinkEffect, SceneEffect;
  }

  lemma DestroyLink(a: State, t: Step, b: State, s: Ptr, x: Ptr)
    requires CoreInv(a.h) && Takes(a, t, b) && t.SurfaceDestroy? && !Loosens(a.h, t, s, x)
    requires s in a.h.mem && a.h.mem[s].body.Surface? && x in a.h.mem && a.h.mem[x].body.Subsurface?
    requires Target(a.h, At(s, SurfaceSubsurface)) == x
    ensures Target(b.h, At(s, SurfaceSubsurface)) == x
  {
    hide CoreInv, Target, BufferEffect, LinkEffect, SceneEffect, RolesKept, SurfaceDestroy.DestroyedLists;
    hide SurfaceDestroy.DiscardEvents;
  }

  lemma CommitLink(a: State, t: Step, b: State, s: Ptr)
    requires Sound(a) && Takes(a, t, b) && t.SurfaceCommit? && s in a.h.mem && a.h.mem[s].body.Surface?
    ensures Target(b.h, At(s, SurfaceSubsurface)) == Target(a.h, At(s, SurfaceSubsurface))
  {
    hide Takes, Target;
    if a != b {
      CommitTaken(a, t, b);
      var q := a.h.reg[t.id].data;
      CommittedSurface(a.h, b.h, q, t);
      Surfaces.ActiveIsBuffer(a.h, q);
      SoundCore(a);
      NoNullBlock(a.h);
      hide Sound, CommitOutcome, Committed;
      CommittedLink(a.h, b.h, q, t, s);
      LinkByBody(a.h, b.h, s);
    }
  }

  lemma CommittedSurface(h: Heap, h': Heap, q: Ptr, t: Step)
    requires t.SurfaceCommit? && Committed(h, h', q, t.focused, t.a1, t.a2)
    ensures q in h.mem && h.mem[q].body.Surface?
  {
    hide ArmsRelease, OthersKept;
  }

  lemma CommittedLink(h: Heap, h': Heap, q: Ptr, t: Step, s: Ptr)
    requires t.SurfaceCommit? && Committed(h, h', q, t.focused, t.a1, t.a2) && NULL !in h.mem
    requires q in h.mem && h.mem[q].body.Surface? && s in h.mem && h.mem[s].body.Surface?
    requires var x := h.mem[q].body.active; x != NULL ==> x in h.mem && h.mem[x].body.Buffer?
    ensures KeepsLink(h.mem, h'.mem, s)
  {
    hide ArmsRelease;
  }

  lemma AttachLink(a: State, t: Step, b: State, s: Ptr)
    requires Sound(a) && Takes(a, t, b) && t.SurfaceAttach? && s in a.h.mem && a.h.mem[s].body.Surface?
    ensures Target(b.h, At(s, SurfaceSubsurface)) == Target(a.h, At(s, SurfaceSubsurface))
  {
    hide BufferEffect, LinkEffect, SceneEffect, Target, Surfaces.Attached;
    if a != b {
      var q := a.h.reg[t.id].data;
      assert Surfaces.Attached(a.h, b.h, q, Target(a.h, Reg(t.bufferId)));
      Surfaces.ActiveIsBuffer(a.h, q);
      SoundCore(a);
      NoNullBlock(a.h);
      hide Takes, Sound, CoreInv;
      AttachedLink(a.h, b.h, q, Target(a.h, Reg(t.bufferId)), s);
    }
  }

  lemma AttachedLink(h: Heap, h': Heap, q: Ptr, b: Ptr, s: Ptr)
    requires Surfaces.Attached(h, h', q, b) && NULL !in h.mem && s in h.mem && h.mem[s].body.Surface?
    requires var x := h.mem[q].body.pending; x != NULL ==> x in h.mem && h.mem[x].body.Buffer?
    ensures Target(h', At(s, SurfaceSubsurface)) == Target(h, At(s, SurfaceSubsurface))
  {
    hide Target;
  }

  lemma SurfaceLink(a: State, t: Step, b: State, s: Ptr)
    requires Takes(a, t, b) && (t.CreateSurface? || t.SurfaceFrame? || t.Feedback?)
    requires s in a.h.mem && a.h.mem[s].body.Surface?
    ensures Target(b.h, At(s, SurfaceSubsurface)) == Target(a.h, At(s, SurfaceSubsurface))
  {
    hide BufferEffect, LinkEffect, SceneEffect;
  }

  lemma UnlinkLink(a: State, t: Step, b: State, s: Ptr, x: Ptr)
    requires CoreInv(a.h) && Takes(a, t, b) && (t.SubsurfaceDestroy? || t.ViewportDestroy?) && !Loosens(a.h, t, s, x)
    requires s in a.h.mem && a.h.mem[s].body.Surface? && x in a.h.mem && a.h.mem[x].body.Subsurface?
    requires Target(a.h, At(s, SurfaceSubsurface)) == x
    ensures Target(b.h, At(s, SurfaceSubsurface)) == x
  {
    hide CoreInv, Target, BufferEffect, SurfaceEffect, SceneEffect, RolesKept, RolesKeptBut, SatelliteDestroyed;
    DataIs(a.h, t.id);
    assert SatelliteDestroyed(a.h, b.h, t.id);
    hide Takes;
    SatelliteLink(a.h, b.h, t.id, s, x);
  }

  lemma SatelliteLink(h: Heap, h': Heap, id: Id, s: Ptr, x: Ptr)
    requires SatelliteDestroyed(h, h', id) && h.reg[id].data != x && h.reg[id].data != s && s in h.mem
    requires Target(h, At(s, SurfaceSubsurface)) == x
    ensures Target(h', At(s, SurfaceSubsurface)) == x
  {
    hide Target, Weakens;
  }

  lemma LinkLink(a: State, t: Step, b: State, s: Ptr, x: Ptr)
    requires Takes(a, t, b) && IsLinkStep(t) && !t.SubsurfaceDestroy? && !t.ViewportDestroy?
    requires s in a.h.mem && a.h.mem[s].body.Surface? && a.h.mem[s].body.role == SubsurfaceRole
    requires Target(a.h, At(s, SurfaceSubsurface)) == x
    ensures Target(b.h, At(s, SurfaceSubsurface)) == x
  {
    hide Takes, Target;
    if t.SetSync? {
      FlagsWritten(a, t, b);
      LinkByBody(a.h, b.h, s);
    } else {
      OtherLink(a, t, b, s, x);
    }
  }

  lemma OtherLink(a: State, t: Step, b: State, s: Ptr, x: Ptr)
    requires Takes(a, t, b) && IsLinkStep(t) && !t.SubsurfaceDestroy? && !t.ViewportDestroy? && !t.SetSync?
    requires s in a.h.mem && a.h.mem[s].body.Surface? && a.h.mem[s].body.role == SubsurfaceRole
    requires Target(a.h, At(s, SurfaceSubsurface)) == x
    ensures Target(b.h, At(s, SurfaceSubsurface)) == x
  {
    hide Target, BufferEffect, SurfaceEffect, SceneEffect, RolesKept, RolesKeptBut, Weakens;
  }

  lemma SceneLink(a: State, t: Step, b: State, s: Ptr)
    requires Takes(a, t, b) && (IsSceneStep(t) || t.Flip?) && s in a.h.mem && a.h.mem[s].body.Surface?
    ensures Target(b.h, At(s, SurfaceSubsurface)) == Target(a.h, At(s, SurfaceSubsurface))
  {
    hide BufferEffect, SurfaceEffect, LinkEffect, Ranked, Painted, Staying, FlipEvents, AnswersDone, Settled, Tallied;
    hide FeedbacksTold, QueuesTold;
  }

  /** And the subsurface keeps its flag. */
  lemma FlagStays(a: State, t: Step, b: State, s: Ptr, x: Ptr)
    requires Sound(a) && Sound(b) && Takes(a, t, b) && SyncedAs(a.h, s, x) && !Loosens(a.h, t, s, x)
    requires x in b.h.mem && b.h.mem[x].body.Subsurface?
    ensures b.h.mem[x].body.sync
  {
    hide Sound, Takes, Target, Loosens, AllShed;
    if t.SetSync? {
      SetFlagStays(a, t, b, s, x);
    } else if t.GetSubsurface? {
      NewFlag(a, t, b, x);
    } else {
      StepSheds(a, t, b);
      ShedFlag(a.h.mem, b.h.mem, x);
    }
  }

  lemma SetFlagStays(a: State, t: Step, b: State, s: Ptr, x: Ptr)
    requires Takes(a, t, b) && t.SetSync? && SyncedChild(a.h, x) && !Loosens(a.h, t, s, x)
    requires x in b.h.mem && b.h.mem[x].body.Subsurface?
    ensures b.h.mem[x].body.sync
  {
    hide Takes, Family, Ranked;
    FlagsWritten(a, t, b);
  }

  lemma NewFlag(a: State, t: Step, b: State, x: Ptr)
    requires Takes(a, t, b) && t.GetSubsurface? && SyncedChild(a.h, x) && x in b.h.mem && b.h.mem[x].body.Subsurface?
    ensures b.h.mem[x].body.sync
  {
    hide BufferEffect, SurfaceEffect, SceneEffect, Target;
  }

  lemma ShedFlag(m: map<Ptr, Block>, m': map<Ptr, Block>, x: Ptr)
    requires AllShed(m, m') && x in m' && m'[x].body.Subsurface? && (x in m && m[x].body.Subsurface? ==> m[x].body.sync)
    ensures m'[x].body.sync
  {
  }

  lemma SyncedOn(a: State, t: Step, b: State, s: Ptr, x: Ptr)
    requires Sound(a) && Sound(b) && Takes(a, t, b) && SyncedAs(a.h, s, x) && !Loosens(a.h, t, s, x)
    ensures SyncedAs(b.h, s, x)
  {
    LinkStays(a, t, b, s, x);
    SoundCore(b);
    LinkedPair(b.h, s, x);
    FlagStays(a, t, b, s, x);
    hide Sound, Takes, Target, Loosens;
  }

  // ---------------------------------------------------------------- along a run

  /** No step from i to j loosens x from s. */
  predicate Held(steps: seq<Step>, trace: seq<State>, i: nat, j: nat, s: Ptr, x: Ptr)
    requires j <= |steps| && j <= |trace|
  {
    forall k :: i <= k < j ==> !Loosens(trace[k].h, steps[k], s, x)
  }

  lemma {:induction false} SyncedAlong(steps: seq<Step>, trace: seq<State>, i: nat, j: nat, s: Ptr, x: Ptr)
    requires IsRun(steps, trace) && i <= j < |trace| && SyncedAs(trace[i].h, s, x) && Held(steps, trace, i, j, s, x)
    ensures SyncedAs(trace[j].h, s, x)
    decreases j
  {
    hide Sound, Takes, SyncedAs, Loosens;
    if i < j {
      SyncedAlong(steps, trace, i, j - 1, s, x);
      assert Takes(trace[j - 1], steps[j - 1], trace[j]);
      SyncedOn(trace[j - 1], steps[j - 1], trace[j], s, x);
    }
  }

  /** A commit of a synchronized surface succeeds whatever its viewport asks for and whatever became of its
      children: nothing of its state is applied, so nothing can be refused. */
  lemma SyncedDeferred(h: Heap, s: Ptr, x: Ptr, oversized: set<Ptr>)
    requires CoreInv(h) && SyncedAs(h, s, x)
    ensures CommitOutcome(h, s, oversized) == Status(0)
  {
    LinkedPair(h, s, x);
    hide CoreInv, Target;
  }

  /** After set_sync at i, every later commit of a surface in that tree is deferred, until set_desync
      reaches its subsurface or one of the two is destroyed. */
  lemma SyncedTreeDeferred(steps: seq<Step>, trace: seq<State>, i: nat, j: nat, s: Ptr, x: Ptr, oversized: set<Ptr>)
    requires IsRun(steps, trace) && i < j < |trace| && steps[i].SetSync? && steps[i].sync
    requires Ranked(trace[i].h.mem, steps[i].rank) && steps[i].id in trace[i].h.reg
    requires x in Family(trace[i].h.mem, steps[i].rank, trace[i].h.reg[steps[i].id].data)
    requires s == SurfaceOf(trace[i].h.mem, x) && Held(steps, trace, i + 1, j, s, x)
    ensures CommitOutcome(trace[j].h, s, oversized) == Status(0)
  {
    hide Sound, Takes, Loosens, SyncedAs, CommitOutcome, Family, Ranked;
    assert Takes(trace[i], steps[i], trace[i + 1]);
    MemberSynced(trace[i], steps[i], trace[i + 1], s, x);
    SyncedAlong(steps, trace, i + 1, j, s, x);
    SoundCore(trace[j]);
    SyncedDeferred(trace[j].h, s, x, oversized);
  }

  lemma MemberSynced(a: State, t: Step, b: State, s: Ptr, x: Ptr)
    requires Sound(a) && Sound(b) && Takes(a, t, b) && t.SetSync? && t.sync && Ranked(a.h.mem, t.rank)
    requires t.id in a.h.reg
    requires x in Family(a.h.mem, t.rank, a.h.reg[t.id].data) && s == SurfaceOf(a.h.mem, x)
    ensures SyncedAs(b.h, s, x)
  {
    FlagsWritten(a, t, b);
    MemberNested(a, t, b, x);
    SoundCore(a);
    hide Sound, Takes, Family, Ranked;
    BackLink(a.h, s, x);
    LinkByBody(a.h, b.h, s);
    hide Target;
  }

  /** The request is taken only if every member has its surface. */
  lemma MemberNested(a: State, t: Step, b: State, x: Ptr)
    requires Takes(a, t, b) && t.SetSync? && Ranked(a.h.mem, t.rank) && t.id in a.h.reg
    requires x in Family(a.h.mem, t.rank, a.h.reg[t.id].data)
    ensures Nested(a.h.mem, x)
  {
    hide BufferEffect, SurfaceEffect, LinkEffect, SceneEffect, Family, Ranked;
  }

  lemma BackLink(h: Heap, s: Ptr, x: Ptr)
    requires CoreInv(h) && Nested(h.mem, x) && s == SurfaceOf(h.mem, x)
    ensures x in h.mem && h.mem[x].body.Subsurface? && s in h.mem && h.mem[s].body.Surface?
    ensures Target(h, At(s, SurfaceSubsurface)) == x != NULL
  {
    AlwaysLive(h);
    AtField(h, x, SubsurfaceSurface);
    LinkEnds(h, At(x, SubsurfaceSurface));
  }
}
