/** A client that destroys a surface before its subsurface, and what the compositor then reads through. */
module OrphanRun {
  import opened Memory
  import opened Invariant
  import opened ClientState
  import opened Commits
  import opened Steps
  import opened Traces
  import opened Runs
  import opened Desynchronized
  import BufferObjects
  import Surfaces
  import SubsurfaceLinks
  import SubsurfaceSync
  import SurfaceDestroy
  import XdgShell
  import SceneQuads
  import Erasure
  import HitTest
  import PaintedTrees

  /** Surface 4 is a toplevel that shows buffer 3. Surface 7 becomes its subsurface 8 and is destroyed,
      and surface 4 is committed again. */
  const ORPHANING := [
    CreatePool(2, 100, true),
    CreateBuffer(2, 3, 110, 120, true),
    CreateSurface(4, 10),
    GetXdgSurface(5, 4, 50),
    GetToplevel(6, 5),
    SurfaceAttach(4, false, 3),
    SurfaceCommit(4, {}, 0, 40, 41),
    CreateSurface(7, 20),
    GetSubsurface(8, 7, 4, 30),
    SurfaceDestroy(7),
    SurfaceCommit(4, {}, 0, 40, 41)
  ]

  const LAST: nat := 10

  const POOLED := NEW_REGISTRY[2 := Object(KPool, 100)]
  const BUFFERED := POOLED[3 := Object(KBuffer, 110)]
  const SURFACED := BUFFERED[4 := Object(KSurface, 10)]
  const SHELLED := SURFACED[5 := Object(KXdgSurface, 50)]
  const TOPLEVEL := SHELLED[6 := Object(KToplevel, 50)]
  const PAIRED := TOPLEVEL[7 := Object(KSurface, 20)]
  const LINKED := PAIRED[8 := Object(KSubsurface, 30)]

  /** The blocks so far are some of these. */
  predicate Within(h: Heap, all: set<Ptr>) { h.mem.Keys <= all && h.cbs == map[] }

  /** Surface 10 with what it shows and will show. */
  predicate Alone(h: Heap, pending: Ptr, active: Ptr, role: Role, xdg: Ptr) {
    10 in h.mem &&
    h.mem[10].body == Surface(4, pending, pending != NULL, active, [], [], role, xdg, NULL, NULL, [], NULL, NULL, 0)
  }

  const BLOCKS: set<Ptr> := {100, 110, 120, 10}
  const SHELL_BLOCKS: set<Ptr> := BLOCKS + {50}

  /** What has come about before step k. */
  ghost predicate Stage(k: nat, h: Heap) {
    match k
    case 0 => Within(h, {}) && h.reg == NEW_REGISTRY
    case 1 => Within(h, {100}) && h.reg == POOLED
    case 2 => Within(h, {100, 110, 120}) && h.reg == BUFFERED
    case 3 => Within(h, BLOCKS) && h.reg == SURFACED && Alone(h, NULL, NULL, NoRole, NULL)
    case 4 => Within(h, SHELL_BLOCKS) && h.reg == SHELLED && Alone(h, NULL, NULL, NoRole, 50) &&
      Target(h, At(50, XdgSurfaceSurface)) == 10
    case 5 => Within(h, SHELL_BLOCKS) && h.reg == TOPLEVEL && Alone(h, NULL, NULL, ToplevelRole, 50)
    case 6 => Within(h, SHELL_BLOCKS) && h.reg == TOPLEVEL && Alone(h, 110, NULL, ToplevelRole, 50)
    case 7 => Within(h, SHELL_BLOCKS) && h.reg == TOPLEVEL && Alone(h, NULL, 110, ToplevelRole, 50)
    case 8 => Within(h, SHELL_BLOCKS + {20}) && h.reg == PAIRED && Alone(h, NULL, 110, ToplevelRole, 50) &&
      20 in h.mem && h.mem[20].body == Surfaces.FreshSurface(7)
    case 9 => h.cbs == map[] && h.reg == LINKED && Adopted(h) && Target(h, At(30, SubsurfaceSurface)) == 20
    case 10 => h.cbs == map[] && h.reg == LINKED - {7} && Adopted(h) && Target(h, At(30, SubsurfaceSurface)) == NULL
    case _ => false
  }

  /** Surface 10, shown, has the synchronized subsurface 30. */
  ghost predicate Adopted(h: Heap) {
    && Target(h, Child(10, 30)) == 30 && Target(h, At(10, SurfaceSubsurface)) == NULL
    && Target(h, At(10, SurfaceActive)) == 110 && SyncedChild(h, 30)
  }

  lemma StageNext(a: State, k: nat, b: State)
    requires k < LAST && Sound(a) && Sound(b) && Stage(k, a.h) && Takes(a, ORPHANING[k], b)
    ensures Stage(k + 1, b.h)
  {
    hide Sound, Stage, Takes;
    match k {
      case 0 => PoolStage(a, b);
      case 1 => BufferStage(a, b);
      case 2 => SurfaceStage(a, b);
      case 3 => XdgStage(a, b);
      case 4 => ToplevelStage(a, b);
      case 5 => AttachStage(a, b);
      case 6 => CommitStage(a, b);
      case 7 => SecondStage(a, b);
      case 8 => LinkStage(a, b);
      case 9 => DestroyStage(a, b);
    }
  }

  lemma PoolStage(a: State, b: State)
    requires Stage(0, a.h) && Takes(a, ORPHANING[0], b)
    ensures Stage(1, b.h)
  {
    hide SurfaceEffect, LinkEffect, SceneEffect, Admissible;
  }

  lemma SurfaceStage(a: State, b: State)
    requires Stage(2, a.h) && Takes(a, ORPHANING[2], b)
    ensures Stage(3, b.h)
  {
    hide BufferEffect, LinkEffect, SceneEffect, Admissible;
  }

  lemma SecondStage(a: State, b: State)
    requires Stage(7, a.h) && Takes(a, ORPHANING[7], b)
    ensures Stage(8, b.h)
  {
    hide BufferEffect, LinkEffect, SceneEffect, Admissible;
  }

  lemma BufferStage(a: State, b: State)
    requires Stage(1, a.h) && Takes(a, ORPHANING[1], b)
    ensures Stage(2, b.h)
  {
    hide SurfaceEffect, LinkEffect, SceneEffect, Admissible, Target;
  }

  lemma AttachStage(a: State, b: State)
    requires Stage(5, a.h) && Takes(a, ORPHANING[5], b)
    ensures Stage(6, b.h)
  {
    hide BufferEffect, LinkEffect, SceneEffect, Admissible;
  }

  lemma CommitStage(a: State, b: State)
    requires Stage(6, a.h) && Takes(a, ORPHANING[6], b)
    ensures Stage(7, b.h)
  {
    FirstCommit(a.h);
    CommitMade(a, b);
    hide Takes;
    CommitFields(a.h, b.h);
  }

  lemma CommitMade(a: State, b: State)
    requires Stage(6, a.h) && Takes(a, ORPHANING[6], b) && CommitOutcome(a.h, 10, {}) == Status(0)
    ensures Committed(a.h, b.h, 10, 0, 40, 41)
  {
    hide BufferEffect, LinkEffect, SceneEffect, Admissible, CommitOutcome, ReleaseNow, CommittedLists, Committed;
  }

  lemma CommitFields(h: Heap, h': Heap)
    requires Committed(h, h', 10, 0, 40, 41) && Stage(6, h)
    ensures Stage(7, h')
  {
  }

  lemma ToplevelStage(a: State, b: State)
    requires Sound(a) && Stage(4, a.h) && Takes(a, ORPHANING[4], b)
    ensures Stage(5, b.h)
  {
    XdgThere(a);
    TopMade(a, b);
    hide Takes, Stage, Sound;
    TopStage(a.h, b.h);
  }

  lemma TopMade(a: State, b: State)
    requires Stage(4, a.h) && Takes(a, ORPHANING[4], b) && XdgShell.RoleOfXdg(a.h, 50) == NoRole
    ensures XdgShell.ToplevelCreated(a.h, b.h, 5, 6) && b.h.cbs == a.h.cbs
  {
    hide BufferEffect, SurfaceEffect, SceneEffect, Admissible, XdgShell.ToplevelCreated, XdgShell.RoleOfXdg, Target;
  }

  /** Only the role of surface 10 and the registry change. */
  lemma TopStage(h: Heap, h': Heap)
    requires XdgShell.ToplevelCreated(h, h', 5, 6) && h'.cbs == h.cbs && Stage(4, h)
    requires HasSurface(h, 50) && h.mem[50].body.surface == 10
    ensures Stage(5, h')
  {
    assert Target(h', At(50, XdgSurfaceSurface)) == 10;
  }

  lemma XdgThere(a: State)
    requires Sound(a) && Stage(4, a.h)
    ensures HasSurface(a.h, 50) && a.h.mem[50].body.surface == 10
    ensures XdgShell.RoleOfXdg(a.h, 50) == NoRole
  {
    hide CoreInv, Balanced;
  }

  lemma XdgStage(a: State, b: State)
    requires Sound(b) && Stage(3, a.h) && Takes(a, ORPHANING[3], b)
    ensures Stage(4, b.h)
  {
    XdgMade(a, b);
    hide Takes, Stage, Target;
    NoChildren(a.h, b, 10);
    XdgFields(a.h, b.h);
  }

  lemma XdgMade(a: State, b: State)
    requires Stage(3, a.h) && Takes(a, ORPHANING[3], b)
    ensures XdgShell.XdgSurfaceLinked(a.h, b.h, 5, 4, 50) && b.h.cbs == a.h.cbs && ChildrenOf(a.h.mem, 10) == []
    ensures 10 in b.h.mem && b.h.mem[10].body.Surface?
    ensures forall c :: Target(b.h, Child(10, c)) == Target(a.h, Child(10, c))
  {
    hide BufferEffect, SurfaceEffect, SceneEffect, Admissible;
  }

  lemma XdgFields(h: Heap, h': Heap)
    requires Stage(3, h) && XdgShell.XdgSurfaceLinked(h, h', 5, 4, 50) && h'.cbs == h.cbs
    requires 10 in h'.mem && h'.mem[10].body.Surface? && h'.mem[10].body.children == []
    ensures Stage(4, h')
  {
    assert Target(h', At(10, SurfaceSubsurface)) == NULL && Target(h', At(10, SurfaceViewport)) == NULL;
    assert Target(h', At(10, SurfaceXdg)) == 50;
  }

  lemma NoChildren(h: Heap, b: State, s: Ptr)
    requires forall c :: Target(b.h, Child(s, c)) == Target(h, Child(s, c))
    requires Sound(b) && s in b.h.mem && b.h.mem[s].body.Surface? && ChildrenOf(h.mem, s) == []
    ensures b.h.mem[s].body.children == []
  {
    var kids := b.h.mem[s].body.children;
    assert WellFormed(b.h.mem[s].body);
    hide Sound;
    assert forall c :: c in kids ==> Target(b.h, Child(s, c)) == c != NULL;
    SomeElement(kids);
  }

  lemma SomeElement(s: seq<Ptr>)
    ensures s == [] || exists c :: c in s
  {
    if s != [] { assert s[0] in s; }
  }

  lemma LinkStage(a: State, b: State)
    requires Stage(8, a.h) && Takes(a, ORPHANING[8], b)
    ensures Stage(9, b.h)
  {
    LinkMade(a, b);
    hide Takes, Stage;
    LinkFields(a.h, b.h);
  }

  lemma LinkMade(a: State, b: State)
    requires Stage(8, a.h) && Takes(a, ORPHANING[8], b)
    ensures SubsurfaceLinks.SubsurfaceLinked(a.h, b.h, 20, 10, 30, 8) && b.h.cbs == a.h.cbs
  {
    hide BufferEffect, SurfaceEffect, SceneEffect, Admissible, Target, SubsurfaceLinks.SubsurfaceLinked;
  }

  lemma LinkFields(h: Heap, h': Heap)
    requires SubsurfaceLinks.SubsurfaceLinked(h, h', 20, 10, 30, 8) && h'.cbs == h.cbs && Stage(8, h)
    ensures Stage(9, h')
  {
    hide Target, Adopted, Alone, SubsurfaceLinks.SubsurfaceLinked;
    LinkAdopts(h, h');
    LinkNames(h, h');
  }

  lemma LinkNames(h: Heap, h': Heap)
    requires SubsurfaceLinks.SubsurfaceLinked(h, h', 20, 10, 30, 8) && h.reg == PAIRED
    ensures h'.reg == LINKED
  {
    hide Target, SubsurfaceLinks.SubsurfaceBlocks;
  }

  lemma LinkAdopts(h: Heap, h': Heap)
    requires SubsurfaceLinks.SubsurfaceLinked(h, h', 20, 10, 30, 8) && Alone(h, NULL, 110, ToplevelRole, 50)
    ensures Adopted(h') && Target(h', At(30, SubsurfaceSurface)) == 20
  {
    assert Target(h, At(10, SurfaceActive)) == 110 && Target(h, At(10, SurfaceSubsurface)) == NULL;
    hide Target, SubsurfaceLinks.SubsurfaceBlocks;
    assert Target(h', At(10, SurfaceActive)) == Target(h, At(10, SurfaceActive));
    assert Target(h', At(10, SurfaceSubsurface)) == Target(h, At(10, SurfaceSubsurface));
    assert h'.mem[30].body.Subsurface?;
  }

  lemma DestroyStage(a: State, b: State)
    requires Stage(9, a.h) && Takes(a, ORPHANING[9], b)
    ensures Stage(10, b.h)
  {
    DestroyMade(a, b);
    hide Takes, Stage;
    DestroyFields(a.h, b.h);
  }

  lemma DestroyMade(a: State, b: State)
    requires a.h.reg == LINKED && Takes(a, ORPHANING[9], b)
    ensures SurfaceDestroy.SurfaceDestroyed(a.h, b.h, 7)
  {
    hide BufferEffect, LinkEffect, SceneEffect, Admissible, SurfaceDestroy.DiscardEvents, SurfaceDestroy.DestroyedLists;
    hide SurfaceDestroy.SurfaceDestroyed;
  }

  lemma DestroyFields(h: Heap, h': Heap)
    requires SurfaceDestroy.SurfaceDestroyed(h, h', 7) && Stage(9, h)
    ensures Stage(10, h')
  {
    assert h.reg[7].data == 20;
    DestroyLeaves(h, h');
    hide Target, Adopted;
  }

  lemma DestroyLeaves(h: Heap, h': Heap)
    requires SurfaceDestroy.SurfaceDestroyed(h, h', 7) && h.reg[7].data == 20
    requires Adopted(h) && Target(h, At(30, SubsurfaceSurface)) == 20
    ensures Adopted(h') && Target(h', At(30, SubsurfaceSurface)) == NULL
  {
    StaysSynced(h, h', 30);
    hide Target, SyncedChild, Erasure.RolesKept, Erasure.SameCore;
    assert Target(h', Child(10, 30)) == 30 && Target(h', At(10, SurfaceSubsurface)) == NULL;
    ChildBlock(h', 10, 30);
    assert Target(h', At(10, SurfaceActive)) == 110;
    assert Target(h', At(30, SubsurfaceSurface)) == NULL;
  }

  lemma StaysSynced(h: Heap, h': Heap, ss: Ptr)
    requires SurfaceDestroy.SurfaceDestroyed(h, h', 7) && h.reg[7].data != ss && SyncedChild(h, ss)
    ensures SyncedChild(h', ss)
  {
    hide Erasure.Erased, Erasure.RolesKept;
  }

  lemma ChildBlock(h: Heap, s: Ptr, c: Ptr)
    requires Target(h, Child(s, c)) == c != NULL
    ensures s in h.mem
  {
  }

  lemma FirstCommit(h: Heap)
    requires Stage(6, h)
    ensures CommitOutcome(h, 10, {}) == Status(0)
  {
  }

  lemma StageTaken(a: State, k: nat)
    requires k < LAST && Sound(a) && Stage(k, a.h)
    ensures Admissible(a.h, ORPHANING[k])
  {
    if k == 3 {
      NoXdgYet(a.h);
    } else if k == 4 {
      XdgThere(a);
      TopTaken(a);
    } else {
      if k == 6 { FirstCommit(a.h); }
      PlainTaken(a.h, k);
    }
  }

  lemma TopTaken(a: State)
    requires Stage(4, a.h) && HasSurface(a.h, 50)
    ensures Admissible(a.h, ORPHANING[4])
  {
    hide HasSurface, Target;
  }

  lemma PlainTaken(h: Heap, k: nat)
    requires k < LAST && Stage(k, h) && k != 3 && k != 4 && (k == 6 ==> CommitOutcome(h, 10, {}) == Status(0))
    ensures Admissible(h, ORPHANING[k])
  {
    hide Stage, Admissible, CommitOutcome;
    if k < 5 { EarlyTaken(h, k); } else { LateTaken(h, k); }
  }

  lemma EarlyTaken(h: Heap, k: nat)
    requires k < 3 && Stage(k, h)
    ensures Admissible(h, ORPHANING[k])
  {
    hide Target, CommitOutcome, Adopted, HasSurface, SyncedChild, Alone, SceneQuads.Ranked;
  }

  lemma LateTaken(h: Heap, k: nat)
    requires 5 <= k < LAST && Stage(k, h) && (k == 6 ==> CommitOutcome(h, 10, {}) == Status(0))
    ensures Admissible(h, ORPHANING[k])
  {
    hide Target, CommitOutcome, Adopted, HasSurface, SyncedChild, Alone, SceneQuads.Ranked;
  }

  lemma NoXdgYet(h: Heap)
    requires Stage(3, h)
    ensures Target(h, At(10, SurfaceXdg)) == NULL
  {
  }

  // ---------------------------------------------------------------- what the compositor reads through then

  const LAST_RANK: map<Ptr, nat> := map[10 := 1]

  lemma AdoptedParts(a: State)
    requires Sound(a) && Adopted(a.h)
    ensures CoreInv(a.h) && 10 in a.h.mem && a.h.mem[10].body.Surface? && 30 in a.h.mem[10].body.children
    ensures a.h.mem[10].body.active == 110
  {
    hide CoreInv, ListsOk, SceneQuads.SceneOk;
  }

  /** Surface 10 and subsurface 30 are the only ones left. */
  lemma KindsLeft(h: Heap)
    requires Registered(h) && h.reg == LINKED - {7}
    ensures forall q :: q in h.mem && h.mem[q].body.Surface? ==> q == 10
    ensures forall q :: q in h.mem && h.mem[q].body.Subsurface? ==> q == 30
  {
  }

  lemma LastOrphan(h: Heap)
    requires Adopted(h) && Target(h, At(30, SubsurfaceSurface)) == NULL
    ensures Orphan(h, 30)
  {
  }

  lemma ChildrenThere(a: State)
    requires Sound(a) && Adopted(a.h)
    ensures forall k :: 0 <= k < |a.h.mem[10].body.children| ==>
      a.h.mem[10].body.children[k] in a.h.mem && a.h.mem[a.h.mem[10].body.children[k]].body.Subsurface?
  {
    AdoptedParts(a);
    hide Adopted, Sound;
    var kids := a.h.mem[10].body.children;
    forall k | 0 <= k < |kids| ensures kids[k] in a.h.mem && a.h.mem[kids[k]].body.Subsurface? {
      ChildSurface(a.h, 10, kids[k]);
    }
  }

  lemma LastRanked(a: State)
    requires Sound(a) && a.h.reg == LINKED - {7} && Adopted(a.h) && Target(a.h, At(30, SubsurfaceSurface)) == NULL
    ensures SceneQuads.Ranked(a.h.mem, LAST_RANK) && SceneQuads.Shows(a.h.mem, 10) && CoreInv(a.h)
    ensures 10 in a.h.mem && a.h.mem[10].body.Surface? && ChildrenOf(a.h.mem, 10) == a.h.mem[10].body.children
    ensures 30 in ChildrenOf(a.h.mem, 10) && Orphan(a.h, 30)
  {
    AdoptedParts(a);
    ChildrenThere(a);
    SceneQuads.ShownSurface(a.h, 10);
    KindsLeft(a.h);
    LastOrphan(a.h);
    hide CoreInv, Target, SceneQuads.Shows, Sound, Adopted, Inv;
  }

  lemma CommitReads(h: Heap)
    requires CoreInv(h) && Orphan(h, 30) && 10 in h.mem && h.mem[10].body.Surface? && 30 in h.mem[10].body.children
    requires Target(h, At(10, SurfaceSubsurface)) == NULL
    ensures CommitOutcome(h, 10, {}).ReadsNull?
  {
    assert h.mem[10].body.subsurface == NULL;
    hide CoreInv, Orphan, CommitOutcome, Target;
    var k :| 0 <= k < |h.mem[10].body.children| && h.mem[10].body.children[k] == 30;
    assert OrphanReached(h, h.mem[10].body.children, {}, k);
    CommitReadsNull(h, 10, {});
  }

  /** Every run that begins like this one goes through these stages. */
  lemma Staged(steps: seq<Step>, trace: seq<State>, k: nat)
    requires IsRun(steps, trace) && k < |trace| && k <= LAST && ORPHANING[..k] <= steps
    ensures Sound(trace[k]) && Stage(k, trace[k].h)
  {
    hide Sound, Takes;
    assert Stage(0, CONNECTED.h);
    hide Stage;
    if k > 0 {
      assert ORPHANING[..k][..k - 1] == ORPHANING[..k - 1];
      assert steps[k - 1] == ORPHANING[..k][k - 1];
      Staged(steps, trace, k - 1);
      assert Takes(trace[k - 1], steps[k - 1], trace[k]);
      StageNext(trace[k - 1], k - 1, trace[k]);
    }
  }

  /** What would read through the surface that is gone: the next commit of its parent, `set_sync` on the
      subsurface and a hit test of the window. */
  ghost predicate ReadsThroughOrphan(h: Heap) {
    && CommitOutcome(h, 10, {}).ReadsNull?
    && SceneQuads.Ranked(h.mem, LAST_RANK) && SubsurfaceSync.WalkReadsNull(h.mem, LAST_RANK, 30)
    && 10 in h.mem && h.mem[10].body.Surface?
    && forall look :: !HitTest.Whole(PaintedTrees.TreeOf(h.mem, LAST_RANK, look, 10))
  }

  lemma LastStage(a: State)
    requires Sound(a) && Stage(LAST, a.h)
    ensures ReadsThroughOrphan(a.h)
  {
    LastRanked(a);
    CommitReads(a.h);
    hide CoreInv, CommitOutcome, Target, HitTest.Whole, PaintedTrees.TreeOf, SceneQuads.Ranked, Sound;
    forall look ensures !HitTest.Whole(PaintedTrees.TreeOf(a.h.mem, LAST_RANK, look, 10)) {
      PaintedTrees.OrphanShown(a.h.mem, LAST_RANK, look, 10, 30);
    }
  }

  /** The compositor takes all of these steps but the last, which would read through NULL. */
  method OrphanedSubsurface() returns (c: Client, ghost trace: seq<State>)
    ensures IsRun(ORPHANING, trace) && |trace| == LAST + 1 && trace[LAST] == Now(c)
    ensures Names(c.H(), 4, KSurface) && c.reg[4].data == 10 && Names(c.H(), 8, KSubsurface) && c.reg[8].data == 30
    ensures ReadsThroughOrphan(c.H())
  {
    hide IsRun, Admissible, CommitOutcome, Stage, ReadsThroughOrphan, Sound;
    var taken;
    c, taken, trace := Serve(ORPHANING);
    if taken < LAST {
      Staged(ORPHANING, trace, taken);
      StageTaken(trace[taken], taken);
      assert false;
    }
    OnlyLast(trace);
  }

  lemma OnlyLast(trace: seq<State>)
    requires IsRun(ORPHANING, trace) && |trace| > LAST
    ensures |trace| == LAST + 1 && ReadsThroughOrphan(trace[LAST].h)
    ensures trace[LAST].h.reg == LINKED - {7}
  {
    hide Sound, Effect, ReadsThroughOrphan;
    Staged(ORPHANING, trace, LAST);
    assert trace[LAST].h.reg == LINKED - {7};
    LastStage(trace[LAST]);
    if |trace| > LAST + 1 {
      assert Takes(trace[LAST], ORPHANING[LAST], trace[LAST + 1]);
      StoppedHere(trace[LAST].h);
    }
  }

  lemma StoppedHere(h: Heap)
    requires ReadsThroughOrphan(h) && Names(h, 4, KSurface) && h.reg[4].data == 10
    ensures !Admissible(h, ORPHANING[LAST])
  {
    hide CommitOutcome;
  }

  // ---------------------------------------------------------------- an xdg_surface that outlives its surface

  /** Destroying a surface leaves its xdg_surface registered, and from then on asking that for a
      toplevel under a free id would read through NULL. */
  lemma XdgSurfaceOutlives(a: State, t: Step, b: State, s: Ptr, x: Ptr) returns (xdgId: Id)
    requires Sound(a) && Takes(a, t, b) && Destroys(a.h, t, s)
    requires x == Target(a.h, At(s, SurfaceXdg)) && x != NULL
    ensures Names(b.h, xdgId, KXdgSurface) && b.h.reg[xdgId].data == x
    ensures forall id :: Admissible(b.h, GetToplevel(id, xdgId)) ==> id in b.h.reg
  {
    Destroyed(a, t, b);
    SoundCore(a);
    hide Takes, Sound;
    LinkEnds(a.h, At(s, SurfaceXdg));
    ObjectOf(a.h, x);
    xdgId := a.h.mem[x].body.obj;
    XdgStays(a.h, b.h, t.id, s, x, xdgId);
    NoToplevel(b.h, xdgId, x);
    hide Target, Admissible, HasSurface;
  }

  lemma NoToplevel(h: Heap, xdgId: Id, x: Ptr)
    requires xdgId in h.reg && h.reg[xdgId].data == x && !HasSurface(h, x)
    ensures forall id :: Admissible(h, GetToplevel(id, xdgId)) ==> id in h.reg
  {
    hide HasSurface;
  }

  lemma Destroyed(a: State, t: Step, b: State)
    requires Takes(a, t, b) && t.SurfaceDestroy?
    ensures SurfaceDestroy.SurfaceDestroyed(a.h, b.h, t.id)
  {
    hide BufferEffect, LinkEffect, SceneEffect, Admissible, SurfaceDestroy.DiscardEvents, SurfaceDestroy.DestroyedLists;
    hide SurfaceDestroy.SurfaceDestroyed;
  }

  lemma XdgStays(h: Heap, h': Heap, id: Id, s: Ptr, x: Ptr, xdgId: Id)
    requires SurfaceDestroy.SurfaceDestroyed(h, h', id) && h.reg[id].data == s
    requires x != NULL && Target(h, At(x, XdgSurfaceSurface)) == s && xdgId in h.reg
    requires h.reg[xdgId] == Object(KXdgSurface, x)
    requires h.reg[id].kind == KSurface
    ensures !HasSurface(h', x) && xdgId in h'.reg && h'.reg[xdgId] == Object(KXdgSurface, x)
  {
    assert Target(h', At(x, XdgSurfaceSurface)) == NULL;
  }

  // ---------------------------------------------------------------- the same with set_desync

  const PAIR_RANK: map<Ptr, nat> := map[10 := 1, 20 := 0]
  const PREFIX: seq<Step> := ORPHANING[..9]
  const DESYNCING: seq<Step> := PREFIX + [SetSync(8, false, PAIR_RANK), SurfaceDestroy(7),
    SurfaceCommit(4, {}, 0, 40, 41)]

  lemma PairKinds(h: Heap)
    requires Registered(h) && Named(h) && h.reg == LINKED
    ensures forall q :: q in h.mem && h.mem[q].body.Surface? ==> q == 10 || q == 20
    ensures forall q :: q in h.mem && h.mem[q].body.Subsurface? ==> q == 30
    ensures 20 in h.mem && h.mem[20].body.Surface?
  {
    assert 7 in h.reg;
  }

  lemma PairChildren(h: Heap)
    requires CoreInv(h) && h.reg == LINKED && Adopted(h) && Target(h, At(30, SubsurfaceSurface)) == 20
    ensures SurfaceOf(h.mem, 30) == 20 && ChildrenOf(h.mem, 20) == []
    ensures forall c :: c in ChildrenOf(h.mem, 10) ==> c == 30
  {
    LinkEnds(h, Child(10, 30));
    PairKinds(h);
    hide CoreInv;
    var kids := ChildrenOf(h.mem, 20);
    forall s, c | c in ChildrenOf(h.mem, s) ensures c == 30 && s == 10 {
      ChildSurface(h, s, c);
      AlwaysLive(h);
      LinkEnds(h, Child(s, c));
    }
    SomeElement(kids);
  }

  /** The two surfaces of mem, one below the other through subsurface 30. */
  predicate Paired(mem: map<Ptr, Block>) {
    && (forall q :: q in mem && mem[q].body.Surface? ==> q == 10 || q == 20)
    && 20 in mem && mem[20].body.Surface? && ChildrenOf(mem, 20) == []
    && SurfaceOf(mem, 30) == 20 && forall c :: c in ChildrenOf(mem, 10) ==> c == 30
  }

  lemma PairRanked(mem: map<Ptr, Block>)
    requires Paired(mem)
    ensures SceneQuads.Ranked(mem, PAIR_RANK)
  {
    forall s, k | s in mem && mem[s].body.Surface? && 0 <= k < |mem[s].body.children|
      ensures s == 10 && mem[s].body.children[k] == 30
    {
      assert ChildrenOf(mem, s)[k] in ChildrenOf(mem, s);
    }
  }

  lemma PairNested(mem: map<Ptr, Block>)
    requires Paired(mem) && SceneQuads.Ranked(mem, PAIR_RANK)
    ensures SubsurfaceSync.Family(mem, PAIR_RANK, 30) == {30}
    ensures SubsurfaceSync.AllNested(mem, {30})
  {
  }

  lemma StagePaired(a: State)
    requires Sound(a) && Stage(9, a.h)
    ensures Paired(a.h.mem)
  {
    PairKinds(a.h);
    PairChildren(a.h);
    hide Sound, Target, Adopted;
  }

  lemma DesyncTaken(a: State)
    requires Sound(a) && Stage(9, a.h)
    ensures Admissible(a.h, SetSync(8, false, PAIR_RANK))
    ensures SceneQuads.Ranked(a.h.mem, PAIR_RANK) && 30 in SubsurfaceSync.Family(a.h.mem, PAIR_RANK, 30)
  {
    assert a.h.reg == LINKED;
    StagePaired(a);
    hide Sound, Stage;
    PairTaken(a.h);
  }

  lemma PairTaken(h: Heap)
    requires h.reg == LINKED && Paired(h.mem)
    ensures Admissible(h, SetSync(8, false, PAIR_RANK))
    ensures SceneQuads.Ranked(h.mem, PAIR_RANK) && 30 in SubsurfaceSync.Family(h.mem, PAIR_RANK, 30)
  {
    PairRanked(h.mem);
    PairNested(h.mem);
    assert Names(h, 8, KSubsurface) && h.reg[8].data == 30;
    hide Paired, SceneQuads.Ranked, SubsurfaceSync.Family, SubsurfaceSync.AllNested, Names;
  }

  /** The steps after the prefix keep surface 10 and leave one subsurface at most. */
  lemma DesyncStages(trace: seq<State>)
    requires IsRun(DESYNCING, trace)
    ensures |trace| > 9 ==> Sound(trace[9]) && Stage(9, trace[9].h)
    ensures |trace| > 10 ==> Sound(trace[10]) && trace[10].h.reg == LINKED && trace[10].h.cbs == map[]
    ensures |trace| > 11 ==> Sound(trace[11]) && trace[11].h.reg == LINKED - {7} && trace[11].h.cbs == map[]
  {
    hide Sound, Stage, Takes;
    if |trace| > 9 { Staged(DESYNCING, trace, 9); }
    if |trace| > 10 {
      assert Takes(trace[9], DESYNCING[9], trace[10]);
      FlagsSet(trace[9], trace[10]);
    }
    if |trace| > 11 {
      assert Takes(trace[10], DESYNCING[10], trace[11]);
      SurfaceGone(trace[10], trace[11]);
    }
  }

  lemma FlagsSet(a: State, b: State)
    requires Stage(9, a.h) && Takes(a, DESYNCING[9], b)
    ensures b.h.reg == LINKED && b.h.cbs == map[]
  {
    hide BufferEffect, SurfaceEffect, SceneEffect, Admissible, Adopted, Target, SceneQuads.Ranked;
    hide SubsurfaceSync.Family;
  }

  lemma SurfaceGone(a: State, b: State)
    requires a.h.reg == LINKED && a.h.cbs == map[] && Takes(a, DESYNCING[10], b)
    ensures b.h.reg == LINKED - {7} && b.h.cbs == map[]
  {
    hide BufferEffect, LinkEffect, SceneEffect, Admissible, SurfaceDestroy.DiscardEvents, SurfaceDestroy.DestroyedLists;
  }

  /** What the flag buys: the commit that read through NULL above is taken. */
  lemma LastCommitTaken(trace: seq<State>)
    requires IsRun(DESYNCING, trace) && |trace| > 11
    ensures Admissible(trace[11].h, DESYNCING[11])
  {
    hide Sound, Takes, CommitOutcome, Desyncs, Stirs, Stage;
    DesyncStages(trace);
    DesyncedThere(trace);
    var h := trace[11].h;
    SoundCore(trace[11]);
    OnlyThirty(h);
    forall k | 0 <= k < |h.mem[10].body.children| ensures !Orphan(h, h.mem[10].body.children[k]) {
      ChildSurface(h, 10, h.mem[10].body.children[k]);
      DesyncedNeverOrphan(DESYNCING, trace, 9, 11, 30, 10);
    }
    hide IsRun, Orphan;
    CommitSafe(h, 10);
  }

  lemma DesyncedThere(trace: seq<State>)
    requires IsRun(DESYNCING, trace) && |trace| > 11
    ensures Desyncs(trace[9].h, DESYNCING[9], 30)
    ensures Untouched(DESYNCING, trace, 10, 11, 10, 30)
  {
    hide Sound, Takes;
    DesyncStages(trace);
    DesyncTaken(trace[9]);
  }

  lemma OnlyThirty(h: Heap)
    requires CoreInv(h) && h.reg == LINKED - {7}
    ensures 10 in h.mem && h.mem[10].body.Surface?
    ensures forall q :: q in h.mem && h.mem[q].body.Subsurface? ==> q == 30
  {
    assert 4 in h.reg;
    KindsLeft(h);
  }

  /** The compositor takes all of these steps, the last of which no longer reads through NULL. */
  method DesyncedSubsurface() returns (c: Client, ghost trace: seq<State>)
    ensures IsRun(DESYNCING, trace) && |trace| == |DESYNCING| + 1 && trace[|DESYNCING|] == Now(c)
  {
    hide IsRun, Admissible, CommitOutcome, Stage, Sound, Takes;
    var taken;
    c, taken, trace := Serve(DESYNCING);
    if taken < 9 {
      Staged(DESYNCING, trace, taken);
      StageTaken(trace[taken], taken);
      assert false;
    }
    DesyncStages(trace);
    if taken == 9 {
      DesyncTaken(trace[9]);
      assert false;
    }
    if taken == 11 {
      LastCommitTaken(trace);
      assert false;
    }
    if taken == 10 {
      DestroyTaken(trace[10].h);
      assert false;
    }
  }

  lemma DestroyTaken(h: Heap)
    requires h.reg == LINKED
    ensures Admissible(h, DESYNCING[10])
  {
  }
}
