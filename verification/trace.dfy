/** What holds along whole runs: every accepted frame request is answered at most once, in order, and
    by the next flip of the output its surface listens to. */
module Traces {
  import opened Memory
  import opened Invariant
  import opened ClientState
  import opened Commits
  import opened PageFlips
  import opened Steps

  const CONNECTED := State(Heap(map[], NEW_REGISTRY, map[], map[]), map[], [])

  /** The states of a run over a prefix of `steps`, from a new connection on. */
  ghost predicate IsRun(steps: seq<Step>, trace: seq<State>) {
    && 1 <= |trace| <= |steps| + 1 && trace[0] == CONNECTED
    && (forall i :: 0 <= i < |trace| ==> Sound(trace[i]))
    && (forall i :: 0 <= i < |trace| - 1 ==> Takes(trace[i], steps[i], trace[i + 1]))
  }

  ghost predicate Takes(a: State, t: Step, b: State) { Admissible(a.h, t) && Effect(a, t, b) }

  lemma StepOf(steps: seq<Step>, trace: seq<State>, i: nat)
    requires IsRun(steps, trace) && i < |trace| - 1
    ensures Sound(trace[i]) && Sound(trace[i + 1])
    ensures Takes(trace[i], steps[i], trace[i + 1]) && Stepped(trace[i], steps[i], trace[i + 1])
  {
    hide Admissible, Effect, Stepped, Sound;
    assert Takes(trace[i], steps[i], trace[i + 1]);
    EffectStepped(trace[i], steps[i], trace[i + 1]);
  }

  /** What step i sends. */
  function News(trace: seq<State>, i: nat): seq<Event>
    requires i + 1 < |trace| && trace[i].sent <= trace[i + 1].sent
  {
    trace[i + 1].sent[|trace[i].sent|..]
  }

  lemma SoundCore(a: State)
    requires Sound(a)
    ensures CoreInv(a.h)
  {
  }

  lemma CommitTaken(a: State, t: Step, b: State)
    requires Takes(a, t, b) && a != b && t.SurfaceCommit?
    ensures t.id in a.h.reg && Committed(a.h, b.h, a.h.reg[t.id].data, t.focused, t.a1, t.a2)
    ensures b.sent == a.sent + ReleaseNow(a.h, a.h.reg[t.id].data) && t.a1 != NULL
    ensures CommitOutcome(a.h, a.h.reg[t.id].data, t.oversized) == Status(0)
  {
    hide BufferEffect, LinkEffect, SceneEffect, CommitOutcome, Committed, CommittedLists, ReleaseNow;
  }

  // ---------------------------------------------------------------- at most one answer

  /** The frame requests accepted by the first n steps, in order. */
  function Asked(steps: seq<Step>, trace: seq<State>, n: nat): seq<Id>
    requires n <= |steps| && n < |trace|
  {
    if n == 0 then []
    else Asked(steps, trace, n - 1) + (if Accepted(trace[n - 1].h, steps[n - 1]) then [steps[n - 1].callbackId] else [])
  }

  /** How often a list of requests names id. */
  function Requests(asked: seq<Id>, id: Id): nat {
    if asked == [] then 0 else Requests(asked[..|asked| - 1], id) + Is(asked[|asked| - 1] == id)
  }

  /** After n steps the requests for an id are its answers, and one more while it is waiting. */
  lemma {:induction false} RequestsAnswered(steps: seq<Step>, trace: seq<State>, n: nat, id: Id)
    requires IsRun(steps, trace) && n < |trace|
    ensures Requests(Asked(steps, trace, n), id) == Dones(trace[n].sent, id) + Awaited(trace[n].h.reg, id)
  {
    hide Takes, Sound;
    if n > 0 {
      RequestsAnswered(steps, trace, n - 1, id);
      StepOf(steps, trace, n - 1);
      OneMore(steps, trace, n - 1, id);
    }
  }

  lemma RequestsPlus(before: seq<Id>, x: Id, id: Id)
    ensures Requests(before + [x], id) == Requests(before, id) + Is(x == id)
  {
    assert (before + [x])[..|before|] == before;
  }

  lemma OneMore(steps: seq<Step>, trace: seq<State>, n: nat, id: Id)
    requires n < |steps| && n + 1 < |trace| && Stepped(trace[n], steps[n], trace[n + 1])
    ensures var accepted := Accepted(trace[n].h, steps[n]) && steps[n].callbackId == id;
      && Requests(Asked(steps, trace, n + 1), id) == Requests(Asked(steps, trace, n), id) + Is(accepted)
      && Dones(trace[n + 1].sent, id) + Awaited(trace[n + 1].h.reg, id) ==
         Dones(trace[n].sent, id) + Awaited(trace[n].h.reg, id) + Is(accepted)
  {
    hide ListenersStay, QueuesStay, NoDone, Dones, Awaited, Frames;
    var before := Asked(steps, trace, n);
    if Accepted(trace[n].h, steps[n]) {
      RequestsPlus(before, steps[n].callbackId, id);
    } else {
      assert before + [] == before;
    }
    DonesAppend(trace[n].sent, News(trace, n), id);
    assert trace[n + 1].sent == trace[n].sent + News(trace, n);
  }

  // ---------------------------------------------------------------- the queue of a surface

  /** Does t answer the waiting frames of s? */
  ghost predicate Answers(h: Heap, t: Step, s: Ptr) { exists x :: Tells(h, x, s) && Flips(h, t, x) }

  /** Between i and j surface s is neither answered nor destroyed. */
  ghost predicate Pending(steps: seq<Step>, trace: seq<State>, i: nat, j: nat, s: Ptr)
    requires j <= |steps| && j <= |trace|
  {
    forall k :: i <= k < j ==> !Answers(trace[k].h, steps[k], s) && !Destroys(trace[k].h, steps[k], s)
  }

  /** The requests accepted for surface s between i and j, in order. */
  function AskedOf(steps: seq<Step>, trace: seq<State>, i: nat, j: nat, s: Ptr): seq<Id>
    requires i <= j <= |steps| && j <= |trace|
    decreases j
  {
    if i == j then [] else AskedOf(steps, trace, i, j - 1, s) + AskedNow(trace[j - 1].h, steps[j - 1], s)
  }

  lemma {:induction false} QueueGrows(steps: seq<Step>, trace: seq<State>, i: nat, j: nat, s: Ptr)
    requires IsRun(steps, trace) && i <= j < |trace| && Pending(steps, trace, i, j, s)
    ensures Frames(trace[j].h, s) == Frames(trace[i].h, s) + AskedOf(steps, trace, i, j, s)
    decreases j
  {
    hide Takes, Sound, Frames, AskedNow, Destroys;
    if i < j {
      QueueGrows(steps, trace, i, j - 1, s);
      StepOf(steps, trace, j - 1);
      assert !Answers(trace[j - 1].h, steps[j - 1], s);
    }
  }

  /** A surface has one frame listener, which listens to the surface's output. */
  lemma OneTeller(a: State, x: Ptr, s: Ptr)
    requires Sound(a) && Tells(a.h, x, s)
    ensures s in a.h.mem && a.h.mem[s].body.Surface? && a.h.mem[s].body.frameCb == x
    ensures a.h.mem[s].body.output == a.h.cbs[x].output
    ensures x in ListOf(a.lists, a.h.cbs[x].output)
  {
    assert CallbackOk(a.h, x, a.h.cbs[x]);
  }

  lemma {:induction false} StillListening(steps: seq<Step>, trace: seq<State>, i: nat, j: nat, a: Ptr, s: Ptr,
                                          o: OutputId)
    requires IsRun(steps, trace) && i <= j < |trace|
    requires Tells(trace[i].h, a, s) && trace[i].h.cbs[a].output == o
    requires forall k :: i <= k < j ==> steps[k] != Flip(o) && !Destroys(trace[k].h, steps[k], s)
    ensures Tells(trace[j].h, a, s) && trace[j].h.cbs[a].output == o
    ensures Pending(steps, trace, i, j, s)
    decreases j
  {
    hide Takes, Sound, Destroys, Stepped;
    if i < j {
      StillListening(steps, trace, i, j - 1, a, s, o);
      StepOf(steps, trace, j - 1);
      KeepsListening(trace[j - 1], steps[j - 1], trace[j], a, s);
    }
  }

  lemma KeepsListening(a: State, t: Step, b: State, x: Ptr, s: Ptr)
    requires Sound(a) && Stepped(a, t, b) && Tells(a.h, x, s) && t != Flip(a.h.cbs[x].output) && !Destroys(a.h, t, s)
    ensures Tells(b.h, x, s) && b.h.cbs[x] == a.h.cbs[x] && !Answers(a.h, t, s)
  {
    hide Accounted, NoDone, QueuesStay, Sound, Destroys;
    if y :| Tells(a.h, y, s) && Flips(a.h, t, y) {
      OneTeller(a, x, s);
      OneTeller(a, y, s);
    }
  }

  // ---------------------------------------------------------------- the next flip answers

  /** A flip of the listed nodes tells the frames of each listener in one piece. */
  lemma {:induction false} ToldInOnePiece(h: Heap, nodes: seq<Ptr>, x: Ptr) returns (pre: seq<Event>, post: seq<Event>)
    requires x in nodes
    ensures FlipEvents(h, nodes) == pre + EventsOf(h, x) + post
  {
    hide EventsOf;
    var n := |nodes| - 1;
    assert nodes == nodes[..n] + [nodes[n]];
    if nodes[n] == x {
      pre, post := FlipEvents(h, nodes[..n]), [];
    } else {
      var p, q := ToldInOnePiece(h, nodes[..n], x);
      pre, post := p, q + EventsOf(h, nodes[n]);
      assert FlipEvents(h, nodes) == p + EventsOf(h, x) + q + EventsOf(h, nodes[n]);
    }
  }

  ghost predicate ContainsPiece(news: seq<Event>, piece: seq<Event>) {
    exists pre, post :: news == pre + piece + post
  }

  /** What a flip of the output does to a surface that listens to it: all its waiting frames are told
      done, each once, in the order of the queue, and are forgotten. */
  ghost predicate AnsweredInOrder(a: State, b: State, s: Ptr, ids: seq<Id>) {
    && a.sent <= b.sent && ContainsPiece(b.sent[|a.sent|..], DoneEvents(ids))
    && Frames(b.h, s) == []
    && forall id :: id in ids ==> id !in b.h.reg && Dones(b.sent[|a.sent|..], id) == 1
  }

  lemma FlipAnswers(a: State, o: OutputId, b: State, x: Ptr, s: Ptr)
    requires Sound(a) && FlipEffect(a, o, b) && Tells(a.h, x, s) && a.h.cbs[x].output == o
    ensures AnsweredInOrder(a, b, s, Frames(a.h, s))
  {
    hide Staying, StructureKept, QueuesTold, Tallied, FeedbacksTold;
    OneTeller(a, x, s);
    var news := b.sent[|a.sent|..];
    assert news == FlipEvents(a.h, ListOf(a.lists, o));
    var pre, post := ToldInOnePiece(a.h, ListOf(a.lists, o), x);
    assert ContainsPiece(news, DoneEvents(Frames(a.h, s)));
    assert AnswersDone(a.h, b.h, x);
    forall id | id in Frames(a.h, s) ensures Dones(news, id) == 1 { WaitingIsAwaited(a, s, id); }
  }

  lemma WaitingIsAwaited(a: State, s: Ptr, id: Id)
    requires Sound(a) && id in Frames(a.h, s)
    ensures id in a.h.reg && Awaited(a.h.reg, id) == 1
  {
    var k :| 0 <= k < |Frames(a.h, s)| && Frames(a.h, s)[k] == id;
    assert RegisteredAs(a.h, Frames(a.h, s)[k], KCallback);
  }

  /** Once its callback is armed, the next flip of that output answers a surface unless it is destroyed
      first: everything it waited for, and everything it asked for since, in the order of asking. */
  lemma NextFlipAnswers(steps: seq<Step>, trace: seq<State>, i: nat, j: nat, a: Ptr, s: Ptr, o: OutputId)
    requires IsRun(steps, trace) && i <= j < |trace| - 1
    requires Tells(trace[i].h, a, s) && trace[i].h.cbs[a].output == o
    requires steps[j] == Flip(o)
    requires forall k :: i <= k < j ==> steps[k] != Flip(o) && !Destroys(trace[k].h, steps[k], s)
    ensures AnsweredInOrder(trace[j], trace[j + 1], s, Frames(trace[i].h, s) + AskedOf(steps, trace, i, j, s))
  {
    hide Sound, FlipEffect, AnsweredInOrder, Stepped, Tells;
    StillListening(steps, trace, i, j, a, s, o);
    QueueGrows(steps, trace, i, j, s);
    StepOf(steps, trace, j);
    FlipAnswers(trace[j], o, trace[j + 1], a, s);
  }

  /** No waiting frame is told earlier. */
  lemma NotToldBefore(steps: seq<Step>, trace: seq<State>, i: nat, s: Ptr, id: Id)
    requires IsRun(steps, trace) && i < |trace| - 1 && id in Frames(trace[i].h, s) && Pending(steps, trace, i, i + 1, s)
    ensures trace[i].sent <= trace[i + 1].sent && Dones(News(trace, i), id) == 0
  {
    hide Sound, Takes;
    StepOf(steps, trace, i);
    QueueGrows(steps, trace, i, i + 1, s);
    assert id in Frames(trace[i + 1].h, s);
    WaitingIsAwaited(trace[i], s, id);
    WaitingIsAwaited(trace[i + 1], s, id);
  }

  // ---------------------------------------------------------------- from the request to the answer

  predicate CommitsOn(a: State, t: Step, s: Ptr) {
    t.SurfaceCommit? && t.id in a.h.reg && a.h.reg[t.id].data == s && CommitOutcome(a.h, s, t.oversized) == Status(0)
  }

  /** A commit makes a surface with waiting frames and an output listen to that output. */
  lemma CommitListens(a: State, t: Step, b: State, s: Ptr) returns (x: Ptr)
    requires Sound(a) && Sound(b) && Takes(a, t, b) && CommitsOn(a, t, s)
    requires Frames(a.h, s) != [] && a.h.mem[s].body.output != 0
    ensures Tells(b.h, x, s) && b.h.cbs[x].output == a.h.mem[s].body.output
  {
    hide BufferEffect, LinkEffect, SceneEffect, Balanced, CommitOutcome, OthersKept;
    x := b.h.mem[s].body.frameCb;
    assert ArmedOk(b.h, s, b.h.mem[s].body);
    assert CallbackOk(b.h, x, b.h.cbs[x]);
  }

  /** Does s have a listener that will answer its waiting frames? */
  ghost predicate ListensForFrames(h: Heap, s: Ptr) { exists x :: Tells(h, x, s) }

  lemma ListensByField(a: State, s: Ptr)
    requires Sound(a) && s in a.h.mem && a.h.mem[s].body.Surface?
    ensures ListensForFrames(a.h, s) <==> a.h.mem[s].body.frameCb != NULL
  {
    if x :| Tells(a.h, x, s) { OneTeller(a, x, s); }
    if a.h.mem[s].body.frameCb != NULL {
      assert ArmedOk(a.h, s, a.h.mem[s].body);
      assert Tells(a.h, a.h.mem[s].body.frameCb, s);
    }
  }

  /** After an accepted commit a surface with waiting frames listens exactly when it did before or had an
      output already: the output it gets by this very commit comes too late for its listener. */
  lemma CommitListensExactly(a: State, t: Step, b: State, s: Ptr)
    requires Sound(a) && Sound(b) && Takes(a, t, b) && CommitsOn(a, t, s) && Frames(a.h, s) != []
    ensures ListensForFrames(b.h, s) <==> ListensForFrames(a.h, s) || a.h.mem[s].body.output != 0
  {
    CommitFields(a, t, b, s);
    ListensByField(a, s);
    ListensByField(b, s);
  }

  lemma CommitFields(a: State, t: Step, b: State, s: Ptr)
    requires Sound(a) && Takes(a, t, b) && CommitsOn(a, t, s)
    ensures s in a.h.mem && a.h.mem[s].body.Surface? && s in b.h.mem && b.h.mem[s].body.Surface?
    ensures b.h.mem[s].body.frameCb == if ArmsFrames(a.h.mem[s].body) then t.a2 else a.h.mem[s].body.frameCb
    ensures t.a2 != NULL
  {
    hide BufferEffect, LinkEffect, SceneEffect, Inv, CommitOutcome, OthersKept, CommittedLists;
  }

  lemma {:induction false} AskedOfKeeps(steps: seq<Step>, trace: seq<State>, i: nat, j: nat, s: Ptr)
    requires i < j <= |steps| && j <= |trace| && Accepted(trace[i].h, steps[i]) && trace[i].h.reg[steps[i].id].data == s
    ensures steps[i].callbackId in AskedOf(steps, trace, i, j, s)
    decreases j
  {
    if i < j - 1 {
      AskedOfKeeps(steps, trace, i, j - 1, s);
    } else {
      assert AskedOf(steps, trace, i, i, s) == [];
    }
  }

  lemma PendingPart(steps: seq<Step>, trace: seq<State>, i: nat, c: nat, f: nat, s: Ptr)
    requires i < c < f < |steps| && f < |trace| && Pending(steps, trace, i, f, s)
    ensures Pending(steps, trace, i, c, s) && forall k :: c < k < f ==> !Destroys(trace[k].h, steps[k], s)
  {
  }

  lemma FlipTaken(a: State, o: OutputId, b: State)
    requires Takes(a, Flip(o), b)
    ensures FlipEffect(a, o, b)
  {
  }

  /** A frame request accepted at i and committed at c, on a surface that is shown on output o, is told
      done by the first flip of o after the commit, exactly once, if the surface has not been answered
      or destroyed meanwhile. */
  lemma RequestAnswered(steps: seq<Step>, trace: seq<State>, i: nat, c: nat, f: nat, s: Ptr, o: OutputId)
    requires IsRun(steps, trace) && i < c < f < |trace| - 1
    requires Accepted(trace[i].h, steps[i]) && trace[i].h.reg[steps[i].id].data == s
    requires CommitsOn(trace[c], steps[c], s) && s in trace[c].h.mem && trace[c].h.mem[s].body.Surface?
    requires trace[c].h.mem[s].body.output == o != 0 && steps[f] == Flip(o)
    requires Pending(steps, trace, i, f, s) && forall k :: c < k < f ==> steps[k] != Flip(o)
    ensures
      var ids := Frames(trace[i].h, s) + AskedOf(steps, trace, i, f, s);
      steps[i].callbackId in ids && AnsweredInOrder(trace[f], trace[f + 1], s, ids)
  {
    hide Sound, FlipEffect, AnsweredInOrder, Stepped, Tells, CommitsOn, Accepted, AskedOf, Takes, Pending;
    PendingPart(steps, trace, i, c, f, s);
    QueueGrows(steps, trace, i, c, s);
    AskedOfKeeps(steps, trace, i, c, s);
    StepOf(steps, trace, c);
    var x := CommitListens(trace[c], steps[c], trace[c + 1], s);
    StillListening(steps, trace, c + 1, f, x, s, o);
    QueueGrows(steps, trace, i, f, s);
    AskedOfKeeps(steps, trace, i, f, s);
    StepOf(steps, trace, f);
    FlipTaken(trace[f], o, trace[f + 1]);
    FlipAnswers(trace[f], o, trace[f + 1], x, s);
  }
}
