/** What a run of changes of the scene comes to, told by the changes alone: which nodes are there, in which
    layer each is, and in which order they are painted. */
module SceneHistory {
  import opened ListSpec
  import opened LinkedList
  import opened SceneOrder

  // ---------------------------------------------------------------- what the changes say

  /** Has x been added and not been removed since? */
  predicate Standing(changes: seq<Change>, x: Data) {
    changes != [] &&
    var c, before := changes[|changes| - 1], changes[..|changes| - 1];
    if c.n == x && c.Add? then true else if c.n == x && c.Remove? then false else Standing(before, x)
  }

  /** The layer that was last given to x. */
  function LayerGiven(changes: seq<Change>, x: Data): Layer {
    if changes == [] then NORMAL
    else
      var c := changes[|changes| - 1];
      if c.n == x && (c.Add? || c.SetLayer?) then c.l else LayerGiven(changes[..|changes| - 1], x)
  }

  /** After how many changes x was last added or raised. */
  function LastPlaced(changes: seq<Change>, x: Data): (k: nat)
    ensures k <= |changes| && (k > 0 ==> changes[k - 1].n == x && (changes[k - 1].Add? || changes[k - 1].Raise?))
  {
    if changes == [] then 0
    else
      var c := changes[|changes| - 1];
      if c.n == x && (c.Add? || c.Raise?) then |changes| else LastPlaced(changes[..|changes| - 1], x)
  }

  /** The layer x was in when it was last added or raised. */
  function PlacedIn(changes: seq<Change>, x: Data): Layer { LayerGiven(changes[..LastPlaced(changes, x)], x) }

  // ---------------------------------------------------------------- one more change

  lemma {:induction false} AfterLast(v: View, changes: seq<Change>, c: Change)
    requires Possible(v, changes + [c])
    ensures Possible(v, changes) && Consistent(AfterAll(v, changes)) && Allowed(AfterAll(v, changes), c)
    ensures AfterAll(v, changes + [c]) == After(AfterAll(v, changes), c)
    decreases |changes|
  {
    hide Consistent, After, Allowed;
    if changes == [] {
      assert [] + [c] == [c] && [c][1..] == [];
      Single(v, c);
    } else {
      assert (changes + [c])[0] == changes[0] && (changes + [c])[1..] == changes[1..] + [c];
      Twice(v, changes + [c]);
      AfterLast(After(v, changes[0]), changes[1..], c);
    }
  }

  lemma Single(v: View, c: Change)
    requires Possible(v, [c])
    ensures Consistent(v) && Allowed(v, c) && Possible(v, []) && AfterAll(v, []) == v && AfterAll(v, [c]) == After(v, c)
  {
    hide Consistent, After, Allowed;
    assert [c][1..] == [];
    assert AfterAll(After(v, c), []) == After(v, c);
  }

  lemma Twice(v: View, changes: seq<Change>)
    requires Possible(v, changes) && changes != []
    ensures Consistent(v) && Allowed(v, changes[0]) && Possible(After(v, changes[0]), changes[1..])
    ensures AfterAll(v, changes) == AfterAll(After(v, changes[0]), changes[1..])
  {
    hide Consistent, After, Allowed;
  }

  /** What one change does to the members, their layers and the layers they were placed in. */
  lemma OneChange(v: View, c: Change)
    requires Consistent(v) && Allowed(v, c)
    ensures Consistent(After(v, c))
    ensures forall x :: x in After(v, c).nodes <==> (c.Add? && x == c.n) || (x in v.nodes && !(c.Remove? && x == c.n))
    ensures forall x :: x in After(v, c).nodes ==>
      After(v, c).layer[x] == if x == c.n && (c.Add? || c.SetLayer?) then c.l else v.layer[x]
    ensures forall x :: x in After(v, c).nodes ==> x in After(v, c).stack.placed
    ensures forall x :: x in After(v, c).nodes ==>
      if x == c.n && (c.Add? || c.Raise?) then After(v, c).stack.placed[x] == After(v, c).layer[x]
      else x in v.stack.placed && After(v, c).stack.placed[x] == v.stack.placed[x]
  {
    hide Agrees, NoDuplicates, Spot, InsertAt, Without;
    AfterConsistent(v, c);
    ShapeOf(v.nodes, v.stack);
    match c {
      case Add(n, l) =>
        var t := Place(v.stack, n, l);
        InsertedElements(v.nodes, Spot(v.nodes, t.z, t.z[n]), n);
      case Raise(n) =>
        WithoutElements(v.nodes, n);
        var t := Place(v.stack, n, v.layer[n]);
        InsertedElements(Without(v.nodes, n), Spot(Without(v.nodes, n), t.z, t.z[n]), n);
      case Remove(n) => WithoutElements(v.nodes, n);
      case SetLayer(_, _) =>
    }
  }

  // ---------------------------------------------------------------- whole runs

  /** Members, layers and placements are what the changes say. */
  ghost predicate Told(v: View, changes: seq<Change>) {
    forall x ::
      && (x in v.nodes <==> Standing(changes, x))
      && (x in v.nodes ==>
           && x in v.layer && v.layer[x] == LayerGiven(changes, x)
           && x in v.stack.placed && v.stack.placed[x] == PlacedIn(changes, x) && LastPlaced(changes, x) > 0)
  }

  lemma ToldNext(v: View, changes: seq<Change>, c: Change)
    requires Consistent(v) && Allowed(v, c) && Told(v, changes)
    ensures Consistent(After(v, c)) && Told(After(v, c), changes + [c])
  {
    OneChange(v, c);
    hide Consistent, Allowed, After, Standing, LayerGiven, LastPlaced, PlacedIn;
    var w, all := After(v, c), changes + [c];
    forall x
      ensures x in w.nodes <==> Standing(all, x)
      ensures x in w.nodes ==>
        && x in w.layer && w.layer[x] == LayerGiven(all, x)
        && x in w.stack.placed && w.stack.placed[x] == PlacedIn(all, x) && LastPlaced(all, x) > 0
    {
      SaidNext(changes, c, x);
    }
  }

  /** What one more change says about x. */
  predicate Said(changes: seq<Change>, c: Change, x: Data) {
    var all := changes + [c];
    && (Standing(all, x) <==> (c.Add? && x == c.n) || (Standing(changes, x) && !(c.Remove? && x == c.n)))
    && LayerGiven(all, x) == (if x == c.n && (c.Add? || c.SetLayer?) then c.l else LayerGiven(changes, x))
    && PlacedIn(all, x) == (if c.n == x && (c.Add? || c.Raise?) then LayerGiven(all, x) else PlacedIn(changes, x))
    && LastPlaced(all, x) == if c.n == x && (c.Add? || c.Raise?) then |all| else LastPlaced(changes, x)
  }

  lemma SaidNext(changes: seq<Change>, c: Change, x: Data)
    ensures Said(changes, c, x)
  {
    assert (changes + [c])[..|changes|] == changes;
    PlacedInNext(changes, c, x);
  }

  lemma PlacedInNext(changes: seq<Change>, c: Change, x: Data)
    ensures PlacedIn(changes + [c], x) ==
      if c.n == x && (c.Add? || c.Raise?) then LayerGiven(changes + [c], x) else PlacedIn(changes, x)
  {
    var all := changes + [c];
    assert all[..|changes|] == changes;
    if c.n == x && (c.Add? || c.Raise?) {
      assert all[..|all|] == all;
    } else {
      var k := LastPlaced(changes, x);
      assert all[..k] == changes[..k];
    }
  }

  /** After any run, the nodes are those added and not removed since, each in the layer it was last given. */
  lemma {:induction false} RunTold(changes: seq<Change>)
    requires Possible(NOTHING, changes)
    ensures Consistent(AfterAll(NOTHING, changes)) && Told(AfterAll(NOTHING, changes), changes)
    decreases |changes|
  {
    hide Possible, AfterAll, Consistent, After, Allowed;
    if changes == [] {
      NothingTold();
    } else {
      var before, c := changes[..|changes| - 1], changes[|changes| - 1];
      assert before + [c] == changes;
      AfterLast(NOTHING, before, c);
      RunTold(before);
      ToldNext(AfterAll(NOTHING, before), before, c);
    }
  }

  lemma NothingTold()
    ensures Possible(NOTHING, []) && AfterAll(NOTHING, []) == NOTHING && Consistent(NOTHING) && Told(NOTHING, [])
  {
    NothingConsistent();
  }

  // ---------------------------------------------------------------- the order of painting

  /** Within a layer, z grows with the time of the last placement. */
  ghost predicate Timed(v: View, changes: seq<Change>) {
    Consistent(v) &&
    (Bounded(v.stack) ==> forall x, y :: x in v.nodes && y in v.nodes && v.stack.placed[x] == v.stack.placed[y] ==>
      (v.stack.z[x] < v.stack.z[y] <==> LastPlaced(changes, x) < LastPlaced(changes, y)))
  }

  /** Removing and changing layers move nothing. */
  lemma TimedStill(v: View, changes: seq<Change>, c: Change)
    requires Consistent(v) && Allowed(v, c) && Timed(v, changes) && (c.Remove? || c.SetLayer?)
    ensures Timed(After(v, c), changes + [c])
  {
    OneChange(v, c);
    hide NoDuplicates, Without;
    assert (changes + [c])[..|changes|] == changes;
    assert After(v, c).stack == v.stack;
    hide Consistent, Bounded, Agrees;
  }

  /** A placement, whether it adds or raises: the other nodes, and the new number. */
  lemma PlacementView(v: View, c: Change) returns (others: seq<Data>, l: Layer)
    requires Consistent(v) && Allowed(v, c) && (c.Add? || c.Raise?)
    ensures Agrees(others, v.stack) && c.n !in others && forall x :: x in others ==> x in v.nodes
    ensures After(v, c).stack == Place(v.stack, c.n, l)
    ensures forall x :: x in After(v, c).nodes <==> x in others || x == c.n
  {
    OneChange(v, c);
    hide Agrees, NoDuplicates, Spot, InsertAt, Without;
    if c.Add? {
      others, l := v.nodes, c.l;
    } else {
      others, l := Without(v.nodes, c.n), v.layer[c.n];
      WithoutElements(v.nodes, c.n);
      RemovalAgrees(v.nodes, v.stack, c.n);
    }
  }

  ghost function Members(s: seq<Data>): set<Data> { set x | x in s }

  /** Times within the same layer agree with z. */
  ghost predicate InTime(s: set<Data>, t: Stack, changes: seq<Change>) {
    forall x, y | x in s && y in s && x in t.placed && y in t.placed && x in t.z && y in t.z ::
      t.placed[x] == t.placed[y] ==>
      (t.z[x] < t.z[y] <==> LastPlaced(changes, x) < LastPlaced(changes, y))
  }

  lemma LastPlacedNext(changes: seq<Change>, c: Change, x: Data)
    ensures LastPlaced(changes + [c], x) ==
      if c.n == x && (c.Add? || c.Raise?) then |changes| + 1 else LastPlaced(changes, x)
  {
    assert (changes + [c])[..|changes|] == changes;
  }

  lemma PlacedInTime(others: seq<Data>, t: Stack, changes: seq<Change>, c: Change, l: Layer)
    requires Agrees(others, t) && c.n !in others && (c.Add? || c.Raise?) && Bounded(Place(t, c.n, l))
    requires InTime(Members(others), t, changes)
    ensures InTime(Members(others) + {c.n}, Place(t, c.n, l), changes + [c])
  {
    PlacedAbove(others, t, c.n, l);
    ShapeOf(others, t);
    var t' := Place(t, c.n, l);
    assert forall x :: x in others ==> t'.z[x] == t.z[x] && t'.placed[x] == t.placed[x];
    assert t'.z[c.n] == t.next[l] && t'.placed[c.n] == l;
    hide Agrees, Place, Bounded, LastPlaced, Shaped, Ordered;
    var s := Members(others) + {c.n};
    forall x, y |
      x in s && y in s && x in t'.placed && y in t'.placed && x in t'.z && y in t'.z && t'.placed[x] == t'.placed[y]
      ensures t'.z[x] < t'.z[y] <==> LastPlaced(changes + [c], x) < LastPlaced(changes + [c], y)
    {
      LastPlacedNext(changes, c, x);
      LastPlacedNext(changes, c, y);
    }
  }

  lemma TimedIs(v: View, changes: seq<Change>)
    requires Consistent(v) && (Bounded(v.stack) ==> InTime(Members(v.nodes), v.stack, changes))
    ensures Timed(v, changes)
  {
    ShapeOf(v.nodes, v.stack);
    hide Agrees, Bounded, NoDuplicates, LastPlaced;
  }

  lemma IsTimed(v: View, changes: seq<Change>, some: seq<Data>)
    requires Timed(v, changes) && Bounded(v.stack) && forall x :: x in some ==> x in v.nodes
    ensures InTime(Members(some), v.stack, changes)
  {
    hide Consistent, Bounded, LastPlaced;
  }

  lemma BoundedBefore(t: Stack, n: Data, l: Layer)
    requires |t.next| == 5 && |t.count| == 5 && Bounded(Place(t, n, l))
    ensures Bounded(t)
  {
    forall k: Layer ensures t.count[k] < SLICE { assert Place(t, n, l).count[k] >= t.count[k]; }
  }

  /** A placed node comes last in time, and above everything in its layer. */
  lemma TimedPlacement(v: View, changes: seq<Change>, c: Change)
    requires Consistent(v) && Allowed(v, c) && Timed(v, changes) && (c.Add? || c.Raise?)
    ensures Consistent(After(v, c)) && Timed(After(v, c), changes + [c])
  {
    OneChange(v, c);
    var others, l := PlacementView(v, c);
    ShapeOf(others, v.stack);
    assert |v.stack.next| == 5 && |v.stack.count| == 5;
    hide Agrees, NoDuplicates, Bounded, Consistent, Timed, Allowed, After, Place, InTime, LastPlaced;
    var w := After(v, c);
    if Bounded(w.stack) {
      BoundedBefore(v.stack, c.n, l);
      IsTimed(v, changes, others);
      PlacedInTime(others, v.stack, changes, c, l);
      assert Members(w.nodes) == Members(others) + {c.n};
    }
    TimedIs(w, changes + [c]);
  }

  lemma {:induction false} RunTimed(changes: seq<Change>)
    requires Possible(NOTHING, changes)
    ensures Timed(AfterAll(NOTHING, changes), changes)
    decreases |changes|
  {
    hide Possible, AfterAll, Consistent, After, Allowed, Timed;
    if changes == [] {
      NothingTimed();
    } else {
      var before, c := changes[..|changes| - 1], changes[|changes| - 1];
      assert before + [c] == changes;
      AfterLast(NOTHING, before, c);
      RunTimed(before);
      if c.Add? || c.Raise? {
        TimedPlacement(AfterAll(NOTHING, before), before, c);
      } else {
        TimedStill(AfterAll(NOTHING, before), before, c);
      }
    }
  }

  lemma NothingTimed()
    ensures Possible(NOTHING, []) && AfterAll(NOTHING, []) == NOTHING && Timed(NOTHING, [])
  {
    NothingConsistent();
  }

  /** Does x come before y by the changes alone: by the layer of the last placement, then by its time? */
  predicate Earlier(changes: seq<Change>, x: Data, y: Data) {
    || PlacedIn(changes, x) < PlacedIn(changes, y)
    || (PlacedIn(changes, x) == PlacedIn(changes, y) && LastPlaced(changes, x) < LastPlaced(changes, y))
  }

  /** After any run, while no layer has used up its slice, one node is painted before another exactly when
      it was last placed in a lower layer, or earlier in the same one. */
  lemma RunPaintOrder(changes: seq<Change>, i: nat, j: nat)
    requires Possible(NOTHING, changes) && Bounded(AfterAll(NOTHING, changes).stack)
    requires i < |AfterAll(NOTHING, changes).nodes| && j < |AfterAll(NOTHING, changes).nodes|
    ensures var s := AfterAll(NOTHING, changes).nodes; i < j <==> Earlier(changes, s[i], s[j])
  {
    RunTold(changes);
    RunTimed(changes);
    hide Possible, AfterAll;
    var v := AfterAll(NOTHING, changes);
    ShapeOf(v.nodes, v.stack);
    PaintedByPlacement(v.nodes, v.stack, i, j);
    hide Agrees, Bounded, NoDuplicates, LastPlaced, PlacedIn, Standing;
  }
}
