/** The paint order of `compositor/scene.c`: a list of nodes kept sorted by z, where every layer hands
    out growing z values from its own slice. */
module SceneOrder {
  import opened ListSpec
  import opened LinkedList

  type Layer = l: nat | l < 5
  const NORMAL: Layer := 2
  const TOP: Layer := 3
  const OVERLAY: Layer := 4
  const SLICE := 0x33333333
  const WIDTH := 0x1_0000_0000

  // ---------------------------------------------------------------- sorted insertion

  /** Where node_insert stops: at the first node with a greater z. */
  function Spot(s: seq<Data>, z: map<Data, nat>, v: nat): (k: nat)
    requires forall x :: x in s ==> x in z
    ensures k <= |s| && (k < |s| ==> z[s[k]] > v) && forall i :: 0 <= i < k ==> z[s[i]] <= v
  {
    if s == [] || z[s[0]] > v then 0 else 1 + Spot(s[1..], z, v)
  }

  predicate Sorted(s: seq<Data>, z: map<Data, nat>)
    requires forall x :: x in s ==> x in z
  {
    forall i, j :: 0 <= i < j < |s| ==> z[s[i]] <= z[s[j]]
  }

  predicate Strict(s: seq<Data>, z: map<Data, nat>)
    requires forall x :: x in s ==> x in z
  {
    forall i, j :: 0 <= i < j < |s| ==> z[s[i]] < z[s[j]]
  }

  lemma InsertedElements(s: seq<Data>, k: nat, n: Data)
    requires k <= |s|
    ensures forall x :: x in InsertAt(s, k, n) <==> x in s || x == n
  {
    assert s == s[..k] + s[k..];
  }

  lemma InsertedSorted(s: seq<Data>, z: map<Data, nat>, n: Data, k: nat)
    requires (forall x :: x in s ==> x in z) && n in z && k == Spot(s, z, z[n]) && Sorted(s, z)
    ensures (forall x :: x in InsertAt(s, k, n) ==> x in z) && Sorted(InsertAt(s, k, n), z)
  {
    InsertedElements(s, k, n);
    InsertedAt(s, k, n);
    var r := InsertAt(s, k, n);
    hide InsertAt, Spot;
    forall i, j | 0 <= i < j < |r| ensures z[r[i]] <= z[r[j]] {
      assert i > k ==> z[s[i - 1]] <= z[s[j - 1]];
      assert k < j ==> z[s[k]] <= z[s[j - 1]];
      assert i < k < j ==> z[s[i]] <= z[s[j - 1]];
      assert j < k ==> z[s[i]] <= z[s[j]];
    }
  }

  lemma InsertedStrict(s: seq<Data>, z: map<Data, nat>, n: Data, k: nat)
    requires (forall x :: x in s ==> x in z) && n in z && k == Spot(s, z, z[n]) && Strict(s, z)
    requires forall x :: x in s ==> z[x] != z[n]
    ensures (forall x :: x in InsertAt(s, k, n) ==> x in z) && Strict(InsertAt(s, k, n), z)
  {
    InsertedElements(s, k, n);
    InsertedAt(s, k, n);
    var r := InsertAt(s, k, n);
    hide InsertAt, Spot;
    forall i, j | 0 <= i < j < |r| ensures z[r[i]] < z[r[j]] {
      assert i > k ==> z[s[i - 1]] < z[s[j - 1]];
      assert k + 1 < j ==> z[s[k]] < z[s[j - 1]];
      assert i < k < j ==> z[s[i]] < z[s[j - 1]];
      assert i < k ==> s[i] in s && z[s[i]] != z[n];
      assert j < k ==> z[s[i]] < z[s[j]];
    }
  }

  /** Taking a node out keeps the order of the others. */
  lemma RemovedOrder(s: seq<Data>, z: map<Data, nat>, k: nat)
    requires (forall x :: x in s ==> x in z) && k < |s|
    ensures var r := Cut(s, k);
      && (forall x :: x in r ==> x in s)
      && (Sorted(s, z) ==> Sorted(r, z)) && (Strict(s, z) ==> Strict(r, z))
  {
    var r := Cut(s, k);
    assert forall i :: 0 <= i < k ==> r[i] == s[i];
    assert forall i :: k <= i < |r| ==> r[i] == s[i + 1];
    forall x | x in r ensures x in s {
      var i :| 0 <= i < |r| && r[i] == x;
      assert s[if i < k then i else i + 1] == x;
    }
  }

  lemma WithoutOrder(s: seq<Data>, z: map<Data, nat>, n: Data)
    requires (forall x :: x in s ==> x in z) && NoDuplicates(s)
    ensures forall x :: x in Without(s, n) <==> x in s && x != n
    ensures NoDuplicates(Without(s, n))
    ensures Sorted(s, z) ==> Sorted(Without(s, n), z)
    ensures Strict(s, z) ==> Strict(Without(s, n), z)
  {
    WithoutElements(s, n);
    if n in s {
      var k := First(s, n);
      RemovedFrom(s, k, n);
      RemovedOrder(s, z, k);
    } else {
      WithoutNothing(s, n);
    }
  }

  function First(s: seq<Data>, n: Data): (k: nat)
    requires n in s
    ensures k < |s| && s[k] == n && n !in s[..k]
  {
    if s[0] == n then 0
    else
      assert s == [s[0]] + s[1..];
      var k := 1 + First(s[1..], n);
      assert s[..k] == [s[0]] + s[1..][..k - 1];
      k
  }

  // ---------------------------------------------------------------- slices

  /** What a layer's counter starts from. */
  function Base(l: Layer): nat { SLICE * l + 1 }

  /** z values that layer l has handed out when its counter stands at v. */
  predicate Given(l: Layer, v: nat, z: nat) { Base(l) <= z < v }

  /** Below the limit of one slice the counters do not meet, whichever layers they belong to. */
  lemma SlicesApart(l: Layer, m: Layer, p: nat, q: nat)
    requires l < m && p <= SLICE
    ensures Base(l) + p <= Base(m) <= Base(m) + q && Base(4) + SLICE <= WIDTH
  {
  }

  // ---------------------------------------------------------------- counters and nodes

  /** z values and counters, with the number of placements in each layer and the layer every node was
      last placed in. */
  datatype Stack = Stack(z: map<Data, nat>, next: seq<nat>, count: seq<nat>, placed: map<Data, Layer>)

  predicate Shaped(s: seq<Data>, t: Stack) {
    |t.next| == 5 && |t.count| == 5 && forall x :: x in s ==> x in t.z && x in t.placed
  }

  /** No layer has used up its slice. */
  predicate Bounded(t: Stack) { |t.count| == 5 && forall l: Layer :: t.count[l] < SLICE }

  predicate Ordered(s: seq<Data>, t: Stack)
    requires Shaped(s, t)
  {
    && (forall l: Layer :: t.next[l] == Base(l) + t.count[l])
    && (forall x :: x in s ==> Given(t.placed[x], t.next[t.placed[x]], t.z[x]))
    && Strict(s, t.z)
  }

  predicate Agrees(s: seq<Data>, t: Stack) {
    Shaped(s, t) && Sorted(s, t.z) && (Bounded(t) ==> Ordered(s, t))
  }

  /** node->z = z_state[layer]++ */
  function Place(t: Stack, n: Data, l: Layer): Stack
    requires |t.next| == 5 && |t.count| == 5
  {
    Stack(t.z[n := t.next[l]], t.next[l := (t.next[l] + 1) % WIDTH], t.count[l := t.count[l] + 1], t.placed[n := l])
  }

  /** A placed node gets a z above everything placed in its layer and the layers below, and under
      everything in the layers above. */
  lemma PlacedAbove(s: seq<Data>, t: Stack, n: Data, l: Layer)
    requires Agrees(s, t) && n !in s && Bounded(Place(t, n, l))
    ensures Ordered(s, t) && Shaped(s, Place(t, n, l))
    ensures forall x :: x in s ==> if t.placed[x] <= l then t.z[x] < t.next[l] else t.z[x] > t.next[l]
    ensures (t.next[l] + 1) % WIDTH == Base(l) + t.count[l] + 1
  {
    var t' := Place(t, n, l);
    forall k: Layer ensures t.count[k] < SLICE { assert t'.count[k] >= t.count[k]; }
    assert Bounded(t);
    forall x | x in s ensures if t.placed[x] <= l then t.z[x] < t.next[l] else t.z[x] > t.next[l] {
      var k := t.placed[x];
      if k < l { SlicesApart(k, l, t.count[k], 0); }
      if k > l { SlicesApart(l, k, t.count[l] + 1, 0); }
    }
    assert t'.count[l] == t.count[l] + 1 < SLICE;
    assert t.next[l] + 1 < Base(4) + SLICE == WIDTH;
  }

  lemma InsertionAgrees(s: seq<Data>, t: Stack, n: Data, l: Layer)
    requires Agrees(s, t) && n !in s && NoDuplicates(s)
    ensures var t' := Place(t, n, l);
      && (forall x :: x in s ==> x in t'.z)
      && Agrees(InsertAt(s, Spot(s, t'.z, t'.z[n]), n), t')
  {
    var t' := Place(t, n, l);
    var k := Spot(s, t'.z, t'.z[n]);
    SameZ(s, t.z, t'.z);
    InsertedSorted(s, t'.z, n, k);
    InsertedElements(s, k, n);
    if Bounded(t') {
      PlacedAbove(s, t, n, l);
      InsertedStrict(s, t'.z, n, k);
      InsertedGiven(s, t, n, l, k);
    }
  }

  lemma InsertedGiven(s: seq<Data>, t: Stack, n: Data, l: Layer, k: nat)
    requires Agrees(s, t) && n !in s && Bounded(Place(t, n, l)) && k <= |s|
    ensures var t' := Place(t, n, l); var r := InsertAt(s, k, n);
      && (forall m: Layer :: t'.next[m] == Base(m) + t'.count[m])
      && Shaped(r, t') && forall x :: x in r ==> Given(t'.placed[x], t'.next[t'.placed[x]], t'.z[x])
  {
    InsertedElements(s, k, n);
    PlacedAbove(s, t, n, l);
  }

  lemma SameZ(s: seq<Data>, z: map<Data, nat>, z': map<Data, nat>)
    requires forall x :: x in s ==> x in z && x in z' && z'[x] == z[x]
    ensures Sorted(s, z) ==> Sorted(s, z')
    ensures Strict(s, z) ==> Strict(s, z')
  {
    assert forall i :: 0 <= i < |s| ==> s[i] in s;
  }

  lemma RemovalAgrees(s: seq<Data>, t: Stack, n: Data)
    requires Agrees(s, t) && NoDuplicates(s)
    ensures Agrees(Without(s, n), t)
  {
    WithoutOrder(s, t.z, n);
  }

  // ---------------------------------------------------------------- runs of changes

  /** The change of a layer is an assignment in cuts.c, which may or may not be followed by a raise. */
  datatype Change = Add(n: Data, l: Layer) | Raise(n: Data) | Remove(n: Data) | SetLayer(n: Data, l: Layer)

  /** The nodes in paint order, the numbering, and the layer each node is in. */
  datatype View = View(nodes: seq<Data>, stack: Stack, layer: map<Data, Layer>)

  predicate Consistent(v: View) {
    && NoDuplicates(v.nodes) && NULL !in v.nodes && (forall x :: x in v.nodes ==> x in v.layer)
    && Agrees(v.nodes, v.stack)
  }

  /** Nodes are added once and changed while they are there. */
  predicate Allowed(v: View, c: Change) {
    match c
    case Add(n, _) => n != NULL && n !in v.nodes
    case _ => c.n in v.nodes
  }

  /** Node n comes into the list with a new z for its layer. */
  function Inserted(nodes: seq<Data>, stack: Stack, layer: map<Data, Layer>, n: Data, l: Layer): View
    requires Shaped(nodes, stack)
  {
    var t := Place(stack, n, l);
    View(InsertAt(nodes, Spot(nodes, t.z, t.z[n]), n), t, layer)
  }

  function After(v: View, c: Change): View
    requires Consistent(v) && Allowed(v, c)
  {
    match c
    case Add(n, l) => Inserted(v.nodes, v.stack, v.layer[n := l], n, l)
    case Raise(n) =>
      WithoutElements(v.nodes, n);
      Inserted(Without(v.nodes, n), v.stack, v.layer, n, v.layer[n])
    case Remove(n) => v.(nodes := Without(v.nodes, n))
    case SetLayer(n, l) => v.(layer := v.layer[n := l])
  }

  lemma AfterConsistent(v: View, c: Change)
    requires Consistent(v) && Allowed(v, c)
    ensures Consistent(After(v, c))
  {
    hide Agrees, Spot, NoDuplicates, Without, InsertAt;
    match c {
      case Add(n, l) =>
        ShapeOf(v.nodes, v.stack);
        InsertedConsistent(v.nodes, v.stack, v.layer[n := l], n, l);
      case Raise(n) =>
        WithoutElements(v.nodes, n);
        RemovalAgrees(v.nodes, v.stack, n);
        ShapeOf(v.nodes, v.stack);
        InsertedConsistent(Without(v.nodes, n), v.stack, v.layer, n, v.layer[n]);
      case Remove(n) =>
        WithoutElements(v.nodes, n);
        RemovalAgrees(v.nodes, v.stack, n);
      case SetLayer(n, l) =>
    }
  }

  lemma InsertedConsistent(nodes: seq<Data>, stack: Stack, layer: map<Data, Layer>, n: Data, l: Layer)
    requires NoDuplicates(nodes) && NULL !in nodes && Shaped(nodes, stack) && Agrees(nodes, stack) && n !in nodes
    requires n != NULL
    requires n in layer && forall x :: x in nodes ==> x in layer
    ensures Consistent(Inserted(nodes, stack, layer, n, l))
  {
    hide Agrees, Spot, NoDuplicates;
    var t := Place(stack, n, l);
    InsertionAgrees(nodes, stack, n, l);
    InsertedElements(nodes, Spot(nodes, t.z, t.z[n]), n);
    DistinctInsert(nodes, Spot(nodes, t.z, t.z[n]), n);
  }

  predicate Possible(v: View, changes: seq<Change>)
    decreases |changes|
  {
    changes == [] ||
    (Consistent(v) && Allowed(v, changes[0]) && Possible(After(v, changes[0]), changes[1..]))
  }

  function AfterAll(v: View, changes: seq<Change>): View
    requires Possible(v, changes)
    decreases |changes|
  {
    if changes == [] then v else AfterAll(After(v, changes[0]), changes[1..])
  }

  /** After any run of changes the list holds the nodes sorted by z, strictly while no layer has used up
      its slice, and the numbering is right. */
  lemma {:induction false} RunConsistent(v: View, changes: seq<Change>)
    requires Consistent(v) && Possible(v, changes)
    ensures var w := AfterAll(v, changes);
      Consistent(w) && Sorted(w.nodes, w.stack.z) && (Bounded(w.stack) ==> Strict(w.nodes, w.stack.z))
    decreases |changes|
  {
    if changes != [] {
      AfterConsistent(v, changes[0]);
      RunConsistent(After(v, changes[0]), changes[1..]);
    }
  }

  // ---------------------------------------------------------------- the scene

  class Scene {
    const nodes: List
    var z: map<Data, nat>
    var layer: map<Data, Layer>
    var zState: seq<nat>
    ghost var count: seq<nat>
    ghost var placed: map<Data, Layer>

    ghost function State(): Stack
      reads this
    {
      Stack(z, zState, count, placed)
    }

    ghost function Now(): View
      reads this, nodes
    {
      View(nodes.contents, State(), layer)
    }

    ghost predicate Valid()
      reads this, nodes, nodes.nodes
    {
      nodes.Valid() && Consistent(Now())
    }

    constructor ()
      ensures Valid() && Now() == NOTHING && fresh(nodes) && fresh(nodes.nodes)
    {
      nodes := new List();
      z, layer, placed := map[], map[], map[];
      zState := [1, SLICE + 1, SLICE * 2 + 1, SLICE * 3 + 1, SLICE * 4 + 1];
      count := [0, 0, 0, 0, 0];
    }

    /** node_insert */
    method NodeInsert(n: Data)
      requires nodes.Valid() && n in z && forall x :: x in nodes.contents ==> x in z
      modifies nodes, nodes.nodes
      ensures nodes.Valid()
      ensures forall x :: x in old(nodes.contents) ==> x in z
      ensures nodes.contents == InsertAt(old(nodes.contents), Spot(old(nodes.contents), z, z[n]), n)
      ensures forall k :: 0 <= k < |nodes.nodes| ==> nodes.nodes[k] in old(nodes.nodes) || fresh(nodes.nodes[k])
    {
      var l, k := Walk(z[n]);
      var _ := nodes.Insert2(l, k, n, false);
    }

    method Walk(v: nat) returns (l: Node, ghost k: nat)
      requires nodes.Valid() && forall x :: x in nodes.contents ==> x in z
      ensures k < |nodes.nodes| && l == nodes.nodes[k] && k == Spot(nodes.contents, z, v)
    {
      l := nodes.head;
      k := 0;
      while l.next != null
        invariant 0 <= k < |nodes.nodes| && l == nodes.nodes[k]
        invariant forall i :: 0 <= i < k ==> z[nodes.contents[i]] <= v
        decreases |nodes.nodes| - k
      {
        NextOf(nodes.nodes, k);
        assert nodes.contents[k] in nodes.contents;
        if z[l.data] > v { break; }
        l := l.next;
        k := k + 1;
      }
      NextOf(nodes.nodes, k);
    }

    /** c_scene_add_window, c_scene_add_rect, c_scene_add_buffer, c_scene_add_surface: they differ in the
        layer only. */
    method Add(n: Data, l: Layer)
      requires Valid() && Allowed(Now(), Change.Add(n, l))
      modifies this, nodes, nodes.nodes
      ensures Valid() && Now() == After(old(Now()), Change.Add(n, l))
      ensures forall k :: 0 <= k < |nodes.nodes| ==> nodes.nodes[k] in old(nodes.nodes) || fresh(nodes.nodes[k])
    {
      hide Agrees, Spot, NoDuplicates, InsertAt;
      AfterConsistent(Now(), Change.Add(n, l));
      ShapeOf(nodes.contents, State());
      Number(n, l);
      layer := layer[n := l];
      NodeInsert(n);
    }

    /** node->z = z_state[l]++ */
    method Number(n: Data, l: Layer)
      requires |zState| == 5 && |count| == 5
      modifies this`z, this`zState, this`count, this`placed
      ensures State() == Place(old(State()), n, l)
    {
      z := z[n := zState[l]];
      zState := zState[l := (zState[l] + 1) % WIDTH];
      count, placed := count[l := count[l] + 1], placed[n := l];
    }

    /** c_scene_node_raise: the node leaves the list and comes back with a new z. */
    method Raise(n: Data)
      requires Valid() && Allowed(Now(), Change.Raise(n))
      modifies this, nodes, nodes.nodes
      ensures Valid() && Now() == After(old(Now()), Change.Raise(n))
      ensures forall k :: 0 <= k < |nodes.nodes| ==> nodes.nodes[k] in old(nodes.nodes) || fresh(nodes.nodes[k])
    {
      hide Agrees, Spot, NoDuplicates, Without, InsertAt;
      AfterConsistent(Now(), Change.Raise(n));
      WithoutElements(nodes.contents, n);
      ShapeOf(nodes.contents, State());
      Number(n, layer[n]);
      Relist(n);
    }

    /** c_list_remove and node_insert */
    method Relist(n: Data)
      requires nodes.Valid() && n != NULL && n in z && forall x :: x in nodes.contents ==> x in z
      requires forall x :: x in Without(nodes.contents, n) ==> x in z
      modifies nodes, nodes.nodes
      ensures nodes.Valid()
      ensures forall x :: x in Without(old(nodes.contents), n) ==> x in z
      ensures nodes.contents ==
        InsertAt(Without(old(nodes.contents), n), Spot(Without(old(nodes.contents), n), z, z[n]), n)
      ensures forall k :: 0 <= k < |nodes.nodes| ==> nodes.nodes[k] in old(nodes.nodes) || fresh(nodes.nodes[k])
    {
      hide Without, InsertAt, Spot, NoDuplicates, Chain;
      var _ := nodes.Remove(n);
      NodeInsert(n);
    }

    /** c_scene_node_remove */
    method Remove(n: Data)
      requires Valid() && Allowed(Now(), Change.Remove(n))
      modifies this, nodes, nodes.nodes
      ensures Valid() && Now() == After(old(Now()), Change.Remove(n))
      ensures forall k :: 0 <= k < |nodes.nodes| ==> nodes.nodes[k] in old(nodes.nodes) || fresh(nodes.nodes[k])
    {
      hide Agrees, NoDuplicates;
      AfterConsistent(Now(), Change.Remove(n));
      var _ := nodes.Remove(n);
    }

    /** The assignment node->layer = l that cuts.c makes; the node keeps its place. */
    method SetLayer(n: Data, l: Layer)
      requires Valid() && Allowed(Now(), Change.SetLayer(n, l))
      modifies this`layer
      ensures Valid() && Now() == After(old(Now()), Change.SetLayer(n, l))
    {
      layer := layer[n := l];
    }

    method Apply(c: Change)
      requires Valid() && Allowed(Now(), c)
      modifies this, nodes, nodes.nodes
      ensures Valid() && Now() == After(old(Now()), c)
      ensures forall k :: 0 <= k < |nodes.nodes| ==> nodes.nodes[k] in old(nodes.nodes) || fresh(nodes.nodes[k])
    {
      hide Consistent, After;
      match c {
        case Add(n, l) => Add(n, l);
        case Raise(n) => Raise(n);
        case Remove(n) => Remove(n);
        case SetLayer(n, l) => SetLayer(n, l);
      }
    }

    /** Any run of changes. */
    method Run(changes: seq<Change>)
      requires Valid() && Possible(Now(), changes)
      modifies this, nodes, nodes.nodes
      ensures Valid() && Now() == AfterAll(old(Now()), changes)
      ensures Sorted(nodes.contents, z) && (Bounded(State()) ==> Strict(nodes.contents, z))
    {
      RunConsistent(Now(), changes);
      hide Consistent, After, Allowed;
      var i := 0;
      assert changes[0..] == changes;
      while i < |changes|
        invariant 0 <= i <= |changes| && Valid() && Possible(Now(), changes[i..])
        invariant AfterAll(Now(), changes[i..]) == AfterAll(old(Now()), changes)
        invariant forall k :: 0 <= k < |nodes.nodes| ==> nodes.nodes[k] in old(nodes.nodes) || fresh(nodes.nodes[k])
      {
        assert changes[i..][0] == changes[i] && changes[i..][1..] == changes[i + 1..];
        Apply(changes[i]);
        i := i + 1;
      }
    }
  }

  const NOTHING := View([], Stack(map[], [Base(0), Base(1), Base(2), Base(3), Base(4)], [0, 0, 0, 0, 0], map[]), map[])

  lemma ShapeOf(s: seq<Data>, t: Stack)
    requires Agrees(s, t)
    ensures Shaped(s, t)
  {
  }

  // ---------------------------------------------------------------- what is painted over what

  /** Was x placed under y: in a lower layer, or earlier in the same one? */
  predicate PlacedUnder(t: Stack, x: Data, y: Data)
    requires x in t.placed && y in t.placed && x in t.z && y in t.z
  {
    t.placed[x] < t.placed[y] || (t.placed[x] == t.placed[y] && t.z[x] < t.z[y])
  }

  /** Nodes are painted in the order they were last placed in: by layer, then by time. */
  lemma PaintedByPlacement(s: seq<Data>, t: Stack, i: nat, j: nat)
    requires Shaped(s, t) && Agrees(s, t) && Bounded(t) && i < |s| && j < |s|
    ensures s[i] in s && s[j] in s && (i < j <==> PlacedUnder(t, s[i], s[j]))
  {
    var k, m := t.placed[s[i]], t.placed[s[j]];
    assert s[i] in s && s[j] in s;
    if k < m { SlicesApart(k, m, t.count[k], 0); }
    if m < k { SlicesApart(m, k, t.count[m], 0); }
  }

  /** Are lower layers painted before higher ones? */
  predicate InLayerOrder(s: seq<Data>, layer: map<Data, Layer>)
    requires forall x :: x in s ==> x in layer
  {
    forall i, j :: 0 <= i < |s| && 0 <= j < |s| && layer[s[i]] < layer[s[j]] ==> i < j
  }

  /** Layers are painted in order exactly when every node of a lower layer was last placed under every
      node of a higher one. */
  lemma PaintedByLayer(s: seq<Data>, t: Stack, layer: map<Data, Layer>)
    requires Shaped(s, t) && Agrees(s, t) && Bounded(t) && forall x :: x in s ==> x in layer
    ensures InLayerOrder(s, layer) <==> forall x, y :: x in s && y in s && layer[x] < layer[y] ==> PlacedUnder(t, x, y)
    ensures (forall x :: x in s ==> t.placed[x] == layer[x]) ==> InLayerOrder(s, layer)
  {
    hide Agrees, Bounded, PlacedUnder;
    forall i, j | 0 <= i < |s| && 0 <= j < |s| ensures i < j <==> PlacedUnder(t, s[i], s[j]) {
      PaintedByPlacement(s, t, i, j);
    }
    if forall x :: x in s ==> t.placed[x] == layer[x] {
      forall i, j | 0 <= i < |s| && 0 <= j < |s| && layer[s[i]] < layer[s[j]] ensures i < j {
        LowerPlaced(t, s[i], s[j]);
      }
    }
  }

  lemma LowerPlaced(t: Stack, x: Data, y: Data)
    requires x in t.placed && y in t.placed && x in t.z && y in t.z && t.placed[x] < t.placed[y]
    ensures PlacedUnder(t, x, y)
  {
  }

  /** The nodes whose layer was changed and that have not been raised, removed or added since. */
  function Unraised(nodes: set<Data>, changes: seq<Change>): set<Data>
    decreases |changes|
  {
    if changes == [] then nodes
    else Unraised(if changes[0].SetLayer? then nodes + {changes[0].n} else nodes - {changes[0].n}, changes[1..])
  }

  predicate PlacedInLayer(v: View, except: set<Data>)
    requires Consistent(v)
  {
    forall x :: x in v.nodes && x !in except ==> x in v.stack.placed && v.stack.placed[x] == v.layer[x]
  }

  lemma AfterPlaced(v: View, c: Change, except: set<Data>)
    requires Consistent(v) && Allowed(v, c) && PlacedInLayer(v, except)
    ensures Consistent(After(v, c))
    ensures PlacedInLayer(After(v, c), if c.SetLayer? then except + {c.n} else except - {c.n})
  {
    hide Agrees, NoDuplicates, Spot, InsertAt, Without;
    AfterConsistent(v, c);
    ShapeOf(v.nodes, v.stack);
    match c {
      case Add(n, l) =>
        var t := Place(v.stack, n, l);
        InsertedElements(v.nodes, Spot(v.nodes, t.z, t.z[n]), n);
      case Raise(n) =>
        WithoutElements(v.nodes, n);
        var t := Place(v.stack, n, v.layer[n]);
        InsertedElements(Without(v.nodes, n), Spot(Without(v.nodes, n), t.z, t.z[n]), n);
      case Remove(n) => WithoutElements(v.nodes, n);
      case SetLayer(_, _) =>
    }
  }

  lemma {:induction false} RunPlaced(v: View, changes: seq<Change>, except: set<Data>)
    requires Consistent(v) && Possible(v, changes) && PlacedInLayer(v, except)
    ensures Consistent(AfterAll(v, changes)) && PlacedInLayer(AfterAll(v, changes), Unraised(except, changes))
    decreases |changes|
  {
    hide Consistent, PlacedInLayer, After;
    if changes != [] {
      AfterPlaced(v, changes[0], except);
      RunPlaced(After(v, changes[0]), changes[1..],
        if changes[0].SetLayer? then except + {changes[0].n} else except - {changes[0].n});
    }
  }

  /** After any run in which every change of a layer is followed by a raise, lower layers are painted
      before higher ones, while no layer has used up its slice. */
  lemma RunPaintsByLayer(v: View, changes: seq<Change>)
    requires Consistent(v) && Possible(v, changes) && PlacedInLayer(v, {}) && Unraised({}, changes) == {}
    ensures var w := AfterAll(v, changes); Consistent(w) && (Bounded(w.stack) ==> InLayerOrder(w.nodes, w.layer))
  {
    hide Agrees, Bounded, PlacedUnder;
    RunPlaced(v, changes, {});
    var w := AfterAll(v, changes);
    ShapeOf(w.nodes, w.stack);
    if Bounded(w.stack) { PaintedByLayer(w.nodes, w.stack, w.layer); }
  }

  /** When every node was placed in its layer and one of them goes down to layer l without a raise, the
      layers are still painted in order exactly when that node was painted before all nodes above l. */
  lemma LayerWithoutRaise(s: seq<Data>, t: Stack, layer: map<Data, Layer>, n: Data, l: Layer)
    requires Shaped(s, t) && Agrees(s, t) && Bounded(t) && n in s
    requires (forall x :: x in s ==> x in layer && t.placed[x] == layer[x]) && l < layer[n]
    ensures InLayerOrder(s, layer[n := l]) <==> forall x :: x in s && x != n && l < layer[x] ==> t.z[n] < t.z[x]
  {
    var changed := layer[n := l];
    PaintedByLayer(s, t, layer);
    PaintedByLayer(s, t, changed);
    if InLayerOrder(s, changed) {
      forall x | x in s && x != n && l < layer[x] ensures t.z[n] < t.z[x] { UnderIsLower(s, t, n, x); }
    }
    if forall x :: x in s && x != n && l < layer[x] ==> t.z[n] < t.z[x] {
      forall x, y | x in s && y in s && changed[x] < changed[y] ensures PlacedUnder(t, x, y) {
        if x == n { UnderIsLower(s, t, n, y); }
      }
    }
  }

  lemma UnderIsLower(s: seq<Data>, t: Stack, x: Data, y: Data)
    requires Shaped(s, t) && Agrees(s, t) && Bounded(t) && x in s && y in s
    ensures PlacedUnder(t, x, y) <==> t.z[x] < t.z[y]
  {
    var k, m := t.placed[x], t.placed[y];
    if k < m { SlicesApart(k, m, t.count[k], 0); }
    if m < k { SlicesApart(m, k, t.count[m], 0); }
  }

  /** client_set_fullscreen and client_unset_fullscreen on a window, with the bar in the top layer: the
      window is back in its layer and still painted over the bar. */
  method FullScreenAndBack(window: Data, bar: Data) returns (scene: Scene)
    requires window != NULL && bar != NULL && window != bar
    ensures scene.Valid() && Bounded(scene.State()) && scene.nodes.contents == [bar, window]
    ensures window in scene.layer && bar in scene.layer && scene.layer[window] == NORMAL && scene.layer[bar] == TOP
    ensures !InLayerOrder(scene.nodes.contents, scene.layer)
  {
    hide Possible, AfterAll, Consistent;
    FullScreenRun(window, bar);
    scene := new Scene();
    scene.Run(Toggled(window, bar));
  }

  function Toggled(window: Data, bar: Data): seq<Change> {
    [Change.Add(window, NORMAL)] + ([Change.Add(bar,
      TOP)] + ([Change.SetLayer(window, OVERLAY)] + ([Change.Raise(window)] + [Change.SetLayer(window, NORMAL)])))
  }

  lemma FullScreenRun(window: Data, bar: Data)
    requires window != NULL && bar != NULL && window != bar
    ensures Possible(NOTHING, Toggled(window, bar))
    ensures var v := AfterAll(NOTHING, Toggled(window, bar));
      && v.nodes == [bar, window] && window in v.layer && bar in v.layer && v.layer[window] == NORMAL &&
        v.layer[bar] == TOP
      && Bounded(v.stack) && !InLayerOrder(v.nodes, v.layer)
  {
    hide Consistent, After, Possible, AfterAll, InLayerOrder;
    NothingConsistent();
    var c1, c2, c3 := Change.Add(window, NORMAL), Change.Add(bar, TOP), Change.SetLayer(window, OVERLAY);
    var c4, c5 := Change.Raise(window), Change.SetLayer(window, NORMAL);
    AfterConsistent(NOTHING, c1);
    var v1 := After(NOTHING, c1);
    WindowOpened(v1, window);
    AfterConsistent(v1, c2);
    var v2 := After(v1, c2);
    BarOpened(v1, v2, window, bar);
    AfterConsistent(v2, c3);
    var v3 := After(v2, c3);
    WindowCovers(v2, v3, window, bar);
    AfterConsistent(v3, c4);
    var v4 := After(v3, c4);
    WindowRaised(v3, v4, window, bar);
    WindowBack(v4, After(v4, c5), window, bar);
    OneChange(v4, c5);
    FirstChange(v3, c4, [c5]);
    FirstChange(v2, c3, [c4] + [c5]);
    FirstChange(v1, c2, [c3] + ([c4] + [c5]));
    FirstChange(NOTHING, c1, [c2] + ([c3] + ([c4] + [c5])));
  }

  lemma NothingConsistent()
    ensures Consistent(NOTHING)
  {
  }

  lemma FirstChange(v: View, c: Change, rest: seq<Change>)
    requires Consistent(v) && Allowed(v, c) && Possible(After(v, c), rest)
    ensures Possible(v, [c] + rest) && AfterAll(v, [c] + rest) == AfterAll(After(v, c), rest)
  {
    assert ([c] + rest)[1..] == rest;
  }

  lemma OneChange(v: View, c: Change)
    requires Consistent(v) && Allowed(v, c)
    ensures Possible(v, [c]) && AfterAll(v, [c]) == After(v, c)
  {
    assert [c][1..] == [];
  }

  predicate Counted(v: View, nodes: seq<Data>, count: seq<nat>) {
    && v.nodes == nodes && Shaped(nodes, v.stack) && v.stack.count == count && |count| == 5
    && forall l: Layer :: v.stack.next[l] == Base(l) + count[l]
  }

  lemma WindowOpened(v: View, window: Data)
    requires Consistent(NOTHING) && window != NULL && v == After(NOTHING, Change.Add(window, NORMAL))
    ensures Counted(v, [window], [0, 0, 1, 0, 0]) && v.stack.z[window] == Base(NORMAL)
  {
    hide Agrees, NoDuplicates, InsertAt, Spot, Consistent;
    FirstInserted(NOTHING.stack, NOTHING.layer[window := NORMAL], window, NORMAL);
    assert v == Inserted([], NOTHING.stack, NOTHING.layer[window := NORMAL], window, NORMAL);
  }

  lemma BarOpened(v: View, w: View, window: Data, bar: Data)
    requires Consistent(v) && window != bar && bar != NULL && Counted(v, [window], [0, 0, 1, 0, 0])
    requires v.stack.z[window] == Base(NORMAL)
    requires w == After(v, Change.Add(bar, TOP))
    ensures Counted(w, [window, bar], [0, 0, 1, 1, 0]) && w.stack.z[bar] == Base(TOP) && bar in w.layer
    ensures w.layer[bar] == TOP
  {
    SecondInserted(window, v.stack, v.layer[bar := TOP], bar, TOP);
  }

  lemma WindowCovers(v: View, w: View, window: Data, bar: Data)
    requires Consistent(v) && window != bar && Counted(v, [window, bar], [0, 0, 1, 1, 0]) && bar in v.layer
    requires v.layer[bar] == TOP
    requires w == After(v, Change.SetLayer(window, OVERLAY))
    ensures w.nodes == v.nodes && w.stack == v.stack && w.layer == v.layer[window := OVERLAY]
  {
  }

  lemma WindowRaised(v: View, w: View, window: Data, bar: Data)
    requires Consistent(v) && window != bar && Counted(v, [window, bar], [0, 0, 1, 1, 0]) && v.stack.z[bar] == Base(TOP)
    requires window in v.layer && v.layer[window] == OVERLAY && w == After(v, Change.Raise(window))
    ensures Counted(w, [bar, window], [0, 0, 1, 1, 1]) && w.layer == v.layer
  {
    hide Agrees, NoDuplicates, InsertAt, Spot, Consistent, Without;
    OtherLeft(window, bar);
    SecondInserted(bar, v.stack, v.layer, window, OVERLAY);
    assert w == Inserted([bar], v.stack, v.layer, window, OVERLAY);
  }

  lemma WindowBack(v: View, w: View, window: Data, bar: Data)
    requires Consistent(v) && window != bar && Counted(v, [bar, window], [0, 0, 1, 1, 1]) && bar in v.layer
    requires v.layer[bar] == TOP
    requires w == After(v, Change.SetLayer(window, NORMAL))
    ensures w.nodes == v.nodes && w.layer == v.layer[window := NORMAL] && Bounded(w.stack)
    ensures !InLayerOrder(w.nodes, w.layer)
  {
    assert w.nodes[0] == bar && w.nodes[1] == window;
  }

  lemma FirstInserted(t: Stack, layer: map<Data, Layer>, n: Data, l: Layer)
    requires Shaped([], t)
    ensures Inserted([], t, layer, n, l).nodes == [n]
  {
  }

  lemma SecondInserted(x: Data, t: Stack, layer: map<Data, Layer>, n: Data, l: Layer)
    requires Shaped([x], t) && t.z[x] <= t.next[l] && x != n
    ensures Inserted([x], t, layer, n, l).nodes == [x, n]
  {
    assert [x][1..] == [];
  }

  lemma OtherLeft(x: Data, y: Data)
    ensures Without([x, y], x) == [y]
  {
  }

  /** A raised node is painted after everything placed in its layer and the layers below, and before
      everything placed in a layer above. */
  lemma RaisedAbove(s: seq<Data>, t: Stack, n: Data, l: Layer, i: nat)
    requires Agrees(s, t) && n !in s && NoDuplicates(s) && Bounded(Place(t, n, l))
    requires var z := Place(t, n, l).z; (forall x :: x in s ==> x in z) && i < |InsertAt(s, Spot(s, z, z[n]), n)|
    ensures var z := Place(t, n, l).z; var k := Spot(s, z, z[n]); var r := InsertAt(s, k, n);
      && r[k] == n
      && (i != k ==> r[i] in s && (i < k <==> t.placed[r[i]] <= l))
  {
    var z := Place(t, n, l).z;
    var k := Spot(s, z, z[n]);
    InsertedAt(s, k, n);
    PlacedAbove(s, t, n, l);
    hide InsertAt;
    if i < k { assert s[i] in s && z[s[i]] == t.z[s[i]]; }
    if i > k {
      assert s[i - 1] in s && s[k] in s && z[s[i - 1]] == t.z[s[i - 1]];
      assert t.z[s[k]] <= t.z[s[i - 1]];
    }
  }
}
