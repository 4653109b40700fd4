/** The two views of `collect_window_tree` agree: the pixel buffers a node's quads hold are those of the
    surfaces that hit testing sees painted, in the same order. */
module PaintedTrees {
  import opened Memory
  import opened Invariant
  import opened SceneQuads
  import opened SubsurfaceSync
  import HitTest

  /** Sizes and places, which the counts do not depend on. */
  datatype Shape = Shape(width: real, height: real, input: HitTest.Rect, geometry: HitTest.Option<HitTest.Rect>)
  datatype Look = Look(shape: Ptr -> Shape, x: Ptr -> real, y: Ptr -> real)

  /** The tree of surfaces below s, each named by the pixels it shows. A subsurface without a surface is
      a child without a tree. */
  function TreeOf(mem: map<Ptr, Block>, rank: map<Ptr, nat>, look: Look, s: Ptr): HitTest.Surface
    requires Ranked(mem, rank) && s in mem && mem[s].body.Surface?
    decreases rank[s], 1
  {
    var h := look.shape(s);
    HitTest.Surface(if Shows(mem, s) then mem[mem[s].body.active].body.pixels else NULL, Shows(mem, s), h.width,
      h.height,
      h.input, h.geometry, Children(mem, rank, look, s, |mem[s].body.children|), [])
  }

  function Children(mem: map<Ptr, Block>, rank: map<Ptr, nat>, look: Look, s: Ptr, k: nat): (r: seq<HitTest.Child>)
    requires Ranked(mem, rank) && s in mem && mem[s].body.Surface? && k <= |mem[s].body.children|
    ensures |r| == k
    decreases rank[s], 0, k
  {
    if k == 0 then []
    else
      var ss := mem[s].body.children[k - 1];
      var t := SurfaceOf(mem, ss);
      assert Below(mem, rank, s, ss);
      Children(mem, rank, look, s, k - 1) +
      [HitTest.Child(look.x(ss), look.y(ss),
        if t in mem && mem[t].body.Surface? then HitTest.Some(TreeOf(mem, rank, look, t)) else HitTest.None)]
  }

  lemma {:induction false} ChildrenPrefix(mem: map<Ptr, Block>, rank: map<Ptr, nat>, look: Look, s: Ptr, k: nat, n: nat)
    requires Ranked(mem, rank) && s in mem && mem[s].body.Surface? && k <= n <= |mem[s].body.children|
    ensures Children(mem, rank, look, s, n)[..k] == Children(mem, rank, look, s, k)
  {
    if k < n {
      ChildrenPrefix(mem, rank, look, s, k, n - 1);
      assert Children(mem, rank, look, s, n)[..k] == Children(mem, rank, look, s, n - 1)[..k];
    }
  }

  function TreeBelow(mem: map<Ptr, Block>, rank: map<Ptr, nat>, look: Look, t: Ptr): HitTest.Option<HitTest.Surface>
    requires Ranked(mem, rank)
  {
    if t in mem && mem[t].body.Surface? then HitTest.Some(TreeOf(mem, rank, look, t)) else HitTest.None
  }

  lemma ChildAt(mem: map<Ptr, Block>, rank: map<Ptr, nat>, look: Look, s: Ptr, k: nat)
    requires Ranked(mem, rank) && s in mem && mem[s].body.Surface? && k < |mem[s].body.children|
    ensures var tree := TreeOf(mem, rank, look, s); var ss := mem[s].body.children[k];
      && |tree.subsurfaces| == |mem[s].body.children|
      && tree.subsurfaces[k] == HitTest.Child(look.x(ss), look.y(ss), TreeBelow(mem, rank, look, SurfaceOf(mem, ss)))
  {
    hide Ranked;
    ChildrenPrefix(mem, rank, look, s, k + 1, |mem[s].body.children|);
    var c := TreeOf(mem, rank, look, s).subsurfaces[k];
    assert c == Children(mem, rank, look, s, k + 1)[k];
  }

  function Pixels(quads: seq<HitTest.Quad>): seq<Ptr> {
    if quads == [] then [] else Pixels(quads[..|quads| - 1]) + [quads[|quads| - 1].surface.id]
  }

  lemma {:induction false} PixelsAppend(a: seq<HitTest.Quad>, b: seq<HitTest.Quad>)
    ensures Pixels(a + b) == Pixels(a) + Pixels(b)
  {
    if b == [] {
      assert a + b == a;
    } else {
      assert (a + b)[..|a + b| - 1] == a + b[..|b| - 1];
      PixelsAppend(a, b[..|b| - 1]);
    }
  }

  lemma ChildBelow(mem: map<Ptr, Block>, rank: map<Ptr, nat>, s: Ptr, k: nat)
    requires Ranked(mem, rank) && s in mem && mem[s].body.Surface? && k < |mem[s].body.children|
    ensures s in rank && Below(mem, rank, s, mem[s].body.children[k])
  {
  }

  /** What collect_window_tree pushes, seen by place and seen by count, are the same buffers in the same
      order. */
  lemma {:induction false} SamePixels(mem: map<Ptr, Block>, rank: map<Ptr, nat>, look: Look, s: Ptr, window: bool,
                                      scale: real, x: real, y: real)
    requires Ranked(mem, rank) && s in mem && mem[s].body.Surface?
    ensures Pixels(HitTest.Quads(window, TreeOf(mem, rank, look, s), scale, x, y)) == Painted(mem, rank, s)
    decreases rank[s], 1
  {
    hide Children, Ranked;
    if Shows(mem, s) {
      var tree := TreeOf(mem, rank, look, s);
      var geoX := if window && tree.geometry.Some? then tree.geometry.value.x else 0.0;
      var geoY := if window && tree.geometry.Some? then tree.geometry.value.y else 0.0;
      var n := |mem[s].body.children|;
      var first, subs := [HitTest.Quad(tree, x, y)], HitTest.SubQuads(tree, scale, x, y, geoX, geoY, n);
      SamePixelsBelow(mem, rank, look, s, scale, x, y, geoX, geoY, n);
      PixelsAppend(first, subs);
      assert first[..0] == [] && Pixels(first) == [tree.id];
      assert HitTest.Quads(window, tree, scale, x, y) == first + subs + [];
      assert first + subs + [] == first + subs;
    }
  }

  lemma {:induction false} SamePixelsBelow(mem: map<Ptr, Block>, rank: map<Ptr, nat>, look: Look, s: Ptr, scale: real,
                                           x: real, y: real, geoX: real, geoY: real, k: nat)
    requires Ranked(mem, rank) && Shows(mem, s) && k <= |mem[s].body.children|
    ensures Pixels(HitTest.SubQuads(TreeOf(mem, rank, look, s), scale, x, y, geoX, geoY, k)) ==
      PaintedBelow(mem, rank, s, k)
    decreases rank[s], 0, k
  {
    hide Ranked, HitTest.Quads, TreeOf, Children;
    if k > 0 {
      var tree := TreeOf(mem, rank, look, s);
      var ss := mem[s].body.children[k - 1];
      var t := SurfaceOf(mem, ss);
      ChildBelow(mem, rank, s, k - 1);
      SamePixelsBelow(mem, rank, look, s, scale, x, y, geoX, geoY, k - 1);
      ChildAt(mem, rank, look, s, k - 1);
      var c := tree.subsurfaces[k - 1];
      var cx, cy := HitTest.ScaledAt(x, c.x, geoX, scale), HitTest.ScaledAt(y, c.y, geoY, scale);
      PixelsAppend(HitTest.SubQuads(tree, scale, x, y, geoX, geoY, k - 1),
        HitTest.QuadsBelow(c.surface, scale, cx, cy));
      if t in mem && mem[t].body.Surface? { SamePixels(mem, rank, look, t, false, scale, cx, cy); }
    }
  }

  // ---------------------------------------------------------------- hit testing reads what painting skips

  /** The surfaces that are painted in the tree below s. */
  function ShownIn(mem: map<Ptr, Block>, rank: map<Ptr, nat>, s: Ptr): set<Ptr>
    requires Ranked(mem, rank)
    decreases RankOf(rank, s), 1, 0
  {
    if Shows(mem, s) then {s} + ShownBelow(mem, rank, s, |mem[s].body.children|) else {}
  }

  function ShownBelow(mem: map<Ptr, Block>, rank: map<Ptr, nat>, s: Ptr, k: nat): set<Ptr>
    requires Ranked(mem, rank) && Shows(mem, s) && k <= |mem[s].body.children|
    decreases RankOf(rank, s), 0, k
  {
    if k == 0 then {}
    else
      var t := SurfaceOf(mem, mem[s].body.children[k - 1]);
      assert Below(mem, rank, s, mem[s].body.children[k - 1]);
      ShownBelow(mem, rank, s, k - 1) + (if Shows(mem, t) then ShownIn(mem, rank, t) else {})
  }

  /** Every subsurface of s still has its surface. */
  predicate ChildrenNested(mem: map<Ptr, Block>, s: Ptr) {
    forall k :: 0 <= k < |ChildrenOf(mem, s)| ==> Nested(mem, ChildrenOf(mem, s)[k])
  }

  /** A hit test of a client's window is safe exactly when every subsurface of every painted surface
      still has its surface. */
  lemma {:induction false} HitTestWhole(mem: map<Ptr, Block>, rank: map<Ptr, nat>, look: Look, s: Ptr)
    requires Ranked(mem, rank) && s in mem && mem[s].body.Surface?
    ensures HitTest.Whole(TreeOf(mem, rank, look, s)) <==>
      forall t :: t in ShownIn(mem, rank, s) ==> ChildrenNested(mem, t)
    decreases RankOf(rank, s), 1, 0
  {
    if Shows(mem, s) {
      WholeTree(mem, rank, look, s);
      WholeChildren(mem, rank, look, s, |mem[s].body.children|);
      ShownSplit(mem, rank, s);
      hide *;
    }
  }

  lemma ShownSplit(mem: map<Ptr, Block>, rank: map<Ptr, nat>, s: Ptr)
    requires Ranked(mem, rank) && Shows(mem, s)
    ensures (forall t :: t in ShownIn(mem, rank, s) ==> ChildrenNested(mem, t)) <==>
      && (forall i :: 0 <= i < |mem[s].body.children| ==> Nested(mem, mem[s].body.children[i]))
      && forall t :: t in ShownBelow(mem, rank, s, |mem[s].body.children|) ==> ChildrenNested(mem, t)
  {
    hide Ranked, Nested, ShownBelow;
    assert ChildrenOf(mem, s) == mem[s].body.children;
    assert ChildrenNested(mem, s) <==>
      forall i :: 0 <= i < |mem[s].body.children| ==> Nested(mem, mem[s].body.children[i]);
    assert s in ShownIn(mem, rank, s);
  }

  /** A painted surface's tree is whole when those of all its subsurfaces are. */
  lemma WholeTree(mem: map<Ptr, Block>, rank: map<Ptr, nat>, look: Look, s: Ptr)
    requires Ranked(mem, rank) && Shows(mem, s)
    ensures HitTest.Whole(TreeOf(mem, rank, look, s)) <==> WholeUpTo(mem, rank, look, s, |mem[s].body.children|)
  {
    hide Children, Ranked, TreeBelow, HitTest.WholeBelow;
    var tree, n := TreeOf(mem, rank, look, s), |mem[s].body.children|;
    assert tree.popups == [];
    forall k | 0 <= k < n
      ensures tree.subsurfaces[k].surface == TreeBelow(mem, rank, look, SurfaceOf(mem, mem[s].body.children[k]))
    {
      ChildAt(mem, rank, look, s, k);
    }
  }

  /** Do the first k subsurfaces of s have whole trees? */
  predicate WholeUpTo(mem: map<Ptr, Block>, rank: map<Ptr, nat>, look: Look, s: Ptr, k: nat)
    requires Ranked(mem, rank) && s in mem && mem[s].body.Surface? && k <= |mem[s].body.children|
  {
    forall i :: 0 <= i < k ==> HitTest.WholeBelow(TreeBelow(mem, rank, look, SurfaceOf(mem, mem[s].body.children[i])))
  }

  lemma {:induction false} WholeChildren(mem: map<Ptr, Block>, rank: map<Ptr, nat>, look: Look, s: Ptr, k: nat)
    requires Ranked(mem, rank) && Shows(mem, s) && k <= |mem[s].body.children|
    ensures WholeUpTo(mem, rank, look, s, k) <==>
      && (forall i :: 0 <= i < k ==> Nested(mem, mem[s].body.children[i]))
      && forall t :: t in ShownBelow(mem, rank, s, k) ==> ChildrenNested(mem, t)
    decreases RankOf(rank, s), 0, k
  {
    var kids := mem[s].body.children;
    hide Ranked, TreeOf, ChildrenNested, Shows;
    if k > 0 {
      var t := SurfaceOf(mem, kids[k - 1]);
      ChildBelow(mem, rank, s, k - 1);
      WholeChildren(mem, rank, look, s, k - 1);
      if Nested(mem, kids[k - 1]) {
        HitTestWhole(mem, rank, look, t);
      }
    }
  }

  /** One painted surface with a subsurface that lost its own is enough. */
  lemma OrphanShown(mem: map<Ptr, Block>, rank: map<Ptr, nat>, look: Look, s: Ptr, ss: Ptr)
    requires Ranked(mem, rank) && Shows(mem, s) && ss in ChildrenOf(mem, s) && !Nested(mem, ss)
    ensures !HitTest.Whole(TreeOf(mem, rank, look, s))
  {
    hide Ranked, TreeOf, Shows;
    HitTestWhole(mem, rank, look, s);
    var k :| 0 <= k < |ChildrenOf(mem, s)| && ChildrenOf(mem, s)[k] == ss;
    assert !ChildrenNested(mem, s) && s in ShownIn(mem, rank, s);
  }
}
