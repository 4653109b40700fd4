/** Which surface of a window is under the pointer (`surface_hit_test` of `compositor/window.c`), and
    where its surfaces are painted (`collect_window_tree` of `compositor/scene.c`). Coordinates are
    real numbers. */
module HitTest {

  datatype Option<T> = None | Some(value: T)

  datatype Rect = Rect(x: real, y: real, width: real, height: real)

  /** A surface with its subsurfaces and popups. `size` is the logical size of its buffer, `geometry` the
      window geometry of its xdg_surface. An input region of negative width is unlimited. */
  datatype Surface = Surface(id: nat, buffered: bool, width: real, height: real, input: Rect, geometry: Option<Rect>,
                             subsurfaces: seq<Child>, popups: seq<Popup>)

  /** A subsurface or popup may have lost its surface. */
  datatype Child = Child(x: real, y: real, surface: Option<Surface>)

  /** `geo` is the popup's own window geometry. */
  datatype Popup = Popup(x: real, y: real, geo: Rect, surface: Option<Surface>)

  predicate Inside(px: real, py: real, x: real, y: real, w: real, h: real) {
    x <= px <= x + w && y <= py <= y + h
  }

  // ---------------------------------------------------------------- what could be hit, in paint order

  /** A surface placed at (x, y), with what is cut off at its left and top. */
  datatype Placed = Placed(surface: Surface, x: real, y: real, cutX: real, cutY: real)

  /** The margin on the left and top of a window whose geometry is centred in its buffer. */
  function CutX(window: bool, s: Surface): real {
    if window && s.geometry.Some? then (s.width - s.geometry.value.width) / 2.0 else 0.0
  }

  function CutY(window: bool, s: Surface): real {
    if window && s.geometry.Some? then (s.height - s.geometry.value.height) / 2.0 else 0.0
  }

  /** The tree in preorder: a surface before its subsurfaces, those before its popups. A surface without
      a buffer hides everything below it. */
  function Items(window: bool, s: Surface, x: real, y: real): seq<Placed>
    decreases s, 1
  {
    if !s.buffered then []
    else
      [Placed(s, x, y, CutX(window, s), CutY(window, s))]
      + SubItems(s, x - CutX(window, s), y - CutY(window, s), |s.subsurfaces|)
      + PopupItems(s, x, y, |s.popups|)
  }

  function SubItems(s: Surface, x: real, y: real, k: nat): seq<Placed>
    requires k <= |s.subsurfaces|
    decreases s, 0, k
  {
    if k == 0 then []
    else
      var c := s.subsurfaces[k - 1];
      SubItems(s, x, y, k - 1) + ItemsBelow(c.surface, x + c.x, y + c.y)
  }

  function PopupItems(s: Surface, x: real, y: real, k: nat): seq<Placed>
    requires k <= |s.popups|
    decreases s, 0, k
  {
    if k == 0 then []
    else
      var c := s.popups[k - 1];
      PopupItems(s, x, y, k - 1) + ItemsBelow(c.surface, x + c.x - c.geo.x, y + c.y - c.geo.y)
  }

  function ItemsBelow(s: Option<Surface>, x: real, y: real): seq<Placed>
    decreases s, 0
  {
    if s.None? then [] else Items(false, s.value, x, y)
  }

  /** Does the surface itself take the point: inside its rectangle and inside its input region? */
  predicate Accepts(p: Placed, px: real, py: real) {
    && Inside(px, py, p.x, p.y, p.surface.width, p.surface.height)
    && (p.surface.input.width >= 0.0 ==>
         Inside(LocalX(p, px), LocalY(p, py), p.surface.input.x, p.surface.input.y, p.surface.input.width,
           p.surface.input.height))
  }

  /** The point in the surface's own coordinates. */
  function LocalX(p: Placed, px: real): real { px - p.x + p.cutX }
  function LocalY(p: Placed, py: real): real { py - p.y + p.cutY }

  /** The topmost of the surfaces that take the point: the last one painted. */
  function Topmost(items: seq<Placed>, px: real, py: real): Option<Placed> {
    if items == [] then None
    else if Accepts(items[|items| - 1], px, py) then Some(items[|items| - 1])
    else Topmost(items[..|items| - 1], px, py)
  }

  lemma {:induction false} TopmostAppend(a: seq<Placed>, b: seq<Placed>, px: real, py: real)
    ensures Topmost(a + b, px, py) == if Topmost(b, px, py).Some? then Topmost(b, px, py) else Topmost(a, px, py)
  {
    if b == [] {
      assert a + b == a;
    } else {
      assert (a + b)[..|a + b| - 1] == a + b[..|b| - 1];
      TopmostAppend(a, b[..|b| - 1], px, py);
    }
  }

  lemma {:induction false} TopmostIsLast(items: seq<Placed>, px: real, py: real)
    ensures match Topmost(items, px, py)
      case None => forall i :: 0 <= i < |items| ==> !Accepts(items[i], px, py)
      case Some(p) =>
        exists i ::
          0 <= i < |items| && items[i] == p && Accepts(p, px, py) &&
          forall j :: i < j < |items| ==> !Accepts(items[j], px, py)
  {
    if items != [] && !Accepts(items[|items| - 1], px, py) {
      var rest := items[..|items| - 1];
      TopmostIsLast(rest, px, py);
      if Topmost(rest, px, py).Some? {
        var i :| 0 <= i < |rest| && rest[i] == Topmost(rest, px, py).value &&
          forall j :: i < j < |rest| ==> !Accepts(rest[j], px, py);
        assert items[i] == rest[i];
        assert forall j :: i < j < |items| ==> j == |items| - 1 || items[j] == rest[j];
      } else {
        assert forall i :: 0 <= i < |rest| ==> rest[i] == items[i];
      }
    }
  }

  // ---------------------------------------------------------------- surface_hit_test

  /** The result of a search and what it leaves in the out-parameters. */
  ghost predicate Found(items: seq<Placed>, px: real, py: real, hit: Option<Surface>, x0: real, y0: real, x: real,
                        y: real) {
    match Topmost(items, px, py)
    case None => hit == None && x == x0 && y == y0
    case Some(p) => hit == Some(p.surface) && x == LocalX(p, px) && y == LocalY(p, py)
  }

  /** surface_hit_test; (x0, y0) is what the out-parameters hold before the call. */
  method SurfaceHitTest(window: bool, s: Surface, scale: real, px: real, py: real, offsetX: real, offsetY: real,
                        x0: real, y0: real)
    returns (hit: Option<Surface>, x: real, y: real)
    requires window ==> scale != 0.0
    requires Whole(s)
    ensures if window then Found(Items(true, s, offsetX / scale, offsetY / scale), px / scale, py / scale, hit, x0, y0,
      x, y)
            else Found(Items(false, s, offsetX, offsetY), px, py, hit, x0, y0, x, y)
    decreases s, 1
  {
    hit, x, y := None, x0, y0;
    if !s.buffered { return; }
    var surfX, surfY := 0.0, 0.0;
    var qx, qy, ox, oy := px, py, offsetX, offsetY;
    if window {
      qx, qy, ox, oy := px / scale, py / scale, offsetX / scale, offsetY / scale;
    }
    if window && s.geometry.Some? {
      surfX := (s.width - s.geometry.value.width) / 2.0;
      surfY := (s.height - s.geometry.value.height) / 2.0;
    }
    ghost var self := Placed(s, ox, oy, surfX, surfY);
    ghost var subs, pops := SubItems(s, ox - surfX, oy - surfY, |s.subsurfaces|), PopupItems(s, ox, oy, |s.popups|);
    hit, x, y := HitSubsurfaces(s, scale, qx, qy, ox, oy, surfX, surfY, x, y);
    var h, hx, hy := HitPopups(s, scale, qx, qy, ox, oy, x, y);
    if h.Some? { hit := h; }
    x, y := hx, hy;
    TopmostAppend([self] + subs, pops, qx, qy);
    TopmostAppend([self], subs, qx, qy);
    if hit.Some? { return; }
    assert [self][..0] == [];
    if Inside(qx, qy, ox, oy, s.width, s.height) {
      var sx, sy := qx - ox + surfX, qy - oy + surfY;
      if s.input.width >= 0.0 && !Inside(sx, sy, s.input.x, s.input.y, s.input.width, s.input.height) { return; }
      x, y := sx, sy;
      hit := Some(s);
    }
  }

  /** Nothing that a hit test walks through is missing. */
  predicate Whole(s: Surface)
    decreases s, 1
  {
    s.buffered ==>
      && (forall k :: 0 <= k < |s.subsurfaces| ==> WholeBelow(s.subsurfaces[k].surface))
      && (forall k :: 0 <= k < |s.popups| ==> WholeBelow(s.popups[k].surface))
  }

  predicate WholeBelow(s: Option<Surface>)
    decreases s, 0
  {
    s.Some? && Whole(s.value)
  }

  /** Every subsurface and popup of s still has its surface. */
  predicate Complete(s: Surface) {
    && (forall k :: 0 <= k < |s.subsurfaces| ==> s.subsurfaces[k].surface.Some?)
    && (forall k :: 0 <= k < |s.popups| ==> s.popups[k].surface.Some?)
  }

  predicate AllComplete(items: seq<Placed>) { forall i :: 0 <= i < |items| ==> Complete(items[i].surface) }

  lemma AllCompleteAppend(a: seq<Placed>, b: seq<Placed>)
    ensures AllComplete(a + b) <==> AllComplete(a) && AllComplete(b)
  {
    forall i | 0 <= i < |b| && AllComplete(a + b) ensures Complete(b[i].surface) { assert (a + b)[|a| + i] == b[i]; }
    forall i | 0 <= i < |a| && AllComplete(a + b) ensures Complete(a[i].surface) { assert (a + b)[i] == a[i]; }
  }

  /** A hit test reads through a missing surface exactly when some surface that is painted has a
      subsurface or a popup that lost its own. Painting skips those. */
  lemma {:induction false} HitTestSafe(window: bool, s: Surface, x: real, y: real)
    ensures Whole(s) <==> AllComplete(Items(window, s, x, y))
    decreases s, 1
  {
    if s.buffered {
      var self := Placed(s, x, y, CutX(window, s), CutY(window, s));
      var subs := SubItems(s, x - CutX(window, s), y - CutY(window, s), |s.subsurfaces|);
      var pops := PopupItems(s, x, y, |s.popups|);
      AllCompleteAppend([self], subs);
      AllCompleteAppend([self] + subs, pops);
      SubsSafe(s, x - CutX(window, s), y - CutY(window, s), |s.subsurfaces|);
      PopupsSafe(s, x, y, |s.popups|);
      assert AllComplete([self]) <==> Complete(s) by { assert [self][0] == self; }
    }
  }

  lemma {:induction false} SubsSafe(s: Surface, x: real, y: real, k: nat)
    requires k <= |s.subsurfaces|
    ensures AllComplete(SubItems(s, x, y, k)) <==>
      forall i :: 0 <= i < k && s.subsurfaces[i].surface.Some? ==> WholeBelow(s.subsurfaces[i].surface)
    decreases s, 0, k
  {
    if k > 0 {
      var c := s.subsurfaces[k - 1];
      SubsSafe(s, x, y, k - 1);
      AllCompleteAppend(SubItems(s, x, y, k - 1), ItemsBelow(c.surface, x + c.x, y + c.y));
      if c.surface.Some? { HitTestSafe(false, c.surface.value, x + c.x, y + c.y); }
    }
  }

  lemma {:induction false} PopupsSafe(s: Surface, x: real, y: real, k: nat)
    requires k <= |s.popups|
    ensures AllComplete(PopupItems(s, x, y, k)) <==>
      forall i :: 0 <= i < k && s.popups[i].surface.Some? ==> WholeBelow(s.popups[i].surface)
    decreases s, 0, k
  {
    if k > 0 {
      var c := s.popups[k - 1];
      PopupsSafe(s, x, y, k - 1);
      AllCompleteAppend(PopupItems(s, x, y, k - 1), ItemsBelow(c.surface, x + c.x - c.geo.x, y + c.y - c.geo.y));
      if c.surface.Some? { HitTestSafe(false, c.surface.value, x + c.x - c.geo.x, y + c.y - c.geo.y); }
    }
  }

  /** The loop over the subsurfaces. */
  method HitSubsurfaces(s: Surface, scale: real, px: real, py: real, offsetX: real, offsetY: real, surfX: real,
                        surfY: real, x0: real, y0: real)
    returns (hit: Option<Surface>, x: real, y: real)
    requires forall k :: 0 <= k < |s.subsurfaces| ==> WholeBelow(s.subsurfaces[k].surface)
    ensures Found(SubItems(s, offsetX - surfX, offsetY - surfY, |s.subsurfaces|), px, py, hit, x0, y0, x, y)
    decreases s, 0
  {
    hit, x, y := None, x0, y0;
    var i := 0;
    while i < |s.subsurfaces|
      invariant 0 <= i <= |s.subsurfaces|
      invariant Found(SubItems(s, offsetX - surfX, offsetY - surfY, i), px, py, hit, x0, y0, x, y)
    {
      var ss := s.subsurfaces[i];
      assert WholeBelow(ss.surface);
      var h, hx, hy := SurfaceHitTest(false, ss.surface.value, scale, px, py, offsetX + ss.x - surfX,
        offsetY + ss.y - surfY, x, y);
      assert offsetX + ss.x - surfX == offsetX - surfX + ss.x && offsetY + ss.y - surfY == offsetY - surfY + ss.y;
      TopmostAppend(SubItems(s, offsetX - surfX, offsetY - surfY, i),
        ItemsBelow(ss.surface, offsetX + ss.x - surfX, offsetY + ss.y - surfY), px, py);
      x, y := hx, hy;
      if h.Some? { hit := h; }
      i := i + 1;
    }
  }

  /** The loop over the popups. */
  method HitPopups(s: Surface, scale: real, px: real, py: real, offsetX: real, offsetY: real, x0: real, y0: real)
    returns (hit: Option<Surface>, x: real, y: real)
    requires forall k :: 0 <= k < |s.popups| ==> WholeBelow(s.popups[k].surface)
    ensures Found(PopupItems(s, offsetX, offsetY, |s.popups|), px, py, hit, x0, y0, x, y)
    decreases s, 0
  {
    hit, x, y := None, x0, y0;
    var i := 0;
    while i < |s.popups|
      invariant 0 <= i <= |s.popups| && Found(PopupItems(s, offsetX, offsetY, i), px, py, hit, x0, y0, x, y)
    {
      var xs := s.popups[i];
      assert WholeBelow(xs.surface);
      var h, hx, hy := SurfaceHitTest(false, xs.surface.value, scale, px, py, offsetX + xs.x - xs.geo.x,
        offsetY + xs.y - xs.geo.y, x, y);
      TopmostAppend(PopupItems(s, offsetX, offsetY, i),
        ItemsBelow(xs.surface, offsetX + xs.x - xs.geo.x, offsetY + xs.y - xs.geo.y), px, py);
      x, y := hx, hy;
      if h.Some? { hit := h; }
      i := i + 1;
    }
  }

  /** c_window_surface_at: a point that no surface takes belongs to the window's own surface. */
  method WindowSurfaceAt(s: Surface, scale: real, x: real, y: real, windowX: real, windowY: real)
    returns (hit: Surface, lx: real, ly: real)
    requires scale != 0.0 && Whole(s)
    ensures match Topmost(Items(true, s, windowX / scale, windowY / scale), x / scale, y / scale)
      case None => hit == s && lx == (x - windowX) / scale && ly == (y - windowY) / scale
      case Some(p) => hit == p.surface && lx == LocalX(p, x / scale) && ly == LocalY(p, y / scale)
    ensures Symmetric(s) ==>
      HitOf(s, Quads(true, s, scale, windowX, windowY), scale, x, y, Into(x, windowX, scale), Into(y, windowY, scale),
        hit, lx, ly)
  {
    hide Items, Quads, HitOf, Symmetric, Topmost, LocalX, LocalY;
    var surf;
    surf, lx, ly := SurfaceHitTest(true, s, scale, x, y, windowX, windowY, 0.0, 0.0);
    hit := s;
    if surf.None? {
      lx, ly := (x - windowX) / scale, (y - windowY) / scale;
    } else {
      hit := surf.value;
    }
    if Symmetric(s) { FoundAsPainted(s, scale, x, y, windowX, windowY, hit, lx, ly); }
  }

  // ---------------------------------------------------------------- collect_window_tree

  datatype Quad = Quad(surface: Surface, x: real, y: real)

  /** Where a child at `at`, counted from `geo`, is painted when its parent is painted at `from`. */
  function ScaledAt(from: real, at: real, geo: real, scale: real): real { from + (at - geo) * scale }

  /** The quads of the tree below s, painted from (x, y). */
  function Quads(window: bool, s: Surface, scale: real, x: real, y: real): seq<Quad>
    decreases s, 1
  {
    if !s.buffered then []
    else
      var geoX := if window && s.geometry.Some? then s.geometry.value.x else 0.0;
      var geoY := if window && s.geometry.Some? then s.geometry.value.y else 0.0;
      [Quad(s, x, y)] + SubQuads(s, scale, x, y, geoX, geoY, |s.subsurfaces|) + PopupQuads(s, scale, x, y, |s.popups|)
  }

  function SubQuads(s: Surface, scale: real, x: real, y: real, geoX: real, geoY: real, k: nat): seq<Quad>
    requires k <= |s.subsurfaces|
    decreases s, 0, k
  {
    if k == 0 then []
    else
      var c := s.subsurfaces[k - 1];
      SubQuads(s, scale, x, y, geoX, geoY, k - 1) + QuadsBelow(c.surface, scale, ScaledAt(x, c.x, geoX, scale),
        ScaledAt(y, c.y, geoY, scale))
  }

  function PopupQuads(s: Surface, scale: real, x: real, y: real, k: nat): seq<Quad>
    requires k <= |s.popups|
    decreases s, 0, k
  {
    if k == 0 then []
    else
      var c := s.popups[k - 1];
      PopupQuads(s, scale, x, y, k - 1) + QuadsBelow(c.surface, scale, ScaledAt(x, c.x, c.geo.x, scale),
        ScaledAt(y, c.y, c.geo.y, scale))
  }

  function QuadsBelow(s: Option<Surface>, scale: real, x: real, y: real): seq<Quad>
    decreases s, 0
  {
    if s.None? then [] else Quads(false, s.value, scale, x, y)
  }

  /** Pushing the quads while walking the tree. */
  method CollectWindowTree(window: bool, surface: Option<Surface>, scale: real, x: real, y: real, quads: seq<Quad>)
    returns (r: seq<Quad>)
    ensures r == quads + if surface.None? then [] else Quads(window, surface.value, scale, x, y)
    decreases surface, 1
  {
    if surface.None? || !surface.value.buffered { return quads; }
    var s := surface.value;
    var geoX, geoY := 0.0, 0.0;
    if window && s.geometry.Some? {
      geoX, geoY := s.geometry.value.x, s.geometry.value.y;
    }
    hide SubQuads, PopupQuads;
    r := CollectSubsurfaces(s, scale, x, y, geoX, geoY, quads + [Quad(s, x, y)]);
    r := CollectPopups(s, scale, x, y, r);
    Associate(quads, [Quad(s, x, y)], SubQuads(s, scale, x, y, geoX, geoY, |s.subsurfaces|));
    Associate(quads, [Quad(s, x, y)] + SubQuads(s, scale, x, y, geoX, geoY, |s.subsurfaces|),
      PopupQuads(s, scale, x, y, |s.popups|));
  }

  method CollectSubsurfaces(s: Surface, scale: real, x: real, y: real, geoX: real, geoY: real, quads: seq<Quad>)
    returns (r: seq<Quad>)
    ensures r == quads + SubQuads(s, scale, x, y, geoX, geoY, |s.subsurfaces|)
    decreases s, 0
  {
    r := quads;
    var i := 0;
    while i < |s.subsurfaces|
      invariant 0 <= i <= |s.subsurfaces| && r == quads + SubQuads(s, scale, x, y, geoX, geoY, i)
    {
      var ss := s.subsurfaces[i];
      ghost var painted := SubQuads(s, scale, x, y, geoX, geoY, i);
      r := CollectWindowTree(false, ss.surface, scale, ScaledAt(x, ss.x, geoX, scale), ScaledAt(y, ss.y, geoY, scale),
        r);
      Associate(quads, painted,
        QuadsBelow(ss.surface, scale, ScaledAt(x, ss.x, geoX, scale), ScaledAt(y, ss.y, geoY, scale)));
      i := i + 1;
    }
  }

  method CollectPopups(s: Surface, scale: real, x: real, y: real, quads: seq<Quad>) returns (r: seq<Quad>)
    ensures r == quads + PopupQuads(s, scale, x, y, |s.popups|)
    decreases s, 0
  {
    r := quads;
    var i := 0;
    while i < |s.popups|
      invariant 0 <= i <= |s.popups| && r == quads + PopupQuads(s, scale, x, y, i)
    {
      var xs := s.popups[i];
      ghost var painted := PopupQuads(s, scale, x, y, i);
      r := CollectWindowTree(false, xs.surface, scale, ScaledAt(x, xs.x, xs.geo.x, scale),
        ScaledAt(y, xs.y, xs.geo.y, scale), r);
      Associate(quads, painted,
        QuadsBelow(xs.surface, scale, ScaledAt(x, xs.x, xs.geo.x, scale), ScaledAt(y, xs.y, xs.geo.y, scale)));
      i := i + 1;
    }
  }

  lemma Associate(a: seq<Quad>, b: seq<Quad>, c: seq<Quad>)
    ensures a + b + c == a + (b + c)
  {
  }

  // ---------------------------------------------------------------- hit testing against painting

  /** The same surfaces in the same order; every quad is painted (dx, dy) away from where a hit test
      expects it, in screen pixels. */
  predicate Shifted(items: seq<Placed>, quads: seq<Quad>, scale: real, dx: real, dy: real) {
    |items| == |quads| && forall k :: 0 <= k < |items| ==>
      items[k].surface == quads[k].surface && quads[k].x == items[k].x * scale + dx &&
        quads[k].y == items[k].y * scale + dy
  }

  /** How far from i, counted from geo, something painted from q is. */
  function Offset(q: real, geo: real, i: real, scale: real): real { q - geo * scale - i * scale }

  lemma ShiftedAppend(a: seq<Placed>, b: seq<Placed>, p: seq<Quad>, q: seq<Quad>, scale: real, dx: real, dy: real)
    requires Shifted(a, p, scale, dx, dy) && Shifted(b, q, scale, dx, dy)
    ensures Shifted(a + b, p + q, scale, dx, dy)
  {
  }

  lemma Distribute(a: real, b: real, s: real)
    ensures (a + b) * s == a * s + b * s && (a - b) * s == a * s - b * s
  {
  }

  lemma {:induction false} ItemsShift(s: Surface, scale: real, ix: real, iy: real, qx: real, qy: real)
    ensures Shifted(Items(false, s, ix, iy), Quads(false, s, scale, qx, qy), scale, Offset(qx, 0.0, ix, scale),
      Offset(qy, 0.0, iy, scale))
    decreases s, 1
  {
    hide Offset;
    if s.buffered {
      var dx, dy := Offset(qx, 0.0, ix, scale), Offset(qy, 0.0, iy, scale);
      SubsShift(s, scale, ix, iy, qx, qy, 0.0, 0.0, |s.subsurfaces|);
      PopupsShift(s, scale, ix, iy, qx, qy, |s.popups|);
      var self, quad := [Placed(s, ix, iy, 0.0, 0.0)], [Quad(s, qx, qy)];
      var subs, subQuads := SubItems(s, ix, iy, |s.subsurfaces|), SubQuads(s, scale, qx, qy, 0.0, 0.0, |s.subsurfaces|);
      SelfShift(self[0], quad[0], scale);
      ShiftedAppend(self, subs, quad, subQuads, scale, dx, dy);
      ShiftedAppend(self + subs, PopupItems(s, ix, iy, |s.popups|), quad + subQuads,
        PopupQuads(s, scale, qx, qy, |s.popups|), scale, dx, dy);
    }
  }

  lemma {:induction false} SubsShift(s: Surface, scale: real, ix: real, iy: real, qx: real, qy: real, geoX: real,
                                     geoY: real, k: nat)
    requires k <= |s.subsurfaces|
    ensures Shifted(SubItems(s, ix, iy, k), SubQuads(s, scale, qx, qy, geoX, geoY, k), scale,
              Offset(qx, geoX, ix, scale), Offset(qy, geoY, iy, scale))
    decreases s, 0, k
  {
    hide Shifted, ScaledAt, Items, Quads;
    if k > 0 {
      var c := s.subsurfaces[k - 1];
      SubsShift(s, scale, ix, iy, qx, qy, geoX, geoY, k - 1);
      var x, y := ScaledAt(qx, c.x, geoX, scale), ScaledAt(qy, c.y, geoY, scale);
      if c.surface.Some? { ItemsShift(c.surface.value, scale, ix + c.x, iy + c.y, x, y); }
        else { NothingShifted(scale, Offset(qx, geoX, ix, scale), Offset(qy, geoY, iy, scale)); }
      SameShift(qx, c.x, geoX, ix, scale);
      SameShift(qy, c.y, geoY, iy, scale);
      ShiftedAppend(SubItems(s, ix, iy, k - 1), ItemsBelow(c.surface, ix + c.x, iy + c.y),
        SubQuads(s, scale, qx, qy, geoX, geoY, k - 1), QuadsBelow(c.surface, scale, x, y), scale,
        Offset(qx, geoX, ix, scale), Offset(qy, geoY, iy, scale));
    } else {
      NothingShifted(scale, Offset(qx, geoX, ix, scale), Offset(qy, geoY, iy, scale));
    }
  }

  lemma NothingShifted(scale: real, dx: real, dy: real)
    ensures Shifted([], [], scale, dx, dy)
  {
  }

  lemma PopupShift(q: real, c: real, geo: real, i: real, scale: real)
    ensures Offset(ScaledAt(q, c, geo, scale), 0.0, i + c - geo, scale) == Offset(q, 0.0, i, scale)
  {
    Distribute(c, geo, scale);
    Distribute(i, c - geo, scale);
    assert i + c - geo == i + (c - geo);
  }

  lemma SameShift(q: real, c: real, geo: real, i: real, scale: real)
    ensures Offset(ScaledAt(q, c, geo, scale), 0.0, i + c, scale) == Offset(q, geo, i, scale)
  {
    Distribute(c, geo, scale);
    Distribute(i, c, scale);
  }

  lemma {:induction false} PopupsShift(s: Surface, scale: real, ix: real, iy: real, qx: real, qy: real, k: nat)
    requires k <= |s.popups|
    ensures Shifted(PopupItems(s, ix, iy, k), PopupQuads(s, scale, qx, qy, k), scale, Offset(qx, 0.0, ix, scale),
      Offset(qy, 0.0, iy, scale))
    decreases s, 0, k
  {
    if k > 0 {
      var c := s.popups[k - 1];
      PopupsShift(s, scale, ix, iy, qx, qy, k - 1);
      var x, y := ScaledAt(qx, c.x, c.geo.x, scale), ScaledAt(qy, c.y, c.geo.y, scale);
      if c.surface.Some? { ItemsShift(c.surface.value, scale, ix + c.x - c.geo.x, iy + c.y - c.geo.y, x, y); }
      PopupShift(qx, c.x, c.geo.x, ix, scale);
      PopupShift(qy, c.y, c.geo.y, iy, scale);
      ShiftedAppend(PopupItems(s, ix, iy, k - 1), ItemsBelow(c.surface, ix + c.x - c.geo.x, iy + c.y - c.geo.y),
        PopupQuads(s, scale, qx, qy, k - 1), QuadsBelow(c.surface, scale, x, y), scale, Offset(qx, 0.0, ix, scale),
          Offset(qy, 0.0, iy, scale));
    }
  }

  /** The margins that the window geometry leaves in the buffer are as wide left as right, and as high
      above as below. */
  predicate Symmetric(s: Surface) {
    s.geometry.Some? ==> CutX(true, s) == s.geometry.value.x && CutY(true, s) == s.geometry.value.y
  }

  predicate NoVisibleSubsurface(s: Surface) {
    forall k :: 0 <= k < |s.subsurfaces| ==> !Visible(s.subsurfaces[k].surface)
  }

  predicate Visible(s: Option<Surface>) { s.Some? && s.value.buffered }

  lemma {:induction false} VisibleSubsurface(s: Surface, x: real, y: real, n: nat)
    requires n <= |s.subsurfaces|
    ensures SubItems(s, x, y, n) == [] <==> forall k :: 0 <= k < n ==> !Visible(s.subsurfaces[k].surface)
  {
    if n > 0 {
      var c := s.subsurfaces[n - 1];
      VisibleSubsurface(s, x, y, n - 1);
      assert ItemsBelow(c.surface, x + c.x, y + c.y) == [] <==> !Visible(c.surface);
      assert SubItems(s, x, y, n) == SubItems(s, x, y, n - 1) + ItemsBelow(c.surface, x + c.x, y + c.y);
    }
  }

  /** A hit test looks for the surfaces of a window in the order they are painted; it looks for them where
      they are painted exactly when the margins are symmetric or no subsurface is visible. */
  lemma HitsWherePainted(s: Surface, scale: real, x: real, y: real)
    requires scale != 0.0
    ensures var items, quads := Items(true, s, x / scale, y / scale), Quads(true, s, scale, x, y);
      && |items| == |quads| && (forall k :: 0 <= k < |items| ==> items[k].surface == quads[k].surface)
      && (Shifted(items, quads, scale, 0.0, 0.0) <==> !s.buffered || Symmetric(s) || NoVisibleSubsurface(s))
  {
    if s.buffered {
      hide Shifted, Offset, SubItems, SubQuads, PopupItems, PopupQuads;
      var ox, oy := x / scale, y / scale;
      var geoX, geoY := if s.geometry.Some? then s.geometry.value.x else 0.0,
        if s.geometry.Some? then s.geometry.value.y else 0.0;
      var cutX, cutY := CutX(true, s), CutY(true, s);
      var dx, dy := Offset(x, geoX, ox - cutX, scale), Offset(y, geoY, oy - cutY, scale);
      RootDelta(x, scale, cutX, geoX);
      RootDelta(y, scale, cutY, geoY);
      var n := |s.subsurfaces|;
      var self, quad := [Placed(s, ox, oy, cutX, cutY)], [Quad(s, x, y)];
      var subs, subQuads := SubItems(s, ox - cutX, oy - cutY, n), SubQuads(s, scale, x, y, geoX, geoY, n);
      SelfShift(self[0], quad[0], scale);
      SubsShift(s, scale, ox - cutX, oy - cutY, x, y, geoX, geoY, n);
      PopupsShift(s, scale, ox, oy, x, y, |s.popups|);
      VisibleSubsurface(s, ox - cutX, oy - cutY, n);
      RootShift(self, subs, PopupItems(s, ox, oy, |s.popups|), quad, subQuads, PopupQuads(s, scale, x, y, |s.popups|),
        scale, dx, dy);
    } else {
      NothingShifted(scale, 0.0, 0.0);
    }
  }

  /** How far the subsurfaces of a window are off: the difference between half the margins and the margin
      on the left or top. */
  lemma RootDelta(x: real, scale: real, cut: real, geo: real)
    requires scale != 0.0
    ensures x / scale * scale == x
    ensures Offset(x, 0.0, x / scale, scale) == 0.0
    ensures Offset(x, geo, x / scale - cut, scale) == 0.0 <==> cut == geo
  {
    Distribute(x / scale, cut, scale);
    Distribute(cut, geo, scale);
    NonZero(cut - geo, scale);
  }

  lemma SelfShift(p: Placed, q: Quad, scale: real)
    requires p.surface == q.surface
    ensures Shifted([p], [q], scale, Offset(q.x, 0.0, p.x, scale), Offset(q.y, 0.0, p.y, scale))
  {
  }

  lemma NonZero(a: real, s: real)
    requires s != 0.0
    ensures a * s == 0.0 <==> a == 0.0
  {
  }

  lemma RootShift(self: seq<Placed>, subs: seq<Placed>, popups: seq<Placed>, quad: seq<Quad>, subQuads: seq<Quad>,
                  popupQuads: seq<Quad>,
                  scale: real, dx: real, dy: real)
    requires Shifted(self, quad, scale, 0.0, 0.0) && Shifted(popups, popupQuads, scale, 0.0, 0.0)
    requires Shifted(subs, subQuads, scale, dx, dy)
    ensures var items, quads := self + subs + popups, quad + subQuads + popupQuads;
      && |items| == |quads| && (forall k :: 0 <= k < |items| ==> items[k].surface == quads[k].surface)
      && (Shifted(items, quads, scale, 0.0, 0.0) <==> subs == [] || (dx == 0.0 && dy == 0.0))
  {
    var items, quads := self + subs + popups, quad + subQuads + popupQuads;
    if subs != [] {
      assert items[|self|] == subs[0] && quads[|self|] == subQuads[0];
    }
  }

  // ---------------------------------------------------------------- coordinates against painting

  predicate NoCuts(items: seq<Placed>) { forall k :: 0 <= k < |items| ==> items[k].cutX == 0.0 && items[k].cutY == 0.0 }

  /** Only a window's own surface is cut. */
  lemma {:induction false} NoCutsBelow(s: Surface, x: real, y: real)
    ensures NoCuts(Items(false, s, x, y))
    decreases s, 1
  {
    if s.buffered {
      NoCutsInSubs(s, x, y, |s.subsurfaces|);
      NoCutsInPopups(s, x, y, |s.popups|);
    }
  }

  lemma {:induction false} NoCutsInSubs(s: Surface, x: real, y: real, k: nat)
    requires k <= |s.subsurfaces|
    ensures NoCuts(SubItems(s, x, y, k))
    decreases s, 0, k
  {
    if k > 0 {
      var c := s.subsurfaces[k - 1];
      NoCutsInSubs(s, x, y, k - 1);
      if c.surface.Some? { NoCutsBelow(c.surface.value, x + c.x, y + c.y); }
    }
  }

  lemma {:induction false} NoCutsInPopups(s: Surface, x: real, y: real, k: nat)
    requires k <= |s.popups|
    ensures NoCuts(PopupItems(s, x, y, k))
    decreases s, 0, k
  {
    if k > 0 {
      var c := s.popups[k - 1];
      NoCutsInPopups(s, x, y, k - 1);
      if c.surface.Some? { NoCutsBelow(c.surface.value, x + c.x - c.geo.x, y + c.y - c.geo.y); }
    }
  }

  lemma CutsOfWindow(s: Surface, x: real, y: real, k: nat)
    requires k < |Items(true, s, x, y)|
    ensures var p := Items(true, s, x, y)[k];
      if k == 0 then p.surface == s && p.cutX == CutX(true, s) && p.cutY == CutY(true, s)
      else p.cutX == 0.0 && p.cutY == 0.0
  {
    var subs := SubItems(s, x - CutX(true, s), y - CutY(true, s), |s.subsurfaces|);
    NoCutsInSubs(s, x - CutX(true, s), y - CutY(true, s), |s.subsurfaces|);
    NoCutsInPopups(s, x, y, |s.popups|);
    var self := [Placed(s, x, y, CutX(true, s), CutY(true, s))];
    assert Items(true, s, x, y) == self + subs + PopupItems(s, x, y, |s.popups|);
  }

  /** What is not painted of the k-th surface of a window at its left and top: the window geometry cuts the
      window's own surface. */
  function MarginX(s: Surface, k: nat): real { if k == 0 && s.geometry.Some? then s.geometry.value.x else 0.0 }
  function MarginY(s: Surface, k: nat): real { if k == 0 && s.geometry.Some? then s.geometry.value.y else 0.0 }

  /** How far the pointer is inside a quad, in the units of its surface. */
  function Into(p: real, q: real, scale: real): real
    requires scale != 0.0
  {
    (p - q) / scale
  }

  /** Does the k-th painted surface take the pointer: is the pointer over its quad, and what lies there in
      its input region, if that is limited? */
  predicate Under(s: Surface, q: Quad, k: nat, scale: real, px: real, py: real)
    requires scale != 0.0
  {
    var dx, dy := Into(px, q.x, scale), Into(py, q.y, scale);
    && 0.0 <= dx <= q.surface.width && 0.0 <= dy <= q.surface.height
    && (q.surface.input.width >= 0.0 ==>
         && q.surface.input.x <= MarginX(s, k) + dx <= q.surface.input.x + q.surface.input.width
         && q.surface.input.y <= MarginY(s, k) + dy <= q.surface.input.y + q.surface.input.height)
  }

  lemma Divide(a: real, b: real, s: real)
    requires s != 0.0
    ensures (a - b * s) / s == a / s - b
    ensures a / s * s == a
  {
    assert a / s * s == a;
    assert (a / s - b) * s == a - b * s;
    assert (a / s - b) * s / s == a / s - b;
  }

  /** With symmetric margins a surface of a window takes a point exactly when it is painted under it, and
      the point's own coordinates are those of what is painted there. */
  lemma PointOfQuad(s: Surface, scale: real, px: real, py: real, x: real, y: real, k: nat)
    requires scale != 0.0 && Symmetric(s) && k < |Items(true, s, x / scale, y / scale)|
    ensures var p := Items(true, s, x / scale, y / scale)[k]; var quads := Quads(true, s, scale, x, y);
      && k < |quads| && quads[k].surface == p.surface
      && (Accepts(p, px / scale, py / scale) <==> Under(s, quads[k], k, scale, px, py))
      && quads[k].x + (LocalX(p, px / scale) - MarginX(s, k)) * scale == px
      && quads[k].y + (LocalY(p, py / scale) - MarginY(s, k)) * scale == py
      && LocalX(p, px / scale) == MarginX(s, k) + Into(px, quads[k].x, scale)
      && LocalY(p, py / scale) == MarginY(s, k) + Into(py, quads[k].y, scale)
  {
    hide *;
    PlacedAsPainted(s, scale, x, y, k);
    CutsOfWindow(s, x / scale, y / scale, k);
    var p, q := Items(true, s, x / scale, y / scale)[k], Quads(true, s, scale, x, y)[k];
    CutIsMargin(s, p, k);
    PointArithmetic(px, q.x, p.x, scale, MarginX(s, k));
    PointArithmetic(py, q.y, p.y, scale, MarginY(s, k));
    LocalPoint(p, px / scale, py / scale);
    IntoIs(px, q.x, scale);
    IntoIs(py, q.y, scale);
    SamePoint(s, p, q, k, scale, px, py);
  }

  lemma PlacedAsPainted(s: Surface, scale: real, x: real, y: real, k: nat)
    requires scale != 0.0 && Symmetric(s) && k < |Items(true, s, x / scale, y / scale)|
    ensures var p := Items(true, s, x / scale, y / scale)[k]; var quads := Quads(true, s, scale, x, y);
      k < |quads| && quads[k].surface == p.surface && quads[k].x == p.x * scale && quads[k].y == p.y * scale
  {
    HitsWherePainted(s, scale, x, y);
    hide Items, Quads, Symmetric;
  }

  lemma CutIsMargin(s: Surface, p: Placed, k: nat)
    requires Symmetric(s)
    requires if k == 0 then p.surface == s && p.cutX == CutX(true, s) && p.cutY == CutY(true, s)
      else p.cutX == 0.0 && p.cutY == 0.0
    ensures p.cutX == MarginX(s, k) && p.cutY == MarginY(s, k)
  {
  }

  lemma LocalPoint(p: Placed, ix: real, iy: real)
    ensures LocalX(p, ix) == ix - p.x + p.cutX && LocalY(p, iy) == iy - p.y + p.cutY
  {
  }

  lemma IntoIs(p: real, q: real, scale: real)
    requires scale != 0.0
    ensures Into(p, q, scale) == (p - q) / scale
  {
  }

  lemma PointArithmetic(p: real, q: real, i: real, scale: real, m: real)
    requires scale != 0.0 && q == i * scale
    ensures (p - q) / scale == p / scale - i
    ensures q + ((p / scale - i + m) - m) * scale == p
  {
    Divide(p, i, scale);
    Recover(p, i, scale);
  }

  lemma SamePoint(s: Surface, p: Placed, q: Quad, k: nat, scale: real, px: real, py: real)
    requires scale != 0.0 && p.surface == q.surface && p.cutX == MarginX(s, k) && p.cutY == MarginY(s, k)
    requires Into(px, q.x, scale) == px / scale - p.x && Into(py, q.y, scale) == py / scale - p.y
    ensures Accepts(p, px / scale, py / scale) <==> Under(s, q, k, scale, px, py)
  {
    hide Into, MarginX, MarginY;
  }

  lemma Recover(a: real, b: real, s: real)
    requires s != 0.0
    ensures b * s + (a / s - b) * s == a
  {
    Divide(a, b, s);
    Distribute(a / s, b, s);
  }

  /** The last of the painted surfaces that take the pointer. */
  predicate LastUnder(s: Surface, quads: seq<Quad>, k: nat, scale: real, px: real, py: real)
    requires scale != 0.0
  {
    && k < |quads| && Under(s, quads[k], k, scale, px, py)
    && forall j :: k < j < |quads| ==> !Under(s, quads[j], j, scale, px, py)
  }

  /** The last of these quads under the pointer, and the point of its surface there; (fx, fy) if there is
      none. */
  ghost predicate HitOf(s: Surface, quads: seq<Quad>, scale: real, px: real, py: real, fx: real, fy: real, hit: Surface,
                        lx: real, ly: real)
    requires scale != 0.0
  {
    || (exists k: nat :: LastUnder(s, quads, k, scale, px, py) && HitAt(s, quads[k], k, scale, px, py, hit, lx, ly))
    || ((forall k: nat :: k < |quads| ==> !Under(s, quads[k], k, scale, px, py)) && hit == s && lx == fx && ly == fy)
  }

  predicate HitAt(s: Surface, q: Quad, k: nat, scale: real, px: real, py: real, hit: Surface, lx: real, ly: real)
    requires scale != 0.0
  {
    hit == q.surface && lx == MarginX(s, k) + Into(px, q.x, scale) && ly == MarginY(s, k) + Into(py, q.y, scale)
  }

  /** So with symmetric margins c_window_surface_at finds what the user sees under the pointer: the last
      painted surface there, and the point of it that is painted there. */
  lemma FoundAsPainted(s: Surface, scale: real, px: real, py: real, x: real, y: real, hit: Surface, lx: real, ly: real)
    requires scale != 0.0 && Symmetric(s)
    requires match Topmost(Items(true, s, x / scale, y / scale), px / scale, py / scale)
      case None => hit == s && lx == (px - x) / scale && ly == (py - y) / scale
      case Some(p) => hit == p.surface && lx == LocalX(p, px / scale) && ly == LocalY(p, py / scale)
    ensures HitOf(s, Quads(true, s, scale, x, y), scale, px, py, Into(px, x, scale), Into(py, y, scale), hit, lx, ly)
  {
    var items, quads := Items(true, s, x / scale, y / scale), Quads(true, s, scale, x, y);
    assert Into(px, x, scale) == (px - x) / scale && Into(py, y, scale) == (py - y) / scale;
    hide *;
    HitsWherePainted(s, scale, x, y);
    forall k: nat | k < |items| ensures SameHit(s, items[k], quads[k], k, scale, px, py, px / scale, py / scale) {
      PointOfQuad(s, scale, px, py, x, y, k);
      MakesSameHit(s, items[k], quads[k], k, scale, px, py, px / scale, py / scale);
    }
    HitOfItems(s, items, quads, scale, px, py, px / scale, py / scale, Into(px, x, scale), Into(py, y, scale), hit, lx,
      ly);
  }

  /** Item and quad take the same points and give them the same coordinates. */
  predicate SameHit(s: Surface, p: Placed, q: Quad, k: nat, scale: real, px: real, py: real, ix: real, iy: real)
    requires scale != 0.0
  {
    && p.surface == q.surface && (Accepts(p, ix, iy) <==> Under(s, q, k, scale, px, py))
    && HitAt(s, q, k, scale, px, py, p.surface, LocalX(p, ix), LocalY(p, iy))
  }

  lemma MakesSameHit(s: Surface, p: Placed, q: Quad, k: nat, scale: real, px: real, py: real, ix: real, iy: real)
    requires scale != 0.0 && p.surface == q.surface && (Accepts(p, ix, iy) <==> Under(s, q, k, scale, px, py))
    requires LocalX(p, ix) == MarginX(s, k) + Into(px, q.x, scale)
    requires LocalY(p, iy) == MarginY(s, k) + Into(py, q.y, scale)
    ensures SameHit(s, p, q, k, scale, px, py, ix, iy)
  {
    hide Accepts, Under, LocalX, LocalY, MarginX, MarginY, Into;
  }

  lemma HitOfItems(s: Surface, items: seq<Placed>, quads: seq<Quad>, scale: real, px: real, py: real,
                   ix: real, iy: real, fx: real, fy: real, hit: Surface, lx: real, ly: real)
    requires scale != 0.0 && |items| == |quads|
    requires forall k: nat :: k < |items| ==> SameHit(s, items[k], quads[k], k, scale, px, py, ix, iy)
    requires match Topmost(items, ix, iy)
      case None => hit == s && lx == fx && ly == fy
      case Some(p) => hit == p.surface && lx == LocalX(p, ix) && ly == LocalY(p, iy)
    ensures HitOf(s, quads, scale, px, py, fx, fy, hit, lx, ly)
  {
    TopmostIsLast(items, ix, iy);
    hide Accepts, Under, LocalX, LocalY, HitAt, Topmost;
    match Topmost(items, ix, iy) {
      case None =>
        forall k: nat | k < |quads| ensures !Under(s, quads[k], k, scale, px, py) {
          assert SameHit(s, items[k], quads[k], k, scale, px, py, ix, iy);
        }
      case Some(p) =>
        var i: nat :| i < |items| && items[i] == p && Accepts(p, ix, iy) &&
          forall j :: i < j < |items| ==> !Accepts(items[j], ix, iy);
        assert SameHit(s, items[i], quads[i], i, scale, px, py, ix, iy);
        forall j: nat | i < j < |quads| ensures !Under(s, quads[j], j, scale, px, py) {
          assert SameHit(s, items[j], quads[j], j, scale, px, py, ix, iy);
        }
        assert LastUnder(s, quads, i, scale, px, py) && HitAt(s, quads[i], i, scale, px, py, hit, lx, ly);
    }
  }

  /** For the window's own surface the coordinates are those of what is painted exactly when the margins are
      symmetric. */
  lemma OwnCoordinates(s: Surface, scale: real, px: real, py: real, x: real, y: real)
    requires scale != 0.0 && s.buffered
    ensures var p, q := Items(true, s, x / scale, y / scale)[0], Quads(true, s, scale, x, y)[0];
      && p.surface == q.surface == s
      && (Symmetric(s) <==>
           && q.x + (LocalX(p, px / scale) - MarginX(s, 0)) * scale == px
           && q.y + (LocalY(p, py / scale) - MarginY(s, 0)) * scale == py)
  {
    var ox, oy := x / scale, y / scale;
    assert Items(true, s, ox, oy)[0] == Placed(s, ox, oy, CutX(true, s), CutY(true, s));
    assert Quads(true, s, scale, x, y)[0] == Quad(s, x, y);
    hide Items, Quads, CutX, CutY;
    OffBy(px, x, scale, CutX(true, s), MarginX(s, 0));
    OffBy(py, y, scale, CutY(true, s), MarginY(s, 0));
    LocalPoint(Placed(s, ox, oy, CutX(true, s), CutY(true, s)), px / scale, py / scale);
    assert s.geometry.None? ==> CutX(true, s) == 0.0 && CutY(true, s) == 0.0 by { NoCutsAlone(s); }
    hide LocalX, LocalY;
  }

  lemma NoCutsAlone(s: Surface)
    ensures s.geometry.None? ==> CutX(true, s) == 0.0 && CutY(true, s) == 0.0
  {
  }

  lemma OffBy(p: real, x: real, scale: real, cut: real, m: real)
    requires scale != 0.0
    ensures x + ((p / scale - x / scale + cut) - m) * scale == p <==> cut == m
  {
    Divide(p, x, scale);
    Divide(x, p, scale);
    Distribute(p / scale - x / scale, cut - m, scale);
    Distribute(p / scale, x / scale, scale);
    NonZero(cut - m, scale);
  }
}
