/** The tiling of `cuts.c`: the work area and its two columns, the window cells, and the settings that
    key bindings change. Sizes are 32-bit unsigned and wrap; the master factor is a real number. */
module Tiling {

  const WRAP := 0x1_0000_0000

  type u32 = x: int | 0 <= x < WRAP

  function Add(a: int, b: int): u32 { (a + b) % WRAP }
  function Sub(a: int, b: int): u32 { (a - b) % WRAP }
  function Mul(a: int, b: int): u32 { (a * b) % WRAP }

  /** Where the exact result is in range, nothing wraps. */
  lemma NoWrap()
    ensures forall a, b :: 0 <= a + b < WRAP ==> Add(a, b) == a + b
    ensures forall a, b :: 0 <= a - b < WRAP ==> Sub(a, b) == a - b
    ensures forall a, b :: 0 <= a * b < WRAP ==> Mul(a, b) == a * b
  {
  }

  datatype BarPosition = BarTop | BarBottom | BarRight | BarLeft
  datatype Bar = Bar(pos: BarPosition, width: u32, height: u32)

  datatype Column = Column(x: u32, width: u32)
  datatype Layout = Layout(x: u32, y: u32, width: u32, height: u32, master: Column, stack: Column)

  /** What the key bindings adjust. */
  datatype Settings = Settings(mfact: real, nmaster: u32, border: u32, gap: u32)

  predicate InRange(c: Settings) {
    0.05 <= c.mfact <= 0.95 && 1 <= c.nmaster <= 10 && c.border <= 50 && c.gap <= 150
  }

  // ------------------------------------------------ change_mfact, change_nmaster, change_border, change_gap

  function Clamp(v: int, lo: int, hi: int): int { if v < lo then lo else if v > hi then hi else v }

  class Tiler {
    var settings: Settings

    constructor ()
      ensures settings == Settings(0.5, 1, 1, 5) && InRange(settings)
    {
      settings := Settings(0.5, 1, 1, 5);
    }

    method ChangeMfact(d: real)
      requires InRange(settings)
      modifies this
      ensures InRange(settings) && settings == old(settings).(mfact := settings.mfact)
      ensures settings.mfact ==
        if old(settings).mfact + d < 0.05 then 0.05 else if old(settings).mfact + d > 0.95 then 0.95
          else old(settings).mfact + d
    {
      var m := settings.mfact + d;
      if m > 0.95 { m := 0.95; }
      if m < 0.05 { m := 0.05; }
      settings := settings.(mfact := m);
    }

    /** The sum is unsigned, so a step below zero ends at the upper limit. */
    method ChangeNmaster(i: int)
      requires InRange(settings) && -0x8000_0000 <= i < 0x8000_0000
      modifies this
      ensures InRange(settings) && settings == old(settings).(nmaster := settings.nmaster)
      ensures var v := old(settings).nmaster + i;
        settings.nmaster == if v < 0 || v > 10 then 10 else if v < 1 then 1 else v
    {
      settings := settings.(nmaster := Clamp(Add(settings.nmaster, i), 1, 10));
    }

    method ChangeBorder(i: int)
      requires InRange(settings) && -0x8000_0000 <= i < 0x8000_0000
      modifies this
      ensures InRange(settings) && settings == old(settings).(border := settings.border)
      ensures var v := old(settings).border + i;
        settings.border == if v < 0 || v > 50 then 50 else if v < 0 then 0 else v
    {
      settings := settings.(border := Clamp(Add(settings.border, i), 0, 50));
    }

    method ChangeGap(i: int)
      requires InRange(settings) && -0x8000_0000 <= i < 0x8000_0000
      modifies this
      ensures InRange(settings) && settings == old(settings).(gap := settings.gap)
      ensures var v := old(settings).gap + i;
        settings.gap == if v < 0 || v > 150 then 150 else if v < 0 then 0 else v
    {
      settings := settings.(gap := Clamp(Add(settings.gap, i), 0, 150));
    }
  }

  // ---------------------------------------------------------------- calc_tile_layout

  /** A mode has room for the bar and the outer gaps. */
  predicate RoomForBar(width: u32, height: u32, bar: Bar, gap: u32) {
    && 2 * gap + (if bar.pos.BarLeft? || bar.pos.BarRight? then bar.width else 0) <= width
    && 2 * gap + (if bar.pos.BarTop? || bar.pos.BarBottom? then bar.height else 0) <= height
  }

  /** The work area leaves the columns their inner gap, whatever the master factor. */
  predicate RoomForColumns(width: int, gap: u32) { width >= 20 * ((gap + 1) / 2) }

  /** The area inside the gaps, beside the bar. */
  predicate WorkArea(l: Layout, width: u32, height: u32, bar: Bar, gap: u32) {
    && l.x == gap + (if bar.pos.BarLeft? then bar.width else 0)
    && l.y == gap + (if bar.pos.BarTop? then bar.height else 0)
    && l.width == width - 2 * gap - (if bar.pos.BarLeft? || bar.pos.BarRight? then bar.width else 0)
    && l.height == height - 2 * gap - (if bar.pos.BarTop? || bar.pos.BarBottom? then bar.height else 0)
  }

  /** The columns fill the width: master, gap, stack. */
  predicate Columns(l: Layout, gap: u32) {
    && l.master.x == l.x && l.stack.x == l.master.x + l.master.width + gap
    && l.stack.x + l.stack.width == l.x + l.width
  }

  /** layout->width * mfact - gap / 2, truncated to an unsigned number. */
  function MasterWidth(width: u32, mfact: real, gap: u32): int {
    (width as real * mfact - (gap / 2) as real).Floor
  }

  lemma MasterFits(width: u32, mfact: real, gap: u32)
    requires 0.05 <= mfact <= 0.95 && RoomForColumns(width, gap)
    ensures 0 <= MasterWidth(width, mfact, gap) <= width - gap
  {
    var half, rest := gap / 2, (gap + 1) / 2;
    Between(width as real, mfact, half as real, rest as real);
    assert gap == half + rest;
  }

  /** The factor says where the columns part: the middle of the gap lies within one unit of that share of
      the width. */
  lemma MasterShare(width: u32, mfact: real, gap: u32)
    ensures var middle := (MasterWidth(width, mfact, gap) + gap / 2) as real;
      middle <= width as real * mfact < middle + 1.0
  {
  }

  lemma Between(w: real, mfact: real, half: real, rest: real)
    requires 0.05 <= mfact <= 0.95 && w >= 0.0 && half <= rest && 20.0 * rest <= w
    ensures half <= w * mfact <= w - rest
  {
    Scale(0.05, mfact, w);
    Scale(mfact, 0.95, w);
  }

  lemma Scale(a: real, b: real, w: real)
    requires a <= b && w >= 0.0
    ensures w * a <= w * b
  {
  }

  /**
   * calc_tile_layout. Converting a negative number to unsigned has no defined result, so the columns need
   * their room.
   */
  method CalcTileLayout(width: u32, height: u32, bar: Bar, c: Settings) returns (l: Layout)
    requires InRange(c) && RoomForBar(width, height, bar, c.gap)
    requires RoomForColumns(width - 2 * c.gap - (if bar.pos.BarLeft? || bar.pos.BarRight? then bar.width else 0), c.gap)
    ensures WorkArea(l, width, height, bar, c.gap) && Columns(l, c.gap)
    ensures l.master.width == MasterWidth(l.width, c.mfact, c.gap)
  {
    hide Add, Sub, Mul, MasterWidth;
    NoWrap();
    var w, h := Sub(width, Mul(c.gap, 2)), Sub(height, Mul(c.gap, 2));
    var x, y := c.gap, c.gap;
    if bar.pos == BarTop {
      h := Sub(h, bar.height);
      y := Add(y, bar.height);
    }
    if bar.pos == BarBottom {
      h := Sub(h, bar.height);
    }
    if bar.pos == BarRight {
      w := Sub(w, bar.width);
    }
    if bar.pos == BarLeft {
      w := Sub(w, bar.width);
      x := Add(x, bar.width);
    }
    MasterFits(w, c.mfact, c.gap);
    var master := Column(x, MasterWidth(w, c.mfact, c.gap));
    var stack := Column(Add(Add(master.x, master.width), c.gap), Sub(Sub(w, master.width), c.gap));
    l := Layout(x, y, w, h, master, stack);
  }

  // ---------------------------------------------------------------- cells

  /** How n windows are divided over the columns. */
  function StackCount(n: nat, nmaster: u32): nat { if n >= nmaster then n - nmaster else 0 }
  function MasterCount(n: nat, nmaster: u32): nat { n - StackCount(n, nmaster) }

  /** The height of each of m windows in a column. */
  function CellHeight(height: u32, gap: u32, m: nat): u32
    requires m > 0
  {
    Sub(height, Mul(gap, Sub(m, 1))) / m
  }

  datatype Rect = Rect(x: int, y: int, width: int, height: int)

  /** The cell of the k-th of n tiled windows, borders included. */
  function Cell(l: Layout, n: nat, k: nat, c: Settings): Rect
    requires k < n && c.nmaster >= 1
  {
    var m, s := MasterCount(n, c.nmaster), StackCount(n, c.nmaster);
    if k < c.nmaster then
      var h := CellHeight(l.height, c.gap, m);
      Rect(l.master.x, l.y + h * k + c.gap * k, if s > 0 then l.master.width else l.width, h)
    else
      var h := CellHeight(l.height, c.gap, s);
      Rect(l.stack.x, l.y + h * (k - m) + c.gap * (k - m), l.stack.width, h)
  }

  /** The window inside its cell. */
  function Inner(r: Rect, border: u32): Rect {
    Rect(r.x + border, r.y + border, Sub(r.width, Mul(border, 2)), Sub(r.height, Mul(border, 2)))
  }

  /** The column of m windows is high enough for its gaps and borders. */
  predicate HighEnough(l: Layout, c: Settings, m: nat) { m > 0 ==> l.height >= c.gap * (m - 1) + 2 * c.border * m }

  /** The used columns are as wide as the borders. */
  predicate WideEnough(l: Layout, n: nat, c: Settings) {
    if StackCount(n, c.nmaster) > 0 then l.master.width >= 2 * c.border &&
      l.stack.width >= 2 * c.border else l.width >= 2 * c.border
  }

  predicate Roomy(l: Layout, n: nat, c: Settings) {
    && InRange(c) && n < WRAP && Columns(l, c.gap) && WideEnough(l, n, c)
    && HighEnough(l, c, MasterCount(n, c.nmaster)) && HighEnough(l, c, StackCount(n, c.nmaster))
  }

  lemma Product(a: nat, b: nat)
    ensures a * b >= 0
  {
  }

  /** Heights and gaps of a column of m windows: they fit, and fewer than m rows stay unused. */
  lemma ColumnHeight(height: u32, gap: u32, border: u32, m: nat)
    requires 0 < m < WRAP && height >= gap * (m - 1) + 2 * border * m
    ensures var h := CellHeight(height, gap, m);
      && 2 * border <= h && h * m + gap * (m - 1) <= height < h * m + gap * (m - 1) + m
  {
    Product(gap, m - 1);
    Product(2 * border, m);
    NoWrap();
    assert Sub(m, 1) == m - 1;
    assert Mul(gap, m - 1) == gap * (m - 1);
    assert Sub(height, gap * (m - 1)) == height - gap * (m - 1);
    var free := height - gap * (m - 1);
    var h := free / m;
    assert h == CellHeight(height, gap, m);
    assert free == h * m + free % m;
    AtLeast(2 * border, h, m, free);
  }

  lemma AtLeast(b: nat, h: int, m: nat, free: int)
    requires m > 0 && free >= b * m && h == free / m
    ensures h >= b
  {
    assert free < (h + 1) * m;
    if h < b {
      MulMono(h + 1, b, m);
      assert false;
    }
  }

  lemma MulMono(a: int, b: int, m: nat)
    requires a <= b
    ensures a * m <= b * m
  {
  }

  /** Rows i < j of a column are apart by the gap, and row j ends where the column does at the latest. */
  lemma Rows(h: nat, gap: nat, i: nat, j: nat, m: nat)
    requires i < j < m
    ensures h * i + gap * i + h + gap <= h * j + gap * j
    ensures j == i + 1 ==> h * i + gap * i + h + gap == h * j + gap * j
  {
    var p := h + gap;
    assert p * i == h * i + gap * i && p * j == h * j + gap * j;
    MulMono(i + 1, j, p);
    assert p * (i + 1) == p * i + p;
    assert (i + 1) * p == p * (i + 1) && j * p == p * j;
  }

  lemma LastRow(h: nat, gap: nat, j: nat, m: nat)
    requires j < m
    ensures h * j + gap * j + h <= h * m + gap * (m - 1)
  {
    var p := h + gap;
    MulMono(j, m - 1, p);
    assert p * j == h * j + gap * j && p * (m - 1) == h * (m - 1) + gap * (m - 1);
    assert j * p == p * j && (m - 1) * p == p * (m - 1);
    assert h * (m - 1) + h == h * m;
  }

  predicate SideBySide(a: Rect, b: Rect, gap: u32) { a.x + a.width + gap <= b.x }
  predicate Stacked(a: Rect, b: Rect, gap: u32) { a.y + a.height + gap <= b.y }

  /** Any two cells keep the gap between them. */
  lemma CellsApart(l: Layout, n: nat, i: nat, j: nat, c: Settings)
    requires i < j < n && Roomy(l, n, c)
    ensures var a, b := Cell(l, n, i, c), Cell(l, n, j, c);
      if i < c.nmaster <= j then SideBySide(a, b, c.gap) else Stacked(a, b, c.gap)
  {
    hide CellHeight;
    var m, s := MasterCount(n, c.nmaster), StackCount(n, c.nmaster);
    if j < c.nmaster {
      Rows(CellHeight(l.height, c.gap, m), c.gap, i, j, m);
    } else if i >= c.nmaster {
      Rows(CellHeight(l.height, c.gap, s), c.gap, i - m, j - m, s);
    }
  }

  /** A cell spans its column, or the whole work area while there is one column. */
  lemma CellColumn(l: Layout, n: nat, k: nat, c: Settings)
    requires k < n && c.nmaster >= 1
    ensures var r := Cell(l, n, k, c);
      if n <= c.nmaster then Columns(l, c.gap) ==> r.x == l.x && r.width == l.width
      else if k < c.nmaster then r.x == l.master.x && r.width == l.master.width
      else r.x == l.stack.x && r.width == l.stack.width
  {
    hide CellHeight;
  }

  /** How many windows the column of the k-th of n has, and where that one stands among them. */
  function ColumnRows(n: nat, k: nat, nmaster: u32): nat {
    if n <= nmaster then n else if k < nmaster then nmaster else n - nmaster
  }
  function RowOf(n: nat, k: nat, nmaster: u32): int { if k < nmaster then k else k - nmaster }

  lemma CellRow(l: Layout, n: nat, k: nat, c: Settings)
    requires k < n && c.nmaster >= 1
    ensures var rows, row := ColumnRows(n, k, c.nmaster), RowOf(n, k, c.nmaster);
      && 0 <= row < rows && rows == (if k < c.nmaster then MasterCount(n, c.nmaster) else StackCount(n, c.nmaster))
      && var h := CellHeight(l.height, c.gap, rows);
      Cell(l, n, k, c).height == h && Cell(l, n, k, c).y == l.y + h * row + c.gap * row
  {
    hide CellHeight;
  }

  /** The first cell of a column starts at the top, and all are of one height: the most that fits. */
  lemma CellsHigh(l: Layout, n: nat, k: nat, c: Settings)
    requires k < n && Roomy(l, n, c)
    ensures var a, rows := Cell(l, n, k, c), ColumnRows(n, k, c.nmaster);
      && (RowOf(n, k, c.nmaster) == 0 ==> a.y == l.y)
      && a.height * rows + c.gap * (rows - 1) <= l.height < (a.height + 1) * rows + c.gap * (rows - 1)
  {
    CellRow(l, n, k, c);
    RowsHigh(l, n, k, c);
    hide Cell, CellHeight, Roomy;
    OneMore(Cell(l, n, k, c).height, ColumnRows(n, k, c.nmaster));
  }

  lemma OneMore(h: int, m: nat)
    ensures (h + 1) * m == h * m + m
  {
  }

  /** Every other cell of a column is one gap below the one before it, and as high. */
  lemma CellsStacked(l: Layout, n: nat, k: nat, c: Settings)
    requires k + 1 < n && Roomy(l, n, c) && k + 1 != c.nmaster
    ensures var a, b := Cell(l, n, k, c), Cell(l, n, k + 1, c); b.y == a.y + a.height + c.gap && b.height == a.height
  {
    CellRow(l, n, k, c);
    CellRow(l, n, k + 1, c);
    hide Cell, CellHeight, Roomy;
    var rows, row := ColumnRows(n, k, c.nmaster), RowOf(n, k, c.nmaster);
    Rows(CellHeight(l.height, c.gap, rows), c.gap, row, row + 1, rows);
  }

  lemma RowsHigh(l: Layout, n: nat, k: nat, c: Settings)
    requires k < n && Roomy(l, n, c)
    ensures var rows := if k < c.nmaster then MasterCount(n, c.nmaster) else StackCount(n, c.nmaster);
      var h := CellHeight(l.height, c.gap, rows);
      h * rows + c.gap * (rows - 1) <= l.height < h * rows + c.gap * (rows - 1) + rows
  {
    hide CellHeight;
    ColumnHeight(l.height, c.gap, c.border,
      if k < c.nmaster then MasterCount(n, c.nmaster) else StackCount(n, c.nmaster));
  }

  /** Every cell lies inside the work area. */
  lemma CellInside(l: Layout, n: nat, k: nat, c: Settings)
    requires k < n && Roomy(l, n, c)
    ensures var r := Cell(l, n, k, c);
      && l.x <= r.x && r.x + r.width <= l.x + l.width && l.y <= r.y && r.y + r.height <= l.y + l.height
      && 2 * c.border <= r.width && 2 * c.border <= r.height
  {
    hide CellHeight;
    var m, s := MasterCount(n, c.nmaster), StackCount(n, c.nmaster);
    var rows, row := if k < c.nmaster then m else s, if k < c.nmaster then k else k - m;
    ColumnHeight(l.height, c.gap, c.border, rows);
    LastRow(CellHeight(l.height, c.gap, rows), c.gap, row, rows);
    Product(CellHeight(l.height, c.gap, rows), row);
    Product(c.gap, row);
  }

  /** The bordered window of a cell is the cell, so nothing wraps when the borders are taken off. */
  lemma InnerPlain(l: Layout, n: nat, k: nat, c: Settings)
    requires k < n && Roomy(l, n, c)
    ensures var r, w := Cell(l, n, k, c), Inner(Cell(l, n, k, c), c.border);
      && w.width == r.width - 2 * c.border && w.height == r.height - 2 * c.border
      && Rect(w.x - c.border, w.y - c.border, w.width + 2 * c.border, w.height + 2 * c.border) == r
  {
    hide Cell;
    CellInside(l, n, k, c);
    NoWrap();
  }

  /** The last window of each column leaves fewer rows unused than there are windows in it. */
  lemma FewRowsUnused(l: Layout, n: nat, k: nat, c: Settings)
    requires k < n && Roomy(l, n, c)
    requires k == n - 1 || k == MasterCount(n, c.nmaster) - 1
    ensures var r := Cell(l, n, k, c); var rows := if k < c.nmaster then MasterCount(n, c.nmaster)
      else StackCount(n, c.nmaster);
      l.y + l.height - (r.y + r.height) < rows
  {
    hide CellHeight, HighEnough;
    var m, s := MasterCount(n, c.nmaster), StackCount(n, c.nmaster);
    if k < c.nmaster { ColumnEnd(l, c, m); } else { ColumnEnd(l, c, s); }
  }

  lemma ColumnEnd(l: Layout, c: Settings, m: nat)
    requires HighEnough(l, c, m) && 0 < m < WRAP
    ensures var h := CellHeight(l.height, c.gap, m); l.height - (h * (m - 1) + c.gap * (m - 1) + h) < m
  {
    ColumnHeight(l.height, c.gap, c.border, m);
    Refold(CellHeight(l.height, c.gap, m), c.gap, m);
  }

  lemma Refold(h: nat, gap: nat, m: nat)
    requires m > 0
    ensures h * (m - 1) + gap * (m - 1) + h == h * m + gap * (m - 1)
  {
    assert h * (m - 1) + h == h * m;
  }

  // ---------------------------------------------------------------- tile

  class Window {
    var x: int
    var y: int
    var width: int
    var height: int

    function Geometry(): Rect
      reads this
    {
      Rect(x, y, width, height)
    }
  }

  /** A client of the current list: on the current tag or not, a window or another node, and its state. */
  datatype Client = Client(window: Window, tagged: bool, isWindow: bool, floating: bool, fullscreen: bool)

  predicate IsTiled(k: Client) { k.tagged && k.isWindow && !k.floating && !k.fullscreen }

  function Tiled(clients: seq<Client>): nat {
    if clients == [] then 0 else Tiled(clients[..|clients| - 1]) + (if IsTiled(clients[|clients| - 1]) then 1 else 0)
  }

  /** What is counted: the clients of the tag that are windows and neither float nor are full screen. */
  lemma {:induction false} TiledCounts(clients: seq<Client>)
    ensures Tiled(clients) == |set i | 0 <= i < |clients| && clients[i].tagged && clients[i].isWindow &&
      !clients[i].floating && !clients[i].fullscreen|
  {
    if clients != [] {
      var n := |clients| - 1;
      TiledCounts(clients[..n]);
      var before := set i | 0 <= i < n && clients[..n][i].tagged && clients[..n][i].isWindow &&
        !clients[..n][i].floating && !clients[..n][i].fullscreen;
      var all := set i | 0 <= i < |clients| && clients[i].tagged && clients[i].isWindow &&
        !clients[i].floating && !clients[i].fullscreen;
      assert all == before + if IsTiled(clients[n]) then {n} else {};
    }
  }

  lemma {:induction false} TiledPrefix(clients: seq<Client>, i: nat)
    requires i <= |clients|
    ensures Tiled(clients[..i]) <= Tiled(clients)
    ensures i < |clients| ==> Tiled(clients[..i + 1]) == Tiled(clients[..i]) + (if IsTiled(clients[i]) then 1 else 0)
    decreases |clients|
  {
    if i == |clients| {
      assert clients[..i] == clients;
    } else {
      assert clients[..i + 1][..i] == clients[..i];
      var n := |clients| - 1;
      if i < n {
        TiledPrefix(clients[..n], i);
        assert clients[..n][..i] == clients[..i];
      }
    }
  }

  method CountTiled(clients: seq<Client>) returns (n: nat)
    ensures n == Tiled(clients)
  {
    n := 0;
    var i := 0;
    while i < |clients|
      invariant 0 <= i <= |clients| && n == Tiled(clients[..i])
    {
      TiledPrefix(clients, i);
      if clients[i].tagged && clients[i].isWindow && !clients[i].floating && !clients[i].fullscreen { n := n + 1; }
      i := i + 1;
    }
    assert clients[..i] == clients;
  }

  predicate OwnWindows(clients: seq<Client>) {
    forall i, j :: 0 <= i < j < |clients| ==> clients[i].window != clients[j].window
  }

  ghost function Windows(clients: seq<Client>): set<Window> { set k | k in clients :: k.window }

  lemma Others(clients: seq<Client>, k: nat)
    requires OwnWindows(clients) && k < |clients|
    ensures forall j :: 0 <= j < |clients| && j != k ==> clients[j].window != clients[k].window
  {
  }

  lemma NoneTiled(clients: seq<Client>)
    ensures Tiled(clients[..0]) == 0
  {
    assert clients[..0] == [];
  }

  /** The i-th tiled window gets its cell, less the borders. */
  method PlaceWindow(w: Window, l: Layout, c: Settings, ghost n: nat, i: nat, stack: nat, master: nat,
                     masterHeight: u32, stackHeight: u32)
    requires InRange(c) && i < n && stack == StackCount(n, c.nmaster) && master == MasterCount(n, c.nmaster)
    requires masterHeight == CellHeight(l.height, c.gap, master)
    requires stack > 0 ==> stackHeight == CellHeight(l.height, c.gap, stack)
    modifies w
    ensures w.Geometry() == Inner(Cell(l, n, i, c), c.border)
  {
    hide Sub, Mul, CellHeight;
    if i < c.nmaster {
      w.x := l.master.x;
      w.width := if stack > 0 then l.master.width else l.width;
      w.height := masterHeight;
      w.y := l.y + masterHeight * i + c.gap * i;
    } else {
      w.x := l.stack.x;
      w.width := l.stack.width;
      w.height := stackHeight;
      w.y := l.y + stackHeight * (i - master) + c.gap * (i - master);
    }
    w.x := w.x + c.border;
    w.y := w.y + c.border;
    w.width := Sub(w.width, Mul(c.border, 2));
    w.height := Sub(w.height, Mul(c.border, 2));
  }

  /** The tiled windows fill the cells in list order; every other window keeps its geometry. */
  method Tile(clients: seq<Client>, l: Layout, c: Settings)
    requires OwnWindows(clients) && InRange(c) && Tiled(clients) < WRAP
    modifies Windows(clients)
    ensures forall i :: 0 <= i < |clients| && IsTiled(clients[i]) ==>
      Tiled(clients[..i]) < Tiled(clients)
      && clients[i].window.Geometry() == Inner(Cell(l, Tiled(clients), Tiled(clients[..i]), c), c.border)
    ensures forall i :: 0 <= i < |clients| && !IsTiled(clients[i]) ==>
      clients[i].window.Geometry() == old(clients[i].window.Geometry())
  {
    hide Sub, Mul, Inner, Cell, CellHeight, Tiled, OwnWindows;
    if |clients| == 0 { return; }
    var n := CountTiled(clients);
    var stack, master, masterHeight, stackHeight := 0, 0, 0, 0;
    if n != 0 {
      stack := if n >= c.nmaster then n - c.nmaster else 0;
      master := n - stack;
      masterHeight := CellHeight(l.height, c.gap, master);
      stackHeight := if stack != 0 then CellHeight(l.height, c.gap, stack) else 0;
    }
    var i, k := 0, 0;
    NoneTiled(clients);
    while k < |clients|
      invariant 0 <= k <= |clients| && i == Tiled(clients[..k])
      invariant forall j :: 0 <= j < k && IsTiled(clients[j]) ==>
        Tiled(clients[..j]) < n && clients[j].window.Geometry() == Inner(Cell(l, n, Tiled(clients[..j]), c), c.border)
      invariant forall j :: 0 <= j < |clients| && (j >= k || !IsTiled(clients[j])) ==>
        clients[j].window.Geometry() == old(clients[j].window.Geometry())
    {
      TiledPrefix(clients, k);
      TiledPrefix(clients, k + 1);
      assert clients[k] in clients;
      Others(clients, k);
      var client := clients[k];
      if client.tagged && client.isWindow && !client.fullscreen && !client.floating {
        PlaceWindow(client.window, l, c, n, i, stack, master, masterHeight, stackHeight);
        i := i + 1;
      }
      k := k + 1;
    }
  }
}
