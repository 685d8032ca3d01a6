/**
  Print layout (`PrintService`): the N-up grid of copies on a page, the
  fit-to-cell scale, and the scaled geometry of every element. WPF's visual
  tree is replaced by plain values carrying the numbers that would be fed to
  it; brushes and colours are not modelled.
*/
module Print {
  import opened Wrappers
  import opened Elements
  import opened Designs

  /** Subtracted from each cell's share of the page; also the space between cells. */
  const Gutter: real := 20.0

  /** The offset of the first cell from the page's left and top edges. */
  const Inset: real := 10.0

  // ---- grid shape ----

  function CeilSqrtFrom(n: nat, c: nat): (r: nat)
    requires 1 <= c && (c - 1) * (c - 1) < n
    ensures c <= r && n <= r * r && (r - 1) * (r - 1) < n
    decreases n - c * c
  {
    if n <= c * c then c else CeilSqrtFrom(n, c + 1)
  }

  /** `(int)Math.Ceiling(Math.Sqrt(n))`. */
  function Columns(n: nat): (c: nat)
    requires n >= 1
    ensures 1 <= c && n <= c * c && (c - 1) * (c - 1) < n
  {
    CeilSqrtFrom(n, 1)
  }

  /** `(int)Math.Ceiling((double)n / columns)`. */
  function Rows(n: nat, columns: nat): (r: nat)
    requires n >= 1 && columns >= 1
    ensures 1 <= r && n <= r * columns && (r - 1) * columns < n
  {
    var q := (n + columns - 1) / columns;
    assert n + columns - 1 == q * columns + (n + columns - 1) % columns;
    q
  }

  lemma MulMonotonic(a: nat, b: nat, k: nat)
    requires a <= b
    ensures a * k <= b * k
  {
  }

  lemma SquareMonotonic(a: nat, b: nat)
    requires a <= b
    ensures a * a <= b * b
  {
    assert a * a <= a * b <= b * b;
  }

  /** No smaller column count has room for all `n` copies in a square. */
  lemma ColumnsLeast(n: nat, d: nat)
    requires n >= 1 && n <= d * d
    ensures Columns(n) <= d
  {
    var c := Columns(n);
    if d < c {
      SquareMonotonic(d, c - 1);
    }
  }

  /** No smaller row count holds all `n` copies at `columns` per row. */
  lemma RowsLeast(n: nat, columns: nat, d: nat)
    requires n >= 1 && columns >= 1 && n <= d * columns
    ensures Rows(n, columns) <= d
  {
    var r := Rows(n, columns);
    if d < r {
      MulMonotonic(d, r - 1, columns);
    }
  }

  /** The grid is never taller than it is wide. */
  lemma RowsAtMostColumns(n: nat)
    requires n >= 1
    ensures Rows(n, Columns(n)) <= Columns(n)
  {
    RowsLeast(n, Columns(n), Columns(n));
  }

  /** The grid shape and the size of one cell. */
  datatype Grid = Grid(columns: nat, rows: nat, cellWidth: real, cellHeight: real)

  /**
    Lines 69-73 of `CreatePrintDocument`. The code does not check that the
    cell has positive size; WPF's own check on `Canvas.Width` is not modelled.
  */
  function GridFor(n: nat, pageWidth: real, pageHeight: real): (g: Grid)
    requires n >= 1
    ensures g.columns >= 1 && g.rows >= 1
  {
    var columns := Columns(n);
    var rows := Rows(n, columns);
    Grid(columns, rows, pageWidth / columns as real - Gutter, pageHeight / rows as real - Gutter)
  }

  lemma FourCopies(pageWidth: real, pageHeight: real)
    ensures GridFor(4, pageWidth, pageHeight).columns == 2 && GridFor(4, pageWidth, pageHeight).rows == 2
  {
    ColumnsLeast(4, 2);
  }

  lemma FiveCopies(pageWidth: real, pageHeight: real)
    ensures GridFor(5, pageWidth, pageHeight).columns == 3 && GridFor(5, pageWidth, pageHeight).rows == 2
    ensures GridFor(5, pageWidth, pageHeight).columns * GridFor(5, pageWidth, pageHeight).rows == 6
  {
    ColumnsLeast(5, 3);
    RowsLeast(5, 3, 2);
  }

  /**
    Many copies on a small page give cells of negative size. The layout code
    computes them as usual; WPF would then reject the negative `Width`.
  */
  lemma CellSizeUnchecked()
    ensures GridFor(100, 50.0, 50.0).cellWidth < 0.0 && GridFor(100, 50.0, 50.0).cellHeight < 0.0
  {
    ColumnsLeast(100, 10);
    assert Columns(100) == 10;
    RowsLeast(100, 10, 10);
    assert Rows(100, 10) == 10;
  }

  // ---- cells ----

  /** Row-major position of copy `i`: lines 77-78. */
  function Row(g: Grid, i: nat): (r: nat)
    requires g.columns >= 1
    ensures r * g.columns <= i < (r + 1) * g.columns
  {
    i / g.columns
  }

  function Col(g: Grid, i: nat): (c: nat)
    requires g.columns >= 1
    ensures c < g.columns && Row(g, i) * g.columns + c == i
  {
    i % g.columns
  }

  /** Where slot `index` starts along one axis when each slot is `size` long. */
  function SlotStart(index: nat, size: real): real {
    index as real * (size + Gutter) + Inset
  }

  /** Slot 0 starts at the inset, and each next slot one slot and one gutter further on. */
  lemma SlotPitch(index: nat, size: real)
    ensures SlotStart(0, size) == Inset
    ensures SlotStart(index + 1, size) == SlotStart(index, size) + size + Gutter
  {
  }

  /** The left edge of copy `i`'s cell: line 80. */
  function CellLeft(g: Grid, i: nat): real
    requires g.columns >= 1
  {
    SlotStart(Col(g, i), g.cellWidth)
  }

  /** The top edge of copy `i`'s cell: line 81. */
  function CellTop(g: Grid, i: nat): real
    requires g.columns >= 1
  {
    SlotStart(Row(g, i), g.cellHeight)
  }

  /** Integer division by `c` of a number below `r * c` is below `r`. */
  lemma DivBelow(i: nat, c: nat, r: nat)
    requires c >= 1 && i < r * c
    ensures i / c < r
  {
    var q := i / c;
    assert i == q * c + i % c;
    if q >= r {
      MulMonotonic(r, q, c);
    }
  }

  /** Every copy lands inside the grid. */
  lemma CellInGrid(n: nat, pageWidth: real, pageHeight: real, i: nat)
    requires n >= 1 && i < n
    ensures var g := GridFor(n, pageWidth, pageHeight);
      Row(g, i) < g.rows && Col(g, i) < g.columns
  {
    var g := GridFor(n, pageWidth, pageHeight);
    assert n <= g.rows * g.columns;
    DivBelow(i, g.columns, g.rows);
  }

  /** Different copies get different cells. */
  lemma CellsDistinct(g: Grid, i: nat, j: nat)
    requires g.columns >= 1 && i != j
    ensures Row(g, i) != Row(g, j) || Col(g, i) != Col(g, j)
  {
    var c := g.columns;
    assert i == (i / c) * c + i % c;
    assert j == (j / c) * c + j % c;
  }

  lemma MulLeq(a: real, b: real, k: real)
    requires a <= b && 0.0 <= k
    ensures a * k <= b * k
  {
  }

  /** Along one axis: a slot at `index < count` of the page's `count`-th share ends `Inset` inside the page. */
  lemma SlotInside(page: real, count: nat, index: nat)
    requires 0.0 <= page && index < count
    ensures var size := page / count as real - Gutter;
      Inset <= SlotStart(index, size) && SlotStart(index, size) + size <= page - Inset
  {
    var share := page / count as real;
    assert count as real * share == page;
    MulLeq(0.0, index as real, share);
    MulLeq(index as real + 1.0, count as real, share);
  }

  /** Each cell ends at least `Inset` inside the page on both axes. */
  lemma CellInsidePage(n: nat, pageWidth: real, pageHeight: real, i: nat)
    requires n >= 1 && i < n && 0.0 <= pageWidth && 0.0 <= pageHeight
    ensures var g := GridFor(n, pageWidth, pageHeight);
      && Inset <= CellLeft(g, i) && CellLeft(g, i) + g.cellWidth <= pageWidth - Inset
      && Inset <= CellTop(g, i) && CellTop(g, i) + g.cellHeight <= pageHeight - Inset
  {
    var g := GridFor(n, pageWidth, pageHeight);
    CellInGrid(n, pageWidth, pageHeight, i);
    SlotInside(pageWidth, g.columns, Col(g, i));
    SlotInside(pageHeight, g.rows, Row(g, i));
  }

  /** Along one axis: two different slots with a pitch that is not negative are a gutter apart. */
  lemma SlotsApart(a: nat, b: nat, size: real)
    requires a != b && 0.0 <= size + Gutter
    ensures || SlotStart(a, size) + size + Gutter <= SlotStart(b, size)
            || SlotStart(b, size) + size + Gutter <= SlotStart(a, size)
  {
    var pitch := size + Gutter;
    assert SlotStart(a, size) == a as real * pitch + Inset;
    assert SlotStart(b, size) == b as real * pitch + Inset;
    if a < b {
      MulLeq(a as real + 1.0, b as real, pitch);
      assert (a as real + 1.0) * pitch == a as real * pitch + pitch;
      assert (a as real + 1.0) * pitch <= b as real * pitch;
      assert a as real * pitch + pitch <= b as real * pitch;
      assert SlotStart(a, size) + size + Gutter <= SlotStart(b, size);
    } else {
      MulLeq(b as real + 1.0, a as real, pitch);
      assert (b as real + 1.0) * pitch == b as real * pitch + pitch;
    }
  }

  /** In any grid whose pitch is not negative, two copies' cells are a gutter apart on one axis. */
  lemma CellsApart(g: Grid, i: nat, j: nat)
    requires g.columns >= 1 && i != j && 0.0 <= g.cellWidth + Gutter && 0.0 <= g.cellHeight + Gutter
    ensures || CellLeft(g, i) + g.cellWidth + Gutter <= CellLeft(g, j)
            || CellLeft(g, j) + g.cellWidth + Gutter <= CellLeft(g, i)
            || CellTop(g, i) + g.cellHeight + Gutter <= CellTop(g, j)
            || CellTop(g, j) + g.cellHeight + Gutter <= CellTop(g, i)
  {
    CellsDistinct(g, i, j);
    if Col(g, i) != Col(g, j) {
      SlotsApart(Col(g, i), Col(g, j), g.cellWidth);
    } else {
      SlotsApart(Row(g, i), Row(g, j), g.cellHeight);
    }
  }

  /** The cells of two different copies on a page are separated by at least a gutter on one axis. */
  lemma CellsDisjoint(n: nat, pageWidth: real, pageHeight: real, i: nat, j: nat)
    requires n >= 1 && i != j && 0.0 <= pageWidth && 0.0 <= pageHeight
    ensures var g := GridFor(n, pageWidth, pageHeight);
      || CellLeft(g, i) + g.cellWidth + Gutter <= CellLeft(g, j)
      || CellLeft(g, j) + g.cellWidth + Gutter <= CellLeft(g, i)
      || CellTop(g, i) + g.cellHeight + Gutter <= CellTop(g, j)
      || CellTop(g, j) + g.cellHeight + Gutter <= CellTop(g, i)
  {
    var g := GridFor(n, pageWidth, pageHeight);
    assert g.cellWidth + Gutter == pageWidth / g.columns as real;
    assert g.cellHeight + Gutter == pageHeight / g.rows as real;
    CellsApart(g, i, j);
  }

  // ---- scale ----

  /** `Math.Min(targetWidth / CanvasWidth, targetHeight / CanvasHeight)`: lines 102-104. */
  function FitScale(targetWidth: real, targetHeight: real, d: Design): (s: real)
    requires d.canvasWidth != 0.0 && d.canvasHeight != 0.0
    ensures s <= targetWidth / d.canvasWidth && s <= targetHeight / d.canvasHeight
    ensures s == targetWidth / d.canvasWidth || s == targetHeight / d.canvasHeight
  {
    var sx := targetWidth / d.canvasWidth;
    var sy := targetHeight / d.canvasHeight;
    if sx <= sy then sx else sy
  }

  /** With a positive canvas, the scaled canvas fits the target and touches it on one axis. */
  lemma FitScaleFits(targetWidth: real, targetHeight: real, d: Design)
    requires 0.0 < d.canvasWidth && 0.0 < d.canvasHeight
    ensures var s := FitScale(targetWidth, targetHeight, d);
      && d.canvasWidth * s <= targetWidth && d.canvasHeight * s <= targetHeight
      && (d.canvasWidth * s == targetWidth || d.canvasHeight * s == targetHeight)
  {
    var s := FitScale(targetWidth, targetHeight, d);
    var sx, sy := targetWidth / d.canvasWidth, targetHeight / d.canvasHeight;
    assert d.canvasWidth * sx == targetWidth;
    assert d.canvasHeight * sy == targetHeight;
    MulLeq(s, sx, d.canvasWidth);
    MulLeq(s, sy, d.canvasHeight);
  }

  /** The 400 by 300 default canvas in a 150 by 150 cell is drawn at 0.375. */
  lemma DefaultCanvasInSquareCell()
    ensures FitScale(150.0, 150.0, NewDesign()) == 0.375
  {
  }

  // ---- rendering ----

  /** The WPF shape or text block an element becomes, with its scaled numbers. */
  datatype Visual =
    | TextBlock(text: string, fontFamily: string, fontSize: real, fontWeight: FontWeight,
                fontStyle: FontStyle, textAlignment: TextAlignment, width: real, height: real)
    | RectangleShape(width: real, height: real, strokeThickness: real)
    | EllipseShape(width: real, height: real, strokeThickness: real)
    | LineShape(x1: real, y1: real, x2: real, y2: real, strokeThickness: real)

  /** A `RotateTransform`: an angle in degrees about a pivot in the visual's own coordinates. */
  datatype Rotation = Rotation(angle: real, centerX: real, centerY: real)

  /** A visual on a stamp canvas: its position and optional rotation. */
  datatype Placed = Placed(visual: Visual, left: real, top: real, transform: Option<Rotation>)

  /** The canvas of one copy, with its children in the order they were added. */
  datatype StampCanvas = StampCanvas(width: real, height: real, children: seq<Placed>)

  /** A stamp canvas placed on the page. */
  datatype Stamp = Stamp(left: real, top: real, canvas: StampCanvas)

  datatype Page = Page(width: real, height: real, stamps: seq<Stamp>)

  /** The extent of a visual: its width and height, or for a line the span from its start to its end. */
  function Extent(v: Visual): (real, real) {
    match v
    case TextBlock(_, _, _, _, _, _, w, h) => (w, h)
    case RectangleShape(w, h, _) => (w, h)
    case EllipseShape(w, h, _) => (w, h)
    case LineShape(x1, y1, x2, y2, _) => (x2 - x1, y2 - y1)
  }

  /** `CreateShape`: lines 149-189. */
  function CreateShape(e: Element, scale: real): (v: Visual)
    requires e.ShapeElement?
    ensures !v.TextBlock?
    ensures Extent(v) == (e.width * scale, e.height * scale)
    ensures v.strokeThickness == e.strokeThickness * scale
    ensures v.LineShape? ==> v.x1 == 0.0 && v.y1 == 0.0
    ensures (e.shapeType == Rectangle <==> v.RectangleShape?) && (e.shapeType == Circle <==> v.EllipseShape?)
  {
    match e.shapeType
    case Rectangle => RectangleShape(e.width * scale, e.height * scale, e.strokeThickness * scale)
    case Circle => EllipseShape(e.width * scale, e.height * scale, e.strokeThickness * scale)
    case Line => LineShape(0.0, 0.0, e.width * scale, e.height * scale, e.strokeThickness * scale)
  }

  /** The body of the `foreach` in `RenderStampToCanvas`: lines 108-142. */
  function RenderElement(e: Element, scale: real): (p: Placed)
    ensures Extent(p.visual) == (e.width * scale, e.height * scale)
    ensures p.left == e.x * scale && p.top == e.y * scale
    ensures p.visual.TextBlock? <==> e.TextElement?
    ensures e.TextElement? ==> p.visual.fontSize == e.fontSize * scale && p.visual.text == e.text
    ensures e.ShapeElement? ==> p.visual.strokeThickness == e.strokeThickness * scale
    ensures p.transform.Some? <==> e.rotation != 0.0
    ensures p.transform.Some? ==>
      p.transform.value == Rotation(e.rotation, e.width * scale / 2.0, e.height * scale / 2.0)
  {
    var visual :=
      if e.TextElement? then
        TextBlock(e.text, e.fontFamily, e.fontSize * scale, e.fontWeight, e.fontStyle,
                  e.textAlignment, e.width * scale, e.height * scale)
      else CreateShape(e, scale);
    var transform :=
      if e.rotation != 0.0 then Some(Rotation(e.rotation, e.width * scale / 2.0, e.height * scale / 2.0))
      else None;
    Placed(visual, e.x * scale, e.y * scale, transform)
  }

  /** The children of a stamp canvas: one per element, in list order. */
  function RenderAll(es: seq<Element>, scale: real): (ps: seq<Placed>)
    ensures |ps| == |es|
    ensures forall k :: 0 <= k < |es| ==> ps[k] == RenderElement(es[k], scale)
  {
    if es == [] then [] else [RenderElement(es[0], scale)] + RenderAll(es[1..], scale)
  }

  /** Rendering a concatenation renders each part in turn: the output follows list order. */
  lemma {:induction false} RenderAllAppend(a: seq<Element>, b: seq<Element>, scale: real)
    ensures RenderAll(a + b, scale) == RenderAll(a, scale) + RenderAll(b, scale)
  {
    if a != [] {
      assert (a + b)[1..] == a[1..] + b;
      RenderAllAppend(a[1..], b, scale);
    }
  }

  /** `e` with the fields drawing never reads reset: ZIndex, id and the selection flag. */
  function Unkeyed(e: Element): Element {
    e.(zIndex := 0, id := "", isSelected := false)
  }

  /** Drawing an element is the same as drawing it with ZIndex, id and selection reset. */
  lemma RenderUnkeyed(e: Element, scale: real)
    ensures RenderElement(Unkeyed(e), scale) == RenderElement(e, scale)
  {
    var u := Unkeyed(e);
    assert u.x == e.x && u.y == e.y && u.width == e.width && u.height == e.height && u.rotation == e.rotation;
    match e
    case TextElement(_, _, _, _, _, _, _, _, _, _, _, _, _, _) =>
      assert u == TextElement("", e.x, e.y, e.width, e.height, e.rotation, false, 0,
                              e.text, e.fontFamily, e.fontSize, e.fontWeight, e.fontStyle, e.textAlignment);
    case ShapeElement(_, _, _, _, _, _, _, _, _, _) =>
      assert u == ShapeElement("", e.x, e.y, e.width, e.height, e.rotation, false, 0, e.shapeType, e.strokeThickness);
      assert CreateShape(u, scale) == CreateShape(e, scale);
  }

  /** Drawing ignores `ZIndex`, the id and the selection flag: elements that differ only there draw the same. */
  lemma RenderIgnoresZIndex(a: seq<Element>, b: seq<Element>, scale: real)
    requires |a| == |b|
    requires forall k :: 0 <= k < |a| ==> Unkeyed(a[k]) == Unkeyed(b[k])
    ensures RenderAll(a, scale) == RenderAll(b, scale)
  {
    forall k | 0 <= k < |a|
      ensures RenderElement(a[k], scale) == RenderElement(b[k], scale)
    {
      RenderUnkeyed(a[k], scale);
      RenderUnkeyed(b[k], scale);
    }
  }

  /** Every element is scaled by one factor, so its proportions are kept. */
  lemma RenderKeepsAspect(e: Element, scale: real)
    ensures var (w, h) := Extent(RenderElement(e, scale).visual);
      w * e.height == h * e.width
  {
  }

  /** `RenderStampToCanvas`: one canvas of the target size holding every element, scaled to fit. */
  method RenderStampToCanvas(d: Design, targetWidth: real, targetHeight: real) returns (c: StampCanvas)
    requires d.canvasWidth != 0.0 && d.canvasHeight != 0.0
    ensures c.width == targetWidth && c.height == targetHeight
    ensures c.children == RenderAll(d.elements, FitScale(targetWidth, targetHeight, d))
  {
    var scaleX := targetWidth / d.canvasWidth;
    var scaleY := targetHeight / d.canvasHeight;
    var scale := if scaleX <= scaleY then scaleX else scaleY;
    var children: seq<Placed> := [];
    for k := 0 to |d.elements|
      invariant |children| == k
      invariant forall j :: 0 <= j < k ==> children[j] == RenderElement(d.elements[j], scale)
    {
      children := children + [RenderElement(d.elements[k], scale)];
    }
    c := StampCanvas(targetWidth, targetHeight, children);
  }

  /** The copy drawn in cell `i`. */
  function StampAt(d: Design, g: Grid, i: nat): (s: Stamp)
    requires d.canvasWidth != 0.0 && d.canvasHeight != 0.0 && g.columns >= 1
    ensures s.left == CellLeft(g, i) && s.top == CellTop(g, i)
    ensures s.canvas.width == g.cellWidth && s.canvas.height == g.cellHeight
    ensures |s.canvas.children| == |d.elements|
    ensures forall k :: 0 <= k < |d.elements| ==>
      s.canvas.children[k] == RenderElement(d.elements[k], FitScale(g.cellWidth, g.cellHeight, d))
  {
    Stamp(CellLeft(g, i), CellTop(g, i),
          StampCanvas(g.cellWidth, g.cellHeight, RenderAll(d.elements, FitScale(g.cellWidth, g.cellHeight, d))))
  }

  /**
    `CreatePrintDocument`: `n` copies, in copy order, one per cell. With
    `n < 1` the loop does not run and the page is empty.
  */
  method CreatePrintDocument(d: Design, n: int, pageWidth: real, pageHeight: real) returns (page: Page)
    requires n >= 1 ==> d.canvasWidth != 0.0 && d.canvasHeight != 0.0
    ensures page.width == pageWidth && page.height == pageHeight
    ensures n < 1 ==> page.stamps == []
    ensures n >= 1 ==> |page.stamps| == n
    ensures n >= 1 ==> forall i :: 0 <= i < n ==> page.stamps[i] == StampAt(d, GridFor(n, pageWidth, pageHeight), i)
  {
    var stamps: seq<Stamp> := [];
    if n >= 1 {
      var g := GridFor(n, pageWidth, pageHeight);
      for i := 0 to n
        invariant |stamps| == i
        invariant forall j :: 0 <= j < i ==> stamps[j] == StampAt(d, g, j)
      {
        var canvas := RenderStampToCanvas(d, g.cellWidth, g.cellHeight);
        stamps := stamps + [Stamp(CellLeft(g, i), CellTop(g, i), canvas)];
      }
    }
    page := Page(pageWidth, pageHeight, stamps);
  }

  /** Where element `k` of copy `i` lands on the page: the cell's origin plus its scaled position. */
  lemma PlacementOnPage(d: Design, n: nat, pageWidth: real, pageHeight: real, i: nat, k: nat)
    requires d.canvasWidth != 0.0 && d.canvasHeight != 0.0 && n >= 1 && i < n && k < |d.elements|
    ensures var g := GridFor(n, pageWidth, pageHeight);
      var stamp := StampAt(d, g, i);
      var s := FitScale(g.cellWidth, g.cellHeight, d);
      && stamp.left + stamp.canvas.children[k].left == CellLeft(g, i) + d.elements[k].x * s
      && stamp.top + stamp.canvas.children[k].top == CellTop(g, i) + d.elements[k].y * s
  {
  }
}
