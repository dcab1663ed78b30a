/**
 * The bakery zone (src/game/areas.py): a rectangle of cells, both bounds inclusive, and its
 * pixel rectangle. Drawing is not modelled.
 */
module Areas {
  import opened Config
  import opened Grid

  /** The fields a `BakeryArea` computes once at construction; `caption` is its `label`. */
  datatype BakeryArea = BakeryArea(caption: string, x: int, y: int, w: int, h: int)

  /** The default label. */
  const DEFAULT_LABEL: string := "PANADER\U{CD}A"

  /** `BakeryArea(caption)`: origin at the first cell's corner; width and height span the inclusive cell range. */
  function NewBakeryArea(caption: string := DEFAULT_LABEL): (r: BakeryArea)
    ensures r.caption == caption && 0 < r.w && 0 < r.h
    ensures r.x % TILE == 0 && r.y % TILE == 0 && r.w % TILE == 0 && r.h % TILE == 0
  {
    BakeryArea(caption, BAKERY_X1 * TILE, BAKERY_Y1 * TILE,
               (BAKERY_X2 - BAKERY_X1 + 1) * TILE, (BAKERY_Y2 - BAKERY_Y1 + 1) * TILE)
  }

  /** `rect_cells()`: the configured bounds `[X1, Y1, X2, Y2]`; for a constructed area they span exactly its pixel rectangle. */
  function RectCells(a: BakeryArea): (r: seq<int>)
    ensures |r| == 4 && r[0] <= r[2] && r[1] <= r[3]
    ensures a == NewBakeryArea(a.caption) ==>
      r[0] * TILE == a.x && r[1] * TILE == a.y
      && (r[2] - r[0] + 1) * TILE == a.w && (r[3] - r[1] + 1) * TILE == a.h
  {
    [BAKERY_X1, BAKERY_Y1, BAKERY_X2, BAKERY_Y2]
  }

  /** With bounds 50..60 the rectangle starts at pixel 2400 and is 11 tiles, 528 pixels, on a side. */
  lemma BakeryGeometry(caption: string)
    ensures var a := NewBakeryArea(caption);
      a.caption == caption && a.x == 2400 && a.y == 2400 && a.w == 528 && a.h == 528 && a.w > 0 && a.h > 0
  {
  }

  /** Without an argument the caption is "PANADERÍA". */
  lemma DefaultLabel()
    ensures NewBakeryArea().caption == "PANADER\U{CD}A"
  {
  }

  /** A cell lies in the bakery's inclusive cell range. */
  predicate InBakery(cx: int, cy: int)
  {
    BAKERY_X1 <= cx <= BAKERY_X2 && BAKERY_Y1 <= cy <= BAKERY_Y2
  }

  /** The pixel rectangle covers exactly the cells of `rect_cells()`: a cell is in it iff its centre is. */
  lemma CellInBakeryIffCentreInRect(cx: int, cy: int)
    ensures var a := NewBakeryArea();
      var c := CellToCenterPx(cx, cy);
      InBakery(cx, cy) <==>
        (a.x as real <= c.0 < (a.x + a.w) as real && a.y as real <= c.1 < (a.y + a.h) as real)
  {
    var a := NewBakeryArea();
    var c := CellToCenterPx(cx, cy);
    assert a.x == BAKERY_X1 * TILE && a.x + a.w == (BAKERY_X2 + 1) * TILE;
    assert a.y == BAKERY_Y1 * TILE && a.y + a.h == (BAKERY_Y2 + 1) * TILE;
    if cx < BAKERY_X1 {
      assert (cx + 1) * TILE <= a.x;
    } else if cx > BAKERY_X2 {
      assert cx * TILE >= a.x + a.w;
    }
    if cy < BAKERY_Y1 {
      assert (cy + 1) * TILE <= a.y;
    } else if cy > BAKERY_Y2 {
      assert cy * TILE >= a.y + a.h;
    }
  }

  /** The bakery lies inside the world. */
  lemma BakeryInsideWorld()
    ensures var a := NewBakeryArea();
      0 <= a.x && a.x + a.w <= WORLD_W * TILE && 0 <= a.y && a.y + a.h <= WORLD_H * TILE
  {
  }
}
