/**
 * One atlas page (`Image` in src/atlas_v2.rs): a square occupancy grid of
 * 32-pixel units, the sub-images placed on it, and the render bookkeeping.
 * The value types shared with the atlas worker (ids, cache keys, sampler
 * descriptions, coordinates, pixel data) are declared here too.
 *
 * The grid search, the stamping of a footprint and the bounding-size scan
 * are modelled as the code is written; the scan and the bounding-size
 * tracker are parametrised by a `Rule` so that the as-written test and the
 * evidently intended one share one definition and one set of lemmas.
 */
module AtlasPage {
  import opened Wrappers

  const UNIT_SIZE: nat := 32
  const UNIT_PADDING: nat := 1
  /** Pixels taken by one grid unit, padding on both sides included: 34. */
  const CELL_PIXELS: nat := UNIT_SIZE + UNIT_PADDING * 2

  type u8 = x: nat | x < 0x100
  type u16 = x: nat | x < 0x1_0000
  type u32 = x: nat | x < 0x1_0000_0000

  /** 64-bit ids in the source; unbounded here. */
  datatype SubImageID = SubImageID(n: nat)
  datatype AtlasImageID = AtlasImageID(n: nat)

  /** Logical identity of a load; `NoCacheId` (the source's `None`) is never deduplicated. */
  datatype SubImageCacheID = Path(path: string) | Url(url: string) | Glyph(glyph: u32, variant: nat) | NoCacheId

  datatype Filter = Nearest | Linear

  datatype SamplerDesc = SamplerDesc(magFilter: Filter, minFilter: Filter)

  /** `SamplerDesc::default`. */
  function DefaultSamplerDesc(): (d: SamplerDesc)
    ensures d.magFilter == Linear && d.minFilter == Nearest
  {
    SamplerDesc(Linear, Nearest)
  }

  datatype Coords = Coords(image: AtlasImageID, subImage: SubImageID, x: u32, y: u32, w: u32, h: u32)

  datatype DataType = LRGBA | LRGB | LMono | SRGBA | SRGB | YUV

  /** Pixel buffers are carried, never inspected. */
  datatype Data = D8(d8: seq<u8>) | D10(d10: seq<u16>) | D12(d12: seq<u16>) | D16(d16: seq<u16>)

  /** A placement record; the `notify` barrier is not modelled. */
  datatype SubImage = SubImage(
    cacheId: SubImageCacheID,
    coords: Coords,
    dataType: DataType,
    data: Data,
    samplerDesc: SamplerDesc,
    upload: bool)

  type Cell = Option<SubImageID>
  type Grid = seq<seq<Cell>>

  /** A pixel length in grid units: the ceiling of `px / 32`. */
  function Units(px: nat): (u: nat)
    ensures u * UNIT_SIZE >= px
    ensures u > 0 ==> (u - 1) * UNIT_SIZE < px
    ensures u == 0 <==> px == 0
  {
    (px + UNIT_SIZE - 1) / UNIT_SIZE
  }

  predicate IsSquare(grid: Grid, g: nat)
  {
    |grid| == g && forall x :: 0 <= x < g ==> |grid[x]| == g
  }

  predicate AllFree(grid: Grid)
  {
    forall x, y :: 0 <= x < |grid| && 0 <= y < |grid[x]| ==> grid[x][y].None?
  }

  /** `g` rows of `g` free cells. */
  function EmptyGrid(g: nat): (grid: Grid)
    ensures IsSquare(grid, g) && AllFree(grid)
  {
    seq(g, _ => seq(g, _ => None))
  }

  // ---------------------------------------------------------------------
  // The free-space scan (`space_for`)
  // ---------------------------------------------------------------------

  /** Which acceptance test a scan uses: the one the code has, or the one it evidently means. */
  datatype Rule = AsWritten | Intended

  /** `grid.get(x).and_then(|v| v.get(y))` is a cell that holds `None`. */
  predicate FreeCell(grid: Grid, x: nat, y: nat)
  {
    x < |grid| && y < |grid[x]| && grid[x][y].None?
  }

  predicate InRect(x: nat, y: nat, i: nat, j: nat, uw: nat, uh: nat)
  {
    i <= x < i + uw && j <= y < j + uh
  }

  /**
   * The test at atlas_v2.rs:183-188: the scan moves on as soon as a
   * footprint cell is on the grid and free, so it accepts an origin whose
   * footprint cells are all off the grid or occupied.
   */
  predicate Blocked(grid: Grid, i: nat, j: nat, uw: nat, uh: nat)
  {
    forall x: nat, y: nat | i <= x < i + uw && j <= y < j + uh :: !FreeCell(grid, x, y)
  }

  /** The intended test: every footprint cell is on the grid and free. */
  predicate Fits(grid: Grid, i: nat, j: nat, uw: nat, uh: nat)
  {
    forall x: nat, y: nat | i <= x < i + uw && j <= y < j + uh :: FreeCell(grid, x, y)
  }

  predicate Accepts(rule: Rule, grid: Grid, i: nat, j: nat, uw: nat, uh: nat)
  {
    match rule
    case AsWritten => Blocked(grid, i, j, uw, uh)
    case Intended => Fits(grid, i, j, uw, uh)
  }

  /** Candidate `(c, d)` is tried before `(i, j)`: `i` moves fastest and wraps into `j`. */
  predicate Before(c: nat, d: nat, i: nat, j: nat)
  {
    d < j || (d == j && c < i)
  }

  /** The scan of `space_for` from candidate `(i, j)` on a `g`-unit grid. */
  function ScanFrom(rule: Rule, grid: Grid, g: nat, uw: nat, uh: nat, i: nat, j: nat): Option<(nat, nat)>
    decreases g - j, g - i
  {
    if Accepts(rule, grid, i, j, uw, uh) then Some((i, j))
    else
      var i' := if i + 1 >= g then 0 else i + 1;
      var j' := if i + 1 >= g then j + 1 else j;
      if j' >= g then None else ScanFrom(rule, grid, g, uw, uh, i', j')
  }

  /** `space_for(w, h)` on a grid of `g` units. */
  function Scan(rule: Rule, grid: Grid, g: nat, w: nat, h: nat): Option<(nat, nat)>
  {
    ScanFrom(rule, grid, g, Units(w), Units(h), 0, 0)
  }

  lemma {:induction false} ScanFromCharacterized(rule: Rule, grid: Grid, g: nat, uw: nat, uh: nat, i: nat, j: nat)
    requires (i < g && j < g) || (i == 0 && j == 0)
    ensures var r := ScanFrom(rule, grid, g, uw, uh, i, j);
      && (r.Some? ==>
            && Accepts(rule, grid, r.value.0, r.value.1, uw, uh)
            && (r.value == (i, j) || (r.value.0 < g && r.value.1 < g))
            && !Before(r.value.0, r.value.1, i, j)
            && forall c: nat, d: nat :: c < g && d < g && !Before(c, d, i, j) && Before(c, d, r.value.0, r.value.1)
                 ==> !Accepts(rule, grid, c, d, uw, uh))
      && (r.None? ==>
            forall c: nat, d: nat :: c < g && d < g && !Before(c, d, i, j) ==> !Accepts(rule, grid, c, d, uw, uh))
    decreases g - j, g - i
  {
    if !Accepts(rule, grid, i, j, uw, uh) {
      var i' := if i + 1 >= g then 0 else i + 1;
      var j' := if i + 1 >= g then j + 1 else j;
      // the candidates from (i, j) on are (i, j) itself and those from (i', j') on
      assert forall c: nat, d: nat :: c < g && d < g && !Before(c, d, i, j) && Before(c, d, i', j') ==> c == i && d == j;
      if j' < g {
        ScanFromCharacterized(rule, grid, g, uw, uh, i', j');
      }
    }
  }

  /**
   * What `space_for` returns, for either rule: an accepted origin with no
   * accepted candidate before it in scan order, or `None` when no candidate
   * of the grid is accepted. An origin other than `(0, 0)` lies on the grid.
   */
  lemma ScanCharacterized(rule: Rule, grid: Grid, g: nat, w: nat, h: nat)
    ensures var r := Scan(rule, grid, g, w, h);
      && (r.Some? ==>
            && Accepts(rule, grid, r.value.0, r.value.1, Units(w), Units(h))
            && (r.value == (0, 0) || (r.value.0 < g && r.value.1 < g))
            && forall c: nat, d: nat :: c < g && d < g && Before(c, d, r.value.0, r.value.1)
                 ==> !Accepts(rule, grid, c, d, Units(w), Units(h)))
      && (r.None? ==> forall c: nat, d: nat :: c < g && d < g ==> !Accepts(rule, grid, c, d, Units(w), Units(h)))
  {
    ScanFromCharacterized(rule, grid, g, Units(w), Units(h), 0, 0);
  }

  /** A zero-width or zero-height request is placed at `(0, 0)` by either rule. */
  lemma ScanZeroUnits(rule: Rule, grid: Grid, g: nat, w: nat, h: nat)
    requires w == 0 || h == 0
    ensures Scan(rule, grid, g, w, h) == Some((0, 0))
  {
    assert Accepts(rule, grid, 0, 0, Units(w), Units(h));
  }

  /**
   * The as-written scan on a square grid always ends: at `(0, 0)` when the
   * grid has no units, inside the grid otherwise, and it can fail only on a
   * grid with at least one unit.
   */
  lemma ScanAsWrittenBounds(grid: Grid, g: nat, w: nat, h: nat)
    requires IsSquare(grid, g)
    ensures var r := Scan(AsWritten, grid, g, w, h);
      && (g == 0 ==> r == Some((0, 0)))
      && (r.Some? && g > 0 ==> r.value.0 < g && r.value.1 < g)
      && (r.None? ==> g > 0)
  {
    ScanCharacterized(AsWritten, grid, g, w, h);
    if g == 0 {
      assert Blocked(grid, 0, 0, Units(w), Units(h));
    }
  }

  /**
   * As written, a request with positive width and height never fits a page
   * whose grid is entirely free: every candidate origin has its own cell on
   * the grid and free.
   */
  lemma ScanAsWrittenAllFree(grid: Grid, g: nat, w: nat, h: nat)
    requires IsSquare(grid, g) && AllFree(grid)
    requires g > 0 && w > 0 && h > 0
    ensures Scan(AsWritten, grid, g, w, h) == None
  {
    ScanCharacterized(AsWritten, grid, g, w, h);
    forall a: nat, b: nat | a < g && b < g
      ensures !Blocked(grid, a, b, Units(w), Units(h))
    {
      assert FreeCell(grid, a, b);
    }
  }

  /**
   * The intended scan places a request that is no larger than an entirely
   * free page at the page's origin.
   */
  lemma ScanIntendedAllFree(grid: Grid, g: nat, w: nat, h: nat)
    requires IsSquare(grid, g) && AllFree(grid)
    requires Units(w) <= g && Units(h) <= g
    ensures Scan(Intended, grid, g, w, h) == Some((0, 0))
  {
    assert Fits(grid, 0, 0, Units(w), Units(h));
  }

  /**
   * The intended scan returns an origin whose whole footprint lies on the
   * grid and is free, and no earlier candidate has one; it fails only when
   * no candidate of the grid has one.
   */
  lemma ScanIntendedFindsFreeRegion(grid: Grid, g: nat, w: nat, h: nat)
    requires IsSquare(grid, g)
    ensures var r := Scan(Intended, grid, g, w, h);
      && (r.Some? ==>
            && (forall x: nat, y: nat :: InRect(x, y, r.value.0, r.value.1, Units(w), Units(h))
                  ==> x < g && y < g && grid[x][y].None?)
            && forall c: nat, d: nat :: c < g && d < g && Before(c, d, r.value.0, r.value.1)
                 ==> !Fits(grid, c, d, Units(w), Units(h)))
      && (r.None? ==> forall c: nat, d: nat :: c < g && d < g ==> !Fits(grid, c, d, Units(w), Units(h)))
  {
    ScanCharacterized(Intended, grid, g, w, h);
    var r := Scan(Intended, grid, g, w, h);
    if r.Some? {
      forall x: nat, y: nat | InRect(x, y, r.value.0, r.value.1, Units(w), Units(h))
        ensures x < g && y < g && grid[x][y].None?
      {
        assert FreeCell(grid, x, y);
      }
    } else {
      forall c: nat, d: nat | c < g && d < g ensures !Fits(grid, c, d, Units(w), Units(h)) {
        assert !Accepts(Intended, grid, c, d, Units(w), Units(h));
      }
    }
  }

  // ---------------------------------------------------------------------
  // Stamping a footprint (`insert_sub_image`)
  // ---------------------------------------------------------------------

  /** `grid` with the cells of `[ux, ux+uw) x [uy, uy+uh)` that exist set to `Some(id)`. */
  function Stamp(grid: Grid, id: SubImageID, ux: nat, uy: nat, uw: nat, uh: nat): (r: Grid)
    ensures |r| == |grid| && forall x :: 0 <= x < |r| ==> |r[x]| == |grid[x]|
  {
    seq(|grid|, x requires 0 <= x < |grid| =>
      seq(|grid[x]|, y requires 0 <= y < |grid[x]| =>
        if InRect(x, y, ux, uy, uw, uh) then Some(id) else grid[x][y]))
  }

  // ---------------------------------------------------------------------
  // The bounding-size scan (`minimum_size`)
  // ---------------------------------------------------------------------

  predicate Occupied(grid: Grid, x: nat, y: nat)
  {
    x < |grid| && y < |grid[x]| && grid[x][y].Some?
  }

  ghost predicate RowOccupied(grid: Grid, x: nat)
  {
    exists y: nat :: Occupied(grid, x, y)
  }

  ghost predicate ColumnOccupied(grid: Grid, y: nat)
  {
    exists x: nat :: Occupied(grid, x, y)
  }

  /**
   * One step of `minimum_size` at cell `(i, j)`: `max_x` follows the row
   * index; as written, `max_y` is compared with the column index but set to
   * the row index (atlas_v2.rs:222-223); the intended tracker sets it to the
   * column index.
   */
  function Track(rule: Rule, st: (nat, nat), i: nat, j: nat, cell: Cell): (nat, nat)
  {
    if cell.Some? then
      (if i > st.0 then i else st.0,
       if j > st.1 then (match rule case AsWritten => i case Intended => j) else st.1)
    else st
  }

  /** The tracker after the first `n` cells of row `i`, starting from `st`. */
  function TrackRow(rule: Rule, grid: Grid, i: nat, n: nat, st: (nat, nat)): (nat, nat)
    requires i < |grid| && n <= |grid[i]|
  {
    if n == 0 then st else Track(rule, TrackRow(rule, grid, i, n - 1, st), i, n - 1, grid[i][n - 1])
  }

  /** The tracker after the first `n` rows. */
  function TrackRows(rule: Rule, grid: Grid, n: nat): (nat, nat)
    requires n <= |grid|
  {
    if n == 0 then (0, 0) else TrackRow(rule, grid, n - 1, |grid[n - 1]|, TrackRows(rule, grid, n - 1))
  }

  /** What the tracker knows after rows `[0, i)` and the first `n` cells of row `i`. */
  ghost predicate TrackedUpTo(rule: Rule, grid: Grid, i: nat, n: nat, st: (nat, nat))
  {
    && (forall x: nat, y: nat :: Occupied(grid, x, y) && (x < i || (x == i && y < n)) ==> x <= st.0)
    && (st.0 == 0 || RowOccupied(grid, st.0))
    && (rule == AsWritten ==> st.1 == 0 || RowOccupied(grid, st.1))
    && (rule == Intended ==> forall x: nat, y: nat :: Occupied(grid, x, y) && (x < i || (x == i && y < n)) ==> y <= st.1)
    && (rule == Intended ==> st.1 == 0 || ColumnOccupied(grid, st.1))
  }

  lemma {:induction false} TrackRowTracks(rule: Rule, grid: Grid, i: nat, n: nat, st: (nat, nat))
    requires i < |grid| && n <= |grid[i]|
    requires TrackedUpTo(rule, grid, i, 0, st)
    ensures TrackedUpTo(rule, grid, i, n, TrackRow(rule, grid, i, n, st))
  {
    if n > 0 {
      TrackRowTracks(rule, grid, i, n - 1, st);
      var prev := TrackRow(rule, grid, i, n - 1, st);
      if grid[i][n - 1].Some? {
        assert Occupied(grid, i, n - 1);
      }
    }
  }

  lemma {:induction false} TrackRowsTracks(rule: Rule, grid: Grid, n: nat)
    requires n <= |grid|
    ensures TrackedUpTo(rule, grid, n, 0, TrackRows(rule, grid, n))
  {
    if n > 0 {
      TrackRowsTracks(rule, grid, n - 1);
      TrackRowTracks(rule, grid, n - 1, |grid[n - 1]|, TrackRows(rule, grid, n - 1));
      var st := TrackRows(rule, grid, n);
      forall x: nat, y: nat | Occupied(grid, x, y) && x < n
        ensures x <= st.0 && (rule == Intended ==> y <= st.1)
      {
        if x == n - 1 {
          assert y < |grid[n - 1]|;
        }
      }
    }
  }

  /**
   * As written, the first component of `minimum_size` is 34 times the
   * largest row index holding an occupied cell (0 when there is none),
   * and the second is 34 times 0 or an occupied row index too, so it never
   * exceeds the first.
   */
  lemma MinimumSizeAsWritten(grid: Grid, g: nat)
    requires IsSquare(grid, g)
    ensures var st := TrackRows(AsWritten, grid, g);
      && (forall x: nat, y: nat :: Occupied(grid, x, y) ==> x <= st.0)
      && (st.0 == 0 || RowOccupied(grid, st.0))
      && (st.1 == 0 || RowOccupied(grid, st.1))
      && st.1 <= st.0
  {
    TrackRowsTracks(AsWritten, grid, g);
    var st := TrackRows(AsWritten, grid, g);
    if st.1 != 0 {
      var y: nat :| Occupied(grid, st.1, y);
    }
  }

  /** The intended tracker yields the largest occupied row and the largest occupied column. */
  lemma MinimumSizeIntended(grid: Grid, g: nat)
    requires IsSquare(grid, g)
    ensures var st := TrackRows(Intended, grid, g);
      && (forall x: nat, y: nat :: Occupied(grid, x, y) ==> x <= st.0 && y <= st.1)
      && (st.0 == 0 || RowOccupied(grid, st.0))
      && (st.1 == 0 || ColumnOccupied(grid, st.1))
  {
    TrackRowsTracks(Intended, grid, g);
  }

  /** On an entirely free grid the tracker stays at `(0, 0)`. */
  lemma MinimumSizeAllFree(rule: Rule, grid: Grid, g: nat)
    requires IsSquare(grid, g) && AllFree(grid)
    ensures TrackRows(rule, grid, g) == (0, 0)
  {
    TrackRowsTracks(rule, grid, g);
    forall x: nat ensures !RowOccupied(grid, x) && !ColumnOccupied(grid, x) {
    }
  }

  /** A 6 x 6 grid whose only occupied cell is row 0, column 5. */
  function CornerGrid(): (grid: Grid)
    ensures IsSquare(grid, 6)
    ensures forall x: nat, y: nat :: Occupied(grid, x, y) <==> x == 0 && y == 5
  {
    seq(6, x => seq(6, y => if x == 0 && y == 5 then Some(SubImageID(0)) else None))
  }

  /**
   * The cell at row 0, column 5 needs a page at least 5 units tall in the
   * second dimension, yet as written `minimum_size` reports 0 for it; the
   * intended tracker reports 5.
   */
  lemma MinimumSizeMissesColumn()
    ensures TrackRows(AsWritten, CornerGrid(), 6).1 == 0
    ensures TrackRows(Intended, CornerGrid(), 6).1 == 5
  {
    var grid := CornerGrid();
    MinimumSizeAsWritten(grid, 6);
    MinimumSizeIntended(grid, 6);
    assert Occupied(grid, 0, 5);
    forall x: nat | x != 0 ensures !RowOccupied(grid, x) {
    }
  }

  // ---------------------------------------------------------------------
  // The page object
  // ---------------------------------------------------------------------

  /**
   * The contents of a page: its grid, its sub-images, and the render
   * bookkeeping (`current`, the index of the active GPU backing generation,
   * and `subImagesIn`, the sub-images resident in each generation; the
   * backing objects themselves are not modelled).
   */
  datatype PageValue = PageValue(
    grid: Grid,
    subImages: map<SubImageID, SubImage>,
    current: Option<nat>,
    subImagesIn: seq<seq<SubImageID>>)

  /** `Image::new`: `floor(max_image_dimension_2d / 34)` units per side, all free, nothing placed, no generation. */
  function NewPageValue(maxImageDimension2d: nat): (p: PageValue)
    ensures IsSquare(p.grid, maxImageDimension2d / CELL_PIXELS) && AllFree(p.grid)
    ensures p.subImages == map[] && p.current == None && p.subImagesIn == []
  {
    PageValue(EmptyGrid(maxImageDimension2d / CELL_PIXELS), map[], None, [])
  }

  /** `current`, when set, names an existing generation (the source would panic on indexing otherwise). */
  predicate CurrentInRange(p: PageValue)
  {
    p.current.Some? ==> p.current.value < |p.subImagesIn|
  }

  /**
   * `Image::image_render_data`: the active backing generation, sampler
   * description and coordinates of `imageId`, if it is resident in the
   * active generation; `None` when there is no active generation.
   */
  function PageRenderData(p: PageValue, imageId: SubImageID): (r: Option<(nat, SamplerDesc, Coords)>)
    requires CurrentInRange(p)
    ensures p.current.None? ==> r.None?
    ensures r.Some? <==> p.current.Some? && imageId in p.subImagesIn[p.current.value] && imageId in p.subImages
    ensures r.Some? ==> r.value == (p.current.value, p.subImages[imageId].samplerDesc, p.subImages[imageId].coords)
  {
    match p.current
    case None => None
    case Some(imageI) =>
      if imageId in p.subImagesIn[imageI] then
        if imageId in p.subImages then
          Some((imageI, p.subImages[imageId].samplerDesc, p.subImages[imageId].coords))
        else None
      else None
  }

  /**
   * `Image`, the page object whose grid `insert_sub_image` writes in place.
   * The atlas owns its pages through a map; it works on their `PageValue`s
   * with the functions `Scan` and `Stamp` that the methods below are
   * proved to compute.
   */
  class Image {
    const id: AtlasImageID
    const gridUw: nat
    /** Index of the active GPU backing generation; the backing objects themselves are not modelled. */
    var current: Option<nat>
    var subImages: map<SubImageID, SubImage>
    var subImagesIn: seq<seq<SubImageID>>
    var grid: Grid

    /** The grid is square with `gridUw` units per side. */
    ghost predicate Valid()
      reads this`grid
    {
      IsSquare(grid, gridUw)
    }

    ghost function View(): PageValue
      reads this
    {
      PageValue(grid, subImages, current, subImagesIn)
    }

    /** `Image::new`: `floor(max_image_dimension_2d / 34)` units per side, all free. */
    constructor (maxImageDimension2d: nat, id: AtlasImageID)
      ensures Valid()
      ensures this.id == id && gridUw == maxImageDimension2d / CELL_PIXELS
      ensures View() == NewPageValue(maxImageDimension2d)
    {
      this.id := id;
      gridUw := maxImageDimension2d / CELL_PIXELS;
      grid := EmptyGrid(maxImageDimension2d / CELL_PIXELS);
      subImages := map[];
      current := None;
      subImagesIn := [];
    }

    /**
     * `space_for`: scans candidate origins `(i, j)`, `i` fastest, and
     * returns the first accepted by the as-written test.
     */
    method SpaceFor(w: nat, h: nat) returns (r: Option<(nat, nat)>)
      requires Valid()
      ensures r == Scan(AsWritten, grid, gridUw, w, h)
    {
      var uw := Units(w);
      var uh := Units(h);
      var i: nat, j: nat := 0, 0;
      label find:
      while true
        invariant (i == 0 && j == 0) || (i < gridUw && j < gridUw)
        invariant ScanFrom(AsWritten, grid, gridUw, uw, uh, i, j) == Scan(AsWritten, grid, gridUw, w, h)
        decreases gridUw - j, gridUw - i
      {
        ghost var i0, j0 := i, j;
        for k := 0 to uw
          invariant i == i0 && j == j0
          invariant forall x: nat, y: nat :: InRect(x, y, i, j, k, uh) ==> !FreeCell(grid, x, y)
        {
          for l := 0 to uh
            invariant i == i0 && j == j0
            invariant forall x: nat, y: nat :: InRect(x, y, i, j, k, uh) ==> !FreeCell(grid, x, y)
            invariant forall x: nat, y: nat :: x == i + k && j <= y < j + l ==> !FreeCell(grid, x, y)
          {
            if FreeCell(grid, i + k, j + l) {
              assert !Blocked(grid, i0, j0, uw, uh) by {
                assert InRect(i + k, j + l, i0, j0, uw, uh);
              }
              i := i + 1;
              if i >= gridUw {
                j := j + 1;
                i := 0;
              }
              if j >= gridUw {
                return None;
              }
              continue find;
            }
          }
        }
        assert Blocked(grid, i, j, uw, uh);
        return Some((i, j));
      }
    }

    /** `insert_sub_image`: stamps the footprint with `subImageId` and records the sub-image. */
    method InsertSubImage(subImageId: SubImageID, subImage: SubImage, ux: nat, uy: nat, uw: nat, uh: nat)
      requires Valid()
      requires uw == 0 || uh == 0 || (ux + uw <= gridUw && uy + uh <= gridUw)
      modifies this
      ensures Valid()
      ensures forall x, y :: 0 <= x < gridUw && 0 <= y < gridUw ==>
        grid[x][y] == if InRect(x, y, ux, uy, uw, uh) then Some(subImageId) else old(grid)[x][y]
      ensures grid == Stamp(old(grid), subImageId, ux, uy, uw, uh)
      ensures subImages == old(subImages)[subImageId := subImage]
      ensures current == old(current) && subImagesIn == old(subImagesIn)
    {
      for i := ux to ux + uw
        invariant IsSquare(grid, gridUw)
        invariant subImages == old(subImages) && current == old(current) && subImagesIn == old(subImagesIn)
        invariant forall x, y :: 0 <= x < gridUw && 0 <= y < gridUw ==>
          grid[x][y] == if InRect(x, y, ux, uy, i - ux, uh) then Some(subImageId) else old(grid)[x][y]
      {
        for j := uy to uy + uh
          invariant IsSquare(grid, gridUw)
          invariant subImages == old(subImages) && current == old(current) && subImagesIn == old(subImagesIn)
          invariant forall x, y :: 0 <= x < gridUw && 0 <= y < gridUw ==>
            grid[x][y] ==
              if InRect(x, y, ux, uy, i - ux, uh) || (x == i && uy <= y < j) then Some(subImageId)
              else old(grid)[x][y]
        {
          grid := grid[i := grid[i][j := Some(subImageId)]];
        }
      }
      subImages := subImages[subImageId := subImage];
      assert grid == Stamp(old(grid), subImageId, ux, uy, uw, uh) by {
        var s := Stamp(old(grid), subImageId, ux, uy, uw, uh);
        assert |grid| == |s|;
        forall x | 0 <= x < |grid| ensures grid[x] == s[x] {
          assert |grid[x]| == |s[x]|;
        }
      }
    }

    /**
     * `minimum_size`: 34 times the tracked maxima of the occupied cells,
     * tracked as the code does (see `MinimumSizeAsWritten`).
     */
    method MinimumSize() returns (r: (nat, nat))
      requires Valid()
      ensures r == (TrackRows(AsWritten, grid, gridUw).0 * CELL_PIXELS, TrackRows(AsWritten, grid, gridUw).1 * CELL_PIXELS)
      ensures r.0 % CELL_PIXELS == 0 && r.1 % CELL_PIXELS == 0
    {
      var maxX: nat, maxY: nat := 0, 0;
      for i := 0 to gridUw
        invariant (maxX, maxY) == TrackRows(AsWritten, grid, i)
      {
        for j := 0 to gridUw
          invariant (maxX, maxY) == TrackRow(AsWritten, grid, i, j, TrackRows(AsWritten, grid, i))
        {
          if grid[i][j].Some? {
            if i > maxX {
              maxX := i;
            }
            if j > maxY {
              maxY := i;
            }
          }
        }
      }
      r := (maxX * CELL_PIXELS, maxY * CELL_PIXELS);
    }
  }
}
