/**
 * The atlas (`Atlas` in src/atlas_v2.rs): its page map, identity cache and
 * sampler cache, the upload worker's per-request placement step and one
 * drain of the upload queue, and the facade's read paths.
 *
 * The worker thread, its locks and its 10 ms polling are not modelled: one
 * drain cycle takes the queued requests as a sequence. Every placement step
 * is specified by the function `Upload` on an abstract `AtlasState`; the
 * lemmas below state what `Upload` and `Drain` promise.
 */
module Atlas {
  import opened Wrappers
  import opened AtlasPage

  /** A sampler made by `SamplerDesc::create_sampler`; the device object is not modelled. */
  datatype Sampler = Sampler(desc: SamplerDesc)

  function CreateSampler(desc: SamplerDesc): (s: Sampler)
    ensures s.desc == desc
  {
    Sampler(desc)
  }

  /** One entry of `upload_queue`, without its result slot and barrier. */
  datatype Request = Request(
    cacheId: SubImageCacheID,
    dataType: DataType,
    samplerDesc: SamplerDesc,
    width: u32,
    height: u32,
    data: Data)

  type UploadResult = Result<SubImageID, string>

  const NO_SPACE: string := "No space for image."

  /** What the worker owns: the page counter and the three maps, with pages by value. */
  datatype AtlasState = AtlasState(
    counter: nat,
    pages: map<AtlasImageID, PageValue>,
    cached: map<SubImageCacheID, SubImageID>,
    samplers: map<SamplerDesc, Sampler>)

  /** Release-mode `u32` arithmetic. */
  function Wrap32(n: nat): u32
  {
    n % 0x1_0000_0000
  }

  /**
   * The pixel coordinate the worker writes for both `x` and `y`: it is
   * computed from the unit WIDTH of the request (atlas_v2.rs:345-346).
   */
  function PixelOrigin(uw: nat): u32
  {
    Wrap32(uw * CELL_PIXELS + UNIT_PADDING)
  }

  /** The pages are exactly those with ids below the page counter. */
  ghost predicate DenseIds(s: AtlasState)
  {
    forall id: AtlasImageID :: id in s.pages <==> id.n < s.counter
  }

  /**
   * Every page has a free `g`-unit square grid and no active backing
   * generation (nothing in the source ever sets `current`).
   */
  ghost predicate PagesFree(s: AtlasState, g: nat)
  {
    forall id :: id in s.pages ==>
      IsSquare(s.pages[id].grid, g) && AllFree(s.pages[id].grid) && s.pages[id].current == None
  }

  /** What the as-written worker keeps true of its state, on a device whose pages have at least one unit. */
  ghost predicate Consistent(s: AtlasState, maxImageDimension2d: nat)
  {
    maxImageDimension2d >= CELL_PIXELS && DenseIds(s) && PagesFree(s, maxImageDimension2d / CELL_PIXELS)
  }

  function SpaceIn(p: PageValue, w: nat, h: nat): Option<(nat, nat)>
  {
    Scan(AsWritten, p.grid, |p.grid|, w, h)
  }

  /**
   * The page-choice loop (atlas_v2.rs:311-317) over the ids below `n` in
   * ascending order: it keeps overwriting its choice, so it ends with the
   * page of largest id that has space.
   */
  function LastFit(pages: map<AtlasImageID, PageValue>, n: nat, w: nat, h: nat): (r: Option<(AtlasImageID, nat, nat)>)
    ensures r.Some? ==> r.value.0 in pages && r.value.0.n < n
  {
    if n == 0 then None
    else
      var id := AtlasImageID(n - 1);
      if id in pages && SpaceIn(pages[id], w, h).Some? then
        Some((id, SpaceIn(pages[id], w, h).value.0, SpaceIn(pages[id], w, h).value.1))
      else LastFit(pages, n - 1, w, h)
  }

  /** The placement record and the stamped page for a request placed on page `pid` at unit origin `(ux, uy)`. */
  function Place(s: AtlasState, pid: AtlasImageID, ux: nat, uy: nat, subId: SubImageID, req: Request): AtlasState
    requires pid in s.pages
  {
    var uw := Units(req.width);
    var uh := Units(req.height);
    var coords := Coords(pid, subId, PixelOrigin(uw), PixelOrigin(uw), req.width, req.height);
    var sub := SubImage(req.cacheId, coords, req.dataType, req.data, req.samplerDesc, true);
    var page := s.pages[pid];
    s.(pages := s.pages[pid := page.(grid := Stamp(page.grid, subId, ux, uy, uw, uh), subImages := page.subImages[subId := sub])],
       cached := if req.cacheId != NoCacheId then s.cached[req.cacheId := subId] else s.cached)
  }

  /** The sampler cache after the lookup at atlas_v2.rs:306-309. */
  function EnsureSampler(samplers: map<SamplerDesc, Sampler>, desc: SamplerDesc): map<SamplerDesc, Sampler>
  {
    if desc in samplers then samplers else samplers[desc := CreateSampler(desc)]
  }

  /**
   * Steps 2 and 3 of a request (atlas_v2.rs:311-334): the page a `w` x `h`
   * request goes to, with its unit origin, and the state after the choice.
   * A fresh page is tried only when no page has space; it is kept, under the
   * old counter as its id, only when it has space itself.
   */
  function PageChoice(s: AtlasState, maxImageDimension2d: nat, w: nat, h: nat): (r: (AtlasState, Option<(AtlasImageID, nat, nat)>))
    ensures r.1.Some? ==> r.1.value.0 in r.0.pages
  {
    match LastFit(s.pages, s.counter, w, h)
    case Some(c) => (s, Some(c))
    case None =>
      var pid := AtlasImageID(s.counter);
      var newPage := NewPageValue(maxImageDimension2d);
      match SpaceIn(newPage, w, h)
      case None => (s, None)
      case Some((ux, uy)) => (s.(counter := s.counter + 1, pages := s.pages[pid := newPage]), Some((pid, ux, uy)))
  }

  /** One iteration of the worker's drain loop (atlas_v2.rs:299-368). */
  function Upload(s: AtlasState, maxImageDimension2d: nat, req: Request): (AtlasState, UploadResult)
  {
    // the sub-image id is read from the page counter, which is not advanced here
    var subId := SubImageID(s.counter);
    var s1 := s.(samplers := EnsureSampler(s.samplers, req.samplerDesc));
    var (s2, choice) := PageChoice(s1, maxImageDimension2d, req.width, req.height);
    match choice
    case None => (s2, Err(NO_SPACE))
    case Some((pid, ux, uy)) => (Place(s2, pid, ux, uy, subId, req), Ok(subId))
  }

  /** One drain of the queue: the requests in arrival order, each on the state the previous one left. */
  function Drain(s: AtlasState, maxImageDimension2d: nat, reqs: seq<Request>): (AtlasState, seq<UploadResult>)
    decreases |reqs|
  {
    if reqs == [] then (s, [])
    else
      var (s1, r) := Upload(s, maxImageDimension2d, reqs[0]);
      var (s2, rs) := Drain(s1, maxImageDimension2d, reqs[1..]);
      (s2, [r] + rs)
  }

  /** The first step of a drain, and the drain of the rest from the state it leaves. */
  lemma DrainStep(s: AtlasState, maxImageDimension2d: nat, reqs: seq<Request>, s1: AtlasState, r: UploadResult)
    requires reqs != [] && (s1, r) == Upload(s, maxImageDimension2d, reqs[0])
    ensures Drain(s, maxImageDimension2d, reqs) ==
      (Drain(s1, maxImageDimension2d, reqs[1..]).0, [r] + Drain(s1, maxImageDimension2d, reqs[1..]).1)
  {
  }

  // ---------------------------------------------------------------------
  // What one placement step promises
  // ---------------------------------------------------------------------

  lemma {:induction false} LastFitCharacterized(pages: map<AtlasImageID, PageValue>, n: nat, w: nat, h: nat)
    ensures var r := LastFit(pages, n, w, h);
      && (r.Some? ==>
            && SpaceIn(pages[r.value.0], w, h) == Some((r.value.1, r.value.2))
            && forall id :: id in pages && r.value.0.n < id.n < n ==> SpaceIn(pages[id], w, h).None?)
      && (r.None? ==> forall id :: id in pages && id.n < n ==> SpaceIn(pages[id], w, h).None?)
  {
    if n > 0 {
      LastFitCharacterized(pages, n - 1, w, h);
    }
  }

  /**
   * Page choice: the request goes to the page of largest id that has
   * space; only when no page has space is a page added, with the old
   * counter as its id and the counter advanced; when even the fresh page
   * has no space the counter is restored, no page is added and the result
   * is `Err("No space for image.")`. The pages not chosen are untouched.
   */
  lemma UploadPageChoice(s: AtlasState, maxImageDimension2d: nat, req: Request)
    requires DenseIds(s)
    ensures var (s', res) := Upload(s, maxImageDimension2d, req);
      var fit := LastFit(s.pages, s.counter, req.width, req.height);
      var freshFit := SpaceIn(NewPageValue(maxImageDimension2d), req.width, req.height);
      && (fit.Some? ==>
            && SpaceIn(s.pages[fit.value.0], req.width, req.height) == Some((fit.value.1, fit.value.2))
            && (forall id :: id in s.pages && id.n > fit.value.0.n ==> SpaceIn(s.pages[id], req.width, req.height).None?)
            && res.Ok? && s'.counter == s.counter && s'.pages.Keys == s.pages.Keys
            && forall id :: id in s.pages && id != fit.value.0 ==> s'.pages[id] == s.pages[id])
      && (fit.None? ==> forall id :: id in s.pages ==> SpaceIn(s.pages[id], req.width, req.height).None?)
      && (fit.None? && freshFit.Some? ==>
            && res.Ok? && s'.counter == s.counter + 1
            && s'.pages.Keys == s.pages.Keys + {AtlasImageID(s.counter)}
            && AtlasImageID(s.counter) !in s.pages
            && forall id :: id in s.pages ==> s'.pages[id] == s.pages[id])
      && (fit.None? && freshFit.None? ==>
            res == Err(NO_SPACE) && s' == s.(samplers := s'.samplers))
  {
    LastFitCharacterized(s.pages, s.counter, req.width, req.height);
  }

  /**
   * Page `pid` of `s'` is `base` with the sub-image `id` of request `req`
   * added at unit origin `(ux, uy)`: the footprint is stamped, the record
   * is stored under `id` (replacing any record already there), and every
   * other record and the render bookkeeping are as in `base`.
   */
  ghost predicate PlacedAt(s': AtlasState, base: PageValue, req: Request, id: SubImageID, pid: AtlasImageID, ux: nat, uy: nat)
  {
    && pid in s'.pages
    && s'.pages[pid].subImages.Keys == base.subImages.Keys + {id}
    && s'.pages[pid].subImages[id] ==
         SubImage(req.cacheId,
                  Coords(pid, id, PixelOrigin(Units(req.width)), PixelOrigin(Units(req.width)), req.width, req.height),
                  req.dataType, req.data, req.samplerDesc, true)
    && (forall i :: i in base.subImages && i != id ==> s'.pages[pid].subImages[i] == base.subImages[i])
    && s'.pages[pid].grid == Stamp(base.grid, id, ux, uy, Units(req.width), Units(req.height))
    && s'.pages[pid].current == base.current
    && s'.pages[pid].subImagesIn == base.subImagesIn
  }

  /** The page a request placed on page `pid` goes into: the existing page, or a fresh one. */
  function BasePage(s: AtlasState, maxImageDimension2d: nat, pid: AtlasImageID): PageValue
  {
    if pid in s.pages then s.pages[pid] else NewPageValue(maxImageDimension2d)
  }

  /**
   * A successful placement returns `Ok(SubImageID(counter))` for the
   * counter read at the start of the step, and stores the sub-image with
   * `w = width`, `h = height`, `x = y = uw * 34 + 1` and `upload = true` on
   * the chosen page, whose grid is stamped with the footprint; the page's
   * other records and its render bookkeeping are kept.
   */
  lemma UploadPlacement(s: AtlasState, maxImageDimension2d: nat, req: Request)
    requires DenseIds(s)
    ensures var (s', res) := Upload(s, maxImageDimension2d, req);
      var choice := PageChoice(s.(samplers := EnsureSampler(s.samplers, req.samplerDesc)), maxImageDimension2d, req.width, req.height).1;
      res.Ok? ==>
        && res.value == SubImageID(s.counter)
        && choice.Some?
        && PlacedAt(s', BasePage(s, maxImageDimension2d, choice.value.0), req, res.value, choice.value.0, choice.value.1, choice.value.2)
  {
    var (s', res) := Upload(s, maxImageDimension2d, req);
    if res.Ok? && LastFit(s.pages, s.counter, req.width, req.height).None? {
      assert AtlasImageID(s.counter) !in s.pages;
    }
  }


  /** Every cached key names a sub-image recorded on some page: a cache lookup never dangles. */
  ghost predicate CacheResolves(s: AtlasState)
  {
    forall key :: key in s.cached ==> exists pid :: pid in s.pages && s.cached[key] in s.pages[pid].subImages
  }

  /**
   * A step keeps every cached key resolving: a key is cached only when its
   * sub-image has just been recorded, and a page's records are never
   * dropped.
   */
  lemma UploadKeepsCacheResolved(s: AtlasState, maxImageDimension2d: nat, req: Request)
    requires DenseIds(s) && CacheResolves(s)
    ensures CacheResolves(Upload(s, maxImageDimension2d, req).0)
  {
    UploadCache(s, maxImageDimension2d, req);
    UploadKeepsRecords(s, maxImageDimension2d, req);
    var (s', res) := Upload(s, maxImageDimension2d, req);
    forall key | key in s'.cached
      ensures exists pid :: pid in s'.pages && s'.cached[key] in s'.pages[pid].subImages
    {
      if res.Ok? && req.cacheId != NoCacheId && key == req.cacheId {
        UploadPlacement(s, maxImageDimension2d, req);
        var choice := PageChoice(s.(samplers := EnsureSampler(s.samplers, req.samplerDesc)), maxImageDimension2d, req.width, req.height).1;
        assert s'.cached[key] in s'.pages[choice.value.0].subImages;
      } else {
        var pid :| pid in s.pages && s.cached[key] in s.pages[pid].subImages;
        assert s'.cached[key] in s'.pages[pid].subImages;
      }
    }
  }

  /** Keys stay resolving while the cache is unchanged and no page or record is dropped. */
  lemma PagesGrowKeepResolved(s: AtlasState, s': AtlasState)
    requires CacheResolves(s) && s'.cached == s.cached
    requires forall pid :: pid in s.pages ==> pid in s'.pages && s.pages[pid].subImages.Keys <= s'.pages[pid].subImages.Keys
    ensures CacheResolves(s')
  {
    forall key | key in s'.cached
      ensures exists pid :: pid in s'.pages && s'.cached[key] in s'.pages[pid].subImages
    {
      var pid :| pid in s.pages && s.cached[key] in s.pages[pid].subImages;
      assert s'.cached[key] in s'.pages[pid].subImages;
    }
  }

  /** A step drops no page and no record: every page keeps its records' ids, and gains at most the new one. */
  lemma UploadKeepsRecords(s: AtlasState, maxImageDimension2d: nat, req: Request)
    requires DenseIds(s)
    ensures var s' := Upload(s, maxImageDimension2d, req).0;
      forall pid :: pid in s.pages ==>
        && pid in s'.pages
        && s.pages[pid].subImages.Keys <= s'.pages[pid].subImages.Keys <= s.pages[pid].subImages.Keys + {SubImageID(s.counter)}
  {
    UploadPageChoice(s, maxImageDimension2d, req);
    UploadPlacement(s, maxImageDimension2d, req);
  }

  /** The identity cache maps the request's key to the new id exactly when the step succeeds and the key is not `NoCacheId`. */
  lemma UploadCache(s: AtlasState, maxImageDimension2d: nat, req: Request)
    ensures var (s', res) := Upload(s, maxImageDimension2d, req);
      s'.cached == if res.Ok? && req.cacheId != NoCacheId then s.cached[req.cacheId := res.value] else s.cached
  {
  }

  /** The sampler cache gains the request's description if it lacked it; existing entries are never replaced. */
  lemma UploadSampler(s: AtlasState, maxImageDimension2d: nat, req: Request)
    ensures var s' := Upload(s, maxImageDimension2d, req).0;
      && s'.samplers.Keys == s.samplers.Keys + {req.samplerDesc}
      && (forall d :: d in s.samplers ==> s'.samplers[d] == s.samplers[d])
      && (req.samplerDesc !in s.samplers ==> s'.samplers[req.samplerDesc] == CreateSampler(req.samplerDesc))
  {
  }

  /** The page counter never decreases, and it rises by one exactly when a page is added. */
  lemma UploadCounter(s: AtlasState, maxImageDimension2d: nat, req: Request)
    requires DenseIds(s)
    ensures var s' := Upload(s, maxImageDimension2d, req).0;
      && DenseIds(s')
      && (s'.counter == s.counter || s'.counter == s.counter + 1)
      && (s'.counter == s.counter + 1 <==> s'.pages.Keys != s.pages.Keys)
  {
    LastFitCharacterized(s.pages, s.counter, req.width, req.height);
  }

  /**
   * As written, every page stays entirely free: a request with positive
   * width and height never fits (see `ScanAsWrittenAllFree`), so it fails
   * with `Err("No space for image.")` and leaves the pages as they were;
   * only zero-width or zero-height requests are placed, and those stamp no
   * cell.
   */
  lemma UploadAsWritten(s: AtlasState, maxImageDimension2d: nat, req: Request)
    requires Consistent(s, maxImageDimension2d)
    ensures var (s', res) := Upload(s, maxImageDimension2d, req);
      && Consistent(s', maxImageDimension2d)
      && (req.width > 0 && req.height > 0 ==> res == Err(NO_SPACE) && s'.pages == s.pages && s'.counter == s.counter)
      && (req.width == 0 || req.height == 0 ==> res.Ok?)
  {
    var s1 := s.(samplers := EnsureSampler(s.samplers, req.samplerDesc));
    PageChoiceAsWritten(s1, maxImageDimension2d, req.width, req.height);
    var (s2, choice) := PageChoice(s1, maxImageDimension2d, req.width, req.height);
    if choice.Some? {
      var (pid, ux, uy) := choice.value;
      StampEmptyFootprint(s2.pages[pid].grid, SubImageID(s.counter), ux, uy, Units(req.width), Units(req.height));
    }
  }

  /**
   * As written, the page choice keeps `Consistent`; it finds no page for a
   * request of positive width and height and then changes nothing, and it
   * always finds one for a request of zero width or height.
   */
  lemma PageChoiceAsWritten(s: AtlasState, maxImageDimension2d: nat, w: nat, h: nat)
    requires Consistent(s, maxImageDimension2d)
    ensures var (s', choice) := PageChoice(s, maxImageDimension2d, w, h);
      && Consistent(s', maxImageDimension2d)
      && s'.cached == s.cached && s'.samplers == s.samplers
      && (w > 0 && h > 0 ==> choice.None? && s' == s)
      && (w == 0 || h == 0 ==> choice.Some?)
  {
    var g := maxImageDimension2d / CELL_PIXELS;
    LastFitCharacterized(s.pages, s.counter, w, h);
    var fit := LastFit(s.pages, s.counter, w, h);
    var newPage := NewPageValue(maxImageDimension2d);
    if w > 0 && h > 0 {
      ScanAsWrittenAllFree(newPage.grid, g, w, h);
      if fit.Some? {
        ScanAsWrittenAllFree(s.pages[fit.value.0].grid, g, w, h);
      }
    } else {
      ScanZeroUnits(AsWritten, newPage.grid, g, w, h);
    }
  }

  /** Stamping a footprint with no width or no height changes no cell. */
  lemma StampEmptyFootprint(grid: Grid, id: SubImageID, ux: nat, uy: nat, uw: nat, uh: nat)
    requires uw == 0 || uh == 0
    ensures Stamp(grid, id, ux, uy, uw, uh) == grid
  {
    var r := Stamp(grid, id, ux, uy, uw, uh);
    forall x | 0 <= x < |grid| ensures r[x] == grid[x] {
      assert |r[x]| == |grid[x]|;
    }
  }

  /** A fresh atlas: no pages, no cache entries, counter 0. */
  function InitialState(): AtlasState
  {
    AtlasState(0, map[], map[], map[])
  }

  /**
   * A 40 x 40 request needs 2 x 2 units. Every cell of a fresh page with at
   * least 2 units a side is free, so the free-cell test is evidently meant
   * to place it at (0, 0) (the `Intended` scan does); as written the scan
   * finds no origin and the upload fails.
   */
  lemma FortyByFortyFails(maxImageDimension2d: nat, data: Data)
    requires maxImageDimension2d >= 2 * CELL_PIXELS
    ensures Upload(InitialState(), maxImageDimension2d, Request(NoCacheId, LRGBA, DefaultSamplerDesc(), 40, 40, data)).1
            == Err(NO_SPACE)
    ensures Scan(Intended, NewPageValue(maxImageDimension2d).grid, maxImageDimension2d / CELL_PIXELS, 40, 40) == Some((0, 0))
  {
    var req := Request(NoCacheId, LRGBA, DefaultSamplerDesc(), 40, 40, data);
    UploadAsWritten(InitialState(), maxImageDimension2d, req);
    ScanIntendedAllFree(NewPageValue(maxImageDimension2d).grid, maxImageDimension2d / CELL_PIXELS, 40, 40);
  }

  /**
   * Sub-image ids repeat: once a page exists, two zero-height requests in a
   * row both get `SubImageID(1)`, and the second request's record replaces
   * the first's on page 0.
   */
  lemma SubImageIdsRepeat(maxImageDimension2d: nat, r1: Request, r2: Request)
    requires maxImageDimension2d >= CELL_PIXELS
    requires r1.height == 0 && r2.height == 0
    ensures var s1 := Upload(InitialState(), maxImageDimension2d, r1).0;
      var (s2, res2) := Upload(s1, maxImageDimension2d, r1);
      var res3 := Upload(s2, maxImageDimension2d, r2).1;
      var s3 := Upload(s2, maxImageDimension2d, r2).0;
      && res2 == Ok(SubImageID(1)) && res3 == Ok(SubImageID(1))
      && AtlasImageID(0) in s2.pages && AtlasImageID(0) in s3.pages
      && SubImageID(1) in s2.pages[AtlasImageID(0)].subImages
      && s2.pages[AtlasImageID(0)].subImages[SubImageID(1)].cacheId == r1.cacheId
      && s3.pages[AtlasImageID(0)].subImages.Keys == s2.pages[AtlasImageID(0)].subImages.Keys
      && s3.pages[AtlasImageID(0)].subImages[SubImageID(1)].cacheId == r2.cacheId
  {
    var s0 := InitialState();
    UploadAsWritten(s0, maxImageDimension2d, r1);
    UploadCounter(s0, maxImageDimension2d, r1);
    var s1 := Upload(s0, maxImageDimension2d, r1).0;
    // the first request made page 0
    assert s1.counter == 1;
    ZeroHeightOnOnlyPage(s1, maxImageDimension2d, r1);
    ZeroHeightOnOnlyPage(Upload(s1, maxImageDimension2d, r1).0, maxImageDimension2d, r2);
  }

  /**
   * With page 0 the only page, a zero-height request is placed on it under
   * `SubImageID(1)`, read from the unchanged counter.
   */
  lemma ZeroHeightOnOnlyPage(s: AtlasState, maxImageDimension2d: nat, r: Request)
    requires Consistent(s, maxImageDimension2d) && s.counter == 1 && r.height == 0
    ensures var (s', res) := Upload(s, maxImageDimension2d, r);
      && res == Ok(SubImageID(1)) && Consistent(s', maxImageDimension2d) && s'.counter == 1
      && AtlasImageID(0) in s.pages && AtlasImageID(0) in s'.pages
      && s'.pages[AtlasImageID(0)].subImages.Keys == s.pages[AtlasImageID(0)].subImages.Keys + {SubImageID(1)}
      && s'.pages[AtlasImageID(0)].subImages[SubImageID(1)].cacheId == r.cacheId
  {
    UploadAsWritten(s, maxImageDimension2d, r);
    UploadCounter(s, maxImageDimension2d, r);
    UploadPageChoice(s, maxImageDimension2d, r);
    assert AtlasImageID(0) in s.pages;
    ScanZeroUnits(AsWritten, s.pages[AtlasImageID(0)].grid, |s.pages[AtlasImageID(0)].grid|, r.width, r.height);
    UploadPlacement(s, maxImageDimension2d, r);
  }

  // ---------------------------------------------------------------------
  // What one drain promises
  // ---------------------------------------------------------------------

  /**
   * A drain answers every request, in order, and keeps `Consistent`; as
   * written every request of positive width and height in it fails with
   * `Err("No space for image.")`, and such failures do not stop the drain.
   */
  lemma {:induction false} DrainAsWritten(s: AtlasState, maxImageDimension2d: nat, reqs: seq<Request>)
    requires Consistent(s, maxImageDimension2d)
    decreases |reqs|
    ensures var (s', results) := Drain(s, maxImageDimension2d, reqs);
      && |results| == |reqs|
      && Consistent(s', maxImageDimension2d)
      && s'.counter >= s.counter
      && forall k :: 0 <= k < |reqs| && reqs[k].width > 0 && reqs[k].height > 0 ==> results[k] == Err(NO_SPACE)
  {
    if reqs != [] {
      UploadAsWritten(s, maxImageDimension2d, reqs[0]);
      UploadCounter(s, maxImageDimension2d, reqs[0]);
      var (s1, r) := Upload(s, maxImageDimension2d, reqs[0]);
      DrainAsWritten(s1, maxImageDimension2d, reqs[1..]);
      DrainStep(s, maxImageDimension2d, reqs, s1, r);
      var results := Drain(s, maxImageDimension2d, reqs).1;
      forall k | 0 <= k < |reqs| && reqs[k].width > 0 && reqs[k].height > 0
        ensures results[k] == Err(NO_SPACE)
      {
        if k > 0 {
          assert reqs[k] == reqs[1..][k - 1];
        }
      }
    }
  }

  // ---------------------------------------------------------------------
  // Results the loaders hand back without the worker
  // ---------------------------------------------------------------------

  /** Why decoding fetched or read bytes failed; both loaders share this stage. */
  datatype DecodeFailure =
    | GuessFailed(detail: string)
    | DecodeFailed(detail: string)

  /** Why the URL loader gave up: the download, or the decoding. */
  datatype UrlFailure =
    | RetrieveFailed(detail: string)
    | UrlUndecodable(cause: DecodeFailure)

  /** Why the path loader gave up: opening or reading the file, or the decoding. */
  datatype PathFailure =
    | OpenFailed(detail: string)
    | ReadFileFailed(detail: string)
    | PathUndecodable(cause: DecodeFailure)

  function DecodeMessage(f: DecodeFailure): string
  {
    match f
    case GuessFailed(e) => "Failed to guess image type for data: " + e
    case DecodeFailed(e) => "Failed to read image: " + e
  }

  function UrlFailureMessage(f: UrlFailure): string
  {
    match f
    case RetrieveFailed(e) => "Failed to retreive url data: " + e
    case UrlUndecodable(d) => DecodeMessage(d)
  }

  function PathFailureMessage(f: PathFailure): string
  {
    match f
    case OpenFailed(e) => "Failed to open file: " + e
    case ReadFileFailed(e) => "Failed to read file: " + e
    case PathUndecodable(d) => DecodeMessage(d)
  }

  /** A loader's outcome with its failure formatted as the message the caller receives. */
  function Formatted<F>(outcome: Result<Decoded, F>, message: F -> string): Result<Decoded, string>
  {
    match outcome
    case Ok(img) => Ok(img)
    case Err(f) => Err(message(f))
  }

  /** A decoded image as a loader thread would queue it: RGBA bytes. */
  datatype Decoded = Decoded(width: u32, height: u32, pixels: seq<u8>)

  /** What an `ImageLoad` will yield: a result already known, or one the next drain produces. */
  datatype ImageLoad = Ready(result: UploadResult) | Queued

  // ---------------------------------------------------------------------
  // The atlas object
  // ---------------------------------------------------------------------

  /** Every page's `current`, when set, names one of its generations. */
  ghost predicate RenderReady(s: AtlasState)
  {
    forall id :: id in s.pages ==> CurrentInRange(s.pages[id])
  }

  /**
   * `Atlas::image_render_data` from page id `k` on: the pages in ascending
   * id order, the first one with render data for `imageId` decides, and its
   * sampler description must resolve in the sampler cache.
   */
  function RenderDataFrom(s: AtlasState, k: nat, imageId: SubImageID): Option<(nat, Sampler, Coords)>
    requires RenderReady(s)
    decreases s.counter - k
  {
    if k >= s.counter then None
    else
      var id := AtlasImageID(k);
      if id in s.pages && PageRenderData(s.pages[id], imageId).Some? then
        var (gen, desc, coords) := PageRenderData(s.pages[id], imageId).value;
        if desc in s.samplers then Some((gen, s.samplers[desc], coords)) else None
      else RenderDataFrom(s, k + 1, imageId)
  }

  /** Page `id`, at or after `k`, has `imageId` resident in its active generation and its sampler resolves to `d`. */
  ghost predicate RenderedBy(s: AtlasState, id: AtlasImageID, k: nat, imageId: SubImageID, d: (nat, Sampler, Coords))
    requires RenderReady(s)
  {
    && id in s.pages && k <= id.n && PageRenderData(s.pages[id], imageId).Some?
    && var pd := PageRenderData(s.pages[id], imageId).value;
       pd.1 in s.samplers && d == (pd.0, s.samplers[pd.1], pd.2)
  }

  /**
   * Render data, when there is any, comes from a page at or after `k` that
   * has the sub-image resident in its active generation, with the sampler
   * the cache holds for the sub-image's description.
   */
  lemma {:induction false} RenderDataFromFound(s: AtlasState, k: nat, imageId: SubImageID)
    requires RenderReady(s)
    decreases s.counter - k
    ensures var r := RenderDataFrom(s, k, imageId);
      r.Some? ==> exists id :: RenderedBy(s, id, k, imageId, r.value)
  {
    if k < s.counter {
      var id := AtlasImageID(k);
      if !(id in s.pages && PageRenderData(s.pages[id], imageId).Some?) {
        RenderDataFromFound(s, k + 1, imageId);
        var r := RenderDataFrom(s, k, imageId);
        if r.Some? {
          var id' :| RenderedBy(s, id', k + 1, imageId, r.value);
          assert RenderedBy(s, id', k, imageId, r.value);
        }
      } else if RenderDataFrom(s, k, imageId).Some? {
        assert RenderedBy(s, id, k, imageId, RenderDataFrom(s, k, imageId).value);
      }
    }
  }

  /** Page `id` has render data for `imageId`. */
  ghost predicate Renders(s: AtlasState, id: AtlasImageID, imageId: SubImageID)
    requires RenderReady(s)
  {
    id in s.pages && PageRenderData(s.pages[id], imageId).Some?
  }

  /** Page `id` is the first page, in ascending id order from `k`, that has render data for `imageId`. */
  ghost predicate FirstRendering(s: AtlasState, k: nat, imageId: SubImageID, id: AtlasImageID)
    requires RenderReady(s)
  {
    && Renders(s, id, imageId) && k <= id.n < s.counter
    && forall n: nat :: k <= n < id.n ==> !Renders(s, AtlasImageID(n), imageId)
  }

  /**
   * The walk from `k` is decided by the first page with render data: no
   * such page gives `None`; otherwise the answer is that page's data with
   * its sampler when the sampler cache holds the description, and `None`
   * when it does not.
   */
  lemma {:induction false} RenderDataFromFirst(s: AtlasState, k: nat, imageId: SubImageID)
    requires RenderReady(s)
    decreases s.counter - k
    ensures var r := RenderDataFrom(s, k, imageId);
      && ((forall n: nat :: k <= n < s.counter ==> !Renders(s, AtlasImageID(n), imageId)) ==> r.None?)
      && (forall id :: FirstRendering(s, k, imageId, id) ==>
            var pd := PageRenderData(s.pages[id], imageId).value;
            r == if pd.1 in s.samplers then Some((pd.0, s.samplers[pd.1], pd.2)) else None)
  {
    if k < s.counter {
      if !Renders(s, AtlasImageID(k), imageId) {
        RenderDataFromFirst(s, k + 1, imageId);
        forall id | FirstRendering(s, k, imageId, id)
          ensures FirstRendering(s, k + 1, imageId, id)
        {
          assert id != AtlasImageID(k);
        }
      } else {
        forall id | FirstRendering(s, k, imageId, id)
          ensures id == AtlasImageID(k)
        {
          if id.n > k {
            assert false;
          }
        }
      }
    }
  }

  /** As written no page ever has an active generation, so there is never render data. */
  lemma {:induction false} RenderDataNever(s: AtlasState, maxImageDimension2d: nat, k: nat, imageId: SubImageID)
    requires Consistent(s, maxImageDimension2d)
    decreases s.counter - k
    ensures RenderReady(s) && RenderDataFrom(s, k, imageId) == None
  {
    if k < s.counter {
      assert AtlasImageID(k) in s.pages;
      RenderDataNever(s, maxImageDimension2d, k + 1, imageId);
    }
  }

  class Atlas {
    /** `engine.limits().max_image_dimension_2d`. */
    const maxImageDimension2d: nat
    /** Declared and initialised by the source, never read or advanced. */
    var subImageCounter: nat
    var atlasImageCounter: nat
    /** The pages. The map owns them (no page is shared), so they are held by value. */
    var images: map<AtlasImageID, PageValue>
    var cachedImages: map<SubImageCacheID, SubImageID>
    var samplerCache: map<SamplerDesc, Sampler>
    /** The requests sent to `upload_queue` and not yet received by the worker. */
    var uploadQueue: seq<Request>

    /** The state the upload worker owns. */
    function State(): AtlasState
      reads this
    {
      AtlasState(atlasImageCounter, images, cachedImages, samplerCache)
    }

    ghost predicate Valid()
      reads this
    {
      Consistent(State(), maxImageDimension2d) && CacheResolves(State())
    }

    /** `Atlas::new`, without the worker thread it spawns. */
    constructor (maxImageDimension2d: nat)
      requires maxImageDimension2d >= CELL_PIXELS
      ensures Valid()
      ensures this.maxImageDimension2d == maxImageDimension2d
      ensures State() == InitialState()
      ensures subImageCounter == 0 && uploadQueue == []
    {
      this.maxImageDimension2d := maxImageDimension2d;
      subImageCounter := 0;
      atlasImageCounter := 0;
      images := map[];
      cachedImages := map[];
      samplerCache := map[];
      uploadQueue := [];
    }

    /** The sampler lookup at the start of each request. */
    method EnsureSamplerFor(desc: SamplerDesc)
      modifies this`samplerCache
      ensures samplerCache == EnsureSampler(old(samplerCache), desc)
    {
      if desc !in samplerCache {
        samplerCache := samplerCache[desc := CreateSampler(desc)];
      }
    }

    /** The page-choice loop: ascending ids, keeping the last page with space. */
    method ChoosePage(width: u32, height: u32) returns (useImage: Option<(AtlasImageID, nat, nat)>)
      requires Valid()
      ensures useImage == LastFit(images, atlasImageCounter, width, height)
    {
      useImage := None;
      for k := 0 to atlasImageCounter
        invariant useImage == LastFit(images, k, width, height)
      {
        var imageId := AtlasImageID(k);
        var space := SpaceIn(images[imageId], width, height);
        if space.Some? {
          useImage := Some((imageId, space.value.0, space.value.1));
        }
      }
    }

    /**
     * No page had space: the counter is advanced to name a fresh page; if
     * that page has no space either the counter is put back and nothing is
     * added, otherwise the page joins the map.
     */
    method TryNewPage(width: u32, height: u32) returns (r: Option<(AtlasImageID, nat, nat)>)
      requires Valid()
      modifies this`atlasImageCounter, this`images
      ensures Valid()
      ensures r.None? ==>
        && SpaceIn(NewPageValue(maxImageDimension2d), width, height).None?
        && atlasImageCounter == old(atlasImageCounter) && images == old(images)
      ensures r.Some? ==>
        && r.value.0 == AtlasImageID(old(atlasImageCounter))
        && SpaceIn(NewPageValue(maxImageDimension2d), width, height) == Some((r.value.1, r.value.2))
        && atlasImageCounter == old(atlasImageCounter) + 1
        && images == old(images)[r.value.0 := NewPageValue(maxImageDimension2d)]
    {
      ghost var s0 := State();
      var imageId := AtlasImageID(atlasImageCounter);
      atlasImageCounter := atlasImageCounter + 1;
      var image := NewPageValue(maxImageDimension2d);
      var space := SpaceIn(image, width, height);
      if space.None? {
        atlasImageCounter := atlasImageCounter - 1;
        return None;
      }
      images := images[imageId := image];
      r := Some((imageId, space.value.0, space.value.1));
      PagesGrowKeepResolved(s0, State());
    }

    /** Steps 2 and 3: an existing page with space, or else a fresh one. */
    method FindPage(width: u32, height: u32) returns (useImage: Option<(AtlasImageID, nat, nat)>)
      requires Valid()
      modifies this`atlasImageCounter, this`images
      ensures Valid()
      ensures (State(), useImage) == PageChoice(old(State()), maxImageDimension2d, width, height)
    {
      useImage := ChoosePage(width, height);
      if useImage.None? {
        useImage := TryNewPage(width, height);
      }
    }

    /** One request of the worker's drain loop (atlas_v2.rs:299-368). */
    method UploadOne(req: Request) returns (res: UploadResult)
      requires Valid()
      modifies this`atlasImageCounter, this`images, this`cachedImages, this`samplerCache
      ensures Valid()
      ensures (State(), res) == Upload(old(State()), maxImageDimension2d, req)
    {
      ghost var s0 := State();
      var subImageId := SubImageID(atlasImageCounter);
      EnsureSamplerFor(req.samplerDesc);
      var useImage := FindPage(req.width, req.height);
      if useImage.None? {
        return Err(NO_SPACE);
      }
      var (imageId, ux, uy) := useImage.value;
      res := Ok(subImageId);
      var uw := Units(req.width);
      var uh := Units(req.height);
      var coords := Coords(imageId, subImageId, PixelOrigin(uw), PixelOrigin(uw), req.width, req.height);
      var subImage := SubImage(req.cacheId, coords, req.dataType, req.data, req.samplerDesc, true);
      var page := images[imageId];
      images := images[imageId := page.(grid := Stamp(page.grid, subImageId, ux, uy, uw, uh),
                                        subImages := page.subImages[subImageId := subImage])];
      if req.cacheId != NoCacheId {
        cachedImages := cachedImages[req.cacheId := subImageId];
      }
      UploadAsWritten(s0, maxImageDimension2d, req);
      UploadKeepsCacheResolved(s0, maxImageDimension2d, req);
    }

    /** One drain of the upload queue: every queued request in arrival order. */
    method DrainUploadQueue() returns (results: seq<UploadResult>)
      requires Valid()
      modifies this`atlasImageCounter, this`images, this`cachedImages, this`samplerCache, this`uploadQueue
      ensures Valid()
      ensures (State(), results) == Drain(old(State()), maxImageDimension2d, old(uploadQueue))
      ensures uploadQueue == []
    {
      results := [];
      ghost var total := Drain(State(), maxImageDimension2d, uploadQueue);
      while uploadQueue != []
        invariant Valid()
        invariant total == Drain(old(State()), maxImageDimension2d, old(uploadQueue))
        invariant total.0 == Drain(State(), maxImageDimension2d, uploadQueue).0
        invariant total.1 == results + Drain(State(), maxImageDimension2d, uploadQueue).1
        decreases |uploadQueue|
      {
        ghost var before, queued := State(), uploadQueue;
        var req := uploadQueue[0];
        uploadQueue := uploadQueue[1..];
        var r := UploadOne(req);
        DrainStep(before, maxImageDimension2d, queued, State(), r);
        results := results + [r];
      }
      assert results + [] == results;
    }

    /** `is_cached`. */
    function IsCached(cacheId: SubImageCacheID): (r: bool)
      reads this
      ensures r <==> cacheId in cachedImages
    {
      cacheId in cachedImages
    }

    /** `cached_image_id`: the id the identity cache holds for the key, if any. */
    function CachedImageId(cacheId: SubImageCacheID): (r: Option<SubImageID>)
      reads this
      ensures r.Some? <==> IsCached(cacheId)
      ensures r.Some? ==> r.value == cachedImages[cacheId]
    {
      if cacheId in cachedImages then Some(cachedImages[cacheId]) else None
    }

    /** The loader thread's hand-off: an error result, or the decoded image sent to the queue. */
    method SubmitDecoded(cacheId: SubImageCacheID, samplerDesc: SamplerDesc, outcome: Result<Decoded, string>)
      returns (load: ImageLoad)
      modifies this`uploadQueue
      ensures outcome.Err? ==> load == Ready(Err(outcome.error)) && uploadQueue == old(uploadQueue)
      ensures outcome.Ok? ==>
        (load == Queued && uploadQueue == old(uploadQueue) +
          [Request(cacheId, SRGBA, samplerDesc, outcome.value.width, outcome.value.height, D8(outcome.value.pixels))])
    {
      match outcome
      case Err(message) =>
        load := Ready(Err(message));
      case Ok(img) =>
        uploadQueue := uploadQueue + [Request(cacheId, SRGBA, samplerDesc, img.width, img.height, D8(img.pixels))];
        load := Queued;
    }

    /**
     * `load_image_from_url`: a cached URL answers at once with its id and
     * nothing is fetched; otherwise the loader's fetch and decode outcome,
     * a parameter here, is handed off.
     */
    method LoadImageFromUrl(url: string, samplerDesc: SamplerDesc, outcome: Result<Decoded, UrlFailure>)
      returns (load: ImageLoad)
      modifies this`uploadQueue
      ensures Url(url) in cachedImages ==> load == Ready(Ok(cachedImages[Url(url)])) && uploadQueue == old(uploadQueue)
      ensures Url(url) !in cachedImages && outcome.Err? ==>
        load == Ready(Err(UrlFailureMessage(outcome.error))) && uploadQueue == old(uploadQueue)
      ensures Url(url) !in cachedImages && outcome.Ok? ==>
        (load == Queued && uploadQueue == old(uploadQueue) +
          [Request(Url(url), SRGBA, samplerDesc, outcome.value.width, outcome.value.height, D8(outcome.value.pixels))])
    {
      var cacheId := Url(url);
      if cacheId in cachedImages {
        return Ready(Ok(cachedImages[cacheId]));
      }
      load := SubmitDecoded(cacheId, samplerDesc, Formatted(outcome, UrlFailureMessage));
    }

    /** `load_image_from_path`: the same fast path for a cached path. */
    method LoadImageFromPath(path: string, samplerDesc: SamplerDesc, outcome: Result<Decoded, PathFailure>)
      returns (load: ImageLoad)
      modifies this`uploadQueue
      ensures Path(path) in cachedImages ==> load == Ready(Ok(cachedImages[Path(path)])) && uploadQueue == old(uploadQueue)
      ensures Path(path) !in cachedImages && outcome.Err? ==>
        load == Ready(Err(PathFailureMessage(outcome.error))) && uploadQueue == old(uploadQueue)
      ensures Path(path) !in cachedImages && outcome.Ok? ==>
        (load == Queued && uploadQueue == old(uploadQueue) +
          [Request(Path(path), SRGBA, samplerDesc, outcome.value.width, outcome.value.height, D8(outcome.value.pixels))])
    {
      var cacheId := Path(path);
      if cacheId in cachedImages {
        return Ready(Ok(cachedImages[cacheId]));
      }
      load := SubmitDecoded(cacheId, samplerDesc, Formatted(outcome, PathFailureMessage));
    }

    /** `load_image`: caller-decoded data goes straight to the queue, never short-cut by the cache. */
    method LoadImage(cacheId: SubImageCacheID, ty: DataType, samplerDesc: SamplerDesc, width: u32, height: u32, data: Data)
      returns (load: ImageLoad)
      modifies this`uploadQueue
      ensures load == Queued
      ensures uploadQueue == old(uploadQueue) + [Request(cacheId, ty, samplerDesc, width, height, data)]
    {
      uploadQueue := uploadQueue + [Request(cacheId, ty, samplerDesc, width, height, data)];
      load := Queued;
    }

    /** `Atlas::image_render_data`: the pages in ascending id order, the first with data for the id decides. */
    method ImageRenderData(imageId: SubImageID) returns (r: Option<(nat, Sampler, Coords)>)
      requires RenderReady(State())
      ensures r == RenderDataFrom(State(), 0, imageId)
    {
      for k := 0 to atlasImageCounter
        invariant RenderDataFrom(State(), 0, imageId) == RenderDataFrom(State(), k, imageId)
      {
        var imageId' := AtlasImageID(k);
        if imageId' in images {
          var data := PageRenderData(images[imageId'], imageId);
          if data.Some? {
            var (tmpImage, samplerDesc, coords) := data.value;
            if samplerDesc !in samplerCache {
              return None;
            }
            return Some((tmpImage, samplerCache[samplerDesc], coords));
          }
        }
      }
      return None;
    }
  }

  /**
   * Deduplication: after a successful step for a request with a cache key,
   * the key resolves to the new id, so a later URL or path load with that
   * key is answered from the cache.
   */
  lemma UploadThenCached(s: AtlasState, maxImageDimension2d: nat, req: Request)
    requires req.cacheId != NoCacheId
    ensures var (s', res) := Upload(s, maxImageDimension2d, req);
      res.Ok? ==> req.cacheId in s'.cached && s'.cached[req.cacheId] == res.value
  {
    UploadCache(s, maxImageDimension2d, req);
  }
}
