# Texture atlas, map helpers and mouse hooks

This project is a Dafny model of three sequential cores of a small Rust
game-engine library. Each core is modelled as it is written, and properties
of each are proved.

- **Texture atlas** (`src/atlas_v2.rs`). Each atlas page (`Image`) has:
  - a square occupancy grid of 32-pixel units, with 34 pixels per unit once
    padding is counted;
  - the sub-images placed on it;
  - its render bookkeeping.

  The model covers:
  - the free-space scan `space_for`;
  - the footprint stamp `insert_sub_image`;
  - the bounding size `minimum_size`;
  - one request of the upload worker: sampler cache, page choice with the
    page-counter rollback, coordinates, stamp and identity cache;
  - one drain of the upload queue;
  - the facade's read paths: `is_cached`, `cached_image_id`, the
    cache-hit fast paths of the URL and path loaders, `load_image` and
    `image_render_data`.

  Files: `atlas_page.dfy` (module `AtlasPage`) and `atlas.dfy` (module
  `Atlas`).
- **Get-or-insert helpers** (`src/misc.rs`): `get_mut_or_create`,
  `get_mut_or_else` and `get_mut_or_else_with_error`. File:
  `map_extras.dfy` (module `MapExtras`).
- **Mouse** (`src/mouse.rs`):
  - the hook-id counter and the `on_*` registrations of the `Mouse`
    facade;
  - one cycle of the worker loop: the registration drain, the event drain
    (which folds events into `new_events`, `pressed`, the accumulators and
    hook removal by `swap_remove`), and the move, scroll and button
    dispatch.

  Callbacks are not run. Each call is appended to a trace of `Call` values,
  in the order the loop would make it. File: `mouse.dfy` (module `Mouse`).

`wrappers.dfy` declares `Option` and `Result`.

**Modelled as written.** Several places in the code differ from what the
code evidently means. The model keeps the code's behaviour.

- **Inverted free-cell test** (`src/atlas_v2.rs:183-188`).
  - The scan moves on when a footprint cell is on the grid and free.
  - So it accepts an origin only when every footprint cell is off the grid
    or occupied.
  - Result: on a page with at least one unit, every request with positive
    width and height fails with `"No space for image."`. Pages stay
    entirely free (`UploadAsWritten`, `DrainAsWritten`).
- **Sub-image ids** are read from the page counter (`src/atlas_v2.rs:304`).
  `sub_image_counter` is never used, and ids repeat (`SubImageIdsRepeat`).
- **Coordinates**: both `x` and `y` are computed from the unit width
  (`src/atlas_v2.rs:345-346`).
- **`minimum_size`** sets `max_y` to the row index
  (`src/atlas_v2.rs:223`).
- **Render data**: nothing writes `current` or `sub_images_in`, so there is
  never any (`RenderDataNever`).

The scan and the bounding-size tracker take a `Rule` (`AsWritten` or
`Intended`). The intended rule shares their definitions and lemmas and is
used only under "Findings". The worker model uses `AsWritten` everywhere.

**Mouse dispatch.**
- **Button order.** The `pressed` map is walked in the derived order of
  `Button`: `Left`, `Right`, `Middle`, then `Other(0)` to `Other(255)`. The
  model visits the 259 positions of that order (`ButtonAt`, `ButtonIndex`).
- **Hold hooks.** When a `WhilePressed` hook fires depends on the clock. The
  model takes it as a parameter `due`: the set of hold-hook ids whose period
  has elapsed.

## Model

| member | source | states |
|---|---|---|
| MapExtras.GetMutOrCreate | src/misc.rs:69-83 | Returns the map after the call and the value the returned reference points at. A present key leaves the map unchanged and returns its value, discarding `val`. An absent key yields `m[key := val]` and returns `val`. In every case `key` is present and every other entry is unchanged. |
| MapExtras.GetMutOrElse | src/misc.rs:85-99 | Same as above, but the inserted value comes from `func`. A present key leaves the closure state untouched, so `func` is not called. An absent key inserts `func`'s value and takes its new state. |
| MapExtras.GetMutOrElseWithError | src/misc.rs:101-117 | A present key gives `Ok(existing)` without calling `func`. An absent key with `func` failing gives `Err(e)` and leaves the map unchanged. With `func` succeeding, the key is inserted and the value returned. |
| MapExtras.GetMutOrCreateTwice | src/misc.rs:69-83 | Idempotence: a second call with the same key leaves the map as the first left it and returns the first-stored value. |
| AtlasPage.DefaultSamplerDesc | src/atlas_v2.rs:49-56 | The default sampler description is `mag_filter = Linear`, `min_filter = Nearest`. |
| AtlasPage.Units | src/atlas_v2.rs:175-176 | The unit count is the ceiling of `px / 32`. It is 0 exactly when `px` is 0. |
| AtlasPage.ScanFrom | src/atlas_v2.rs:180-206 | Defines the labelled scan from candidate `(i, j)`: `i` moves fastest and wraps into `j`, the first candidate the rule accepts is returned, and `None` once `j` leaves the grid. Its meaning is proved in `ScanFromCharacterized`. |
| AtlasPage.Scan | src/atlas_v2.rs:174-209 | Defines `space_for(w, h)`: the scan from `(0, 0)` with a footprint of `ceil(w/32)` x `ceil(h/32)` units. Its meaning is proved in `ScanCharacterized`. |
| AtlasPage.EmptyGrid | src/atlas_v2.rs:140-146 | A `g` x `g` grid with every cell free. |
| AtlasPage.ScanFromCharacterized | src/atlas_v2.rs:180-206 | A scan started at `(i, j)` returns the first accepted candidate at or after it in scan order (`i` fastest), or `None` when no remaining candidate is accepted. |
| AtlasPage.ScanCharacterized | src/atlas_v2.rs:174-206 | `space_for` returns an accepted origin that no earlier candidate precedes, or `None` when no candidate is accepted. An origin other than `(0, 0)` lies on the grid. |
| AtlasPage.ScanZeroUnits | src/atlas_v2.rs:175-205 | A request with zero units of width or height gets `Some((0, 0))`. |
| AtlasPage.ScanAsWrittenBounds | src/atlas_v2.rs:174-209 | On a square grid the scan ends. A grid with no units gives `(0, 0)`. Otherwise an origin is inside the grid, and `None` occurs only on a grid with at least one unit. |
| AtlasPage.ScanAsWrittenAllFree | src/atlas_v2.rs:180-205 | As written, an entirely free grid of at least one unit has no space for any request of positive width and height. |
| AtlasPage.ScanIntendedAllFree | src/atlas_v2.rs:180-205 | With the intended test, an entirely free page places a request that fits in it at `(0, 0)`. |
| AtlasPage.ScanIntendedFindsFreeRegion | src/atlas_v2.rs:180-205 | With the intended test, the returned origin's whole footprint is on the grid and free, and no earlier candidate has such a footprint. `None` means no candidate has one. |
| AtlasPage.Stamp | src/atlas_v2.rs:165-169 | The stamped grid has the same shape as the original. |
| AtlasPage.Track | src/atlas_v2.rs:217-225 | Defines one cell of `minimum_size`: on an occupied cell, `max_x` rises to the row index; `max_y` is compared with the column index but set, as written, to the row index. |
| AtlasPage.TrackRow | src/atlas_v2.rs:216-226 | Defines the inner loop: `Track` over the first `n` cells of one row. |
| AtlasPage.TrackRows | src/atlas_v2.rs:211-227 | Defines the outer loop: the tracker from `(0, 0)` over the first `n` rows. |
| AtlasPage.TrackRowTracks | src/atlas_v2.rs:216-226 | The tracker's invariant holds across one row of the scan. |
| AtlasPage.TrackRowsTracks | src/atlas_v2.rs:215-227 | The tracker's invariant holds after every row: `max_x` bounds every occupied row index and is 0 or occupied. |
| AtlasPage.MinimumSizeAsWritten | src/atlas_v2.rs:211-233 | As written, the first component is the largest occupied row index (0 if none). The second is 0 or an occupied row index, never above the first. |
| AtlasPage.MinimumSizeIntended | src/atlas_v2.rs:211-233 | With the intended tracker, the components are the largest occupied row and the largest occupied column. |
| AtlasPage.MinimumSizeAllFree | src/atlas_v2.rs:211-233 | An entirely free grid gives `(0, 0)`. |
| AtlasPage.MinimumSizeMissesColumn | src/atlas_v2.rs:222-223 | On a 6 x 6 grid whose only occupied cell is row 0, column 5, the as-written second component is 0. The intended one is 5. |
| AtlasPage.NewPageValue | src/atlas_v2.rs:139-156 | A fresh page has `floor(max / 34)` units per side, all free, no sub-images, no `current` and no generations. |
| AtlasPage.PageRenderData | src/atlas_v2.rs:126-137 | `None` when `current` is `None`. Otherwise `Some` exactly when the id is resident in the active generation and recorded on the page, carrying its sampler description and coordinates. |
| AtlasPage.Image.constructor | src/atlas_v2.rs:139-156 | `grid_uw = max / 34` (floor). The grid is square and all free; the rest is empty. |
| AtlasPage.Image.SpaceFor | src/atlas_v2.rs:174-209 | The labelled scan loop computes `Scan(AsWritten, ...)`. |
| AtlasPage.Image.InsertSubImage | src/atlas_v2.rs:158-172 | Exactly the cells of `[ux, ux+uw) x [uy, uy+uh)` become `Some(id)` and every other cell is unchanged. `id -> sub_image` is added to the sub-images; the render bookkeeping is unchanged. |
| AtlasPage.Image.MinimumSize | src/atlas_v2.rs:211-233 | The loops compute 34 times the tracked maxima, so both components are multiples of 34. |
| Atlas.CreateSampler | src/atlas_v2.rs:58-71 | The sampler carries the description it was made from. |
| Atlas.EnsureSampler | src/atlas_v2.rs:306-309 | Defines the sampler-cache lookup: an absent description gets a new sampler, a present one is left as it is. `UploadSampler` proves this for a step. |
| Atlas.PixelOrigin | src/atlas_v2.rs:345-346 | Defines the pixel coordinate written for both `x` and `y`: `uw*34 + 1` from the unit width, wrapped to 32 bits. |
| Atlas.Place | src/atlas_v2.rs:337-368 | Defines the placement: the `SubImage` record with coordinates, dimensions, data and `upload = true`, the stamped grid of the chosen page, and the cache entry when the request has a key. |
| Atlas.LastFit | src/atlas_v2.rs:311-317 | The chosen page is one of the pages, with an id below the counter. |
| Atlas.PageChoice | src/atlas_v2.rs:311-334 | Any chosen page is in the resulting page map. |
| Atlas.Upload | src/atlas_v2.rs:299-368 | Defines one request of the worker: the sub-image id from the page counter, the sampler lookup, the page choice, then `Err("No space for image.")` or the placement and `Ok(id)`. Its properties are the `Upload*` lemmas below. |
| Atlas.Drain | src/atlas_v2.rs:295-369 | Defines one drain: the requests in arrival order, each on the state the previous one left, with their results in order. |
| Atlas.DrainStep | src/atlas_v2.rs:295-298 | The one-step unfolding of `Drain`: the first request's step, then the drain of the rest from the state it leaves. This is the step `DrainUploadQueue`'s loop takes. |
| Atlas.LastFitCharacterized | src/atlas_v2.rs:311-317 | The choice is the page of largest id that has space. `None` means no page has space. |
| Atlas.UploadPageChoice | src/atlas_v2.rs:311-330 | An existing page with space is used, and pages and counter keep their keys. Otherwise a fresh page under the old counter is added and the counter advanced, only if it has space. If not, the counter is restored, nothing is added and the result is `Err("No space for image.")`. Other pages are untouched. |
| Atlas.UploadPlacement | src/atlas_v2.rs:337-368 | Success returns `SubImageID(counter at step start)`. The page is the one `PageChoice` picked for the request, at the unit origin it picked, and it is the page as it was (or a fresh page) with the footprint stamped and the record stored under the id: `x = y = uw*34 + 1`, `w = width`, `h = height`, `upload = true`. The page's other records, its `current` and its generations are unchanged, and its record ids gain exactly the new id. |
| Atlas.UploadCache | src/atlas_v2.rs:366-368 | The identity cache gains `cache_id -> id` exactly on success with a key other than `None`; otherwise it is unchanged. |
| Atlas.UploadKeepsRecords | src/atlas_v2.rs:319-364 | A step drops no page and no record. Each page's record ids are kept, and grow by at most the step's sub-image id. |
| Atlas.PagesGrowKeepResolved | src/atlas_v2.rs:319-334 | While the identity cache is unchanged, adding pages or records keeps every cached key resolving. |
| Atlas.UploadKeepsCacheResolved | src/atlas_v2.rs:337-368 | A step keeps the cache invariant: every key in the identity cache names a sub-image recorded on some page, so a cached lookup never dangles. The atlas object carries this invariant in `Valid`. |
| Atlas.UploadSampler | src/atlas_v2.rs:306-309 | The sampler cache gains the request's description if absent. Existing entries are never replaced. |
| Atlas.UploadCounter | src/atlas_v2.rs:319-330 | Page ids stay exactly those below the counter. The counter rises by at most one, and by one exactly when a page is added. |
| Atlas.UploadAsWritten | src/atlas_v2.rs:295-369 | As written, a step keeps every page free. A request of positive width and height fails with `"No space for image."`, leaving pages and counter unchanged. A zero-width or zero-height request succeeds. |
| Atlas.PageChoiceAsWritten | src/atlas_v2.rs:311-334 | As written, the page choice for a positive request finds nothing and changes nothing. For an empty request it always finds a page. |
| Atlas.StampEmptyFootprint | src/atlas_v2.rs:165-169 | An empty footprint changes no cell. |
| Atlas.FortyByFortyFails | src/atlas_v2.rs:183-188 | With a device limit of 68 pixels or more, a 40 x 40 request (2 x 2 units) on a fresh atlas fails as written with `"No space for image."`, while the intended scan places it at `(0, 0)` on the fresh page. |
| Atlas.SubImageIdsRepeat | src/atlas_v2.rs:304 | Once a fresh atlas has made its first page, two further zero-height requests both get `SubImageID(1)`, so sub-image ids repeat: the second request's record replaces the first's on page 0, and the page's record ids do not grow. |
| Atlas.ZeroHeightOnOnlyPage | src/atlas_v2.rs:299-368 | With page 0 the only page, a zero-height request succeeds with `SubImageID(1)`, leaves the counter at 1 and is stored on page 0 under that id with its own cache key. |
| Atlas.DrainAsWritten | src/atlas_v2.rs:295-369 | A drain answers every request in order, keeps the page invariant and never lowers the counter. As written, every positive request in it fails with `"No space for image."`. |
| Atlas.RenderDataFromFound | src/atlas_v2.rs:543-550 | Render data, when present, comes from a page that has the sub-image resident, with the sampler cached for its description. |
| Atlas.RenderDataFromFirst | src/atlas_v2.rs:543-550 | The first page, in ascending id order, with render data for the id decides. If no page has any, the answer is `None`. Otherwise it is that page's data with the cached sampler when the sampler cache holds its description, and `None` when it does not. |
| Atlas.RenderDataNever | src/atlas_v2.rs:543-550 | As written, `image_render_data` is always `None`. |
| Atlas.UploadThenCached | src/atlas_v2.rs:366-368 | After a successful step with a cache key, the key resolves to the new id. |
| Atlas.DecodeMessage | src/atlas_v2.rs:417-425 | Defines the decode-stage errors both loaders share: `"Failed to guess image type for data: "` and `"Failed to read image: "`, each followed by the underlying error text. |
| Atlas.UrlFailureMessage | src/atlas_v2.rs:412-425 | Defines the URL loader's errors: `"Failed to retreive url data: "` plus the error text, or a decode-stage message. |
| Atlas.PathFailureMessage | src/atlas_v2.rs:473-492 | Defines the path loader's errors: `"Failed to open file: "` or `"Failed to read file: "` plus the error text, or a decode-stage message. |
| Atlas.RenderDataFrom | src/atlas_v2.rs:543-550 | Defines `image_render_data` from page id `k` on: the first page with render data for the id decides, and its sampler must resolve. `RenderDataFromFirst` gives its meaning in both directions, `RenderDataFromFound` names the page a `Some` comes from, and `RenderDataNever` gives the as-written result. |
| Atlas.Atlas.constructor | src/atlas_v2.rs:272-282 | Counters 0, maps empty, queue empty. |
| Atlas.Atlas.EnsureSamplerFor | src/atlas_v2.rs:306-309 | The sampler is inserted only if absent. |
| Atlas.Atlas.ChoosePage | src/atlas_v2.rs:311-317 | The ascending loop over the pages computes `LastFit`. |
| Atlas.Atlas.TryNewPage | src/atlas_v2.rs:319-334 | A fresh page under the old counter is added and the counter advanced when it has space. Otherwise the counter is restored and nothing is added. |
| Atlas.Atlas.FindPage | src/atlas_v2.rs:311-334 | Computes `PageChoice` on the atlas state and keeps the invariant. |
| Atlas.Atlas.UploadOne | src/atlas_v2.rs:299-368 | One request computes `Upload` on the atlas state. It keeps the invariant: page ids are dense, pages are free as written, and every cached key resolves. |
| Atlas.Atlas.DrainUploadQueue | src/atlas_v2.rs:295-369 | The whole queue is consumed in order, computing `Drain`. |
| Atlas.Atlas.IsCached | src/atlas_v2.rs:384-386 | True exactly when the key is in the identity cache. |
| Atlas.Atlas.CachedImageId | src/atlas_v2.rs:539-541 | `Some` exactly when cached, with the cached id. |
| Atlas.Atlas.SubmitDecoded | src/atlas_v2.rs:406-441 | A loader's error message is returned as `Err` and nothing is queued. A decoded image is queued as `SRGBA`, `D8` data. |
| Atlas.Atlas.LoadImageFromUrl | src/atlas_v2.rs:388-448 | A cached URL answers `Ok(cached id)` at once and queues nothing. Otherwise a download or decode failure is answered with its URL-loader message, and a decoded image is queued. |
| Atlas.Atlas.LoadImageFromPath | src/atlas_v2.rs:450-516 | A cached path answers `Ok(cached id)` at once and queues nothing. Otherwise an open, read or decode failure is answered with its path-loader message, and a decoded image is queued. |
| Atlas.Atlas.LoadImage | src/atlas_v2.rs:518-537 | The request is always queued; there is no cache fast path. |
| Atlas.Atlas.ImageRenderData | src/atlas_v2.rs:543-550 | The loop over the pages computes `RenderDataFrom`. |
| Mouse.ButtonIndex | src/mouse.rs:37-43 | Every button has a position in the derived order below 259, and `ButtonAt` maps it back. |
| Mouse.HookFor | src/mouse.rs:104-120 | Defines the hook type each registration becomes; `WhilePressed` becomes `OnHold` with its period. |
| Mouse.Registered | src/mouse.rs:104-120 | Defines the hooks the registration drain pushes. `RegisteredInOrder` gives its meaning. |
| Mouse.RegisteredInOrder | src/mouse.rs:104-120 | The registration drain gives one hook per registration, in queue order, with its id. |
| Mouse.FindHook | src/mouse.rs:157-163 | The index of the first hook with that id, or `None` when no hook has it. |
| Mouse.FindHookAt | src/mouse.rs:158-162 | The first index holding the id is the one found. |
| Mouse.SwapRemove | src/mouse.rs:164 | Defines `Vec::swap_remove`. `SwapRemoveSpec` gives its meaning. |
| Mouse.RemoveHook | src/mouse.rs:156-167 | Defines `DeleteHook`: swap-remove the first hook with the id, or change nothing. `RemoveHookSpec` gives its meaning. |
| Mouse.SwapRemoveSpec | src/mouse.rs:164 | `swap_remove` shortens by one and puts the last element in the slot. Other slots are unchanged, and one occurrence of the removed element is gone. |
| Mouse.RemoveHookSpec | src/mouse.rs:156-167 | `DeleteHook` swap-removes the first hook with the id. An unknown id leaves the hooks unchanged. |
| Mouse.Step | src/mouse.rs:130-168 | Defines one event of the drain: press and release record the new event and add an absent button, `Position` and `Delta` set `moved`, deltas and scroll are summed, and `DeleteHook` removes a hook. |
| Mouse.Fold | src/mouse.rs:129-170 | Defines the drain: `Step` over the events in queue order, from an empty batch. The `Fold*` lemmas give its meaning. |
| Mouse.FoldNewEvents | src/mouse.rs:131-136 | After a drain, `new_events[b]` is present exactly for buttons pressed or released in it, and records whether the last such event was a press. |
| Mouse.FoldPressed | src/mouse.rs:131-136 | The drain never alters an entry of `pressed`. It adds one only for an absent button: `false` at a first press, `true` at a first release. |
| Mouse.FoldPosition | src/mouse.rs:139-142 | `Position` overwrites `mouse_at`; after a drain it is the last one, or unchanged. |
| Mouse.FoldSums | src/mouse.rs:143-148 | Deltas and scroll amounts are summed. |
| Mouse.FoldMoved | src/mouse.rs:139-146 | `moved` holds exactly when a `Position` or `Delta` arrived. |
| Mouse.FoldHooks | src/mouse.rs:129-170 | Without `DeleteHook` events the hooks are unchanged. |
| Mouse.PressReleaseUnseen | src/mouse.rs:131-190 | A press then a release of an unseen button in one drain leaves its state `false` and its new event `false`, so the dispatch fires nothing for it. |
| Mouse.Fire | src/mouse.rs:173-177 | Defines a hook walk: the hooks in list order, one call for each selected hook. `FireInHookOrder` gives its meaning. |
| Mouse.SelectedSpec | src/mouse.rs:202-232 | The selected hook indices are in range, ascending and complete. |
| Mouse.FireSelected | src/mouse.rs:202-232 | The k-th call of a hook walk is made for the k-th selected hook. |
| Mouse.FireInHookOrder | src/mouse.rs:173-177 | A hook walk calls exactly the selected hooks, once each, in hook-list order. |
| Mouse.ButtonCalls | src/mouse.rs:189-270 | Defines the branch for one button. A new event that differs from the state fires the press or release hooks and becomes the state. With no new event, a held button fires its due hold hooks. `ButtonCallsSpec` gives its meaning. |
| Mouse.ButtonCallsSpec | src/mouse.rs:188-243 | The state takes the new event. An equal event fires nothing. false to true calls exactly the button's `OnPress` hooks and all `OnAnyPress` hooks, in hook order. true to false calls exactly the button's `OnRelease` hooks. |
| Mouse.DispatchButtons | src/mouse.rs:188-272 | Defines the walk over `pressed` in ascending button order, up to position `n`. `DispatchButtonsFrame` gives its meaning. |
| Mouse.MoveCalls | src/mouse.rs:172-177 | Defines the move calls: the `OnMove` hooks fire only when `moved` is set. |
| Mouse.ScrollCalls | src/mouse.rs:179-186 | Defines the scroll calls: the `OnScroll` hooks fire only when the summed scroll is nonzero. |
| Mouse.Dispatch | src/mouse.rs:172-272 | Defines the dispatch: move calls, then scroll calls, then the button walk, with `pressed` updated by the walk. |
| Mouse.Cycle | src/mouse.rs:103-272 | Defines one pass of the worker loop: append the registered hooks, drain the events, then dispatch. |
| Mouse.DispatchButtonsFrame | src/mouse.rs:188-272 | During the walk, buttons already visited hold their new event (or old state). Later buttons are untouched, and no key is added. |
| Mouse.DispatchPressed | src/mouse.rs:188-243 | After the dispatch, each button's state is its new event if any, else its old state. No entry is added. |
| Mouse.CycleMotionCalls | src/mouse.rs:172-186 | Move hooks fire only if a `Position` or `Delta` arrived, with the summed deltas and the last position. Scroll hooks fire only if the summed scroll is nonzero, with that sum. |
| Mouse.MoveCallsAll | src/mouse.rs:172-177 | When a `Position` or `Delta` arrived, the move calls are exactly one per `OnMove` hook, in hook-list order, each with the hook's id, the summed deltas and the last position. |
| Mouse.ScrollCallsAll | src/mouse.rs:179-186 | When the summed scroll is nonzero, the scroll calls are exactly one per `OnScroll` hook, in hook-list order, each with the hook's id, the position and the summed scroll. |
| Mouse.Mouse.constructor | src/mouse.rs:282-286 | Counter 0, queues empty. |
| Mouse.Mouse.NextHookId | src/mouse.rs:312-317 | Returns the counter and advances it by one. |
| Mouse.Mouse.Register | src/mouse.rs:323-327 | Returns the fresh id and queues the registration under it. Queued ids stay strictly ascending and below the counter. |
| Mouse.Mouse.OnMove | src/mouse.rs:323-327 | Returns the id it queues `OnMove` under, which is the old counter. |
| Mouse.Mouse.OnAnyPress | src/mouse.rs:329-333 | The same, for `OnAnyPress`. |
| Mouse.Mouse.OnPress | src/mouse.rs:335-339 | The same, for `OnPress(button)`. |
| Mouse.Mouse.WhilePressed | src/mouse.rs:341-345 | The same, for `WhilePressed(button, every)`. |
| Mouse.Mouse.OnRelease | src/mouse.rs:347-351 | The same, for `OnRelease(button)`. |
| Mouse.Mouse.OnScroll | src/mouse.rs:353-357 | The same, for `OnScroll`. |
| Mouse.Mouse.PushEvent | src/mouse.rs:298-321 | `delete_hook` and each event sender append exactly one event to the queue. |
| Mouse.MouseWorker.constructor | src/mouse.rs:96-101 | No hooks, no pressed buttons, position, world point and normal all zero. |
| Mouse.MouseWorker.AddHooks | src/mouse.rs:104-120 | The registration drain appends `Registered(adds)` and leaves the existing hooks in place. |
| Mouse.MouseWorker.FindHookIndex | src/mouse.rs:157-163 | The search loop computes `FindHook`. |
| Mouse.MouseWorker.DrainEvent | src/mouse.rs:130-168 | One event computes `Step`. |
| Mouse.MouseWorker.DrainEvents | src/mouse.rs:129-170 | The drain loop computes `Fold`. |
| Mouse.MouseWorker.FireHooks | src/mouse.rs:173-177 | The hook walk computes `Fire`. |
| Mouse.MouseWorker.MotionCalls | src/mouse.rs:172-186 | The move and scroll walks compute `MoveCalls` followed by `ScrollCalls`. |
| Mouse.MouseWorker.HandleButton | src/mouse.rs:189-270 | One button's branch computes `ButtonCalls`. |
| Mouse.MouseWorker.DispatchBatch | src/mouse.rs:172-272 | The dispatch computes `Dispatch`: move calls, scroll calls, then the buttons in ascending order. |
| Mouse.MouseWorker.RunCycle | src/mouse.rs:103-272 | One pass of the worker loop computes `Cycle`. |

## Left out

- Threads and their synchronisation are not modelled: the upload worker and the mouse worker threads, the channels and `MsQueue`, `Mutex`, `Barrier`, and the 10 ms and 5 ms sleeps. Each model takes one drain cycle with the queued items given as a sequence.
- `ImageLoad::wait` and `on_ready` are not modelled, nor the shared result slot of a request. A step's result is returned instead.
- `delay_test` is not modelled, because it only times a barrier round trip.
- GPU objects are not modelled: `create_sampler`'s device sampler, `Image::update`, the backing images, and the `AtomicBool` pushed by `Image::image_render_data`. A sampler is its description, and the render data returns a generation index instead of a `TmpImageViewAccess`.
- Loader I/O and decoding (`zhttp`, `File`, `image::guess_format`, `load_from_memory`) are parameters. Each loader receives the outcome, either a decoded image or a failure whose message the model formats.
- The JPEG gamma curve (`powf(..., 2.4)`) is not modelled, because it is floating point. The decoded pixels are taken as given.
- Atlas.Atlas.UploadOne: a page is held as a value in the atlas's map, which owns it. The worker step uses `Scan` and `Stamp`, the functions that `Image.SpaceFor` and `Image.InsertSubImage` are proved to compute, rather than calling those methods on page objects.
- Atlas.Atlas.constructor: requires `max_image_dimension_2d >= 34`. On a device whose pages have no units, the scan accepts `(0, 0)` for a positive-size request, and `insert_sub_image` then indexes the empty grid and panics.
- Atlas.Atlas.ChoosePage: walks the page ids below the counter, while the source walks the map's keys (`src/atlas_v2.rs:313`). The two agree whenever page ids are exactly those below the counter, which every worker step keeps (`UploadCounter`).
- Atlas.Atlas.ImageRenderData: walks the page ids below the counter. This equals the source's walk over the map's values whenever page ids are exactly those below the counter, which every worker step keeps.
- `ceil(w / 32)` is `f32` arithmetic in the source. The model uses integer ceiling division, which agrees on every width below 2^24. The same holds for the `f32` floor of `max / 34` in `Image::new` (`src/atlas_v2.rs:140`) and for `(max_x as f32 * 34.0).ceil()` in `minimum_size` (`src/atlas_v2.rs:230-231`): both are exact for any realistic device limit.
- `Coords.x` and `Coords.y` wrap at 2^32 (`Wrap32`), as release-mode `u32` arithmetic does.
- Ids (`u64`) and the hook counter are unbounded integers, so 64-bit wrap-around is not modelled.
- Mouse.MouseWorker.DispatchBatch: when a `WhilePressed` hook fires depends on `Instant` and is taken as the parameter `due`. The resets of each hold hook's `last` instant on press and on firing are dropped, and a hold call carries no elapsed milliseconds.
- Mouse positions, deltas, scroll amounts and world coordinates are integers rather than `f32`.
- The `println!` on an unknown hook id is not modelled; the hooks are unchanged in that case.
- `Barrier` events are only counted, and the barriers are not waited on.
- The `HashMap` and `BTreeMap` versions of each helper have the same body, so they are modelled once, over Dafny's `map`. The returned `&mut V` becomes the returned map and value.
- `src/lib.rs`, `src/input.rs` and `src/interface/` are not part of this model.

## Findings

| source | as written | input that shows it | evidently intended | confidence | as-written member | corrected member |
|---|---|---|---|---|---|---|
| src/atlas_v2.rs:183-188 | the scan moves on when a footprint cell is on the grid and free, so it accepts only origins whose footprint is off-grid or occupied | a 40 x 40 request on a fresh atlas with a 68-pixel or larger device limit | accept an origin whose whole footprint is on the grid and free | high, not executed | Atlas.FortyByFortyFails | AtlasPage.ScanIntendedFindsFreeRegion |
| src/atlas_v2.rs:222-223 | `max_y` is compared with the column index `j` but set to the row index `i` | a 6 x 6 grid whose only occupied cell is row 0, column 5: second component 0 | set `max_y = j`, giving the largest occupied column (5 in that grid) | high, not executed | AtlasPage.MinimumSizeMissesColumn | AtlasPage.MinimumSizeIntended |
