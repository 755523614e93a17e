/**
 * The mouse hook registry and the worker loop body of src/mouse.rs.
 *
 * `Mouse` is the facade callers hold: it hands out hook ids and queues
 * registrations and events. `MouseWorker` is the state the worker thread
 * keeps between cycles. One cycle of the worker loop drains the queued
 * registrations, then the queued events, then dispatches the hooks. The
 * queues of one cycle come in as sequences. The callbacks are not called:
 * each call is appended to a trace of `Call` values, in the order the loop
 * would make it. Window coordinates, deltas and scroll amounts (`f32` in
 * the source) are integers.
 */
module Mouse {
  import opened Wrappers
  import MapExtras

  type u8 = x: nat | x < 0x100

  datatype Button = Left | Right | Middle | Other(v: u8)

  /** Number of distinct buttons: three named ones and 256 `Other` ones. */
  const BUTTON_COUNT: nat := 259

  /**
   * The button at position `k` of the derived `Ord` of `Button`: variants
   * in declaration order, `Other` ordered by its byte.
   */
  function ButtonAt(k: nat): Button
    requires k < BUTTON_COUNT
  {
    if k == 0 then Left else if k == 1 then Right else if k == 2 then Middle else Other(k - 3)
  }

  /** The position of `b` in that order; every button has one, so visiting the positions in order visits every button once, in ascending order. */
  function ButtonIndex(b: Button): (k: nat)
    ensures k < BUTTON_COUNT && ButtonAt(k) == b
  {
    match b
    case Left => 0
    case Right => 1
    case Middle => 2
    case Other(v) => 3 + v
  }

  datatype Event =
    | Press(button: Button)
    | Release(button: Button)
    | Barrier
    | Position(x: int, y: int)
    | Delta(dx: int, dy: int)
    | Scroll(amt: int)
    | CenterWorldPos(wx: int, wy: int, wz: int, nx: int, ny: int, nz: int)
    | DeleteHook(hookId: nat)

  /** A queued registration; the callback itself is represented by the hook id alone. */
  datatype AddFunc =
    | AddOnMove
    | AddOnPress(button: Button)
    | AddWhilePressed(button: Button, every: nat)
    | AddOnRelease(button: Button)
    | AddOnScroll
    | AddOnAnyPress

  datatype HookTy =
    | OnMove
    | OnPress(button: Button)
    | OnHold(button: Button, every: nat)
    | OnRelease(button: Button)
    | OnScroll
    | OnAnyPress

  datatype Hook = Hook(id: nat, ty: HookTy)

  datatype PressInfo = PressInfo(button: Button, window: (int, int), world: (int, int, int), normal: (int, int, int))

  /** One callback invocation, with the arguments it receives. */
  datatype Call =
    | Moved(hook: nat, dx: int, dy: int, x: int, y: int)
    | Pressed(hook: nat, info: PressInfo)
    | Held(hook: nat, info: PressInfo)
    | Released(hook: nat)
    | Scrolled(hook: nat, x: int, y: int, amt: int)

  /** What the worker thread keeps from one cycle to the next. */
  datatype WorkerState = WorkerState(
    hooks: seq<Hook>,
    pressed: map<Button, bool>,
    mouseAt: (int, int),
    worldPos: (int, int, int),
    normal: (int, int, int))

  /** What one event drain gathers for the dispatch that follows it. */
  datatype Batch = Batch(
    newEvents: map<Button, bool>,
    deltaX: int,
    deltaY: int,
    barriers: nat,
    moved: bool,
    scrollAmt: int)

  const EMPTY_BATCH: Batch := Batch(map[], 0, 0, 0, false, 0)

  // ---------------------------------------------------------------------
  // Registration
  // ---------------------------------------------------------------------

  /** The hook a registration becomes (`WhilePressed` becomes `OnHold`). */
  function HookFor(f: AddFunc): HookTy
  {
    match f
    case AddOnMove => OnMove
    case AddOnPress(b) => OnPress(b)
    case AddWhilePressed(b, every) => OnHold(b, every)
    case AddOnRelease(b) => OnRelease(b)
    case AddOnScroll => OnScroll
    case AddOnAnyPress => OnAnyPress
  }

  /** The hooks pushed by draining `adds`. */
  function Registered(adds: seq<(nat, AddFunc)>): seq<Hook>
  {
    if adds == [] then []
    else Registered(adds[..|adds| - 1]) + [Hook(adds[|adds| - 1].0, HookFor(adds[|adds| - 1].1))]
  }

  /** Draining registrations yields one hook per registration, in queue order, with the registration's id. */
  lemma {:induction false} RegisteredInOrder(adds: seq<(nat, AddFunc)>)
    ensures |Registered(adds)| == |adds|
    ensures forall k :: 0 <= k < |adds| ==> Registered(adds)[k] == Hook(adds[k].0, HookFor(adds[k].1))
  {
    if adds != [] {
      RegisteredInOrder(adds[..|adds| - 1]);
    }
  }

  // ---------------------------------------------------------------------
  // Hook removal
  // ---------------------------------------------------------------------

  /** Index of the first hook with id `id`. */
  function FindHook(hooks: seq<Hook>, id: nat): (r: Option<nat>)
    ensures r.Some? ==> r.value < |hooks| && hooks[r.value].id == id
    ensures r.Some? ==> forall k :: 0 <= k < r.value ==> hooks[k].id != id
    ensures r.None? ==> forall k :: 0 <= k < |hooks| ==> hooks[k].id != id
  {
    if hooks == [] then None
    else if hooks[0].id == id then Some(0)
    else
      match FindHook(hooks[1..], id)
      case None => None
      case Some(k) => Some(k + 1)
  }

  /** `FindHook` returns the first index holding the id. */
  lemma {:induction false} FindHookAt(hooks: seq<Hook>, id: nat, i: nat)
    requires i < |hooks| && hooks[i].id == id
    requires forall k :: 0 <= k < i ==> hooks[k].id != id
    ensures FindHook(hooks, id) == Some(i)
  {
    if i > 0 {
      FindHookAt(hooks[1..], id, i - 1);
    }
  }

  /** `Vec::swap_remove`: the last element takes the place of the removed one. */
  function SwapRemove<T>(s: seq<T>, i: nat): (r: seq<T>)
    requires i < |s|
  {
    s[i := s[|s| - 1]][..|s| - 1]
  }

  /**
   * After `swap_remove(i)` the sequence is one shorter, the last element
   * sits in slot `i` (unless it was the one removed), every other slot is
   * as it was, and exactly one occurrence of the removed element is gone.
   */
  lemma SwapRemoveSpec<T>(s: seq<T>, i: nat)
    requires i < |s|
    ensures var r := SwapRemove(s, i);
      && |r| == |s| - 1
      && (i < |s| - 1 ==> r[i] == s[|s| - 1])
      && (forall k :: 0 <= k < |r| && k != i ==> r[k] == s[k])
      && multiset(r) == multiset(s) - multiset{s[i]}
  {
    var r := SwapRemove(s, i);
    var n := |s| - 1;
    if i < n {
      assert s == s[..i] + [s[i]] + s[i + 1..n] + [s[n]];
      assert r == s[..i] + [s[n]] + s[i + 1..n];
    } else {
      assert s == r + [s[i]];
    }
  }

  /** `DeleteHook(id)`: the first hook with that id is swap-removed; an unknown id changes nothing. */
  function RemoveHook(hooks: seq<Hook>, id: nat): seq<Hook>
  {
    match FindHook(hooks, id)
    case None => hooks
    case Some(i) => SwapRemove(hooks, i)
  }

  /**
   * Deleting a registered id removes exactly one hook: the first with that
   * id, whose slot the last hook takes; deleting an unknown id leaves the
   * hooks as they were.
   */
  lemma RemoveHookSpec(hooks: seq<Hook>, id: nat)
    ensures var r := RemoveHook(hooks, id);
      && ((forall k :: 0 <= k < |hooks| ==> hooks[k].id != id) ==> r == hooks)
      && ((exists k :: 0 <= k < |hooks| && hooks[k].id == id) ==>
            exists i :: 0 <= i < |hooks| && hooks[i].id == id
              && (forall k :: 0 <= k < i ==> hooks[k].id != id)
              && |r| == |hooks| - 1
              && (i < |hooks| - 1 ==> r[i] == hooks[|hooks| - 1])
              && (forall k :: 0 <= k < |r| && k != i ==> r[k] == hooks[k])
              && multiset(r) == multiset(hooks) - multiset{hooks[i]})
  {
    match FindHook(hooks, id)
    case None =>
    case Some(i) =>
      SwapRemoveSpec(hooks, i);
  }

  // ---------------------------------------------------------------------
  // The event drain
  // ---------------------------------------------------------------------

  /** One event of the drain (mouse.rs:130-168). */
  function Step(st: WorkerState, b: Batch, e: Event): (WorkerState, Batch)
  {
    match e
    case Press(btn) =>
      (st.(pressed := if btn in st.pressed then st.pressed else st.pressed[btn := false]),
       b.(newEvents := b.newEvents[btn := true]))
    case Release(btn) =>
      (st.(pressed := if btn in st.pressed then st.pressed else st.pressed[btn := true]),
       b.(newEvents := b.newEvents[btn := false]))
    case Barrier => (st, b.(barriers := b.barriers + 1))
    case Position(x, y) => (st.(mouseAt := (x, y)), b.(moved := true))
    case Delta(dx, dy) => (st, b.(deltaX := b.deltaX + dx, deltaY := b.deltaY + dy, moved := true))
    case Scroll(amt) => (st, b.(scrollAmt := b.scrollAmt + amt))
    case CenterWorldPos(wx, wy, wz, nx, ny, nz) => (st.(worldPos := (wx, wy, wz), normal := (nx, ny, nz)), b)
    case DeleteHook(id) => (st.(hooks := RemoveHook(st.hooks, id)), b)
  }

  /** The drain of `events` in queue order, from an empty batch. */
  function Fold(st: WorkerState, events: seq<Event>): (WorkerState, Batch)
  {
    if events == [] then (st, EMPTY_BATCH)
    else
      var (st1, b1) := Fold(st, events[..|events| - 1]);
      Step(st1, b1, events[|events| - 1])
  }

  /** Whether `e` presses (`Some(true)`) or releases (`Some(false)`) button `b`. */
  function PressOf(e: Event, b: Button): Option<bool>
  {
    match e
    case Press(btn) => if btn == b then Some(true) else None
    case Release(btn) => if btn == b then Some(false) else None
    case _ => None
  }

  /** The last press or release of `b` in `events`. */
  function LastPress(events: seq<Event>, b: Button): Option<bool>
  {
    if events == [] then None
    else if PressOf(events[|events| - 1], b).Some? then PressOf(events[|events| - 1], b)
    else LastPress(events[..|events| - 1], b)
  }

  /** The first press or release of `b` in `events`. */
  function FirstPress(events: seq<Event>, b: Button): Option<bool>
  {
    if events == [] then None
    else if FirstPress(events[..|events| - 1], b).Some? then FirstPress(events[..|events| - 1], b)
    else PressOf(events[|events| - 1], b)
  }

  /** The last `Position` in `events`. */
  function LastPosition(events: seq<Event>): Option<(int, int)>
  {
    if events == [] then None
    else if events[|events| - 1].Position? then Some((events[|events| - 1].x, events[|events| - 1].y))
    else LastPosition(events[..|events| - 1])
  }

  /** The sum of the `Delta` events' components and of the `Scroll` amounts. */
  function Sums(events: seq<Event>): (int, int, int)
  {
    if events == [] then (0, 0, 0)
    else
      var s := Sums(events[..|events| - 1]);
      match events[|events| - 1]
      case Delta(dx, dy) => (s.0 + dx, s.1 + dy, s.2)
      case Scroll(amt) => (s.0, s.1, s.2 + amt)
      case _ => s
  }

  predicate Moves(e: Event)
  {
    e.Position? || e.Delta?
  }

  /**
   * After a drain, `new_events` holds, for each button pressed or released
   * in it, whether its last such event was a press; no other button.
   */
  lemma {:induction false} FoldNewEvents(st: WorkerState, events: seq<Event>)
    ensures forall b :: b in Fold(st, events).1.newEvents <==> LastPress(events, b).Some?
    ensures forall b :: b in Fold(st, events).1.newEvents ==> Fold(st, events).1.newEvents[b] == LastPress(events, b).value
  {
    if events != [] {
      FoldNewEvents(st, events[..|events| - 1]);
    }
  }

  /**
   * A drain never alters an entry of `pressed`; it adds one for a button
   * it did not hold, at the button's first press (`false`) or release
   * (`true`) in the drain.
   */
  lemma {:induction false} FoldPressed(st: WorkerState, events: seq<Event>)
    ensures var p := Fold(st, events).0.pressed;
      && (forall b :: b in p <==> b in st.pressed || FirstPress(events, b).Some?)
      && (forall b :: b in st.pressed ==> p[b] == st.pressed[b])
      && (forall b :: b !in st.pressed && FirstPress(events, b).Some? ==> p[b] == !FirstPress(events, b).value)
  {
    if events != [] {
      FoldPressed(st, events[..|events| - 1]);
    }
  }

  /** `Position` overwrites the mouse position: after a drain it is the last one, or the old one if none arrived. */
  lemma {:induction false} FoldPosition(st: WorkerState, events: seq<Event>)
    ensures Fold(st, events).0.mouseAt == if LastPosition(events).Some? then LastPosition(events).value else st.mouseAt
  {
    if events != [] {
      FoldPosition(st, events[..|events| - 1]);
    }
  }

  /** `Delta` components and `Scroll` amounts are summed over the drain. */
  lemma {:induction false} FoldSums(st: WorkerState, events: seq<Event>)
    ensures var b := Fold(st, events).1; (b.deltaX, b.deltaY, b.scrollAmt) == Sums(events)
  {
    if events != [] {
      FoldSums(st, events[..|events| - 1]);
    }
  }

  /** `moved` is set exactly when a `Position` or `Delta` arrived. */
  lemma {:induction false} FoldMoved(st: WorkerState, events: seq<Event>)
    ensures Fold(st, events).1.moved <==> exists k :: 0 <= k < |events| && Moves(events[k])
  {
    if events != [] {
      var prefix := events[..|events| - 1];
      FoldMoved(st, prefix);
      if exists k :: 0 <= k < |prefix| && Moves(prefix[k]) {
        var k :| 0 <= k < |prefix| && Moves(prefix[k]);
        assert Moves(events[k]);
      }
      if exists k :: 0 <= k < |events| && Moves(events[k]) {
        var k :| 0 <= k < |events| && Moves(events[k]);
        if k < |prefix| {
          assert Moves(prefix[k]);
        }
      }
    }
  }

  /** A drain without `DeleteHook` events leaves the hook list as it was. */
  lemma {:induction false} FoldHooks(st: WorkerState, events: seq<Event>)
    requires forall k :: 0 <= k < |events| ==> !events[k].DeleteHook?
    ensures Fold(st, events).0.hooks == st.hooks
  {
    if events != [] {
      FoldHooks(st, events[..|events| - 1]);
    }
  }

  /**
   * A press then a release of a button the worker has not seen, in one
   * drain: the button gets the entry `false` and its new event is
   * `false`, so the dispatch leaves it alone and fires nothing for it.
   */
  lemma PressReleaseUnseen(st: WorkerState, b: Button, due: set<nat>)
    requires b !in st.pressed
    ensures var (st', batch) := Fold(st, [Press(b), Release(b)]);
      && st'.pressed == st.pressed[b := false]
      && batch.newEvents == map[b := false]
      && ButtonCalls(st', b, false, Some(false), due) == (false, [])
  {
    assert [Press(b), Release(b)][..1] == [Press(b)];
    assert [Press(b)][..0] == [];
    assert Fold(st, [Press(b)][..0]) == (st, EMPTY_BATCH);
    assert Fold(st, [Press(b)]) == Step(st, EMPTY_BATCH, Press(b));
    var (st1, b1) := Fold(st, [Press(b)]);
    assert Fold(st, [Press(b), Release(b)]) == Step(st1, b1, Release(b));
    assert st1.pressed == st.pressed[b := false] && b1.newEvents == map[b := true];
    assert b1.newEvents[b := false] == map[b := false];
  }

  // ---------------------------------------------------------------------
  // Dispatch
  // ---------------------------------------------------------------------

  /** The calls made by walking `hooks` in order and calling each selected hook. */
  function Fire(hooks: seq<Hook>, sel: Hook -> bool, mk: nat -> Call): seq<Call>
  {
    if hooks == [] then []
    else Fire(hooks[..|hooks| - 1], sel, mk) + (if sel(hooks[|hooks| - 1]) then [mk(hooks[|hooks| - 1].id)] else [])
  }

  /** The indices of the selected hooks, ascending. */
  function Selected(hooks: seq<Hook>, sel: Hook -> bool): seq<nat>
  {
    if hooks == [] then []
    else Selected(hooks[..|hooks| - 1], sel) + (if sel(hooks[|hooks| - 1]) then [|hooks| - 1] else [])
  }

  /** The selected indices lie in range, pick selected hooks, strictly increase, and miss no selected hook. */
  lemma {:induction false} SelectedSpec(hooks: seq<Hook>, sel: Hook -> bool)
    ensures var idx := Selected(hooks, sel);
      && (forall k :: 0 <= k < |idx| ==> idx[k] < |hooks| && sel(hooks[idx[k]]))
      && (forall k, l :: 0 <= k < l < |idx| ==> idx[k] < idx[l])
      && (forall i :: 0 <= i < |hooks| && sel(hooks[i]) ==> i in idx)
  {
    if hooks != [] {
      var prefix := hooks[..|hooks| - 1];
      SelectedSpec(prefix, sel);
      forall i | 0 <= i < |prefix| ensures prefix[i] == hooks[i] {}
    }
  }

  /** The k-th call of a hook walk is made for the k-th selected hook. */
  lemma {:induction false} FireSelected(hooks: seq<Hook>, sel: Hook -> bool, mk: nat -> Call)
    ensures var idx := Selected(hooks, sel);
      && |Fire(hooks, sel, mk)| == |idx|
      && forall k :: 0 <= k < |idx| ==> idx[k] < |hooks| && Fire(hooks, sel, mk)[k] == mk(hooks[idx[k]].id)
  {
    if hooks != [] {
      var prefix := hooks[..|hooks| - 1];
      FireSelected(prefix, sel, mk);
      forall i | 0 <= i < |prefix| ensures prefix[i] == hooks[i] {}
    }
  }

  /**
   * A hook walk calls exactly the selected hooks, each once, in hook-list
   * order: the k-th call is made for the k-th selected index, the indices
   * strictly increase, and every selected hook is among them.
   */
  lemma FireInHookOrder(hooks: seq<Hook>, sel: Hook -> bool, mk: nat -> Call)
    ensures var idx := Selected(hooks, sel);
      && |Fire(hooks, sel, mk)| == |idx|
      && (forall k :: 0 <= k < |idx| ==> idx[k] < |hooks| && sel(hooks[idx[k]]) && Fire(hooks, sel, mk)[k] == mk(hooks[idx[k]].id))
      && (forall k, l :: 0 <= k < l < |idx| ==> idx[k] < idx[l])
      && (forall i :: 0 <= i < |hooks| && sel(hooks[i]) ==> i in idx)
  {
    SelectedSpec(hooks, sel);
    FireSelected(hooks, sel, mk);
  }

  function Info(st: WorkerState, b: Button): PressInfo
  {
    PressInfo(b, st.mouseAt, st.worldPos, st.normal)
  }

  /** Hooks fired when `b` goes down: its `OnPress` hooks and every `OnAnyPress` hook. */
  function PressHooks(b: Button): Hook -> bool
  {
    (h: Hook) => h.ty == OnPress(b) || h.ty == OnAnyPress
  }

  /** Hooks fired when `b` goes up. */
  function ReleaseHooks(b: Button): Hook -> bool
  {
    (h: Hook) => h.ty.OnRelease? && h.ty.button == b
  }

  /** `OnHold` hooks of `b` whose period has elapsed (`due`). */
  function HoldHooks(b: Button, due: set<nat>): Hook -> bool
  {
    (h: Hook) => h.ty.OnHold? && h.ty.button == b && h.id in due
  }

  /**
   * The dispatch rule for one button (mouse.rs:189-270): with a new event
   * that differs from the state, the state takes it and the press or
   * release hooks fire; with none, a held button fires its due hold hooks.
   */
  function ButtonCalls(st: WorkerState, b: Button, state: bool, newEvent: Option<bool>, due: set<nat>): (bool, seq<Call>)
  {
    match newEvent
    case Some(n) =>
      if state == n then (state, [])
      else if n then (n, Fire(st.hooks, PressHooks(b), (id: nat) => Pressed(id, Info(st, b))))
      else (n, Fire(st.hooks, ReleaseHooks(b), (id: nat) => Released(id)))
    case None =>
      (state, if state then Fire(st.hooks, HoldHooks(b, due), (id: nat) => Held(id, Info(st, b))) else [])
  }

  /**
   * The dispatch rule in terms of the hooks it calls: the state becomes the
   * new event when there is one; an equal new event, or a released button
   * with none, fires nothing; a press calls, in hook-list order, exactly the
   * button's `OnPress` hooks and the `OnAnyPress` hooks, and a release
   * exactly the button's `OnRelease` hooks.
   */
  lemma ButtonCallsSpec(st: WorkerState, b: Button, state: bool, newEvent: Option<bool>, due: set<nat>)
    ensures var (s, calls) := ButtonCalls(st, b, state, newEvent, due);
      && s == (if newEvent.Some? then newEvent.value else state)
      && (newEvent == Some(state) ==> calls == [])
      && (newEvent.None? && !state ==> calls == [])
      && (newEvent == Some(true) && !state ==>
            var idx := Selected(st.hooks, PressHooks(b));
            && |calls| == |idx|
            && (forall k :: 0 <= k < |idx| ==>
                  && idx[k] < |st.hooks|
                  && st.hooks[idx[k]].ty in {OnPress(b), OnAnyPress}
                  && calls[k] == Pressed(st.hooks[idx[k]].id, Info(st, b)))
            && (forall k, l :: 0 <= k < l < |idx| ==> idx[k] < idx[l])
            && (forall i :: 0 <= i < |st.hooks| && st.hooks[i].ty in {OnPress(b), OnAnyPress} ==> i in idx))
      && (newEvent == Some(false) && state ==>
            var idx := Selected(st.hooks, ReleaseHooks(b));
            && |calls| == |idx|
            && (forall k :: 0 <= k < |idx| ==>
                  && idx[k] < |st.hooks|
                  && st.hooks[idx[k]].ty == OnRelease(b)
                  && calls[k] == Released(st.hooks[idx[k]].id))
            && (forall k, l :: 0 <= k < l < |idx| ==> idx[k] < idx[l])
            && (forall i :: 0 <= i < |st.hooks| && st.hooks[i].ty == OnRelease(b) ==> i in idx))
  {
    FireInHookOrder(st.hooks, PressHooks(b), (id: nat) => Pressed(id, Info(st, b)));
    FireInHookOrder(st.hooks, ReleaseHooks(b), (id: nat) => Released(id));
  }

  function Get(m: map<Button, bool>, b: Button): Option<bool>
  {
    if b in m then Some(m[b]) else None
  }

  /** The walk over `pressed` in ascending button order, up to position `n`. */
  function DispatchButtons(st: WorkerState, batch: Batch, due: set<nat>, n: nat): (map<Button, bool>, seq<Call>)
    requires n <= BUTTON_COUNT
  {
    if n == 0 then (st.pressed, [])
    else
      var (p, t) := DispatchButtons(st, batch, due, n - 1);
      var b := ButtonAt(n - 1);
      if b in p then
        var (state, calls) := ButtonCalls(st, b, p[b], Get(batch.newEvents, b), due);
        (p[b := state], t + calls)
      else (p, t)
  }

  predicate IsMoveHook(h: Hook)
  {
    h.ty == OnMove
  }

  predicate IsScrollHook(h: Hook)
  {
    h.ty == OnScroll
  }

  function MoveCalls(st: WorkerState, batch: Batch): seq<Call>
  {
    if batch.moved then Fire(st.hooks, IsMoveHook, (id: nat) => Moved(id, batch.deltaX, batch.deltaY, st.mouseAt.0, st.mouseAt.1))
    else []
  }

  function ScrollCalls(st: WorkerState, batch: Batch): seq<Call>
  {
    if batch.scrollAmt != 0 then Fire(st.hooks, IsScrollHook, (id: nat) => Scrolled(id, st.mouseAt.0, st.mouseAt.1, batch.scrollAmt))
    else []
  }

  /** The dispatch after a drain (mouse.rs:172-272): move hooks, scroll hooks, then the buttons. */
  function Dispatch(st: WorkerState, batch: Batch, due: set<nat>): (WorkerState, seq<Call>)
  {
    var (p, t) := DispatchButtons(st, batch, due, BUTTON_COUNT);
    (st.(pressed := p), MoveCalls(st, batch) + ScrollCalls(st, batch) + t)
  }

  /** One pass of the worker loop: registrations, events, dispatch. */
  function Cycle(st: WorkerState, adds: seq<(nat, AddFunc)>, events: seq<Event>, due: set<nat>): (WorkerState, seq<Call>)
  {
    var (st1, batch) := Fold(st.(hooks := st.hooks + Registered(adds)), events);
    Dispatch(st1, batch, due)
  }

  /** The state of every button at or past position `n` is not yet touched by the walk. */
  lemma {:induction false} DispatchButtonsFrame(st: WorkerState, batch: Batch, due: set<nat>, n: nat)
    requires n <= BUTTON_COUNT
    ensures var p := DispatchButtons(st, batch, due, n).0;
      && p.Keys == st.pressed.Keys
      && (forall b :: b in p && ButtonIndex(b) < n ==> p[b] == if b in batch.newEvents then batch.newEvents[b] else st.pressed[b])
      && (forall b :: b in p && ButtonIndex(b) >= n ==> p[b] == st.pressed[b])
  {
    if n > 0 {
      DispatchButtonsFrame(st, batch, due, n - 1);
    }
  }

  /**
   * A button's state changes only to its new event, and only when it has
   * one: after the dispatch each entry of `pressed` is the button's new
   * event if there is one and its old state otherwise; no entry is added.
   */
  lemma DispatchPressed(st: WorkerState, batch: Batch, due: set<nat>)
    ensures var p := Dispatch(st, batch, due).0.pressed;
      && p.Keys == st.pressed.Keys
      && forall b :: b in p ==> p[b] == if b in batch.newEvents then batch.newEvents[b] else st.pressed[b]
  {
    DispatchButtonsFrame(st, batch, due, BUTTON_COUNT);
  }

  /** When a `Position` or `Delta` arrived, every move hook is called once, in hook-list order, with the summed deltas and the last position. */
  lemma MoveCallsAll(st: WorkerState, events: seq<Event>)
    ensures var (st1, batch) := Fold(st, events);
      (exists k :: 0 <= k < |events| && Moves(events[k])) ==>
        var idx := Selected(st1.hooks, IsMoveHook);
        && |MoveCalls(st1, batch)| == |idx|
        && (forall k :: 0 <= k < |idx| ==>
              && idx[k] < |st1.hooks|
              && st1.hooks[idx[k]].ty == OnMove
              && MoveCalls(st1, batch)[k] == Moved(st1.hooks[idx[k]].id, Sums(events).0, Sums(events).1, st1.mouseAt.0, st1.mouseAt.1))
        && (forall k, l :: 0 <= k < l < |idx| ==> idx[k] < idx[l])
        && (forall i :: 0 <= i < |st1.hooks| && st1.hooks[i].ty == OnMove ==> i in idx)
  {
    FoldSums(st, events);
    FoldMoved(st, events);
    var (st1, batch) := Fold(st, events);
    FireInHookOrder(st1.hooks, IsMoveHook, (id: nat) => Moved(id, batch.deltaX, batch.deltaY, st1.mouseAt.0, st1.mouseAt.1));
  }

  /** When the summed scroll is nonzero, every scroll hook is called once, in hook-list order, with that sum and the last position. */
  lemma ScrollCallsAll(st: WorkerState, events: seq<Event>)
    ensures var (st1, batch) := Fold(st, events);
      Sums(events).2 != 0 ==>
        var idx := Selected(st1.hooks, IsScrollHook);
        && |ScrollCalls(st1, batch)| == |idx|
        && (forall k :: 0 <= k < |idx| ==>
              && idx[k] < |st1.hooks|
              && st1.hooks[idx[k]].ty == OnScroll
              && ScrollCalls(st1, batch)[k] == Scrolled(st1.hooks[idx[k]].id, st1.mouseAt.0, st1.mouseAt.1, Sums(events).2))
        && (forall k, l :: 0 <= k < l < |idx| ==> idx[k] < idx[l])
        && (forall i :: 0 <= i < |st1.hooks| && st1.hooks[i].ty == OnScroll ==> i in idx)
  {
    FoldSums(st, events);
    var (st1, batch) := Fold(st, events);
    FireInHookOrder(st1.hooks, IsScrollHook, (id: nat) => Scrolled(id, st1.mouseAt.0, st1.mouseAt.1, batch.scrollAmt));
  }

  /**
   * Move hooks fire only when a `Position` or `Delta` arrived and scroll
   * hooks only when the summed scroll is nonzero; each fires with the
   * position the drain left and the summed amounts. (`MoveCallsAll` and
   * `ScrollCallsAll` give the converse.)
   */
  lemma CycleMotionCalls(st: WorkerState, events: seq<Event>, due: set<nat>)
    ensures var (st1, batch) := Fold(st, events);
      && (MoveCalls(st1, batch) != [] ==> exists k :: 0 <= k < |events| && Moves(events[k]))
      && (ScrollCalls(st1, batch) != [] ==> Sums(events).2 != 0)
      && (forall c :: c in MoveCalls(st1, batch) ==> c.Moved? && (c.dx, c.dy) == (Sums(events).0, Sums(events).1) && (c.x, c.y) == st1.mouseAt)
      && (forall c :: c in ScrollCalls(st1, batch) ==> c.Scrolled? && c.amt == Sums(events).2)
  {
    FoldSums(st, events);
    FoldMoved(st, events);
    var (st1, batch) := Fold(st, events);
    var mk := (id: nat) => Moved(id, batch.deltaX, batch.deltaY, st1.mouseAt.0, st1.mouseAt.1);
    var mks := (id: nat) => Scrolled(id, st1.mouseAt.0, st1.mouseAt.1, batch.scrollAmt);
    FireInHookOrder(st1.hooks, IsMoveHook, mk);
    FireInHookOrder(st1.hooks, IsScrollHook, mks);
  }

  // ---------------------------------------------------------------------
  // The facade
  // ---------------------------------------------------------------------

  /** `Mouse`: the hook-id counter and the two queues the worker drains. */
  class Mouse {
    var hookI: nat
    var eventQueue: seq<Event>
    var funcQueue: seq<(nat, AddFunc)>

    /** The queued registrations carry distinct ids, ascending, all below the counter. */
    ghost predicate Valid()
      reads this
    {
      && (forall k :: 0 <= k < |funcQueue| ==> funcQueue[k].0 < hookI)
      && (forall k, l :: 0 <= k < l < |funcQueue| ==> funcQueue[k].0 < funcQueue[l].0)
    }

    /** `Mouse::new`, without the worker thread. */
    constructor ()
      ensures Valid() && hookI == 0 && eventQueue == [] && funcQueue == []
    {
      hookI := 0;
      eventQueue := [];
      funcQueue := [];
    }

    /** `next_hook_id`: the counter's value, then the counter advanced by one. */
    method NextHookId() returns (id: nat)
      modifies this`hookI
      ensures id == old(hookI) && hookI == old(hookI) + 1
    {
      id := hookI;
      hookI := hookI + 1;
    }

    /** What every `on_*` method does: take a fresh id, queue the registration under it, return it. */
    method Register(f: AddFunc) returns (id: nat)
      requires Valid()
      modifies this`hookI, this`funcQueue
      ensures Valid()
      ensures id == old(hookI) && hookI == old(hookI) + 1
      ensures funcQueue == old(funcQueue) + [(id, f)]
      ensures forall k :: 0 <= k < |old(funcQueue)| ==> old(funcQueue)[k].0 < id
    {
      id := NextHookId();
      funcQueue := funcQueue + [(id, f)];
    }

    method OnMove() returns (id: nat)
      requires Valid()
      modifies this`hookI, this`funcQueue
      ensures Valid() && id == old(hookI) && hookI == old(hookI) + 1
      ensures funcQueue == old(funcQueue) + [(id, AddOnMove)]
    {
      id := Register(AddOnMove);
    }

    method OnAnyPress() returns (id: nat)
      requires Valid()
      modifies this`hookI, this`funcQueue
      ensures Valid() && id == old(hookI) && hookI == old(hookI) + 1
      ensures funcQueue == old(funcQueue) + [(id, AddOnAnyPress)]
    {
      id := Register(AddOnAnyPress);
    }

    method OnPress(button: Button) returns (id: nat)
      requires Valid()
      modifies this`hookI, this`funcQueue
      ensures Valid() && id == old(hookI) && hookI == old(hookI) + 1
      ensures funcQueue == old(funcQueue) + [(id, AddOnPress(button))]
    {
      id := Register(AddOnPress(button));
    }

    method WhilePressed(button: Button, every: nat) returns (id: nat)
      requires Valid()
      modifies this`hookI, this`funcQueue
      ensures Valid() && id == old(hookI) && hookI == old(hookI) + 1
      ensures funcQueue == old(funcQueue) + [(id, AddWhilePressed(button, every))]
    {
      id := Register(AddWhilePressed(button, every));
    }

    method OnRelease(button: Button) returns (id: nat)
      requires Valid()
      modifies this`hookI, this`funcQueue
      ensures Valid() && id == old(hookI) && hookI == old(hookI) + 1
      ensures funcQueue == old(funcQueue) + [(id, AddOnRelease(button))]
    {
      id := Register(AddOnRelease(button));
    }

    method OnScroll() returns (id: nat)
      requires Valid()
      modifies this`hookI, this`funcQueue
      ensures Valid() && id == old(hookI) && hookI == old(hookI) + 1
      ensures funcQueue == old(funcQueue) + [(id, AddOnScroll)]
    {
      id := Register(AddOnScroll);
    }

    /** `delete_hook` and the event senders: each queues one event. */
    method PushEvent(e: Event)
      modifies this`eventQueue
      ensures eventQueue == old(eventQueue) + [e]
    {
      eventQueue := eventQueue + [e];
    }
  }

  // ---------------------------------------------------------------------
  // The worker
  // ---------------------------------------------------------------------

  /** The worker thread's state: its hooks, the button states, the last position and world point. */
  class MouseWorker {
    var hooks: seq<Hook>
    var pressed: map<Button, bool>
    var mouseAt: (int, int)
    var worldPos: (int, int, int)
    var normal: (int, int, int)

    function State(): WorkerState
      reads this
    {
      WorkerState(hooks, pressed, mouseAt, worldPos, normal)
    }

    constructor ()
      ensures State() == WorkerState([], map[], (0, 0), (0, 0, 0), (0, 0, 0))
    {
      hooks := [];
      pressed := map[];
      mouseAt := (0, 0);
      worldPos := (0, 0, 0);
      normal := (0, 0, 0);
    }

    /** The registration drain (mouse.rs:104-120): each hook pushed in queue order. */
    method AddHooks(adds: seq<(nat, AddFunc)>)
      modifies this`hooks
      ensures hooks == old(hooks) + Registered(adds)
    {
      for i := 0 to |adds|
        invariant hooks == old(hooks) + Registered(adds[..i])
      {
        var (hookId, addFunc) := adds[i];
        var hookTy;
        match addFunc {
          case AddOnMove => hookTy := OnMove;
          case AddOnPress(b) => hookTy := OnPress(b);
          case AddWhilePressed(b, every) => hookTy := OnHold(b, every);
          case AddOnRelease(b) => hookTy := OnRelease(b);
          case AddOnScroll => hookTy := OnScroll;
          case AddOnAnyPress => hookTy := OnAnyPress;
        }
        hooks := hooks + [Hook(hookId, hookTy)];
        assert adds[..i + 1][..i] == adds[..i];
      }
      assert adds[..|adds|] == adds;
    }

    /** The search of `DeleteHook`: the index of the first hook with id `hookId`. */
    method FindHookIndex(hookId: nat) returns (found: Option<nat>)
      ensures found == FindHook(hooks, hookId)
    {
      found := None;
      for i := 0 to |hooks|
        invariant forall k :: 0 <= k < i ==> hooks[k].id != hookId
      {
        if hooks[i].id == hookId {
          found := Some(i);
          FindHookAt(hooks, hookId, i);
          return;
        }
      }
    }

    /** One event of the drain (mouse.rs:130-168) applied to the worker state and to `batch`. */
    method DrainEvent(e: Event, batch: Batch) returns (batch': Batch)
      modifies this`hooks, this`pressed, this`mouseAt, this`worldPos, this`normal
      ensures (State(), batch') == Step(old(State()), batch, e)
    {
      batch' := batch;
      match e {
        case Press(button) =>
          var newEvents, _ := MapExtras.GetMutOrCreate(batch.newEvents, button, true);
          assert newEvents[button := true] == batch.newEvents[button := true];
          batch' := batch.(newEvents := newEvents[button := true]);
          var pressed', _ := MapExtras.GetMutOrCreate(pressed, button, false);
          pressed := pressed';
        case Release(button) =>
          var newEvents, _ := MapExtras.GetMutOrCreate(batch.newEvents, button, false);
          assert newEvents[button := false] == batch.newEvents[button := false];
          batch' := batch.(newEvents := newEvents[button := false]);
          var pressed', _ := MapExtras.GetMutOrCreate(pressed, button, true);
          pressed := pressed';
        case Barrier =>
          batch' := batch.(barriers := batch.barriers + 1);
        case Position(x, y) =>
          mouseAt := (x, y);
          batch' := batch.(moved := true);
        case Delta(dx, dy) =>
          batch' := batch.(deltaX := batch.deltaX + dx, deltaY := batch.deltaY + dy, moved := true);
        case Scroll(amt) =>
          batch' := batch.(scrollAmt := batch.scrollAmt + amt);
        case CenterWorldPos(wx, wy, wz, nx, ny, nz) =>
          worldPos := (wx, wy, wz);
          normal := (nx, ny, nz);
        case DeleteHook(hookId) =>
          var found := FindHookIndex(hookId);
          if found.Some? {
            hooks := SwapRemove(hooks, found.value);
          }
      }
    }

    /** The event drain (mouse.rs:129-170), folding each event into the state and the batch. */
    method DrainEvents(events: seq<Event>) returns (batch: Batch)
      modifies this`hooks, this`pressed, this`mouseAt, this`worldPos, this`normal
      ensures (State(), batch) == Fold(old(State()), events)
    {
      batch := EMPTY_BATCH;
      for i := 0 to |events|
        invariant (State(), batch) == Fold(old(State()), events[..i])
      {
        assert events[..i + 1][..i] == events[..i];
        batch := DrainEvent(events[i], batch);
      }
      assert events[..|events|] == events;
    }

    /** A walk over the hooks calling the selected ones, in order. */
    method FireHooks(sel: Hook -> bool, mk: nat -> Call) returns (calls: seq<Call>)
      ensures calls == Fire(hooks, sel, mk)
    {
      calls := [];
      for i := 0 to |hooks|
        invariant calls == Fire(hooks[..i], sel, mk)
      {
        if sel(hooks[i]) {
          calls := calls + [mk(hooks[i].id)];
        }
        assert hooks[..i + 1][..i] == hooks[..i];
      }
      assert hooks[..|hooks|] == hooks;
    }

    /** The calls one pressed button makes and its new state (mouse.rs:188-272). */
    method HandleButton(st: WorkerState, batch: Batch, due: set<nat>, button: Button, state: bool) returns (newState: bool, calls: seq<Call>)
      requires hooks == st.hooks
      ensures (newState, calls) == ButtonCalls(st, button, state, Get(batch.newEvents, button), due)
    {
      newState := state;
      calls := [];
      if button in batch.newEvents {
        var n := batch.newEvents[button];
        if state != n {
          newState := n;
          if n {
            calls := FireHooks(PressHooks(button), (id: nat) => Pressed(id, Info(st, button)));
          } else {
            calls := FireHooks(ReleaseHooks(button), (id: nat) => Released(id));
          }
        }
      } else if state {
        calls := FireHooks(HoldHooks(button, due), (id: nat) => Held(id, Info(st, button)));
      }
    }

    /** The move and scroll hooks of a dispatch (mouse.rs:172-186). */
    method MotionCalls(batch: Batch) returns (trace: seq<Call>)
      ensures trace == MoveCalls(State(), batch) + ScrollCalls(State(), batch)
    {
      var st := State();
      trace := [];
      if batch.moved {
        trace := FireHooks(IsMoveHook, (id: nat) => Moved(id, batch.deltaX, batch.deltaY, st.mouseAt.0, st.mouseAt.1));
      }
      if batch.scrollAmt != 0 {
        var calls := FireHooks(IsScrollHook, (id: nat) => Scrolled(id, st.mouseAt.0, st.mouseAt.1, batch.scrollAmt));
        trace := trace + calls;
      }
    }

    /** The dispatch after a drain (mouse.rs:172-272); `due` names the hold hooks whose period has elapsed. */
    method DispatchBatch(batch: Batch, due: set<nat>) returns (trace: seq<Call>)
      modifies this`pressed
      ensures (State(), trace) == Dispatch(old(State()), batch, due)
    {
      var st := State();
      trace := MotionCalls(batch);
      ghost var before := trace;
      for k := 0 to BUTTON_COUNT
        invariant hooks == st.hooks
        invariant pressed == DispatchButtons(st, batch, due, k).0
        invariant trace == before + DispatchButtons(st, batch, due, k).1
      {
        var button := ButtonAt(k);
        if button in pressed {
          var newState, calls := HandleButton(st, batch, due, button, pressed[button]);
          pressed := pressed[button := newState];
          trace := trace + calls;
        }
      }
    }

    /** One pass of the worker loop over the registrations and events queued since the last. */
    method RunCycle(adds: seq<(nat, AddFunc)>, events: seq<Event>, due: set<nat>) returns (trace: seq<Call>)
      modifies this
      ensures (State(), trace) == Cycle(old(State()), adds, events, due)
    {
      AddHooks(adds);
      var batch := DrainEvents(events);
      trace := DispatchBatch(batch, due);
    }
  }
}
