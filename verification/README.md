# kbdd per-window keyboard layout: a Dafny model

kbdd remembers one XKB keyboard group (layout index) per X window and restores
it when the window regains focus. This project models its two non-plumbing
components, and proves their properties:

- the **group store** (`src/storage.c`): a map from window id to group. It is
  guarded by an "initialized" check. Once initialized, reading a window with no
  entry yields 0.
- the **layout controller and event dispatcher** (`src/libkbdd.c`). These are
  the four controller operations, the single (callback, userdata) notification
  slot, and the per-event routing performed by `Kbdd_default_iter` and
  `Kbdd_default_loop`.

Modules, one per file:

- `Types` (`types.dfy`) holds window ids, `Group` and the C conversions to
  `uint32_t` and `unsigned char`. `Group` is 0..255, because every group reaches
  the store through an `unsigned char`.
- `Storage` (`storage.dfy`) holds `Store = Uninitialized | Initialized(map)` and
  `Init`, `Put`, `Get` and `Remove`. It also holds traces of store calls and a
  reference "last write wins" reading of a trace.
- `Controller` (`controller.dfy`) holds the library state `Kbdd`: the store, the
  callback slot and an append-only effect `Log`. The log records:
  - every callback invocation, as a notification carrying the callback, the
    group and the userdata;
  - every `XkbLockGroup` request;
  - the number of `XGetInputFocus` and `XkbGetState` calls.

  The module also holds `AddWindow`, `RemoveWindow`, `SetWindowLayout`,
  `UpdateWindowLayout`, `SetupUpdateCallback` and `KbddInit`.
- `Dispatcher` (`dispatcher.dfy`) holds the following:
  - the classification of raw events (`Decode`), and `StepRaw`, which routes a
    raw event through `Decode` and `Step`;
  - the per-event `Step` (the iter loop body) and `LoopStep` (the forever loop
    body);
  - `Drain`, a fold of `Step` over the pending events;
  - the `DefaultIter` method, the `while` loop that returns 1.

The X server is an oracle. For each event, `Answers` supplies these replies:
- the window `XGetInputFocus` reports;
- `XkbGetState`'s result (`None` for a failure);
- `XkbLockGroup`'s result (nonzero means accepted);
- the value a read of a never-initialized store yields.

The source's `_kbdd_storage_get` returns an uninitialized local in that last
case. `Storage.Get` therefore requires an initialized store. `Storage.Read` is
the read in every state, and it takes that indeterminate value as an argument.
No 0 is assumed.

Two behaviours of the code to know:
- On a store that was never initialized, `get` does not yield 0. It yields an
  indeterminate value (`src/storage.c:65`, `src/storage.c:82`). That value never
  passes through an `unsigned char`, so it is an unbounded `int` in the model,
  and so are the groups in lock requests and notifications.
- Shutdown does not make the store usable-and-empty again. `_kbdd_storage_free`
  never resets the table pointer (`src/storage.c:43-49`; see Left out).

## Model

Every row about what a window reads assumes `Kbdd_init` has run, unless the
row says otherwise; before `init` the store never changes.

| member | source | states |
|---|---|---|
| Types.NarrowThroughU32 | src/libkbdd.c:130-141 | Storing the `int` locked group in a `uint32_t` and then passing it as an `unsigned char` yields the same byte as narrowing to 8 bits directly. This holds for every integer, negative ones included. |
| Storage.Init | src/storage.c:35-41 | `init` always leaves an initialized store. On an already-initialized store it is a no-op that keeps every entry. The first call gives an empty table. |
| Storage.Put | src/storage.c:51-61 | On an initialized store, `put(w, g)` makes `w` read as `g` and leaves every other key's entry unchanged. On an uninitialized store it changes nothing. |
| Storage.Remove | src/storage.c:85-93 | On an initialized store, `remove(w)` deletes `w`'s entry, so `w` reads as 0, and leaves every other entry unchanged. It is a no-op when `w` was absent or the store is uninitialized. |
| Storage.Read | src/storage.c:63-83 | On an initialized store a read yields the window's stored group, and 0 for a window with no entry; either way a byte-sized group. On an uninitialized store it yields the indeterminate local, whatever it holds. |
| Storage.PutThenGet | src/storage.c:51-83 | On an initialized store, `put(w, g)` followed by `get(w)` returns `g`. |
| Storage.LastPutWins | src/storage.c:57 | On an initialized store, two puts to one key equal the second put alone: replace semantics, the last write wins, and keys stay unique. |
| Storage.RemoveThenGet | src/storage.c:72-93 | On an initialized store, `remove(w)` followed by `get(w)` returns 0, whether or not `w` was present. |
| Storage.OtherWindowsUnaffected | src/storage.c:51-93 | On an initialized store, `put(w, ·)` and `remove(w)` do not change what any other window reads. |
| Storage.InitIdempotent | src/storage.c:35-41 | A second `init` is a no-op and does not discard entries. |
| Storage.GetAfterTrace | src/storage.c:51-93 | After any sequence of init, put and remove calls on an initialized store, a window reads as the reference reading. That reading is the value left by the last call touching the window, or the earlier reading if no call touches it. |
| Storage.NeverInsertedReadsZero | src/storage.c:72-79 | On a freshly initialized store, a window that no later call puts reads as 0, whatever else happens. |
| Storage.UninitializedIsInert | src/storage.c:51-93 | Before `init`, no sequence of puts and removes changes the store. |
| Controller.KbddInit | src/libkbdd.c:35-38 | `Kbdd_init` initializes the store once. It touches neither the callback slot nor the outside world. |
| Controller.SetupUpdateCallback | src/libkbdd.c:99-103 | Registration overwrites the slot. Afterwards a notification carries the new callback and userdata, and none fires for a NULL callback. The store and the log are untouched. |
| Controller.AddWindow | src/libkbdd.c:45-56 | `Kbdd_add_window` makes one state query and always returns 0. On success with group `g`, exactly one notification with `g` fires if a callback is registered; if the store is initialized, the window then has an entry reading `g` and other entries are unchanged. On failure, the store and the notifications are unchanged. No lock is requested. |
| Controller.RemoveWindow | src/libkbdd.c:58-62 | On an initialized store, `Kbdd_remove_window` leaves the window reading 0 and other entries unchanged; before `init` it changes nothing. It produces no notification and no server call. |
| Controller.SetWindowLayout | src/libkbdd.c:64-71 | `Kbdd_set_window_layout` issues exactly one lock request, for the window's remembered group (on an initialized store, 0 if untracked; before `init`, the indeterminate read). It never modifies the store and returns the lock result. It notifies with that group only when the result is nonzero and a callback is registered. |
| Controller.UpdateWindowLayout | src/libkbdd.c:73-85 | On an initialized store, `Kbdd_update_window_layout` gives the window an entry `g`, whatever was there before, and leaves other entries unchanged; before `init` the store is unchanged. It then fires one notification with `g` when a callback is registered. It requests no lock. |
| Controller.SilentWithoutCallback | src/libkbdd.c:45-85 | With a NULL callback, none of the four controller operations produces a notification. |
| Controller.ReregisterReplaces | src/libkbdd.c:99-103 | Registering twice equals registering the second pair only, also when the second callback is NULL. The next update notifies the second callback with the second userdata, or nobody when that callback is NULL. |
| Controller.RestoreRecordedGroup | src/libkbdd.c:45-85 | On an initialized store, after an add or an update records `g` for a window, setting that window's layout requests `g`. After a remove it requests 0. |
| Dispatcher.Decode | src/libkbdd.c:134-165 | An event of the XKB event type is classified by its XKB sub-type before any core type is considered. Only state-notify is distinguished among XKB sub-types. Destroy, create, focus-in and focus-out are recognised among core types, and each carries the fields the dispatcher reads. |
| Dispatcher.Step | src/libkbdd.c:132-167 | One event is routed as follows:<br>• A state notification stores the locked group (mod 256) for the queried focus window, with one focus query, no state query, one notification and no lock.<br>• Another XKB sub-type changes nothing.<br>• A create runs `add_window` (one state query, no focus query), and a destroy runs `remove_window`.<br>• A focus-in or focus-out requests exactly one lock for the focus window's group without touching the store or querying the keyboard state. Focus-out queries the focus twice (fallthrough).<br>• Any other event performs one focus query only.<br>Before `init` the store never changes. |
| Dispatcher.StepRaw | src/libkbdd.c:132-167 | On an event as delivered, the XKB type test comes first, so an event of the extension's type is handled as an XKB event. The state-notify sub-type behaves as follows:<br>• it stores the locked group (mod 256) for the focus window, with other entries unchanged;<br>• it makes one focus query, no state query and no lock request;<br>• it sends one notification with that group.<br>Any other XKB sub-type changes nothing. Among core events:<br>• A create makes one state query and no focus query. On success it records the queried group and notifies with it; on failure it changes neither the store nor the notifications.<br>• A destroy makes the window read 0 and touches nothing else.<br>• Focus-in and focus-out leave the store unchanged and request exactly one lock, for the focus window's group. They notify only when the lock result is nonzero. They make one and two focus queries respectively.<br>• Any other type performs one focus query only. |
| Dispatcher.LoopStepIsStep | src/libkbdd.c:186-221 | The body of `Kbdd_default_loop` handles every event exactly as the body of `Kbdd_default_iter` does, despite its `unsigned char` group local. |
| Dispatcher.Drain | src/libkbdd.c:125-169 | Draining keeps the callback slot and only appends to the logs. It makes one lock request per focus event. With no callback it makes no notification. With a callback it makes one notification per state notification, per successful creation, and per accepted focus lock. Zero pending events change nothing. |
| Dispatcher.DefaultIter | src/libkbdd.c:122-171 | With a display bound, `Kbdd_default_iter` handles exactly the pending events, in order, and returns 1. With no pending events it changes nothing. |
| Dispatcher.LoopRunIsDrain | src/libkbdd.c:184-224 | On the same events, `Kbdd_default_loop` reaches the same state as `Kbdd_default_iter`. |
| Dispatcher.DrainAppend | src/libkbdd.c:125-169 | Handling `a` then `b` equals handling `a + b`: events are handled one at a time, in queue order. |
| Dispatcher.DrainStore | src/libkbdd.c:132-167 | The dispatcher changes the store only by the store calls its events imply, in order. A state notification puts for the focus window, a successful create puts, and a destroy removes. |
| Dispatcher.GetAfterDrain | src/libkbdd.c:132-167 | After draining, each window reads as the value left by the last store call touching it, or its earlier reading. |
| Dispatcher.RestoreAfterStateNotify | src/libkbdd.c:138-163 | On an initialized store, suppose a state notification with group `G` arrives while `F` is focused, and a focus event then finds `F` focused. The focus event requests the lock of `G` mod 256, leaves the store unchanged, and notifies with it when the lock is accepted. |
| Dispatcher.DrainFromLoaded | src/libkbdd.c:30-38 | Starting from the state at load time (no store, NULL callback) and never calling `Kbdd_init`, any sequence of events leaves the store uninitialized and produces no notification, while still issuing one lock request per focus event. |
| Dispatcher.DestroyThenFocus | src/libkbdd.c:151-160 | On an initialized store, after a window is destroyed, a focus event that finds it focused requests group 0. |

`Storage.Get`, `Dispatcher.LoopStep` and `Dispatcher.LoopRun`
carry no contract of their own. The lemmas above state their properties.

## Left out

- `Kbdd_initialize_display`, `Kbdd_initialize_listeners` and `Kbdd_setDisplay`
  (`src/libkbdd.c:87-97`, `src/libkbdd.c:105-120`) are left out. They are Xlib connection set-up and
  assertions. The XKB event type they fix is a parameter of `Dispatcher.Decode`.
- `Kbdd_clean` and `_kbdd_storage_free` are left out. Free destroys the table
  but never resets the pointer, so behaviour after free is undefined. No claim
  is made that shutdown empties the store or that re-initialization works.
- Dispatcher.DefaultIter: does not model the `assert(_display != NULL)` at
  `src/libkbdd.c:124`. A display is assumed to have been bound, so the method
  always returns 1; with no display the source aborts instead.
- The infinite `while (1)` of `Kbdd_default_loop` and its NULL-display fallback
  are left out. The loop is modelled on finite event prefixes (`LoopRun`);
  non-termination is not modelled.
- `XPending` is left out. The drained queue is a finite sequence given up front.
  Events that arrive while draining count as part of that sequence.
- The unused `data` argument of `Kbdd_default_iter` and the returned revert-to
  mode of `XGetInputFocus` are left out. Neither affects the state.
- The glib hash table, its pointer casts and the `STORAGE_GHASH` build switch
  are left out. The glib build is the one modelled, as a Dafny `map`.
- `WindowId` is left unbounded. The widths of `WINDOW_TYPE` and `GROUP_TYPE` are
  declared in `storage.h`, which is not part of this model. X window ids fit any
  such width, so no truncation of window ids is modelled. Stored groups are
  bounded to 0..255 by the `unsigned char` they pass through. The value read from
  a never-initialized store is left unbounded.
- The `volatile` globals, thread safety, the commented-out `debug` routine and
  `dbg` logging are left out.
- The callback's own behaviour is left out. Invoking it is recorded as a
  notification; what it does is outside the library.
