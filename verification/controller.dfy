/** The layout controller: the four operations that keep the group store in step
    with the X server, and the single notification slot they report through.

    The library's globals (store, callback, userdata) become one `Kbdd` value.
    Its side effects on the outside world are recorded in an append-only `Log`:
    each callback invocation appends a notification, and each `XkbLockGroup`
    call appends the requested group. The X server's replies are explicit
    arguments. */
module Controller {
  import opened Types
  import opened Storage

  /** Identity of a non-NULL callback function pointer. */
  type CallbackId = nat

  /** The userdata pointer handed back to the callback; 0 stands for NULL. */
  type UserData = nat

  /** The single (callback, userdata) slot; `callback == None` is a NULL callback. */
  datatype Registration = Registration(callback: Option<CallbackId>, userdata: UserData)

  /** One invocation of the registered callback with a group and the userdata. */
  datatype Notification = Notification(callback: CallbackId, group: int, userdata: UserData)

  /** Everything the library has done to the outside world so far. `focusQueries`
      counts `XGetInputFocus` calls and `stateQueries` counts `XkbGetState` calls.
      Notified and locked groups are plain integers: the group read from a
      never-initialized store is not confined to a byte. */
  datatype Log = Log(notes: seq<Notification>, locks: seq<int>, focusQueries: nat, stateQueries: nat)

  /** The library state: the group store, the callback slot and the effect log. */
  datatype Kbdd = Kbdd(store: Store, reg: Registration, log: Log)

  /** The state at load time: no store yet, a NULL callback and NULL userdata. */
  const Loaded: Kbdd := Kbdd(Uninitialized, Registration(None, 0), Log([], [], 0, 0))

  /** `later` is `earlier` with possibly more entries appended and more queries counted. */
  predicate Extends(earlier: Log, later: Log)
  {
    && earlier.notes <= later.notes
    && earlier.locks <= later.locks
    && earlier.focusQueries <= later.focusQueries
    && earlier.stateQueries <= later.stateQueries
  }

  /** The notifications appended between `before` and `after`. */
  function NewNotes(before: Kbdd, after: Kbdd): seq<Notification>
    requires |before.log.notes| <= |after.log.notes|
  {
    after.log.notes[|before.log.notes|..]
  }

  /** The lock requests appended between `before` and `after`. */
  function NewLocks(before: Kbdd, after: Kbdd): seq<int>
    requires |before.log.locks| <= |after.log.locks|
  {
    after.log.locks[|before.log.locks|..]
  }

  /** The notifications a callback invocation with `g` produces under `reg`:
      one when a callback is registered, none otherwise. */
  function Announce(reg: Registration, g: int): (ns: seq<Notification>)
    ensures |ns| <= 1
    ensures |ns| == 1 <==> reg.callback.Some?
    ensures forall n | n in ns :: n.group == g && n.userdata == reg.userdata
  {
    match reg.callback
    case None => []
    case Some(cb) => [Notification(cb, g, reg.userdata)]
  }

  /** Invokes the registered callback, if any, with `g`. */
  function Notify(k: Kbdd, g: int): Kbdd
  {
    k.(log := k.log.(notes := k.log.notes + Announce(k.reg, g)))
  }

  /** One `XGetInputFocus` call; its reply is supplied by the caller. */
  function QueryFocus(k: Kbdd): Kbdd
  {
    k.(log := k.log.(focusQueries := k.log.focusQueries + 1))
  }

  /** `Kbdd_init`: initializes the store; a second call keeps its entries. */
  function KbddInit(k: Kbdd): (r: Kbdd)
    ensures r.store.Initialized?
    ensures k.store.Initialized? ==> r == k
    ensures k.store.Uninitialized? ==> r.store.table == map[]
    ensures r.reg == k.reg && r.log == k.log
  {
    k.(store := Init(k.store))
  }

  /** `Kbdd_setupUpdateCallback`: replaces both the callback and the userdata. */
  function SetupUpdateCallback(k: Kbdd, callback: Option<CallbackId>, userdata: UserData): (r: Kbdd)
    ensures r.store == k.store && r.log == k.log
    ensures Announce(r.reg, 0) == (if callback.Some? then [Notification(callback.value, 0, userdata)] else [])
  {
    k.(reg := Registration(callback, userdata))
  }

  /** `Kbdd_add_window`: asks the server for the current keyboard state
      (`state` is `XkbGetState`'s answer, `None` for a failure). On success the
      window is recorded with the current group and the callback is told about it;
      on failure nothing but the query happens. Returns 0 in every case. */
  function AddWindow(k: Kbdd, w: WindowId, state: Option<Group>): (r: (Kbdd, int))
    ensures r.1 == 0
    ensures r.0.reg == k.reg
    ensures Extends(k.log, r.0.log)
    ensures r.0.log.stateQueries == k.log.stateQueries + 1
    ensures r.0.log.locks == k.log.locks && r.0.log.focusQueries == k.log.focusQueries
    ensures state.None? ==> r.0.store == k.store && r.0.log.notes == k.log.notes
    ensures state.Some? && k.store.Initialized? ==>
      && r.0.store.Initialized?
      && w in r.0.store.table
      && Get(r.0.store, w) == state.value
      && r.0.store.table - {w} == k.store.table - {w}
    ensures state.Some? ==> NewNotes(k, r.0) == Announce(k.reg, state.value)
    ensures k.store.Uninitialized? ==> r.0.store == k.store
  {
    var queried := k.(log := k.log.(stateQueries := k.log.stateQueries + 1));
    match state
    case None => (queried, 0)
    case Some(g) => (Notify(queried.(store := Put(queried.store, w, g)), g), 0)
  }

  /** `Kbdd_remove_window`: forgets the window; no notification, no server call. */
  function RemoveWindow(k: Kbdd, w: WindowId): (r: Kbdd)
    ensures r.reg == k.reg && r.log == k.log
    ensures r.store.Initialized? == k.store.Initialized?
    ensures k.store.Initialized? ==> Get(r.store, w) == 0 && r.store.table - {w} == k.store.table - {w}
    ensures k.store.Uninitialized? ==> r.store == k.store
  {
    k.(store := Remove(k.store, w))
  }

  /** `Kbdd_set_window_layout`: reads the window's remembered group (0 when it
      has none; `indeterminate` when the store was never initialized) and asks the
      server to lock it. `lock` is `XkbLockGroup`'s answer; nonzero means the request
      was accepted, and only then is the callback told. Returns `lock`. */
  function SetWindowLayout(k: Kbdd, w: WindowId, lock: int, indeterminate: int): (r: (Kbdd, int))
    ensures r.1 == lock
    ensures r.0.store == k.store && r.0.reg == k.reg
    ensures Extends(k.log, r.0.log)
    ensures NewLocks(k, r.0) == [Read(k.store, w, indeterminate)]
    ensures k.store.Initialized? && w !in k.store.table ==> NewLocks(k, r.0) == [0]
    ensures NewNotes(k, r.0) == if lock != 0 then Announce(k.reg, Read(k.store, w, indeterminate)) else []
    ensures r.0.log.focusQueries == k.log.focusQueries && r.0.log.stateQueries == k.log.stateQueries
  {
    var g := Read(k.store, w, indeterminate);
    var locked := k.(log := k.log.(locks := k.log.locks + [g]));
    if lock != 0 then (Notify(locked, g), lock) else (locked, lock)
  }

  /** `Kbdd_update_window_layout`: records `g` for the window whatever it held
      before (nothing, or another group) and tells the callback. */
  function UpdateWindowLayout(k: Kbdd, w: WindowId, g: Group): (r: Kbdd)
    ensures r.reg == k.reg
    ensures Extends(k.log, r.log)
    ensures r.log.locks == k.log.locks
    ensures r.log.focusQueries == k.log.focusQueries && r.log.stateQueries == k.log.stateQueries
    ensures r.store.Initialized? == k.store.Initialized?
    ensures k.store.Initialized? ==> w in r.store.table && Get(r.store, w) == g && r.store.table - {w} == k.store.table - {w}
    ensures k.store.Uninitialized? ==> r.store == k.store
    ensures NewNotes(k, r) == Announce(k.reg, g)
  {
    Notify(k.(store := Put(k.store, w, g)), g)
  }

  /** With a NULL callback none of the four operations notifies anyone. */
  lemma SilentWithoutCallback(k: Kbdd, w: WindowId, state: Option<Group>, lock: int, junk: int, g: Group)
    requires k.reg.callback.None?
    ensures AddWindow(k, w, state).0.log.notes == k.log.notes
    ensures RemoveWindow(k, w).log.notes == k.log.notes
    ensures SetWindowLayout(k, w, lock, junk).0.log.notes == k.log.notes
    ensures UpdateWindowLayout(k, w, g).log.notes == k.log.notes
  {
  }

  /** Registering twice is the same as registering only the second pair: the
      second call replaces both callback and userdata, and the next notification
      carries the new pair. */
  lemma ReregisterReplaces(k: Kbdd, c1: Option<CallbackId>, u1: UserData, c2: Option<CallbackId>, u2: UserData, w: WindowId, g: Group)
    ensures SetupUpdateCallback(SetupUpdateCallback(k, c1, u1), c2, u2) == SetupUpdateCallback(k, c2, u2)
    ensures
      var k' := SetupUpdateCallback(SetupUpdateCallback(k, c1, u1), c2, u2);
      NewNotes(k', UpdateWindowLayout(k', w, g)) == (if c2.Some? then [Notification(c2.value, g, u2)] else [])
  {
  }

  /** Remember-then-restore: after an add or an update has recorded `g` for `w`,
      setting `w`'s layout requests exactly `g`. After a remove it requests 0. */
  lemma RestoreRecordedGroup(k: Kbdd, w: WindowId, g: Group, lock: int, junk: int)
    requires k.store.Initialized?
    ensures
      var k1 := AddWindow(k, w, Some(g)).0;
      var k2 := SetWindowLayout(k1, w, lock, junk).0;
      NewLocks(k1, k2) == [g]
    ensures
      var k1 := UpdateWindowLayout(k, w, g);
      var k2 := SetWindowLayout(k1, w, lock, junk).0;
      NewLocks(k1, k2) == [g]
    ensures
      var k1 := RemoveWindow(k, w);
      var k2 := SetWindowLayout(k1, w, lock, junk).0;
      NewLocks(k1, k2) == [0]
  {
  }
}
