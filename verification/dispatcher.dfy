/** The event dispatcher: one pass of the event loop routes one X event to one
    controller operation. `Kbdd_default_iter` drains the pending events with it;
    `Kbdd_default_loop` runs the same routing forever, and is modelled here on a
    finite prefix of the events it receives. */
module Dispatcher {
  import opened Types
  import opened Storage
  import opened Controller

  /** Core X event type codes (X.h) and the XKB state-notify sub-type (XKB.h). */
  const FocusInCode: int := 9
  const FocusOutCode: int := 10
  const CreateNotifyCode: int := 16
  const DestroyNotifyCode: int := 17
  const XkbStateNotifyCode: int := 2

  /** The fields of an `XkbEvent` union the dispatcher reads: the event type, the
      XKB sub-type, the locked group of a state notification, and the window of a
      create or destroy notification. */
  datatype RawEvent = RawEvent(eventType: int, xkbType: int, lockedGroup: int, window: WindowId)

  /** One event, classified by the dispatcher's two switches. */
  datatype Event =
    | XkbStateNotify(lockedGroup: int)
    | XkbOtherNotify(xkbType: int)
    | CreateNotify(window: WindowId)
    | DestroyNotify(window: WindowId)
    | FocusIn
    | FocusOut
    | OtherEvent(eventType: int)
  {
    /** True for events of the keyboard extension's own event type. */
    predicate FromXkb()
    {
      XkbStateNotify? || XkbOtherNotify?
    }
  }

  /** Classifies a raw event. `xkbEventType` is the extension's event type, fixed
      when the display was opened; it is tested before any core event type. */
  function Decode(raw: RawEvent, xkbEventType: int): (e: Event)
    ensures e.FromXkb() <==> raw.eventType == xkbEventType
    ensures e.XkbStateNotify? <==> raw.eventType == xkbEventType && raw.xkbType == XkbStateNotifyCode
    ensures e.XkbStateNotify? ==> e.lockedGroup == raw.lockedGroup
    ensures e.CreateNotify? <==> raw.eventType != xkbEventType && raw.eventType == CreateNotifyCode
    ensures e.DestroyNotify? <==> raw.eventType != xkbEventType && raw.eventType == DestroyNotifyCode
    ensures e.CreateNotify? || e.DestroyNotify? ==> e.window == raw.window
    ensures e.FocusIn? <==> raw.eventType != xkbEventType && raw.eventType == FocusInCode
    ensures e.FocusOut? <==> raw.eventType != xkbEventType && raw.eventType == FocusOutCode
  {
    if raw.eventType == xkbEventType then
      if raw.xkbType == XkbStateNotifyCode then XkbStateNotify(raw.lockedGroup)
      else XkbOtherNotify(raw.xkbType)
    else if raw.eventType == DestroyNotifyCode then DestroyNotify(raw.window)
    else if raw.eventType == CreateNotifyCode then CreateNotify(raw.window)
    else if raw.eventType == FocusInCode then FocusIn
    else if raw.eventType == FocusOutCode then FocusOut
    else OtherEvent(raw.eventType)
  }

  /** The X server's replies during the handling of one event: the window
      `XGetInputFocus` reports, the result of `XkbGetState` (`None` on failure),
      the result of `XkbLockGroup`, and the value a read of a never-initialized
      store happens to yield. */
  datatype Answers = Answers(focus: WindowId, state: Option<Group>, lock: int, indeterminate: int)

  /** An event waiting in the queue, with the server's replies during its handling. */
  datatype Pending = Pending(ev: Event, x: Answers)

  /** One pass of `Kbdd_default_iter`'s loop body. The locked group goes into a
      `uint32_t` local and then through the `unsigned char` parameter of
      `Kbdd_update_window_layout`. FocusOut falls through into the default case
      and so queries the focus a second time. */
  function Step(k: Kbdd, ev: Event, x: Answers): (r: Kbdd)
    ensures r.reg == k.reg
    ensures Extends(k.log, r.log)
    ensures k.store.Uninitialized? ==> r.store == k.store
    ensures ev.XkbStateNotify? ==>
      && r.log.locks == k.log.locks
      && r.log.focusQueries == k.log.focusQueries + 1
      && r.log.stateQueries == k.log.stateQueries
      && NewNotes(k, r) == Announce(k.reg, ToU8(ev.lockedGroup))
      && (k.store.Initialized? ==>
            && r.store.Initialized?
            && x.focus in r.store.table
            && Get(r.store, x.focus) == ToU8(ev.lockedGroup)
            && r.store.table - {x.focus} == k.store.table - {x.focus})
    ensures ev.XkbOtherNotify? ==> r == k
    ensures ev.CreateNotify? ==>
      && r.log.locks == k.log.locks
      && r.log.stateQueries == k.log.stateQueries + 1
      && r.log.focusQueries == k.log.focusQueries
      && (x.state.None? ==> r.store == k.store && r.log.notes == k.log.notes)
      && (x.state.Some? ==> NewNotes(k, r) == Announce(k.reg, x.state.value))
      && (x.state.Some? && k.store.Initialized? ==>
            && r.store.Initialized?
            && ev.window in r.store.table
            && Get(r.store, ev.window) == x.state.value
            && r.store.table - {ev.window} == k.store.table - {ev.window})
    ensures ev.DestroyNotify? ==>
      && r.log == k.log
      && r.store.Initialized? == k.store.Initialized?
      && (k.store.Initialized? ==>
            && Get(r.store, ev.window) == 0
            && r.store.table - {ev.window} == k.store.table - {ev.window})
    ensures ev.FocusIn? || ev.FocusOut? ==>
      && r.store == k.store
      && r.log.stateQueries == k.log.stateQueries
      && NewLocks(k, r) == [Read(k.store, x.focus, x.indeterminate)]
      && NewNotes(k, r) == (if x.lock != 0 then Announce(k.reg, Read(k.store, x.focus, x.indeterminate)) else [])
    ensures ev.FocusIn? ==> r.log.focusQueries == k.log.focusQueries + 1
    ensures ev.FocusOut? ==> r.log.focusQueries == k.log.focusQueries + 2
    ensures ev.OtherEvent? ==> r.store == k.store && r.log == k.log.(focusQueries := k.log.focusQueries + 1)
  {
    match ev
    case XkbStateNotify(lg) =>
      var grp := ToU32(lg);
      UpdateWindowLayout(QueryFocus(k), x.focus, ToU8(grp))
    case XkbOtherNotify(_) => k
    case DestroyNotify(w) => RemoveWindow(k, w)
    case CreateNotify(w) => AddWindow(k, w, x.state).0
    case FocusIn => SetWindowLayout(QueryFocus(k), x.focus, x.lock, x.indeterminate).0
    case FocusOut => QueryFocus(SetWindowLayout(QueryFocus(k), x.focus, x.lock, x.indeterminate).0)
    case OtherEvent(_) => QueryFocus(k)
  }

  /** One pass of `Kbdd_default_loop`'s loop body: the same routing, except that
      the locked group goes straight into an `unsigned char` local. */
  function LoopStep(k: Kbdd, ev: Event, x: Answers): Kbdd
  {
    match ev
    case XkbStateNotify(lg) => UpdateWindowLayout(QueryFocus(k), x.focus, ToU8(lg))
    case XkbOtherNotify(_) => k
    case DestroyNotify(w) => RemoveWindow(k, w)
    case CreateNotify(w) => AddWindow(k, w, x.state).0
    case FocusIn => SetWindowLayout(QueryFocus(k), x.focus, x.lock, x.indeterminate).0
    case FocusOut => QueryFocus(SetWindowLayout(QueryFocus(k), x.focus, x.lock, x.indeterminate).0)
    case OtherEvent(_) => QueryFocus(k)
  }

  /** The two loop bodies handle every event identically, despite the different
      width of their group locals. */
  lemma LoopStepIsStep(k: Kbdd, ev: Event, x: Answers)
    ensures LoopStep(k, ev, x) == Step(k, ev, x)
  {
  }

  /** True when `raw` is of the core event type `code`; the extension's own
      event type takes precedence over every core type. */
  predicate IsCore(raw: RawEvent, xkbEventType: int, code: int)
  {
    raw.eventType != xkbEventType && raw.eventType == code
  }

  /** One pass of the loop body on the event as the server delivers it: classify
      it, then route it. An event of the extension's type is handled as an XKB
      event even when its type number is also a core type number. */
  function StepRaw(k: Kbdd, raw: RawEvent, xkbEventType: int, x: Answers): (r: Kbdd)
    ensures r.reg == k.reg
    ensures Extends(k.log, r.log)
    ensures k.store.Uninitialized? ==> r.store == k.store
    ensures raw.eventType == xkbEventType && raw.xkbType != XkbStateNotifyCode ==> r == k
    ensures raw.eventType == xkbEventType && raw.xkbType == XkbStateNotifyCode ==>
      && r.log.locks == k.log.locks
      && r.log.focusQueries == k.log.focusQueries + 1
      && r.log.stateQueries == k.log.stateQueries
      && NewNotes(k, r) == Announce(k.reg, ToU8(raw.lockedGroup))
      && (k.store.Initialized? ==>
            && r.store.Initialized?
            && x.focus in r.store.table
            && Get(r.store, x.focus) == ToU8(raw.lockedGroup)
            && r.store.table - {x.focus} == k.store.table - {x.focus})
    ensures IsCore(raw, xkbEventType, CreateNotifyCode) ==>
      && r.log.locks == k.log.locks
      && r.log.stateQueries == k.log.stateQueries + 1
      && r.log.focusQueries == k.log.focusQueries
      && (x.state.None? ==> r.store == k.store && r.log.notes == k.log.notes)
      && (x.state.Some? ==> NewNotes(k, r) == Announce(k.reg, x.state.value))
      && (x.state.Some? && k.store.Initialized? ==>
            && r.store.Initialized?
            && raw.window in r.store.table
            && Get(r.store, raw.window) == x.state.value
            && r.store.table - {raw.window} == k.store.table - {raw.window})
    ensures IsCore(raw, xkbEventType, DestroyNotifyCode) ==>
      && r.log == k.log
      && r.store.Initialized? == k.store.Initialized?
      && (k.store.Initialized? ==>
            && Get(r.store, raw.window) == 0
            && r.store.table - {raw.window} == k.store.table - {raw.window})
    ensures IsCore(raw, xkbEventType, FocusInCode) || IsCore(raw, xkbEventType, FocusOutCode) ==>
      && r.store == k.store
      && r.log.stateQueries == k.log.stateQueries
      && NewLocks(k, r) == [Read(k.store, x.focus, x.indeterminate)]
      && NewNotes(k, r) == (if x.lock != 0 then Announce(k.reg, Read(k.store, x.focus, x.indeterminate)) else [])
    ensures IsCore(raw, xkbEventType, FocusInCode) ==> r.log.focusQueries == k.log.focusQueries + 1
    ensures IsCore(raw, xkbEventType, FocusOutCode) ==> r.log.focusQueries == k.log.focusQueries + 2
    ensures raw.eventType != xkbEventType && raw.eventType !in {FocusInCode, FocusOutCode, CreateNotifyCode, DestroyNotifyCode} ==>
      r.store == k.store && r.log == k.log.(focusQueries := k.log.focusQueries + 1)
  {
    Step(k, Decode(raw, xkbEventType), x)
  }

  /** Number of focus events (in or out) among `p`. */
  function FocusEvents(p: seq<Pending>): nat
    decreases |p|
  {
    if |p| == 0 then 0
    else (if p[0].ev.FocusIn? || p[0].ev.FocusOut? then 1 else 0) + FocusEvents(p[1..])
  }

  /** Number of callback invocations handling `p` causes while a callback is
      registered: every state notification, every creation whose state query
      succeeds, and every focus event whose lock request is accepted. */
  function Announcements(p: seq<Pending>): nat
    decreases |p|
  {
    if |p| == 0 then 0
    else
      var e := p[0].ev;
      var x := p[0].x;
      var here :=
        if e.XkbStateNotify? || (e.CreateNotify? && x.state.Some?) || ((e.FocusIn? || e.FocusOut?) && x.lock != 0)
        then 1 else 0;
      here + Announcements(p[1..])
  }

  /** The state after handling the pending events `p` in order. */
  function Drain(k: Kbdd, p: seq<Pending>): (r: Kbdd)
    ensures |p| == 0 ==> r == k
    ensures r.reg == k.reg
    ensures Extends(k.log, r.log)
    ensures k.store.Uninitialized? ==> r.store == k.store
    ensures |r.log.locks| == |k.log.locks| + FocusEvents(p)
    ensures k.reg.callback.None? ==> r.log.notes == k.log.notes
    ensures k.reg.callback.Some? ==> |r.log.notes| == |k.log.notes| + Announcements(p)
    decreases |p|
  {
    if |p| == 0 then k else Drain(Step(k, p[0].ev, p[0].x), p[1..])
  }

  /** `Kbdd_default_iter`: handles every pending event, in order, and returns 1. */
  method DefaultIter(k: Kbdd, pending: seq<Pending>) returns (k': Kbdd, r: int)
    ensures r == 1
    ensures k' == Drain(k, pending)
    ensures |pending| == 0 ==> k' == k
  {
    k' := k;
    var i := 0;
    while i < |pending|
      invariant 0 <= i <= |pending|
      invariant Drain(k', pending[i..]) == Drain(k, pending)
    {
      assert pending[i..][1..] == pending[i + 1..];
      k' := Step(k', pending[i].ev, pending[i].x);
      i := i + 1;
    }
    r := 1;
  }

  /** `Kbdd_default_loop` on the first `p` events it receives. */
  function LoopRun(k: Kbdd, p: seq<Pending>): Kbdd
    decreases |p|
  {
    if |p| == 0 then k else LoopRun(LoopStep(k, p[0].ev, p[0].x), p[1..])
  }

  /** Both entry points leave the library in the same state after the same events. */
  lemma {:induction false} LoopRunIsDrain(k: Kbdd, p: seq<Pending>)
    ensures LoopRun(k, p) == Drain(k, p)
    decreases |p|
  {
    if |p| > 0 {
      LoopStepIsStep(k, p[0].ev, p[0].x);
      LoopRunIsDrain(Step(k, p[0].ev, p[0].x), p[1..]);
    }
  }

  /** Draining `a` and then `b` is draining `a + b`: events are handled one at a
      time, in queue order. */
  lemma {:induction false} DrainAppend(k: Kbdd, a: seq<Pending>, b: seq<Pending>)
    ensures Drain(k, a + b) == Drain(Drain(k, a), b)
    decreases |a|
  {
    if |a| == 0 {
      assert a + b == b;
    } else {
      assert (a + b)[0] == a[0];
      assert (a + b)[1..] == a[1..] + b;
      DrainAppend(Step(k, a[0].ev, a[0].x), a[1..], b);
    }
  }

  /** The store calls one event's handling makes. */
  function StoreOpsOf(q: Pending): seq<StoreOp>
  {
    match q.ev
    case XkbStateNotify(lg) => [OpPut(q.x.focus, ToU8(lg))]
    case CreateNotify(w) => if q.x.state.Some? then [OpPut(w, q.x.state.value)] else []
    case DestroyNotify(w) => [OpRemove(w)]
    case _ => []
  }

  /** The store calls handling `p` makes, in order. */
  function StoreOps(p: seq<Pending>): seq<StoreOp>
    decreases |p|
  {
    if |p| == 0 then [] else StoreOpsOf(p[0]) + StoreOps(p[1..])
  }

  lemma StepStore(k: Kbdd, q: Pending)
    ensures Step(k, q.ev, q.x).store == Apply(k.store, StoreOpsOf(q))
  {
  }

  /** The dispatcher touches the store only through the store calls its events
      imply: state notifications and successful creations put, destructions
      remove, and every other event leaves the store alone. */
  lemma {:induction false} DrainStore(k: Kbdd, p: seq<Pending>)
    ensures Drain(k, p).store == Apply(k.store, StoreOps(p))
    decreases |p|
  {
    if |p| > 0 {
      var k1 := Step(k, p[0].ev, p[0].x);
      StepStore(k, p[0]);
      DrainStore(k1, p[1..]);
      ApplyAppend(k.store, StoreOpsOf(p[0]), StoreOps(p[1..]));
    }
  }

  /** After draining, a window reads as whatever the last store call touching it
      left behind, and as before if no handled event touched it. */
  lemma GetAfterDrain(k: Kbdd, p: seq<Pending>, w: WindowId)
    requires k.store.Initialized?
    ensures Drain(k, p).store.Initialized?
    ensures Get(Drain(k, p).store, w) == LastWrite(StoreOps(p), w, Get(k.store, w))
  {
    DrainStore(k, p);
    GetAfterTrace(k.store, StoreOps(p), w);
  }

  /** The layout observed for the focused window is replayed when focus returns:
      a state notification with locked group `G` while `F` is focused, followed
      by a focus event that finds `F` focused, requests the lock of `G` (modulo
      256), and notifies with it when the server accepts the lock. */
  lemma RestoreAfterStateNotify(k: Kbdd, lg: int, x1: Answers, x2: Answers, focusOut: bool)
    requires k.store.Initialized?
    requires x2.focus == x1.focus
    ensures
      var k1 := Step(k, XkbStateNotify(lg), x1);
      var k2 := Step(k1, if focusOut then FocusOut else FocusIn, x2);
      && NewLocks(k1, k2) == [ToU8(lg)]
      && NewNotes(k1, k2) == (if x2.lock != 0 then Announce(k.reg, ToU8(lg)) else [])
      && k2.store == k1.store
  {
  }

  /** Without `Kbdd_init` and without a registered callback, the library as
      loaded never changes the store and never notifies, whatever events arrive. */
  lemma DrainFromLoaded(p: seq<Pending>)
    ensures Drain(Loaded, p).store == Uninitialized
    ensures Drain(Loaded, p).log.notes == []
    ensures |Drain(Loaded, p).log.locks| == FocusEvents(p)
  {
  }

  /** A destroyed window is forgotten: a later focus event that finds it focused
      requests group 0. */
  lemma DestroyThenFocus(k: Kbdd, w: WindowId, x1: Answers, x2: Answers)
    requires k.store.Initialized?
    requires x2.focus == w
    ensures
      var k1 := Step(k, DestroyNotify(w), x1);
      var k2 := Step(k1, FocusIn, x2);
      NewLocks(k1, k2) == [0]
  {
  }
}
