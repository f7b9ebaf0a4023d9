/** The group store: a map from window to keyboard group, guarded by an
    "initialized" flag. Before `Init`, puts and removes change nothing and a read
    yields an indeterminate value. On an initialized store, reading a window that
    has no entry yields group 0. */
module Storage {
  import opened Types

  /** `Uninitialized` is the state before the first `Init` (the hash table
      pointer is still NULL); `Initialized` holds the table's contents. */
  datatype Store = Uninitialized | Initialized(table: map<WindowId, Group>)

  /** Creates the empty table, unless one exists already. */
  function Init(s: Store): (r: Store)
    ensures r.Initialized?
    ensures s.Initialized? ==> r == s
    ensures s.Uninitialized? ==> r.table == map[]
  {
    if s.Initialized? then s else Initialized(map[])
  }

  /** Insert-or-overwrite of the entry for `w`. */
  function Put(s: Store, w: WindowId, g: Group): (r: Store)
    ensures r.Initialized? == s.Initialized?
    ensures s.Uninitialized? ==> r == s
    ensures s.Initialized? ==> w in r.table && Get(r, w) == g
    ensures s.Initialized? ==> r.table - {w} == s.table - {w}
  {
    match s
    case Uninitialized => s
    case Initialized(t) => Initialized(t[w := g])
  }

  /** The group remembered for `w` on an initialized store, 0 when there is none. */
  function Get(s: Store, w: WindowId): (g: Group)
    requires s.Initialized?
  {
    if w in s.table then s.table[w] else 0
  }

  /** What reading the store returns in every state. On an uninitialized store the
      read yields whatever the uninitialized local happened to hold; that value is
      not determined by the store, so the caller supplies it as `indeterminate`.
      Its type is not narrowed to a byte: nothing bounds that local. */
  function Read(s: Store, w: WindowId, indeterminate: int): (g: int)
    ensures s.Initialized? ==> 0 <= g < ByteRange
    ensures s.Initialized? && w in s.table ==> g == s.table[w]
    ensures s.Initialized? && w !in s.table ==> g == 0
    ensures s.Uninitialized? ==> g == indeterminate
  {
    if s.Initialized? then Get(s, w) else indeterminate
  }

  /** Deletes the entry for `w`, if there is one. */
  function Remove(s: Store, w: WindowId): (r: Store)
    ensures r.Initialized? == s.Initialized?
    ensures s.Uninitialized? ==> r == s
    ensures s.Initialized? ==> w !in r.table && Get(r, w) == 0
    ensures s.Initialized? ==> r.table - {w} == s.table - {w}
    ensures s.Initialized? && w !in s.table ==> r == s
  {
    match s
    case Uninitialized => s
    case Initialized(t) => Initialized(t - {w})
  }

  /** `put(w, g)` then `get(w)` yields `g`. */
  lemma PutThenGet(s: Store, w: WindowId, g: Group)
    requires s.Initialized?
    ensures Get(Put(s, w, g), w) == g
  {
  }

  /** Two puts to the same window: the last write wins and only one entry remains. */
  lemma LastPutWins(s: Store, w: WindowId, g1: Group, g2: Group)
    requires s.Initialized?
    ensures Put(Put(s, w, g1), w, g2) == Put(s, w, g2)
    ensures Get(Put(Put(s, w, g1), w, g2), w) == g2
  {
  }

  /** `remove(w)` then `get(w)` yields 0, whether or not `w` had an entry. */
  lemma RemoveThenGet(s: Store, w: WindowId)
    requires s.Initialized?
    ensures Get(Remove(s, w), w) == 0
  {
  }

  /** `put` and `remove` on one window leave the reading of every other window alone. */
  lemma OtherWindowsUnaffected(s: Store, w: WindowId, v: WindowId, g: Group)
    requires s.Initialized?
    requires v != w
    ensures Get(Put(s, w, g), v) == Get(s, v)
    ensures Get(Remove(s, w), v) == Get(s, v)
  {
  }

  /** A second `init` keeps every entry. */
  lemma InitIdempotent(s: Store)
    ensures Init(Init(s)) == Init(s)
    ensures s.Initialized? ==> Init(s).table == s.table
  {
  }

  /** One store call, as recorded in a trace of calls. */
  datatype StoreOp = OpInit | OpPut(window: WindowId, group: Group) | OpRemove(window: WindowId)

  /** The store after the one call `op`. */
  function Perform(s: Store, op: StoreOp): Store
  {
    match op
    case OpInit => Init(s)
    case OpPut(w, g) => Put(s, w, g)
    case OpRemove(w) => Remove(s, w)
  }

  /** The store after the calls `ops`, issued in order. */
  function Apply(s: Store, ops: seq<StoreOp>): Store
    decreases |ops|
  {
    if |ops| == 0 then s else Apply(Perform(s, ops[0]), ops[1..])
  }

  /** Reference reading of a trace: the value the last call touching `w` left
      behind (`g` for a put, 0 for a remove), or `before` if no call touches `w`. */
  function LastWrite(ops: seq<StoreOp>, w: WindowId, before: Group): Group
    decreases |ops|
  {
    if |ops| == 0 then before
    else
      match ops[|ops| - 1]
      case OpPut(v, g) => if v == w then g else LastWrite(ops[..|ops| - 1], w, before)
      case OpRemove(v) => if v == w then 0 else LastWrite(ops[..|ops| - 1], w, before)
      case OpInit => LastWrite(ops[..|ops| - 1], w, before)
  }

  /** True when no call in `ops` is a put for `w`. */
  predicate NeverPut(ops: seq<StoreOp>, w: WindowId)
  {
    forall i :: 0 <= i < |ops| ==> !(ops[i].OpPut? && ops[i].window == w)
  }

  /** True when no call in `ops` is an `init`. */
  predicate NoInit(ops: seq<StoreOp>)
  {
    forall i :: 0 <= i < |ops| ==> !ops[i].OpInit?
  }

  lemma {:induction false} ApplyAppend(s: Store, a: seq<StoreOp>, b: seq<StoreOp>)
    ensures Apply(s, a + b) == Apply(Apply(s, a), b)
    decreases |a|
  {
    if |a| == 0 {
      assert a + b == b;
    } else {
      assert (a + b)[0] == a[0];
      assert (a + b)[1..] == a[1..] + b;
      ApplyAppend(Perform(s, a[0]), a[1..], b);
    }
  }

  /** An initialized store stays initialized under any trace. */
  lemma {:induction false} ApplyKeepsInitialized(s: Store, ops: seq<StoreOp>)
    requires s.Initialized?
    ensures Apply(s, ops).Initialized?
    decreases |ops|
  {
    if |ops| > 0 {
      ApplyKeepsInitialized(Perform(s, ops[0]), ops[1..]);
    }
  }

  /** The store's reading after a trace agrees with the reference reading: the
      last write to `w` wins, and an untouched window keeps its earlier reading. */
  lemma {:induction false} GetAfterTrace(s: Store, ops: seq<StoreOp>, w: WindowId)
    requires s.Initialized?
    ensures Apply(s, ops).Initialized?
    ensures Get(Apply(s, ops), w) == LastWrite(ops, w, Get(s, w))
    decreases |ops|
  {
    ApplyKeepsInitialized(s, ops);
    if |ops| > 0 {
      var front := ops[..|ops| - 1];
      var last := ops[|ops| - 1];
      assert ops == front + [last];
      ApplyAppend(s, front, [last]);
      GetAfterTrace(s, front, w);
      var mid := Apply(s, front);
      assert Apply(s, ops) == Apply(mid, [last]);
      assert Apply(mid, [last]) == Perform(mid, last) by {
        assert [last][1..] == [];
      }
      match last
      case OpInit =>
      case OpPut(v, g) =>
        if v != w { OtherWindowsUnaffected(mid, v, w, g); }
      case OpRemove(v) =>
        if v != w { OtherWindowsUnaffected(mid, v, w, 0); }
    }
  }

  /** The reference reading of a trace that never puts `w` is either the earlier
      reading or 0. */
  lemma {:induction false} LastWriteWithoutPut(ops: seq<StoreOp>, w: WindowId, before: Group)
    requires NeverPut(ops, w)
    ensures LastWrite(ops, w, before) in {before, 0}
    decreases |ops|
  {
    if |ops| > 0 {
      var front := ops[..|ops| - 1];
      assert NeverPut(front, w) by {
        forall i | 0 <= i < |front| ensures !(front[i].OpPut? && front[i].window == w) {
          assert front[i] == ops[i];
        }
      }
      LastWriteWithoutPut(front, w, before);
    }
  }

  /** On a store created by `init`, a window that no later call ever puts reads as 0. */
  lemma NeverInsertedReadsZero(ops: seq<StoreOp>, w: WindowId)
    requires NeverPut(ops, w)
    ensures Apply(Init(Uninitialized), ops).Initialized?
    ensures Get(Apply(Init(Uninitialized), ops), w) == 0
  {
    GetAfterTrace(Init(Uninitialized), ops, w);
    LastWriteWithoutPut(ops, w, 0);
  }

  /** Until `init` is called, no sequence of puts and removes changes the store. */
  lemma {:induction false} UninitializedIsInert(ops: seq<StoreOp>)
    requires NoInit(ops)
    ensures Apply(Uninitialized, ops) == Uninitialized
    decreases |ops|
  {
    if |ops| > 0 {
      assert !ops[0].OpInit?;
      assert NoInit(ops[1..]) by {
        forall i | 0 <= i < |ops[1..]| ensures !ops[1..][i].OpInit? {
          assert ops[1..][i] == ops[i + 1];
        }
      }
      UninitializedIsInert(ops[1..]);
    }
  }
}
