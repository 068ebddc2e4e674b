/**
 A table of entries that are addressed by their position, shared between threads: a growth
 lock, a lock around the list of entry locks, and one lock per entry.
 */
module OffsetTable {
  import opened Options

  /** What an entry holds. */
  type Value = nat

  /** A block of entries, of which the first `used` are handed out. */
  datatype Slots = Slots(entries: seq<Value>, used: nat)

  predicate GoodSlots(slots: Slots)
  {
    slots.used <= |slots.entries|
  }

  /** A block of twice the size that starts with the entries handed out so far. */
  predicate Grown(slots: Slots, slots': Slots)
  {
    && GoodSlots(slots) && |slots'.entries| == 2 * |slots.entries| && slots'.used == slots.used
    && slots'.entries[..slots.used] == slots.entries[..slots.used]
  }

  // ----- one thread -----

  class SerialOffsetTable {
    var entries: seq<Value>
    var used: nat

    ghost predicate Valid()
      reads this
    {
      used <= |entries| && |entries| > 0
    }

    /** The entries handed out so far. */
    ghost function Contents(): seq<Value>
      requires Valid()
      reads this
    {
      entries[..used]
    }

    constructor (initSize: nat, garbage: Value)
      requires initSize > 0
      ensures Valid() && Contents() == []
    {
      entries := seq(initSize, i => garbage);
      used := 0;
    }

    method GrowNew(garbage: Value)
      requires Valid()
      modifies this
      ensures Valid() && used == old(used) && |entries| == 2 * |old(entries)|
      ensures Contents() == old(Contents())
    {
      var bigger: seq<Value> := seq(2 * |entries|, i => garbage);
      var copied := 0;
      while copied < used
        invariant copied <= used && |bigger| == 2 * |entries| && Valid() && entries == old(entries) && used == old(used)
        invariant bigger[..copied] == entries[..copied]
      {
        bigger := bigger[copied := entries[copied]];
        copied := copied + 1;
      }
      entries := bigger;
    }

    /** Appends a value, growing the block as often as needed, and returns its position. */
    method BuildWith(value: Value, garbage: Value) returns (offset: nat)
      requires Valid()
      modifies this
      ensures Valid() && offset == old(used)
      ensures Contents() == old(Contents()) + [value]
    {
      while |entries| - used < 1
        invariant Valid() && used == old(used) && Contents() == old(Contents())
        decreases used + 1 - |entries|
      {
        GrowNew(garbage);
      }
      offset := used;
      used := used + 1;
      entries := entries[offset := value];
    }

    method Lookup(offset: nat) returns (value: Value)
      requires Valid() && offset < used
      ensures value == Contents()[offset]
    {
      value := entries[offset];
    }

    method Update(offset: nat, value: Value)
      requires Valid() && offset < used
      modifies this`entries
      ensures Valid() && Contents() == old(Contents())[offset := value]
    {
      entries := entries[offset := value];
    }
  }

  // ----- many threads -----

  /** Where a thread stands. `i` is an entry and `b` a snapshot of the block. */
  datatype Pc =
    | Idle
    // build_with
    | BuildGrowth(v: Value)
    | BuildBlock(v: Value, b: nat)
    | BuildSlot(v: Value, b: nat, i: nat)
    | BuildOuter(v: Value, b: nat, i: nat)
    | BuildResized(v: Value, b: nat, i: nat)
    | BuildWritten(i: nat)
    | BuildReleased(i: nat)
    // with_entry
    | ReadOuter(i: nat)
    | ReadInner(i: nat)
    | ReadBlock(i: nat, b: nat)
    | ReadLeaving
    // with_entry_mut
    | EditGrowth(i: nat)
    | EditOuter(i: nat)
    | EditInner(i: nat)
    | EditBlock(i: nat, b: nat)
    | EditLeaving
    | EditLeft

  /** The shared memory, the number of entry locks, where each thread stands, the entries whose
      build_with has returned, and the last value written to each entry. */
  datatype State = State(blocks: seq<Slots>, locks: nat, threads: map<nat, Pc>, built: set<nat>, latest: map<nat,
      Value>)

  predicate GrowthWrite(pc: Pc)
  {
    pc.BuildGrowth? || pc.BuildBlock? || pc.BuildSlot? || pc.BuildOuter? || pc.BuildResized? || pc.BuildWritten?
        || pc.BuildReleased?
  }

  predicate GrowthRead(pc: Pc)
  {
    pc.EditGrowth? || pc.EditOuter? || pc.EditInner? || pc.EditBlock? || pc.EditLeaving? || pc.EditLeft?
  }

  predicate OuterWrite(pc: Pc)
  {
    pc.BuildOuter? || pc.BuildResized? || pc.BuildWritten?
  }

  predicate OuterRead(pc: Pc)
  {
    || pc.ReadOuter? || pc.ReadInner? || pc.ReadBlock? || pc.ReadLeaving?
    || pc.EditOuter? || pc.EditInner? || pc.EditBlock? || pc.EditLeaving?
  }

  predicate InnerRead(pc: Pc, i: nat)
  {
    (pc.ReadInner? || pc.ReadBlock?) && pc.i == i
  }

  predicate InnerWrite(pc: Pc, i: nat)
  {
    (pc.EditInner? || pc.EditBlock?) && pc.i == i
  }

  /** Two threads hold the same lock in ways that exclude each other. */
  predicate Clash(one: Pc, two: Pc)
  {
    || (GrowthWrite(one) && (GrowthWrite(two) || GrowthRead(two)))
    || (OuterWrite(one) && (OuterWrite(two) || OuterRead(two)))
    || ((one.EditInner? || one.EditBlock?) && (InnerWrite(two, one.i) || InnerRead(two, one.i)))
  }

  datatype Action =
    | BeginBuild(v: Value)
    | TakeBlock
    | Allocate
    | Grow(slots: Slots)
    | LockOuter
    | Resize
    | WriteNew
    | UnlockOuter
    | FinishBuild
    | BeginRead(i: nat)
    | LockEntry
    | Snapshot
    | BeginEdit(i: nat)
    | Store(v: Value)
    | Release

  function Last(st: State): nat
    requires st.blocks != []
  {
    |st.blocks| - 1
  }

  /** The thread's position after a step; None if the step is not possible there. */
  function Moved(st: State, pc: Pc, action: Action): Option<Pc>
    requires st.blocks != []
  {
    match action
    case BeginBuild(v) => if pc.Idle? then Some(BuildGrowth(v)) else None
    case TakeBlock => if pc.BuildGrowth? then Some(BuildBlock(pc.v, Last(st))) else None
    case Allocate =>
      if pc.BuildBlock? && pc.b < |st.blocks| && st.blocks[pc.b].used < |st.blocks[pc.b].entries| then
        Some(BuildSlot(pc.v, pc.b, st.blocks[pc.b].used))
      else None
    case Grow(slots) =>
      if pc.BuildBlock? && pc.b < |st.blocks| && st.blocks[pc.b].used >= |st.blocks[pc.b].entries|
          && Grown(st.blocks[pc.b], slots) then
        Some(BuildBlock(pc.v, |st.blocks|))
      else None
    case LockOuter =>
      if pc.BuildSlot? then Some(BuildOuter(pc.v, pc.b, pc.i))
      else if pc.EditGrowth? then Some(EditOuter(pc.i))
      else None
    case Resize => if pc.BuildOuter? then Some(BuildResized(pc.v, pc.b, pc.i)) else None
    case WriteNew => if pc.BuildResized? && pc.b < |st.blocks| && pc.i < |st.blocks[pc.b].entries|
        then Some(BuildWritten(pc.i)) else None
    case UnlockOuter => if pc.BuildWritten? then Some(BuildReleased(pc.i)) else None
    case FinishBuild => if pc.BuildReleased? then Some(Idle) else None
    case BeginRead(i) => if pc.Idle? && i in st.built then Some(ReadOuter(i)) else None
    case LockEntry =>
      if pc.ReadOuter? && pc.i < st.locks then Some(ReadInner(pc.i))
      else if pc.EditOuter? && pc.i < st.locks then Some(EditInner(pc.i))
      else None
    case Snapshot =>
      if pc.ReadInner? then Some(ReadBlock(pc.i, Last(st)))
      else if pc.EditInner? then Some(EditBlock(pc.i, Last(st)))
      else None
    case BeginEdit(i) => if pc.Idle? && i in st.built then Some(EditGrowth(i)) else None
    case Store(_) => if pc.EditBlock? && pc.b < |st.blocks| && pc.i < |st.blocks[pc.b].entries| then Some(pc) else None
    case Release =>
      match pc
      case ReadBlock(_, _) => Some(ReadLeaving)
      case EditBlock(_, _) => Some(EditLeaving)
      case EditLeaving => Some(EditLeft)
      case ReadLeaving => Some(Idle)
      case EditLeft => Some(Idle)
      case _ => None
  }

  /** A step is possible when no other thread holds a lock that the step takes. */
  ghost predicate Enabled(st: State, tid: nat, action: Action)
  {
    && tid in st.threads && st.blocks != []
    && var pc' := Moved(st, st.threads[tid], action);
       pc'.Some? && forall other :: other in st.threads && other != tid ==>
         !Clash(pc'.value, st.threads[other]) && !Clash(st.threads[other], pc'.value)
  }

  /** The value a reader sees. */
  function Seen(st: State, pc: Pc): Value
    requires pc.ReadBlock? && pc.b < |st.blocks| && pc.i < |st.blocks[pc.b].entries|
  {
    st.blocks[pc.b].entries[pc.i]
  }

  function Stored(blocks: seq<Slots>, b: nat, i: nat, v: Value): seq<Slots>
    requires b < |blocks| && i < |blocks[b].entries|
  {
    blocks[b := blocks[b].(entries := blocks[b].entries[i := v])]
  }

  ghost function Apply(st: State, tid: nat, action: Action): State
    requires Enabled(st, tid, action)
  {
    var pc := st.threads[tid];
    var st' := st.(threads := st.threads[tid := Moved(st, pc, action).value]);
    match action
    case Allocate => st'.(blocks := st.blocks[pc.b := st.blocks[pc.b].(used := st.blocks[pc.b].used + 1)])
    case Grow(slots) => st'.(blocks := st.blocks + [slots])
    case Resize => st'.(locks := if pc.b < |st.blocks| then |st.blocks[pc.b].entries| else 0)
    case WriteNew => st'.(blocks := Stored(st.blocks, pc.b, pc.i, pc.v), latest := st.latest[pc.i := pc.v])
    case FinishBuild => st'.(built := st.built + {pc.i})
    case Store(v) => st'.(blocks := Stored(st.blocks, pc.b, pc.i, v), latest := st.latest[pc.i := v])
    case _ => st'
  }

  ghost predicate Next(st: State, st': State)
  {
    exists tid, action :: Enabled(st, tid, action) && st' == Apply(st, tid, action)
  }

  /** What a table taken over from a single thread looks like. */
  predicate Init(st: State)
  {
    && |st.blocks| == 1 && GoodSlots(st.blocks[0]) && st.locks == |st.blocks[0].entries|
    && (forall tid :: tid in st.threads ==> st.threads[tid].Idle?)
    && st.built == st.latest.Keys && (forall i :: 0 <= i < st.blocks[0].used ==> i in st.latest)
    && (forall i :: i in st.latest ==> i < st.blocks[0].used && st.latest[i] == st.blocks[0].entries[i])
  }

  // ----- the invariant -----

  /** The current block holds the last value written to every entry. */
  ghost predicate Memory(st: State)
  {
    && st.blocks != [] && (forall b :: 0 <= b < |st.blocks| ==> GoodSlots(st.blocks[b]))
    && (forall i :: i in st.latest ==> i < st.blocks[Last(st)].used && st.blocks[Last(st)].entries[i] == st.latest[i])
    && (forall i :: i in st.built ==> i in st.latest && i < st.locks)
    && st.locks <= |st.blocks[Last(st)].entries|
  }

  ghost predicate Exclusive(st: State)
  {
    forall one, two :: one in st.threads && two in st.threads && one != two ==> !Clash(st.threads[one], st.threads[two])
  }

  /** What holds of a thread: a reader's snapshot, however old, shows the last value written, and whoever
      writes has the current block. */
  ghost predicate ThreadOk(st: State, pc: Pc)
    requires st.blocks != []
  {
    match pc
    case Idle => true
    case BuildGrowth(_) => true
    case BuildBlock(_, b) => b == Last(st)
    case BuildSlot(_, b, i) => b == Last(st) && i < st.blocks[b].used && i !in st.latest
    case BuildOuter(_, b, i) => b == Last(st) && i < st.blocks[b].used && i !in st.latest
    case BuildResized(_, b, i) => b == Last(st) && i < st.blocks[b].used && i !in st.latest
        && st.locks == |st.blocks[b].entries|
    case BuildWritten(i) => i in st.latest && i < st.locks
    case BuildReleased(i) => i in st.latest && i < st.locks
    case ReadOuter(i) => i in st.built
    case ReadInner(i) => i in st.built
    case ReadBlock(i, b) =>
      i in st.built && i in st.latest && b < |st.blocks| && i < |st.blocks[b].entries|
          && st.blocks[b].entries[i] == st.latest[i]
    case EditGrowth(i) => i in st.built
    case EditOuter(i) => i in st.built
    case EditInner(i) => i in st.built
    case EditBlock(i, b) => i in st.built && b == Last(st)
    case ReadLeaving => true
    case EditLeaving => true
    case EditLeft => true
  }

  ghost predicate Inv(st: State)
  {
    && Memory(st) && Exclusive(st)
    && forall tid :: tid in st.threads ==> ThreadOk(st, st.threads[tid])
  }

  // ----- every step keeps the invariant -----

  lemma {:induction false} ExclusiveKept(st: State, tid: nat, action: Action)
    requires Exclusive(st) && Enabled(st, tid, action)
    ensures Exclusive(Apply(st, tid, action))
  {
    hide Moved, Clash;
  }

  predicate MovesOnly(action: Action)
  {
    !action.Allocate? && !action.Grow? && !action.Resize? && !action.WriteNew? && !action.FinishBuild? && !action.Store?
  }

  lemma {:induction false} MovedOk(st: State, pc: Pc, action: Action)
    requires Memory(st) && ThreadOk(st, pc) && MovesOnly(action) && Moved(st, pc, action).Some?
    ensures ThreadOk(st, Moved(st, pc, action).value)
  {
  }

  lemma {:induction false} SameMemory(st: State, st': State, pc: Pc)
    requires st.blocks != [] && ThreadOk(st, pc) && st' == st.(threads := st'.threads)
    ensures ThreadOk(st', pc)
  {
  }

  /** Steps that change nothing but where the thread stands. */
  lemma {:induction false} MoveKeeps(st: State, tid: nat, action: Action)
    requires Inv(st) && Enabled(st, tid, action) && MovesOnly(action)
    ensures Inv(Apply(st, tid, action))
  {
    hide Clash, Exclusive, ThreadOk, Moved;
    var st' := Apply(st, tid, action);
    ExclusiveKept(st, tid, action);
    MovedOk(st, st.threads[tid], action);
    forall other | other in st'.threads ensures ThreadOk(st', st'.threads[other]) {
      SameMemory(st, st', st'.threads[other]);
    }
  }

  lemma {:induction false} AllocateKeeps(st: State, tid: nat)
    requires Inv(st) && Enabled(st, tid, Allocate)
    ensures Inv(Apply(st, tid, Allocate))
  {
    var st' := Apply(st, tid, Allocate);
    var pc := st.threads[tid];
    ExclusiveKept(st, tid, Allocate);
    assert ThreadOk(st, pc);
    forall other | other in st'.threads ensures ThreadOk(st', st'.threads[other]) {
      if other != tid {
        assert ThreadOk(st, st.threads[other]) && !Clash(pc, st.threads[other]);
      }
    }
  }

  lemma {:induction false} GrowKeeps(st: State, tid: nat, slots: Slots)
    requires Inv(st) && Enabled(st, tid, Grow(slots))
    ensures Inv(Apply(st, tid, Grow(slots)))
  {
    var st' := Apply(st, tid, Grow(slots));
    var pc := st.threads[tid];
    ExclusiveKept(st, tid, Grow(slots));
    assert ThreadOk(st, pc);
    forall i | i in st.latest ensures slots.entries[i] == st.latest[i] {
      assert slots.entries[..slots.used][i] == st.blocks[Last(st)].entries[..slots.used][i];
    }
    forall other | other in st'.threads ensures ThreadOk(st', st'.threads[other]) {
      if other != tid {
        assert ThreadOk(st, st.threads[other]) && !Clash(pc, st.threads[other]);
      }
    }
  }

  lemma {:induction false} ResizeKeeps(st: State, tid: nat)
    requires Inv(st) && Enabled(st, tid, Resize)
    ensures Inv(Apply(st, tid, Resize))
  {
    var st' := Apply(st, tid, Resize);
    var pc := st.threads[tid];
    ExclusiveKept(st, tid, Resize);
    assert ThreadOk(st, pc);
    forall other | other in st'.threads ensures ThreadOk(st', st'.threads[other]) {
      if other != tid {
        assert ThreadOk(st, st.threads[other]) && !Clash(pc, st.threads[other]);
      }
    }
  }

  lemma {:induction false} WriteNewKeeps(st: State, tid: nat)
    requires Inv(st) && Enabled(st, tid, WriteNew)
    ensures Inv(Apply(st, tid, WriteNew))
  {
    var st' := Apply(st, tid, WriteNew);
    var pc := st.threads[tid];
    ExclusiveKept(st, tid, WriteNew);
    assert ThreadOk(st, pc);
    forall other | other in st'.threads ensures ThreadOk(st', st'.threads[other]) {
      if other != tid {
        assert ThreadOk(st, st.threads[other]) && !Clash(pc, st.threads[other]);
      }
    }
  }

  lemma {:induction false} FinishBuildKeeps(st: State, tid: nat)
    requires Inv(st) && Enabled(st, tid, FinishBuild)
    ensures Inv(Apply(st, tid, FinishBuild))
  {
    var st' := Apply(st, tid, FinishBuild);
    var pc := st.threads[tid];
    ExclusiveKept(st, tid, FinishBuild);
    assert ThreadOk(st, pc);
    forall other | other in st'.threads ensures ThreadOk(st', st'.threads[other]) {
      if other != tid {
        assert ThreadOk(st, st.threads[other]) && !Clash(pc, st.threads[other]);
      }
    }
  }

  lemma {:induction false} StoreKeeps(st: State, tid: nat, v: Value)
    requires Inv(st) && Enabled(st, tid, Store(v))
    ensures Inv(Apply(st, tid, Store(v)))
  {
    var st' := Apply(st, tid, Store(v));
    var pc := st.threads[tid];
    ExclusiveKept(st, tid, Store(v));
    assert ThreadOk(st, pc);
    forall other | other in st'.threads ensures ThreadOk(st', st'.threads[other]) {
      if other != tid {
        assert ThreadOk(st, st.threads[other]) && !Clash(pc, st.threads[other]) && !Clash(st.threads[other], pc);
      }
    }
  }

  lemma {:induction false} NextKeeps(st: State, st': State)
    requires Inv(st) && Next(st, st')
    ensures Inv(st')
  {
    hide Inv, Enabled, Apply;
    var tid, action :| Enabled(st, tid, action) && st' == Apply(st, tid, action);
    match action
    case Allocate => AllocateKeeps(st, tid);
    case Grow(slots) => GrowKeeps(st, tid, slots);
    case Resize => ResizeKeeps(st, tid);
    case WriteNew => WriteNewKeeps(st, tid);
    case FinishBuild => FinishBuildKeeps(st, tid);
    case Store(v) => StoreKeeps(st, tid, v);
    case _ => MoveKeeps(st, tid, action);
  }

  // ----- whole runs -----

  ghost predicate Run(run: seq<State>)
  {
    run != [] && Init(run[0]) && forall k :: 0 <= k < |run| - 1 ==> Step(run, k)
  }

  ghost predicate Step(run: seq<State>, k: nat)
    requires k + 1 < |run|
  {
    Next(run[k], run[k + 1])
  }

  lemma {:induction false} InitInv(st: State)
    requires Init(st)
    ensures Inv(st)
  {
  }

  lemma {:induction false} RunKeeps(run: seq<State>, k: nat)
    requires Run(run) && k < |run|
    ensures Inv(run[k])
  {
    hide Inv, Next, Init;
    if k == 0 {
      InitInv(run[0]);
    } else {
      RunKeeps(run, k - 1);
      assert Step(run, k - 1);
      NextKeeps(run[k - 1], run[k]);
    }
  }

  /** In every run, at every moment a reader looks at its entry, it sees the last value written to it,
      even if the block was replaced since it took its snapshot. */
  lemma {:induction false} ReadsSeeLastWrite(run: seq<State>, k: nat, tid: nat)
    requires Run(run) && k < |run| && tid in run[k].threads && run[k].threads[tid].ReadBlock?
    ensures var pc := run[k].threads[tid];
            && pc.i in run[k].latest && pc.b < |run[k].blocks| && pc.i < |run[k].blocks[pc.b].entries|
            && Seen(run[k], pc) == run[k].latest[pc.i]
  {
    hide Run;
    RunKeeps(run, k);
    assert ThreadOk(run[k], run[k].threads[tid]);
  }

  /** In every run, no update is lost: the current block holds the last value written to every entry. */
  lemma {:induction false} NoUpdateLost(run: seq<State>, k: nat, i: nat)
    requires Run(run) && k < |run| && i in run[k].latest
    ensures run[k].blocks != []
    ensures var slots := run[k].blocks[Last(run[k])];
            i < slots.used <= |slots.entries| && slots.entries[i] == run[k].latest[i]
  {
    hide Run;
    RunKeeps(run, k);
  }

  // ----- what calls do, by their arguments alone -----

  datatype Event = Event(tid: nat, action: Action)

  ghost predicate Stepped(run: seq<State>, events: seq<Event>, k: nat)
    requires k < |events| && k + 1 < |run|
  {
    && Enabled(run[k], events[k].tid, events[k].action)
    && run[k + 1] == Apply(run[k], events[k].tid, events[k].action)
  }

  /** A run with its steps. */
  ghost predicate Traced(run: seq<State>, events: seq<Event>)
  {
    && |run| == |events| + 1 && Init(run[0])
    && forall k :: 0 <= k < |events| ==> Stepped(run, events, k)
  }

  lemma {:induction false} TracedRuns(run: seq<State>, events: seq<Event>)
    requires Traced(run, events)
    ensures Run(run)
  {
    hide Apply, Enabled, Init;
    forall k | 0 <= k < |run| - 1 ensures Step(run, k) {
      assert Stepped(run, events, k);
    }
  }

  predicate Begins(action: Action)
  {
    action.BeginBuild? || action.BeginRead? || action.BeginEdit?
  }

  /** The call that a thread began last in the first `k` steps. */
  function LastCall(events: seq<Event>, k: nat, tid: nat): Option<Action>
    requires k <= |events|
  {
    if k == 0 then None
    else if events[k - 1].tid == tid && Begins(events[k - 1].action) then Some(events[k - 1].action)
    else LastCall(events, k - 1, tid)
  }

  /** Where a thread stands goes with the call it began, and with that call's arguments. */
  predicate Doing(pc: Pc, call: Option<Action>)
  {
    match pc
    case Idle => true
    case BuildGrowth(v) => call == Some(BeginBuild(v))
    case BuildBlock(v, _) => call == Some(BeginBuild(v))
    case BuildSlot(v, _, _) => call == Some(BeginBuild(v))
    case BuildOuter(v, _, _) => call == Some(BeginBuild(v))
    case BuildResized(v, _, _) => call == Some(BeginBuild(v))
    case BuildWritten(_) => call.Some? && call.value.BeginBuild?
    case BuildReleased(_) => call.Some? && call.value.BeginBuild?
    case ReadOuter(i) => call == Some(BeginRead(i))
    case ReadInner(i) => call == Some(BeginRead(i))
    case ReadBlock(i, _) => call == Some(BeginRead(i))
    case ReadLeaving => call.Some? && call.value.BeginRead?
    case EditGrowth(i) => call == Some(BeginEdit(i))
    case EditOuter(i) => call == Some(BeginEdit(i))
    case EditInner(i) => call == Some(BeginEdit(i))
    case EditBlock(i, _) => call == Some(BeginEdit(i))
    case EditLeaving => call.Some? && call.value.BeginEdit?
    case EditLeft => call.Some? && call.value.BeginEdit?
  }

  lemma {:induction false} MovedDoing(st: State, pc: Pc, action: Action, call: Option<Action>)
    requires st.blocks != [] && Moved(st, pc, action).Some? && Doing(pc, call)
    ensures Doing(Moved(st, pc, action).value, if Begins(action) then Some(action) else call)
  {
    hide Grown;
  }

  lemma {:induction false} AllDoing(run: seq<State>, events: seq<Event>, k: nat, tid: nat)
    requires Traced(run, events) && k < |run| && tid in run[k].threads
    ensures Doing(run[k].threads[tid], LastCall(events, k, tid))
  {
    hide Doing, Moved, Begins, Clash;
    if k == 0 {
      NobodyDoing(run[0], tid);
    } else {
      assert Stepped(run, events, k - 1);
      ThreadsOf(run[k - 1], events[k - 1].tid, events[k - 1].action);
      AllDoing(run, events, k - 1, tid);
      if events[k - 1].tid == tid {
        MovedDoing(run[k - 1], run[k - 1].threads[tid], events[k - 1].action, LastCall(events, k - 1, tid));
      }
    }
  }

  lemma {:induction false} NobodyDoing(st: State, tid: nat)
    requires Init(st) && tid in st.threads
    ensures Doing(st.threads[tid], None)
  {
  }

  lemma {:induction false} ThreadsOf(st: State, tid: nat, action: Action)
    requires Enabled(st, tid, action)
    ensures st.blocks != [] && tid in st.threads && Moved(st, st.threads[tid], action).Some?
    ensures Apply(st, tid, action).threads == st.threads[tid := Moved(st, st.threads[tid], action).value]
  {
    hide Moved, Clash;
  }

  /** What the entries should hold after the first `k` steps: a build writes its argument to a new entry, and an edit
      the value it stores to the entry it was called for. */
  function Contents(run: seq<State>, events: seq<Event>, k: nat): map<nat, Value>
    requires |run| == |events| + 1 && k <= |events|
  {
    if k == 0 then run[0].latest
    else
      var before, event := Contents(run, events, k - 1), events[k - 1];
      var call := LastCall(events, k - 1, event.tid);
      if event.action.WriteNew? && call.Some? && call.value.BeginBuild? && Position(run[k - 1], event.tid).Some? then
        before[Position(run[k - 1], event.tid).value := call.value.v]
      else if event.action.Store? && call.Some? && call.value.BeginEdit? then
        before[call.value.i := event.action.v]
      else before
  }

  /** The entry a thread is building. */
  function Position(st: State, tid: nat): Option<nat>
  {
    if tid !in st.threads then None
    else match st.threads[tid]
      case BuildSlot(_, _, i) => Some(i)
      case BuildOuter(_, _, i) => Some(i)
      case BuildResized(_, _, i) => Some(i)
      case BuildWritten(i) => Some(i)
      case BuildReleased(i) => Some(i)
      case _ => None
  }

  lemma {:induction false} LatestStep(st: State, tid: nat, action: Action, call: Option<Action>)
    requires Enabled(st, tid, action) && tid in st.threads && Doing(st.threads[tid], call)
    ensures Apply(st, tid, action).latest ==
            if action.WriteNew? && call.Some? && call.value.BeginBuild? && Position(st, tid).Some? then
              st.latest[Position(st, tid).value := call.value.v]
            else if action.Store? && call.Some? && call.value.BeginEdit? then st.latest[call.value.i := action.v]
            else st.latest
  {
    hide Grown, Clash;
  }

  /** In every run, the entries hold what the calls should have written by their arguments. */
  lemma {:induction false} LatestIsContents(run: seq<State>, events: seq<Event>, k: nat)
    requires Traced(run, events) && k < |run|
    ensures run[k].latest == Contents(run, events, k)
  {
    hide Enabled, Apply, Doing, Position;
    if k > 0 {
      assert Stepped(run, events, k - 1);
      LatestIsContents(run, events, k - 1);
      ThreadsOf(run[k - 1], events[k - 1].tid, events[k - 1].action);
      AllDoing(run, events, k - 1, events[k - 1].tid);
      LatestStep(run[k - 1], events[k - 1].tid, events[k - 1].action, LastCall(events, k - 1, events[k - 1].tid));
    }
  }

  /** In every run, a thread that reads sees in the entry it was called for what the calls before have written there. */
  lemma {:induction false} ReadSees(run: seq<State>, events: seq<Event>, k: nat, tid: nat)
    requires Traced(run, events) && k < |run| && tid in run[k].threads && run[k].threads[tid].ReadBlock?
    ensures var pc, call := run[k].threads[tid], LastCall(events, k, tid);
            && call.Some? && call.value.BeginRead? && call.value.i in Contents(run, events, k)
            && pc.b < |run[k].blocks| && pc.i < |run[k].blocks[pc.b].entries|
            && Seen(run[k], pc) == Contents(run, events, k)[call.value.i]
  {
    hide Traced, Contents, LastCall;
    TracedRuns(run, events);
    AllDoing(run, events, k, tid);
    LatestIsContents(run, events, k);
    ReadsSeeLastWrite(run, k, tid);
  }

  /** Step `a` begins a build of `v`, and step `c` is where the same thread is done with it; the position it returns. */
  ghost predicate Builds(run: seq<State>, events: seq<Event>, a: nat, c: nat, v: Value, i: nat)
    requires Traced(run, events)
  {
    && a < c < |events| && events[a].action == BeginBuild(v) && events[c] == Event(events[a].tid, FinishBuild)
    && Position(run[c], events[c].tid) == Some(i)
    && forall m :: a < m < c && events[m].tid == events[a].tid ==>
         !Begins(events[m].action) && !events[m].action.FinishBuild?
  }

  /** Nobody edits entry `i` in the steps from `from` to `to`. */
  ghost predicate Unedited(events: seq<Event>, i: nat, from: nat, to: nat)
    requires to <= |events|
  {
    forall m :: from <= m < to && events[m].action.Store? ==> LastCall(events, m, events[m].tid) != Some(BeginEdit(i))
  }

  lemma {:induction false} CallStays(events: seq<Event>, a: nat, k: nat)
    requires a < k <= |events| && Begins(events[a].action)
    requires forall m :: a < m < k && events[m].tid == events[a].tid ==> !Begins(events[m].action)
    ensures LastCall(events, k, events[a].tid) == Some(events[a].action)
  {
    if k > a + 1 {
      CallStays(events, a, k - 1);
    }
  }

  /** A build that is under way: its entry is not known to anybody else, and once written it holds the argument. */
  ghost predicate Underway(st: State, tid: nat, v: Value)
  {
    && tid in st.threads
    && match st.threads[tid]
       case BuildWritten(i) => i in st.latest && st.latest[i] == v && i !in st.built
       case BuildReleased(i) => i in st.latest && st.latest[i] == v && i !in st.built
       case BuildSlot(_, _, i) => i !in st.built
       case BuildOuter(_, _, i) => i !in st.built
       case BuildResized(_, _, i) => i !in st.built
       case _ => true
  }

  lemma {:induction false} UnderwayStep(st: State, tid: nat, action: Action, other: nat, v: Value)
    requires Inv(st) && Enabled(st, tid, action) && Underway(st, other, v) && GrowthWrite(st.threads[other])
    requires st.threads[other].BuildResized? ==> st.threads[other].v == v
    ensures Underway(Apply(st, tid, action), other, v)
  {
    hide Grown;
    assert ThreadOk(st, st.threads[tid]) && ThreadOk(st, st.threads[other]);
  }

  /** From the beginning of a build to its end, the entry is the build's own. */
  lemma {:induction false} UnderwayUntil(run: seq<State>, events: seq<Event>, a: nat, k: nat, v: Value)
    requires Traced(run, events) && a < k < |run| && events[a].action == BeginBuild(v)
    requires forall m :: a < m < k && events[m].tid == events[a].tid ==>
               !Begins(events[m].action) && !events[m].action.FinishBuild?
    ensures Underway(run[k], events[a].tid, v) && GrowthWrite(run[k].threads[events[a].tid])
    decreases k
  {
    hide Inv, Apply, Enabled, Underway, GrowthWrite, Moved, Clash;
    TracedRuns(run, events);
    RunKeeps(run, k - 1);
    assert Stepped(run, events, k - 1);
    var tid := events[a].tid;
    if k == a + 1 {
      JustBegun(run[a], tid, v);
    } else {
      UnderwayUntil(run, events, a, k - 1, v);
      HasThread(run[k - 1], tid, v);
      AllDoing(run, events, k - 1, tid);
      CallStays(events, a, k - 1);
      ArgumentKept(run[k - 1].threads[tid], v);
      UnderwayStep(run[k - 1], events[k - 1].tid, events[k - 1].action, tid, v);
      StillBuilding(run[k - 1], events[k - 1].tid, events[k - 1].action, tid);
    }
  }

  lemma {:induction false} HasThread(st: State, tid: nat, v: Value)
    requires Underway(st, tid, v)
    ensures tid in st.threads
  {
  }

  lemma {:induction false} ArgumentKept(pc: Pc, v: Value)
    requires Doing(pc, Some(BeginBuild(v)))
    ensures pc.BuildResized? ==> pc.v == v
  {
  }

  lemma {:induction false} JustBegun(st: State, tid: nat, v: Value)
    requires Enabled(st, tid, BeginBuild(v))
    ensures Underway(Apply(st, tid, BeginBuild(v)), tid, v) && GrowthWrite(Apply(st, tid, BeginBuild(v)).threads[tid])
  {
  }

  lemma {:induction false} StillBuilding(st: State, tid: nat, action: Action, other: nat)
    requires Enabled(st, tid, action) && other in st.threads && GrowthWrite(st.threads[other])
    requires tid == other ==> !action.FinishBuild?
    ensures other in Apply(st, tid, action).threads && GrowthWrite(Apply(st, tid, action).threads[other])
  {
    hide Grown, Clash;
  }

  /** In every run, the entry that a call of build_with returns holds the argument of the call until it is edited,
      and it is a new one. */
  lemma {:induction false} BuildAdds(run: seq<State>, events: seq<Event>, a: nat, c: nat, v: Value, i: nat, k: nat)
    requires Traced(run, events) && Builds(run, events, a, c, v, i) && c < k < |run| && Unedited(events, i, c + 1, k)
    ensures i !in run[c].built && i in run[c + 1].built && i in Contents(run, events, k)
            && Contents(run, events, k)[i] == v
    decreases k
  {
    hide Enabled, Apply, Inv, Doing, Contents, LastCall;
    TracedRuns(run, events);
    UnderwayUntil(run, events, a, c, v);
    assert Stepped(run, events, c);
    Finished(run[c], events[c].tid, v, i);
    LatestIsContents(run, events, k);
    BuiltKept(run, events, c, k, v, i);
  }

  lemma {:induction false} Finished(st: State, tid: nat, v: Value, i: nat)
    requires Enabled(st, tid, FinishBuild) && Underway(st, tid, v) && Position(st, tid) == Some(i)
    ensures var st' := Apply(st, tid, FinishBuild);
            i !in st.built && i in st'.built && i in st'.latest && st'.latest[i] == v
  {
  }

  lemma {:induction false} BuiltKept(run: seq<State>, events: seq<Event>, c: nat, k: nat, v: Value, i: nat)
    requires Traced(run, events) && c < k < |run| && Unedited(events, i, c + 1, k)
    requires i in run[c + 1].built && i in run[c + 1].latest && run[c + 1].latest[i] == v
    ensures i in run[k].built && i in run[k].latest && run[k].latest[i] == v
    decreases k
  {
    hide Enabled, Apply, Inv, LastCall;
    if k > c + 1 {
      BuiltKept(run, events, c, k - 1, v, i);
      assert Stepped(run, events, k - 1);
      TracedRuns(run, events);
      RunKeeps(run, k - 1);
      ThreadsOf(run[k - 1], events[k - 1].tid, events[k - 1].action);
      AllDoing(run, events, k - 1, events[k - 1].tid);
      EntryKept(run[k - 1], events[k - 1].tid, events[k - 1].action, LastCall(events, k - 1, events[k - 1].tid), i);
    }
  }

  /** Only an edit of the entry changes it. */
  lemma {:induction false} EntryKept(st: State, tid: nat, action: Action, call: Option<Action>, i: nat)
    requires Inv(st) && Enabled(st, tid, action) && Doing(st.threads[tid], call)
    requires i in st.built && i in st.latest && (action.Store? ==> call != Some(BeginEdit(i)))
    ensures var st' := Apply(st, tid, action); i in st'.built && i in st'.latest && st'.latest[i] == st.latest[i]
  {
    hide Grown, Clash;
    assert ThreadOk(st, st.threads[tid]);
  }
}
