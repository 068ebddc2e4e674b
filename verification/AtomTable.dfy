/**
 Interning strings from many threads: readers work on snapshots, and an update lock with
 a second look at the snapshots protects the table and its block.
 */
module AtomTable {
  import opened Options
  import opened RawBlock
  import opened AtomCode

  /** One allocation of the table: its block and every version of the atom set kept in it. */
  datatype Inner = Inner(block: Block, tables: seq<set<nat>>)

  /** Where a thread stands in build_with; `b` and `t` are its snapshots of allocation and atom set. */
  datatype Pc =
    | Idle
    | Begin(s: Text)
    | HasBlock(s: Text, b: nat)
    | HasTable(s: Text, b: nat, t: nat)
    | Missed(s: Text, b: nat, t: nat)
    | Locked(s: Text, b: nat, t: nat)
    | Allocating(s: Text, b: nat, t: nat)
    | Allocated(s: Text, b: nat, t: nat, off: nat)
    | Filled(s: Text, b: nat, t: nat, off: nat)
    | Published(s: Text, atom: nat)

  datatype Call = Call(s: Text, atom: nat)

  datatype State = State(inners: seq<Inner>, lock: Option<nat>, threads: map<nat, Pc>, returned: set<Call>)

  /** One step of one thread. */
  datatype Action =
    | CallBuildWith(s: Text)
    | ReturnInlined
    | ReadBlock
    | ReadTable
    | LookUp(found: Option<nat>)
    | Lock
    | Check
    | Allocate
    | Grow(block: Block)
    | Write
    | Publish
    | Unlock

  function Current(inners: seq<Inner>): Inner
    requires inners != []
  {
    inners[|inners| - 1]
  }

  function Newest(inner: Inner): set<nat>
    requires inner.tables != []
  {
    inner.tables[|inner.tables| - 1]
  }

  predicate InRange(inners: seq<Inner>, b: nat, t: nat)
  {
    b < |inners| && t < |inners[b].tables|
  }

  /** The string of an atom, read through the current allocation. */
  function Decode(strings: seq<Text>, inners: seq<Inner>, atom: nat): Text
    requires inners != []
  {
    AsStr(strings, Current(inners).block, atom)
  }

  /** lookup_str on the newest atom set of allocation `b`. */
  predicate Finds(strings: seq<Text>, inners: seq<Inner>, b: nat, s: Text, found: Option<nat>)
    requires b < |inners| && inners[b].tables != []
  {
    if s in strings then found.Some? && found.value / 2 < |strings| && found.value % 2 == 0
        && strings[found.value / 2] == s
    else if found.Some? then found.value in Newest(inners[b]) && Decode(strings, inners, found.value) == s
    else forall a :: a in Newest(inners[b]) ==> Decode(strings, inners, a) != s
  }

  predicate SameEpoch(inners: seq<Inner>, b: nat, t: nat)
  {
    b < |inners| && b + 1 == |inners| && t + 1 == |inners[b].tables|
  }

  predicate Sane(inners: seq<Inner>)
  {
    inners != [] && forall b :: 0 <= b < |inners| ==> inners[b].tables != [] && GoodBlock(inners[b].block)
  }

  ghost predicate Enabled(strings: seq<Text>, st: State, tid: nat, action: Action)
  {
    && tid in st.threads && Sane(st.inners)
    && var pc := st.threads[tid];
       match action
       case CallBuildWith(s) => pc.Idle? && |s| < MAX_TEXT
       case ReturnInlined => pc.Begin? && Inlinable(pc.s)
       case ReadBlock => pc.Begin? && !Inlinable(pc.s)
       case ReadTable => pc.HasBlock? && pc.b < |st.inners|
       case LookUp(found) => pc.HasTable? && pc.b < |st.inners| && Finds(strings, st.inners, pc.b, pc.s, found)
       case Lock => pc.Missed? && st.lock.None?
       case Check => pc.Locked?
       case Allocate => pc.Allocating? && pc.b < |st.inners| && EntrySize(pc.s) <= FreeSpace(st.inners[pc.b].block)
       case Grow(block) => pc.Allocating? && InRange(st.inners, pc.b, pc.t) &&
         EntrySize(pc.s) > FreeSpace(st.inners[pc.b].block) && Grown(st.inners[pc.b].block, block)
       case Write => pc.Allocated? && pc.b < |st.inners|
           && pc.off + HEADER_SIZE + |pc.s| <= |st.inners[pc.b].block.bytes|
       case Publish => pc.Filled? && InRange(st.inners, pc.b, pc.t)
       case Unlock => pc.Published?
  }

  function WithBlock(inners: seq<Inner>, b: nat, block: Block): seq<Inner>
    requires b < |inners|
  {
    inners[b := inners[b].(block := block)]
  }

  function WithTable(inners: seq<Inner>, b: nat, table: set<nat>): seq<Inner>
    requires b < |inners|
  {
    inners[b := inners[b].(tables := inners[b].tables + [table])]
  }

  /** The shared memory after a step. */
  ghost function Inners(strings: seq<Text>, st: State, tid: nat, action: Action): seq<Inner>
    requires Enabled(strings, st, tid, action)
  {
    var pc := st.threads[tid];
    match action
    case Allocate => WithBlock(st.inners, pc.b,
        st.inners[pc.b].block.(ptr := st.inners[pc.b].block.ptr + EntrySize(pc.s)))
    case Grow(block) => st.inners + [Inner(block, [st.inners[pc.b].tables[pc.t]])]
    case Write => WithBlock(st.inners, pc.b, Written(st.inners[pc.b].block, pc.off, pc.s))
    case Publish => WithTable(st.inners, pc.b, st.inners[pc.b].tables[pc.t] + {TableAtom(strings, pc.off)})
    case _ => st.inners
  }

  /** Where the thread stands after a step. */
  ghost function After(strings: seq<Text>, st: State, tid: nat, action: Action): Pc
    requires Enabled(strings, st, tid, action)
  {
    var pc := st.threads[tid];
    match action
    case CallBuildWith(s) => Begin(s)
    case ReturnInlined => Idle
    case ReadBlock => HasBlock(pc.s, |st.inners| - 1)
    case ReadTable => HasTable(pc.s, pc.b, |st.inners[pc.b].tables| - 1)
    case LookUp(found) => if found.Some? then Idle else Missed(pc.s, pc.b, pc.t)
    case Lock => Locked(pc.s, pc.b, pc.t)
    case Check => if SameEpoch(st.inners, pc.b, pc.t) then Allocating(pc.s, pc.b, pc.t) else Begin(pc.s)
    case Allocate => Allocated(pc.s, pc.b, pc.t, st.inners[pc.b].block.ptr)
    case Grow(_) => Allocating(pc.s, |st.inners|, 0)
    case Write => Filled(pc.s, pc.b, pc.t, pc.off)
    case Publish => Published(pc.s, TableAtom(strings, pc.off))
    case Unlock => Idle
  }

  /** The call that returns with a step, if one does. */
  ghost function Returns(strings: seq<Text>, st: State, tid: nat, action: Action): Option<Call>
    requires Enabled(strings, st, tid, action)
  {
    var pc := st.threads[tid];
    match action
    case ReturnInlined => Some(Call(pc.s, NewInlined(pc.s)))
    case LookUp(found) => if found.Some? then Some(Call(pc.s, found.value)) else None
    case Unlock => Some(Call(pc.s, pc.atom))
    case _ => None
  }

  ghost function NewLock(strings: seq<Text>, st: State, tid: nat, action: Action): Option<nat>
    requires Enabled(strings, st, tid, action)
  {
    match action
    case Lock => Some(tid)
    case Check => if SameEpoch(st.inners, st.threads[tid].b, st.threads[tid].t) then st.lock else None
    case Unlock => None
    case _ => st.lock
  }

  ghost function Apply(strings: seq<Text>, st: State, tid: nat, action: Action): State
    requires Enabled(strings, st, tid, action)
  {
    var call := Returns(strings, st, tid, action);
    State(Inners(strings, st, tid, action), NewLock(strings, st, tid, action),
          st.threads[tid := After(strings, st, tid, action)],
          if call.Some? then st.returned + {call.value} else st.returned)
  }

  ghost predicate Next(strings: seq<Text>, st: State, st': State)
  {
    exists tid, action :: Enabled(strings, st, tid, action) && st' == Apply(strings, st, tid, action)
  }

  /** An empty table over a fresh block, and threads that have not called anything yet. */
  predicate Init(st: State)
  {
    && |st.inners| == 1 && GoodBlock(st.inners[0].block) && st.inners[0].tables == [{}]
    && st.lock.None? && st.returned == {} && forall tid :: tid in st.threads ==> st.threads[tid].Idle?
  }

  // ----- the invariant -----

  /** The entry of atom `a` is in the block, below `end`. */
  ghost predicate Entry(strings: seq<Text>, block: Block, a: nat, end: nat)
  {
    && a % 2 == 0 && a / 2 >= |strings|
    && var s := AsStr(strings, block, a);
       && Holds(block, a / 2 - |strings|, s) && a / 2 - |strings| + HEADER_SIZE + |s| <= end
       && !Inlinable(s) && s !in strings
  }

  /** Atom sets only grow, within an allocation and over all of them. */
  ghost predicate SetsGrow(inners: seq<Inner>)
  {
    && Sane(inners)
    && (forall b: nat, t: nat :: InRange(inners, b, t) ==> inners[b].tables[t] <= Newest(Current(inners)))
    && (forall b: nat, t: nat, u: nat :: InRange(inners, b, u) && t <= u && InRange(inners, b, t) ==>
        inners[b].tables[t] <= inners[b].tables[u])
  }

  /** The newest atom set holds one entry per string, and every older set is part of it. */
  ghost predicate Memory(strings: seq<Text>, inners: seq<Inner>)
  {
    && SetsGrow(inners) && Distinct(strings, inners)
    && forall a :: a in Newest(Current(inners)) ==> Entry(strings, Current(inners).block, a, Current(inners).block.ptr)
  }

  ghost predicate Distinct(strings: seq<Text>, inners: seq<Inner>)
    requires Sane(inners)
  {
    var table := Newest(Current(inners));
    forall a, c :: (a in table && c in table && Decode(strings, inners, a) == Decode(strings, inners, c)) ==> a == c
  }

  predicate Holder(pc: Pc)
  {
    pc.Locked? || pc.Allocating? || pc.Allocated? || pc.Filled? || pc.Published?
  }

  /** The string is new to a set of atoms. */
  ghost predicate NewTo(strings: seq<Text>, inners: seq<Inner>, table: set<nat>, s: Text)
    requires inners != []
  {
    !Inlinable(s) && s !in strings && forall a :: a in table ==> Decode(strings, inners, a) != s
  }

  /** Nothing published reaches as far as `off`. */
  ghost predicate Above(strings: seq<Text>, inners: seq<Inner>, off: nat)
    requires Sane(inners)
  {
    forall a :: a in Newest(Current(inners)) ==> Entry(strings, Current(inners).block, a, off)
  }

  /** What holds of a thread. */
  ghost predicate ThreadOk(strings: seq<Text>, inners: seq<Inner>, pc: Pc)
    requires Sane(inners)
  {
    match pc
    case Idle => true
    case Begin(s) => |s| < MAX_TEXT
    case HasBlock(s, b) => |s| < MAX_TEXT && !Inlinable(s) && b < |inners|
    case HasTable(s, b, t) => |s| < MAX_TEXT && !Inlinable(s) && InRange(inners, b, t)
    case Missed(s, b, t) => |s| < MAX_TEXT && InRange(inners, b, t) && NewTo(strings, inners, inners[b].tables[t], s)
    case Locked(s, b, t) => |s| < MAX_TEXT && InRange(inners, b, t) && NewTo(strings, inners, inners[b].tables[t], s)
    case Allocating(s, b, t) =>
      |s| < MAX_TEXT && SameEpoch(inners, b, t) && NewTo(strings, inners, Newest(Current(inners)), s)
    case Allocated(s, b, t, off) =>
      && |s| < MAX_TEXT && SameEpoch(inners, b, t) && NewTo(strings, inners, Newest(Current(inners)), s)
      && Above(strings, inners, off) && off + HEADER_SIZE + |s| <= Current(inners).block.ptr
    case Filled(s, b, t, off) =>
      && SameEpoch(inners, b, t) && NewTo(strings, inners, Newest(Current(inners)), s)
      && Holds(Current(inners).block, off, s)
    case Published(s, atom) => CallOk(strings, inners, Call(s, atom))
  }

  /** A call returned the atom of its string: the inlined one, the static one, or the one in the table. */
  ghost predicate CallOk(strings: seq<Text>, inners: seq<Inner>, call: Call)
    requires Sane(inners)
  {
    && Decode(strings, inners, call.atom) == call.s
    && if Inlinable(call.s) then call.atom == NewInlined(call.s)
       else if call.s in strings then call.atom % 2 == 0 && call.atom / 2 < |strings|
       else call.atom in Newest(Current(inners))
  }

  ghost predicate LockOk(st: State)
  {
    forall tid :: tid in st.threads && Holder(st.threads[tid]) ==> st.lock == Some(tid)
  }

  ghost predicate Inv(strings: seq<Text>, st: State)
  {
    && Memory(strings, st.inners)
    && LockOk(st)
    && (forall tid :: tid in st.threads ==> ThreadOk(strings, st.inners, st.threads[tid]))
    && (forall call :: call in st.returned ==> CallOk(strings, st.inners, call))
  }

  // ----- what stays the same -----

  /** The shared memory only grows, and no published atom changes its meaning. */
  ghost predicate Extends(strings: seq<Text>, inners: seq<Inner>, inners': seq<Inner>)
  {
    && Sane(inners) && Sane(inners') && |inners| <= |inners'|
    && (forall b :: 0 <= b < |inners| ==> inners[b].tables <= inners'[b].tables)
    && Newest(Current(inners)) <= Newest(Current(inners'))
    && (forall a :: a in Newest(Current(inners)) ==> Decode(strings, inners', a) == Decode(strings, inners, a))
  }

  lemma {:induction false} CallKept(strings: seq<Text>, inners: seq<Inner>, inners': seq<Inner>, call: Call)
    requires Extends(strings, inners, inners') && CallOk(strings, inners, call)
    ensures CallOk(strings, inners', call)
  {
    hide InlinedToStr;
    if Inlinable(call.s) {
      InlinedBack(call.s);
    }
  }

  lemma {:induction false} NewToKept(strings: seq<Text>, inners: seq<Inner>, inners': seq<Inner>, table: set<nat>,
                                     s: Text)
    requires Extends(strings, inners, inners') && table <= Newest(Current(inners)) && NewTo(strings, inners, table, s)
    ensures NewTo(strings, inners', table, s)
  {
    hide Decode;
  }

  /** Threads outside the lock are not disturbed. */
  lemma {:induction false} ThreadKept(strings: seq<Text>, inners: seq<Inner>, inners': seq<Inner>, pc: Pc)
    requires Memory(strings, inners) && Extends(strings, inners, inners') && ThreadOk(strings, inners, pc)
            && !Holder(pc)
    ensures ThreadOk(strings, inners', pc)
  {
    hide Decode, NewTo, Distinct, Entry;
    if pc.Missed? {
      assert inners[pc.b].tables[pc.t] <= Newest(Current(inners));
      NewToKept(strings, inners, inners', inners[pc.b].tables[pc.t], pc.s);
      assert inners'[pc.b].tables[pc.t] == inners[pc.b].tables[pc.t];
    }
  }

  /** Only the bytes above everything published may change. */
  predicate BlockKept(block: Block, block': Block, end: nat)
  {
    && GoodBlock(block) && GoodBlock(block') && end <= block.ptr <= block'.ptr && end <= |block'.bytes|
    && block'.bytes[..end] == block.bytes[..end]
  }

  lemma {:induction false} EntryKept(strings: seq<Text>, block: Block, block': Block, a: nat, end: nat)
    requires Entry(strings, block, a, end) && BlockKept(block, block', end)
    ensures Entry(strings, block', a, end) && AsStr(strings, block', a) == AsStr(strings, block, a)
  {
    hide Holds, Stored, InlinedToStr;
    var s, off := AsStr(strings, block, a), a / 2 - |strings|;
    EntryBytes(block, block', off, s, end);
    HoldsKept(block, block', off, s);
    HoldsStored(block', off, s);
  }

  lemma {:induction false} EntryBytes(block: Block, block': Block, off: nat, s: Text, end: nat)
    requires BlockKept(block, block', end) && off + HEADER_SIZE + |s| <= end
    ensures off + HEADER_SIZE + |s| <= |block'.bytes|
    ensures block'.bytes[..off + HEADER_SIZE + |s|] == block.bytes[..off + HEADER_SIZE + |s|]
  {
    var e := off + HEADER_SIZE + |s|;
    assert block'.bytes[..e] == block'.bytes[..end][..e] && block.bytes[..e] == block.bytes[..end][..e];
  }

  /** A step that leaves the atom sets alone and the published bytes as they are. */
  lemma {:induction false} BlockEdit(strings: seq<Text>, inners: seq<Inner>, block: Block, end: nat)
    requires Memory(strings, inners) && Above(strings, inners, end) && BlockKept(Current(inners).block, block, end)
    ensures var inners' := WithBlock(inners, |inners| - 1, block);
            Memory(strings, inners') && Extends(strings, inners, inners') && Above(strings, inners', end)
  {
    hide Entry, AsStr, BlockKept;
    var inners' := WithBlock(inners, |inners| - 1, block);
    BlockKeptGood(Current(inners).block, block, end);
    assert forall b :: 0 <= b < |inners| ==> inners'[b].tables == inners[b].tables;
    forall a | a in Newest(Current(inners))
      ensures Entry(strings, block, a, end) && Entry(strings, block, a, block.ptr)
      ensures Decode(strings, inners', a) == Decode(strings, inners, a)
    {
      EntryKept(strings, Current(inners).block, block, a, end);
      EntryWider(strings, block, a, end, block.ptr);
    }
  }

  lemma {:induction false} BlockKeptGood(block: Block, block': Block, end: nat)
    requires BlockKept(block, block', end)
    ensures GoodBlock(block') && end <= block'.ptr
  {
  }

  lemma {:induction false} EntryWider(strings: seq<Text>, block: Block, a: nat, end: nat, end': nat)
    requires Entry(strings, block, a, end) && end <= end'
    ensures Entry(strings, block, a, end')
  {
  }

  /** A new allocation takes over the newest atom set and all published bytes. */
  lemma {:induction false} Growing(strings: seq<Text>, inners: seq<Inner>, block: Block)
    requires Memory(strings, inners) && Grown(Current(inners).block, block)
    ensures var inners' := inners + [Inner(block, [Newest(Current(inners))])];
            Memory(strings, inners') && Extends(strings, inners, inners')
  {
    hide Entry, AsStr;
    var inners' := inners + [Inner(block, [Newest(Current(inners))])];
    var before := Current(inners).block;
    forall a | a in Newest(Current(inners))
      ensures Entry(strings, block, a, block.ptr) && Decode(strings, inners', a) == Decode(strings, inners, a)
    {
      EntryKept(strings, before, block, a, before.ptr);
    }
    forall b: nat, t: nat | InRange(inners', b, t) ensures inners'[b].tables[t] <= Newest(Current(inners')) {
      if b < |inners| { assert InRange(inners, b, t); }
    }
    forall b: nat, t: nat, u: nat | InRange(inners', b, u) && t <= u && InRange(inners', b, t)
      ensures inners'[b].tables[t] <= inners'[b].tables[u]
    {
      if b < |inners| { assert InRange(inners, b, t) && InRange(inners, b, u); }
    }
  }

  /** Publishing a new entry. */
  lemma {:induction false} Publishing(strings: seq<Text>, inners: seq<Inner>, off: nat, s: Text)
    requires Memory(strings, inners) && NewTo(strings, inners, Newest(Current(inners)), s)
            && Holds(Current(inners).block, off, s)
    ensures var atom := TableAtom(strings, off);
            var inners' := WithTable(inners, |inners| - 1, Newest(Current(inners)) + {atom});
            && Memory(strings, inners') && Extends(strings, inners, inners')
            && Decode(strings, inners', atom) == s && atom in Newest(Current(inners'))
  {
    hide Entry, AsStr, Holds, Extends;
    var atom := TableAtom(strings, off);
    var block := Current(inners).block;
    var inners' := WithTable(inners, |inners| - 1, Newest(Current(inners)) + {atom});
    TableAtomStored(strings, block, off, s);
    NewEntry(strings, block, off, s);
    PublishedSets(inners, Newest(Current(inners)) + {atom});
    assert forall a :: Decode(strings, inners', a) == Decode(strings, inners, a);
    assert Extends(strings, inners, inners') by { PublishedExtends(strings, inners, Newest(Current(inners)) + {atom}); }
  }

  lemma {:induction false} NewEntry(strings: seq<Text>, block: Block, off: nat, s: Text)
    requires Holds(block, off, s) && !Inlinable(s) && s !in strings
    ensures Entry(strings, block, TableAtom(strings, off), block.ptr)
  {
    hide Stored, Holds;
    TableAtomStored(strings, block, off, s);
    HoldsBelow(block, off, s);
  }

  lemma {:induction false} HoldsBelow(block: Block, off: nat, s: Text)
    requires Holds(block, off, s)
    ensures off + HEADER_SIZE + |s| <= block.ptr
  {
  }

  lemma {:induction false} PublishedSets(inners: seq<Inner>, table: set<nat>)
    requires SetsGrow(inners) && Newest(Current(inners)) <= table
    ensures SetsGrow(WithTable(inners, |inners| - 1, table))
  {
    var inners' := WithTable(inners, |inners| - 1, table);
    forall b: nat, t: nat | InRange(inners', b, t) ensures inners'[b].tables[t] <= table {
      if b + 1 < |inners| || t < |inners[b].tables| { assert InRange(inners, b, t); }
    }
    forall b: nat, t: nat, u: nat | InRange(inners', b, u) && t <= u && InRange(inners', b, t)
      ensures inners'[b].tables[t] <= inners'[b].tables[u]
    {
      if b + 1 < |inners| || u < |inners[b].tables| { assert InRange(inners, b, t) && InRange(inners, b, u); }
    }
  }

  lemma {:induction false} PublishedExtends(strings: seq<Text>, inners: seq<Inner>, table: set<nat>)
    requires Sane(inners) && Newest(Current(inners)) <= table
    ensures Extends(strings, inners, WithTable(inners, |inners| - 1, table))
  {
  }

  // ----- every step keeps the invariant -----

  /** What is left to show of a step once its effect on the shared memory is known. */
  lemma {:induction false} StepKeeps(strings: seq<Text>, st: State, tid: nat, action: Action)
    requires Inv(strings, st) && Enabled(strings, st, tid, action)
    requires var inners' := Inners(strings, st, tid, action);
             && Memory(strings, inners') && Extends(strings, st.inners, inners')
             && (inners' == st.inners || Holder(st.threads[tid]))
             && ThreadOk(strings, inners', After(strings, st, tid, action))
    requires var call := Returns(strings, st, tid, action);
             call.Some? ==> CallOk(strings, Inners(strings, st, tid, action), call.value)
    ensures Inv(strings, Apply(strings, st, tid, action))
  {
    hide Memory, ThreadOk, CallOk, Enabled, Inners, Returns, NewLock, After;
    assert tid in st.threads by { Running(strings, st, tid, action); }
    var st' := Apply(strings, st, tid, action);
    LockKept(strings, st, tid, action);
    forall other | other in st'.threads ensures ThreadOk(strings, st'.inners, st'.threads[other]) {
      if other != tid && st'.inners != st.inners {
        assert !Holder(st.threads[other]);
        ThreadKept(strings, st.inners, st'.inners, st.threads[other]);
      }
    }
    forall call | call in st'.returned ensures CallOk(strings, st'.inners, call) {
      if call in st.returned {
        CallKept(strings, st.inners, st'.inners, call);
      }
    }
  }

  lemma {:induction false} Running(strings: seq<Text>, st: State, tid: nat, action: Action)
    requires Enabled(strings, st, tid, action)
    ensures tid in st.threads
  {
  }

  lemma {:induction false} LockKept(strings: seq<Text>, st: State, tid: nat, action: Action)
    requires LockOk(st) && Enabled(strings, st, tid, action)
    ensures LockOk(Apply(strings, st, tid, action))
  {
    hide Inners, Returns;
  }

  lemma {:induction false} SameExtends(strings: seq<Text>, inners: seq<Inner>)
    requires Sane(inners)
    ensures Extends(strings, inners, inners)
  {
  }

  /** Steps that only read the shared memory. */
  lemma {:induction false} ReadKeeps(strings: seq<Text>, st: State, tid: nat, action: Action)
    requires GoodStatics(strings) && Inv(strings, st) && Enabled(strings, st, tid, action)
    requires action.CallBuildWith? || action.ReadBlock? || action.ReadTable? || action.Lock? || action.Unlock?
    ensures Inv(strings, Apply(strings, st, tid, action))
  {
    hide Decode, NewTo, Memory, Extends, CallOk;
    assert ThreadOk(strings, st.inners, st.threads[tid]);
    SameExtends(strings, st.inners);
    StepKeeps(strings, st, tid, action);
  }

  lemma {:induction false} InlinedKeeps(strings: seq<Text>, st: State, tid: nat)
    requires Inv(strings, st) && Enabled(strings, st, tid, ReturnInlined)
    ensures Inv(strings, Apply(strings, st, tid, ReturnInlined))
  {
    hide Memory, Extends, ThreadOk, InlinedToStr;
    InlinedBack(st.threads[tid].s);
    SameExtends(strings, st.inners);
    IdleOk(strings, st.inners);
    StepKeeps(strings, st, tid, ReturnInlined);
  }

  lemma {:induction false} IdleOk(strings: seq<Text>, inners: seq<Inner>)
    requires Sane(inners)
    ensures ThreadOk(strings, inners, Idle)
  {
  }

  /** A lookup that finds nothing in the newest atom set finds nothing in the snapshot either. */
  lemma {:induction false} LookUpKeeps(strings: seq<Text>, st: State, tid: nat, found: Option<nat>)
    requires Inv(strings, st) && Enabled(strings, st, tid, LookUp(found))
    ensures Inv(strings, Apply(strings, st, tid, LookUp(found)))
  {
    hide Decode, Extends, Entry, Distinct;
    var pc, inners := st.threads[tid], st.inners;
    assert ThreadOk(strings, inners, pc);
    SameExtends(strings, inners);
    assert InRange(inners, pc.b, |inners[pc.b].tables| - 1);
    if found.Some? {
      FoundOk(strings, inners, pc.b, pc.s, found);
    } else {
      assert inners[pc.b].tables[pc.t] <= Newest(inners[pc.b]);
    }
    StepKeeps(strings, st, tid, LookUp(found));
  }

  lemma {:induction false} FoundOk(strings: seq<Text>, inners: seq<Inner>, b: nat, s: Text, found: Option<nat>)
    requires SetsGrow(inners) && b < |inners| && Finds(strings, inners, b, s, found) && found.Some? && !Inlinable(s)
    ensures CallOk(strings, inners, Call(s, found.value))
  {
    hide Stored, InlinedToStr;
    assert InRange(inners, b, |inners[b].tables| - 1);
  }

  /** If both snapshots are still current, the string is new to the whole table. */
  lemma {:induction false} CheckKeeps(strings: seq<Text>, st: State, tid: nat)
    requires Inv(strings, st) && Enabled(strings, st, tid, Check)
    ensures Inv(strings, Apply(strings, st, tid, Check))
  {
    hide Decode, NewTo, Memory, Extends, CallOk;
    assert ThreadOk(strings, st.inners, st.threads[tid]);
    SameExtends(strings, st.inners);
    StepKeeps(strings, st, tid, Check);
  }

  lemma {:induction false} AllocateKeeps(strings: seq<Text>, st: State, tid: nat)
    requires Inv(strings, st) && Enabled(strings, st, tid, Allocate)
    ensures Inv(strings, Apply(strings, st, tid, Allocate))
  {
    hide NewTo, CallOk, Memory, Decode, Entry, Extends;
    var pc, inners := st.threads[tid], st.inners;
    assert ThreadOk(strings, inners, pc);
    var block := Current(inners).block;
    EntriesBelow(strings, inners);
    BlockEdit(strings, inners, block.(ptr := block.ptr + EntrySize(pc.s)), block.ptr);
    var inners' := Inners(strings, st, tid, Allocate);
    NewToKept(strings, inners, inners', Newest(Current(inners)), pc.s);
    StepKeeps(strings, st, tid, Allocate);
  }

  lemma {:induction false} EntriesBelow(strings: seq<Text>, inners: seq<Inner>)
    requires Memory(strings, inners)
    ensures Above(strings, inners, Current(inners).block.ptr)
  {
  }

  lemma {:induction false} GrowKeeps(strings: seq<Text>, st: State, tid: nat, block: Block)
    requires Inv(strings, st) && Enabled(strings, st, tid, Grow(block))
    ensures Inv(strings, Apply(strings, st, tid, Grow(block)))
  {
    hide NewTo, CallOk, Memory, Decode, Entry, Extends;
    var pc, inners := st.threads[tid], st.inners;
    assert ThreadOk(strings, inners, pc);
    Growing(strings, inners, block);
    NewToKept(strings, inners, Inners(strings, st, tid, Grow(block)), Newest(Current(inners)), pc.s);
    StepKeeps(strings, st, tid, Grow(block));
  }

  lemma {:induction false} WriteKeeps(strings: seq<Text>, st: State, tid: nat)
    requires Inv(strings, st) && Enabled(strings, st, tid, Write)
    ensures Inv(strings, Apply(strings, st, tid, Write))
  {
    hide NewTo, CallOk, Memory, Decode, Entry, Extends, Holds, Written;
    var pc, inners := st.threads[tid], st.inners;
    assert ThreadOk(strings, inners, pc);
    var block := Current(inners).block;
    BlockEdit(strings, inners, Written(block, pc.off, pc.s), pc.off);
    WrittenHolds(block, pc.off, pc.s);
    NewToKept(strings, inners, Inners(strings, st, tid, Write), Newest(Current(inners)), pc.s);
    StepKeeps(strings, st, tid, Write);
  }

  lemma {:induction false} PublishKeeps(strings: seq<Text>, st: State, tid: nat)
    requires Inv(strings, st) && Enabled(strings, st, tid, Publish)
    ensures Inv(strings, Apply(strings, st, tid, Publish))
  {
    hide Memory, Decode, Entry, Extends, Holds;
    var pc, inners := st.threads[tid], st.inners;
    assert ThreadOk(strings, inners, pc);
    Publishing(strings, inners, pc.off, pc.s);
    StepKeeps(strings, st, tid, Publish);
  }

  lemma {:induction false} NextKeeps(strings: seq<Text>, st: State, st': State)
    requires GoodStatics(strings) && Inv(strings, st) && Next(strings, st, st')
    ensures Inv(strings, st')
  {
    hide Inv, Enabled, Apply, GoodStatics;
    var tid, action :| Enabled(strings, st, tid, action) && st' == Apply(strings, st, tid, action);
    match action
    case ReturnInlined => InlinedKeeps(strings, st, tid);
    case LookUp(found) => LookUpKeeps(strings, st, tid, found);
    case Check => CheckKeeps(strings, st, tid);
    case Allocate => AllocateKeeps(strings, st, tid);
    case Grow(block) => GrowKeeps(strings, st, tid, block);
    case Write => WriteKeeps(strings, st, tid);
    case Publish => PublishKeeps(strings, st, tid);
    case _ => ReadKeeps(strings, st, tid, action);
  }

  // ----- whole runs -----

  ghost predicate Run(strings: seq<Text>, run: seq<State>)
  {
    run != [] && Init(run[0]) && forall i :: 0 <= i < |run| - 1 ==> Step(strings, run, i)
  }

  ghost predicate Step(strings: seq<Text>, run: seq<State>, i: nat)
    requires i + 1 < |run|
  {
    Next(strings, run[i], run[i + 1])
  }

  lemma {:induction false} RunKeeps(strings: seq<Text>, run: seq<State>, i: nat)
    requires GoodStatics(strings) && Run(strings, run) && i < |run|
    ensures Inv(strings, run[i])
  {
    hide Inv, Next, GoodStatics, Init;
    if i == 0 {
      InitInv(strings, run[0]);
    } else {
      RunKeeps(strings, run, i - 1);
      assert Step(strings, run, i - 1);
      NextKeeps(strings, run[i - 1], run[i]);
    }
  }

  lemma {:induction false} InitInv(strings: seq<Text>, st: State)
    requires Init(st)
    ensures Inv(strings, st)
  {
  }

  lemma {:induction false} ReturnedStays(strings: seq<Text>, run: seq<State>, i: nat, j: nat)
    requires Run(strings, run) && i <= j < |run|
    ensures run[i].returned <= run[j].returned
  {
    if i < j {
      ReturnedStays(strings, run, i, j - 1);
      assert Step(strings, run, j - 1);
    }
  }

  /** In every run, two calls have returned the same atom exactly if their strings are equal. */
  lemma {:induction false} SameAtomSameString(strings: seq<Text>, run: seq<State>, i: nat, one: Call, two: Call)
    requires GoodStatics(strings) && Run(strings, run) && i < |run|
    requires one in run[i].returned && two in run[i].returned
    ensures one.atom == two.atom <==> one.s == two.s
  {
    hide Run, Decode;
    RunKeeps(strings, run, i);
    var inners := run[i].inners;
    assert CallOk(strings, inners, one) && CallOk(strings, inners, two);
    if one.s == two.s {
      if !Inlinable(one.s) && one.s !in strings {
        assert Distinct(strings, inners);
      } else if !Inlinable(one.s) {
        StaticOnce(strings, inners, one);
        StaticOnce(strings, inners, two);
      }
    }
  }

  lemma {:induction false} StaticOnce(strings: seq<Text>, inners: seq<Inner>, call: Call)
    requires Sane(inners) && CallOk(strings, inners, call) && !Inlinable(call.s) && call.s in strings
    ensures call.atom % 2 == 0 && call.atom / 2 < |strings| && strings[call.atom / 2] == call.s
  {
  }

  /** In every run, an atom keeps decoding to its string after every later step. */
  lemma {:induction false} AtomsKeepDecoding(strings: seq<Text>, run: seq<State>, i: nat, j: nat, call: Call)
    requires GoodStatics(strings) && Run(strings, run) && i <= j < |run| && call in run[i].returned
    ensures run[j].inners != [] && Decode(strings, run[j].inners, call.atom) == call.s
  {
    hide Run, Decode;
    ReturnedStays(strings, run, i, j);
    RunKeeps(strings, run, j);
    assert CallOk(strings, run[j].inners, call);
  }

  // ----- calls and what they return -----

  /** A step of a run: which thread made it, and what it did. */
  datatype Event = Event(tid: nat, action: Action)

  ghost predicate Stepped(strings: seq<Text>, run: seq<State>, events: seq<Event>, i: nat)
    requires i < |events| && i + 1 < |run|
  {
    && Enabled(strings, run[i], events[i].tid, events[i].action)
    && run[i + 1] == Apply(strings, run[i], events[i].tid, events[i].action)
  }

  /** A run with its steps. */
  ghost predicate Traced(strings: seq<Text>, run: seq<State>, events: seq<Event>)
  {
    && |run| == |events| + 1 && Init(run[0])
    && forall i :: 0 <= i < |events| ==> Stepped(strings, run, events, i)
  }

  /** The atom that step `i` returns, if it returns one. */
  ghost function Returned(strings: seq<Text>, run: seq<State>, events: seq<Event>, i: nat): Option<nat>
    requires Traced(strings, run, events) && i < |events|
  {
    assert Stepped(strings, run, events, i);
    var call := Returns(strings, run[i], events[i].tid, events[i].action);
    if call.Some? then Some(call.value.atom) else None
  }

  /** Step `i` calls build_with on `s`, and step `j` is the next return of the same thread. */
  ghost predicate Answers(strings: seq<Text>, run: seq<State>, events: seq<Event>, i: nat, j: nat, s: Text)
    requires Traced(strings, run, events)
  {
    && i < j < |events| && events[i].action == CallBuildWith(s) && events[j].tid == events[i].tid
    && Returned(strings, run, events, j).Some?
    && forall m :: i < m < j && events[m].tid == events[i].tid ==> Returned(strings, run, events, m).None?
  }

  lemma {:induction false} TracedRuns(strings: seq<Text>, run: seq<State>, events: seq<Event>)
    requires Traced(strings, run, events)
    ensures Run(strings, run)
  {
    hide Apply, Enabled, Init;
    forall i | 0 <= i < |run| - 1 ensures Step(strings, run, i) {
      assert Stepped(strings, run, events, i);
    }
  }

  /** A thread in a call on `s`. */
  predicate Busy(pc: Pc, s: Text)
  {
    !pc.Idle? && pc.s == s
  }

  lemma {:induction false} StaysBusy(strings: seq<Text>, st: State, tid: nat, action: Action, other: nat, s: Text)
    requires Enabled(strings, st, tid, action) && other in st.threads && Busy(st.threads[other], s)
    requires tid == other ==> Returns(strings, st, tid, action).None?
    ensures other in Apply(strings, st, tid, action).threads && Busy(Apply(strings, st, tid, action).threads[other], s)
  {
    hide Inners, NewLock, Finds;
  }

  /** From the call on, the thread is busy with the string it was called with. */
  lemma {:induction false} BusyUntil(strings: seq<Text>, run: seq<State>, events: seq<Event>, i: nat, m: nat, s: Text)
    requires Traced(strings, run, events) && i < m < |run| && events[i].action == CallBuildWith(s)
    requires forall n :: i < n < m && events[n].tid == events[i].tid ==> Returned(strings, run, events, n).None?
    ensures events[i].tid in run[m].threads && Busy(run[m].threads[events[i].tid], s)
    decreases m
  {
    hide Apply, Enabled, Busy, Returns;
    assert Stepped(strings, run, events, m - 1);
    if m == i + 1 {
      Called(strings, run[i], events[i].tid, s);
    } else {
      BusyUntil(strings, run, events, i, m - 1, s);
      assert Stepped(strings, run, events, m - 1);
      StaysBusy(strings, run[m - 1], events[m - 1].tid, events[m - 1].action, events[i].tid, s);
    }
  }

  lemma {:induction false} Called(strings: seq<Text>, st: State, tid: nat, s: Text)
    requires Enabled(strings, st, tid, CallBuildWith(s))
    ensures var st' := Apply(strings, st, tid, CallBuildWith(s)); tid in st'.threads && Busy(st'.threads[tid], s)
  {
  }

  /** What a call returns was returned for the string it was called with. */
  lemma {:induction false} ReturnedFor(strings: seq<Text>, run: seq<State>, events: seq<Event>, i: nat, j: nat, s: Text)
    requires Traced(strings, run, events) && Answers(strings, run, events, i, j, s)
    ensures Call(s, Returned(strings, run, events, j).value) in run[j + 1].returned
  {
    hide Enabled, Inners, NewLock, After;
    BusyUntil(strings, run, events, i, j, s);
    assert Stepped(strings, run, events, j);
    ReturnsOwn(strings, run[j], events[j].tid, events[j].action, s);
  }

  lemma {:induction false} ReturnsOwn(strings: seq<Text>, st: State, tid: nat, action: Action, s: Text)
    requires Enabled(strings, st, tid, action) && tid in st.threads && Busy(st.threads[tid], s)
    ensures var call := Returns(strings, st, tid, action); call.Some? ==> call.value.s == s
  {
  }

  /** In every run, the atom that a call of build_with returns decodes to the string of the call, then and after
      every later step. */
  lemma {:induction false} CallDecodes(strings: seq<Text>, run: seq<State>, events: seq<Event>, i: nat, j: nat, s: Text,
                                       m: nat)
    requires GoodStatics(strings) && Traced(strings, run, events) && Answers(strings, run, events, i, j, s)
    requires j < m < |run|
    ensures run[m].inners != [] && Decode(strings, run[m].inners, Returned(strings, run, events, j).value) == s
  {
    hide Decode, Apply, Enabled, GoodStatics, Returned;
    TracedRuns(strings, run, events);
    ReturnedFor(strings, run, events, i, j, s);
    AtomsKeepDecoding(strings, run, j + 1, m, Call(s, Returned(strings, run, events, j).value));
  }

  /** In every run, two calls of build_with return the same atom if and only if their strings are equal. */
  lemma {:induction false} CallsAgree(strings: seq<Text>, run: seq<State>, events: seq<Event>, i: nat, j: nat, s: Text,
                                      i': nat, j': nat, s': Text)
    requires GoodStatics(strings) && Traced(strings, run, events)
    requires Answers(strings, run, events, i, j, s) && Answers(strings, run, events, i', j', s')
    ensures Returned(strings, run, events, j) == Returned(strings, run, events, j') <==> s == s'
  {
    hide Apply, Enabled, GoodStatics, Init;
    TracedRuns(strings, run, events);
    ReturnedFor(strings, run, events, i, j, s);
    ReturnedFor(strings, run, events, i', j', s');
    ReturnedStays(strings, run, j + 1, |run| - 1);
    ReturnedStays(strings, run, j' + 1, |run| - 1);
    SameAtomSameString(strings, run, |run| - 1, Call(s, Returned(strings, run, events, j).value),
        Call(s', Returned(strings, run, events, j').value));
  }
}
