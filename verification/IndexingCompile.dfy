/**
 Building the indexing block of a run of clauses.
 */
module IndexingCompile {
  import opened IndexingLines
  import opened Options
  import opened IndexingLemmas
  import opened IndexingMerge

  // ----- putting a switch in front of the lines laid out so far -----

  function Shift(p: CodePtr): CodePtr
  {
    if p.Internal? then Internal(p.o + 1) else p
  }

  function Shifted(head: Line): (r: Line)
    requires head.SwitchOnTerm?
    ensures r.SwitchOnTerm? && r.arg == head.arg && r.v == head.v
  {
    head.(c := Shift(head.c), l := Shift(head.l), s := Shift(head.s))
  }

  function WithFront(head: Line, prelude: seq<Line>, kind: Kind, table: map<Key, CodePtr>): seq<Line>
    requires head.SwitchOnTerm?
  {
    [WithSlot(Shifted(head), kind, Internal(1))] + ([SwitchOn(kind, table)] + prelude)
  }

  lemma {:induction false} FrontTables(head: Line, prelude: seq<Line>, kind: Kind, table: map<Key, CodePtr>, k: Kind,
                                       dynamic: bool)
    requires WellFormed([head] + prelude, dynamic)
    ensures var code' := WithFront(head, prelude, kind, table);
            Rooted(code') && IsTable(code', k) == (k == kind || IsTable([head] + prelude, k))
  {
    var code, code' := [head] + prelude, WithFront(head, prelude, kind, table);
    assert forall i :: 0 < i < |code| ==> code'[i + 1] == code[i];
    assert LeafOk(code, WholeLeaf(k), dynamic);
  }

  lemma {:induction false} FrontTree(head: Line, prelude: seq<Line>, kind: Kind, table: map<Key, CodePtr>, b: Leaf,
                                     dynamic: bool)
    requires WellFormed([head] + prelude, dynamic) && Apart(b, kind)
    ensures var code, code' := [head] + prelude, WithFront(head, prelude, kind, table);
            && Rooted(code')
            && Ptr(code', b) == (if b.KeyLeaf? then Ptr(code, b) else Shift(Ptr(code, b)))
            && (Ptr(code, b).Internal? ==> Base(code', b) == if b.KeyLeaf? then Base(code, b) + 1 else 0)
  {
    var code, code' := [head] + prelude, WithFront(head, prelude, kind, table);
    match b
    case ListLeaf =>
    case WholeLeaf(k) =>
      FrontTables(head, prelude, kind, table, k, dynamic);
    case KeyLeaf(key) =>
      FrontTables(head, prelude, kind, table, KindOf(key), dynamic);
      assert forall i :: 0 < i < |code| ==> code'[i + 1] == code[i];
  }

  /** Leaves of the other slots lead to the same clauses, one line further down. */
  lemma {:induction false} FrontKeeps(head: Line, prelude: seq<Line>, kind: Kind, table: map<Key, CodePtr>, b: Leaf,
                                      dynamic: bool)
    requires WellFormed([head] + prelude, dynamic) && Apart(b, kind)
    ensures var code, code' := [head] + prelude, WithFront(head, prelude, kind, table);
            && Rooted(code')
            && LeafOk(code', b, dynamic)
            && Lookup(code', b) == Lookup(code, b)
            && Target(code', b) == if Target(code, b) == -1 then -1 else Target(code, b) + 1
  {
    var code, code' := [head] + prelude, WithFront(head, prelude, kind, table);
    FrontTree(head, prelude, kind, table, b, dynamic);
    assert LeafOk(code, b, dynamic);
    if Ptr(code, b).Internal? {
      assert code'[Target(code, b) + 1] == code[Target(code, b)];
    }
  }

  /** Entries of a switch not yet in place: each leads to one clause, or to a choice list of its own
      that nothing else leads to. */
  ghost predicate Pending(code: seq<Line>, table: map<Key, CodePtr>, kind: Kind, dynamic: bool)
  {
    && Rooted(code)
    && (forall key :: key in table ==> OfKind(key, kind) && !table[key].Fail? && PtrOk(code, 0, table[key], dynamic))
    && (forall key, b :: key in table && table[key].Internal? ==> Target(code, b) != table[key].o)
    && (forall a, b :: a in table && b in table && table[a].Internal? && table[a] == table[b] ==> a == b)
  }

  lemma {:induction false} FrontKey(head: Line, prelude: seq<Line>, kind: Kind, table: map<Key, CodePtr>, key: Key,
                                    dynamic: bool)
    requires WellFormed([head] + prelude, dynamic) && Pending([head] + prelude, table, kind, dynamic)
            && KindOf(key) == kind
    ensures var code, code' := [head] + prelude, WithFront(head, prelude, kind, table);
            && Rooted(code') && LeafOk(code', KeyLeaf(key), dynamic)
            && Lookup(code', KeyLeaf(key)) == (if key in table then Follow(code, 0, table[key]) else [])
            && Target(code', KeyLeaf(key)) == if key in table && table[key].Internal? then table[key].o + 1 else -1
  {
    var code, code' := [head] + prelude, WithFront(head, prelude, kind, table);
    FrontTables(head, prelude, kind, table, kind, dynamic);
    assert code'[1] == SwitchOn(kind, table);
    assert forall i :: 0 < i < |code| ==> code'[i + 1] == code[i];
  }

  lemma {:induction false} FrontWellFormed(head: Line, prelude: seq<Line>, kind: Kind, table: map<Key, CodePtr>,
                                           dynamic: bool)
    requires WellFormed([head] + prelude, dynamic) && Pending([head] + prelude, table, kind, dynamic)
    ensures WellFormed(WithFront(head, prelude, kind, table), dynamic)
  {
    var code, code' := [head] + prelude, WithFront(head, prelude, kind, table);
    FrontTables(head, prelude, kind, table, kind, dynamic);
    forall b ensures LeafOk(code', b, dynamic) {
      if Apart(b, kind) {
        FrontKeeps(head, prelude, kind, table, b, dynamic);
      } else if b.KeyLeaf? {
        FrontKey(head, prelude, kind, table, b.key, dynamic);
      }
    }
    forall a, b | Target(code', a) == Target(code', b) != -1 ensures a == b {
      FrontDistinct(head, prelude, kind, table, a, b, dynamic);
    }
  }

  lemma {:induction false} FrontDistinct(head: Line, prelude: seq<Line>, kind: Kind, table: map<Key, CodePtr>,
                                         a: Leaf, b: Leaf, dynamic: bool)
    requires WellFormed([head] + prelude, dynamic) && Pending([head] + prelude, table, kind, dynamic)
    requires Rooted(WithFront(head, prelude, kind, table))
    requires Target(WithFront(head, prelude, kind, table), a) == Target(WithFront(head, prelude, kind, table), b) != -1
    ensures a == b
  {
    var code, code' := [head] + prelude, WithFront(head, prelude, kind, table);
    FrontTables(head, prelude, kind, table, kind, dynamic);
    if Apart(a, kind) {
      FrontKeeps(head, prelude, kind, table, a, dynamic);
    } else if a.KeyLeaf? {
      FrontKey(head, prelude, kind, table, a.key, dynamic);
    }
    if Apart(b, kind) {
      FrontKeeps(head, prelude, kind, table, b, dynamic);
    } else if b.KeyLeaf? {
      FrontKey(head, prelude, kind, table, b.key, dynamic);
    }
  }

  // ----- the buckets a run of clauses is sorted into -----

  /** A choice list still open at the end: Try, Retry*. */
  predicate OpenBucket(line: Line, dynamic: bool)
  {
    if dynamic then line.DynamicIndexedChoice? && line.offsets != []
    else
      && line.IndexedChoice? && line.choices != [] && line.choices[0].Try?
      && forall i :: 0 < i < |line.choices| ==> line.choices[i].Retry? || line.choices[i].DefaultRetry?
  }

  function EmptyBucket(dynamic: bool): Line
  {
    if dynamic then DynamicIndexedChoice([]) else IndexedChoice([])
  }

  /** compute_index and push_back. */
  function Pushed(line: Line, index: nat, nonCountedBt: bool): Line
    requires IsChoiceLine(line)
  {
    match line
    case DynamicIndexedChoice(os) => DynamicIndexedChoice(os + [index + 1])
    case IndexedChoice(cs) =>
      IndexedChoice(cs + [if cs == [] then Try(index + 1)
                          else if nonCountedBt then DefaultRetry(index + 1)
                          else Retry(index + 1)])
  }

  lemma {:induction false} PushedBucket(line: Line, index: nat, nonCountedBt: bool, dynamic: bool)
    requires line == EmptyBucket(dynamic) || OpenBucket(line, dynamic)
    ensures OpenBucket(Pushed(line, index, nonCountedBt), dynamic)
    ensures LineOffsets(Pushed(line, index, nonCountedBt)) == LineOffsets(line) + [index + 1]
  {
    if line.IndexedChoice? {
      var cs := Pushed(line, index, nonCountedBt).choices;
      assert ChoiceOffsets(cs) == ChoiceOffsets(line.choices) + [index + 1];
    }
  }

  /** cap_choice_seq_with_trust. */
  function CappedWithTrust(line: Line): Line
    requires IsChoiceLine(line) && LineOffsets(line) != []
  {
    match line
    case DynamicIndexedChoice(_) => line
    case IndexedChoice(cs) =>
      var last := |cs| - 1;
      match cs[last]
      case Retry(o) => IndexedChoice(cs[last := Trust(o)])
      case DefaultRetry(o) => IndexedChoice(cs[last := DefaultTrust(o)])
      case _ => line
  }

  lemma {:induction false} CappedBucket(line: Line, dynamic: bool)
    requires OpenBucket(line, dynamic) && |LineOffsets(line)| > 1
    ensures GoodChoiceLine(CappedWithTrust(line), dynamic)
    ensures LineOffsets(CappedWithTrust(line)) == LineOffsets(line)
  {
    if line.IndexedChoice? {
      assert ChoiceOffsets(CappedWithTrust(line).choices) == ChoiceOffsets(line.choices);
    }
  }

  function BucketOffsets(buckets: map<Key, Line>, key: Key): seq<nat>
  {
    if key in buckets then LineOffsets(buckets[key]) else []
  }

  ghost predicate GoodBuckets(buckets: map<Key, Line>, kind: Kind, dynamic: bool)
  {
    forall key :: key in buckets ==> OfKind(key, kind) && OpenBucket(buckets[key], dynamic)
  }

  /** Lines waiting at the back are distinct from everything the block leads to. */
  lemma {:induction false} PendingAppend(code: seq<Line>, table: map<Key, CodePtr>, kind: Kind, key: Key, line: Line,
                                         dynamic: bool)
    requires WellFormed(code, dynamic) && Pending(code, table, kind, dynamic)
    requires OfKind(key, kind) && key !in table && GoodChoiceLine(line, dynamic)
    ensures WellFormed(code + [line], dynamic)
    ensures Pending(code + [line], table[key := Internal(|code|)], kind, dynamic)
    ensures forall b :: Kept(code, code + [line], b, dynamic)
    ensures forall k :: k in table ==> Follow(code + [line], 0, table[k]) == Follow(code, 0, table[k])
  {
    AppendKeeps(code, line, dynamic);
    var code' := code + [line];
    assert code'[|code|] == line;
    forall b ensures Target(code', b) == Target(code, b) && Target(code, b) < |code| {
      assert Kept(code, code', b, dynamic);
      assert LeafOk(code, b, dynamic);
    }
  }

  /** Entries for some keys of the buckets are laid out: each leads to its bucket, and the lines
      already there lead where they did. */
  ghost predicate LaidOut(before: seq<Line>, code: seq<Line>, table: map<Key, CodePtr>, buckets: map<Key, Line>,
                          kind: Kind, dynamic: bool)
    requires Rooted(before)
  {
    && WellFormed(code, dynamic) && Pending(code, table, kind, dynamic) && table.Keys <= buckets.Keys
    && (forall key :: key in table ==> Follow(code, 0, table[key]) == LineOffsets(buckets[key]))
    && (forall b :: Lookup(code, b) == Lookup(before, b))
    && (forall k :: IsTable(code, k) == IsTable(before, k))
  }

  lemma {:induction false} LayOutList(before: seq<Line>, code: seq<Line>, table: map<Key, CodePtr>, buckets: map<Key,
                                      Line>, kind: Kind,
                                      key: Key, dynamic: bool)
    requires Rooted(before) && LaidOut(before, code, table, buckets, kind, dynamic)
            && GoodBuckets(buckets, kind, dynamic)
    requires key in buckets && key !in table && |LineOffsets(buckets[key])| > 1
    ensures LaidOut(before, code + [CappedWithTrust(buckets[key])], table[key := Internal(|code|)], buckets, kind,
            dynamic)
  {
    hide WellFormed, Pending, LineOffsets, IsTable, CappedWithTrust;
    var line := buckets[key];
    CappedBucket(line, dynamic);
    PendingAppend(code, table, kind, key, CappedWithTrust(line), dynamic);
    AppendKeeps(code, CappedWithTrust(line), dynamic);
    forall b ensures Lookup(code + [CappedWithTrust(line)], b) == Lookup(before, b) {
      assert Kept(code, code + [CappedWithTrust(line)], b, dynamic);
    }
  }

  lemma {:induction false} LayOutClause(before: seq<Line>, code: seq<Line>, table: map<Key, CodePtr>,
                                        buckets: map<Key, Line>, kind: Kind,
                                        key: Key, dynamic: bool)
    requires Rooted(before) && LaidOut(before, code, table, buckets, kind, dynamic)
            && GoodBuckets(buckets, kind, dynamic)
    requires key in buckets && key !in table && |LineOffsets(buckets[key])| == 1
    ensures var o := LineOffsets(buckets[key])[0];
            var p := if buckets[key].DynamicIndexedChoice? then DynamicExternal(o) else External(o);
            LaidOut(before, code, table[key := p], buckets, kind, dynamic)
  {
    hide WellFormed, Lookup, IsTable;
    assert LineOffsets(buckets[key]) == [LineOffsets(buckets[key])[0]];
  }

  /** second_level_index: lay out the third level of a kind, in any order of its keys. */
  method SecondLevelIndex(kind: Kind, buckets: map<Key, Line>, prelude: seq<Line>, ghost head: Line,
                          ghost dynamic: bool)
    returns (table: map<Key, CodePtr>, prelude': seq<Line>)
    requires WellFormed([head] + prelude, dynamic) && GoodBuckets(buckets, kind, dynamic)
    ensures LaidOut([head] + prelude, [head] + prelude', table, buckets, kind, dynamic)
    ensures table.Keys == buckets.Keys
  {
    table, prelude' := map[], prelude;
    var remaining := buckets.Keys;
    while remaining != {}
      invariant remaining <= buckets.Keys && table.Keys == buckets.Keys - remaining
      invariant LaidOut([head] + prelude, [head] + prelude', table, buckets, kind, dynamic)
      decreases remaining
    {
      hide LaidOut, WellFormed, CappedWithTrust, LineOffsets;
      var key :| key in remaining;
      remaining := remaining - {key};
      var line := buckets[key];
      ghost var code := [head] + prelude';
      if |LineOffsets(line)| > 1 {
        LayOutList([head] + prelude, code, table, buckets, kind, key, dynamic);
        table := table[key := Internal(|prelude'| + 1)];
        prelude' := prelude' + [CappedWithTrust(line)];
        assert [head] + prelude' == code + [CappedWithTrust(line)];
      } else {
        LayOutClause([head] + prelude, code, table, buckets, kind, key, dynamic);
        var o := LineOffsets(line)[0];
        table := table[key := if line.DynamicIndexedChoice? then DynamicExternal(o) else External(o)];
      }
    }
  }

  /** A single pending entry goes straight into the slot. */
  lemma {:induction false} PointAtPending(head: Line, prelude: seq<Line>, kind: Kind, table: map<Key, CodePtr>,
                                          key: Key, dynamic: bool)
    requires WellFormed([head] + prelude, dynamic) && Pending([head] + prelude, table, kind, dynamic) && key in table
    requires Slot([head] + prelude, kind) == Fail
    ensures var code, code' := [head] + prelude, [WithSlot(head, kind, table[key])] + prelude;
            && WellFormed(code', dynamic)
            && LeafBecomes(code, code', WholeLeaf(kind), Follow(code, 0, table[key]))
  {
    var code, code' := [head] + prelude, [WithSlot(head, kind, table[key])] + prelude;
    assert code' == SetPtr(code, WholeLeaf(kind), table[key]);
    SetPtrTree(code, WholeLeaf(kind), table[key]);
    SetPtrKeeps(code, WholeLeaf(kind), table[key], dynamic);
    OneLeafEdit(code, code', WholeLeaf(kind), Follow(code, 0, table[key]), dynamic);
  }

  /** Some slot of a block was filled in: the rest leads where it did. */
  ghost predicate SlotFilled(code: seq<Line>, code': seq<Line>, kind: Kind)
  {
    && Rooted(code) && Rooted(code')
    && (forall k :: k != kind ==> IsTable(code', k) == IsTable(code, k))
    && (forall b :: Apart(b, kind) ==> Lookup(code', b) == Lookup(code, b))
  }

  ghost predicate TwoKeys(buckets: map<Key, Line>)
  {
    exists a, b :: a in buckets && b in buckets && a != b
  }

  lemma {:induction false} MoreThanOne(table: map<Key, CodePtr>, buckets: map<Key, Line>)
    requires |table| > 1 && table.Keys == buckets.Keys
    ensures TwoKeys(buckets)
  {
    var a :| a in table;
    assert |table.Keys - {a}| >= 1;
    var b :| b in table.Keys - {a};
    assert a in buckets && b in buckets;
  }

  /** What a kind's slot leads to after its buckets were laid out. */
  ghost predicate Shows(code: seq<Line>, buckets: map<Key, Line>, kind: Kind)
    requires Rooted(code)
  {
    if IsTable(code, kind) then
      TwoKeys(buckets) && forall key :: OfKind(key, kind) ==> Lookup(code, KeyLeaf(key)) == BucketOffsets(buckets, key)
    else
      && (buckets == map[] ==> Lookup(code, WholeLeaf(kind)) == [])
      && (forall key :: key in buckets ==>
            buckets.Keys == {key} && Lookup(code, WholeLeaf(kind)) == BucketOffsets(buckets, key))
  }

  /** The buckets of a kind were laid out and its slot filled; nothing else leads elsewhere. */
  ghost predicate Filled(before: seq<Line>, code: seq<Line>, buckets: map<Key, Line>, kind: Kind, dynamic: bool)
  {
    WellFormed(code, dynamic) && SlotFilled(before, code, kind) && Shows(code, buckets, kind)
  }

  lemma {:induction false} FilledByTable(before: seq<Line>, head: Line, prelude: seq<Line>, kind: Kind,
                                         table: map<Key, CodePtr>, buckets: map<Key, Line>, dynamic: bool)
    requires Rooted(before) && LaidOut(before, [head] + prelude, table, buckets, kind, dynamic)
            && table.Keys == buckets.Keys
    requires head.SwitchOnTerm? && TwoKeys(buckets)
    ensures Filled(before, [WithSlot(Shifted(head), kind, Internal(1))] + ([SwitchOn(kind, table)] + prelude),
            buckets, kind, dynamic)
  {
    hide WellFormed, Pending, LineOffsets, IsTable, Lookup, Shows, Shifted, WithSlot;
    ShowFront(head, prelude, kind, table, buckets, dynamic);
    FrontFills(head, prelude, kind, table, dynamic);
    assert WithFront(head, prelude, kind, table) == [WithSlot(Shifted(head), kind, Internal(1))]
            + ([SwitchOn(kind, table)] + prelude);
  }

  lemma {:induction false} FilledByNothing(before: seq<Line>, head: Line, prelude: seq<Line>, kind: Kind,
                                           buckets: map<Key, Line>, dynamic: bool)
    requires Rooted(before) && LaidOut(before, [head] + prelude, map[], buckets, kind, dynamic) && buckets == map[]
    requires head.SwitchOnTerm? && Slot([head] + prelude, kind) == Fail
    ensures Filled(before, [WithSlot(head, kind, Fail)] + prelude, buckets, kind, dynamic)
  {
    hide WellFormed, Pending, LineOffsets;
    assert WithSlot(head, kind, Fail) == head;
  }

  lemma {:induction false} FilledByKey(before: seq<Line>, head: Line, prelude: seq<Line>, kind: Kind, table: map<Key,
                                       CodePtr>,
                                       buckets: map<Key, Line>, key: Key, dynamic: bool)
    requires Rooted(before) && LaidOut(before, [head] + prelude, table, buckets, kind, dynamic)
    requires table.Keys == buckets.Keys == {key} && head.SwitchOnTerm? && Slot([head] + prelude, kind) == Fail
    ensures Filled(before, [WithSlot(head, kind, table[key])] + prelude, buckets, kind, dynamic)
  {
    hide WellFormed, Pending, LineOffsets, Lookup, WithSlot;
    PointAtPending(head, prelude, kind, table, key, dynamic);
    assert !IsTable([head] + prelude, kind);
    assert forall b :: Apart(b, kind) ==> b != WholeLeaf(kind);
  }

  /** switch_on: the pointer of a slot, relative to a first line not yet pushed. */
  method SwitchOnKind(kind: Kind, buckets: map<Key, Line>, prelude: seq<Line>, ghost head: Line, ghost dynamic: bool)
    returns (ptr: CodePtr, prelude': seq<Line>, emitted: bool)
    requires WellFormed([head] + prelude, dynamic) && GoodBuckets(buckets, kind, dynamic)
    requires Slot([head] + prelude, kind) == Fail
    ensures Filled([head] + prelude, [WithSlot(if emitted then Shifted(head) else head, kind, ptr)] + prelude',
            buckets, kind, dynamic)
  {
    hide Filled, LaidOut, WithSlot, Shifted, GoodBuckets;
    var table;
    table, prelude' := SecondLevelIndex(kind, buckets, prelude, head, dynamic);
    if |table| > 1 {
      MoreThanOne(table, buckets);
      FilledByTable([head] + prelude, head, prelude', kind, table, buckets, dynamic);
      prelude' := [SwitchOn(kind, table)] + prelude';
      ptr, emitted := Internal(1), true;
    } else if table == map[] {
      FilledByNothing([head] + prelude, head, prelude', kind, buckets, dynamic);
      ptr, emitted := Fail, false;
    } else {
      var key :| key in table;
      SingleKey(table, key);
      FilledByKey([head] + prelude, head, prelude', kind, table, buckets, key, dynamic);
      ptr, emitted := table[key], false;
    }
  }

  lemma {:induction false} SingleKey(table: map<Key, CodePtr>, key: Key)
    requires key in table && |table| <= 1
    ensures table.Keys == {key}
  {
    assert |table.Keys| == |table|;
    if k :| k in table.Keys && k != key {
      assert {k, key} <= table.Keys;
      SubsetSize({k, key}, table.Keys);
    }
  }

  lemma {:induction false} SubsetSize<T>(a: set<T>, b: set<T>)
    requires a <= b
    ensures |a| <= |b|
  {
    if a != {} {
      var x :| x in a;
      SubsetSize(a - {x}, b - {x});
    }
  }

  lemma {:induction false} ShowFront(head: Line, prelude: seq<Line>, kind: Kind, table: map<Key, CodePtr>,
                                     buckets: map<Key, Line>, dynamic: bool)
    requires WellFormed([head] + prelude, dynamic) && Pending([head] + prelude, table, kind, dynamic)
    requires table.Keys == buckets.Keys && TwoKeys(buckets)
    requires forall key :: key in table ==> Follow([head] + prelude, 0, table[key]) == LineOffsets(buckets[key])
    ensures Rooted(WithFront(head, prelude, kind, table)) && Shows(WithFront(head, prelude, kind, table), buckets, kind)
  {
    FrontTables(head, prelude, kind, table, kind, dynamic);
    forall key | OfKind(key, kind)
      ensures Lookup(WithFront(head, prelude, kind, table), KeyLeaf(key)) == BucketOffsets(buckets, key)
    {
      FrontKey(head, prelude, kind, table, key, dynamic);
    }
  }

  lemma {:induction false} FrontFills(head: Line, prelude: seq<Line>, kind: Kind, table: map<Key, CodePtr>,
                                      dynamic: bool)
    requires WellFormed([head] + prelude, dynamic) && Pending([head] + prelude, table, kind, dynamic)
    ensures WellFormed(WithFront(head, prelude, kind, table), dynamic)
    ensures SlotFilled([head] + prelude, WithFront(head, prelude, kind, table), kind)
  {
    FrontWellFormed(head, prelude, kind, table, dynamic);
    forall k ensures k != kind ==> IsTable(WithFront(head, prelude, kind, table), k) == IsTable([head] + prelude, k) {
      FrontTables(head, prelude, kind, table, k, dynamic);
    }
    forall b | Apart(b, kind)
      ensures Lookup(WithFront(head, prelude, kind, table), b) == Lookup([head] + prelude, b)
    {
      FrontKeeps(head, prelude, kind, table, b, dynamic);
    }
  }

  // ----- sorting clauses into buckets and laying the block out -----

  /** An argument of a clause head. */
  datatype Term =
    | Var
    | AnonVar
    | Constant(lit: Literal)
    | Compound(name: string, args: seq<Term>)
    | Cons(head: Term, tail: Term)
    | PartialString(text: string, rest: Term)
    | CompleteString(text: string)

  /** What an argument is indexed on. */
  function IndexKeyOf(term: Term, arg: nat): OptArgIndexKey
  {
    match term
    case Var => NoArg
    case AnonVar => NoArg
    case Constant(lit) => LiteralArg(arg, 0, lit, ConstantKeyAlternative(lit))
    case Compound(name, args) => if name == "." && |args| == 2 then ListArg(arg, 0)
        else StructureArg(arg, 0, name, |args|)
    case _ => ListArg(arg, 0)
  }

  /** A clause as the index sees it, once its code starts at `index` behind the indexing block. */
  function EntryOf(term: Term, index: nat): Entry
  {
    Entry(FiledKeys(IndexKeyOf(term, 1)), index + 1)
  }

  /** The buckets of a kind hold, under each key, the clauses filed under it, in order. */
  ghost predicate Holds(buckets: map<Key, Line>, s: seq<Entry>, kind: Kind)
  {
    forall key :: OfKind(key, kind) ==> BucketOffsets(buckets, key) == Scan(s, key)
  }

  lemma {:induction false} HoldsNext(buckets: map<Key, Line>, buckets': map<Key, Line>, s: seq<Entry>, e: Entry,
                                     kind: Kind)
    requires Holds(buckets, s, kind)
    requires forall key :: OfKind(key, kind) ==>
      BucketOffsets(buckets', key) == BucketOffsets(buckets, key) + if key in e.keys then [e.offset] else []
    ensures Holds(buckets', s + [e], kind)
  {
    forall key | OfKind(key, kind) ensures BucketOffsets(buckets', key) == Scan(s + [e], key) {
      ScanAdded(s, e, key, true);
    }
  }

  lemma {:induction false} HoldsApart(buckets: map<Key, Line>, s: seq<Entry>, e: Entry, kind: Kind)
    requires Holds(buckets, s, kind) && forall key :: key in e.keys ==> !OfKind(key, kind)
    ensures Holds(buckets, s + [e], kind)
  {
    HoldsNext(buckets, buckets, s, e, kind);
  }

  class CodeOffsets {
    var constants: map<Key, Line>
    var structures: map<Key, Line>
    var lists: Line
    const optimalIndex: nat
    const nonCountedBt: bool
    const dynamic: bool

    constructor (optimalIndex: nat, nonCountedBt: bool, dynamic: bool)
      ensures Files([])
      ensures this.optimalIndex == optimalIndex && this.dynamic == dynamic
    {
      this.constants := map[];
      this.structures := map[];
      this.lists := EmptyBucket(dynamic);
      this.optimalIndex := optimalIndex;
      this.nonCountedBt := nonCountedBt;
      this.dynamic := dynamic;
    }

    /** The buckets hold the clauses `s`, in order. */
    ghost predicate Files(s: seq<Entry>)
      reads this
    {
      && GoodBuckets(constants, Constants, dynamic) && GoodBuckets(structures, Structures, dynamic)
      && (lists == EmptyBucket(dynamic) || OpenBucket(lists, dynamic))
      && LineOffsets(lists) == Scan(s, ListKey)
      && Holds(constants, s, Constants) && Holds(structures, s, Structures)
    }

    function Bucket(buckets: map<Key, Line>, key: Key): Line
    {
      if key in buckets then buckets[key] else EmptyBucket(dynamic)
    }

    method IndexList(index: nat)
      requires lists == EmptyBucket(dynamic) || OpenBucket(lists, dynamic)
      modifies this`lists
      ensures lists == Pushed(old(lists), index, nonCountedBt)
    {
      lists := Pushed(lists, index, nonCountedBt);
    }

    method IndexStructure(name: string, arity: nat, index: nat)
      requires GoodBuckets(structures, Structures, dynamic)
      modifies this`structures
      ensures GoodBuckets(structures, Structures, dynamic)
      ensures forall key :: BucketOffsets(structures, key) ==
                              BucketOffsets(old(structures), key) +
                              (if key == StrKey(name, arity) then [index + 1] else [])
    {
      var key := StrKey(name, arity);
      PushedBucket(Bucket(structures, key), index, nonCountedBt, dynamic);
      structures := structures[key := Pushed(Bucket(structures, key), index, nonCountedBt)];
    }

    method IndexConstant(lit: Literal, index: nat) returns (overlapping: Option<Literal>)
      requires GoodBuckets(constants, Constants, dynamic)
      modifies this`constants
      ensures overlapping == ConstantKeyAlternative(lit)
      ensures GoodBuckets(constants, Constants, dynamic)
      ensures forall key :: BucketOffsets(constants, key) ==
                              BucketOffsets(old(constants), key) +
                              (if key == LitKey(lit) || (overlapping.Some? && key == LitKey(overlapping.value))
                                  then [index + 1] else [])
    {
      overlapping := ConstantKeyAlternative(lit);
      PushedBucket(Bucket(constants, LitKey(lit)), index, nonCountedBt, dynamic);
      constants := constants[LitKey(lit) := Pushed(Bucket(constants, LitKey(lit)), index, nonCountedBt)];
      if overlapping.Some? {
        var key := LitKey(overlapping.value);
        PushedBucket(Bucket(constants, key), index, nonCountedBt, dynamic);
        constants := constants[key := Pushed(Bucket(constants, key), index, nonCountedBt)];
      }
    }

    lemma {:induction false} FileNowhere(index: nat, s: seq<Entry>)
      requires Files(s)
      ensures Files(s + [Entry({}, index + 1)])
    {
      ghost var e := Entry({}, index + 1);
      ScanAdded(s, e, ListKey, true);
      HoldsApart(constants, s, e, Constants);
      HoldsApart(structures, s, e, Structures);
    }

    method FileList(index: nat, ghost s: seq<Entry>)
      requires Files(s)
      modifies this`lists
      ensures Files(s + [Entry({ListKey}, index + 1)])
    {
      ghost var e := Entry({ListKey}, index + 1);
      ScanAdded(s, e, ListKey, true);
      HoldsApart(constants, s, e, Constants);
      HoldsApart(structures, s, e, Structures);
      PushedBucket(lists, index, nonCountedBt, dynamic);
      IndexList(index);
    }

    method FileStructure(name: string, arity: nat, index: nat, ghost s: seq<Entry>)
      requires Files(s)
      modifies this`structures
      ensures Files(s + [Entry({StrKey(name, arity)}, index + 1)])
    {
      ghost var e := Entry({StrKey(name, arity)}, index + 1);
      ScanAdded(s, e, ListKey, true);
      HoldsApart(constants, s, e, Constants);
      ghost var before := structures;
      IndexStructure(name, arity, index);
      HoldsNext(before, structures, s, e, Structures);
    }

    method FileConstant(lit: Literal, index: nat, ghost s: seq<Entry>) returns (overlapping: Option<Literal>)
      requires Files(s)
      modifies this`constants
      ensures overlapping == ConstantKeyAlternative(lit)
      ensures Files(s + [Entry(FiledKeys(LiteralArg(1, 0, lit, overlapping)), index + 1)])
    {
      ghost var e := Entry(FiledKeys(LiteralArg(1, 0, lit, ConstantKeyAlternative(lit))), index + 1);
      ScanAdded(s, e, ListKey, true);
      HoldsApart(structures, s, e, Structures);
      ghost var before := constants;
      overlapping := IndexConstant(lit, index);
      HoldsNext(before, constants, s, e, Constants);
    }

    /** index_term: file the next clause and report the key the skeleton records for it. */
    method IndexTerm(term: Term, index: nat, ghost s: seq<Entry>) returns (key: OptArgIndexKey)
      requires Files(s)
      modifies this
      ensures key == IndexKeyOf(term, optimalIndex)
      ensures Files(s + [EntryOf(term, index)])
    {
      key := NoArg;
      match term {
        case Var =>
          FileNowhere(index, s);
        case AnonVar =>
          FileNowhere(index, s);
        case Constant(lit) =>
          var overlapping := FileConstant(lit, index, s);
          key := LiteralArg(optimalIndex, 0, lit, overlapping);
        case Compound(name, args) =>
          if name == "." && |args| == 2 {
            key := ListArg(optimalIndex, 0);
            FileList(index, s);
          } else {
            key := StructureArg(optimalIndex, 0, name, |args|);
            FileStructure(name, |args|, index, s);
          }
        case Cons(_, _) =>
          key := ListArg(optimalIndex, 0);
          FileList(index, s);
        case PartialString(_, _) =>
          key := ListArg(optimalIndex, 0);
          FileList(index, s);
        case CompleteString(_) =>
          key := ListArg(optimalIndex, 0);
          FileList(index, s);
      }
    }

    predicate NoIndices()
      reads this
    {
      constants == map[] && structures == map[] && lists == EmptyBucket(dynamic)
    }
  }

  /** The pointer to the list clauses, relative to a first line not yet pushed. */
  method SwitchOnList(lists: Line, ghost head: Line, ghost dynamic: bool) returns (ptr: CodePtr, prelude: seq<Line>)
    requires lists == EmptyBucket(dynamic) || OpenBucket(lists, dynamic)
    requires head.SwitchOnTerm? && head.c.Fail? && head.l.Fail? && head.s.Fail?
    requires if dynamic then head.v.DynamicExternal? else head.v.External?
    ensures var code := [head.(l := ptr)] + prelude;
            && WellFormed(code, dynamic) && Lookup(code, ListLeaf) == LineOffsets(lists)
            && code[0].c.Fail? && code[0].s.Fail?
  {
    BareHead(head, dynamic);
    var offsets := LineOffsets(lists);
    if |offsets| > 1 {
      CappedBucket(lists, dynamic);
      PointAtList([head], ListLeaf, CappedWithTrust(lists), dynamic);
      ptr, prelude := Internal(1), [CappedWithTrust(lists)];
      assert [head.(l := ptr)] + prelude == SetPtr([head] + prelude, ListLeaf, Internal(1));
    } else if |offsets| == 1 {
      ptr, prelude := if lists.DynamicIndexedChoice? then DynamicExternal(offsets[0]) else External(offsets[0]), [];
      PointAtClause([head], ListLeaf, offsets[0], dynamic);
      assert [head.(l := ptr)] + prelude == SetPtr([head], ListLeaf, ptr);
      assert offsets == [offsets[0]];
    } else {
      ptr, prelude := Fail, [];
      assert [head.(l := ptr)] + prelude == [head];
    }
  }

  lemma {:induction false} BareHead(head: Line, dynamic: bool)
    requires head.SwitchOnTerm? && head.c.Fail? && head.l.Fail? && head.s.Fail?
    requires if dynamic then head.v.DynamicExternal? else head.v.External?
    ensures WellFormed([head], dynamic) && forall leaf :: Lookup([head], leaf) == []
  {
    assert forall leaf :: Ptr([head], leaf) == Fail;
  }

  lemma {:induction false} SeveralKeys(buckets: map<Key, Line>, s: seq<Entry>, kind: Kind, dynamic: bool)
    requires TwoKeys(buckets) && GoodBuckets(buckets, kind, dynamic) && Holds(buckets, s, kind)
    ensures forall key :: !SoleKey(s, kind, key)
  {
    hide Scan;
    var a, b :| a in buckets && b in buckets && a != b;
    assert OpenBucket(buckets[a], dynamic) && OpenBucket(buckets[b], dynamic);
    assert BucketOffsets(buckets, a) == Scan(s, a) && BucketOffsets(buckets, b) == Scan(s, b);
    forall key ensures !SoleKey(s, kind, key) {
      assert Scan(s, if key == a then b else a) != [];
    }
  }

  /** Buckets that hold a clause list and are shown by a slot make the slot represent it. */
  lemma {:induction false} ShownRepresents(code: seq<Line>, buckets: map<Key, Line>, s: seq<Entry>, kind: Kind,
                                           dynamic: bool)
    requires Rooted(code) && Shows(code, buckets, kind) && GoodBuckets(buckets, kind, dynamic)
    requires Holds(buckets, s, kind)
    ensures KindRepresents(code, s, kind) && Lean(code, s, kind)
  {
    if IsTable(code, kind) {
      SeveralKeys(buckets, s, kind, dynamic);
    } else {
      var any := if kind == Constants then LitKey(Fixnum(0)) else StrKey("", 0);
      if buckets == map[] {
        assert SoleKey(s, kind, any);
      } else {
        var key :| key in buckets;
        assert SoleKey(s, kind, key);
      }
    }
  }

  /** Filling another slot keeps what a kind represents. */
  lemma {:induction false} FilledKeeps(code: seq<Line>, code': seq<Line>, s: seq<Entry>, kind: Kind, filled: Kind)
    requires SlotFilled(code, code', filled) && kind != filled && KindRepresents(code, s, kind) && Lean(code, s, kind)
    ensures KindRepresents(code', s, kind) && Lean(code', s, kind)
  {
    assert Apart(WholeLeaf(kind), filled);
    forall key | OfKind(key, kind) ensures Lookup(code', KeyLeaf(key)) == Lookup(code, KeyLeaf(key)) {
      assert Apart(KeyLeaf(key), filled);
    }
  }

  /** compute_indices: the block represents exactly the clauses that were filed. */
  method ComputeIndices(offsets: CodeOffsets, skipStubTryMeElse: bool, ghost s: seq<Entry>) returns (code: seq<Line>)
    requires offsets.Files(s)
    ensures code == [] <==> forall key :: Scan(s, key) == []
    ensures code != [] ==>
              && WellFormed(code, offsets.dynamic) && Represents(code, s) && (forall kind :: Lean(code, s, kind))
              && code[0].arg == offsets.optimalIndex
              && code[0].v == ClausePtr(if skipStubTryMeElse then 2 else 1, offsets.dynamic)
  {
    if offsets.NoIndices() {
      return [];
    }
    UsedBuckets(offsets, s);
    var v := ClausePtr(1 + if skipStubTryMeElse then 1 else 0, offsets.dynamic);
    code := LayOut(offsets.lists, offsets.structures, offsets.constants, offsets.optimalIndex, v, s, offsets.dynamic);
  }

  /** A slot pointer after `n` lines were pushed in front of its target. */
  function Down(p: CodePtr, n: nat): CodePtr
  {
    if p.Internal? then Internal(p.o + n) else p
  }

  /** Lay out the list clauses, then the structures, then the constants, and correct the earlier
      pointers for the switches pushed in front of them. */
  method LayOut(lists: Line, structures: map<Key, Line>, constants: map<Key, Line>, arg: nat, v: CodePtr,
                ghost s: seq<Entry>, ghost dynamic: bool)
    returns (code: seq<Line>)
    requires GoodBuckets(constants, Constants, dynamic) && GoodBuckets(structures, Structures, dynamic)
    requires lists == EmptyBucket(dynamic) || OpenBucket(lists, dynamic)
    requires if dynamic then v.DynamicExternal? else v.External?
    requires LineOffsets(lists) == Scan(s, ListKey)
    requires Holds(constants, s, Constants) && Holds(structures, s, Structures)
    ensures WellFormed(code, dynamic) && Represents(code, s) && code[0].arg == arg && code[0].v == v
    ensures forall kind :: Lean(code, s, kind)
  {
    hide Scan, Holds, GoodBuckets, Lean, Represents, Filled;
    ghost var head0 := SwitchOnTerm(arg, v, Fail, Fail, Fail);
    var lst, prelude := SwitchOnList(lists, head0, dynamic);
    ghost var head1 := head0.(l := lst);
    ghost var code1 := [head1] + prelude;
    var str, emittedStructure, con, emittedConstant;
    str, prelude, emittedStructure := SwitchOnKind(Structures, structures, prelude, head1, dynamic);
    ghost var head2 := WithSlot(if emittedStructure then Shifted(head1) else head1, Structures, str);
    ghost var code2 := [head2] + prelude;
    FilledFine(code1, code2, structures, Structures, dynamic);
    con, prelude, emittedConstant := SwitchOnKind(Constants, constants, prelude, head2, dynamic);
    ghost var head3 := WithSlot(if emittedConstant then Shifted(head2) else head2, Constants, con);
    ghost var code3 := [head3] + prelude;
    BothFilled(code1, code2, code3, structures, constants, s, dynamic);
    str := Down(str, if emittedConstant then 1 else 0);
    lst := Down(Down(lst, if emittedConstant then 1 else 0), if emittedStructure then 1 else 0);
    code := [SwitchOnTerm(arg, v, con, lst, str)] + prelude;
    assert SwitchOnTerm(arg, v, con, lst, str) == head3;
  }

  lemma {:induction false} FilledFine(before: seq<Line>, code: seq<Line>, buckets: map<Key, Line>, kind: Kind,
                                      dynamic: bool)
    requires Filled(before, code, buckets, kind, dynamic)
    ensures WellFormed(code, dynamic) && Rooted(before) && Rooted(code)
  {
    hide WellFormed;
  }

  /** With the slots of both kinds filled, the block represents the clauses. */
  lemma {:induction false} BothFilled(code1: seq<Line>, code2: seq<Line>, code3: seq<Line>, structures: map<Key,
                                      Line>, constants: map<Key, Line>,
                                      s: seq<Entry>, dynamic: bool)
    requires Filled(code1, code2, structures, Structures, dynamic)
            && Filled(code2, code3, constants, Constants, dynamic)
    requires GoodBuckets(constants, Constants, dynamic) && GoodBuckets(structures, Structures, dynamic)
    requires Rooted(code1) && Lookup(code1, ListLeaf) == Scan(s, ListKey)
    requires Holds(constants, s, Constants) && Holds(structures, s, Structures)
    ensures WellFormed(code3, dynamic) && Represents(code3, s) && forall kind :: Lean(code3, s, kind)
  {
    hide WellFormed, Shows, Scan, Holds, GoodBuckets, Lean, KindRepresents, IsTable, Lookup;
    assert Apart(ListLeaf, Structures) && Apart(ListLeaf, Constants);
    ShownRepresents(code2, structures, s, Structures, dynamic);
    FilledKeeps(code2, code3, s, Structures, Constants);
    ShownRepresents(code3, constants, s, Constants, dynamic);
    forall kind ensures Lean(code3, s, kind) {
      assert kind == Constants || kind == Structures;
    }
  }

  lemma {:induction false} UsedBuckets(offsets: CodeOffsets, s: seq<Entry>)
    requires offsets.Files(s) && !offsets.NoIndices()
    ensures exists key :: Scan(s, key) != []
  {
    if offsets.constants != map[] {
      var key :| key in offsets.constants;
      assert BucketOffsets(offsets.constants, key) == Scan(s, key);
    } else if offsets.structures != map[] {
      var key :| key in offsets.structures;
      assert BucketOffsets(offsets.structures, key) == Scan(s, key);
    } else {
      assert LineOffsets(offsets.lists) == Scan(s, ListKey);
    }
  }
}
