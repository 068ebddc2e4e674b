/**
 Adding one clause to an indexing block in place.
 */
module IndexingMerge {
  import opened IndexingLines
  import opened Options
  import opened IndexingLemmas

  // ----- searching the skeleton -----

  function LastOfType(infos: seq<ClauseIndexInfo>, kind: Kind): Option<OptArgIndexKey>
  {
    if infos == [] then None
    else if HasKeyType(infos[|infos| - 1].key, kind) then Some(infos[|infos| - 1].key)
    else LastOfType(infos[..|infos| - 1], kind)
  }

  function FirstOfType(infos: seq<ClauseIndexInfo>, kind: Kind): Option<OptArgIndexKey>
  {
    if infos == [] then None
    else if HasKeyType(infos[0].key, kind) then Some(infos[0].key)
    else FirstOfType(infos[1..], kind)
  }

  function FoundKey(skeleton: seq<ClauseIndexInfo>, retracted: seq<ClauseIndexInfo>, kind: Kind, append: bool)
    : Option<OptArgIndexKey>
  {
    var found := if append then LastOfType(skeleton, kind) else FirstOfType(skeleton, kind);
    if found.Some? then found else LastOfType(retracted, kind)
  }

  method SearchBackward(infos: seq<ClauseIndexInfo>, kind: Kind) returns (r: Option<OptArgIndexKey>)
    ensures r == LastOfType(infos, kind)
    ensures r.Some? ==> HasKeyType(r.value, kind)
  {
    var i := |infos|;
    assert infos[..i] == infos;
    while i > 0
      invariant 0 <= i <= |infos|
      invariant LastOfType(infos, kind) == LastOfType(infos[..i], kind)
    {
      i := i - 1;
      assert infos[..i + 1][..i] == infos[..i];
      if HasKeyType(infos[i].key, kind) {
        return Some(infos[i].key);
      }
    }
    r := None;
  }

  method SearchForward(infos: seq<ClauseIndexInfo>, kind: Kind) returns (r: Option<OptArgIndexKey>)
    ensures r == FirstOfType(infos, kind)
    ensures r.Some? ==> HasKeyType(r.value, kind)
  {
    var i := 0;
    while i < |infos|
      invariant 0 <= i <= |infos|
      invariant FirstOfType(infos, kind) == FirstOfType(infos[i..], kind)
    {
      if HasKeyType(infos[i].key, kind) {
        return Some(infos[i].key);
      }
      i := i + 1;
    }
    r := None;
  }

  method SearchSkeletonForFirstKeyType(skeleton: seq<ClauseIndexInfo>, retracted: seq<ClauseIndexInfo>,
                                       kind: Kind, append: bool)
    returns (r: Option<OptArgIndexKey>)
    ensures r == FoundKey(skeleton, retracted, kind, append)
    ensures r.Some? ==> HasKeyType(r.value, kind)
  {
    if append {
      r := SearchBackward(skeleton, kind);
    } else {
      r := SearchForward(skeleton, kind);
    }
    if r.None? {
      r := SearchBackward(retracted, kind);
    }
  }

  ghost predicate UsesKind(s: seq<Entry>, kind: Kind)
  {
    exists key :: OfKind(key, kind) && Scan(s, key) != []
  }

  /** The key that the skeleton names for a kind. */
  function NamedKey(skeleton: seq<ClauseIndexInfo>, retracted: seq<ClauseIndexInfo>, kind: Kind,
                    append: bool): Option<Key>
  {
    var found := FoundKey(skeleton, retracted, kind, append);
    if found.Some? && HasKeyType(found.value, kind) then Some(MainKey(found.value)) else None
  }

  /** A switch can be opened if the skeleton names a key of the kind, or if a single clause stands in its place,
      which is then a defunct one. For structures that clause must be a dynamic one. */
  predicate CanOpen(code: seq<Line>, kind: Kind, named: Option<Key>)
    requires Rooted(code)
  {
    named.Some? || IsTable(code, kind) ||
    match Slot(code, kind)
    case Fail => true
    case DynamicExternal(_) => true
    case External(_) => kind.Constants?
    case Internal(_) => false
  }

  /** The clauses as the block knows them once the kind has a switch: without one before, the block did not record
      the key of its clauses, and they are filed under the one the skeleton names, or dropped if it names none. */
  ghost function Known(code: seq<Line>, s: seq<Entry>, kind: Kind, named: Option<Key>): seq<Entry>
    requires Rooted(code)
  {
    if IsTable(code, kind) then s else Rekeyed(s, kind, named)
  }

  /** The skeleton can name a key of every kind in use. */
  ghost predicate SkeletonHolds(skeleton: seq<ClauseIndexInfo>, retracted: seq<ClauseIndexInfo>,
                                s: seq<Entry>, kind: Kind, append: bool)
  {
    UsesKind(s, kind) ==>
      var named := NamedKey(skeleton, retracted, kind, append);
      named.Some? && Scan(s, named.value) != []
  }

  // ----- choice lists -----

  function UncapTrust(cs: seq<Choice>): seq<Choice>
  {
    if cs == [] then cs
    else match cs[|cs| - 1]
      case Trust(o) => cs[|cs| - 1 := Retry(o)]
      case DefaultTrust(o) => cs[|cs| - 1 := DefaultRetry(o)]
      case _ => cs
  }

  function UncapTry(cs: seq<Choice>): seq<Choice>
  {
    if cs != [] && cs[0].Try? then cs[0 := Retry(cs[0].o)] else cs
  }

  function ExtendedLine(line: Line, index: nat, append: bool): Line
    requires IsChoiceLine(line)
  {
    match line
    case IndexedChoice(cs) =>
      if append then IndexedChoice(UncapTrust(cs) + [Trust(index)])
      else IndexedChoice([Try(index)] + UncapTry(cs))
    case DynamicIndexedChoice(os) => DynamicIndexedChoice(Added(os, index, append))
  }

  /** Extending a choice list keeps its shape and adds the clause at the chosen end. */
  lemma {:induction false} ExtendedLineGood(line: Line, index: nat, append: bool, dynamic: bool)
    requires GoodChoiceLine(line, dynamic)
    ensures GoodChoiceLine(ExtendedLine(line, index, append), dynamic)
    ensures LineOffsets(ExtendedLine(line, index, append)) == Added(LineOffsets(line), index, append)
  {
    match line
    case IndexedChoice(cs) =>
      var cs' := ExtendedLine(line, index, append).choices;
      if append {
        forall i | 0 < i < |cs'| - 1 ensures cs'[i].Retry? || cs'[i].DefaultRetry? {
          assert cs'[i] == UncapTrust(cs)[i];
        }
      } else {
        forall i | 0 < i < |cs'| - 1 ensures cs'[i].Retry? || cs'[i].DefaultRetry? {
          assert cs'[i] == UncapTry(cs)[i - 1];
        }
      }
      assert ChoiceOffsets(cs') == Added(ChoiceOffsets(cs), index, append);
    case DynamicIndexedChoice(os) =>
  }

  /** A two-clause choice list. */
  function PairLine(o: nat, index: nat, append: bool, dynamic: bool): (line: Line)
    ensures GoodChoiceLine(line, dynamic)
    ensures LineOffsets(line) == Added([o], index, append)
  {
    if dynamic then DynamicIndexedChoice(Added([o], index, append))
    else if append then IndexedChoice([Try(o), Trust(index)])
    else IndexedChoice([Try(index), Trust(o)])
  }

  function ClausePtr(index: nat, dynamic: bool): CodePtr
  {
    if dynamic then DynamicExternal(index) else External(index)
  }

  /** The block after clause `index` is added to what `leaf` leads to. */
  ghost function Inserted(code: seq<Line>, leaf: Leaf, index: nat, append: bool, dynamic: bool): seq<Line>
    requires WellFormed(code, dynamic) && Live(code, leaf)
  {
    assert LeafOk(code, leaf, dynamic);
    match Ptr(code, leaf)
    case Fail => SetPtr(code, leaf, ClausePtr(index, dynamic))
    case External(o) => PairInserted(code, leaf, PairLine(o, index, append, dynamic), dynamic)
    case DynamicExternal(o) => PairInserted(code, leaf, PairLine(o, index, append, dynamic), dynamic)
    case Internal(o) =>
      var pos := Base(code, leaf) + o;
      code[pos := ExtendedLine(code[pos], index, append)]
  }

  ghost function PairInserted(code: seq<Line>, leaf: Leaf, line: Line, dynamic: bool): seq<Line>
    requires WellFormed(code, dynamic) && Live(code, leaf) && GoodChoiceLine(line, dynamic)
  {
    PointAtList(code, leaf, line, dynamic);
    SetPtr(code + [line], leaf, Internal(|code| - Base(code, leaf)))
  }

  /** The first line still looks at the same argument. */
  lemma {:induction false} InsertedFirst(code: seq<Line>, leaf: Leaf, index: nat, append: bool, dynamic: bool)
    requires WellFormed(code, dynamic) && Live(code, leaf)
    ensures SameFirst(code, Inserted(code, leaf, index, append, dynamic))
  {
    assert LeafOk(code, leaf, dynamic);
  }

  /** Insertion adds the clause at the chosen end of that leaf and touches no other. */
  lemma {:induction false} InsertedLeaf(code: seq<Line>, leaf: Leaf, index: nat, append: bool, dynamic: bool)
    requires WellFormed(code, dynamic) && Live(code, leaf)
    ensures var code' := Inserted(code, leaf, index, append, dynamic);
            && WellFormed(code', dynamic)
            && LeafBecomes(code, code', leaf, Added(Lookup(code, leaf), index, append))
  {
    hide WellFormed, LeafBecomes, SetPtr, PairLine, ExtendedLine, Live;
    LeafFine(code, leaf, dynamic);
    if Ptr(code, leaf).Fail? {
      PointAtClause(code, leaf, index, dynamic);
      assert Added(Lookup(code, leaf), index, append) == [index];
    } else if Ptr(code, leaf).Internal? {
      InsertedInList(code, leaf, index, append, dynamic);
    } else {
      var o := Ptr(code, leaf).o;
      PointAtList(code, leaf, PairLine(o, index, append, dynamic), dynamic);
    }
  }

  lemma {:induction false} InsertedInList(code: seq<Line>, leaf: Leaf, index: nat, append: bool, dynamic: bool)
    requires WellFormed(code, dynamic) && Target(code, leaf) != -1
    ensures 0 < Target(code, leaf) < |code| && IsChoiceLine(code[Target(code, leaf)])
    ensures var code' := code[Target(code, leaf) := ExtendedLine(code[Target(code, leaf)], index, append)];
            && WellFormed(code', dynamic)
            && LeafBecomes(code, code', leaf, Added(Lookup(code, leaf), index, append))
  {
    assert LeafOk(code, leaf, dynamic);
    var line := code[Target(code, leaf)];
    ExtendedLineGood(line, index, append, dynamic);
    ReplaceList(code, leaf, ExtendedLine(line, index, append), dynamic);
  }

  /** Insertion files the newest clause under one more key. */
  lemma {:induction false} InsertedRepresents(code: seq<Line>, s: seq<Entry>, e: Entry, key: Key, append: bool,
                                              dynamic: bool)
    requires WellFormed(code, dynamic) && key !in e.keys && Represents(code, Added(s, e, append))
    requires Live(code, LeafOf(key))
    ensures var code' := Inserted(code, LeafOf(key), e.offset, append, dynamic);
            && WellFormed(code', dynamic)
            && Represents(code', Added(s, Entry(e.keys + {key}, e.offset), append))
            && forall kind :: IsTable(code', kind) == IsTable(code, kind)
  {
    ScansOfNewKey(s, e, key, append);
    InsertedLeaf(code, LeafOf(key), e.offset, append, dynamic);
    assert Lookup(code, LeafOf(key)) == Scan(s, key) by {
      if !key.ListKey? { assert KindRepresents(code, Added(s, e, append), KindOf(key)); }
    }
    KeyEdit(code, Inserted(code, LeafOf(key), e.offset, append, dynamic),
            Added(s, e, append), Added(s, Entry(e.keys + {key}, e.offset), append), key,
            Added(Scan(s, key), e.offset, append));
  }

  /** A slot that led nowhere now leads straight to the newest clause. */
  lemma {:induction false} FirstOfKind(code: seq<Line>, s: seq<Entry>, e: Entry, kind: Kind, key: Key, append: bool,
                                       dynamic: bool)
    requires WellFormed(code, dynamic) && Represents(code, Added(s, e, append))
    requires OfKind(key, kind) && key !in e.keys && Slot(code, kind) == Fail
    ensures var code' := SetPtr(code, WholeLeaf(kind), ClausePtr(e.offset, dynamic));
            && WellFormed(code', dynamic)
            && Represents(code', Added(s, Entry(e.keys + {key}, e.offset), append))
            && Slot(code', kind) == ClausePtr(e.offset, dynamic)
  {
    var t, t' := Added(s, e, append), Added(s, Entry(e.keys + {key}, e.offset), append);
    assert KindRepresents(code, t, kind);
    var k :| SoleKey(t, kind, k) && Lookup(code, WholeLeaf(kind)) == Scan(t, k);
    assert SoleKey(t, kind, key);
    ScansOfNewKey(s, e, key, append);
    assert Added(Scan(s, key), e.offset, append) == [e.offset];
    PointAtClause(code, WholeLeaf(kind), e.offset, dynamic);
    SlotEdit(code, SetPtr(code, WholeLeaf(kind), ClausePtr(e.offset, dynamic)), t, t', kind, key, [e.offset]);
  }

  /** A slot that leads straight to clauses is in use. */
  lemma {:induction false} WholeInUse(code: seq<Line>, t: seq<Entry>, kind: Kind, dynamic: bool)
    requires WellFormed(code, dynamic) && Represents(code, t)
    requires !IsTable(code, kind) && !Slot(code, kind).Fail?
    ensures UsesKind(t, kind)
  {
    assert KindRepresents(code, t, kind);
    assert LeafOk(code, WholeLeaf(kind), dynamic);
    var k :| SoleKey(t, kind, k) && Lookup(code, WholeLeaf(kind)) == Scan(t, k);
    assert OfKind(k, kind) && Scan(t, k) != [];
  }

  /** A clause filed nowhere changes nothing. */
  lemma {:induction false} UnfiledEntry(code: seq<Line>, s: seq<Entry>, o: nat, append: bool)
    requires Rooted(code) && Represents(code, s)
    ensures Represents(code, Added(s, Entry({}, o), append))
    ensures forall key :: Scan(Added(s, Entry({}, o), append), key) == Scan(s, key)
  {
    var t := Added(s, Entry({}, o), append);
    forall key ensures Scan(t, key) == Scan(s, key) {
      ScanAdded(s, Entry({}, o), key, append);
    }
    SameScansRepresent(code, s, t);
  }

  /** Before a clause is filed anywhere, adding it does not change what the block knows. */
  lemma {:induction false} KnownAdded(code: seq<Line>, s: seq<Entry>, o: nat, append: bool, kind: Kind,
                                      named: Option<Key>)
    requires Rooted(code)
    ensures Known(code, Added(s, Entry({}, o), append), kind, named)
            == Added(Known(code, s, kind, named), Entry({}, o), append)
  {
    var e := Entry({}, o);
    assert Rekey(e, kind, named) == e;
    assert Rekeyed(Added(s, e, append), kind, named) == Added(Rekeyed(s, kind, named), e, append);
  }

  /** The block knows all clauses by their keys if and only if it has a switch for them, or the skeleton can name the
      key in use. */
  lemma {:induction false} KnownExactly(code: seq<Line>, s: seq<Entry>, kind: Kind, skeleton: seq<ClauseIndexInfo>,
                                        retracted: seq<ClauseIndexInfo>, append: bool)
    requires Rooted(code) && Represents(code, s)
    ensures var known := Known(code, s, kind, NamedKey(skeleton, retracted, kind, append));
            (forall key :: Scan(known, key) == Scan(s, key)) <==>
            IsTable(code, kind) || SkeletonHolds(skeleton, retracted, s, kind, append)
  {
    hide Scan, Lookup, NamedKey, Rekeyed;
    var named := NamedKey(skeleton, retracted, kind, append);
    assert KindRepresents(code, s, kind);
    if !IsTable(code, kind) {
      var sole :| SoleKey(s, kind, sole) && Lookup(code, WholeLeaf(kind)) == Scan(s, sole);
      NamedOfKind(skeleton, retracted, kind, append);
      assert UsesKind(s, kind) <==> Scan(s, sole) != [];
      if SkeletonHolds(skeleton, retracted, s, kind, append) {
        RekeyedSame(s, kind, sole, named);
      } else {
        RekeyedScan(s, kind, sole, named, sole);
      }
    }
  }

  lemma {:induction false} NamedOfKind(skeleton: seq<ClauseIndexInfo>, retracted: seq<ClauseIndexInfo>, kind: Kind,
                                       append: bool)
    ensures var named := NamedKey(skeleton, retracted, kind, append); named.Some? ==> OfKind(named.value, kind)
  {
  }

  /** A switch opened with a key in use represents the same clauses. */
  lemma {:induction false} StillKnown(code: seq<Line>, code': seq<Line>, kind: Kind, key: Key, t: seq<Entry>)
    requires Rooted(code) && Represents(code, t) && !IsTable(code, kind) && OfKind(key, kind) && Scan(t, key) != []
    requires Rooted(code') && Represents(code', Rekeyed(t, kind, Some(key)))
    ensures Represents(code', t)
  {
    hide Scan, Rekeyed, Lookup;
    assert KindRepresents(code, t, kind);
    var sole :| SoleKey(t, kind, sole) && Lookup(code, WholeLeaf(kind)) == Scan(t, sole);
    RekeyedSame(t, kind, sole, Some(key));
    SameScansRepresent(code', Rekeyed(t, kind, Some(key)), t);
  }

  /** Of a kind that is not in use there is nothing to forget. */
  lemma {:induction false} FailKnown(code: seq<Line>, s: seq<Entry>, kind: Kind, named: Option<Key>)
    requires Rooted(code) && Represents(code, s) && Slot(code, kind) == Fail
            && (named.Some? ==> OfKind(named.value, kind))
    ensures Represents(code, Known(code, s, kind, named))
  {
    hide Scan, Rekeyed;
    assert KindRepresents(code, s, kind);
    var sole :| SoleKey(s, kind, sole) && Lookup(code, WholeLeaf(kind)) == Scan(s, sole);
    RekeyedSame(s, kind, sole, named);
    SameScansRepresent(code, s, Rekeyed(s, kind, named));
  }

  lemma {:induction false} AddedSameScans(s: seq<Entry>, t: seq<Entry>, e: Entry, append: bool)
    requires forall key :: Scan(s, key) == Scan(t, key)
    ensures forall key :: Scan(Added(s, e, append), key) == Scan(Added(t, e, append), key)
  {
    forall key ensures Scan(Added(s, e, append), key) == Scan(Added(t, e, append), key) {
      ScanAdded(s, e, key, append);
      ScanAdded(t, e, key, append);
    }
  }

  /** A clause can be merged if it is a list clause, or the switch of its kind is there or can be opened. */
  predicate MayMerge(code: seq<Line>, key: OptArgIndexKey, skeleton: seq<ClauseIndexInfo>,
                     retracted: seq<ClauseIndexInfo>, append: bool)
    requires Rooted(code) && !key.NoArg?
  {
    var kind := KindOf(MainKey(key));
    key.ListArg? || CanOpen(code, kind, NamedKey(skeleton, retracted, kind, append))
  }

  /** The clauses as the block knows them when a clause with this key is merged. */
  ghost function Remembered(code: seq<Line>, s: seq<Entry>, key: OptArgIndexKey, skeleton: seq<ClauseIndexInfo>,
                            retracted: seq<ClauseIndexInfo>, append: bool): seq<Entry>
    requires Rooted(code) && !key.NoArg?
  {
    var kind := KindOf(MainKey(key));
    if key.ListArg? then s else Known(code, s, kind, NamedKey(skeleton, retracted, kind, append))
  }

  /** If the skeleton can name the key in use, merging is allowed and forgets nothing. */
  lemma {:induction false} AllRemembered(code: seq<Line>, s: seq<Entry>, key: OptArgIndexKey,
                                         skeleton: seq<ClauseIndexInfo>,
                                         retracted: seq<ClauseIndexInfo>, append: bool, dynamic: bool)
    requires WellFormed(code, dynamic) && Represents(code, s) && !key.NoArg?
    requires SkeletonHolds(skeleton, retracted, s, KindOf(MainKey(key)), append)
    ensures MayMerge(code, key, skeleton, retracted, append)
    ensures forall k :: Scan(Remembered(code, s, key, skeleton, retracted, append), k) == Scan(s, k)
  {
    hide Scan, Known, NamedKey;
    if !key.ListArg? {
      var kind := KindOf(MainKey(key));
      KnownExactly(code, s, kind, skeleton, retracted, append);
      if !IsTable(code, kind) && !Slot(code, kind).Fail? {
        WholeInUse(code, s, kind, dynamic);
      }
    }
  }

  /** Where there was a switch, there still is one, and the first line looks at the same argument. */
  predicate KeepsTables(code: seq<Line>, code': seq<Line>)
    requires Rooted(code)
  {
    SameFirst(code, code') && forall kind :: IsTable(code, kind) ==> IsTable(code', kind)
  }

  class IndexingCodeMergingPtr {
    var skeleton: seq<ClauseIndexInfo>
    const retracted: seq<ClauseIndexInfo>
    var code: seq<Line>
    var offset: nat
    const append: bool
    const dynamic: bool

    constructor (skeleton: seq<ClauseIndexInfo>, retracted: seq<ClauseIndexInfo>, code: seq<Line>, append: bool)
      requires Rooted(code)
      ensures this.skeleton == skeleton && this.retracted == retracted && this.code == code
      ensures this.append == append && offset == 0
      ensures dynamic == code[0].v.DynamicExternal?
    {
      this.skeleton := skeleton;
      this.retracted := retracted;
      this.code := code;
      this.append := append;
      this.offset := 0;
      this.dynamic := code[0].v.DynamicExternal?;
    }

    method Internalize(kind: Kind, ptr: CodePtr)
      requires !ptr.Fail?
      requires ptr.Internal? ==> offset < |code|
      modifies this`code, this`offset
      ensures var table := TableOf(NamedKey(skeleton, retracted, kind, append), ptr);
              if ptr.Internal? then
                && code == old(code)[old(offset) := SwitchOn(kind, table)] + [old(code)[old(offset)]]
                && offset == old(offset)
              else
                && code == old(code) + [SwitchOn(kind, table)]
                && offset == |old(code)|
    {
      var key := SearchSkeletonForFirstKeyType(skeleton, retracted, kind, append);
      var table: map<Key, CodePtr> := map[];
      if key.Some? {
        table := map[MainKey(key.value) := ptr];
      }
      if ptr.Internal? {
        var last := |code|;
        code := code + [SwitchOn(kind, table)];
        code := code[offset := code[last]][last := code[offset]];
      } else {
        offset := |code|;
        code := code + [SwitchOn(kind, table)];
      }
    }

    /** Add `index` under `key` in the switch the pointer rests on. */
    method InsertAtTable(kind: Kind, key: Key, index: nat)
      requires WellFormed(code, dynamic) && OfKind(key, kind) && IsTable(code, kind) && offset == Slot(code, kind).o
      modifies this`code, this`offset
      ensures code == Inserted(old(code), KeyLeaf(key), index, append, dynamic)
    {
      assert LeafOk(code, KeyLeaf(key), dynamic);
      var table := code[offset].table;
      var ptr := if key in table then table[key] else Fail;
      match ptr {
        case Fail =>
          code := code[offset := SwitchOn(kind, table[key := ClausePtr(index, dynamic)])];
        case Internal(o) =>
          offset := offset + o;
          ExtendIndexedChoice(index);
        case External(o) =>
          AddIndexedChoice(kind, o, key, index);
        case DynamicExternal(o) =>
          AddIndexedChoice(kind, o, key, index);
      }
    }

    /** The same, in terms of the clauses the block stands for. */
    method FileAtTable(kind: Kind, key: Key, index: nat, ghost s: seq<Entry>, ghost e: Entry)
      requires AtSlot(kind) && OfKind(key, kind) && IsTable(code, kind) && offset != 0
      requires index == e.offset && key !in e.keys && Represents(code, Added(s, e, append))
      modifies this`code, this`offset
      ensures WellFormed(code, dynamic) && IsTable(code, kind) && KeepsTables(old(code), code)
      ensures Represents(code, Added(s, Entry(e.keys + {key}, index), append))
    {
      InsertedRepresents(code, s, e, key, append, dynamic);
      InsertAtTable(kind, key, index);
    }

    method AddIndexedChoice(kind: Kind, external: nat, key: Key, index: nat)
      requires offset < |code| && code[offset].SwitchOn? && code[offset].kind == kind
      modifies this`code
      ensures code == (old(code) + [PairLine(external, index, append, dynamic)])[offset :=
                        SwitchOn(kind, old(code)[offset].table[key := Internal(|old(code)| - offset)])]
    {
      var len := |code|;
      code := code + [PairLine(external, index, append, dynamic)];
      code := code[offset := SwitchOn(kind, code[offset].table[key := Internal(len - offset)])];
    }

    method ExtendIndexedChoice(index: nat)
      requires offset < |code| && IsChoiceLine(code[offset])
      modifies this`code
      ensures code == old(code)[offset := ExtendedLine(old(code)[offset], index, append)]
    {
      code := code[offset := ExtendedLine(code[offset], index, append)];
    }

    /** How far the pointer still has to go: first line, bare choice list, switch. */
    function Distance(kind: Kind): nat
      reads this
      requires Rooted(code)
    {
      if offset == 0 then 2 else if IsTable(code, kind) then 0 else 1
    }

    ghost predicate AtSlot(kind: Kind)
      reads this
    {
      && WellFormed(code, dynamic) && Rooted(code)
      && (offset == 0 || (Slot(code, kind).Internal? && offset == Slot(code, kind).o))
    }

    /** index_constant and index_structure: file the newest clause under `key`, which is its first. */
    method IndexKey(kind: Kind, key: Key, index: nat, ghost s: seq<Entry>)
      requires WellFormed(code, dynamic) && offset == 0 && OfKind(key, kind) && Represents(code, s)
      requires CanOpen(code, kind, NamedKey(skeleton, retracted, kind, append))
      modifies this`code, this`offset
      ensures WellFormed(code, dynamic)
      ensures var known := Known(old(code), s, kind, NamedKey(skeleton, retracted, kind, append));
              Represents(code, Added(known, Entry({key}, index), append))
      ensures IsTable(code, kind) || (Slot(code, kind) == ClausePtr(index, dynamic) && Slot(old(code), kind).Fail?)
      ensures KeepsTables(old(code), code)
    {
      hide Scan, Lookup, Rekeyed, NamedKey, WellFormed, Represents, Added;
      LeafFine(code, ListLeaf, dynamic);
      ghost var named, e := NamedKey(skeleton, retracted, kind, append), Entry({}, index);
      ghost var known, t := Known(code, s, kind, named), Added(s, e, append);
      NamedOfKind(skeleton, retracted, kind, append);
      UnfiledEntry(code, s, index, append);
      KnownAdded(code, s, index, append, kind, named);
      assert {} + {key} == {key};
      while true
        invariant AtSlot(kind) && Represents(code, t) && CanOpen(code, kind, named) && KeepsTables(old(code), code)
        invariant IsTable(code, kind) || code == old(code)
        invariant Known(code, t, kind, named) == Added(known, e, append)
        decreases Distance(kind)
      {
        LeafFine(code, WholeLeaf(kind), dynamic);
        if offset == 0 {
          match Slot(code, kind) {
            case Fail =>
              FailKnown(code, t, kind, named);
              FirstOfKind(code, known, e, kind, key, append, dynamic);
              code := code[0 := WithSlot(code[0], kind, ClausePtr(index, dynamic))];
              return;
            case Internal(o) =>
              offset := offset + o;
            case External(o) =>
              OpenDirect(kind, External(o), t);
              t := Rekeyed(t, kind, named);
            case DynamicExternal(o) =>
              OpenDirect(kind, DynamicExternal(o), t);
              t := Rekeyed(t, kind, named);
          }
        } else if code[offset].SwitchOn? {
          FileAtTable(kind, key, index, known, e);
          return;
        } else {
          OpenBareList(kind, t);
          t := Rekeyed(t, kind, named);
        }
      }
    }

    /** Replace a bare choice list by a switch that leads to it. */
    method OpenBareList(kind: Kind, ghost t: seq<Entry>)
      requires AtSlot(kind) && offset != 0 && !IsTable(code, kind) && Represents(code, t)
      requires NamedKey(skeleton, retracted, kind, append).Some?
      modifies this`code, this`offset
      ensures AtSlot(kind) && IsTable(code, kind) && offset != 0
      ensures KeepsTables(old(code), code)
      ensures Represents(code, Rekeyed(t, kind, NamedKey(skeleton, retracted, kind, append)))
    {
      hide Represents, Scan, Opened, Lookup;
      ghost var named := NamedKey(skeleton, retracted, kind, append);
      OpenListOpens(code, kind, named.value, dynamic);
      OpenedRepresents(code, OpenList(code, kind, named.value), kind, named, t);
      Internalize(kind, Internal(|code| - offset));
    }

    /** Replace a direct clause pointer by a switch that has the clause under the key the skeleton names, or is
        empty. */
    method OpenDirect(kind: Kind, ptr: CodePtr, ghost t: seq<Entry>)
      requires WellFormed(code, dynamic) && offset == 0 && Represents(code, t)
      requires ptr == Slot(code, kind) && (ptr.External? || ptr.DynamicExternal?)
      requires CanOpen(code, kind, NamedKey(skeleton, retracted, kind, append))
      modifies this`code, this`offset
      ensures AtSlot(kind) && IsTable(code, kind) && offset != 0
      ensures KeepsTables(old(code), code)
      ensures Represents(code, Rekeyed(t, kind, NamedKey(skeleton, retracted, kind, append)))
    {
      hide Represents, Scan, Opened, Lookup;
      ghost var named := NamedKey(skeleton, retracted, kind, append);
      OpenClauseOpens(code, kind, named, dynamic);
      OpenedRepresents(code, OpenClause(code, kind, named), kind, named, t);
      code := code[0 := WithSlot(code[0], kind, Internal(|code| - offset))];
      Internalize(kind, ptr);
    }

    /** index_overlapping_constant: file a constant that is already indexed under its other key. */
    method IndexOverlapping(original: Key, overlapping: Key, index: nat, ghost s: seq<Entry>, ghost e: Entry)
      requires WellFormed(code, dynamic) && offset == 0 && original.LitKey? && overlapping.LitKey?
      requires index == e.offset && original in e.keys && overlapping !in e.keys
      requires Represents(code, Added(s, e, append))
      requires IsTable(code, Constants) || Slot(code, Constants) == ClausePtr(index, dynamic)
      modifies this`code, this`offset
      ensures WellFormed(code, dynamic) && IsTable(code, Constants) && KeepsTables(old(code), code)
      ensures Represents(code, Added(s, Entry(e.keys + {overlapping}, index), append))
    {
      ghost var t := Added(s, e, append);
      while true
        invariant AtSlot(Constants) && Represents(code, t) && KeepsTables(old(code), code)
        invariant IsTable(code, Constants) || (offset == 0 && Slot(code, Constants) == ClausePtr(index, dynamic))
        decreases Distance(Constants)
      {
        assert LeafOk(code, WholeLeaf(Constants), dynamic);
        if offset == 0 {
          var ptr := Slot(code, Constants);
          if ptr.Internal? {
            offset := offset + ptr.o;
          } else {
            ScanAdded(s, e, original, append);
            OpenClauseOpens(code, Constants, Some(original), dynamic);
            OpenedRepresents(code, OpenClause(code, Constants, Some(original)), Constants, Some(original), t);
            StillKnown(code, OpenClause(code, Constants, Some(original)), Constants, original, t);
            var len := |code|;
            code := code[0 := WithSlot(code[0], Constants, Internal(len))];
            code := code + [SwitchOn(Constants, map[original := ptr])];
            offset := len;
          }
        } else {
          FileAtTable(Constants, overlapping, index, s, e);
          return;
        }
      }
    }

    /** index_list: file the newest clause under the list key. */
    method IndexList(index: nat)
      requires WellFormed(code, dynamic) && offset == 0
      modifies this`code, this`offset
      ensures code == Inserted(old(code), ListLeaf, index, append, dynamic)
    {
      assert LeafOk(code, ListLeaf, dynamic);
      var len := |code|;
      match code[0].l {
        case Fail =>
          code := code[0 := code[0].(l := ClausePtr(index, dynamic))];
        case DynamicExternal(o) =>
          code := code[0 := code[0].(l := Internal(len - offset))];
          code := code + [PairLine(o, index, append, dynamic)];
        case External(o) =>
          code := code[0 := code[0].(l := Internal(len - offset))];
          code := code + [PairLine(o, index, append, dynamic)];
        case Internal(o) =>
          offset := offset + o;
          ExtendIndexedChoice(index);
      }
    }

    /** File a clause under every key its indexed argument has. */
    method Merge(key: OptArgIndexKey, index: nat, ghost s: seq<Entry>)
      requires WellFormed(code, dynamic) && Represents(code, s) && offset == 0
      requires !key.NoArg? && (key.LiteralArg? ==> key.alternative == ConstantKeyAlternative(key.lit))
      requires MayMerge(code, key, skeleton, retracted, append)
      modifies this`code, this`offset
      ensures WellFormed(code, dynamic)
      ensures Represents(code, Added(Remembered(old(code), s, key, skeleton, retracted, append),
              Entry(FiledKeys(key), index), append))
      ensures KeepsTables(old(code), code)
      ensures key.ListArg? || IsTable(code, KindOf(MainKey(key))) || Slot(old(code), KindOf(MainKey(key))).Fail?
    {
      hide Represents, Scan, WellFormed, Added, Inserted, Lookup, CanOpen, Known, NamedKey;
      LeafFine(code, ListLeaf, dynamic);
      match key {
        case LiteralArg(_, _, lit, alternative) =>
          ghost var known := Remembered(code, s, key, skeleton, retracted, append);
          IndexKey(Constants, LitKey(lit), index, s);
          if alternative.Some? {
            offset := 0;
            IndexOverlapping(LitKey(lit), LitKey(alternative.value), index, known, Entry({LitKey(lit)}, index));
            assert {LitKey(lit)} + {LitKey(alternative.value)} == FiledKeys(key);
          }
        case StructureArg(_, _, name, arity) =>
          IndexKey(Structures, StrKey(name, arity), index, s);
        case ListArg(_, _) =>
          UnfiledEntry(code, s, index, append);
          InsertedRepresents(code, s, Entry({}, index), ListKey, append, dynamic);
          InsertedFirst(code, ListLeaf, index, append, dynamic);
          IndexList(index);
          assert {} + {ListKey} == {ListKey};
      }
    }
  }

  function NewestAt(skeleton: seq<ClauseIndexInfo>, append: bool): nat
    requires skeleton != []
  {
    if append then |skeleton| - 1 else 0
  }

  /** The skeleton while the newest clause's key is taken out of it. */
  function Taken(skeleton: seq<ClauseIndexInfo>, append: bool): seq<ClauseIndexInfo>
    requires skeleton != []
  {
    var at := NewestAt(skeleton, append);
    skeleton[at := skeleton[at].(key := NoArg)]
  }

  /** Merging a clause into a block that represents `s`, whatever form the block has, yields one that represents the
      clauses it knows with the new one added at the end or at the front. It represents all of `s` with the new one if
      and only if there was a switch for the new clause's kind or the skeleton can name the key in use. */
  method MergeClauseIndex(code: seq<Line>, skeleton: seq<ClauseIndexInfo>, retracted: seq<ClauseIndexInfo>,
                          newClauseLoc: nat, append: bool, ghost s: seq<Entry>)
    returns (code': seq<Line>, skeleton': seq<ClauseIndexInfo>)
    requires skeleton != []
    requires var key := skeleton[NewestAt(skeleton, append)].key;
             && !key.NoArg? && key.loc <= newClauseLoc
             && (key.LiteralArg? ==> key.alternative == ConstantKeyAlternative(key.lit))
    requires Rooted(code) && WellFormed(code, code[0].v.DynamicExternal?) && Represents(code, s)
    requires MayMerge(code, skeleton[NewestAt(skeleton, append)].key, Taken(skeleton, append), retracted, append)
    ensures skeleton' == skeleton
    ensures Rooted(code') && WellFormed(code', code[0].v.DynamicExternal?)
    ensures var key := skeleton[NewestAt(skeleton, append)].key;
            var e := Entry(FiledKeys(key), newClauseLoc - key.loc + 1);
            var infos := Taken(skeleton, append);
            && KeepsTables(code, code')
            && Represents(code', Added(Remembered(code, s, key, infos, retracted, append), e, append))
            && (Represents(code', Added(s, e, append)) <==> MergesAll(code, s, key, infos, retracted, append))
  {
    hide WellFormed, Represents, SkeletonHolds, Added, Scan, FiledKeys, ConstantKeyAlternative, Remembered, MayMerge;
    var at := if append then |skeleton| - 1 else 0;
    var key := skeleton[at].key;
    var merging := new IndexingCodeMergingPtr(Taken(skeleton, append), retracted, code, append);
    merging.Merge(key, newClauseLoc - key.loc + 1, s);
    code' := merging.code;
    LeafFine(code', ListLeaf, merging.dynamic);
    skeleton' := merging.skeleton[at := merging.skeleton[at].(key := key)];
    assert skeleton' == skeleton;
    ghost var e, infos := Entry(FiledKeys(key), newClauseLoc - key.loc + 1), Taken(skeleton, append);
    MergedExactly(code, code', s, key, infos, retracted, append, e);
  }

  /** A list clause is merged, or there is a switch for its kind, or the skeleton can name the key in use. */
  ghost predicate MergesAll(code: seq<Line>, s: seq<Entry>, key: OptArgIndexKey, skeleton: seq<ClauseIndexInfo>,
                            retracted: seq<ClauseIndexInfo>, append: bool)
    requires Rooted(code) && !key.NoArg?
  {
    var kind := KindOf(MainKey(key));
    key.ListArg? || IsTable(code, kind) || SkeletonHolds(skeleton, retracted, s, kind, append)
  }

  /** The merged block represents all clauses if and only if nothing was forgotten. */
  lemma {:induction false} MergedExactly(code: seq<Line>, code': seq<Line>, s: seq<Entry>, key: OptArgIndexKey,
                                         skeleton: seq<ClauseIndexInfo>, retracted: seq<ClauseIndexInfo>,
                                             append: bool, e: Entry)
    requires Rooted(code) && Represents(code, s) && !key.NoArg? && Rooted(code')
    requires var kind := KindOf(MainKey(key)); key.ListArg? || IsTable(code', kind) || Slot(code, kind).Fail?
    requires Represents(code', Added(Remembered(code, s, key, skeleton, retracted, append), e, append))
    ensures Represents(code', Added(s, e, append)) <==> MergesAll(code, s, key, skeleton, retracted, append)
  {
    hide Represents, SkeletonHolds, Scan, Added, Known, NamedKey;
    if !key.ListArg? {
      var kind := KindOf(MainKey(key));
      var known := Known(code, s, kind, NamedKey(skeleton, retracted, kind, append));
      KnownExactly(code, s, kind, skeleton, retracted, append);
      if MergesAll(code, s, key, skeleton, retracted, append) {
        AddedSameScans(s, known, e, append);
        SameScansRepresent(code', Added(known, e, append), Added(s, e, append));
      } else if Represents(code', Added(s, e, append)) {
        if Slot(code, kind).Fail? {
          FailHolds(code, s, kind, skeleton, retracted, append);
        } else {
          ShownByTable(code, code', s, kind, NamedKey(skeleton, retracted, kind, append), append, e, skeleton,
              retracted);
        }
      }
    }
  }

  lemma {:induction false} FailHolds(code: seq<Line>, s: seq<Entry>, kind: Kind, skeleton: seq<ClauseIndexInfo>,
                                     retracted: seq<ClauseIndexInfo>, append: bool)
    requires Rooted(code) && Represents(code, s) && Slot(code, kind).Fail?
    ensures SkeletonHolds(skeleton, retracted, s, kind, append)
  {
    hide Scan;
    assert KindRepresents(code, s, kind);
    var sole :| SoleKey(s, kind, sole) && Lookup(code, WholeLeaf(kind)) == Scan(s, sole);
  }

  /** A switch shows every scan of its kind, so that it tells which clauses are known. */
  lemma {:induction false} ShownByTable(code: seq<Line>, code': seq<Line>, s: seq<Entry>, kind: Kind,
                                        named: Option<Key>, append: bool,
                                        e: Entry, skeleton: seq<ClauseIndexInfo>, retracted: seq<ClauseIndexInfo>)
    requires Rooted(code) && Represents(code, s) && !IsTable(code, kind) && Rooted(code') && IsTable(code', kind)
    requires named == NamedKey(skeleton, retracted, kind, append)
    requires Represents(code', Added(Known(code, s, kind, named), e, append)) && Represents(code', Added(s, e, append))
    ensures forall key :: Scan(Known(code, s, kind, named), key) == Scan(s, key)
  {
    hide Scan, Added, Rekeyed, NamedKey, Lookup;
    var known := Known(code, s, kind, named);
    NamedOfKind(skeleton, retracted, kind, append);
    assert KindRepresents(code, s, kind) && KindRepresents(code', Added(known, e, append), kind)
            && KindRepresents(code', Added(s, e, append), kind);
    var sole :| SoleKey(s, kind, sole) && Lookup(code, WholeLeaf(kind)) == Scan(s, sole);
    forall key ensures Scan(known, key) == Scan(s, key) {
      RekeyedScan(s, kind, sole, named, key);
      if OfKind(key, kind) {
        assert Lookup(code', KeyLeaf(key)) == Scan(Added(known, e, append), key) == Scan(Added(s, e, append), key);
        ScanAdded(known, e, key, append);
        ScanAdded(s, e, key, append);
        AddedSame(Scan(known, key), Scan(s, key), e.offset, append);
      }
    }
  }

  lemma {:induction false} AddedSame<T>(a: seq<T>, b: seq<T>, x: T, append: bool)
    requires Added(a, x, append) == Added(b, x, append)
    ensures a == b
  {
    var c, d := Added(a, x, append), Added(b, x, append);
    if append {
      assert a == c[..|c| - 1] && b == d[..|d| - 1];
    } else {
      assert a == c[1..] && b == d[1..];
    }
  }

  /** A skeleton whose keys are exactly the keys of the represented clauses can name them. */
  lemma {:induction false} SkeletonOfClauses(infos: seq<ClauseIndexInfo>, retracted: seq<ClauseIndexInfo>,
                                             s: seq<Entry>, kind: Kind, append: bool)
    requires forall i :: 0 <= i < |infos| && !infos[i].key.NoArg? ==> Scan(s, MainKey(infos[i].key)) != []
    requires forall i :: 0 <= i < |retracted| && !retracted[i].key.NoArg? ==> Scan(s, MainKey(retracted[i].key)) != []
    requires UsesKind(s, kind) ==>
               exists i :: 0 <= i < |infos + retracted| && HasKeyType((infos + retracted)[i].key, kind)
    ensures SkeletonHolds(infos, retracted, s, kind, append)
  {
    LastFound(infos, kind);
    FirstFound(infos, kind);
    LastFound(retracted, kind);
    if UsesKind(s, kind) {
      var i :| 0 <= i < |infos + retracted| && HasKeyType((infos + retracted)[i].key, kind);
      if i < |infos| {
        assert (infos + retracted)[i] == infos[i];
      } else {
        assert (infos + retracted)[i] == retracted[i - |infos|];
      }
    }
  }

  lemma {:induction false} LastFound(infos: seq<ClauseIndexInfo>, kind: Kind)
    ensures var r := LastOfType(infos, kind);
            if r.None? then forall i :: 0 <= i < |infos| ==> !HasKeyType(infos[i].key, kind)
            else exists i :: 0 <= i < |infos| && infos[i].key == r.value && HasKeyType(r.value, kind)
  {
    if infos != [] && !HasKeyType(infos[|infos| - 1].key, kind) {
      var shorter := infos[..|infos| - 1];
      LastFound(shorter, kind);
      assert forall i :: 0 <= i < |shorter| ==> shorter[i] == infos[i];
    }
  }

  lemma {:induction false} FirstFound(infos: seq<ClauseIndexInfo>, kind: Kind)
    ensures var r := FirstOfType(infos, kind);
            if r.None? then forall i :: 0 <= i < |infos| ==> !HasKeyType(infos[i].key, kind)
            else exists i :: 0 <= i < |infos| && infos[i].key == r.value && HasKeyType(r.value, kind)
  {
    if infos != [] && !HasKeyType(infos[0].key, kind) {
      var shorter := infos[1..];
      FirstFound(shorter, kind);
      assert forall i :: 0 <= i < |shorter| ==> shorter[i] == infos[i + 1];
      assert forall i :: 0 < i < |infos| ==> infos[i] == shorter[i - 1];
    }
  }
}
