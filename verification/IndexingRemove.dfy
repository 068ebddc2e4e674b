/**
 Taking one clause out of an indexing block in place.
 */
module IndexingRemove {
  import opened IndexingLines
  import opened Options
  import opened IndexingLemmas
  import opened IndexingMerge

  // ----- removal from a sequence -----

  /** `s` without its first `x`. */
  function Without(s: seq<nat>, x: nat): seq<nat>
  {
    if s == [] then []
    else if s[0] == x then s[1..]
    else [s[0]] + Without(s[1..], x)
  }

  lemma {:induction false} WithoutAt(s: seq<nat>, x: nat, i: nat)
    requires i < |s| && s[i] == x && forall j :: 0 <= j < i ==> s[j] != x
    ensures Without(s, x) == s[..i] + s[i + 1..]
  {
    if i > 0 {
      WithoutAt(s[1..], x, i - 1);
      assert s[1..][..i - 1] == s[1..i];
      assert s[1..][i..] == s[i + 1..];
    }
  }

  lemma {:induction false} WithoutAbsent(s: seq<nat>, x: nat)
    requires x !in s
    ensures Without(s, x) == s
  {
    if s != [] {
      assert s[0] in s;
      assert forall y :: y in s[1..] ==> y in s;
      WithoutAbsent(s[1..], x);
    }
  }

  /** cap_choice_seq: give the first instruction and the last one their roles back. */
  function Capped(cs: seq<Choice>): (r: seq<Choice>)
    ensures |r| == |cs|
  {
    if cs == [] then []
    else
      var first := cs[0 := Try(cs[0].o)];
      match first[|first| - 1]
      case Retry(o) => first[|first| - 1 := Trust(o)]
      case DefaultRetry(o) => first[|first| - 1 := DefaultTrust(o)]
      case _ => first
  }

  lemma {:induction false} CappedGood(cs: seq<Choice>, i: nat)
    requires ChoiceShape(cs) && i < |cs|
    ensures var r := Capped(cs[..i] + cs[i + 1..]);
            && ChoiceOffsets(r) == ChoiceOffsets(cs)[..i] + ChoiceOffsets(cs)[i + 1..]
            && (|r| >= 2 ==> ChoiceShape(r))
  {
    var m := cs[..i] + cs[i + 1..];
    var r := Capped(m);
    assert forall j :: 0 <= j < |m| ==> r[j].o == m[j].o;
    assert ChoiceOffsets(r) == ChoiceOffsets(cs)[..i] + ChoiceOffsets(cs)[i + 1..];
  }

  method RemoveInstructionWithOffset(line: Line, offset: nat, ghost dynamic: bool) returns (line': Line)
    requires GoodChoiceLine(line, dynamic) || line == IndexedChoice([]) || line == DynamicIndexedChoice([])
    ensures LineOffsets(line') == Without(LineOffsets(line), offset)
    ensures line'.IndexedChoice? == line.IndexedChoice? && IsChoiceLine(line')
    ensures offset !in LineOffsets(line) ==> line' == line
    ensures GoodChoiceLine(line, dynamic) && |LineOffsets(line')| >= 2 ==> GoodChoiceLine(line', dynamic)
  {
    match line {
      case IndexedChoice(cs) =>
        for i := 0 to |cs|
          invariant forall j :: 0 <= j < i ==> cs[j].o != offset
        {
          if cs[i].o == offset {
            WithoutAt(ChoiceOffsets(cs), offset, i);
            CappedGood(cs, i);
            assert LineOffsets(line)[i] == offset;
            return IndexedChoice(Capped(cs[..i] + cs[i + 1..]));
          }
        }
        WithoutAbsent(ChoiceOffsets(cs), offset);
        line' := line;
      case DynamicIndexedChoice(os) =>
        for i := 0 to |os|
          invariant forall j :: 0 <= j < i ==> os[j] != offset
        {
          if os[i] == offset {
            WithoutAt(os, offset, i);
            return DynamicIndexedChoice(os[..i] + os[i + 1..]);
          }
        }
        WithoutAbsent(os, offset);
        line' := line;
    }
  }

  // ----- removal at a leaf -----

  /** A choice line no leaf leads to can be replaced by any other. */
  lemma {:induction false} DeadLine(code: seq<Line>, pos: nat, line: Line, dynamic: bool)
    requires WellFormed(code, dynamic) && pos < |code| && IsChoiceLine(code[pos]) && IsChoiceLine(line)
    requires forall b :: Target(code, b) != pos
    ensures var code' := code[pos := line];
            && WellFormed(code', dynamic)
            && (forall kind :: IsTable(code', kind) == IsTable(code, kind))
            && (forall b :: Lookup(code', b) == Lookup(code, b))
  {
    var code' := code[pos := line];
    forall b
      ensures Kept(code, code', b, dynamic) && LeafOk(code', b, dynamic) && Lookup(code', b) == Lookup(code, b)
    {
      ReplaceListTree(code, pos, line, b, dynamic);
      assert LeafOk(code, b, dynamic) && Target(code, b) != pos;
    }
    forall a, b | Target(code', a) == Target(code', b) != -1 ensures a == b {
      assert Kept(code, code', a, dynamic) && Kept(code, code', b, dynamic);
    }
    ReplaceListTree(code, pos, line, ListLeaf, dynamic);
  }

  /** The block after the list of `leaf` became `line`, which collapses when one clause is left. */
  function Shrunk(code: seq<Line>, leaf: Leaf, line: Line, dynamic: bool): seq<Line>
    requires Rooted(code) && Live(code, leaf) && 0 < Target(code, leaf) < |code|
  {
    if |LineOffsets(line)| == 1 then
      SetPtr(code, leaf, ClausePtr(LineOffsets(line)[0], dynamic))[Target(code, leaf) := Emptied(line)]
    else
      code[Target(code, leaf) := line]
  }

  function Emptied(line: Line): Line
  {
    if line.DynamicIndexedChoice? then DynamicIndexedChoice([]) else IndexedChoice([])
  }

  lemma {:induction false} ShrunkLeaf(code: seq<Line>, leaf: Leaf, line: Line, dynamic: bool)
    requires WellFormed(code, dynamic) && Live(code, leaf) && 0 < Target(code, leaf) < |code|
    requires IsChoiceLine(line) && LineOffsets(line) != []
    requires |LineOffsets(line)| >= 2 ==> GoodChoiceLine(line, dynamic)
    ensures var code' := Shrunk(code, leaf, line, dynamic);
            WellFormed(code', dynamic) && LeafBecomes(code, code', leaf, LineOffsets(line))
  {
    var pos := Target(code, leaf);
    if |LineOffsets(line)| == 1 {
      var o := LineOffsets(line)[0];
      var mid := SetPtr(code, leaf, ClausePtr(o, dynamic));
      PointAtClause(code, leaf, o, dynamic);
      SetPtrTree(code, leaf, ClausePtr(o, dynamic));
      SetPtrKeeps(code, leaf, ClausePtr(o, dynamic), dynamic);
      assert LeafOk(code, leaf, dynamic);
      forall b ensures Target(mid, b) != pos {
        assert b != leaf ==> Kept(code, mid, b, dynamic);
        assert Target(code, b) == Target(code, leaf) ==> b == leaf;
      }
      DeadLine(mid, pos, Emptied(line), dynamic);
      assert LineOffsets(line) == [o];
    } else {
      ReplaceList(code, leaf, line, dynamic);
    }
  }

  /** The block after `key` is dropped from its switch. */
  function Dropped(code: seq<Line>, key: Key): seq<Line>
    requires Rooted(code) && IsTable(code, KindOf(key))
  {
    var at := Slot(code, KindOf(key)).o;
    code[at := SwitchOn(KindOf(key), code[at].table - {key})]
  }

  lemma {:induction false} DroppedTree(code: seq<Line>, key: Key, b: Leaf)
    requires Rooted(code) && IsTable(code, KindOf(key))
    ensures var code' := Dropped(code, key);
            && Rooted(code') && (forall kind :: IsTable(code', kind) == IsTable(code, kind))
            && Base(code', b) == Base(code, b)
            && Ptr(code', b) == if b == KeyLeaf(key) then Fail else Ptr(code, b)
  {
  }

  lemma {:induction false} DroppedLeaf(code: seq<Line>, key: Key, dynamic: bool)
    requires WellFormed(code, dynamic) && IsTable(code, KindOf(key))
    ensures var code' := Dropped(code, key);
            WellFormed(code', dynamic) && LeafBecomes(code, code', KeyLeaf(key), [])
  {
    var code' := Dropped(code, key);
    forall b ensures b != KeyLeaf(key) ==> Kept(code, code', b, dynamic) {
      DroppedTree(code, key, b);
      assert LeafOk(code, b, dynamic);
    }
    DroppedTree(code, key, KeyLeaf(key));
    OneLeafEdit(code, code', KeyLeaf(key), [], dynamic);
  }

  /** An empty switch is closed. */
  lemma {:induction false} CloseEmpty(code: seq<Line>, s: seq<Entry>, kind: Kind, dynamic: bool)
    requires WellFormed(code, dynamic) && Represents(code, s)
    requires IsTable(code, kind) && code[Slot(code, kind).o].table == map[]
    ensures var code' := code[0 := WithSlot(code[0], kind, Fail)];
            WellFormed(code', dynamic) && Represents(code', s)
  {
    var code' := code[0 := WithSlot(code[0], kind, Fail)];
    forall b
      ensures Kept(code, code', b, dynamic) && LeafOk(code', b, dynamic) && Lookup(code', b) == Lookup(code, b)
    {
      CloseEmptyKeeps(code, kind, b, dynamic);
    }
    forall a, b | Target(code', a) == Target(code', b) != -1 ensures a == b {
      assert Kept(code, code', a, dynamic) && Kept(code, code', b, dynamic);
    }
    forall k ensures KindRepresents(code', s, k) {
      CloseEmptyKind(code, s, kind, k);
    }
  }

  lemma {:induction false} CloseEmptyKeeps(code: seq<Line>, kind: Kind, b: Leaf, dynamic: bool)
    requires WellFormed(code, dynamic)
    requires IsTable(code, kind) && code[Slot(code, kind).o].table == map[]
    ensures Kept(code, code[0 := WithSlot(code[0], kind, Fail)], b, dynamic)
  {
    assert LeafOk(code, b, dynamic);
    var code' := code[0 := WithSlot(code[0], kind, Fail)];
    assert Ptr(code', b) == Ptr(code, b);
    assert Ptr(code, b).Internal? ==> Base(code', b) == Base(code, b);
  }

  lemma {:induction false} CloseEmptyKind(code: seq<Line>, s: seq<Entry>, kind: Kind, k: Kind)
    requires Rooted(code) && KindRepresents(code, s, k)
    requires IsTable(code, kind) && code[Slot(code, kind).o].table == map[]
    requires forall b :: Lookup(code[0 := WithSlot(code[0], kind, Fail)], b) == Lookup(code, b)
    ensures KindRepresents(code[0 := WithSlot(code[0], kind, Fail)], s, k)
  {
    var code' := code[0 := WithSlot(code[0], kind, Fail)];
    if k == kind {
      var any := if kind == Constants then LitKey(Fixnum(0)) else StrKey("", 0);
      assert forall key :: OfKind(key, kind) ==> Lookup(code, KeyLeaf(key)) == [];
      assert SoleKey(s, kind, any);
    }
  }

  // ----- what removal does to the represented clauses -----

  predicate DistinctOffsets(s: seq<Entry>)
  {
    forall i, j :: 0 <= i < j < |s| ==> s[i].offset != s[j].offset
  }

  /** Clause `i` no longer filed under `keys`. */
  function Unfiled(s: seq<Entry>, i: nat, keys: set<Key>): seq<Entry>
    requires i < |s|
  {
    s[i := Entry(s[i].keys - keys, s[i].offset)]
  }

  lemma {:induction false} ScanAbsent(s: seq<Entry>, key: Key, o: nat)
    requires forall e :: e in s ==> e.offset != o
    ensures o !in Scan(s, key)
  {
    if s != [] {
      assert s[0] in s;
      assert forall e :: e in s[1..] ==> e in s;
      ScanAbsent(s[1..], key, o);
    }
  }

  lemma {:induction false} ScanStep(s: seq<Entry>, key: Key)
    requires s != []
    ensures Scan(s, key) == if key in s[0].keys then [s[0].offset] + Scan(s[1..], key) else Scan(s[1..], key)
  {
    assert [] + Scan(s[1..], key) == Scan(s[1..], key);
  }

  lemma {:induction false} WithoutStep(o: nat, rest: seq<nat>, x: nat)
    ensures Without([o] + rest, x) == if o == x then rest else [o] + Without(rest, x)
  {
    assert ([o] + rest)[1..] == rest;
  }

  lemma {:induction false} ScanOfOther(s: seq<Entry>, i: nat, key: Key, k: Key)
    requires i < |s| && k != key
    ensures Scan(Unfiled(s, i, {key}), k) == Scan(s, k)
  {
    hide Scan;
    var s' := Unfiled(s, i, {key});
    ScanStep(s, k);
    ScanStep(s', k);
    if i == 0 {
      assert s'[1..] == s[1..];
    } else {
      assert s'[1..] == Unfiled(s[1..], i - 1, {key});
      ScanOfOther(s[1..], i - 1, key, k);
    }
  }

  lemma {:induction false} ScanOfOwn(s: seq<Entry>, i: nat, key: Key)
    requires i < |s| && key in s[i].keys && DistinctOffsets(s)
    ensures Scan(Unfiled(s, i, {key}), key) == Without(Scan(s, key), s[i].offset)
    ensures s[i].offset in Scan(s, key)
  {
    hide Scan, Without;
    var s' := Unfiled(s, i, {key});
    ScanStep(s, key);
    ScanStep(s', key);
    WithoutStep(s[0].offset, Scan(s[1..], key), s[i].offset);
    if i == 0 {
      assert s'[1..] == s[1..];
    } else {
      assert s'[1..] == Unfiled(s[1..], i - 1, {key});
      ScanOfOwn(s[1..], i - 1, key);
    }
  }

  /** Unfiling one clause from one key removes its offset from that key's scan. */
  lemma {:induction false} ScanUnfiled(s: seq<Entry>, i: nat, key: Key)
    requires i < |s| && key in s[i].keys && DistinctOffsets(s)
    ensures ScansDiffer(s, Unfiled(s, i, {key}), key, Without(Scan(s, key), s[i].offset))
    ensures s[i].offset in Scan(s, key)
  {
    hide Scan, Without, Unfiled, DistinctOffsets;
    ScanOfOwn(s, i, key);
    forall k | k != key ensures Scan(Unfiled(s, i, {key}), k) == Scan(s, k) {
      ScanOfOther(s, i, key, k);
    }
  }

  /** A clause filed nowhere can as well be absent. */
  lemma {:induction false} ScanSkips(s: seq<Entry>, i: nat, key: Key)
    requires i < |s| && key !in s[i].keys
    ensures Scan(s[..i] + s[i + 1..], key) == Scan(s, key)
  {
    ScanConcat(s[..i], s[i + 1..], key);
    ScanConcat(s[..i], s[i..], key);
    assert s[..i] + s[i..] == s;
    assert s[i..][0] == s[i] && s[i..][1..] == s[i + 1..];
  }

  /** The leaf through which a key of this kind is reached. */
  function LeafFor(code: seq<Line>, key: Key): Leaf
    requires Rooted(code)
  {
    if key.ListKey? then ListLeaf
    else if IsTable(code, KindOf(key)) then KeyLeaf(key)
    else WholeLeaf(KindOf(key))
  }

  // ----- what is taken out -----

  /** The clause with offset `o` no longer filed under `key`. */
  function UnfiledAt(s: seq<Entry>, key: Key, o: nat): (r: seq<Entry>)
    ensures |r| == |s|
    ensures forall i :: 0 <= i < |s| ==> r[i] == if s[i].offset == o then Entry(s[i].keys - {key}, o) else s[i]
  {
    seq(|s|, i requires 0 <= i < |s| => if s[i].offset == o then Entry(s[i].keys - {key}, o) else s[i])
  }

  /** The offsets that are left of those found where a key leads: a single clause is dropped whichever it is. */
  function Left(found: seq<nat>, offset: nat): seq<nat>
  {
    if |found| <= 1 then [] else Without(found, offset)
  }

  /** The clause that is taken from a key. */
  function Victim(s: seq<Entry>, key: Key, offset: nat): nat
  {
    if |Scan(s, key)| == 1 then Scan(s, key)[0] else offset
  }

  function TakenOut(s: seq<Entry>, key: Key, offset: nat): seq<Entry>
  {
    UnfiledAt(s, key, Victim(s, key, offset))
  }

  predicate FiledAt(e: Entry, key: Key, o: nat)
  {
    e.offset == o && key in e.keys
  }

  /** Unfiling the clause with an offset removes the offset from that key's scan, if it is there. */
  lemma {:induction false} ScanUnfiledAt(s: seq<Entry>, key: Key, o: nat)
    requires DistinctOffsets(s)
    ensures ScansDiffer(s, UnfiledAt(s, key, o), key, Without(Scan(s, key), o))
  {
    hide Scan, Without;
    if i :| 0 <= i < |s| && FiledAt(s[i], key, o) {
      assert UnfiledAt(s, key, o) == Unfiled(s, i, {key});
      ScanUnfiled(s, i, key);
    } else {
      assert UnfiledAt(s, key, o) == s by {
        forall i | 0 <= i < |s| && s[i].offset == o ensures s[i].keys - {key} == s[i].keys {
          assert !FiledAt(s[i], key, o);
        }
      }
      ScanWithout(s, key, o);
      WithoutAbsent(Scan(s, key), o);
    }
  }

  lemma {:induction false} ScanWithout(s: seq<Entry>, key: Key, o: nat)
    requires forall i :: 0 <= i < |s| ==> !FiledAt(s[i], key, o)
    ensures o !in Scan(s, key)
  {
    if s != [] {
      forall i | 0 <= i < |s[1..]| ensures !FiledAt(s[1..][i], key, o) {
        assert !FiledAt(s[i + 1], key, o);
      }
      ScanWithout(s[1..], key, o);
      assert !FiledAt(s[0], key, o);
    }
  }

  lemma {:induction false} LeftIsWithout(s: seq<Entry>, key: Key, offset: nat)
    ensures Left(Scan(s, key), offset) == Without(Scan(s, key), Victim(s, key, offset))
  {
  }

  ghost predicate InUseAlone(s: seq<Entry>, kind: Kind, key: Key)
  {
    SoleKey(s, kind, key) && Scan(s, key) != []
  }

  /** The key from which a clause is taken: the key itself, or the only one in use where there is no switch. */
  ghost function LedTo(code: seq<Line>, s: seq<Entry>, key: Key): Key
    requires Rooted(code)
  {
    if !key.ListKey? && !IsTable(code, KindOf(key)) && exists k :: InUseAlone(s, KindOf(key), k) then
      var k :| InUseAlone(s, KindOf(key), k);
      k
    else key
  }

  lemma {:induction false} LookupLed(code: seq<Line>, s: seq<Entry>, key: Key)
    requires Rooted(code) && Represents(code, s)
    ensures Lookup(code, LeafFor(code, key)) == Scan(s, LedTo(code, s, key))
    ensures key.ListKey? || IsTable(code, KindOf(key)) ==> LedTo(code, s, key) == key
    ensures !key.ListKey? && !IsTable(code, KindOf(key)) ==> SoleKey(s, KindOf(key), LedTo(code, s, key))
  {
    hide Lookup, Scan;
    if !key.ListKey? {
      var kind := KindOf(key);
      assert OfKind(key, kind);
      assert KindRepresents(code, s, kind);
      if !IsTable(code, kind) {
        var sole :| SoleKey(s, kind, sole) && Lookup(code, WholeLeaf(kind)) == Scan(s, sole);
        if Scan(s, sole) != [] {
          assert InUseAlone(s, kind, sole);
        }
      }
    }
  }

  /** Removing from the leaf that a key leads to takes a clause from the key that leaf stands for. */
  lemma {:induction false} LeafRemoved(code: seq<Line>, code': seq<Line>, s: seq<Entry>, key: Key, offset: nat)
    requires Rooted(code) && Represents(code, s) && DistinctOffsets(s)
    requires LeafBecomes(code, code', LeafFor(code, key), Left(Lookup(code, LeafFor(code, key)), offset))
    ensures Represents(code', TakenOut(s, LedTo(code, s, key), offset))
  {
    hide Scan, Without, LeafBecomes, Represents, LedTo, DistinctOffsets;
    LookupLed(code, s, key);
    var led := LedTo(code, s, key);
    ScanUnfiledAt(s, led, Victim(s, led, offset));
    LeftIsWithout(s, led, offset);
    var offs := Left(Scan(s, led), offset);
    if LeafFor(code, key).WholeLeaf? {
      SlotEdit(code, code', s, TakenOut(s, led, offset), KindOf(key), led, offs);
    } else {
      KeyEdit(code, code', s, TakenOut(s, led, offset), key, offs);
    }
  }

  /** Only the clause with this offset is filed differently. */
  predicate OnlyIt(s: seq<Entry>, t: seq<Entry>, offset: nat)
  {
    |t| == |s| && forall i :: 0 <= i < |s| && s[i].offset != offset ==> t[i] == s[i]
  }

  /** Another clause is alone under the key. */
  predicate OtherAlone(s: seq<Entry>, key: Key, offset: nat)
  {
    |Scan(s, key)| == 1 && Scan(s, key)[0] != offset
  }

  /** Only the clause itself is touched, unless another one is alone where the key leads. */
  lemma {:induction false} TouchesOnlyIt(s: seq<Entry>, key: Key, offset: nat)
    requires DistinctOffsets(s)
    ensures OnlyIt(s, TakenOut(s, key, offset), offset) <==> !OtherAlone(s, key, offset)
  {
    if OtherAlone(s, key, offset) {
      var i := ScanFrom(s, key, Scan(s, key)[0]);
      assert key in s[i].keys && key !in TakenOut(s, key, offset)[i].keys;
    }
  }

  lemma {:induction false} ScanFrom(s: seq<Entry>, key: Key, o: nat) returns (i: nat)
    requires o in Scan(s, key)
    ensures i < |s| && FiledAt(s[i], key, o)
  {
    if FiledAt(s[0], key, o) {
      i := 0;
    } else {
      i := ScanFrom(s[1..], key, o);
      i := i + 1;
    }
  }

  /** Scans of distinct clauses have no repeats. */
  lemma {:induction false} ScanDistinct(s: seq<Entry>, key: Key, o: nat)
    requires DistinctOffsets(s)
    ensures o !in Without(Scan(s, key), o)
  {
    if s != [] {
      ScanDistinct(s[1..], key, o);
      if key in s[0].keys {
        assert Scan(s, key) == [s[0].offset] + Scan(s[1..], key);
        assert Scan(s, key)[1..] == Scan(s[1..], key);
        if s[0].offset == o {
          forall e | e in s[1..] ensures e.offset != o {
            var j :| 0 <= j < |s[1..]| && s[1..][j] == e;
            assert s[j + 1] == e;
          }
          ScanAbsent(s[1..], key, o);
        }
      } else {
        assert Scan(s, key) == Scan(s[1..], key);
      }
    }
  }

  // ----- the removal procedures -----

  /** A choice list from which `offset` is gone. */
  predicate Stale(code: seq<Line>, index: nat, offset: nat, dynamic: bool)
  {
    && index < |code| && offset !in LineOffsets(code[index])
    && (GoodChoiceLine(code[index], dynamic) || code[index] == IndexedChoice([]) ||
        code[index] == DynamicIndexedChoice([]))
  }

  /** Take `offset` out of the choice list at `index`; if one clause is left, point `leaf` at it. */
  method ShrinkList(code: seq<Line>, index: nat, leaf: Leaf, offset: nat, ghost dynamic: bool)
    returns (code': seq<Line>)
    requires WellFormed(code, dynamic) && Live(code, leaf) && index < |code|
    requires Stale(code, index, offset, dynamic) ||
             (Target(code, leaf) == index && offset !in Without(Lookup(code, leaf), offset))
    ensures Stale(code, index, offset, dynamic) ==> code' == code
    ensures !Stale(code, index, offset, dynamic) ==>
              && WellFormed(code', dynamic)
              && LeafBecomes(code, code', leaf, Without(Lookup(code, leaf), offset))
    ensures Stale(code', index, offset, dynamic)
    ensures SameFirst(code, code') && forall kind :: IsTable(code, kind) ==> Slot(code', kind) == Slot(code, kind)
  {
    assert LeafOk(code, leaf, dynamic);
    var line := RemoveInstructionWithOffset(code[index], offset, dynamic);
    if Stale(code, index, offset, dynamic) {
      WithoutAbsent(LineOffsets(code[index]), offset);
    } else {
      ShrunkLeaf(code, leaf, line, dynamic);
      ShrunkCursor(code, leaf, line, dynamic);
    }
    if |LineOffsets(line)| == 1 {
      code' := Collapse(code, index, leaf, line, dynamic);
    } else {
      code' := code[index := line];
    }
  }

  /** Empty the list at `index` and point its leaf at the clause that was left. */
  method Collapse(code: seq<Line>, index: nat, leaf: Leaf, line: Line, ghost dynamic: bool) returns (code': seq<Line>)
    requires Rooted(code) && Live(code, leaf) && 0 < Target(code, leaf) == index < |code|
    requires IsChoiceLine(code[index]) && |LineOffsets(line)| == 1 && line.DynamicIndexedChoice? == dynamic
    ensures code' == Shrunk(code, leaf, line, dynamic)
  {
    var o := LineOffsets(line)[0];
    var ext := if line.DynamicIndexedChoice? then DynamicExternal(o) else External(o);
    code' := code[index := Emptied(line)];
    match leaf {
      case ListLeaf => code' := code'[0 := code'[0].(l := ext)];
      case WholeLeaf(kind) => code' := code'[0 := WithSlot(code'[0], kind, ext)];
      case KeyLeaf(key) =>
        var at := Slot(code, KindOf(key)).o;
        code' := code'[at := code'[at].(table := code'[at].table[key := ext])];
    }
  }

  lemma {:induction false} ShrunkCursor(code: seq<Line>, leaf: Leaf, line: Line, dynamic: bool)
    requires Rooted(code) && Live(code, leaf) && 0 < Target(code, leaf) < |code|
            && IsChoiceLine(code[Target(code, leaf)])
    ensures var code' := Shrunk(code, leaf, line, dynamic);
            && SameFirst(code, code') && |code'| == |code|
            && code'[Target(code, leaf)] == (if |LineOffsets(line)| == 1 then Emptied(line) else line)
            && forall kind :: IsTable(code, kind) ==> Slot(code', kind) == Slot(code, kind)
  {
  }

  /** A pointer that leads to one clause or none is cleared. */
  lemma {:induction false} DirectRemoved(code: seq<Line>, leaf: Leaf, offset: nat, dynamic: bool)
    requires WellFormed(code, dynamic) && Live(code, leaf) && !Ptr(code, leaf).Internal?
    ensures Left(Lookup(code, leaf), offset) == []
    ensures !Ptr(code, leaf).Fail? ==>
              var code' := SetPtr(code, leaf, Fail);
              WellFormed(code', dynamic) && LeafBecomes(code, code', leaf, [])
    ensures Ptr(code, leaf).Fail? ==> LeafBecomes(code, code, leaf, [])
  {
    PointerForm(code, leaf, dynamic);
    if !Ptr(code, leaf).Fail? {
      ClearLeaf(code, leaf, dynamic);
    }
  }

  /** What is found under a list of choices is left without the clause. */
  lemma {:induction false} ListLeft(code: seq<Line>, s: seq<Entry>, key: Key, offset: nat, dynamic: bool)
    requires WellFormed(code, dynamic) && Represents(code, s) && DistinctOffsets(s)
    ensures var found := Lookup(code, LeafFor(code, key)); offset !in Without(found, offset)
  {
    hide WellFormed, Represents, DistinctOffsets, Lookup, LedTo;
    LeafFine(code, ListLeaf, dynamic);
    LookupLed(code, s, key);
    ScanDistinct(s, LedTo(code, s, key), offset);
  }

  method RemoveListIndex(code: seq<Line>, offset: nat, ghost s: seq<Entry>, ghost dynamic: bool)
    returns (code': seq<Line>)
    requires WellFormed(code, dynamic) && Represents(code, s) && DistinctOffsets(s)
    ensures WellFormed(code', dynamic) && Represents(code', TakenOut(s, ListKey, offset))
    ensures ClosesOnly(code, code')
  {
    hide Represents, DistinctOffsets, TakenOut, Without;
    LeafFine(code, ListLeaf, dynamic);
    ListLeft(code, s, ListKey, offset, dynamic);
    LookupLed(code, s, ListKey);
    PointerForm(code, ListLeaf, dynamic);
    match code[0].l {
      case Internal(o) =>
        code' := ShrinkList(code, o, ListLeaf, offset, dynamic);
        ShrunkOrSame(code, code', ListLeaf, o, offset, dynamic);
      case Fail =>
        DirectRemoved(code, ListLeaf, offset, dynamic);
        code' := code;
      case External(_) =>
        DirectRemoved(code, ListLeaf, offset, dynamic);
        code' := code[0 := code[0].(l := Fail)];
      case DynamicExternal(_) =>
        DirectRemoved(code, ListLeaf, offset, dynamic);
        code' := code[0 := code[0].(l := Fail)];
    }
    LeafRemoved(code, code', s, ListKey, offset);
  }

  /** A list from which nothing had to be taken is as it should be. */
  lemma {:induction false} ShrunkOrSame(code: seq<Line>, code': seq<Line>, leaf: Leaf, index: nat, offset: nat,
                                        dynamic: bool)
    requires WellFormed(code, dynamic) && Target(code, leaf) == index
    requires if Stale(code, index, offset, dynamic) then code' == code
             else WellFormed(code', dynamic) && LeafBecomes(code, code', leaf, Without(Lookup(code, leaf), offset))
    ensures WellFormed(code', dynamic) && LeafBecomes(code, code', leaf, Left(Lookup(code, leaf), offset))
  {
    PointerForm(code, leaf, dynamic);
    if Stale(code, index, offset, dynamic) {
      WithoutAbsent(Lookup(code, leaf), offset);
    }
  }

  /** The search for one key below the first line, from wherever the cursor stands. For a structure without an entry
      it ends at once. */
  method RemoveBelow(code: seq<Line>, index: nat, tableIndex: nat, kind: Kind, key: Key, offset: nat,
                     ghost dynamic: bool)
    returns (code': seq<Line>, index': nat, tableIndex': nat)
    requires WellFormed(code, dynamic) && OfKind(key, kind)
    requires if IsTable(code, kind) then Stale(code, index, offset, dynamic) ==> tableIndex != 0 else tableIndex == 0
    requires Stale(code, index, offset, dynamic) ||
             (Slot(code, kind) == Internal(index) && offset !in Without(Lookup(code, LeafFor(code, key)), offset))
    ensures SameFirst(code, code')
    ensures Stale(code, index, offset, dynamic) ==> code' == code && index' == index && tableIndex' == tableIndex
    ensures !Stale(code, index, offset, dynamic) ==>
              && WellFormed(code', dynamic)
              && LeafBecomes(code, code', LeafFor(code, key), Left(Lookup(code, LeafFor(code, key)), offset))
              && (IsTable(code, kind) && kind.Constants? ==>
                  tableIndex' == index && Slot(code', kind) == Internal(index))
              && (!IsTable(code, kind) ==> tableIndex' == 0)
              && (tableIndex' == 0 || (tableIndex' == index && Slot(code', kind) == Internal(index)))
              && (if LeafFor(code, key) == KeyLeaf(key) && !Ptr(code, KeyLeaf(key)).Internal? then index' == index
                  else Stale(code', index', offset, dynamic))
  {
    hide WellFormed, LeafBecomes, Without;
    LeafFine(code, WholeLeaf(kind), dynamic);
    ghost var leaf := LeafFor(code, key);
    LeafFine(code, leaf, dynamic);
    code', index', tableIndex' := code, index, tableIndex;
    if code[index].SwitchOn? {
      tableIndex' := index;
      var table := code[index].table;
      var ptr := if key in table then table[key] else Fail;
      if !ptr.Internal? {
        DirectRemoved(code, leaf, offset, dynamic);
        DroppedLeaf(code, key, dynamic);
        DroppedTree(code, key, leaf);
        if kind.Structures? && ptr.Fail? {
          tableIndex' := 0;
        } else {
          code' := code[index := SwitchOn(kind, table - {key})];
        }
        return;
      }
      index' := index + ptr.o;
    }
    ghost var stale := Stale(code, index, offset, dynamic);
    code' := ShrinkList(code, index', if tableIndex' == 0 then WholeLeaf(kind) else KeyLeaf(key), offset, dynamic);
    if !stale {
      ShrunkOrSame(code, code', leaf, index', offset, dynamic);
    }
  }

  /** The kind of a pointer tells how many clauses it leads to. */
  lemma {:induction false} PointerForm(code: seq<Line>, leaf: Leaf, dynamic: bool)
    requires WellFormed(code, dynamic)
    ensures Ptr(code, leaf).Internal? <==> |Lookup(code, leaf)| > 1
    ensures Ptr(code, leaf).Fail? <==> |Lookup(code, leaf)| == 0
  {
    hide WellFormed;
    LeafFine(code, leaf, dynamic);
  }

  /** Where there was a switch there still is one, or nothing is left; and the first line looks at the same argument. */
  predicate ClosesOnly(code: seq<Line>, code': seq<Line>)
    requires Rooted(code)
  {
    SameFirst(code, code') && forall kind :: IsTable(code, kind) ==> IsTable(code', kind) || Slot(code', kind).Fail?
  }

  /** A switch that has become empty is closed. */
  method CloseIfEmpty(code: seq<Line>, tableIndex: nat, kind: Kind, ghost s: seq<Entry>, ghost dynamic: bool)
    returns (code': seq<Line>)
    requires WellFormed(code, dynamic) && Represents(code, s)
    requires tableIndex == 0 || Slot(code, kind) == Internal(tableIndex)
    requires tableIndex < |code|
    ensures WellFormed(code', dynamic) && Represents(code', s) && ClosesOnly(code, code')
  {
    if code[tableIndex].SwitchOn? && code[tableIndex].kind == kind && code[tableIndex].table == map[] {
      assert LeafOk(code, WholeLeaf(kind), dynamic);
      CloseEmpty(code, s, kind, dynamic);
      code' := code[0 := WithSlot(code[0], kind, Fail)];
    } else {
      code' := code;
    }
  }

  method RemoveStructureIndex(code: seq<Line>, name: string, arity: nat, offset: nat, ghost s: seq<Entry>,
                              ghost dynamic: bool)
    returns (code': seq<Line>)
    requires WellFormed(code, dynamic) && Represents(code, s) && DistinctOffsets(s)
    ensures WellFormed(code', dynamic)
    ensures Represents(code', TakenOut(s, LedTo(code, s, StrKey(name, arity)), offset))
    ensures ClosesOnly(code, code')
  {
    code' := RemoveFirstKey(code, Structures, StrKey(name, arity), offset, s, dynamic);
  }

  /** Removal of a clause that is looked up under one key of its kind. */
  method RemoveFirstKey(code: seq<Line>, kind: Kind, key: Key, offset: nat, ghost s: seq<Entry>, ghost dynamic: bool)
    returns (code': seq<Line>)
    requires WellFormed(code, dynamic) && Represents(code, s) && DistinctOffsets(s) && OfKind(key, kind)
    ensures WellFormed(code', dynamic)
    ensures Represents(code', TakenOut(s, LedTo(code, s, key), offset))
    ensures ClosesOnly(code, code')
  {
    hide Represents, DistinctOffsets, TakenOut, Without, LedTo, Lookup;
    LeafFine(code, WholeLeaf(kind), dynamic);
    ListLeft(code, s, key, offset, dynamic);
    var slot := Slot(code, kind);
    if slot.Internal? {
      var index, tableIndex;
      ghost var stale := Stale(code, slot.o, offset, dynamic);
      code', index, tableIndex := RemoveBelow(code, slot.o, 0, kind, key, offset, dynamic);
      if stale {
        ShrunkOrSame(code, code', WholeLeaf(kind), slot.o, offset, dynamic);
      }
      LeafRemoved(code, code', s, key, offset);
      code' := CloseIfEmpty(code', tableIndex, kind, TakenOut(s, LedTo(code, s, key), offset), dynamic);
    } else {
      DirectRemoved(code, WholeLeaf(kind), offset, dynamic);
      code' := if slot.Fail? then code else code[0 := WithSlot(code[0], kind, Fail)];
      LeafRemoved(code, code', s, key, offset);
    }
  }

  /** What remove_constant_indices leaves: the second key is looked up only where the first one led straight to a
      clause or nowhere, because the cursor is not rewound after it has followed the first key into a choice list. */
  ghost function WithoutConstant(code: seq<Line>, s: seq<Entry>, first: Key, second: Key, offset: nat): seq<Entry>
    requires Rooted(code)
  {
    var rest := TakenOut(s, LedTo(code, s, first), offset);
    if IsTable(code, Constants) && |Scan(s, first)| <= 1 then TakenOut(rest, second, offset) else rest
  }

  /** For a constant with two keys, the same holds of each key that is looked up. */
  lemma {:induction false} ConstantTouchesOnlyIt(code: seq<Line>, s: seq<Entry>, first: Key, second: Key, offset: nat)
    requires Rooted(code) && Represents(code, s) && DistinctOffsets(s) && first.LitKey? && second.LitKey?
            && first != second
    ensures OnlyIt(s, WithoutConstant(code, s, first, second, offset), offset) <==>
            && !OtherAlone(s, LedTo(code, s, first), offset)
            && (IsTable(code, Constants) && |Scan(s, first)| <= 1 ==> !OtherAlone(s, second, offset))
  {
    hide Scan, LedTo, Represents;
    LookupLed(code, s, first);
    var led := LedTo(code, s, first);
    var rest := TakenOut(s, led, offset);
    TouchesOnlyIt(s, led, offset);
    if IsTable(code, Constants) && |Scan(s, first)| <= 1 {
      StillDistinct(s, led, Victim(s, led, offset));
      ScanUnfiledAt(s, led, Victim(s, led, offset));
      TouchesOnlyIt(rest, second, offset);
      BothTouch(s, led, second, offset);
    }
  }

  /** What the first key takes from another clause, the second does not give back. */
  lemma {:induction false} BothTouch(s: seq<Entry>, first: Key, second: Key, offset: nat)
    ensures var rest := TakenOut(s, first, offset);
            var end := TakenOut(rest, second, offset);
            OnlyIt(s, end, offset) <==> OnlyIt(s, rest, offset) && OnlyIt(rest, end, offset)
  {
    hide Scan;
    var rest := TakenOut(s, first, offset);
    var end := TakenOut(rest, second, offset);
    forall i | 0 <= i < |s| ensures end[i].keys <= rest[i].keys <= s[i].keys
        && end[i].offset == rest[i].offset == s[i].offset {
    }
  }

  lemma {:induction false} StillDistinct(s: seq<Entry>, key: Key, o: nat)
    requires DistinctOffsets(s)
    ensures DistinctOffsets(UnfiledAt(s, key, o))
  {
  }

  method RemoveConstantIndices(code: seq<Line>, lit: Literal, other: Literal, offset: nat, ghost s: seq<Entry>,
                               ghost dynamic: bool)
    returns (code': seq<Line>)
    requires WellFormed(code, dynamic) && Represents(code, s) && DistinctOffsets(s)
    ensures WellFormed(code', dynamic)
    ensures Represents(code', WithoutConstant(code, s, LitKey(lit), LitKey(other), offset))
    ensures ClosesOnly(code, code')
  {
    hide Represents, Scan, Lookup, Without, DistinctOffsets, LedTo, UnfiledAt;
    var first, second := LitKey(lit), LitKey(other);
    LeafFine(code, WholeLeaf(Constants), dynamic);
    LookupLed(code, s, first);
    var slot := Slot(code, Constants);
    if !slot.Internal? {
      code' := RemoveFirstKey(code, Constants, first, offset, s, dynamic);
      return;
    }
    ListLeft(code, s, first, offset, dynamic);
    PointerForm(code, LeafFor(code, first), dynamic);
    var index, tableIndex;
    ghost var stale := Stale(code, slot.o, offset, dynamic);
    code', index, tableIndex := RemoveBelow(code, slot.o, 0, Constants, first, offset, dynamic);
    if stale {
      ShrunkOrSame(code, code', WholeLeaf(Constants), slot.o, offset, dynamic);
    }
    LeafRemoved(code, code', s, first, offset);
    ghost var rest := TakenOut(s, LedTo(code, s, first), offset);
    ghost var code1 := code';
    StillDistinct(s, LedTo(code, s, first), Victim(s, LedTo(code, s, first), offset));
    LookupLed(code1, rest, second);
    ListLeft(code1, rest, second, offset, dynamic);
    code', index, tableIndex := RemoveBelow(code', index, tableIndex, Constants, second, offset, dynamic);
    if IsTable(code, Constants) && |Scan(s, first)| <= 1 {
      LeafRemoved(code1, code', rest, second, offset);
    }
    code' := CloseIfEmpty(code', tableIndex, Constants, WithoutConstant(code, s, first, second, offset), dynamic);
  }

  /** The clauses that are left when a clause is removed by its key. */
  ghost function Removed(code: seq<Line>, s: seq<Entry>, key: OptArgIndexKey, offset: nat): seq<Entry>
    requires Rooted(code) && !key.NoArg?
  {
    if key.LiteralArg? && key.alternative.Some?
        then WithoutConstant(code, s, LitKey(key.lit), LitKey(key.alternative.value), offset)
    else TakenOut(s, LedTo(code, s, MainKey(key)), offset)
  }

  /** Where a clause filed under its own keys is looked up with success. */
  function ReachedKeys(s: seq<Entry>, key: OptArgIndexKey): set<Key>
  {
    if key.LiteralArg? && key.alternative.Some? && |Scan(s, LitKey(key.lit))| > 1 then {LitKey(key.lit)}
    else FiledKeys(key)
  }

  /** Taking a clause out where it is filed unfiles it and touches nothing else. */
  lemma {:induction false} TakenOwn(code: seq<Line>, s: seq<Entry>, i: nat, key: Key)
    requires Rooted(code) && Represents(code, s) && DistinctOffsets(s) && i < |s| && key in s[i].keys
    ensures LedTo(code, s, key) == key && TakenOut(s, key, s[i].offset) == Unfiled(s, i, {key})
  {
    hide Scan, Lookup, LedTo;
    LookupLed(code, s, key);
    ScanUnfiled(s, i, key);
    assert Scan(s, key) != [];
    if |Scan(s, key)| == 1 {
      assert Scan(s, key)[0] == s[i].offset;
    }
  }

  /** A clause filed under its own keys is unfiled from those that the search reaches. */
  lemma {:induction false} RemovedOwn(code: seq<Line>, s: seq<Entry>, i: nat, key: OptArgIndexKey, offset: nat)
    requires Rooted(code) && Represents(code, s) && DistinctOffsets(s) && i < |s| && !key.NoArg?
    requires s[i] == Entry(FiledKeys(key), offset)
            && (key.LiteralArg? ==> key.alternative == ConstantKeyAlternative(key.lit))
    ensures Removed(code, s, key, offset) == Unfiled(s, i, ReachedKeys(s, key))
  {
    hide Scan, Represents, TakenOut, LedTo, DistinctOffsets;
    TakenOwn(code, s, i, MainKey(key));
    if key.LiteralArg? && key.alternative.Some? {
      ConstantOwn(code, s, i, LitKey(key.lit), LitKey(key.alternative.value), offset);
    }
  }

  lemma {:induction false} ConstantOwn(code: seq<Line>, s: seq<Entry>, i: nat, first: Key, second: Key, offset: nat)
    requires Rooted(code) && Represents(code, s) && DistinctOffsets(s) && i < |s| && first != second && first.LitKey?
            && second.LitKey?
    requires s[i] == Entry({first, second}, offset)
    ensures WithoutConstant(code, s, first, second, offset)
            == Unfiled(s, i, if |Scan(s, first)| > 1 then {first} else {first, second})
  {
    hide Scan, TakenOut, LedTo;
    TakenOwn(code, s, i, first);
    LookupLed(code, s, first);
    ScanUnfiled(s, i, first);
    ScanUnfiled(s, i, second);
    assert IsTable(code, Constants);
    var rest := Unfiled(s, i, {first});
    if |Scan(s, first)| <= 1 {
      TakenAgain(rest, i, second);
      assert {first, second} - {first} - {second} == {first, second} - {first, second};
    }
  }

  lemma {:induction false} TakenAgain(s: seq<Entry>, i: nat, key: Key)
    requires DistinctOffsets(s) && i < |s| && key in s[i].keys
    ensures TakenOut(s, key, s[i].offset) == Unfiled(s, i, {key})
  {
    hide Scan;
    ScanUnfiled(s, i, key);
    if |Scan(s, key)| == 1 {
      assert Scan(s, key)[0] == s[i].offset;
    }
  }

  /** Removing a clause takes out what is found where its keys lead. A clause that is filed under its own keys is
      unfiled from those the search reaches, and no other is touched. */
  method RemoveIndex(code: seq<Line>, key: OptArgIndexKey, offset: nat, ghost s: seq<Entry>, ghost dynamic: bool)
    returns (code': seq<Line>)
    requires WellFormed(code, dynamic) && Represents(code, s) && DistinctOffsets(s)
    requires !key.NoArg? && (key.LiteralArg? ==> key.alternative == ConstantKeyAlternative(key.lit))
    ensures WellFormed(code', dynamic)
    ensures Represents(code', Removed(code, s, key, offset))
    ensures ClosesOnly(code, code')
    ensures forall i :: 0 <= i < |s| && s[i] == Entry(FiledKeys(key), offset) ==>
              && Represents(code', Unfiled(s, i, ReachedKeys(s, key)))
              && (Represents(code', s[..i] + s[i + 1..]) <==> ReachedKeys(s, key) == FiledKeys(key))
  {
    hide Represents, DistinctOffsets, TakenOut, WithoutConstant, LedTo, ReachedKeys, FiledKeys,
        ConstantKeyAlternative, Unfiled;
    match key {
      case LiteralArg(_, _, lit, Some(other)) =>
        code' := RemoveConstantIndices(code, lit, other, offset, s, dynamic);
      case LiteralArg(_, _, lit, None) =>
        code' := RemoveFirstKey(code, Constants, LitKey(lit), offset, s, dynamic);
      case StructureArg(_, _, name, arity) =>
        code' := RemoveStructureIndex(code, name, arity, offset, s, dynamic);
      case ListArg(_, _) =>
        LookupLed(code, s, ListKey);
        code' := RemoveListIndex(code, offset, s, dynamic);
    }
    LeafFine(code', ListLeaf, dynamic);
    forall i | 0 <= i < |s| && s[i] == Entry(FiledKeys(key), offset)
      ensures Represents(code', Unfiled(s, i, ReachedKeys(s, key)))
      ensures Represents(code', s[..i] + s[i + 1..]) <==> ReachedKeys(s, key) == FiledKeys(key)
    {
      RemovedOwn(code, s, i, key, offset);
      RemovalExact(code', s, i, key);
    }
  }

  /** The clause is gone from the block exactly when every key it was filed under was reached. */
  lemma {:induction false} RemovalExact(code: seq<Line>, s: seq<Entry>, i: nat, key: OptArgIndexKey)
    requires DistinctOffsets(s) && i < |s| && s[i].keys == FiledKeys(key)
    requires key.LiteralArg? ==> key.alternative == ConstantKeyAlternative(key.lit)
    requires Rooted(code) && Represents(code, Unfiled(s, i, ReachedKeys(s, key)))
    ensures Represents(code, s[..i] + s[i + 1..]) <==> ReachedKeys(s, key) == FiledKeys(key)
  {
    hide Represents, Scan, DistinctOffsets, Unfiled;
    if ReachedKeys(s, key) == FiledKeys(key) {
      AllReached(code, s, i, key);
    } else {
      OneMissed(code, s, i, key);
    }
  }

  lemma {:induction false} AllReached(code: seq<Line>, s: seq<Entry>, i: nat, key: OptArgIndexKey)
    requires i < |s| && s[i].keys == FiledKeys(key)
    requires Rooted(code) && Represents(code, Unfiled(s, i, FiledKeys(key)))
    ensures Represents(code, s[..i] + s[i + 1..])
  {
    hide Represents, Scan, FiledKeys;
    var t := Unfiled(s, i, FiledKeys(key));
    var gone := s[..i] + s[i + 1..];
    assert gone == t[..i] + t[i + 1..];
    forall k ensures Scan(gone, k) == Scan(t, k) {
      ScanSkips(t, i, k);
    }
    SameScansRepresent(code, t, gone);
  }

  /** A key that was missed still leads to the clause. */
  lemma {:induction false} OneMissed(code: seq<Line>, s: seq<Entry>, i: nat, key: OptArgIndexKey)
    requires DistinctOffsets(s) && i < |s| && s[i].keys == FiledKeys(key)
    requires key.LiteralArg? ==> key.alternative == ConstantKeyAlternative(key.lit)
    requires Rooted(code) && Represents(code, Unfiled(s, i, ReachedKeys(s, key)))
            && ReachedKeys(s, key) != FiledKeys(key)
    ensures !Represents(code, s[..i] + s[i + 1..])
  {
    hide Represents, Scan;
    var t := Unfiled(s, i, ReachedKeys(s, key));
    var gone := s[..i] + s[i + 1..];
    var own, missed := LitKey(key.lit), LitKey(key.alternative.value);
    assert missed in t[i].keys && t[i].offset == s[i].offset;
    ScanUnfiled(t, i, missed);
    forall e | e in gone ensures e.offset != s[i].offset {
      var j :| 0 <= j < |gone| && gone[j] == e;
      assert e == s[if j < i then j else j + 1];
    }
    ScanAbsent(gone, missed, s[i].offset);
    ScanUnfiled(s, i, own);
    WithoutLength(Scan(s, own), s[i].offset);
    TwoKeysInUse(code, t, gone, own, missed);
  }

  /** With two constants in use there is a switch, so a block shows every constant's scan. */
  lemma {:induction false} TwoKeysInUse(code: seq<Line>, t: seq<Entry>, t': seq<Entry>, a: Key, b: Key)
    requires Rooted(code) && Represents(code, t)
    requires a.LitKey? && b.LitKey? && a != b && Scan(t, a) != [] && Scan(t, b) != []
    requires Scan(t', b) != Scan(t, b)
    ensures !Represents(code, t')
  {
    assert KindRepresents(code, t, Constants);
    forall k ensures !SoleKey(t, Constants, k) {
      assert Scan(t, if k == a then b else a) != [];
    }
    assert Lookup(code, KeyLeaf(b)) == Scan(t, b);
  }

  /** A first line that leads nowhere stands for no clauses. */
  lemma {:induction false} EmptyBlock(code: seq<Line>)
    requires |code| == 1 && Rooted(code) && (code[0].v.External? || code[0].v.DynamicExternal?)
    requires code[0].c.Fail? && code[0].l.Fail? && code[0].s.Fail?
    ensures WellFormed(code, code[0].v.DynamicExternal?) && Represents(code, [])
  {
    assert forall leaf :: Ptr(code, leaf) == Fail;
    assert SoleKey([], Constants, LitKey(Fixnum(0)));
    assert SoleKey([], Structures, StrKey("", 0));
  }

  lemma {:induction false} ScanPair(a: Entry, b: Entry, key: Key)
    ensures Scan([a], key) == if key in a.keys then [a.offset] else []
    ensures Scan([a, b], key) == Scan([a], key) + Scan([b], key)
  {
    assert [a][1..] == [] && [b][1..] == [] && [a, b][1..] == [b];
  }

  /** A skeleton with one literal clause can name its key. */
  lemma {:induction false} OneClauseHolds(info: ClauseIndexInfo, e: Entry, kind: Kind)
    requires info.key.LiteralArg? && e.keys == FiledKeys(info.key)
    ensures SkeletonHolds([info, ClauseIndexInfo(13, NoArg)], [], [e], kind, true)
  {
    var infos, none: seq<ClauseIndexInfo> := [info, ClauseIndexInfo(13, NoArg)], [];
    assert HasKeyType((infos + none)[0].key, Constants);
    ScanPair(e, e, MainKey(info.key));
    if UsesKind([e], Structures) {
      var key :| OfKind(key, Structures) && Scan([e], key) != [];
      ScanPair(e, e, key);
    }
    SkeletonOfClauses(infos, none, [e], kind, true);
  }

  /** A block for two clauses with the same big integer. */
  method TwoEqualIntegers(key: OptArgIndexKey) returns (code: seq<Line>)
    requires key == LiteralArg(1, 10, Integer(0, 5), Some(Fixnum(5)))
    ensures WellFormed(code, false)
    ensures Represents(code, [Entry(FiledKeys(key), 2), Entry(FiledKeys(key), 4)])
  {
    hide WellFormed, Represents, SkeletonHolds, MayMerge, Remembered;
    ghost var e := Entry(FiledKeys(key), 2);
    var first, second := ClauseIndexInfo(11, key), ClauseIndexInfo(13, key);
    code := OneInteger(key);
    StaticBlock(code);
    OneClauseHolds(first, e, Constants);
    assert Taken([first, second], true) == [first, second.(key := NoArg)];
    AllRemembered(code, [e], key, [first, second.(key := NoArg)], [], true, false);
    var infos;
    code, infos := MergeClauseIndex(code, [first, second], [], 13, true, [e]);
    assert Added([e], Entry(FiledKeys(key), 4), true) == [e, Entry(FiledKeys(key), 4)];
  }

  method OneInteger(key: OptArgIndexKey) returns (code: seq<Line>)
    requires key == LiteralArg(1, 10, Integer(0, 5), Some(Fixnum(5)))
    ensures Rooted(code) && WellFormed(code, false) && Represents(code, [Entry(FiledKeys(key), 2)])
  {
    hide WellFormed, Represents, SkeletonHolds, MayMerge, Remembered;
    code := [SwitchOnTerm(1, External(1), Fail, Fail, Fail)];
    EmptyBlock(code);
    var first := ClauseIndexInfo(11, key);
    NoneHolds([first.(key := NoArg)], Constants);
    AllRemembered(code, [], key, [first.(key := NoArg)], [], true, false);
    var infos;
    assert Taken([first], true) == [first.(key := NoArg)];
    code, infos := MergeClauseIndex(code, [first], [], 11, true, []);
    assert Added([], Entry(FiledKeys(key), 2), true) == [Entry(FiledKeys(key), 2)];
  }

  lemma {:induction false} StaticBlock(code: seq<Line>)
    requires WellFormed(code, false)
    ensures !code[0].v.DynamicExternal?
  {
  }

  /** Where no clause is filed, there is nothing to name. */
  lemma {:induction false} NoneHolds(infos: seq<ClauseIndexInfo>, kind: Kind)
    ensures SkeletonHolds(infos, [], [], kind, true)
  {
  }

  /** Retracting the first of two clauses with the same big integer leaves it reachable
      through the fixnum of the same value. */
  method RemovalMissesAlternative() returns (code: seq<Line>)
    ensures Rooted(code)
    ensures Represents(code, [Entry({LitKey(Fixnum(5))}, 2), Entry({LitKey(Integer(0, 5)), LitKey(Fixnum(5))}, 4)])
    ensures !Represents(code, [Entry({LitKey(Integer(0, 5)), LitKey(Fixnum(5))}, 4)])
  {
    hide Removed, ClosesOnly, WellFormed, Scan;
    var key := LiteralArg(1, 10, Integer(0, 5), Some(Fixnum(5)));
    code := TwoEqualIntegers(key);
    ghost var s := [Entry(FiledKeys(key), 2), Entry(FiledKeys(key), 4)];
    ScanPair(s[0], s[1], LitKey(Integer(0, 5)));
    ScanPair(s[1], s[1], LitKey(Integer(0, 5)));
    code := RemoveIndex(code, key, 2, s, false);
    LeafFine(code, ListLeaf, false);
    assert FiledKeys(key) == {LitKey(Integer(0, 5)), LitKey(Fixnum(5))};
    assert FiledKeys(key) - {LitKey(Integer(0, 5))} == {LitKey(Fixnum(5))};
    assert Unfiled(s, 0, {LitKey(Integer(0, 5))}) == [Entry({LitKey(Fixnum(5))}, 2), s[1]];
    assert s[..0] + s[1..] == [s[1]];
  }

  lemma {:induction false} WithoutLength(s: seq<nat>, x: nat)
    ensures |Without(s, x)| >= |s| - 1
  {
    if s != [] { WithoutLength(s[1..], x); }
  }

  /** Removing clause 4, which is not in the block, by its key: clause 2, alone where the key leads, is dropped
      instead. */
  method RemovalTakesAnother() returns (code: seq<Line>)
    ensures Rooted(code) && Represents(code, [Entry({}, 2)])
  {
    hide Represents, Scan, LedTo, DistinctOffsets;
    code := [SwitchOnTerm(1, External(1), External(2), Fail, Fail)];
    ghost var key, s := LitKey(Fixnum(1)), [Entry({LitKey(Fixnum(1))}, 2)];
    SingleClause(code, s);
    code := RemoveIndex(code, LiteralArg(1, 10, Fixnum(7), None), 4, s, false);
    assert UnfiledAt(s, key, 2) == [Entry({}, 2)] by {
      assert s[0].keys - {key} == {};
    }
  }

  lemma {:induction false} SingleClause(code: seq<Line>, s: seq<Entry>)
    requires code == [SwitchOnTerm(1, External(1), External(2), Fail, Fail)] && s == [Entry({LitKey(Fixnum(1))}, 2)]
    ensures WellFormed(code, false) && Represents(code, s) && DistinctOffsets(s)
    ensures LedTo(code, s, LitKey(Fixnum(7))) == LitKey(Fixnum(1)) && Scan(s, LitKey(Fixnum(1))) == [2]
  {
    hide Scan;
    var key := LitKey(Fixnum(1));
    forall k ensures Scan(s, k) == if k == key then [2] else [] {
      ScanPair(s[0], s[0], k);
    }
    assert forall leaf :: Ptr(code, leaf) == if leaf == WholeLeaf(Constants) then External(2) else Fail;
    assert SoleKey(s, Constants, key) && SoleKey(s, Structures, StrKey("", 0));
    assert InUseAlone(s, Constants, key);
  }
}
