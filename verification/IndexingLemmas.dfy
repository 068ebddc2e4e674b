/**
 How the elementary edits of an indexing block change what its leaves lead to.
 */
module IndexingLemmas {
  import opened IndexingLines
  import opened Options

  /** Put a clause at the end or at the front. */
  function Added<T>(s: seq<T>, x: T, append: bool): seq<T>
  {
    if append then s + [x] else [x] + s
  }

  // ----- scans -----

  lemma {:induction false} ScanConcat(s: seq<Entry>, t: seq<Entry>, key: Key)
    ensures Scan(s + t, key) == Scan(s, key) + Scan(t, key)
  {
    if s == [] {
      assert s + t == t;
    } else {
      var here := if key in s[0].keys then [s[0].offset] else [];
      assert (s + t)[1..] == s[1..] + t && (s + t)[0] == s[0];
      ScanConcat(s[1..], t, key);
      assert here + (Scan(s[1..], key) + Scan(t, key)) == (here + Scan(s[1..], key)) + Scan(t, key);
    }
  }

  lemma {:induction false} ScanAdded(s: seq<Entry>, e: Entry, key: Key, append: bool)
    ensures Scan(Added(s, e, append), key) ==
            if key in e.keys then Added(Scan(s, key), e.offset, append) else Scan(s, key)
  {
    assert Scan([e], key) == if key in e.keys then [e.offset] else [] by {
      assert [e][1..] == [];
    }
    if append {
      ScanConcat(s, [e], key);
    } else {
      ScanConcat([e], s, key);
    }
  }

  // ----- edits of one leaf -----

  /** Only `leaf` changed, and it now leads to `offs`. */
  ghost predicate LeafBecomes(code: seq<Line>, code': seq<Line>, leaf: Leaf, offs: seq<nat>)
  {
    && Rooted(code) && Rooted(code')
    && (forall kind :: IsTable(code', kind) == IsTable(code, kind))
    && (forall b :: b != leaf ==> Lookup(code', b) == Lookup(code, b))
    && Lookup(code', leaf) == offs
  }

  lemma {:induction false} LeafFine(code: seq<Line>, leaf: Leaf, dynamic: bool)
    requires WellFormed(code, dynamic)
    ensures Rooted(code) && LeafOk(code, leaf, dynamic)
  {
  }

  /** The leaf exists in its own right. */
  predicate Live(code: seq<Line>, leaf: Leaf)
    requires Rooted(code)
  {
    match leaf
    case ListLeaf => true
    case WholeLeaf(kind) => !IsTable(code, kind)
    case KeyLeaf(key) => IsTable(code, KindOf(key))
  }

  /** Redirect a leaf. */
  function SetPtr(code: seq<Line>, leaf: Leaf, p: CodePtr): (code': seq<Line>)
    requires Rooted(code) && Live(code, leaf)
    ensures |code'| == |code|
  {
    match leaf
    case ListLeaf => code[0 := code[0].(l := p)]
    case WholeLeaf(kind) => code[0 := WithSlot(code[0], kind, p)]
    case KeyLeaf(key) =>
      var at := Slot(code, KindOf(key)).o;
      code[at := code[at].(table := code[at].table[key := p])]
  }

  /** Two blocks whose pointers agree except at one leaf. */
  ghost predicate SameTree(code: seq<Line>, code': seq<Line>, leaf: Leaf)
  {
    && Rooted(code) && Rooted(code')
    && code'[0].v == code[0].v
    && (forall kind :: IsTable(code', kind) == IsTable(code, kind))
    && (forall b :: Base(code', b) == Base(code, b))
    && (forall b :: b != leaf ==> Ptr(code', b) == Ptr(code, b))
  }

  lemma {:induction false} SetPtrTables(code: seq<Line>, leaf: Leaf, p: CodePtr, kind: Kind)
    requires Rooted(code) && Live(code, leaf)
    requires leaf.WholeLeaf? && p.Internal? && p.o < |code| ==> !code[p.o].SwitchOn?
    ensures var code' := SetPtr(code, leaf, p);
            && Rooted(code') && IsTable(code', kind) == IsTable(code, kind)
            && (IsTable(code, kind) ==> Slot(code', kind) == Slot(code, kind))
  {
    match leaf
    case ListLeaf =>
    case WholeLeaf(k) =>
    case KeyLeaf(key) =>
  }

  lemma {:induction false} SetPtrTree(code: seq<Line>, leaf: Leaf, p: CodePtr)
    requires Rooted(code) && Live(code, leaf)
    requires leaf.WholeLeaf? && p.Internal? && p.o < |code| ==> !code[p.o].SwitchOn?
    ensures var code' := SetPtr(code, leaf, p);
            && SameTree(code, code', leaf)
            && Ptr(code', leaf) == p
            && (forall i :: 0 <= i < |code| && IsChoiceLine(code[i]) ==> code'[i] == code[i])
  {
    var code' := SetPtr(code, leaf, p);
    forall kind ensures IsTable(code', kind) == IsTable(code, kind) {
      SetPtrTables(code, leaf, p, kind);
    }
    forall b ensures Base(code', b) == Base(code, b) && (b != leaf ==> Ptr(code', b) == Ptr(code, b)) {
      if b.KeyLeaf? {
        SetPtrTables(code, leaf, p, KindOf(b.key));
      } else if b.WholeLeaf? {
        SetPtrTables(code, leaf, p, b.kind);
      }
    }
    if leaf.KeyLeaf? {
      SetPtrTables(code, leaf, p, KindOf(leaf.key));
    }
  }

  /** Facts about one leaf that an edit elsewhere keeps. */
  ghost predicate Kept(code: seq<Line>, code': seq<Line>, leaf: Leaf, dynamic: bool)
  {
    && Rooted(code) && Rooted(code')
    && LeafOk(code', leaf, dynamic)
    && Target(code', leaf) == Target(code, leaf)
    && Lookup(code', leaf) == Lookup(code, leaf)
  }

  /** An edit that redirects a single leaf, to nothing shared, keeps the block well formed. */
  lemma {:induction false} OneLeafEdit(code: seq<Line>, code': seq<Line>, leaf: Leaf, offs: seq<nat>, dynamic: bool)
    requires WellFormed(code, dynamic) && Rooted(code') && code'[0].v == code[0].v
    requires forall kind :: IsTable(code', kind) == IsTable(code, kind)
    requires forall b :: b != leaf ==> Kept(code, code', b, dynamic)
    requires LeafOk(code', leaf, dynamic) && Lookup(code', leaf) == offs
    requires Target(code', leaf) == -1 || forall b :: b != leaf ==> Target(code, b) != Target(code', leaf)
    ensures WellFormed(code', dynamic) && LeafBecomes(code, code', leaf, offs)
  {
    forall b ensures LeafOk(code', b, dynamic) && (b != leaf ==> Lookup(code', b) == Lookup(code, b)) {
      assert b != leaf ==> Kept(code, code', b, dynamic);
    }
    forall a, b | Target(code', a) == Target(code', b) != -1 ensures a == b {
      assert a != leaf ==> Kept(code, code', a, dynamic);
      assert b != leaf ==> Kept(code, code', b, dynamic);
    }
  }

  /** Redirecting one leaf keeps the others. */
  lemma {:induction false} SetPtrKeeps(code: seq<Line>, leaf: Leaf, p: CodePtr, dynamic: bool)
    requires WellFormed(code, dynamic) && Live(code, leaf)
    requires leaf.WholeLeaf? && p.Internal? && p.o < |code| ==> !code[p.o].SwitchOn?
    ensures forall b :: b != leaf ==> Kept(code, SetPtr(code, leaf, p), b, dynamic)
  {
    SetPtrTree(code, leaf, p);
    forall b | b != leaf ensures Kept(code, SetPtr(code, leaf, p), b, dynamic) {
      assert LeafOk(code, b, dynamic);
    }
  }

  /** A leaf is pointed at a single clause. */
  lemma {:induction false} PointAtClause(code: seq<Line>, leaf: Leaf, o: nat, dynamic: bool)
    requires WellFormed(code, dynamic) && Live(code, leaf)
    ensures var code' := SetPtr(code, leaf, if dynamic then DynamicExternal(o) else External(o));
            WellFormed(code', dynamic) && LeafBecomes(code, code', leaf, [o])
  {
    var p := if dynamic then DynamicExternal(o) else External(o);
    SetPtrTree(code, leaf, p);
    SetPtrKeeps(code, leaf, p, dynamic);
    OneLeafEdit(code, SetPtr(code, leaf, p), leaf, [o], dynamic);
  }

  /** A leaf is cleared. */
  lemma {:induction false} ClearLeaf(code: seq<Line>, leaf: Leaf, dynamic: bool)
    requires WellFormed(code, dynamic) && Live(code, leaf)
    ensures var code' := SetPtr(code, leaf, Fail);
            WellFormed(code', dynamic) && LeafBecomes(code, code', leaf, [])
  {
    SetPtrTree(code, leaf, Fail);
    SetPtrKeeps(code, leaf, Fail, dynamic);
    OneLeafEdit(code, SetPtr(code, leaf, Fail), leaf, [], dynamic);
  }

  /** A line nothing points at yet changes nothing. */
  lemma {:induction false} AppendKeeps(code: seq<Line>, line: Line, dynamic: bool)
    requires WellFormed(code, dynamic) && IsChoiceLine(line)
    ensures WellFormed(code + [line], dynamic)
    ensures forall kind :: IsTable(code + [line], kind) == IsTable(code, kind)
    ensures forall b :: Base(code + [line], b) == Base(code, b) && Ptr(code + [line], b) == Ptr(code, b)
    ensures forall b :: Kept(code, code + [line], b, dynamic)
  {
    var code' := code + [line];
    forall b
      ensures Base(code', b) == Base(code, b) && Ptr(code', b) == Ptr(code, b)
      ensures Kept(code, code', b, dynamic)
    {
      assert LeafOk(code, b, dynamic);
    }
    forall a, b | Target(code', a) == Target(code', b) != -1 ensures a == b {
      assert Kept(code, code', a, dynamic) && Kept(code, code', b, dynamic);
    }
  }

  /** A leaf is pointed at a fresh choice list. */
  lemma {:induction false} PointAtList(code: seq<Line>, leaf: Leaf, line: Line, dynamic: bool)
    requires WellFormed(code, dynamic) && Live(code, leaf) && GoodChoiceLine(line, dynamic)
    ensures Live(code + [line], leaf)
    ensures var code' := SetPtr(code + [line], leaf, Internal(|code| - Base(code, leaf)));
            WellFormed(code', dynamic) && LeafBecomes(code, code', leaf, LineOffsets(line))
  {
    AppendKeeps(code, line, dynamic);
    var mid := code + [line];
    var p := Internal(|code| - Base(code, leaf));
    assert mid[|code|] == line;
    SetPtrTree(mid, leaf, p);
    SetPtrKeeps(mid, leaf, p, dynamic);
    var code' := SetPtr(mid, leaf, p);
    forall b | b != leaf ensures Kept(code, code', b, dynamic) {
      assert Kept(code, mid, b, dynamic) && Kept(mid, code', b, dynamic);
    }
    forall b ensures Target(code, b) != |code| {
      assert LeafOk(code, b, dynamic);
    }
    OneLeafEdit(code, code', leaf, LineOffsets(line), dynamic);
  }

  lemma {:induction false} ReplaceListTree(code: seq<Line>, pos: nat, line: Line, b: Leaf, dynamic: bool)
    requires WellFormed(code, dynamic) && IsChoiceLine(line)
    requires pos < |code| && IsChoiceLine(code[pos])
    ensures var code' := code[pos := line];
            && Rooted(code') && (forall kind :: IsTable(code', kind) == IsTable(code, kind))
            && Base(code', b) == Base(code, b) && Ptr(code', b) == Ptr(code, b)
  {
  }

  lemma {:induction false} ReplaceListKeeps(code: seq<Line>, leaf: Leaf, line: Line, b: Leaf, dynamic: bool)
    requires WellFormed(code, dynamic) && GoodChoiceLine(line, dynamic)
    requires 0 <= Target(code, leaf) < |code|
    ensures var code' := code[Target(code, leaf) := line];
            && Rooted(code') && Base(code', b) == Base(code, b) && Ptr(code', b) == Ptr(code, b)
            && LeafOk(code', b, dynamic)
            && (b != leaf ==> Kept(code, code', b, dynamic))
  {
    assert LeafOk(code, leaf, dynamic);
    ReplaceListTree(code, Target(code, leaf), line, b, dynamic);
    assert LeafOk(code, b, dynamic);
    assert Target(code, leaf) == Target(code, b) ==> leaf == b;
  }

  /** The choice list of a leaf is replaced by another. */
  lemma {:induction false} ReplaceList(code: seq<Line>, leaf: Leaf, line: Line, dynamic: bool)
    requires WellFormed(code, dynamic) && GoodChoiceLine(line, dynamic)
    requires Target(code, leaf) != -1
    ensures 0 < Target(code, leaf) < |code|
    ensures var code' := code[Target(code, leaf) := line];
            WellFormed(code', dynamic) && LeafBecomes(code, code', leaf, LineOffsets(line))
  {
    assert LeafOk(code, leaf, dynamic);
    var code' := code[Target(code, leaf) := line];
    forall b ensures b != leaf ==> Kept(code, code', b, dynamic) {
      ReplaceListKeeps(code, leaf, line, b, dynamic);
    }
    ReplaceListKeeps(code, leaf, line, leaf, dynamic);
    OneLeafEdit(code, code', leaf, LineOffsets(line), dynamic);
  }

  // ----- opening a second level -----

  /** The leaves that opening the switch of a kind does not concern. */
  predicate Apart(leaf: Leaf, kind: Kind)
  {
    match leaf
    case ListLeaf => true
    case WholeLeaf(k) => k != kind
    case KeyLeaf(key) => KindOf(key) != kind
  }

  /** A slot that led straight to clauses now goes through a switch, which has them under `found` or nowhere. */
  ghost predicate Opened(code: seq<Line>, code': seq<Line>, kind: Kind, found: Option<Key>)
  {
    && Rooted(code) && Rooted(code')
    && !IsTable(code, kind) && IsTable(code', kind)
    && (forall k :: k != kind ==> IsTable(code', k) == IsTable(code, k))
    && (forall key :: OfKind(key, kind) ==>
          Lookup(code', KeyLeaf(key)) == if found == Some(key) then Lookup(code, WholeLeaf(kind)) else [])
    && (forall b :: Apart(b, kind) ==> Lookup(code', b) == Lookup(code, b))
  }

  /** A switch that leads on for at most one key. */
  function TableOf(found: Option<Key>, ptr: CodePtr): map<Key, CodePtr>
  {
    if found.Some? then map[found.value := ptr] else map[]
  }

  /** The push of a fresh switch that takes over a direct clause pointer. */
  function OpenClause(code: seq<Line>, kind: Kind, found: Option<Key>): seq<Line>
    requires Rooted(code)
  {
    code[0 := WithSlot(code[0], kind, Internal(|code|))] + [SwitchOn(kind, TableOf(found, Slot(code, kind)))]
  }

  /** The push-and-swap of a fresh switch that takes over a bare choice list. */
  function OpenList(code: seq<Line>, kind: Kind, key: Key): seq<Line>
    requires Rooted(code) && Slot(code, kind).Internal? && Slot(code, kind).o < |code|
  {
    var at := Slot(code, kind).o;
    code[at := SwitchOn(kind, map[key := Internal(|code| - at)])] + [code[at]]
  }

  lemma {:induction false} OpenedWellFormed(code: seq<Line>, code': seq<Line>, kind: Kind, found: Option<Key>,
                                            dynamic: bool)
    requires WellFormed(code, dynamic) && Rooted(code') && code'[0].v == code[0].v
            && (found.Some? ==> OfKind(found.value, kind))
    requires !IsTable(code, kind) && IsTable(code', kind)
    requires forall k :: k != kind ==> IsTable(code', k) == IsTable(code, k)
    requires forall b :: Apart(b, kind) ==> Kept(code, code', b, dynamic)
    requires code'[Slot(code', kind).o].table.Keys == if found.Some? then {found.value} else {}
    requires found.Some? ==>
               var leaf := KeyLeaf(found.value);
               && LeafOk(code', leaf, dynamic) && Lookup(code', leaf) == Lookup(code, WholeLeaf(kind))
               && (Target(code', leaf) == -1 || Target(code', leaf) == |code|)
    ensures WellFormed(code', dynamic) && Opened(code, code', kind, found)
  {
    forall b | !Apart(b, kind) && (found.Some? ==> b != KeyLeaf(found.value)) ensures Ptr(code', b) == Fail {
      if b.KeyLeaf? { assert found != Some(b.key); }
    }
    forall b ensures LeafOk(code', b, dynamic) {
      assert Apart(b, kind) ==> Kept(code, code', b, dynamic);
    }
    forall a, b | Target(code', a) == Target(code', b) != -1 ensures a == b {
      assert Apart(a, kind) ==> Kept(code, code', a, dynamic);
      assert Apart(b, kind) ==> Kept(code, code', b, dynamic);
      assert LeafOk(code, a, dynamic) && LeafOk(code, b, dynamic);
    }
  }

  lemma {:induction false} OpenClauseTables(code: seq<Line>, kind: Kind, found: Option<Key>, k: Kind, dynamic: bool)
    requires WellFormed(code, dynamic) && k != kind
    ensures Rooted(OpenClause(code, kind, found)) && IsTable(OpenClause(code, kind, found), k) == IsTable(code, k)
  {
    assert LeafOk(code, WholeLeaf(k), dynamic);
  }

  lemma {:induction false} OpenClauseKeeps(code: seq<Line>, kind: Kind, found: Option<Key>, b: Leaf, dynamic: bool)
    requires WellFormed(code, dynamic) && Apart(b, kind)
    ensures Kept(code, OpenClause(code, kind, found), b, dynamic)
  {
    hide WellFormed, OpenClause, GoodChoiceLine, LineOffsets;
    LeafFine(code, b, dynamic);
    OpenClauseTree(code, kind, found, b, dynamic);
  }

  /** Behind the first line nothing changes. */
  lemma {:induction false} OpenClauseTree(code: seq<Line>, kind: Kind, found: Option<Key>, b: Leaf, dynamic: bool)
    requires WellFormed(code, dynamic) && Apart(b, kind)
    ensures var code' := OpenClause(code, kind, found);
            && Rooted(code') && Base(code', b) == Base(code, b) && Ptr(code', b) == Ptr(code, b)
            && |code'| >= |code| && forall i :: 0 < i < |code| ==> code'[i] == code[i]
  {
    hide WellFormed;
    LeafFine(code, b, dynamic);
    if b.KeyLeaf? {
      OpenClauseTables(code, kind, found, KindOf(b.key), dynamic);
    } else if b.WholeLeaf? {
      OpenClauseTables(code, kind, found, b.kind, dynamic);
    }
  }

  lemma {:induction false} OpenClauseOpens(code: seq<Line>, kind: Kind, found: Option<Key>, dynamic: bool)
    requires WellFormed(code, dynamic) && (found.Some? ==> OfKind(found.value, kind))
    requires Slot(code, kind).External? || Slot(code, kind).DynamicExternal?
    ensures var code' := OpenClause(code, kind, found);
            WellFormed(code', dynamic) && Opened(code, code', kind, found) && Slot(code', kind) == Internal(|code|)
  {
    var code' := OpenClause(code, kind, found);
    assert code'[|code|] == SwitchOn(kind, TableOf(found, Slot(code, kind)));
    assert LeafOk(code, WholeLeaf(kind), dynamic);
    forall k | k != kind ensures IsTable(code', k) == IsTable(code, k) {
      OpenClauseTables(code, kind, found, k, dynamic);
    }
    forall b | Apart(b, kind) ensures Kept(code, code', b, dynamic) {
      OpenClauseKeeps(code, kind, found, b, dynamic);
    }
    OpenedWellFormed(code, code', kind, found, dynamic);
  }

  lemma {:induction false} OpenListTables(code: seq<Line>, kind: Kind, key: Key, k: Kind, dynamic: bool)
    requires WellFormed(code, dynamic) && k != kind
    requires Slot(code, kind).Internal? && !IsTable(code, kind) && 0 < Slot(code, kind).o < |code|
    ensures Rooted(OpenList(code, kind, key)) && IsTable(OpenList(code, kind, key), k) == IsTable(code, k)
  {
    assert LeafOk(code, WholeLeaf(kind), dynamic) && LeafOk(code, WholeLeaf(k), dynamic);
    assert Target(code, WholeLeaf(k)) == Target(code, WholeLeaf(kind)) ==> WholeLeaf(k) == WholeLeaf(kind);
  }

  lemma {:induction false} OpenListTree(code: seq<Line>, kind: Kind, key: Key, b: Leaf, dynamic: bool)
    requires WellFormed(code, dynamic) && Apart(b, kind)
    requires Slot(code, kind).Internal? && !IsTable(code, kind) && 0 < Slot(code, kind).o < |code|
    ensures var code' := OpenList(code, kind, key);
            Rooted(code') && Base(code', b) == Base(code, b) && Ptr(code', b) == Ptr(code, b)
  {
    match b
    case ListLeaf =>
    case WholeLeaf(k) =>
      OpenListTables(code, kind, key, k, dynamic);
    case KeyLeaf(other) =>
      OpenListTables(code, kind, key, KindOf(other), dynamic);
      assert LeafOk(code, WholeLeaf(kind), dynamic);
  }

  lemma {:induction false} OpenListKeeps(code: seq<Line>, kind: Kind, key: Key, b: Leaf, dynamic: bool)
    requires WellFormed(code, dynamic) && Apart(b, kind)
    requires Slot(code, kind).Internal? && !IsTable(code, kind) && 0 < Slot(code, kind).o < |code|
    ensures Kept(code, OpenList(code, kind, key), b, dynamic)
  {
    OpenListTree(code, kind, key, b, dynamic);
    assert LeafOk(code, b, dynamic);
    assert Target(code, b) == Target(code, WholeLeaf(kind)) ==> b == WholeLeaf(kind);
  }

  lemma {:induction false} OpenListOpens(code: seq<Line>, kind: Kind, key: Key, dynamic: bool)
    requires WellFormed(code, dynamic) && OfKind(key, kind)
    requires Slot(code, kind).Internal? && !IsTable(code, kind)
    ensures 0 < Slot(code, kind).o < |code|
    ensures var code' := OpenList(code, kind, key);
            WellFormed(code', dynamic) && Opened(code, code', kind, Some(key)) && Slot(code', kind) == Slot(code, kind)
  {
    assert LeafOk(code, WholeLeaf(kind), dynamic);
    var at := Slot(code, kind).o;
    var code' := OpenList(code, kind, key);
    assert code'[at] == SwitchOn(kind, map[key := Internal(|code| - at)]);
    assert code'[|code|] == code[at];
    forall k | k != kind ensures IsTable(code', k) == IsTable(code, k) {
      OpenListTables(code, kind, key, k, dynamic);
    }
    forall b | Apart(b, kind) ensures Kept(code, code', b, dynamic) {
      OpenListKeeps(code, kind, key, b, dynamic);
    }
    OpenedWellFormed(code, code', kind, Some(key), dynamic);
  }

  // ----- consequences for what the block represents -----

  /** A clause whose keys of a kind are forgotten in favour of the one found, if any. */
  ghost function Rekey(e: Entry, kind: Kind, found: Option<Key>): Entry
  {
    var rest := set key | key in e.keys && !OfKind(key, kind);
    Entry(rest + if found.Some? && rest != e.keys then {found.value} else {}, e.offset)
  }

  ghost function Rekeyed(s: seq<Entry>, kind: Kind, found: Option<Key>): (r: seq<Entry>)
    ensures |r| == |s| && forall i :: 0 <= i < |s| ==> r[i] == Rekey(s[i], kind, found)
  {
    seq(|s|, i requires 0 <= i < |s| => Rekey(s[i], kind, found))
  }

  /** Where one key is in use, its clauses are now under the key found. */
  lemma {:induction false} RekeyedScan(s: seq<Entry>, kind: Kind, sole: Key, found: Option<Key>, key: Key)
    requires SoleKey(s, kind, sole) && (found.Some? ==> OfKind(found.value, kind))
    ensures Scan(Rekeyed(s, kind, found), key) ==
            if !OfKind(key, kind) then Scan(s, key) else if found == Some(key) then Scan(s, sole) else []
  {
    if s != [] {
      var rest := s[1..];
      assert Rekeyed(s, kind, found)[1..] == Rekeyed(rest, kind, found);
      forall k | OfKind(k, kind) && k != sole ensures Scan(rest, k) == [] && k !in s[0].keys {
        assert Scan(s, k) == [];
      }
      RekeyedScan(rest, kind, sole, found, key);
      var others := set k | k in s[0].keys && !OfKind(k, kind);
      if sole in s[0].keys {
        assert sole !in others;
      } else {
        assert others == s[0].keys;
      }
    }
  }

  /** An opened block represents the clauses with the kind's keys replaced by the key found. */
  lemma {:induction false} OpenedRepresents(code: seq<Line>, code': seq<Line>, kind: Kind, found: Option<Key>,
                                            s: seq<Entry>)
    requires Opened(code, code', kind, found) && Represents(code, s)
    requires found.Some? ==> OfKind(found.value, kind)
    ensures Represents(code', Rekeyed(s, kind, found))
  {
    hide Lookup, Scan, Rekeyed;
    assert KindRepresents(code, s, kind);
    var sole :| SoleKey(s, kind, sole) && Lookup(code, WholeLeaf(kind)) == Scan(s, sole);
    var t := Rekeyed(s, kind, found);
    forall key ensures Scan(t, key) == if !OfKind(key, kind) then Scan(s, key) else if found == Some(key)
        then Scan(s, sole) else [] {
      RekeyedScan(s, kind, sole, found, key);
    }
    forall k ensures KindRepresents(code', t, k) {
      assert KindRepresents(code, s, k);
      if k != kind {
        assert Apart(WholeLeaf(k), kind);
        forall other | OfKind(other, k) ensures Lookup(code', KeyLeaf(other)) == Lookup(code, KeyLeaf(other)) {
          assert Apart(KeyLeaf(other), kind);
        }
        if !IsTable(code, k) {
          var other :| SoleKey(s, k, other) && Lookup(code, WholeLeaf(k)) == Scan(s, other);
          assert SoleKey(t, k, other);
        }
      }
    }
    assert Apart(ListLeaf, kind);
  }

  /** Clause lists with the same scans are represented by the same blocks. */
  lemma {:induction false} SameScansRepresent(code: seq<Line>, s: seq<Entry>, t: seq<Entry>)
    requires Rooted(code) && Represents(code, s) && forall key :: Scan(t, key) == Scan(s, key)
    ensures Represents(code, t)
  {
    hide Lookup, Scan;
    forall kind ensures KindRepresents(code, t, kind) {
      assert KindRepresents(code, s, kind);
      if !IsTable(code, kind) {
        var k :| SoleKey(s, kind, k) && Lookup(code, WholeLeaf(kind)) == Scan(s, k);
        assert SoleKey(t, kind, k);
      }
    }
  }

  /** If the key found is in use, or none is, nothing is forgotten. */
  lemma {:induction false} RekeyedSame(s: seq<Entry>, kind: Kind, sole: Key, found: Option<Key>)
    requires SoleKey(s, kind, sole) && (found.Some? ==> OfKind(found.value, kind))
    requires Scan(s, sole) != [] ==> found.Some? && Scan(s, found.value) != []
    ensures forall key :: Scan(Rekeyed(s, kind, found), key) == Scan(s, key)
  {
    hide Scan, Rekeyed;
    forall key ensures Scan(Rekeyed(s, kind, found), key) == Scan(s, key) {
      RekeyedScan(s, kind, sole, found, key);
    }
  }

  /** `t'` is `t` with one key's scan changed. */
  ghost predicate ScansDiffer(t: seq<Entry>, t': seq<Entry>, key: Key, offs: seq<nat>)
  {
    Scan(t', key) == offs && forall k :: k != key ==> Scan(t', k) == Scan(t, k)
  }

  function LeafOf(key: Key): Leaf
  {
    if key.ListKey? then ListLeaf else KeyLeaf(key)
  }

  lemma {:induction false} KeyEditKind(code: seq<Line>, code': seq<Line>, t: seq<Entry>, t': seq<Entry>, key: Key,
                                       offs: seq<nat>, kind: Kind)
    requires ScansDiffer(t, t', key, offs)
    requires LeafBecomes(code, code', LeafOf(key), offs)
    requires KindRepresents(code, t, kind)
    requires OfKind(key, kind) ==> IsTable(code, kind)
    ensures KindRepresents(code', t', kind)
  {
    if IsTable(code, kind) {
      forall k | OfKind(k, kind) ensures Lookup(code', KeyLeaf(k)) == Scan(t', k) {
      }
    } else {
      var k :| SoleKey(t, kind, k) && Lookup(code, WholeLeaf(kind)) == Scan(t, k);
      assert SoleKey(t', kind, k);
    }
  }

  /** Changing the leaf of one key. */
  lemma {:induction false} KeyEdit(code: seq<Line>, code': seq<Line>, t: seq<Entry>, t': seq<Entry>, key: Key,
                                   offs: seq<nat>)
    requires ScansDiffer(t, t', key, offs)
    requires LeafBecomes(code, code', LeafOf(key), offs)
    requires Represents(code, t)
    requires !key.ListKey? ==> IsTable(code, KindOf(key))
    ensures Represents(code', t')
  {
    KeyEditKind(code, code', t, t', key, offs, Constants);
    KeyEditKind(code, code', t, t', key, offs, Structures);
  }

  /** Changing the slot of a kind in which only `key` is in use. */
  lemma {:induction false} SlotEdit(code: seq<Line>, code': seq<Line>, t: seq<Entry>, t': seq<Entry>, kind: Kind,
                                    key: Key, offs: seq<nat>)
    requires ScansDiffer(t, t', key, offs) && SoleKey(t, kind, key)
    requires Rooted(code) && !IsTable(code, kind)
    requires LeafBecomes(code, code', WholeLeaf(kind), offs)
    requires Represents(code, t)
    ensures Represents(code', t')
  {
    forall k ensures KindRepresents(code', t', k) {
      assert KindRepresents(code, t, k);
      if k == kind {
        assert SoleKey(t', kind, key);
      } else if IsTable(code, k) {
        forall other | OfKind(other, k) ensures Lookup(code', KeyLeaf(other)) == Scan(t', other) {
        }
      } else {
        var other :| SoleKey(t, k, other) && Lookup(code, WholeLeaf(k)) == Scan(t, other);
        assert SoleKey(t', k, other);
      }
    }
  }

  /** Filing the newest clause under one more key changes one scan. */
  lemma {:induction false} ScansOfNewKey(s: seq<Entry>, e: Entry, key: Key, append: bool)
    requires key !in e.keys
    ensures Scan(Added(s, e, append), key) == Scan(s, key)
    ensures ScansDiffer(Added(s, e, append), Added(s, Entry(e.keys + {key}, e.offset), append), key,
                        Added(Scan(s, key), e.offset, append))
  {
    var e' := Entry(e.keys + {key}, e.offset);
    forall k ensures k != key ==> Scan(Added(s, e', append), k) == Scan(Added(s, e, append), k) {
      ScanAdded(s, e, k, append);
      ScanAdded(s, e', k, append);
    }
    ScanAdded(s, e, key, append);
    ScanAdded(s, e', key, append);
  }
}
