/**
 An indexing block over its whole life: from a compiled run of clauses on,
     clauses are added at either end and removed in any
 order, and every clause that is still there is found.
 */
module IndexingHistory {
  import opened IndexingLines
  import opened IndexingLemmas
  import opened IndexingMerge
  import opened IndexingRemove
  import opened IndexingDispatch

  // ----- clauses that are still there -----

  /** A clause has a key, behind whose indexing block it stands. */
  predicate GoodInfo(info: ClauseIndexInfo)
  {
    var key := info.key;
    !key.NoArg? && key.loc <= info.start && (key.LiteralArg? ==> key.alternative == ConstantKeyAlternative(key.lit))
  }

  predicate GoodInfos(skeleton: seq<ClauseIndexInfo>)
  {
    forall i :: 0 <= i < |skeleton| ==> GoodInfo(skeleton[i])
  }

  function EntryFor(info: ClauseIndexInfo): Entry
    requires GoodInfo(info)
  {
    Entry(FiledKeys(info.key), info.start - info.key.loc + 1)
  }

  /** The clauses of the skeleton as the index should see them. */
  function Entries(skeleton: seq<ClauseIndexInfo>): (r: seq<Entry>)
    requires GoodInfos(skeleton)
    ensures |r| == |skeleton| && forall i :: 0 <= i < |r| ==> r[i] == EntryFor(skeleton[i])
  {
    seq(|skeleton|, i requires 0 <= i < |skeleton| => EntryFor(skeleton[i]))
  }

  function Offsets(s: seq<Entry>): set<nat>
  {
    set e | e in s :: e.offset
  }

  /** Those clauses of a list whose offsets are among the given ones. */
  function Those(s: seq<Entry>, offsets: set<nat>): seq<Entry>
  {
    if s == [] then []
    else (if s[0].offset in offsets then [s[0]] else []) + Those(s[1..], offsets)
  }

  function ThoseOffsets(os: seq<nat>, offsets: set<nat>): seq<nat>
  {
    if os == [] then []
    else (if os[0] in offsets then [os[0]] else []) + ThoseOffsets(os[1..], offsets)
  }

  lemma {:induction false} ThoseSum(a: seq<Entry>, b: seq<Entry>, offsets: set<nat>)
    ensures Those(a + b, offsets) == Those(a, offsets) + Those(b, offsets)
  {
    if a == [] {
      assert a + b == b;
    } else {
      assert (a + b)[1..] == a[1..] + b;
      ThoseSum(a[1..], b, offsets);
    }
  }

  lemma {:induction false} ThoseIn(s: seq<Entry>, offsets: set<nat>, e: Entry)
    ensures e in Those(s, offsets) <==> e in s && e.offset in offsets
  {
    if s != [] {
      ThoseIn(s[1..], offsets, e);
      assert s == [s[0]] + s[1..];
    }
  }

  lemma {:induction false} ThoseOfThose(s: seq<Entry>, offsets: set<nat>, fewer: set<nat>)
    requires fewer <= offsets
    ensures Those(Those(s, offsets), fewer) == Those(s, fewer)
  {
    if s != [] {
      ThoseOfThose(s[1..], offsets, fewer);
      if s[0].offset in offsets {
        var rest := Those(s[1..], offsets);
        assert ([s[0]] + rest)[1..] == rest;
      } else {
        assert [] + Those(s[1..], offsets) == Those(s[1..], offsets);
      }
    }
  }

  /** All of them, or all of them in a smaller set that holds all offsets. */
  lemma {:induction false} ThoseAll(s: seq<Entry>, offsets: set<nat>)
    requires forall i :: 0 <= i < |s| ==> s[i].offset in offsets
    ensures Those(s, offsets) == s
  {
    if s != [] {
      ThoseAll(s[1..], offsets);
    }
  }

  /** Clauses with other offsets do not matter. */
  lemma {:induction false} ThoseSame(s: seq<Entry>, t: seq<Entry>, offsets: set<nat>)
    requires |s| == |t|
    requires forall i :: 0 <= i < |s| ==> s[i] == t[i] || (s[i].offset !in offsets && t[i].offset !in offsets)
    ensures Those(s, offsets) == Those(t, offsets)
  {
    if s != [] {
      ThoseSame(s[1..], t[1..], offsets);
    }
  }

  lemma {:induction false} ThoseWiden(s: seq<Entry>, offsets: set<nat>, o: nat)
    requires forall i :: 0 <= i < |s| ==> s[i].offset != o
    ensures Those(s, offsets + {o}) == Those(s, offsets)
  {
    if s != [] {
      ThoseWiden(s[1..], offsets, o);
    }
  }

  lemma {:induction false} OffsetsSum(a: seq<Entry>, b: seq<Entry>)
    ensures Offsets(a + b) == Offsets(a) + Offsets(b)
  {
    forall o | o in Offsets(a) + Offsets(b) ensures o in Offsets(a + b) {
      var e :| (e in a || e in b) && e.offset == o;
      assert e in a + b;
    }
  }

  lemma {:induction false} OffsetIn(s: seq<Entry>, i: nat)
    requires i < |s|
    ensures s[i].offset in Offsets(s)
  {
    assert s[i] in s;
  }

  lemma {:induction false} NotAmong(s: seq<Entry>, o: nat)
    requires forall i :: 0 <= i < |s| ==> s[i].offset != o
    ensures o !in Offsets(s)
  {
  }

  /** One clause with its own offset taken away. */
  lemma {:induction false} ThoseWithout(s: seq<Entry>, i: nat)
    requires i < |s| && DistinctOffsets(s)
    ensures Offsets(s[..i] + s[i + 1..]) == Offsets(s) - {s[i].offset}
    ensures Those(s, Offsets(s) - {s[i].offset}) == s[..i] + s[i + 1..]
  {
    hide Offsets, Those;
    OffsetsWithout(s, i);
    var front, back, fewer := s[..i], s[i + 1..], Offsets(s) - {s[i].offset};
    assert s == front + ([s[i]] + back);
    ThoseSum(front, [s[i]] + back, fewer);
    ThoseSum([s[i]], back, fewer);
    NotThose(s[i], fewer);
    ThoseSum(front, back, fewer);
    forall j | 0 <= j < |front + back| ensures (front + back)[j].offset in fewer {
      OffsetIn(front + back, j);
    }
    ThoseAll(front + back, fewer);
  }

  lemma {:induction false} NotThose(e: Entry, offsets: set<nat>)
    ensures Those([e], offsets) == if e.offset in offsets then [e] else []
  {
    assert [e][1..] == [];
  }

  lemma {:induction false} OffsetsWithout(s: seq<Entry>, i: nat)
    requires i < |s| && DistinctOffsets(s)
    ensures Offsets(s[..i] + s[i + 1..]) == Offsets(s) - {s[i].offset}
  {
    hide Offsets;
    var front, back := s[..i], s[i + 1..];
    assert s == front + ([s[i]] + back);
    OffsetsSum(front, [s[i]] + back);
    OffsetsSum([s[i]], back);
    OffsetsSum(front, back);
    assert Offsets([s[i]]) == {s[i].offset} by { OffsetOfOne(s[i]); }
    forall j | 0 <= j < |front| ensures front[j].offset != s[i].offset {
      assert front[j] == s[j];
    }
    forall j | 0 <= j < |back| ensures back[j].offset != s[i].offset {
      assert back[j] == s[i + 1 + j];
    }
    NotAmong(front, s[i].offset);
    NotAmong(back, s[i].offset);
  }

  lemma {:induction false} OffsetOfOne(e: Entry)
    ensures Offsets([e]) == {e.offset}
  {
    assert e in [e];
  }

  /** Of what is found under a key, those that are still there are the plain scan of the clauses that are still
      there. */
  lemma {:induction false} ScanOfThose(s: seq<Entry>, offsets: set<nat>, key: Key)
    ensures ThoseOffsets(Scan(s, key), offsets) == Scan(Those(s, offsets), key)
  {
    if s != [] {
      ScanOfThose(s[1..], offsets, key);
      var rest := Scan(s[1..], key);
      if key in s[0].keys {
        assert ([s[0].offset] + rest)[1..] == rest;
      } else {
        assert [] + rest == rest;
      }
      if s[0].offset in offsets {
        assert ([s[0]] + Those(s[1..], offsets))[1..] == Those(s[1..], offsets);
      } else {
        assert [] + Those(s[1..], offsets) == Those(s[1..], offsets);
      }
    }
  }

  // ----- what every step keeps -----

  /** Where there is no switch, every clause filed under a key of the kind is still there. */
  ghost predicate AllThere(code: seq<Line>, s: seq<Entry>, offsets: set<nat>, kind: Kind)
    requires Rooted(code)
  {
    IsTable(code, kind) || forall j, key :: 0 <= j < |s| && key in s[j].keys && OfKind(key, kind) ==>
        s[j].offset in offsets
  }

  /** The block represents a list of clauses; those of the skeleton are in it in order, under all of their keys. */
  ghost predicate Good(code: seq<Line>, s: seq<Entry>, skeleton: seq<ClauseIndexInfo>, dynamic: bool)
  {
    && WellFormed(code, dynamic) && Rooted(code) && Represents(code, s) && DistinctOffsets(s) && GoodInfos(skeleton)
    && Those(s, Offsets(Entries(skeleton))) == Entries(skeleton)
    && forall kind :: AllThere(code, s, Offsets(Entries(skeleton)), kind)
  }

  /** Every clause of the skeleton is in the list. */
  lemma {:induction false} InList(code: seq<Line>, s: seq<Entry>, skeleton: seq<ClauseIndexInfo>, dynamic: bool,
                                  i: nat) returns (j: nat)
    requires Good(code, s, skeleton, dynamic) && i < |skeleton|
    ensures j < |s| && s[j] == EntryFor(skeleton[i])
  {
    var e := EntryFor(skeleton[i]);
    assert Entries(skeleton)[i] == e;
    ThoseIn(s, Offsets(Entries(skeleton)), e);
    j :| 0 <= j < |s| && s[j] == e;
  }

  /** The skeleton can name the key in use wherever there is no switch. */
  lemma {:induction false} Named(code: seq<Line>, s: seq<Entry>, skeleton: seq<ClauseIndexInfo>, dynamic: bool,
                                 info: ClauseIndexInfo, append: bool, kind: Kind)
    requires Good(code, s, skeleton, dynamic) && !IsTable(code, kind)
    ensures SkeletonHolds(Taken(Added(skeleton, info, append), append), [], s, kind, append)
  {
    hide Represents, Scan, DistinctOffsets, Those, WellFormed;
    var infos := Taken(Added(skeleton, info, append), append);
    var shift := if append then 0 else 1;
    forall i | 0 <= i < |infos| && !infos[i].key.NoArg? ensures Scan(s, MainKey(infos[i].key)) != [] {
      assert infos[i] == skeleton[i - shift];
      var j := InList(code, s, skeleton, dynamic, i - shift);
      FiledInUse(s, j, MainKey(infos[i].key));
    }
    if UsesKind(s, kind) {
      var i := KindNamed(code, s, skeleton, dynamic, kind);
      assert infos[i + shift] == skeleton[i];
      assert (infos + [])[i + shift] == infos[i + shift];
    }
    SkeletonOfClauses(infos, [], s, kind, append);
  }

  lemma {:induction false} FiledInUse(s: seq<Entry>, j: nat, key: Key)
    requires j < |s| && key in s[j].keys
    ensures Scan(s, key) != []
  {
    if j > 0 {
      FiledInUse(s[1..], j - 1, key);
    }
  }

  lemma {:induction false} KindNamed(code: seq<Line>, s: seq<Entry>, skeleton: seq<ClauseIndexInfo>, dynamic: bool,
                                     kind: Kind)
    returns (i: nat)
    requires Good(code, s, skeleton, dynamic) && !IsTable(code, kind) && UsesKind(s, kind)
    ensures i < |skeleton| && HasKeyType(skeleton[i].key, kind)
  {
    hide Represents, WellFormed, Those, DistinctOffsets;
    var key :| OfKind(key, kind) && Scan(s, key) != [];
    var j := ScanFrom(s, key, Scan(s, key)[0]);
    var live := Offsets(Entries(skeleton));
    assert AllThere(code, s, live, kind);
    assert s[j].offset in live;
    ThoseIn(s, live, s[j]);
    i :| 0 <= i < |skeleton| && Entries(skeleton)[i] == s[j];
    KindOfFiled(skeleton[i].key, key, kind);
  }

  lemma {:induction false} KindOfFiled(key: OptArgIndexKey, filed: Key, kind: Kind)
    requires filed in FiledKeys(key) && OfKind(filed, kind) && !key.NoArg?
    requires key.LiteralArg? ==> key.alternative == ConstantKeyAlternative(key.lit)
    ensures HasKeyType(key, kind)
  {
  }

  // ----- adding a clause -----

  lemma {:induction false} AddedGood(code: seq<Line>, code': seq<Line>, s: seq<Entry>, skeleton: seq<ClauseIndexInfo>,
                                     dynamic: bool, info: ClauseIndexInfo, append: bool)
    requires Good(code, s, skeleton, dynamic) && GoodInfo(info) && EntryFor(info).offset !in Offsets(s)
    requires WellFormed(code', dynamic) && Rooted(code') && KeepsTables(code, code')
    requires Represents(code', Added(s, EntryFor(info), append))
    ensures Good(code', Added(s, EntryFor(info), append), Added(skeleton, info, append), dynamic)
  {
    hide WellFormed, Represents, IsTable, Those, Offsets;
    var e := EntryFor(info);
    var s', skeleton' := Added(s, e, append), Added(skeleton, info, append);
    var live, live' := Offsets(Entries(skeleton)), Offsets(Entries(skeleton'));
    assert Entries(skeleton') == Added(Entries(skeleton), e, append);
    AddedOffsets(Entries(skeleton), e, append);
    forall i | 0 <= i < |s| ensures s[i].offset != e.offset {
      OffsetIn(s, i);
    }
    ThoseWiden(s, live, e.offset);
    NotThose(e, live');
    if append { ThoseSum(s, [e], live'); } else { ThoseSum([e], s, live'); }
    forall kind ensures AllThere(code', s', live', kind) {
      assert AllThere(code, s, live, kind);
    }
  }

  lemma {:induction false} AddedOffsets(s: seq<Entry>, e: Entry, append: bool)
    ensures Offsets(Added(s, e, append)) == Offsets(s) + {e.offset}
  {
    OffsetOfOne(e);
    OffsetsSum(s, [e]);
    OffsetsSum([e], s);
  }

  // ----- removing a clause -----

  lemma {:induction false} RemovedGood(code: seq<Line>, code': seq<Line>, s: seq<Entry>,
                                       skeleton: seq<ClauseIndexInfo>, dynamic: bool,
                                       i: nat, j: nat)
    requires Good(code, s, skeleton, dynamic) && i < |skeleton| && j < |s| && s[j] == EntryFor(skeleton[i])
    requires WellFormed(code', dynamic) && Rooted(code') && ClosesOnly(code, code')
    requires Represents(code', Unfiled(s, j, ReachedKeys(s, skeleton[i].key)))
    ensures Good(code', Unfiled(s, j, ReachedKeys(s, skeleton[i].key)), skeleton[..i] + skeleton[i + 1..], dynamic)
  {
    hide WellFormed, Represents, IsTable, ReachedKeys, Those, FiledKeys;
    var all, skeleton' := Entries(skeleton), skeleton[..i] + skeleton[i + 1..];
    var s' := Unfiled(s, j, ReachedKeys(s, skeleton[i].key));
    var live := Offsets(all);
    assert Entries(skeleton') == all[..i] + all[i + 1..];
    LiveDistinct(s, live);
    ThoseWithout(all, i);
    var live' := live - {s[j].offset};
    ThoseOfThose(s, live, live');
    ThoseSame(s, s', live');
    forall kind ensures AllThere(code', s', live', kind) {
      assert AllThere(code, s, live, kind);
      StillThere(code, code', s, skeleton[i].key, j, live, kind);
    }
  }

  lemma {:induction false} LiveDistinct(s: seq<Entry>, offsets: set<nat>)
    requires DistinctOffsets(s)
    ensures DistinctOffsets(Those(s, offsets))
  {
    if s != [] {
      LiveDistinct(s[1..], offsets);
      forall e | e in Those(s[1..], offsets) ensures e.offset != s[0].offset {
        ThoseIn(s[1..], offsets, e);
        var k :| 0 <= k < |s[1..]| && s[1..][k] == e;
        assert s[k + 1] == e;
      }
    }
  }

  /** Where no switch is left, the removed clause is filed under no key of the kind. */
  lemma {:induction false} StillThere(code: seq<Line>, code': seq<Line>, s: seq<Entry>, key: OptArgIndexKey, j: nat,
                                      live: set<nat>, kind: Kind)
    requires Rooted(code) && Represents(code, s) && DistinctOffsets(s) && AllThere(code, s, live, kind)
    requires j < |s| && s[j].keys == FiledKeys(key) && !key.NoArg?
    requires key.LiteralArg? ==> key.alternative == ConstantKeyAlternative(key.lit)
    requires ClosesOnly(code, code') && Represents(code', Unfiled(s, j, ReachedKeys(s, key)))
    ensures AllThere(code', Unfiled(s, j, ReachedKeys(s, key)), live - {s[j].offset}, kind)
  {
    hide Scan, Represents, FiledKeys, ReachedKeys;
    var s' := Unfiled(s, j, ReachedKeys(s, key));
    if !IsTable(code', kind) {
      if IsTable(code, kind) {
        NothingFiled(code', s', kind);
      } else {
        AllUnfiled(code, s, key, j, kind);
        forall m, filed | 0 <= m < |s'| && filed in s'[m].keys
            && OfKind(filed, kind) ensures s'[m].offset in live - {s[j].offset} {
          assert m != j;
          assert filed in s[m].keys;
        }
      }
    }
  }

  /** Under a kind whose slot leads nowhere, nothing is filed. */
  lemma {:induction false} NothingFiled(code: seq<Line>, s: seq<Entry>, kind: Kind)
    requires Rooted(code) && Represents(code, s) && Slot(code, kind).Fail?
    ensures forall m, key :: 0 <= m < |s| && key in s[m].keys ==> !OfKind(key, kind)
  {
    assert KindRepresents(code, s, kind);
    forall m, key | 0 <= m < |s| && key in s[m].keys ensures !OfKind(key, kind) {
      FiledInUse(s, m, key);
    }
  }

  /** Without a switch all keys of the kind are reached. */
  lemma {:induction false} AllUnfiled(code: seq<Line>, s: seq<Entry>, key: OptArgIndexKey, j: nat, kind: Kind)
    requires Rooted(code) && Represents(code, s) && j < |s| && s[j].keys == FiledKeys(key) && !key.NoArg?
            && !IsTable(code, kind)
    requires key.LiteralArg? ==> key.alternative == ConstantKeyAlternative(key.lit)
    ensures forall filed :: filed in FiledKeys(key) - ReachedKeys(s, key) ==> !OfKind(filed, kind)
  {
    hide Scan;
    if kind.Constants? && key.LiteralArg? && key.alternative.Some? {
      FiledInUse(s, j, LitKey(key.lit));
      FiledInUse(s, j, LitKey(key.alternative.value));
      assert KindRepresents(code, s, kind);
    }
  }

  // ----- the block -----

  /** The clauses of a run that are filed under a key, in order: what a call whose argument has that key should find. */
  function PlainScan(skeleton: seq<ClauseIndexInfo>, key: Key): seq<nat>
    requires GoodInfos(skeleton)
  {
    Scan(Entries(skeleton), key)
  }

  /** The clauses are indexed on this argument. */
  predicate IndexedOn(skeleton: seq<ClauseIndexInfo>, arg: nat)
  {
    forall i :: 0 <= i < |skeleton| ==> !skeleton[i].key.NoArg? && skeleton[i].key.arg == arg
  }

  /** Of the clauses found for a call's argument, those that are still there. */
  function Found(offsets: seq<nat>, skeleton: seq<ClauseIndexInfo>): seq<nat>
    requires GoodInfos(skeleton)
  {
    ThoseOffsets(offsets, Offsets(Entries(skeleton)))
  }

  /** What a bound argument should find: the clauses filed under its key, in order; or, if there are none, either
      nothing or those of the only key in use. */
  ghost predicate FindsItsClauses(found: seq<nat>, skeleton: seq<ClauseIndexInfo>, arg: Arg)
    requires GoodInfos(skeleton)
  {
    && (ArgKey(arg).Some? && PlainScan(skeleton, ArgKey(arg).value) != [] ==>
          found == PlainScan(skeleton, ArgKey(arg).value))
    && (found == [] || exists key :: found == PlainScan(skeleton, key))
  }

  class IndexHistory {
    var code: seq<Line>
    var skeleton: seq<ClauseIndexInfo>
    const dynamic: bool
    /** The number of the argument that the clauses are indexed on, and where a call goes whose argument is unbound. */
    const arg: nat
    const all: CodePtr
    ghost var s: seq<Entry>

    ghost predicate Valid()
      reads this
    {
      && Good(code, s, skeleton, dynamic) && IndexedOn(skeleton, arg)
      && Rooted(code) && code[0].arg == arg && code[0].v == all
    }

    /** A block as it is compiled. */
    constructor (code: seq<Line>, skeleton: seq<ClauseIndexInfo>, dynamic: bool)
      requires WellFormed(code, dynamic) && Rooted(code) && GoodInfos(skeleton) && IndexedOn(skeleton, code[0].arg)
      requires Represents(code, Entries(skeleton)) && DistinctOffsets(Entries(skeleton))
      ensures Valid() && this.code == code && this.skeleton == skeleton && arg == code[0].arg && all == code[0].v
    {
      this.code, this.skeleton, this.dynamic, s := code, skeleton, dynamic, Entries(skeleton);
      this.arg, this.all := code[0].arg, code[0].v;
      CompiledGood(code, skeleton, dynamic);
    }

    /** A new clause stands at a new position. */
    method Add(info: ClauseIndexInfo, append: bool)
      requires Valid() && GoodInfo(info) && info.key.arg == arg && EntryFor(info).offset !in Offsets(s)
      modifies this
      ensures Valid() && skeleton == Added(old(skeleton), info, append)
      ensures s == Added(old(s), EntryFor(info), append)
    {
      hide Represents, WellFormed, DistinctOffsets, Good, Scan, MayMerge, MergesAll;
      Parts(code, s, skeleton, dynamic);
      ghost var codeBefore, sBefore := code, s;
      AddingAllowed(code, s, skeleton, dynamic, info, append);
      skeleton := Added(skeleton, info, append);
      code, skeleton := MergeClauseIndex(code, skeleton, [], info.start, append, s);
      s := Added(s, EntryFor(info), append);
      AddedGood(codeBefore, code, sBefore, old(skeleton), dynamic, info, append);
    }

    method Remove(i: nat)
      requires Valid() && i < |skeleton|
      modifies this
      ensures Valid() && skeleton == old(skeleton)[..i] + old(skeleton)[i + 1..]
      ensures OnlyIt(old(s), s, EntryFor(old(skeleton)[i]).offset)
    {
      hide Represents, WellFormed, DistinctOffsets, Good, Scan, ReachedKeys, Removed;
      Parts(code, s, skeleton, dynamic);
      var info := skeleton[i];
      ghost var codeBefore, sBefore := code, s;
      ghost var j := InList(code, s, skeleton, dynamic, i);
      code := RemoveIndex(code, info.key, info.start - info.key.loc + 1, s, dynamic);
      s := Unfiled(s, j, ReachedKeys(s, info.key));
      skeleton := skeleton[..i] + skeleton[i + 1..];
      RemovedGood(codeBefore, code, sBefore, old(skeleton), dynamic, i, j);
    }

    /** Calling the predicate: the block looks at the argument that the clauses are indexed on, and of the clauses
        that are still there it finds those filed under the argument's key. */
    method Call(args: seq<Arg>) returns (offsets: seq<nat>)
      requires Valid() && 1 <= arg <= |args|
      ensures args[arg - 1].Unbound? ==> offsets == [all.o]
      ensures !args[arg - 1].Unbound? ==> FindsItsClauses(Found(offsets, skeleton), skeleton, args[arg - 1])
    {
      Parts(code, s, skeleton, dynamic);
      offsets := ExecuteSwitchOnTerm(code, args[code[0].arg - 1], dynamic);
      if !args[arg - 1].Unbound? {
        CallFinds(code, s, skeleton, dynamic, args[arg - 1]);
      }
    }
  }

  /** After any additions and removals, what a call finds of the clauses that are still there is the plain scan of
      those filed under its argument's key. */
  lemma {:induction false} CallFinds(code: seq<Line>, s: seq<Entry>, skeleton: seq<ClauseIndexInfo>, dynamic: bool,
                                     arg: Arg)
    requires Good(code, s, skeleton, dynamic) && !arg.Unbound?
    ensures FindsItsClauses(Found(Reached(code, arg), skeleton), skeleton, arg)
  {
    hide WellFormed, Scan, Those, ThoseOffsets, Represents, DistinctOffsets;
    var live := Offsets(Entries(skeleton));
    if LeafReached(code, arg).None? {
      NoOffsets(live);
      if ArgKey(arg).Some? { assert false; }
    } else if ArgKey(arg).Some? {
      KeyFinds(code, s, skeleton, dynamic, arg);
    } else {
      SlotFinds(code, s, skeleton, dynamic, Constants);
    }
  }

  lemma {:induction false} NoOffsets(offsets: set<nat>)
    ensures ThoseOffsets([], offsets) == []
  {
  }

  lemma {:induction false} KeyFinds(code: seq<Line>, s: seq<Entry>, skeleton: seq<ClauseIndexInfo>, dynamic: bool,
                                    arg: Arg)
    requires Good(code, s, skeleton, dynamic) && ArgKey(arg).Some?
    ensures FindsItsClauses(Found(Reached(code, arg), skeleton), skeleton, arg)
  {
    hide WellFormed, Those, ThoseOffsets, DistinctOffsets, Scan, Represents;
    var key, live := ArgKey(arg).value, Offsets(Entries(skeleton));
    ReachedIsScan(code, s, arg);
    ScanOfThose(s, live, key);
    NoOffsets(live);
    if Reached(code, arg) == Scan(s, key) {
      assert Found(Reached(code, arg), skeleton) == PlainScan(skeleton, key);
    } else {
      var sole :| sole != key && SoleKey(s, KindOf(key), sole) && Reached(code, arg) == Scan(s, sole);
      ScanOfThose(s, live, sole);
      assert Found(Reached(code, arg), skeleton) == PlainScan(skeleton, sole);
    }
  }

  /** A slot without a switch leads to the clauses of one key. */
  lemma {:induction false} SlotFinds(code: seq<Line>, s: seq<Entry>, skeleton: seq<ClauseIndexInfo>, dynamic: bool,
                                     kind: Kind)
    requires Good(code, s, skeleton, dynamic) && !IsTable(code, kind)
    ensures exists key :: Found(Lookup(code, WholeLeaf(kind)), skeleton) == PlainScan(skeleton, key)
  {
    hide WellFormed, Those, ThoseOffsets, DistinctOffsets, Scan;
    var live := Offsets(Entries(skeleton));
    assert KindRepresents(code, s, kind);
    var sole :| SoleKey(s, kind, sole) && Lookup(code, WholeLeaf(kind)) == Scan(s, sole);
    ScanOfThose(s, live, sole);
    assert Found(Lookup(code, WholeLeaf(kind)), skeleton) == PlainScan(skeleton, sole);
  }

  lemma {:induction false} CompiledGood(code: seq<Line>, skeleton: seq<ClauseIndexInfo>, dynamic: bool)
    requires WellFormed(code, dynamic) && Rooted(code) && GoodInfos(skeleton)
    requires Represents(code, Entries(skeleton)) && DistinctOffsets(Entries(skeleton))
    ensures Good(code, Entries(skeleton), skeleton, dynamic)
  {
    ThoseAll(Entries(skeleton), Offsets(Entries(skeleton)));
  }

  /** Whatever was added and removed before, a clause can be added, and none is forgotten. */
  lemma {:induction false} AddingAllowed(code: seq<Line>, s: seq<Entry>, skeleton: seq<ClauseIndexInfo>, dynamic: bool,
                                         info: ClauseIndexInfo, append: bool)
    requires Good(code, s, skeleton, dynamic) && GoodInfo(info)
    ensures var infos := Added(skeleton, info, append);
            && infos[NewestAt(infos, append)] == info && dynamic == code[0].v.DynamicExternal?
            && MayMerge(code, info.key, Taken(infos, append), [], append)
            && MergesAll(code, s, info.key, Taken(infos, append), [], append)
  {
    hide Represents, Scan, DistinctOffsets, Those, Good, SkeletonHolds;
    Parts(code, s, skeleton, dynamic);
    var kind := KindOf(MainKey(info.key));
    if !info.key.ListArg? && !IsTable(code, kind) {
      Named(code, s, skeleton, dynamic, info, append, kind);
      AllRemembered(code, s, info.key, Taken(Added(skeleton, info, append), append), [], append, dynamic);
    }
  }

  lemma {:induction false} Parts(code: seq<Line>, s: seq<Entry>, skeleton: seq<ClauseIndexInfo>, dynamic: bool)
    requires Good(code, s, skeleton, dynamic)
    ensures WellFormed(code, dynamic) && Rooted(code) && Represents(code, s) && dynamic == code[0].v.DynamicExternal?
    ensures DistinctOffsets(s) && GoodInfos(skeleton)
  {
  }

  /** After any additions and removals, those clauses found under a key that are still there are the plain scan of
      the clauses that are still there: none of them is lost, and they come in order. */
  lemma {:induction false} NoneLost(code: seq<Line>, s: seq<Entry>, skeleton: seq<ClauseIndexInfo>, dynamic: bool,
                                    key: Key)
    requires Good(code, s, skeleton, dynamic)
    ensures ThoseOffsets(Scan(s, key), Offsets(Entries(skeleton))) == PlainScan(skeleton, key)
    ensures key.ListKey? ==>
              ThoseOffsets(Lookup(code, ListLeaf), Offsets(Entries(skeleton))) == PlainScan(skeleton, key)
    ensures !key.ListKey? && IsTable(code, KindOf(key)) ==>
              ThoseOffsets(Lookup(code, KeyLeaf(key)), Offsets(Entries(skeleton))) == PlainScan(skeleton, key)
    ensures !key.ListKey? && !IsTable(code, KindOf(key)) && PlainScan(skeleton, key) != [] ==>
              Lookup(code, WholeLeaf(KindOf(key))) == PlainScan(skeleton, key)
  {
    hide WellFormed, Those, ThoseOffsets;
    ScanOfThose(s, Offsets(Entries(skeleton)), key);
    if !key.ListKey? {
      var kind := KindOf(key);
      assert KindRepresents(code, s, kind) && OfKind(key, kind);
      if !IsTable(code, kind) && PlainScan(skeleton, key) != [] {
        BareScan(code, s, skeleton, dynamic, key);
      }
    }
  }

  /** Without a switch, what is found is exactly the plain scan. */
  lemma {:induction false} BareScan(code: seq<Line>, s: seq<Entry>, skeleton: seq<ClauseIndexInfo>, dynamic: bool,
                                    key: Key)
    requires Good(code, s, skeleton, dynamic) && !key.ListKey? && !IsTable(code, KindOf(key))
            && PlainScan(skeleton, key) != []
    ensures Lookup(code, WholeLeaf(KindOf(key))) == PlainScan(skeleton, key)
  {
    hide WellFormed, Those, Scan, DistinctOffsets;
    var kind, live := KindOf(key), Offsets(Entries(skeleton));
    assert KindRepresents(code, s, kind) && OfKind(key, kind);
    var sole :| SoleKey(s, kind, sole) && Lookup(code, WholeLeaf(kind)) == Scan(s, sole);
    ScanOfThose(s, live, key);
    SomeOffsets(Scan(s, key), live);
    assert sole == key;
    assert AllThere(code, s, live, kind);
    forall o | o in Scan(s, key) ensures o in live {
      var j := ScanFrom(s, key, o);
      assert s[j].offset in live;
    }
    AllOffsets(Scan(s, key), live);
  }

  lemma {:induction false} SomeOffsets(os: seq<nat>, offsets: set<nat>)
    ensures ThoseOffsets(os, offsets) != [] ==> os != []
  {
  }

  lemma {:induction false} AllOffsets(os: seq<nat>, offsets: set<nat>)
    requires forall o :: o in os ==> o in offsets
    ensures ThoseOffsets(os, offsets) == os
  {
    if os != [] {
      assert os[0] in os;
      assert forall o :: o in os[1..] ==> o in os;
      AllOffsets(os[1..], offsets);
    }
  }
}
