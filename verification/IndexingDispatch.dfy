/**
 Running an indexing block on an argument, and what it reaches.
 */
module IndexingDispatch {
  import opened IndexingLines
  import opened Options
  import opened IndexingLemmas

  /** A dereferenced call argument. A cut point is a number to unification, and a cell of its own kind to the index. */
  datatype Arg =
    | Unbound
    | ConstantArg(lit: Literal)
    | ListArgument
    | StructureArgument(name: string, arity: nat)
    | CutPointArg(n: int)
    | OpaqueArg

  /** The key a bound argument is looked up under, if any. */
  function ArgKey(arg: Arg): Option<Key>
  {
    match arg
    case ConstantArg(lit) => Some(LitKey(lit))
    case ListArgument => Some(ListKey)
    case StructureArgument(name, arity) =>
      if name == "." && arity == 2 then Some(ListKey) else if arity == 0 then None else Some(StrKey(name, arity))
    case _ => None
  }

  /** select_switch_on_term_index. */
  function Selected(line: Line, arg: Arg): CodePtr
    requires line.SwitchOnTerm?
  {
    match arg
    case Unbound => line.v
    case ListArgument => line.l
    case ConstantArg(_) => line.c
    case CutPointArg(_) => line.c
    case StructureArgument(name, arity) =>
      if name == "." && arity == 2 then line.l else if arity == 0 then line.c else line.s
    case OpaqueArg => Fail
  }

  /** The pointer a second-level switch selects. */
  function SelectedByKey(table: map<Key, CodePtr>, arg: Arg): CodePtr
  {
    if ArgKey(arg).Some? && ArgKey(arg).value in table then table[ArgKey(arg).value] else Fail
  }

  /** The leaf a bound argument ends at; None when it fails before reaching one. */
  function LeafReached(code: seq<Line>, arg: Arg): Option<Leaf>
    requires Rooted(code)
  {
    if arg.OpaqueArg? || arg.Unbound? then None
    else if ArgKey(arg) == Some(ListKey) then Some(ListLeaf)
    else
      var kind := if arg.StructureArgument? && arg.arity > 0 then Structures else Constants;
      if !IsTable(code, kind) then Some(WholeLeaf(kind))
      else if ArgKey(arg).Some? then Some(KeyLeaf(ArgKey(arg).value))
      else None
  }

  /** The clause offsets a bound argument reaches, in order. */
  function Reached(code: seq<Line>, arg: Arg): seq<nat>
    requires Rooted(code)
  {
    if LeafReached(code, arg).Some? then Lookup(code, LeafReached(code, arg).value) else []
  }

  /** execute_switch_on_term: for a bound argument the loop ends at the leaf's clauses, for an unbound one at
      the start of all clauses. */
  method ExecuteSwitchOnTerm(code: seq<Line>, arg: Arg, ghost dynamic: bool) returns (offsets: seq<nat>)
    requires WellFormed(code, dynamic)
    ensures offsets == if arg.Unbound? then [code[0].v.o] else Reached(code, arg)
  {
    hide WellFormed;
    LeafFine(code, ListLeaf, dynamic);
    VarSlot(code, dynamic);
    var index := 0;
    ghost var leaf := LeafReached(code, arg);
    if leaf.Some? { LeafFine(code, leaf.value, dynamic); }
    ghost var kind := if arg.StructureArgument? && arg.arity > 0 then Structures else Constants;
    LeafFine(code, WholeLeaf(kind), dynamic);
    while true
      invariant 0 <= index < |code|
      invariant index == 0 ||
                (leaf.Some? && Target(code, leaf.value) == index) ||
                (ArgKey(arg) != Some(ListKey) && !arg.OpaqueArg? && !arg.Unbound? && IsTable(code, kind)
                    && Slot(code, kind).o == index)
      decreases if index == 0 then 2 else if code[index].SwitchOn? then 1 else 0
    {
      match code[index] {
        case SwitchOnTerm(_, _, _, _, _) =>
          match Selected(code[index], arg) {
            case Fail => return [];
            case External(o) => return [o];
            case DynamicExternal(o) => return [o];
            case Internal(o) => index := index + o;
          }
        case SwitchOn(_, table) =>
          match SelectedByKey(table, arg) {
            case Fail => return [];
            case External(o) => return [o];
            case DynamicExternal(o) => return [o];
            case Internal(o) => index := index + o;
          }
        case IndexedChoice(cs) =>
          return ChoiceOffsets(cs);
        case DynamicIndexedChoice(os) =>
          return os;
      }
    }
  }

  lemma {:induction false} VarSlot(code: seq<Line>, dynamic: bool)
    requires WellFormed(code, dynamic)
    ensures Rooted(code) && (code[0].v.External? || code[0].v.DynamicExternal?)
  {
  }

  /** A bound argument reaches the scan for its key. The one exception is a slot without a switch:
      it then leads to the clauses of the only key in use, none of which has the argument's key. */
  lemma {:induction false} ReachedIsScan(code: seq<Line>, s: seq<Entry>, arg: Arg)
    requires Rooted(code) && Represents(code, s) && ArgKey(arg).Some?
    ensures var key := ArgKey(arg).value;
            || Reached(code, arg) == Scan(s, key)
            || (&& Scan(s, key) == []
                && exists sole :: sole != key && SoleKey(s, KindOf(key), sole) && Reached(code, arg) == Scan(s, sole))
  {
    var key := ArgKey(arg).value;
    if !key.ListKey? {
      var kind := KindOf(key);
      assert KindRepresents(code, s, kind);
      if !IsTable(code, kind) {
        var sole :| SoleKey(s, kind, sole) && Lookup(code, WholeLeaf(kind)) == Scan(s, sole);
        assert sole != key ==> Scan(s, key) == [];
      }
    }
  }

  // ----- order -----

  predicate Ascending(s: seq<nat>)
  {
    forall i, j :: 0 <= i < j < |s| ==> s[i] < s[j]
  }

  predicate AscendingOffsets(s: seq<Entry>)
  {
    forall i, j :: 0 <= i < j < |s| ==> s[i].offset < s[j].offset
  }

  lemma {:induction false} ScanBounded(s: seq<Entry>, key: Key)
    ensures forall o :: o in Scan(s, key) <==> exists i :: 0 <= i < |s| && key in s[i].keys && s[i].offset == o
  {
    if s != [] {
      ScanBounded(s[1..], key);
      forall o ensures o in Scan(s, key) <==> exists i :: 0 <= i < |s| && key in s[i].keys && s[i].offset == o {
        if exists i :: 0 <= i < |s| && key in s[i].keys && s[i].offset == o {
          var i :| 0 <= i < |s| && key in s[i].keys && s[i].offset == o;
          if i > 0 {
            assert s[1..][i - 1] == s[i];
          }
        }
        if o in Scan(s[1..], key) {
          var i :| 0 <= i < |s[1..]| && key in s[1..][i].keys && s[1..][i].offset == o;
          assert s[i + 1] == s[1..][i];
        }
      }
    }
  }

  lemma {:induction false} LaterOffsets(s: seq<Entry>, key: Key, o: nat)
    requires s != [] && AscendingOffsets(s) && o in Scan(s[1..], key)
    ensures s[0].offset < o
  {
    ScanBounded(s[1..], key);
    var i :| 0 <= i < |s[1..]| && key in s[1..][i].keys && s[1..][i].offset == o;
    assert s[i + 1].offset == o;
  }

  lemma {:induction false} AscendingCons(o: nat, rest: seq<nat>)
    requires Ascending(rest) && forall p :: p in rest ==> o < p
    ensures Ascending([o] + rest)
  {
    var r := [o] + rest;
    forall i, j | 0 <= i < j < |r| ensures r[i] < r[j] {
      assert r[j] == rest[j - 1] && rest[j - 1] in rest;
    }
  }

  /** Scans keep the order of the clauses and never repeat one. */
  lemma {:induction false} ScanAscending(s: seq<Entry>, key: Key)
    requires AscendingOffsets(s)
    ensures Ascending(Scan(s, key))
  {
    if s != [] {
      var rest := Scan(s[1..], key);
      ScanAscending(s[1..], key);
      hide Ascending, AscendingOffsets;
      forall o | o in rest ensures s[0].offset < o {
        LaterOffsets(s, key, o);
      }
      AscendingCons(s[0].offset, rest);
      assert [] + rest == rest;
    }
  }
}
