/**
 The data of first-argument indexing: the lines of an indexing block, the tree of
 pointers they form, and what it means for that tree to represent a list of clauses.
 */
module IndexingLines {
  import opened Options
  import opened Fixnums

  /** A constant. The arena pointer of a big number is part of its identity. */
  datatype Literal =
    | Atom(name: string)
    | Fixnum(n: int)
    | Integer(ptr: nat, value: int)
    | Rational(ptr: nat, numerator: int, denominator: int)
    | Float(offset: nat)

  /** The fixnum under which a small big-number literal is indexed a second time. */
  function ConstantKeyAlternative(lit: Literal): Option<Literal>
  {
    match lit
    case Rational(_, num, 1) => CheckedFixnum(num)
    case Integer(_, value) => CheckedFixnum(value)
    case _ => None
  }

  function CheckedFixnum(n: int): Option<Literal>
  {
    if FitsInFixnum(n) then Some(Fixnum(n)) else None
  }

  /** What a clause can be indexed on. */
  datatype Key = LitKey(lit: Literal) | StrKey(name: string, arity: nat) | ListKey

  /** The two second-level switches; the code for both is the same. */
  datatype Kind = Constants | Structures

  predicate OfKind(key: Key, kind: Kind)
  {
    match kind
    case Constants => key.LitKey?
    case Structures => key.StrKey?
  }

  datatype CodePtr =
    | External(o: nat)
    | DynamicExternal(o: nat)
    | Fail
    | Internal(o: nat)

  datatype Choice = Try(o: nat) | Retry(o: nat) | DefaultRetry(o: nat) | Trust(o: nat) | DefaultTrust(o: nat)

  datatype Line =
    | SwitchOnTerm(arg: nat, v: CodePtr, c: CodePtr, l: CodePtr, s: CodePtr)
    | SwitchOn(kind: Kind, table: map<Key, CodePtr>)
    | IndexedChoice(choices: seq<Choice>)
    | DynamicIndexedChoice(offsets: seq<nat>)

  // ----- third level: choice lists -----

  function ChoiceOffsets(cs: seq<Choice>): (r: seq<nat>)
    ensures |r| == |cs|
    ensures forall i :: 0 <= i < |cs| ==> r[i] == cs[i].o
  {
    seq(|cs|, i requires 0 <= i < |cs| => cs[i].o)
  }

  /** Try, Retry*, Trust. */
  predicate ChoiceShape(cs: seq<Choice>)
  {
    && |cs| >= 2
    && cs[0].Try?
    && (cs[|cs| - 1].Trust? || cs[|cs| - 1].DefaultTrust?)
    && forall i :: 0 < i < |cs| - 1 ==> cs[i].Retry? || cs[i].DefaultRetry?
  }

  predicate IsChoiceLine(line: Line)
  {
    line.IndexedChoice? || line.DynamicIndexedChoice?
  }

  predicate GoodChoiceLine(line: Line, dynamic: bool)
  {
    if dynamic then line.DynamicIndexedChoice? && |line.offsets| >= 2
    else line.IndexedChoice? && ChoiceShape(line.choices)
  }

  function LineOffsets(line: Line): seq<nat>
  {
    match line
    case IndexedChoice(cs) => ChoiceOffsets(cs)
    case DynamicIndexedChoice(os) => os
    case _ => []
  }

  // ----- the pointer tree -----

  /** A place that holds a pointer to clauses: the list slot of the first line, a slot
      of the first line that bypasses the second level, or an entry of a switch table. */
  datatype Leaf = ListLeaf | WholeLeaf(kind: Kind) | KeyLeaf(key: Key)

  function KindOf(key: Key): Kind
  {
    if key.StrKey? then Structures else Constants
  }

  predicate Rooted(code: seq<Line>)
  {
    |code| > 0 && code[0].SwitchOnTerm?
  }

  /** The first lines look at the same argument, and send an unbound one to the same place. */
  predicate SameFirst(code: seq<Line>, code': seq<Line>)
    requires Rooted(code)
  {
    Rooted(code') && code'[0].arg == code[0].arg && code'[0].v == code[0].v
  }

  function Slot(code: seq<Line>, kind: Kind): CodePtr
    requires Rooted(code)
  {
    match kind
    case Constants => code[0].c
    case Structures => code[0].s
  }

  function WithSlot(line: Line, kind: Kind, p: CodePtr): Line
    requires line.SwitchOnTerm?
  {
    match kind
    case Constants => line.(c := p)
    case Structures => line.(s := p)
  }

  /** The slot leads to a second-level switch rather than straight to clauses. */
  predicate IsTable(code: seq<Line>, kind: Kind)
    requires Rooted(code)
  {
    var p := Slot(code, kind);
    p.Internal? && 0 < p.o < |code| && code[p.o].SwitchOn? && code[p.o].kind == kind
  }

  function Base(code: seq<Line>, leaf: Leaf): nat
    requires Rooted(code)
  {
    match leaf
    case KeyLeaf(key) => if IsTable(code, KindOf(key)) then Slot(code, KindOf(key)).o else 0
    case _ => 0
  }

  function Ptr(code: seq<Line>, leaf: Leaf): CodePtr
    requires Rooted(code)
  {
    match leaf
    case ListLeaf => code[0].l
    case WholeLeaf(kind) => if IsTable(code, kind) then Fail else Slot(code, kind)
    case KeyLeaf(key) =>
      if IsTable(code, KindOf(key)) then
        var table := code[Slot(code, KindOf(key)).o].table;
        if key in table then table[key] else Fail
      else Fail
  }

  predicate PtrOk(code: seq<Line>, base: nat, p: CodePtr, dynamic: bool)
  {
    match p
    case Fail => true
    case External(_) => !dynamic
    case DynamicExternal(_) => dynamic
    case Internal(o) => 0 < o && base + o < |code| && GoodChoiceLine(code[base + o], dynamic)
  }

  predicate LeafOk(code: seq<Line>, leaf: Leaf, dynamic: bool)
    requires Rooted(code)
  {
    PtrOk(code, Base(code, leaf), Ptr(code, leaf), dynamic)
  }

  /** The line holding the leaf's choice list, or -1. */
  function Target(code: seq<Line>, leaf: Leaf): int
    requires Rooted(code)
  {
    var p := Ptr(code, leaf);
    if p.Internal? then Base(code, leaf) + p.o else -1
  }

  /** Every pointer lands on a line of the right kind, and no two leaves share a choice list. */
  ghost predicate WellFormed(code: seq<Line>, dynamic: bool)
  {
    && Rooted(code)
    && (if dynamic then code[0].v.DynamicExternal? else code[0].v.External?)
    && (forall leaf :: LeafOk(code, leaf, dynamic))
    && (forall a, b :: Target(code, a) == Target(code, b) != -1 ==> a == b)
  }

  function Follow(code: seq<Line>, base: nat, p: CodePtr): seq<nat>
  {
    match p
    case Fail => []
    case External(o) => [o]
    case DynamicExternal(o) => [o]
    case Internal(o) => if base + o < |code| then LineOffsets(code[base + o]) else []
  }

  /** The clause offsets a leaf leads to, in the order they are tried. */
  function Lookup(code: seq<Line>, leaf: Leaf): seq<nat>
    requires Rooted(code)
  {
    Follow(code, Base(code, leaf), Ptr(code, leaf))
  }

  // ----- what an index represents -----

  /** A clause as the index sees it: the keys it is filed under and its offset. */
  datatype Entry = Entry(keys: set<Key>, offset: nat)

  /** The plain in-order scan: offsets of the clauses filed under `key`. */
  function Scan(s: seq<Entry>, key: Key): seq<nat>
  {
    if s == [] then []
    else (if key in s[0].keys then [s[0].offset] else []) + Scan(s[1..], key)
  }

  /** No clause is filed under a key of this kind other than `key`. */
  ghost predicate SoleKey(s: seq<Entry>, kind: Kind, key: Key)
  {
    OfKind(key, kind) && forall k :: OfKind(k, kind) && k != key ==> Scan(s, k) == []
  }

  /** With a switch, every key leads to its scan. Without one, there is at most one key in
      use, and the slot leads to its scan whatever the argument is. */
  ghost predicate KindRepresents(code: seq<Line>, s: seq<Entry>, kind: Kind)
    requires Rooted(code)
  {
    if IsTable(code, kind) then
      forall key :: OfKind(key, kind) ==> Lookup(code, KeyLeaf(key)) == Scan(s, key)
    else
      exists key :: SoleKey(s, kind, key) && Lookup(code, WholeLeaf(kind)) == Scan(s, key)
  }

  /** There is a switch only where several keys are in use. */
  ghost predicate Lean(code: seq<Line>, s: seq<Entry>, kind: Kind)
    requires Rooted(code)
  {
    IsTable(code, kind) ==> forall key :: !SoleKey(s, kind, key)
  }

  /** The index stands for the clause list `s`. */
  ghost predicate Represents(code: seq<Line>, s: seq<Entry>)
    requires Rooted(code)
  {
    && Lookup(code, ListLeaf) == Scan(s, ListKey)
    && KindRepresents(code, s, Constants)
    && KindRepresents(code, s, Structures)
  }

  // ----- the skeleton of a predicate -----

  /** What the skeleton records of a clause's indexed argument: argument number, location of
      the indexing block, and the key. */
  datatype OptArgIndexKey =
    | LiteralArg(arg: nat, loc: nat, lit: Literal, alternative: Option<Literal>)
    | ListArg(arg: nat, loc: nat)
    | NoArg
    | StructureArg(arg: nat, loc: nat, name: string, arity: nat)

  datatype ClauseIndexInfo = ClauseIndexInfo(start: nat, key: OptArgIndexKey)

  predicate HasKeyType(key: OptArgIndexKey, kind: Kind)
  {
    match kind
    case Constants => key.LiteralArg?
    case Structures => key.StructureArg?
  }

  /** The key under which a clause is filed first. */
  function MainKey(key: OptArgIndexKey): Key
    requires !key.NoArg?
  {
    match key
    case LiteralArg(_, _, lit, _) => LitKey(lit)
    case StructureArg(_, _, name, arity) => StrKey(name, arity)
    case ListArg(_, _) => ListKey
  }

  /** All keys under which a clause is filed. */
  function FiledKeys(key: OptArgIndexKey): set<Key>
  {
    match key
    case NoArg => {}
    case LiteralArg(_, _, lit, Some(other)) => {LitKey(lit), LitKey(other)}
    case _ => {MainKey(key)}
  }
}
