/**
 Which clause heads accept a call argument, and which of them the index leads to.
 */
module HeadMatching {
  import opened Options
  import opened Fixnums
  import opened IndexingLines
  import opened IndexingLemmas
  import opened IndexingCompile
  import opened IndexingDispatch

  // ----- unification of the indexed argument -----

  datatype Ratio = Ratio(num: int, den: int)

  /** The value of a numeric literal other than a float. */
  function ValueOf(lit: Literal): Option<Ratio>
  {
    match lit
    case Fixnum(n) => Some(Ratio(n, 1))
    case Integer(_, value) => Some(Ratio(value, 1))
    case Rational(_, num, den) => Some(Ratio(num, den))
    case _ => None
  }

  /** Integers and rationals unify if they have the same value, wherever they are stored. */
  predicate LiteralsUnify(a: Literal, b: Literal)
  {
    if ValueOf(a).Some? && ValueOf(b).Some? then
      ValueOf(a).value.num * ValueOf(b).value.den == ValueOf(b).value.num * ValueOf(a).value.den
    else a == b
  }

  /** The first instruction of a head argument accepts the call's argument. */
  predicate HeadMatches(t: Term, a: Arg)
  {
    || a.Unbound?
    || match t
       case Var => true
       case AnonVar => true
       case Constant(lit) =>
         || (a.ConstantArg? && LiteralsUnify(lit, a.lit))
         || (a.CutPointArg? && LiteralsUnify(lit, Fixnum(a.n)))
         || (a.StructureArgument? && a.arity == 0 && lit == Atom(a.name))
       case Compound(name, args) => a == StructureArgument(name, |args|)
       case _ => a.ListArgument? || a == StructureArgument(".", 2)
  }

  // ----- where the index leads -----

  /** The slot of the first line that a bound argument without a list is sent to. */
  function SlotKind(a: Arg): Option<Kind>
  {
    match a
    case ConstantArg(_) => Some(Constants)
    case CutPointArg(_) => Some(Constants)
    case StructureArgument(name, arity) =>
      if name == "." && arity == 2 then None else if arity == 0 then Some(Constants) else Some(Structures)
    case _ => None
  }

  /** The clause is filed under the argument's own key. */
  predicate OwnKey(e: Entry, a: Arg)
  {
    ArgKey(a).Some? && ArgKey(a).value in e.keys
  }

  /** The clause is filed under the only key in use in the slot the argument is sent to. */
  ghost predicate OnlyKey(s: seq<Entry>, e: Entry, a: Arg)
  {
    SlotKind(a).Some? && exists sole :: SoleKey(s, SlotKind(a).value, sole) && sole in e.keys
  }

  ghost predicate LeadsTo(s: seq<Entry>, e: Entry, a: Arg)
  {
    OwnKey(e, a) || OnlyKey(s, e, a)
  }

  lemma {:induction false} FiledExactly(s: seq<Entry>, key: Key, i: nat)
    requires AscendingOffsets(s) && i < |s|
    ensures s[i].offset in Scan(s, key) <==> key in s[i].keys
  {
    ScanBounded(s, key);
  }

  lemma {:induction false} ScanInUse(s: seq<Entry>, key: Key, i: nat)
    requires i < |s| && key in s[i].keys
    ensures Scan(s, key) != []
  {
    ScanBounded(s, key);
    assert s[i].offset in Scan(s, key);
  }

  /** What a bound argument reaches is the scan for one key, or nothing. */
  ghost predicate ReachesScan(code: seq<Line>, s: seq<Entry>, a: Arg, key: Option<Key>)
    requires Rooted(code)
  {
    Reached(code, a) == if key.Some? then Scan(s, key.value) else []
  }

  /** ... and that key is the one that decides where the argument is led. */
  lemma {:induction false} LedByKey(code: seq<Line>, s: seq<Entry>, a: Arg) returns (key: Option<Key>)
    requires Rooted(code) && Represents(code, s) && (forall kind :: Lean(code, s, kind)) && !a.Unbound?
    ensures ReachesScan(code, s, a, key)
    ensures forall i :: 0 <= i < |s| ==> (LeadsTo(s, s[i], a) <==> key.Some? && key.value in s[i].keys)
  {
    if a.OpaqueArg? {
      key := None;
    } else if ArgKey(a) == Some(ListKey) {
      key := Some(ListKey);
    } else {
      key := LedInSlot(code, s, a);
    }
  }

  lemma {:induction false} LedInSlot(code: seq<Line>, s: seq<Entry>, a: Arg) returns (key: Option<Key>)
    requires Rooted(code) && Represents(code, s) && (forall kind :: Lean(code, s, kind)) && SlotKind(a).Some?
    ensures ReachesScan(code, s, a, key)
    ensures forall i :: 0 <= i < |s| ==> (LeadsTo(s, s[i], a) <==> key.Some? && key.value in s[i].keys)
  {
    hide Scan, Lookup, IsTable;
    var kind := SlotKind(a).value;
    assert KindRepresents(code, s, kind) && Lean(code, s, kind);
    if IsTable(code, kind) {
      key := ArgKey(a);
    } else {
      var sole :| SoleKey(s, kind, sole) && Lookup(code, WholeLeaf(kind)) == Scan(s, sole);
      key := Some(sole);
      forall i | 0 <= i < |s| ensures LeadsTo(s, s[i], a) <==> sole in s[i].keys {
        OneSole(s, a, sole, i);
      }
    }
  }

  lemma {:induction false} OneSole(s: seq<Entry>, a: Arg, sole: Key, i: nat)
    requires SlotKind(a).Some? && SoleKey(s, SlotKind(a).value, sole) && i < |s|
    ensures LeadsTo(s, s[i], a) <==> sole in s[i].keys
  {
    hide Scan;
    if OwnKey(s[i], a) {
      ScanInUse(s, ArgKey(a).value, i);
    }
    if OnlyKey(s, s[i], a) {
      var other :| SoleKey(s, SlotKind(a).value, other) && other in s[i].keys;
      ScanInUse(s, other, i);
    }
  }

  // ----- keys and unification -----

  /** A big number stored elsewhere, a cut point, or a structure without arguments. */
  predicate Unkeyed(t: Term, a: Arg)
  {
    || (t.Constant? && a.ConstantArg? && (a.lit.Integer? || a.lit.Rational?) && a.lit != t.lit)
    || a.CutPointArg?
    || (a.StructureArgument? && a.arity == 0)
  }

  /** Fixnums fit, and a rational has a positive denominator, which is one if its value is an integer. */
  ghost predicate Normal(lit: Literal)
  {
    && (lit.Fixnum? ==> FitsInFixnum(lit.n))
    && (lit.Rational? ==> lit.denominator > 0)
    && (lit.Rational? && lit.denominator > 1 ==> forall n :: !Times(n, lit.denominator, lit.numerator))
  }

  predicate Times(n: int, den: int, num: int)
  {
    n * den == num
  }

  /** A clause that accepts a bound argument is filed under the argument's key, unless the argument is a big
      number stored elsewhere than the clause's, a cut point, or a structure without arguments. */
  lemma {:induction false} KeyedExactly(t: Term, a: Arg, index: nat)
    requires HeadMatches(t, a) && !a.Unbound? && !t.Var? && !t.AnonVar?
    requires (t.Constant? ==> Normal(t.lit)) && (a.ConstantArg? ==> Normal(a.lit))
    ensures OwnKey(EntryOf(t, index), a) <==> !Unkeyed(t, a)
  {
    if t.Constant? && a.ConstantArg? {
      SameValueKeys(t.lit, a.lit);
    }
  }

  lemma {:induction false} SameValueKeys(lit: Literal, other: Literal)
    requires LiteralsUnify(lit, other) && Normal(lit) && Normal(other)
    ensures (other == lit || ConstantKeyAlternative(lit) == Some(other)) <==>
            !((other.Integer? || other.Rational?) && other != lit)
  {
    if other.Fixnum? && lit.Rational? {
      WholeRational(lit.numerator, lit.denominator, other.n);
    }
  }

  lemma {:induction false} WholeRational(num: int, den: int, n: int)
    requires den > 0 && num * 1 == n * den && (den > 1 ==> forall k :: !Times(k, den, num))
    ensures den == 1 && num == n
  {
    assert Times(n, den, num);
  }
}
