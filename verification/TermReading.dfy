/**
 Reading a term back from the heap.
 */
module TermReading {
  import opened Options
  import opened TermWriter

  /** The term a cell stands for, following references. Variables are named by the address of their cell.
      None when `fuel` steps do not suffice. */
  function Read(heap: seq<Cell>, p: nat, fuel: nat): Option<Term>
    decreases fuel, 0
  {
    if fuel == 0 || p >= |heap| then None
    else match heap[p]
      case Constant(lit) => Some(Literal(lit))
      case HeapLoc(h) => if h == p then Some(Var(p)) else Read(heap, h, fuel - 1)
      case ListLoc(l) =>
        var head, tail := Read(heap, l, fuel - 1), Read(heap, l + 1, fuel - 1);
        if head.Some? && tail.Some? then Some(Cons(head.value, tail.value)) else None
      case StrLoc(s) =>
        if s < |heap| && heap[s].Functor? then
          var args := ReadAll(heap, s + 1, heap[s].arity, fuel - 1);
          if args.Some? then Some(Clause(heap[s].name, args.value)) else None
        else None
      case Functor(name, arity) => if arity == 0 then Some(Clause(name, [])) else None
      case PStrLoc(d) =>
        if d >= |heap| || !heap[d].Text? then None
        else if heap[d].complete then Some(CompleteString(heap[d].src))
        else
          var rest := Read(heap, d + 1, fuel - 1);
          if rest.Some? then Some(PartialString(heap[d].src, rest.value)) else None
      case Text(_, _) => None
  }

  function ReadAll(heap: seq<Cell>, p: nat, n: nat, fuel: nat): Option<seq<Term>>
    decreases fuel, n + 1
  {
    if n == 0 then Some([])
    else
      var first, others := Read(heap, p, fuel), ReadAll(heap, p + 1, n - 1, fuel);
      if first.Some? && others.Some? then Some([first.value] + others.value) else None
  }

  /** The term with every variable named by the address of its cell. */
  function Resolve(t: Term, vars: map<VarKey, nat>): Term
  {
    match t
    case Var(name) => if Named(name) in vars then Var(vars[Named(name)]) else t
    case AnonVar(id) => if Anon(id) in vars then Var(vars[Anon(id)]) else t
    case Clause(name, args) => Clause(name, ResolveAll(args, vars))
    case Cons(head, tail) => Cons(Resolve(head, vars), Resolve(tail, vars))
    case PartialString(src, rest) => PartialString(src, Resolve(rest, vars))
    case _ => t
  }

  function ResolveAll(ts: seq<Term>, vars: map<VarKey, nat>): seq<Term>
  {
    if ts == [] then [] else [Resolve(ts[0], vars)] + ResolveAll(ts[1..], vars)
  }

  /** Enough fuel to read a term. */
  function Need(t: Term): nat
  {
    2 * TermSize(t)
  }

  const NoHoles := Holes([], [])

  /** A cell that represents a term reads back as that term. */
  lemma {:induction false} ReadsBack(heap: seq<Cell>, vars: map<VarKey, nat>, p: nat, t: Term, fuel: nat)
    requires Rep(heap, vars, NoHoles, p, t) && VarsOk(heap, vars, []) && fuel >= Need(t)
    ensures Read(heap, p, fuel) == Some(Resolve(t, vars))
    decreases t, 1
  {
    if t.Clause? {
      ClauseReadsBack(heap, vars, p, t, fuel);
    } else if t.Cons? {
      ReadsBack(heap, vars, heap[p].l, t.head, fuel - 1);
      ReadsBack(heap, vars, heap[p].l + 1, t.tail, fuel - 1);
    } else if t.CompleteString? || t.PartialString? {
      StringReadsBack(heap, vars, p, t, fuel);
    }
  }

  lemma {:induction false} StringReadsBack(heap: seq<Cell>, vars: map<VarKey, nat>, p: nat, t: Term, fuel: nat)
    requires (t.CompleteString? || t.PartialString?) && Rep(heap, vars, NoHoles, p, t) && VarsOk(heap, vars, [])
            && fuel >= Need(t)
    ensures Read(heap, p, fuel) == Some(Resolve(t, vars))
    decreases t, 0
  {
    if t.PartialString? {
      var d := TextLoc(heap, NoHoles, p).value;
      ReadsBack(heap, vars, d + 1, t.rest, fuel - 1);
      ReadsBack(heap, vars, d + 1, t.rest, fuel - 2);
    }
  }

  lemma {:induction false} ClauseReadsBack(heap: seq<Cell>, vars: map<VarKey, nat>, p: nat, t: Term, fuel: nat)
    requires t.Clause? && Rep(heap, vars, NoHoles, p, t) && VarsOk(heap, vars, []) && fuel >= Need(t)
    ensures Read(heap, p, fuel) == Some(Resolve(t, vars))
    decreases t, 0
  {
    if t.args != [] {
      var s := heap[p].s;
      forall i | 0 <= i < |t.args| ensures Read(heap, s + 1 + i, fuel - 1) == Some(Resolve(t.args[i], vars)) {
        PartSmaller(t.args, i);
        ReadsBack(heap, vars, s + 1 + i, t.args[i], fuel - 1);
      }
      AllReadBack(heap, vars, s + 1, t.args, fuel - 1);
    }
  }

  lemma {:induction false} PartSmaller(ts: seq<Term>, i: nat)
    requires i < |ts|
    ensures TermSize(ts[i]) <= TermSizes(ts)
  {
    if i > 0 {
      PartSmaller(ts[1..], i - 1);
    }
  }

  predicate ReadsAt(heap: seq<Cell>, vars: map<VarKey, nat>, p: nat, ts: seq<Term>, fuel: nat, i: nat)
    requires i < |ts|
  {
    Read(heap, p + i, fuel) == Some(Resolve(ts[i], vars))
  }

  lemma {:induction false} AllReadBack(heap: seq<Cell>, vars: map<VarKey, nat>, p: nat, ts: seq<Term>, fuel: nat)
    requires forall i :: 0 <= i < |ts| ==> ReadsAt(heap, vars, p, ts, fuel, i)
    ensures ReadAll(heap, p, |ts|, fuel) == Some(ResolveAll(ts, vars))
    decreases |ts|
  {
    hide Read, Resolve;
    if ts != [] {
      assert ReadsAt(heap, vars, p, ts, fuel, 0);
      var rest, q := ts[1..], p + 1;
      forall i | 0 <= i < |rest| ensures ReadsAt(heap, vars, q, rest, fuel, i) {
        assert ReadsAt(heap, vars, p, ts, fuel, i + 1);
      }
      AllReadBack(heap, vars, p + 1, rest, fuel);
    }
  }

  /** Every variable of the term has a cell. */
  predicate Covered(t: Term, vars: map<VarKey, nat>)
  {
    match t
    case Var(name) => Named(name) in vars
    case AnonVar(id) => Anon(id) in vars
    case Clause(_, args) => forall i :: 0 <= i < |args| ==> Covered(args[i], vars)
    case Cons(head, tail) => Covered(head, vars) && Covered(tail, vars)
    case PartialString(_, rest) => Covered(rest, vars)
    case _ => true
  }

  lemma {:induction false} RepCovers(heap: seq<Cell>, vars: map<VarKey, nat>, p: nat, t: Term)
    requires Rep(heap, vars, NoHoles, p, t)
    ensures Covered(t, vars)
    decreases t
  {
    if t.Clause? && t.args != [] {
      forall i | 0 <= i < |t.args| ensures Covered(t.args[i], vars) {
        RepCovers(heap, vars, heap[p].s + 1 + i, t.args[i]);
      }
    } else if t.Cons? {
      RepCovers(heap, vars, heap[p].l, t.head);
      RepCovers(heap, vars, heap[p].l + 1, t.tail);
    } else if t.PartialString? {
      RepCovers(heap, vars, TextLoc(heap, NoHoles, p).value + 1, t.rest);
    }
  }

  /** Writing a term and reading it back gives the term, whatever was in the heap before; two variables are read
      as the same cell exactly if they are the same variable. */
  method WriteAndRead(heap: seq<Cell>, term: Term) returns (result: Written, heap': seq<Cell>, ghost vars: map<VarKey,
                      nat>)
    requires GoodRoot(term)
    ensures result.ExceededMaxArity? <==> term.Clause? && |term.args| > MAX_ARITY
    ensures result.Written? ==>
              && heap <= heap' && result.heapLoc == |heap|
              && (forall fuel: nat :: fuel >= Need(term) ==>
                  Read(heap', result.heapLoc, fuel) == Some(Resolve(term, vars)))
              && Covered(term, vars) && (forall v, w :: v in vars && w in vars ==> (vars[v] == vars[w] <==> v == w))
  {
    hide Rep, Covered;
    var writer := new TermWriter(heap);
    result := writer.WriteTermToHeap(term);
    heap', vars := writer.heap, writer.vars;
    if result.Written? {
      RepCovers(heap', vars, result.heapLoc, term);
      forall fuel: nat | fuel >= Need(term) ensures Read(heap', result.heapLoc, fuel) == Some(Resolve(term, vars)) {
        ReadsBack(heap', vars, result.heapLoc, term, fuel);
      }
    }
  }
}
