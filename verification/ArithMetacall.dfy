/**
 Evaluating an expression without compiling it: a loop with an operand stack over the cells of the
 expression in postorder.
 */
module ArithMetacall {
  import opened Options
  import opened ArithTerms
  import opened ArithCompile

  /** The terms that variables are bound to. */
  type Store = seq<Option<Expr>>

  /** All bound variables of a term have a rank below `top`. */
  predicate Below(store: Store, rank: nat -> nat, t: Expr, top: nat)
  {
    match t
    case Var(u) => u < |store| && store[u].Some? ==> rank(u) < top
    case Op(_, args) => forall i :: 0 <= i < |args| ==> Below(store, rank, args[i], top)
    case List(head, tail) => Below(store, rank, head, top) && Below(store, rank, tail, top)
    case Text(rest) => Below(store, rank, rest, top)
    case _ => true
  }

  /** A variable is bound to a term over variables of lower rank, so that there are no cycles. */
  predicate Acyclic(store: Store, rank: nat -> nat, top: nat)
  {
    forall v: nat :: v < |store| && store[v].Some? ==> rank(v) < top && Below(store, rank, store[v].value, rank(v))
  }

  /** The variable is followed; `top` bounds the ranks of those that are. */
  predicate Bound(store: Store, rank: nat -> nat, top: nat, v: nat)
  {
    v < |store| && store[v].Some? && rank(v) < top
  }

  /** The cells of an expression in postorder, where bound variables are followed. A list has its head and tail, and a
      string what follows it, as children; the cell itself cannot be evaluated. */
  function HeapPost(store: Store, rank: nat -> nat, top: nat, t: Expr): seq<Item>
    decreases top, t
  {
    match t
    case Number(_) => [LitItem(t)]
    case Atom(_) => [LitItem(t)]
    case Var(v) => if Bound(store, rank, top, v) then HeapPost(store, rank, rank(v), store[v].value) else [VarItem(v)]
    case AnonVar => [ErrItem(Uninstantiated)]
    case Op(name, args) => HeapPostAll(store, rank, top, args) + [OpItem(false, name, |args|)]
    case List(head, tail) => HeapPost(store, rank, top, head)
        + (HeapPost(store, rank, top, tail) + [ErrItem(NoEvaluableCell)])
    case Text(rest) => HeapPost(store, rank, top, rest) + [ErrItem(NoEvaluableCell)]
  }

  function HeapPostAll(store: Store, rank: nat -> nat, top: nat, ts: seq<Expr>): seq<Item>
    decreases top, ts
  {
    if ts == [] then [] else HeapPost(store, rank, top, ts[0]) + HeapPostAll(store, rank, top, ts[1..])
  }

  // ----- what the loop computes -----

  /** Recursive evaluation that follows variables, and looks into lists and strings before it gives up on them. */
  function HeapEval(arith: Arith, store: Store, rank: nat -> nat, top: nat, t: Expr): Outcome
    decreases top, t
  {
    match t
    case Number(n) => Ok(n)
    case Atom(name) => if arith.constant(name).Some? then Ok(arith.constant(name).value) else Bad(NonEvaluable(name, 0))
    case Var(v) => if Bound(store, rank, top, v) then HeapEval(arith, store, rank, rank(v), store[v].value)
        else Bad(Uninstantiated)
    case AnonVar => Bad(Uninstantiated)
    case Op(name, args) =>
      (match HeapEvalAll(arith, store, rank, top, args)
       case Stopped(e) => Bad(e)
       case Values(ns) => Applied(arith, name, ns))
    case List(head, tail) =>
      (match HeapEval(arith, store, rank, top, head)
       case Bad(e) => Bad(e)
       case Ok(_) => match HeapEval(arith, store, rank, top, tail) case Bad(e) => Bad(e) case Ok(_) =>
           Bad(NoEvaluableCell))
    case Text(rest) =>
      (match HeapEval(arith, store, rank, top, rest) case Bad(e) => Bad(e) case Ok(_) => Bad(NoEvaluableCell))
  }

  function HeapEvalAll(arith: Arith, store: Store, rank: nat -> nat, top: nat, ts: seq<Expr>): (r: Values)
    ensures r.Values? ==> |r.ns| == |ts|
    decreases top, ts
  {
    if ts == [] then Values([])
    else match HeapEval(arith, store, rank, top, ts[0])
      case Bad(e) => Stopped(e)
      case Ok(n) =>
        match HeapEvalAll(arith, store, rank, top, ts[1..])
        case Stopped(e) => Stopped(e)
        case Values(ns) => Values([n] + ns)
  }

  /** Where there are no cycles, a term has the same value wherever it is reached from, and however variables are
      ranked. */
  lemma {:induction false} SameFromAnywhere(arith: Arith, store: Store, rank: nat -> nat, a: nat, other: nat -> nat,
                                            b: nat, top: nat, top': nat, t: Expr)
    requires Acyclic(store, rank, top) && Acyclic(store, other, top')
    requires Below(store, rank, t, a) && Below(store, other, t, b)
    ensures HeapEval(arith, store, rank, a, t) == HeapEval(arith, store, other, b, t)
    decreases a, t, 1
  {
    match t
    case Var(v) =>
      if v < |store| && store[v].Some? {
        SameFromAnywhere(arith, store, rank, rank(v), other, other(v), top, top', store[v].value);
      }
    case Op(_, args) => SameFromAnywhereAll(arith, store, rank, a, other, b, top, top', args);
    case List(head, tail) =>
      SameFromAnywhere(arith, store, rank, a, other, b, top, top', head);
      SameFromAnywhere(arith, store, rank, a, other, b, top, top', tail);
    case Text(rest) => SameFromAnywhere(arith, store, rank, a, other, b, top, top', rest);
    case _ =>
  }

  lemma {:induction false} SameFromAnywhereAll(arith: Arith, store: Store, rank: nat -> nat, a: nat,
                                               other: nat -> nat, b: nat,
                                               top: nat, top': nat, ts: seq<Expr>)
    requires Acyclic(store, rank, top) && Acyclic(store, other, top')
    requires forall i :: 0 <= i < |ts| ==> Below(store, rank, ts[i], a) && Below(store, other, ts[i], b)
    ensures HeapEvalAll(arith, store, rank, a, ts) == HeapEvalAll(arith, store, other, b, ts)
    decreases a, ts, 0
  {
    if ts != [] {
      SameFromAnywhere(arith, store, rank, a, other, b, top, top', ts[0]);
      SameFromAnywhereAll(arith, store, rank, a, other, b, top, top', ts[1..]);
    }
  }

  lemma {:induction false} StillBelow(store: Store, rank: nat -> nat, t: Expr, a: nat, b: nat)
    requires Below(store, rank, t, a) && a <= b
    ensures Below(store, rank, t, b)
  {
    match t
    case Op(_, args) =>
      forall i | 0 <= i < |args| ensures Below(store, rank, args[i], b) {
        StillBelow(store, rank, args[i], a, b);
      }
    case List(head, tail) =>
      StillBelow(store, rank, head, a, b);
      StillBelow(store, rank, tail, a, b);
    case Text(rest) => StillBelow(store, rank, rest, a, b);
    case _ =>
  }

  /** A variable has the value of what it is bound to. */
  lemma {:induction false} VariableFollowed(arith: Arith, store: Store, rank: nat -> nat, top: nat, v: nat)
    requires Acyclic(store, rank, top) && v < |store| && store[v].Some?
    ensures HeapEval(arith, store, rank, top, Var(v)) == HeapEval(arith, store, rank, top, store[v].value)
  {
    StillBelow(store, rank, store[v].value, rank(v), top);
    SameFromAnywhere(arith, store, rank, rank(v), rank, top, top, top, store[v].value);
  }

  /** One item of the loop: the new stack, or the error that ends it. */
  function MetaStep(arith: Arith, stack: seq<int>, item: Item): Values
  {
    match item
    case LitItem(lit) =>
      if lit.Number? then Values(stack + [lit.n])
      else if lit.Atom? && arith.constant(lit.name).Some? then Values(stack + [arith.constant(lit.name).value])
      else Stopped(NonEvaluable(if lit.Atom? then lit.name else DOT, 0))
    case VarItem(_) => Stopped(Uninstantiated)
    case ErrItem(e) => Stopped(e)
    case OpItem(_, name, arity) =>
      if arity > |stack| then Stopped(NonEvaluable(name, arity))
      else
        var left := |stack| - arity;
        match Applied(arith, name, stack[left..])
        case Bad(e) => Stopped(e)
        case Ok(n) => Values(stack[..left] + [n])
  }

  function MetaLoop(arith: Arith, stack: seq<int>, items: seq<Item>): Values
    decreases |items|
  {
    if items == [] then Values(stack)
    else match MetaStep(arith, stack, items[0])
      case Stopped(e) => Stopped(e)
      case Values(stack') => MetaLoop(arith, stack', items[1..])
  }

  lemma {:induction false} MetaFirst(arith: Arith, stack: seq<int>, item: Item, rest: seq<Item>)
    ensures MetaLoop(arith, stack, [item] + rest) ==
            match MetaStep(arith, stack, item) case Stopped(e) => Stopped(e) case Values(s) => MetaLoop(arith, s, rest)
  {
    assert ([item] + rest)[1..] == rest;
  }

  /** The operand stack receives the value of each expression, or the loop stops with its error. */
  lemma {:induction false} MetaEvaluates(arith: Arith, store: Store, rank: nat -> nat, top: nat, stack: seq<int>,
                                         t: Expr, rest: seq<Item>)
    ensures MetaLoop(arith, stack, HeapPost(store, rank, top, t) + rest) ==
            match HeapEval(arith, store, rank, top, t) case Bad(e) => Stopped(e) case Ok(n) =>
                MetaLoop(arith, stack + [n], rest)
    decreases top, t, 1
  {
    if t.Op? {
      OpEvaluates(arith, store, rank, top, stack, t, rest);
    } else if t.Var? && Bound(store, rank, top, t.v) {
      MetaEvaluates(arith, store, rank, rank(t.v), stack, store[t.v].value, rest);
    } else if t.List? {
      ListEvaluates(arith, store, rank, top, stack, t, rest);
    } else if t.Text? {
      hide MetaLoop;
      var item := ErrItem(NoEvaluableCell);
      assert (HeapPost(store, rank, top, t.rest) + [item]) + rest == HeapPost(store, rank, top, t.rest)
              + ([item] + rest);
      MetaEvaluates(arith, store, rank, top, stack, t.rest, [item] + rest);
      if HeapEval(arith, store, rank, top, t.rest).Ok? {
        MetaFirst(arith, stack + [HeapEval(arith, store, rank, top, t.rest).n], item, rest);
      }
    } else {
      MetaFirst(arith, stack, HeapPost(store, rank, top, t)[0], rest);
    }
  }

  lemma {:induction false} ListEvaluates(arith: Arith, store: Store, rank: nat -> nat, top: nat, stack: seq<int>,
                                         t: Expr, rest: seq<Item>)
    requires t.List?
    ensures MetaLoop(arith, stack, HeapPost(store, rank, top, t) + rest) ==
            match HeapEval(arith, store, rank, top, t) case Bad(e) => Stopped(e) case Ok(n) =>
                MetaLoop(arith, stack + [n], rest)
    decreases top, t, 0
  {
    hide MetaLoop;
    var item := ErrItem(NoEvaluableCell);
    var head, tail := HeapPost(store, rank, top, t.head), HeapPost(store, rank, top, t.tail);
    assert (head + (tail + [item])) + rest == head + (tail + ([item] + rest));
    MetaEvaluates(arith, store, rank, top, stack, t.head, tail + ([item] + rest));
    if HeapEval(arith, store, rank, top, t.head).Ok? {
      var stack1 := stack + [HeapEval(arith, store, rank, top, t.head).n];
      MetaEvaluates(arith, store, rank, top, stack1, t.tail, [item] + rest);
      if HeapEval(arith, store, rank, top, t.tail).Ok? {
        MetaFirst(arith, stack1 + [HeapEval(arith, store, rank, top, t.tail).n], item, rest);
      }
    }
  }

  lemma {:induction false} OpEvaluates(arith: Arith, store: Store, rank: nat -> nat, top: nat, stack: seq<int>,
                                       t: Expr, rest: seq<Item>)
    requires t.Op?
    ensures MetaLoop(arith, stack, HeapPost(store, rank, top, t) + rest) ==
            match HeapEval(arith, store, rank, top, t) case Bad(e) => Stopped(e) case Ok(n) =>
                MetaLoop(arith, stack + [n], rest)
    decreases top, t, 0
  {
    hide MetaLoop, Applied;
    var item := OpItem(false, t.name, |t.args|);
    assert (HeapPostAll(store, rank, top, t.args) + [item]) + rest == HeapPostAll(store, rank, top, t.args)
            + ([item] + rest);
    MetaEvaluatesAll(arith, store, rank, top, stack, t.args, [item] + rest);
    match HeapEvalAll(arith, store, rank, top, t.args) {
      case Stopped(e) =>
      case Values(ns) =>
        MetaFirst(arith, stack + ns, item, rest);
        assert (stack + ns)[|stack|..] == ns && (stack + ns)[..|stack|] == stack;
    }
  }

  lemma {:induction false} MetaEvaluatesAll(arith: Arith, store: Store, rank: nat -> nat, top: nat, stack: seq<int>,
                                            ts: seq<Expr>, rest: seq<Item>)
    ensures MetaLoop(arith, stack, HeapPostAll(store, rank, top, ts) + rest) ==
            match HeapEvalAll(arith, store, rank, top, ts) case Stopped(e) => Stopped(e) case Values(ns) =>
                MetaLoop(arith, stack + ns, rest)
    decreases top, ts
  {
    hide MetaLoop, HeapEval, HeapPost;
    if ts == [] {
      assert [] + rest == rest && stack + [] == stack;
    } else {
      var first, others := HeapPost(store, rank, top, ts[0]), HeapPostAll(store, rank, top, ts[1..]);
      assert (first + others) + rest == first + (others + rest);
      MetaEvaluates(arith, store, rank, top, stack, ts[0], others + rest);
      match HeapEval(arith, store, rank, top, ts[0]) {
        case Bad(e) =>
        case Ok(n) =>
          MetaEvaluatesAll(arith, store, rank, top, stack + [n], ts[1..], rest);
          match HeapEvalAll(arith, store, rank, top, ts[1..]) {
            case Stopped(e) =>
            case Values(ns) => assert (stack + [n]) + ns == stack + ([n] + ns);
          }
      }
    }
  }

  /** arith_eval_by_metacall: the operand-stack loop evaluates the expression, following variables and looking into
      lists and strings. */
  method ArithEvalByMetacall(arith: Arith, store: Store, rank: nat -> nat, top: nat, t: Expr) returns (r: Outcome)
    requires Acyclic(store, rank, top)
    ensures r == HeapEval(arith, store, rank, top, t)
  {
    hide MetaLoop, MetaStep, HeapPost, HeapEval;
    var interms: seq<int> := [];
    var items := HeapPost(store, rank, top, t);
    ghost var end := MetaLoop(arith, [], items);
    MetaEvaluates(arith, store, rank, top, [], t, []);
    assert items + [] == items;
    MetaNothing(arith);
    while items != []
      invariant MetaLoop(arith, interms, items) == end
      decreases |items|
    {
      var item := items[0];
      assert items == [item] + items[1..];
      MetaFirst(arith, interms, item, items[1..]);
      var step := MetaStep(arith, interms, item);
      if step.Stopped? {
        return Bad(step.e);
      }
      interms, items := step.ns, items[1..];
    }
    MetaDone(arith, interms, HeapEval(arith, store, rank, top, t));
    r := Ok(interms[|interms| - 1]);
  }

  lemma {:induction false} MetaNothing(arith: Arith)
    ensures forall stack :: MetaLoop(arith, stack, []) == Values(stack)
  {
  }

  lemma {:induction false} MetaDone(arith: Arith, stack: seq<int>, r: Outcome)
    requires MetaLoop(arith, stack, []) == match r case Bad(e) => Stopped(e) case Ok(n) => MetaLoop(arith, [] + [n], [])
    ensures stack != [] && r == Ok(stack[|stack| - 1])
  {
  }

  // ----- compared with recursive evaluation -----

  /** Recursive evaluation reads a variable as compiled code does, by running the loop on it. */
  function Reading(arith: Arith, store: Store, rank: nat -> nat, top: nat): Arith
  {
    arith.(metacall := (v: nat) => HeapEval(arith, store, rank, top, Var(v)))
  }

  function Cells(v: nat): Cell
  {
    Ref(v)
  }

  /** The list or string at which recursive evaluation stops, if it stops at one. */
  function FirstList(arith: Arith, store: Store, rank: nat -> nat, top: nat, t: Expr): (r: Option<Expr>)
    ensures r.Some? ==> IsList(r.value)
    decreases t
  {
    if IsList(t) then Some(t) else if t.Op? then FirstListOf(arith, store, rank, top, t.args) else None
  }

  function FirstListOf(arith: Arith, store: Store, rank: nat -> nat, top: nat, ts: seq<Expr>): (r: Option<Expr>)
    ensures r.Some? ==> IsList(r.value)
    decreases ts
  {
    if ts == [] then None
    else if FirstList(arith, store, rank, top, ts[0]).Some? then FirstList(arith, store, rank, top, ts[0])
    else if Eval(Reading(arith, store, rank, top), Cells, ts[0]).Bad? then None
    else FirstListOf(arith, store, rank, top, ts[1..])
  }

  /** A list or string never evaluates. */
  lemma {:induction false} ListsFail(arith: Arith, store: Store, rank: nat -> nat, top: nat, t: Expr)
    requires IsList(t)
    ensures HeapEval(arith, store, rank, top, t).Bad?
            && Eval(Reading(arith, store, rank, top), Cells, t) == Bad(NonEvaluable(DOT, 2))
  {
  }

  /** How the two evaluations are related: they agree, unless the recursive one stops at a list or string; then
      the loop reports what it finds there. */
  predicate Related(arith: Arith, store: Store, rank: nat -> nat, top: nat, list: Option<Expr>, looped: Outcome,
                    evaluated: Outcome)
  {
    match list
    case None => looped == evaluated
    case Some(l) =>
      evaluated == Bad(NonEvaluable(DOT, 2)) && looped == HeapEval(arith, store, rank, top, l) && looped.Bad?
  }

  predicate RelatedAll(arith: Arith, store: Store, rank: nat -> nat, top: nat, list: Option<Expr>, looped: Values,
                       evaluated: Values)
  {
    match list
    case None => looped == evaluated
    case Some(l) =>
      evaluated == Stopped(NonEvaluable(DOT, 2)) && HeapEval(arith, store, rank, top, l).Bad?
          && looped == Stopped(HeapEval(arith, store, rank, top, l).e)
  }

  lemma {:induction false} LoopRelated(arith: Arith, store: Store, rank: nat -> nat, top: nat, t: Expr)
    ensures Related(arith, store, rank, top, FirstList(arith, store, rank, top, t),
            HeapEval(arith, store, rank, top, t), Eval(Reading(arith, store, rank, top), Cells, t))
    decreases t, 1
  {
    if IsList(t) {
      ListsFail(arith, store, rank, top, t);
    } else if t.Op? {
      LoopRelatedAll(arith, store, rank, top, t.args);
    }
  }

  lemma {:induction false} LoopRelatedAll(arith: Arith, store: Store, rank: nat -> nat, top: nat, ts: seq<Expr>)
    ensures RelatedAll(arith, store, rank, top, FirstListOf(arith, store, rank, top, ts),
            HeapEvalAll(arith, store, rank, top, ts), EvalAll(Reading(arith, store, rank, top), Cells, ts))
    decreases ts
  {
    hide HeapEval, Eval, FirstList;
    if ts != [] {
      LoopRelated(arith, store, rank, top, ts[0]);
      LoopRelatedAll(arith, store, rank, top, ts[1..]);
    }
  }

  /** The loop and recursive evaluation succeed together and with the same value. They have the same outcome if and
      only if evaluation does not stop at a list or string, or the loop reports './2' from inside it. */
  lemma {:induction false} LoopIsEval(arith: Arith, store: Store, rank: nat -> nat, top: nat, t: Expr)
    ensures HeapEval(arith, store, rank, top, t).Ok? <==> Eval(Reading(arith, store, rank, top), Cells, t).Ok?
    ensures Eval(Reading(arith, store, rank, top), Cells, t).Ok? ==>
            HeapEval(arith, store, rank, top, t) == Eval(Reading(arith, store, rank, top), Cells, t)
    ensures HeapEval(arith, store, rank, top, t) == Eval(Reading(arith, store, rank, top), Cells, t) <==>
            var list := FirstList(arith, store, rank, top, t);
            list.None? || HeapEval(arith, store, rank, top, list.value) == Bad(NonEvaluable(DOT, 2))
  {
    hide HeapEval, Eval, FirstList;
    LoopRelated(arith, store, rank, top, t);
  }

  /** Expressions without lists and strings. */
  predicate ListFree(t: Expr)
  {
    !IsList(t) && (t.Op? ==> forall i :: 0 <= i < |t.args| ==> ListFree(t.args[i]))
  }

  lemma {:induction false} ListFreeLoopIsEval(arith: Arith, store: Store, rank: nat -> nat, top: nat, t: Expr)
    requires ListFree(t)
    ensures HeapEval(arith, store, rank, top, t) == Eval(Reading(arith, store, rank, top), Cells, t)
  {
    NoListReached(arith, store, rank, top, t);
    LoopIsEval(arith, store, rank, top, t);
  }

  lemma {:induction false} NoListReached(arith: Arith, store: Store, rank: nat -> nat, top: nat, t: Expr)
    requires ListFree(t)
    ensures FirstList(arith, store, rank, top, t).None?
    decreases t, 1
  {
    if t.Op? {
      NoListReachedIn(arith, store, rank, top, t.args);
    }
  }

  lemma {:induction false} NoListReachedIn(arith: Arith, store: Store, rank: nat -> nat, top: nat, ts: seq<Expr>)
    requires forall i :: 0 <= i < |ts| ==> ListFree(ts[i])
    ensures FirstListOf(arith, store, rank, top, ts).None?
    decreases ts, 0
  {
    if ts != [] {
      NoListReached(arith, store, rank, top, ts[0]);
      NoListReachedIn(arith, store, rank, top, ts[1..]);
    }
  }

  /** The list [1]: the loop reports the empty list at its end, where compiled code and recursive evaluation
      report a list. */
  lemma {:induction false} ListOfOne(arith: Arith, store: Store, rank: nat -> nat, top: nat, nil: nat)
    requires arith.constant(nil).None? && nil != DOT
    ensures var t := List(Number(1), Atom(nil));
            HeapEval(arith, store, rank, top, t) == Bad(NonEvaluable(nil, 0))
                && Eval(Reading(arith, store, rank, top), Cells, t) == Bad(NonEvaluable(DOT, 2))
  {
    assert HeapEval(arith, store, rank, top, Number(1)) == Ok(1);
    assert HeapEval(arith, store, rank, top, Atom(nil)) == Bad(NonEvaluable(nil, 0));
  }

  /** A list of numbers that does not end in a list: its cell is reported. */
  lemma {:induction false} ImproperList(arith: Arith, store: Store, rank: nat -> nat, top: nat)
    ensures HeapEval(arith, store, rank, top, List(Number(1), Number(2))) == Bad(NoEvaluableCell)
  {
    assert HeapEval(arith, store, rank, top, Number(1)) == Ok(1)
            && HeapEval(arith, store, rank, top, Number(2)) == Ok(2);
  }
}
