/**
 The heap walked by the eager preorder iterator, and what one turn of its loop does.
 */
module EagerSteps {
  import opened Options

  /** What a cell holds. A partial string location is represented by the position of its tail. */
  datatype Content =
    | Var(h: nat)
    | AttrVar(h: nat)
    | Str(s: nat)
    | Lis(l: nat)
    | PStrLoc(tail: nat)
    | Functor(name: nat, arity: nat)
    | Constant(id: nat)

  datatype Cell = Cell(c: Content, mark: bool)

  predicate IsVar(c: Content)
  {
    c.Var? || c.AttrVar?
  }

  // ----- the cells a value points to -----

  function Lo(c: Content): nat
  {
    match c
    case Str(s) => s + 1
    case Lis(l) => l
    case Var(h) => h
    case AttrVar(h) => h
    case PStrLoc(tail) => tail
    case _ => 0
  }

  function Hi(heap: seq<Cell>, c: Content): nat
  {
    match c
    case Str(s) => if s < |heap| && heap[s].c.Functor? then s + 1 + heap[s].c.arity else 0
    case Lis(l) => l + 2
    case Var(h) => h + 1
    case AttrVar(h) => h + 1
    case PStrLoc(tail) => tail + 1
    case _ => 0
  }

  /** A value points to the cells of one interval. */
  predicate Points(heap: seq<Cell>, c: Content, i: nat)
  {
    Lo(c) <= i < Hi(heap, c)
  }

  /** The pointers of a value stay inside the heap, and a structure points to a functor. */
  predicate InBounds(heap: seq<Cell>, c: Content)
  {
    Hi(heap, c) <= |heap| && (c.Str? ==> c.s < |heap| && heap[c.s].c.Functor?)
  }

  predicate GoodHeap(heap: seq<Cell>)
  {
    forall i :: 0 <= i < |heap| ==> InBounds(heap, heap[i].c)
  }

  /** An unbound variable: a variable cell that points to itself. */
  predicate Unbound(heap: seq<Cell>, i: nat)
  {
    i < |heap| && IsVar(heap[i].c) && heap[i].c.h == i
  }

  /** Two states of the same heap: only mark bits differ. */
  predicate SameContents(heap: seq<Cell>, heap': seq<Cell>)
  {
    |heap'| == |heap| && forall i :: 0 <= i < |heap| ==> heap'[i].c == heap[i].c
  }

  lemma {:induction false} SameBounds(heap: seq<Cell>, heap': seq<Cell>, c: Content)
    requires SameContents(heap, heap')
    ensures InBounds(heap', c) == InBounds(heap, c) && Hi(heap', c) == Hi(heap, c)
  {
  }

  // ----- one turn of the loop -----

  datatype St = St(heap: seq<Cell>, stack: seq<Cell>)

  function SetMark(heap: seq<Cell>, i: nat, phase: bool): seq<Cell>
    requires i < |heap|
  {
    heap[i := heap[i].(mark := phase)]
  }

  function Push(st: St, i: nat, phase: bool): St
    requires i < |st.heap|
  {
    St(SetMark(st.heap, i, phase), st.stack + [st.heap[i]])
  }

  function Touch(st: St, i: nat, phase: bool): (r: St)
    requires i < |st.heap|
    ensures |r.heap| == |st.heap|
  {
    if st.heap[i].mark != phase then Push(st, i, phase) else st
  }

  /** Touch the cells from `hi - 1` down to `lo`. */
  function TouchDown(st: St, lo: nat, hi: nat, phase: bool): (r: St)
    requires hi <= |st.heap|
    ensures |r.heap| == |st.heap|
    decreases hi
  {
    if hi <= lo then st else TouchDown(Touch(st, hi - 1, phase), lo, hi - 1, phase)
  }

  /** The value is skipped or yielded as it is: it was dealt with before. */
  predicate Seen(heap: seq<Cell>, v: Cell, phase: bool)
  {
    v.mark == phase && (!IsVar(v.c) || Unbound(heap, v.c.h))
  }

  /** A variable leads on to what it is bound to. */
  predicate LeadsOn(heap: seq<Cell>, h: nat)
    requires h < |heap|
  {
    heap[h].mark || !Unbound(heap, h)
  }

  function Expanded(st: St, c: Content, phase: bool): (r: St)
    requires InBounds(st.heap, c)
  {
    match c
    case Var(h) => if LeadsOn(st.heap, h) then Push(st, h, phase) else st.(heap := SetMark(st.heap, h, phase))
    case AttrVar(h) => if LeadsOn(st.heap, h) then Push(st, h, phase) else st.(heap := SetMark(st.heap, h, phase))
    case PStrLoc(tail) => Push(st, tail, phase)
    case _ => TouchDown(st, Lo(c), Hi(st.heap, c), phase)
  }

  /** What a turn yields; None when the loop goes on. */
  function Yielded(heap: seq<Cell>, v: Cell, phase: bool): Option<Cell>
    requires InBounds(heap, v.c)
  {
    if Seen(heap, v, phase) then (if IsVar(v.c) then Some(v.(mark := false)) else None)
    else if IsVar(v.c) && LeadsOn(heap, v.c.h) then None
    else Some(v)
  }

  function Popped(st: St): St
    requires st.stack != []
  {
    st.(stack := st.stack[..|st.stack| - 1])
  }

  function Top(st: St): Cell
    requires st.stack != []
  {
    st.stack[|st.stack| - 1]
  }

  function Turn(st: St, phase: bool): St
    requires st.stack != [] && InBounds(st.heap, Top(st).c)
  {
    if Seen(st.heap, Top(st), phase) then Popped(st) else Expanded(Popped(st), Top(st).c, phase)
  }

  // ----- the effect of a turn -----

  /** `v` is what one of the cells from `lo` to `hi` held. */
  predicate From(heap: seq<Cell>, lo: nat, hi: nat, phase: bool, v: Cell, i: nat)
  {
    lo <= i < hi && i < |heap| && v.c == heap[i].c && (v.mark == phase || v == heap[i])
  }

  predicate MarksSet(heap: seq<Cell>, heap': seq<Cell>, lo: nat, hi: nat, phase: bool)
  {
    && SameContents(heap, heap')
    && forall i :: 0 <= i < |heap| ==> heap'[i].mark == if lo <= i < hi then phase else heap[i].mark
  }

  /** The cells from `lo` to `hi` get the mark of the phase. Those that did not have it are pushed, but for
      a `lone` unbound variable that is yielded at once. */
  ghost predicate Effect(st: St, st': St, lo: nat, hi: nat, phase: bool, lone: bool)
  {
    && MarksSet(st.heap, st'.heap, lo, hi, phase)
    && (forall v :: v in st.stack ==> v in st'.stack)
    && (forall i :: lo <= i < hi && i < |st.heap| && st.heap[i].mark != phase ==>
          st.heap[i] in st'.stack || (lone && Unbound(st.heap, i)))
    && (forall v :: v in st'.stack ==> v in st.stack || exists i: nat :: From(st.heap, lo, hi, phase, v, i))
  }

  lemma {:induction false} PushEffect(st: St, i: nat, phase: bool)
    requires i < |st.heap|
    ensures Effect(st, Push(st, i, phase), i, i + 1, phase, false)
  {
    assert From(st.heap, i, i + 1, phase, st.heap[i], i);
  }

  lemma {:induction false} TouchEffect(st: St, i: nat, phase: bool)
    requires i < |st.heap|
    ensures Effect(st, Touch(st, i, phase), i, i + 1, phase, false)
  {
    if st.heap[i].mark != phase {
      PushEffect(st, i, phase);
    }
  }

  lemma {:induction false} TouchDownEffect(st: St, lo: nat, hi: nat, phase: bool)
    requires hi <= |st.heap|
    ensures Effect(st, TouchDown(st, lo, hi, phase), lo, hi, phase, false)
    decreases hi
  {
    if lo < hi {
      hide Effect, Touch, TouchDown;
      var mid := Touch(st, hi - 1, phase);
      TouchEffect(st, hi - 1, phase);
      TouchDownEffect(mid, lo, hi - 1, phase);
      EffectJoins(st, mid, TouchDown(mid, lo, hi - 1, phase), lo, hi, phase);
      TouchDownStep(st, lo, hi, phase);
    }
  }

  lemma {:induction false} TouchDownStep(st: St, lo: nat, hi: nat, phase: bool)
    requires lo < hi <= |st.heap|
    ensures TouchDown(st, lo, hi, phase) == TouchDown(Touch(st, hi - 1, phase), lo, hi - 1, phase)
  {
  }

  lemma {:induction false} EffectJoins(st: St, mid: St, end: St, lo: nat, hi: nat, phase: bool)
    requires lo < hi && Effect(st, mid, hi - 1, hi, phase, false) && Effect(mid, end, lo, hi - 1, phase, false)
    ensures Effect(st, end, lo, hi, phase, false)
  {
    hide Unbound;
    forall i | lo <= i < hi && i < |st.heap| && st.heap[i].mark != phase
      ensures st.heap[i] in end.stack
    {
      if i < hi - 1 {
        assert mid.heap[i] == st.heap[i];
      }
    }
    forall v | v in end.stack ensures v in st.stack || exists i: nat :: From(st.heap, lo, hi, phase, v, i) {
      if v !in mid.stack {
        var i: nat :| From(mid.heap, lo, hi - 1, phase, v, i);
        assert From(st.heap, lo, hi, phase, v, i);
      } else if v !in st.stack {
        var i: nat :| From(st.heap, hi - 1, hi, phase, v, i);
        assert From(st.heap, lo, hi, phase, v, i);
      }
    }
  }

  lemma {:induction false} SameUnbound(heap: seq<Cell>, heap': seq<Cell>, i: nat)
    requires SameContents(heap, heap')
    ensures Unbound(heap', i) == Unbound(heap, i)
  {
  }

  /** A variable that is yielded at once: the cell it points to is unbound and not marked. */
  predicate Lone(heap: seq<Cell>, c: Content)
    requires InBounds(heap, c)
  {
    IsVar(c) && !LeadsOn(heap, c.h)
  }

  /** Expanding a value deals with exactly the cells it points to. */
  lemma {:induction false} ExpandedEffect(st: St, c: Content, phase: bool)
    requires InBounds(st.heap, c)
    ensures Effect(st, Expanded(st, c, phase), Lo(c), Hi(st.heap, c), phase, Lone(st.heap, c))
    ensures IsVar(c) && !Lone(st.heap, c) ==> st.heap[c.h] in Expanded(st, c, phase).stack
  {
    hide TouchDown;
    if IsVar(c) {
      if LeadsOn(st.heap, c.h) {
        PushEffect(st, c.h, phase);
      }
    } else if c.PStrLoc? {
      PushEffect(st, c.tail, phase);
    } else {
      TouchDownEffect(st, Lo(c), Hi(st.heap, c), phase);
    }
  }

  // ----- termination -----

  /** Variable chains are acyclic: along a chain the rank goes down. */
  ghost predicate Acyclic(heap: seq<Cell>, rank: seq<nat>)
  {
    && |rank| == |heap|
    && forall i :: 0 <= i < |heap| && IsVar(heap[i].c) && heap[i].c.h != i && heap[i].c.h < |heap| ==>
        rank[heap[i].c.h] < rank[i]
  }

  ghost predicate Bounded(rank: seq<nat>, bound: nat)
  {
    forall i :: 0 <= i < |rank| ==> rank[i] < bound
  }

  /** The cells still to be dealt with in a phase. */
  ghost function Unflipped(heap: seq<Cell>, phase: bool): set<nat>
  {
    set i: nat | i < |heap| && heap[i].mark != phase
  }

  ghost function Weight(v: Cell, phase: bool, rank: seq<nat>, bound: nat): nat
  {
    if IsVar(v.c) then (if v.c.h < |rank| then 2 * rank[v.c.h] else 0) + (if v.mark == phase then 2 else 3)
    else if v.mark == phase then 1
    else 2 * bound + 10
  }

  ghost function Load(stack: seq<Cell>, phase: bool, rank: seq<nat>, bound: nat): nat
  {
    if stack == [] then 0
    else Load(stack[..|stack| - 1], phase, rank, bound) + Weight(stack[|stack| - 1], phase, rank, bound)
  }

  lemma {:induction false} LoadPush(stack: seq<Cell>, v: Cell, phase: bool, rank: seq<nat>, bound: nat)
    ensures Load(stack + [v], phase, rank, bound) == Load(stack, phase, rank, bound) + Weight(v, phase, rank, bound)
  {
    assert (stack + [v])[..|stack|] == stack;
  }

  lemma {:induction false} NothingTouched(st: St, lo: nat, hi: nat, phase: bool)
    requires hi <= |st.heap| && forall i :: lo <= i < hi ==> st.heap[i].mark == phase
    ensures TouchDown(st, lo, hi, phase) == st
    decreases hi
  {
    if lo < hi {
      NothingTouched(st, lo, hi - 1, phase);
    }
  }

  /** A turn deals with a new cell, or makes the stack lighter. */
  lemma {:induction false} TurnProgress(st: St, phase: bool, rank: seq<nat>, bound: nat)
    requires st.stack != [] && InBounds(st.heap, Top(st).c) && GoodHeap(st.heap)
    requires Acyclic(st.heap, rank) && Bounded(rank, bound)
    ensures var st' := Turn(st, phase);
            && Unflipped(st'.heap, phase) <= Unflipped(st.heap, phase)
            && (Unflipped(st'.heap, phase) == Unflipped(st.heap, phase) ==>
                  Load(st'.stack, phase, rank, bound) < Load(st.stack, phase, rank, bound))
  {
    hide TouchDown, Effect;
    var v, mid := Top(st), Popped(st);
    assert Load(st.stack, phase, rank, bound) == Load(mid.stack, phase, rank, bound) + Weight(v, phase, rank, bound);
    if !Seen(st.heap, v, phase) {
      FlipShrinks(mid, v.c, phase);
      if Unflipped(Turn(st, phase).heap, phase) == Unflipped(st.heap, phase) {
        NothingFlipped(mid, v, phase, rank, bound);
      }
    }
  }

  lemma {:induction false} FlipShrinks(st: St, c: Content, phase: bool)
    requires InBounds(st.heap, c)
    ensures var st' := Expanded(st, c, phase);
            && Unflipped(st'.heap, phase) <= Unflipped(st.heap, phase)
            && (Unflipped(st'.heap, phase) == Unflipped(st.heap, phase) ==>
                  forall i: nat :: Points(st.heap, c, i) ==> st.heap[i].mark == phase)
  {
    hide Expanded;
    ExpandedEffect(st, c, phase);
    var st' := Expanded(st, c, phase);
    if Unflipped(st'.heap, phase) == Unflipped(st.heap, phase) {
      forall i: nat | Points(st.heap, c, i) ensures st.heap[i].mark == phase {
        assert i !in Unflipped(st'.heap, phase);
      }
    }
  }

  lemma {:induction false} NothingFlipped(st: St, v: Cell, phase: bool, rank: seq<nat>, bound: nat)
    requires InBounds(st.heap, v.c) && GoodHeap(st.heap) && Acyclic(st.heap, rank) && Bounded(rank, bound)
            && !Seen(st.heap, v, phase)
    requires forall i: nat :: Points(st.heap, v.c, i) ==> st.heap[i].mark == phase
    ensures Load(Expanded(st, v.c, phase).stack, phase, rank, bound) < Load(st.stack, phase, rank, bound)
            + Weight(v, phase, rank, bound)
  {
    hide TouchDown, Load;
    if IsVar(v.c) || v.c.PStrLoc? {
      var i := Lo(v.c);
      assert Points(st.heap, v.c, i);
      LoadPush(st.stack, st.heap[i], phase, rank, bound);
      assert InBounds(st.heap, st.heap[i].c);
    } else {
      NothingTouched(st, Lo(v.c), Hi(st.heap, v.c), phase);
    }
  }
}
