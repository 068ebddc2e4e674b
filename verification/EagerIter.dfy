/**
 The eager preorder iterator: it marks what it has seen, yields every unbound variable of a term,
 cyclic or not, and leaves the heap as it found it.
 */
module EagerIter {
  import opened Options
  import opened EagerSteps
  import opened EagerOrder

  // ----- reachability -----

  /** A way from a value to a cell, by its cells. */
  ghost predicate Leads(heap: seq<Cell>, c: Content, path: seq<nat>)
    decreases |path|
  {
    && path != [] && path[0] < |heap| && Points(heap, c, path[0])
    && (|path| > 1 ==> Leads(heap, heap[path[0]].c, path[1..]))
  }

  ghost predicate Reachable(heap: seq<Cell>, c: Content, i: nat)
  {
    exists path :: Leads(heap, c, path) && path[|path| - 1] == i
  }

  // ----- marking -----

  /** An unmarked value with this content waits on the stack to be expanded. */
  ghost predicate Waiting(stack: seq<Cell>, c: Content)
  {
    Cell(c, false) in stack
  }

  /** A value is dealt with: it waits on the stack, or everything it points to is marked. */
  ghost predicate Dealt(heap: seq<Cell>, stack: seq<Cell>, c: Content)
  {
    Waiting(stack, c) || forall i: nat :: i < |heap| && Points(heap, c, i) ==> heap[i].mark
  }

  /** A value that leads to variable `i` waits on the stack. */
  ghost predicate VarWaiting(stack: seq<Cell>, i: nat)
  {
    exists v :: v in stack && IsVar(v.c) && v.c.h == i
  }

  /** The value is the start, or is held by a marked cell. */
  ghost predicate Known(heap: seq<Cell>, start: Content, c: Content)
  {
    c == start || exists i :: 0 <= i < |heap| && heap[i].mark && heap[i].c == c
  }

  predicate Parent(heap: seq<Cell>, ages: seq<nat>, m: nat, i: nat)
  {
    m < |heap| && m < |ages| && i < |ages| && ages[m] < ages[i] && Points(heap, heap[m].c, i)
  }

  /** Every marked cell is pointed to by the start or by a cell marked before it. */
  ghost predicate Aged(heap: seq<Cell>, start: Content, ages: seq<nat>, clock: nat, i: nat)
  {
    && i < |ages| && ages[i] < clock
    && (Points(heap, start, i) || exists m: nat :: Parent(heap, ages, m, i) && heap[m].mark)
  }

  ghost predicate MarkInv(st: St, start: Content, ages: seq<nat>, clock: nat, yielded: set<nat>)
  {
    && |ages| == |st.heap|
    && (forall v :: v in st.stack ==> Known(st.heap, start, v.c))
    && (forall i :: 0 <= i < |st.heap| && st.heap[i].mark ==> Aged(st.heap, start, ages, clock, i))
    && Dealt(st.heap, st.stack, start)
    && (forall i :: 0 <= i < |st.heap| && st.heap[i].mark ==> Dealt(st.heap, st.stack, st.heap[i].c))
    && (forall i :: 0 <= i < |st.heap| && st.heap[i].mark && Unbound(st.heap, i) ==>
        i in yielded || VarWaiting(st.stack, i))
  }

  /** The address a turn yields, if it yields a variable. */
  function YieldedVars(out: Option<Cell>): set<nat>
  {
    if out.Some? && IsVar(out.value.c) then {out.value.c.h} else {}
  }

  function NewAges(heap: seq<Cell>, ages: seq<nat>, clock: nat): (r: seq<nat>)
    requires |ages| == |heap|
    ensures |r| == |heap| && forall i :: 0 <= i < |heap| ==> r[i] == if heap[i].mark then ages[i] else clock
  {
    seq(|heap|, i requires 0 <= i < |heap| => if heap[i].mark then ages[i] else clock)
  }

  /** A value that was seen before needs no more than to be dropped, or yielded. */
  lemma {:induction false} SeenKeeps(st: St, start: Content, ages: seq<nat>, clock: nat, yielded: set<nat>)
    requires MarkInv(st, start, ages, clock, yielded) && st.stack != []
    requires InBounds(st.heap, Top(st).c) && Seen(st.heap, Top(st), true)
    ensures MarkInv(Popped(st), start, ages, clock, yielded + YieldedVars(Yielded(st.heap, Top(st), true)))
  {
    hide Aged, Known;
    var v, stack' := Top(st), Popped(st).stack;
    assert st.stack == stack' + [v];
    forall c | Dealt(st.heap, st.stack, c) ensures Dealt(st.heap, stack', c) {
      assert Cell(c, false) in st.stack ==> Cell(c, false) in stack';
    }
    forall i | 0 <= i < |st.heap| && st.heap[i].mark && Unbound(st.heap, i) && i !in yielded
      ensures i in YieldedVars(Yielded(st.heap, v, true)) || VarWaiting(stack', i)
    {
      var w :| w in st.stack && IsVar(w.c) && w.c.h == i;
      assert w in stack' || w == v;
    }
  }

  lemma {:induction false} KnownKept(heap: seq<Cell>, heap': seq<Cell>, start: Content, c: Content)
    requires SameContents(heap, heap') && Known(heap, start, c)
    requires forall i :: 0 <= i < |heap| && heap[i].mark ==> heap'[i].mark
    ensures Known(heap', start, c)
  {
    if c != start {
      var i :| 0 <= i < |heap| && heap[i].mark && heap[i].c == c;
      assert heap'[i].mark && heap'[i].c == c;
    }
  }

  lemma {:induction false} MarksGrow(heap: seq<Cell>, heap': seq<Cell>, lo: nat, hi: nat)
    requires MarksSet(heap, heap', lo, hi, true)
    ensures forall i :: 0 <= i < |heap| && heap[i].mark ==> heap'[i].mark
  {
  }

  /** Everything on the stack stays known. */
  lemma {:induction false} StackKnown(st: St, st': St, start: Content, c: Content)
    requires InBounds(st.heap, c) && Effect(st, st', Lo(c), Hi(st.heap, c), true, Lone(st.heap, c))
    requires forall v :: v in st.stack ==> Known(st.heap, start, v.c)
    ensures forall v :: v in st'.stack ==> Known(st'.heap, start, v.c)
  {
    MarksGrow(st.heap, st'.heap, Lo(c), Hi(st.heap, c));
    forall v | v in st'.stack ensures Known(st'.heap, start, v.c) {
      if v in st.stack {
        KnownKept(st.heap, st'.heap, start, v.c);
      } else {
        var i: nat :| From(st.heap, Lo(c), Hi(st.heap, c), true, v, i);
        assert st'.heap[i].mark && st'.heap[i].c == v.c;
      }
    }
  }

  /** Marked cells keep their parents, and newly marked ones have the expanded value's cell. */
  lemma {:induction false} AgesKept(heap: seq<Cell>, heap': seq<Cell>, start: Content, ages: seq<nat>, clock: nat,
                                    c: Content, i: nat)
    requires InBounds(heap, c) && MarksSet(heap, heap', Lo(c), Hi(heap, c), true) && |ages| == |heap|
    requires forall k :: 0 <= k < |heap| && heap[k].mark ==> Aged(heap, start, ages, clock, k)
    requires Known(heap, start, c) && i < |heap| && heap'[i].mark
    ensures Aged(heap', start, NewAges(heap, ages, clock), clock + 1, i)
  {
    hide Points, InBounds, Aged, Known, Lo, Hi;
    if heap[i].mark {
      OldAge(heap, heap', start, ages, clock, i);
    } else {
      NewAge(heap, heap', start, ages, clock, c, i);
    }
  }

  lemma {:induction false} OldAge(heap: seq<Cell>, heap': seq<Cell>, start: Content, ages: seq<nat>, clock: nat, i: nat)
    requires SameContents(heap, heap') && |ages| == |heap| && i < |heap| && heap[i].mark
    requires forall k :: 0 <= k < |heap| && heap[k].mark ==> Aged(heap, start, ages, clock, k) && heap'[k].mark
    ensures Aged(heap', start, NewAges(heap, ages, clock), clock + 1, i)
  {
    hide InBounds, Lo, Hi;
    SameBounds(heap, heap', start);
    assert Aged(heap, start, ages, clock, i);
    if !Points(heap, start, i) {
      var m: nat :| Parent(heap, ages, m, i) && heap[m].mark;
      SameBounds(heap, heap', heap[m].c);
      assert Parent(heap', NewAges(heap, ages, clock), m, i) && heap'[m].mark;
    }
  }

  lemma {:induction false} NewAge(heap: seq<Cell>, heap': seq<Cell>, start: Content, ages: seq<nat>, clock: nat,
                                  c: Content, i: nat)
    requires InBounds(heap, c) && MarksSet(heap, heap', Lo(c), Hi(heap, c), true) && |ages| == |heap|
    requires forall k :: 0 <= k < |heap| && heap[k].mark ==> Aged(heap, start, ages, clock, k)
    requires Known(heap, start, c) && i < |heap| && heap'[i].mark && !heap[i].mark
    ensures Aged(heap', start, NewAges(heap, ages, clock), clock + 1, i)
  {
    hide InBounds, Lo, Hi;
    SameBounds(heap, heap', c);
    assert Points(heap, c, i);
    if c != start {
      var m: nat :| 0 <= m < |heap| && heap[m].mark && heap[m].c == c;
      assert Aged(heap, start, ages, clock, m);
      assert Parent(heap', NewAges(heap, ages, clock), m, i) && heap'[m].mark;
    }
  }

  lemma {:induction false} DealtKept(st: St, v: Cell, st': St, c: Content)
    requires InBounds(st.heap, v.c) && Effect(st, st', Lo(v.c), Hi(st.heap, v.c), true, Lone(st.heap, v.c))
    requires Dealt(st.heap, st.stack + [v], c)
    ensures Dealt(st'.heap, st'.stack, c)
  {
    SameBounds(st.heap, st'.heap, c);
    if Waiting(st.stack + [v], c) && Cell(c, false) !in st.stack {
      assert c == v.c;
    }
  }

  /** A newly marked cell waits to be expanded; an unbound variable has nothing more to mark. */
  lemma {:induction false} NewDealt(st: St, v: Cell, st': St, i: nat)
    requires InBounds(st.heap, v.c) && Effect(st, st', Lo(v.c), Hi(st.heap, v.c), true, Lone(st.heap, v.c))
    requires i < |st.heap| && !st.heap[i].mark && st'.heap[i].mark
    ensures Dealt(st'.heap, st'.stack, st'.heap[i].c)
  {
    if st.heap[i] in st'.stack {
      assert st.heap[i] == Cell(st'.heap[i].c, false);
    }
  }

  /** Expanding a value keeps the invariant of the marking phase. */
  lemma {:induction false} ExpandKeeps(st: St, start: Content, ages: seq<nat>, clock: nat, yielded: set<nat>)
    requires MarkInv(st, start, ages, clock, yielded) && st.stack != []
    requires InBounds(st.heap, Top(st).c) && !Seen(st.heap, Top(st), true)
    ensures MarkInv(Turn(st, true), start, NewAges(st.heap, ages, clock), clock + 1,
                    yielded + YieldedVars(Yielded(st.heap, Top(st), true)))
  {
    hide Expanded, Aged, Known, Dealt, VarWaiting, Effect;
    var v, mid, st' := Top(st), Popped(st), Turn(st, true);
    assert st.stack == mid.stack + [v];
    ExpandedEffect(mid, v.c, true);
    assert SameContents(st.heap, st'.heap) && MarksSet(st.heap, st'.heap, Lo(v.c), Hi(st.heap, v.c), true) by {
      EffectMarks(mid, v.c, st');
    }
    StackKnown(mid, st', start, v.c);
    forall i | 0 <= i < |st.heap| && st'.heap[i].mark
      ensures Aged(st'.heap, start, NewAges(st.heap, ages, clock), clock + 1, i)
              && Dealt(st'.heap, st'.stack, st'.heap[i].c)
    {
      AgesKept(st.heap, st'.heap, start, ages, clock, v.c, i);
      if st.heap[i].mark {
        DealtKept(mid, v, st', st.heap[i].c);
      } else {
        NewDealt(mid, v, st', i);
      }
    }
    DealtKept(mid, v, st', start);
    forall i | 0 <= i < |st.heap| && st'.heap[i].mark && Unbound(st'.heap, i)
      ensures i in yielded + YieldedVars(Yielded(st.heap, v, true)) || VarWaiting(st'.stack, i)
    {
      SameUnbound(st.heap, st'.heap, i);
      VarsKept(mid, v, yielded, i);
    }
  }

  lemma {:induction false} EffectMarks(st: St, c: Content, st': St)
    requires InBounds(st.heap, c) && Effect(st, st', Lo(c), Hi(st.heap, c), true, Lone(st.heap, c))
    ensures MarksSet(st.heap, st'.heap, Lo(c), Hi(st.heap, c), true)
  {
  }

  /** A marked unbound variable has been yielded or is going to be. */
  lemma {:induction false} VarsKept(st: St, v: Cell, yielded: set<nat>, i: nat)
    requires InBounds(st.heap, v.c) && !Seen(st.heap, v, true) && Unbound(st.heap, i)
    requires st.heap[i].mark ==> i in yielded || VarWaiting(st.stack + [v], i)
    requires i < |Expanded(st, v.c, true).heap| && Expanded(st, v.c, true).heap[i].mark
    ensures i in yielded + YieldedVars(Yielded(st.heap, v, true)) || VarWaiting(Expanded(st, v.c, true).stack, i)
  {
    hide Expanded;
    ExpandedEffect(st, v.c, true);
    var st' := Expanded(st, v.c, true);
    if !st.heap[i].mark {
      if st.heap[i] in st'.stack {
        assert VarWaiting(st'.stack, i);
      }
    } else if i !in yielded {
      var w :| w in st.stack + [v] && IsVar(w.c) && w.c.h == i;
      if w in st.stack {
        assert w in st'.stack;
      } else {
        assert st.heap[i] in st'.stack;
      }
    }
  }

  /** Every turn of the marking phase keeps its invariant. */
  lemma {:induction false} MarkTurn(st: St, start: Content, ages: seq<nat>, clock: nat,
                                    yielded: set<nat>) returns (ages': seq<nat>)
    requires MarkInv(st, start, ages, clock, yielded) && st.stack != [] && InBounds(st.heap, Top(st).c)
    ensures MarkInv(Turn(st, true), start, ages', clock + 1, yielded + YieldedVars(Yielded(st.heap, Top(st), true)))
  {
    hide Dealt, Known, Expanded, VarWaiting;
    if Seen(st.heap, Top(st), true) {
      SeenKeeps(st, start, ages, clock, yielded);
      ages' := ages;
      Older(Popped(st), start, ages, clock, yielded + YieldedVars(Yielded(st.heap, Top(st), true)));
    } else {
      ExpandKeeps(st, start, ages, clock, yielded);
      ages' := NewAges(st.heap, ages, clock);
    }
  }

  lemma {:induction false} Older(st: St, start: Content, ages: seq<nat>, clock: nat, yielded: set<nat>)
    requires MarkInv(st, start, ages, clock, yielded)
    ensures MarkInv(st, start, ages, clock + 1, yielded)
  {
    hide Dealt, Known, VarWaiting;
    forall i | 0 <= i < |st.heap| && st.heap[i].mark ensures Aged(st.heap, start, ages, clock + 1, i) {
      assert Aged(st.heap, start, ages, clock, i);
    }
  }

  /** When nothing waits any more, everything reachable is marked. */
  lemma {:induction false} AllMarked(heap: seq<Cell>, c: Content, path: seq<nat>)
    requires Dealt(heap, [], c) && Leads(heap, c, path)
    requires forall i :: 0 <= i < |heap| && heap[i].mark ==> Dealt(heap, [], heap[i].c)
    ensures path[|path| - 1] < |heap| && heap[path[|path| - 1]].mark
    decreases |path|
  {
    assert heap[path[0]].mark;
    if |path| > 1 {
      AllMarked(heap, heap[path[0]].c, path[1..]);
    }
  }

  /** ... and every reachable unbound variable was yielded. */
  lemma {:induction false} AllYielded(st: St, start: Content, ages: seq<nat>, clock: nat, yielded: set<nat>, i: nat)
    requires MarkInv(st, start, ages, clock, yielded) && st.stack == [] && Reachable(st.heap, start, i)
            && Unbound(st.heap, i)
    ensures i in yielded
  {
    hide Dealt, Aged;
    var path :| Leads(st.heap, start, path) && path[|path| - 1] == i;
    AllMarked(st.heap, start, path);
  }

  // ----- unmarking -----

  ghost predicate Active(stack: seq<Cell>, c: Content)
  {
    Cell(c, true) in stack
  }

  /** A marked cell is pointed to by the start or by an earlier cell, which is marked itself or whose value
      is on the stack to be expanded. */
  ghost predicate Supported(st: St, start: Content, ages: seq<nat>, i: nat)
  {
    || (Points(st.heap, start, i) && Active(st.stack, start))
    || exists m: nat :: Parent(st.heap, ages, m, i) && (st.heap[m].mark || Active(st.stack, st.heap[m].c))
  }

  /** The value is the start, or is held by some cell. */
  ghost predicate Held(heap: seq<Cell>, start: Content, c: Content)
  {
    c == start || exists i :: 0 <= i < |heap| && heap[i].c == c
  }

  ghost predicate UnmarkInv(st: St, start: Content, ages: seq<nat>)
  {
    && |ages| == |st.heap|
    && (forall v :: v in st.stack ==> Held(st.heap, start, v.c))
    && (forall i :: 0 <= i < |st.heap| && st.heap[i].mark ==> Supported(st, start, ages, i))
  }

  lemma {:induction false} UnmarkSeen(st: St, start: Content, ages: seq<nat>)
    requires UnmarkInv(st, start, ages) && st.stack != [] && InBounds(st.heap, Top(st).c) && !Top(st).mark
    ensures UnmarkInv(Popped(st), start, ages)
  {
    hide Held;
    var stack' := Popped(st).stack;
    assert st.stack == stack' + [Top(st)];
    assert forall c :: Active(st.stack, c) ==> Active(stack', c);
    forall i | 0 <= i < |st.heap| && st.heap[i].mark ensures Supported(Popped(st), start, ages, i) {
      assert Supported(st, start, ages, i);
    }
  }

  lemma {:induction false} HeldKept(heap: seq<Cell>, heap': seq<Cell>, start: Content, c: Content)
    requires SameContents(heap, heap') && Held(heap, start, c)
    ensures Held(heap', start, c)
  {
    if c != start {
      var i :| 0 <= i < |heap| && heap[i].c == c;
      assert heap'[i].c == c;
    }
  }

  lemma {:induction false} StackHeld(st: St, st': St, start: Content, c: Content)
    requires InBounds(st.heap, c) && Effect(st, st', Lo(c), Hi(st.heap, c), false, Lone(st.heap, c))
    requires forall v :: v in st.stack ==> Held(st.heap, start, v.c)
    ensures forall v :: v in st'.stack ==> Held(st'.heap, start, v.c)
  {
    forall v | v in st'.stack ensures Held(st'.heap, start, v.c) {
      if v in st.stack {
        HeldKept(st.heap, st'.heap, start, v.c);
      } else {
        var i: nat :| From(st.heap, Lo(c), Hi(st.heap, c), false, v, i);
        assert st'.heap[i].c == v.c;
      }
    }
  }

  /** What loses its mark is pushed, and what a popped value points to loses its mark: support is kept. */
  lemma {:induction false} SupportKept(st: St, v: Cell, st': St, start: Content, ages: seq<nat>, i: nat)
    requires InBounds(st.heap, v.c) && Effect(st, st', Lo(v.c), Hi(st.heap, v.c), false, Lone(st.heap, v.c))
    requires i < |st.heap| && st'.heap[i].mark && Supported(St(st.heap, st.stack + [v]), start, ages, i)
    ensures Supported(st', start, ages, i)
  {
    SameBounds(st.heap, st'.heap, start);
    var stack := st.stack + [v];
    assert !Points(st.heap, v.c, i);
    if Points(st.heap, start, i) && Active(stack, start) {
      assert Cell(start, true) in st.stack;
    } else {
      var m: nat :| Parent(st.heap, ages, m, i) && (st.heap[m].mark || Active(stack, st.heap[m].c));
      SameBounds(st.heap, st'.heap, st.heap[m].c);
      assert Parent(st'.heap, ages, m, i);
      if st.heap[m].mark {
        assert st'.heap[m].mark || st.heap[m] in st'.stack;
      } else {
        assert Cell(st.heap[m].c, true) in st.stack;
      }
    }
  }

  lemma {:induction false} UnmarkTurn(st: St, start: Content, ages: seq<nat>)
    requires UnmarkInv(st, start, ages) && st.stack != [] && InBounds(st.heap, Top(st).c)
    ensures UnmarkInv(Turn(st, false), start, ages)
  {
    hide Expanded, Supported, Held, Effect;
    var v, mid, st' := Top(st), Popped(st), Turn(st, false);
    assert st.stack == mid.stack + [v] && st == St(mid.heap, mid.stack + [v]);
    if Seen(st.heap, v, false) {
      UnmarkSeen(st, start, ages);
    } else {
      ExpandedEffect(mid, v.c, false);
      StackHeld(mid, st', start, v.c);
      UnmarkEffect(mid, v.c, st');
      forall i | 0 <= i < |st'.heap| && st'.heap[i].mark ensures Supported(st', start, ages, i) {
        assert st.heap[i].mark;
        SupportKept(mid, v, st', start, ages, i);
      }
    }
  }

  lemma {:induction false} UnmarkEffect(st: St, c: Content, st': St)
    requires InBounds(st.heap, c) && Effect(st, st', Lo(c), Hi(st.heap, c), false, Lone(st.heap, c))
    ensures |st'.heap| == |st.heap| && forall i :: 0 <= i < |st.heap| && st'.heap[i].mark ==> st.heap[i].mark
  {
  }

  /** With an empty stack nothing is marked: the first marked cell would lack support. */
  lemma {:induction false} NoneMarked(st: St, start: Content, ages: seq<nat>, i: nat)
    requires UnmarkInv(st, start, ages) && st.stack == [] && i < |st.heap|
    ensures !st.heap[i].mark
    decreases ages[i]
  {
    if st.heap[i].mark {
      assert Supported(st, start, ages, i);
      var m: nat :| Parent(st.heap, ages, m, i) && st.heap[m].mark;
      NoneMarked(st, start, ages, m);
    }
  }

  /** Marking can stop at any point: unmarking takes over from there. */
  lemma {:induction false} TurnBack(st: St, start: Content, ages: seq<nat>, clock: nat, yielded: set<nat>)
    requires MarkInv(st, start, ages, clock, yielded)
    ensures UnmarkInv(St(st.heap, [Cell(start, true)]), start, ages)
  {
    hide Dealt, Known, VarWaiting;
    var st' := St(st.heap, [Cell(start, true)]);
    assert Active(st'.stack, start);
    forall i | 0 <= i < |st.heap| && st.heap[i].mark ensures Supported(st', start, ages, i) {
      assert Aged(st.heap, start, ages, clock, i);
    }
  }

  // ----- only what is reachable -----

  lemma {:induction false} LeadsFurther(heap: seq<Cell>, c: Content, path: seq<nat>, i: nat)
    requires Leads(heap, c, path) && path[|path| - 1] < |heap| && i < |heap|
            && Points(heap, heap[path[|path| - 1]].c, i)
    ensures Leads(heap, c, path + [i])
    decreases |path|
  {
    if |path| == 1 {
      assert (path + [i])[1..] == [i];
    } else {
      LeadsFurther(heap, heap[path[0]].c, path[1..], i);
      assert (path + [i])[1..] == path[1..] + [i];
    }
  }

  /** Only reachable cells are ever marked. */
  lemma {:induction false} MarkedReachable(heap: seq<Cell>, start: Content, ages: seq<nat>, clock: nat, i: nat)
    requires |ages| == |heap| && i < |heap| && heap[i].mark
    requires forall k :: 0 <= k < |heap| && heap[k].mark ==> Aged(heap, start, ages, clock, k)
    ensures Reachable(heap, start, i)
    decreases ages[i]
  {
    assert Aged(heap, start, ages, clock, i);
    if Points(heap, start, i) {
      assert Leads(heap, start, [i]);
    } else {
      var m: nat :| Parent(heap, ages, m, i) && heap[m].mark;
      MarkedReachable(heap, start, ages, clock, m);
      var path :| Leads(heap, start, path) && path[|path| - 1] == m;
      LeadsFurther(heap, start, path, i);
      assert (path + [i])[|path + [i]| - 1] == i;
    }
  }

  /** Whatever is yielded is the start or the content of a reachable cell. */
  ghost predicate FromTerm(heap: seq<Cell>, start: Content, c: Content)
  {
    c == start || exists i: nat :: i < |heap| && heap[i].c == c && Reachable(heap, start, i)
  }

  lemma {:induction false} KnownFromTerm(st: St, start: Content, ages: seq<nat>, clock: nat, yielded: set<nat>, v: Cell)
    requires MarkInv(st, start, ages, clock, yielded) && v in st.stack
    ensures FromTerm(st.heap, start, v.c)
  {
    hide Dealt, VarWaiting, Reachable, Aged;
    if v.c != start {
      var i :| 0 <= i < |st.heap| && st.heap[i].mark && st.heap[i].c == v.c;
      MarkedReachable(st.heap, start, ages, clock, i);
    }
  }

  lemma {:induction false} SameReachable(heap: seq<Cell>, heap': seq<Cell>, c: Content, path: seq<nat>)
    requires SameContents(heap, heap') && Leads(heap, c, path)
    ensures Leads(heap', c, path)
    decreases |path|
  {
    SameBounds(heap, heap', c);
    if |path| > 1 {
      SameReachable(heap, heap', heap[path[0]].c, path[1..]);
    }
  }

  lemma {:induction false} SameFromTerm(heap: seq<Cell>, heap': seq<Cell>, start: Content, c: Content)
    requires SameContents(heap, heap') && FromTerm(heap, start, c)
    ensures FromTerm(heap', start, c)
  {
    if c != start {
      var i: nat :| i < |heap| && heap[i].c == c && Reachable(heap, start, i);
      var path :| Leads(heap, start, path) && path[|path| - 1] == i;
      SameReachable(heap, heap', start, path);
      assert Reachable(heap', start, i);
    }
  }

  // ----- the iterator -----

  /** A heap without marks, whose variable chains are acyclic. */
  ghost predicate CleanHeap(heap: seq<Cell>, start: Content, rank: seq<nat>, bound: nat)
  {
    && GoodHeap(heap) && InBounds(heap, start) && (forall i :: 0 <= i < |heap| ==> !heap[i].mark)
    && Acyclic(heap, rank) && Bounded(rank, bound)
  }

  /** Progress: a cell was dealt with, or the stack got lighter. */
  ghost predicate Less(st': St, st: St, phase: bool, rank: seq<nat>, bound: nat)
  {
    || Unflipped(st'.heap, phase) < Unflipped(st.heap, phase)
    || (&& Unflipped(st'.heap, phase) == Unflipped(st.heap, phase)
        && Load(st'.stack, phase, rank, bound) < Load(st.stack, phase, rank, bound))
  }

  /** The state of the iterator: marking with its invariant, or unmarking with the other. */
  ghost predicate StateOk(st: St, original: seq<Cell>, start: Content, rank: seq<nat>, bound: nat, phase: bool,
                          ages: seq<nat>, clock: nat, yielded: set<nat>)
  {
    && CleanHeap(original, start, rank, bound) && SameContents(original, st.heap)
    && if phase then MarkInv(st, start, ages, clock, yielded) else UnmarkInv(st, start, ages)
  }

  lemma {:induction false} TopInBounds(st: St, original: seq<Cell>, start: Content, rank: seq<nat>, bound: nat,
                                       phase: bool, ages: seq<nat>, clock: nat, yielded: set<nat>)
    requires StateOk(st, original, start, rank, bound, phase, ages, clock, yielded) && st.stack != []
    ensures InBounds(st.heap, Top(st).c) && GoodHeap(st.heap) && Acyclic(st.heap, rank)
    ensures phase ==> FromTerm(original, start, Top(st).c)
  {
    hide Dealt, VarWaiting, Aged, Supported;
    var v := Top(st);
    assert v in st.stack;
    assert Held(st.heap, start, v.c);
    forall c | InBounds(original, c) ensures InBounds(st.heap, c) { SameBounds(original, st.heap, c); }
    if phase {
      KnownFromTerm(st, start, ages, clock, yielded, v);
      SameFromTerm(st.heap, original, start, v.c);
    }
  }

  lemma {:induction false} TurnOk(st: St, original: seq<Cell>, start: Content, rank: seq<nat>, bound: nat, phase: bool,
                                  ages: seq<nat>, clock: nat, yielded: set<nat>) returns (ages': seq<nat>)
    requires StateOk(st, original, start, rank, bound, phase, ages, clock, yielded) && st.stack != []
    ensures InBounds(st.heap, Top(st).c)
    ensures StateOk(Turn(st, phase), original, start, rank, bound, phase, ages', clock + 1,
                    yielded + YieldedVars(Yielded(st.heap, Top(st), phase)))
    ensures Less(Turn(st, phase), st, phase, rank, bound)
  {
    hide MarkInv, UnmarkInv, Expanded, Effect, Load, Unflipped;
    TopInBounds(st, original, start, rank, bound, phase, ages, clock, yielded);
    TurnProgress(st, phase, rank, bound);
    assert SameContents(st.heap, Turn(st, phase).heap) by { TurnContents(st, phase); }
    if phase {
      ages' := MarkTurn(st, start, ages, clock, yielded);
    } else {
      UnmarkTurn(st, start, ages);
      ages' := ages;
    }
  }

  lemma {:induction false} TurnContents(st: St, phase: bool)
    requires st.stack != [] && InBounds(st.heap, Top(st).c)
    ensures SameContents(st.heap, Turn(st, phase).heap)
  {
    hide Expanded;
    if !Seen(st.heap, Top(st), phase) {
      ExpandedEffect(Popped(st), Top(st).c, phase);
    }
  }

  lemma {:induction false} Starting(heap: seq<Cell>, start: Content, rank: seq<nat>, bound: nat)
    requires CleanHeap(heap, start, rank, bound)
    ensures StateOk(St(heap, [Cell(start, false)]), heap, start, rank, bound, true, seq(|heap|, i => 0), 0, {})
  {
  }

  class EagerStackfulPreOrderHeapIter {
    var startValue: Cell
    var iterStack: seq<Cell>
    var markPhase: bool
    var heap: seq<Cell>
    ghost const original: seq<Cell>
    ghost const rank: seq<nat>
    ghost const bound: nat
    ghost var ages: seq<nat>
    ghost var clock: nat
    ghost var yielded: set<nat>

    ghost function State(): St
      reads this
    {
      St(heap, iterStack)
    }

    ghost predicate Valid()
      reads this
    {
      && StateOk(State(), original, startValue.c, rank, bound, markPhase, ages, clock, yielded)
      && (markPhase ==> Walking(original, State(), rank, bound))
    }

    /** What the iterator is still going to yield. */
    ghost function Rest(): Walked
      requires Valid() && markPhase
      reads this
    {
      Ahead(original, State(), rank, bound)
    }

    constructor (heap: seq<Cell>, value: Content, ghost rank: seq<nat>, ghost bound: nat)
      requires CleanHeap(heap, value, rank, bound)
      ensures Valid() && markPhase && original == heap && startValue.c == value && this.rank == rank
              && this.bound == bound
      ensures yielded == {} && Fit(heap, rank, bound) && InBounds(heap, value)
      ensures Rest() == WholeWalk(heap, value, rank, bound)
    {
      startValue := Cell(value, false);
      iterStack := [Cell(value, false)];
      markPhase := true;
      this.heap := heap;
      original, this.rank, this.bound := heap, rank, bound;
      ages, clock, yielded := seq(|heap|, i => 0), 0, {};
      new;
      Starting(heap, value, rank, bound);
      WalkStarts(heap, value, rank, bound);
    }

    method TouchCell(idx: nat)
      requires idx < |heap|
      modifies this`iterStack, this`heap
      ensures State() == Touch(old(State()), idx, markPhase)
    {
      if heap[idx].mark != markPhase {
        PushCell(idx);
      }
    }

    method PushCell(idx: nat)
      requires idx < |heap|
      modifies this`iterStack, this`heap
      ensures State() == Push(old(State()), idx, markPhase)
    {
      iterStack := iterStack + [heap[idx]];
      heap := heap[idx := heap[idx].(mark := markPhase)];
    }

    /** The arguments of a structure, or the two halves of a list cell, from the last to the first. */
    method TouchCells(lo: nat, hi: nat)
      requires hi <= |heap|
      modifies this`iterStack, this`heap
      ensures State() == TouchDown(old(State()), lo, hi, markPhase)
    {
      var idx: nat := hi;
      ghost var st := State();
      while idx > lo
        invariant idx <= hi && |heap| == |st.heap|
        invariant TouchDown(State(), lo, idx, markPhase) == TouchDown(st, lo, hi, markPhase)
      {
        TouchDownStep(State(), lo, idx, markPhase);
        idx := idx - 1;
        TouchCell(idx);
      }
    }

    /** Deals with one value taken off the stack. */
    method Visit(value: Cell) returns (out: Option<Cell>)
      requires InBounds(heap, value.c)
      modifies this`iterStack, this`heap
      ensures var st := old(State());
              && State() == (if Seen(st.heap, value, markPhase) then st else Expanded(st, value.c, markPhase))
              && out == Yielded(st.heap, value, markPhase)
    {
      if value.mark == markPhase {
        if IsVar(value.c) && Unbound(heap, value.c.h) {
          return Some(value.(mark := false));
        } else if !IsVar(value.c) {
          return None;
        }
      }
      if value.c.Str? {
        TouchCells(value.c.s + 1, value.c.s + 1 + heap[value.c.s].c.arity);
      } else if value.c.Lis? {
        TouchCells(value.c.l, value.c.l + 2);
      } else if IsVar(value.c) {
        var h := value.c.h;
        var varValue := heap[h];
        heap := heap[h := heap[h].(mark := markPhase)];
        if varValue.mark || !Unbound(heap, h) {
          iterStack := iterStack + [varValue];
          return None;
        }
      } else if value.c.PStrLoc? {
        PushCell(value.c.tail);
      }
      return Some(value);
    }

    /** Takes values off the stack until one is yielded. */
    method Follow() returns (out: Option<Cell>)
      requires Valid()
      modifies this`iterStack, this`heap, this`ages, this`clock, this`yielded
      ensures Valid()
      ensures out.None? ==> iterStack == [] && yielded == old(yielded)
      ensures out.Some? ==>
                Less(State(), old(State()), markPhase, rank, bound) && yielded == old(yielded) + YieldedVars(out)
      ensures out.Some? && markPhase ==>
                FromTerm(original, startValue.c, out.value.c) && OnlyUnbound(original, out.value.c)
      ensures markPhase ==> old(Rest()) == Before(Walked(Given(out), {}), Rest())
    {
      hide StateOk, Less, Seen, Expanded, Yielded, Unflipped, Load, InBounds, Ahead, Walking;
      ghost var before := State();
      while iterStack != []
        invariant Valid() && yielded == old(yielded)
                && (State() == before || Less(State(), before, markPhase, rank, bound))
        invariant markPhase ==> Rest() == old(Rest())
        decreases Unflipped(heap, markPhase), Load(iterStack, markPhase, rank, bound)
      {
        ghost var st := State();
        ghost var ages' := TurnOk(st, original, startValue.c, rank, bound, markPhase, ages, clock, yielded);
        TopInBounds(st, original, startValue.c, rank, bound, markPhase, ages, clock, yielded);
        LessOn(Turn(st, markPhase), st, before, markPhase, rank, bound);
        if markPhase {
          TurnWalks(original, st, rank, bound);
          YieldsUnbound(original, st, rank, bound);
        }
        var value := iterStack[|iterStack| - 1];
        iterStack := iterStack[..|iterStack| - 1];
        out := Visit(value);
        YieldsContent(st.heap, value, markPhase);
        ages, clock, yielded := ages', clock + 1, yielded + YieldedVars(out);
        if out.Some? {
          return;
        }
        if markPhase {
          NothingBefore(Ahead(original, Turn(st, markPhase), rank, bound));
        }
      }
      out := None;
      if markPhase {
        NothingBefore(Rest());
      }
    }

    /** drop: turn around and take back every mark. */
    method Drop()
      requires Valid() && markPhase
      modifies this
      ensures heap == original
    {
      TurnBack(State(), startValue.c, ages, clock, yielded);
      markPhase := false;
      startValue := startValue.(mark := true);
      iterStack := [startValue];
      while true
        invariant Valid() && !markPhase
        decreases Unflipped(heap, markPhase), Load(iterStack, markPhase, rank, bound)
      {
        var out := Follow();
        if out.None? {
          break;
        }
      }
      forall i | 0 <= i < |heap| ensures heap[i] == original[i] {
        NoneMarked(State(), startValue.c, ages, i);
      }
    }
  }

  lemma {:induction false} YieldsContent(heap: seq<Cell>, v: Cell, phase: bool)
    requires InBounds(heap, v.c)
    ensures Yielded(heap, v, phase).Some? ==> Yielded(heap, v, phase).value.c == v.c
    ensures Yielded(heap, v, phase).None? ==> YieldedVars(Yielded(heap, v, phase)) == {}
  {
  }

  lemma {:induction false} NothingBefore(w: Walked)
    ensures Before(Walked([], {}), w) == w
  {
    assert [] + w.cells == w.cells;
  }

  ghost predicate OnlyUnbound(heap: seq<Cell>, c: Content)
  {
    IsVar(c) ==> Unbound(heap, c.h)
  }

  lemma {:induction false} YieldsUnbound(heap: seq<Cell>, st: St, rank: seq<nat>, bound: nat)
    requires Walking(heap, st, rank, bound) && st.stack != [] && InBounds(st.heap, Top(st).c)
    ensures var out := Yielded(st.heap, Top(st), true);
            out.Some? ==> OnlyUnbound(heap, out.value.c)
  {
    hide AllInBounds, Fit;
    if IsVar(Top(st).c) {
      SameUnbound(heap, st.heap, Top(st).c.h);
    }
  }

  lemma {:induction false} LessOn(a: St, b: St, c: St, phase: bool, rank: seq<nat>, bound: nat)
    requires Less(a, b, phase, rank, bound) && (b == c || Less(b, c, phase, rank, bound))
    ensures Less(a, c, phase, rank, bound)
    ensures Unflipped(a.heap, phase) < Unflipped(b.heap, phase) ||
            (Unflipped(a.heap, phase) == Unflipped(b.heap, phase)
                && Load(a.stack, phase, rank, bound) < Load(b.stack, phase, rank, bound))
  {
    hide Unflipped, Load;
  }

  /** Dropping the iterator after any number of steps leaves the heap as it was. */
  method TakeAndDrop(heap: seq<Cell>, value: Content, steps: nat, ghost rank: seq<nat>,
                     ghost bound: nat) returns (heap': seq<Cell>)
    requires CleanHeap(heap, value, rank, bound)
    ensures heap' == heap
  {
    var iter := new EagerStackfulPreOrderHeapIter(heap, value, rank, bound);
    for i := 0 to steps
      invariant fresh(iter) && iter.Valid() && iter.markPhase && iter.original == heap
    {
      var out := iter.Follow();
    }
    iter.Drop();
    heap' := iter.heap;
  }

  lemma {:induction false} AllVariables(st: St, original: seq<Cell>, start: Content, rank: seq<nat>, bound: nat,
                                        ages: seq<nat>, clock: nat, yielded: set<nat>)
    requires StateOk(st, original, start, rank, bound, true, ages, clock, yielded) && st.stack == []
    ensures forall i: nat :: Unbound(original, i) && Reachable(original, start, i) ==> i in yielded
  {
    hide MarkInv, Unbound;
    forall i: nat | Unbound(original, i) && Reachable(original, start, i) ensures i in yielded {
      SameUnbound(original, st.heap, i);
      var path :| Leads(original, start, path) && path[|path| - 1] == i;
      SameReachable(original, st.heap, start, path);
      AllYielded(st, start, ages, clock, yielded, i);
    }
  }

  /** The addresses of the variables among some cells. */
  function Vars(cells: seq<Cell>): set<nat>
  {
    if cells == [] then {} else Vars(cells[..|cells| - 1]) + YieldedVars(Some(cells[|cells| - 1]))
  }

  function Contents(cells: seq<Cell>): seq<Content>
  {
    seq(|cells|, k requires 0 <= k < |cells| => cells[k].c)
  }

  ghost function ReachSet(heap: seq<Cell>, value: Content): set<nat>
  {
    set i: nat | i < |heap| && Reachable(heap, value, i)
  }

  lemma {:induction false} UnboundReachable(heap: seq<Cell>, value: Content, c: Content)
    requires FromTerm(heap, value, c) && IsVar(c) && Unbound(heap, c.h)
    ensures Reachable(heap, value, c.h)
  {
    if c == value {
      assert Leads(heap, value, [c.h]);
      assert [c.h][|[c.h]| - 1] == c.h;
    } else {
      var i: nat :| i < |heap| && heap[i].c == c && Reachable(heap, value, i);
      var path :| Leads(heap, value, path) && path[|path| - 1] == i;
      LeadsFurther(heap, value, path, c.h);
      assert (path + [c.h])[|path + [c.h]| - 1] == c.h;
    }
  }

  /** A cell more: it comes next in the walk. */
  lemma {:induction false} CellMore(cells: seq<Cell>, out: Cell, rest: Walked, rest': Walked, whole: Walked)
    requires Before(Walked(Contents(cells), {}), rest) == whole && rest == Before(Walked(Given(Some(out)), {}), rest')
    ensures Before(Walked(Contents(cells + [out]), {}), rest') == whole
    ensures Contents(cells + [out]) == Contents(cells) + [out.c]
    ensures Vars(cells + [out]) == Vars(cells) + YieldedVars(Some(out))
  {
    assert (cells + [out])[..|cells|] == cells;
    assert Contents(cells) + ([out.c] + rest'.cells) == Contents(cells) + [out.c] + rest'.cells;
  }

  lemma {:induction false} FirstVarsMore(met: set<Content>, cs: seq<Content>, c: Content)
    ensures FirstVars(met, cs + [c]) ==
            FirstVars(met, cs) + if IsVar(c) && c !in met && c !in FirstVars(met, cs) then [c] else []
    decreases cs
  {
    if cs == [] {
      assert ([] + [c])[1..] == [];
    } else {
      assert (cs + [c])[1..] == cs[1..] + [c];
      FirstVarsMore(met + {cs[0]}, cs[1..], c);
      FirstVarsMore(met, cs[1..], c);
    }
  }

  /** The end of an iteration: what was seen is what is reachable. */
  lemma {:induction false} SeenIsReachable(st: St, original: seq<Cell>, start: Content, rank: seq<nat>, bound: nat,
                                           ages: seq<nat>, clock: nat, yielded: set<nat>)
    requires StateOk(st, original, start, rank, bound, true, ages, clock, yielded) && st.stack == []
    ensures Marked(st.heap) == ReachSet(original, start)
  {
    hide Dealt, Aged, VarWaiting, Known;
    forall i: nat | i < |original| ensures st.heap[i].mark <==> Reachable(original, start, i) {
      if st.heap[i].mark {
        MarkedReachable(st.heap, start, ages, clock, i);
        var path :| Leads(st.heap, start, path) && path[|path| - 1] == i;
        SameReachable(st.heap, original, start, path);
      }
      if Reachable(original, start, i) {
        var path :| Leads(original, start, path) && path[|path| - 1] == i;
        SameReachable(original, st.heap, start, path);
        AllMarked(st.heap, start, path);
      }
    }
  }

  lemma {:induction false} RunSees(st: St, original: seq<Cell>, start: Content, rank: seq<nat>, bound: nat,
                                   ages: seq<nat>, clock: nat, yielded: set<nat>)
    requires StateOk(st, original, start, rank, bound, true, ages, clock, yielded) && Walking(original, st, rank, bound)
    ensures Ahead(original, st, rank, bound).seen == ReachSet(original, start)
    decreases Unflipped(st.heap, true), Load(st.stack, true, rank, bound)
  {
    hide StateOk, Walking, Ahead, Turn, Out, Unflipped, Load;
    if st.stack == [] {
      SeenIsReachable(st, original, start, rank, bound, ages, clock, yielded);
      NothingAhead(st, original, rank, bound);
    } else {
      var ages' := TurnOk(st, original, start, rank, bound, true, ages, clock, yielded);
      LessOn(Turn(st, true), st, st, true, rank, bound);
      TurnWalks(original, st, rank, bound);
      RunSees(Turn(st, true), original, start, rank, bound, ages', clock + 1,
          yielded + YieldedVars(Yielded(st.heap, Top(st), true)));
    }
  }

  /** variable_set: the variables not in the set yet are added in the order of the walk. The iterator comes to an
      end, on cyclic terms too; it yields every unbound variable that can be reached and nothing that cannot, and
      leaves the heap as it was. */
  method VariableSet(heap: seq<Cell>, value: Content, seenSet: seq<Content>, ghost rank: seq<nat>, ghost bound: nat)
    returns (seenSet': seq<Content>, ghost cells: seq<Cell>, heap': seq<Cell>)
    requires CleanHeap(heap, value, rank, bound)
    ensures heap' == heap
    ensures Contents(cells) == WholeWalk(heap, value, rank, bound).cells
    ensures seenSet' == seenSet + FirstVars(Elements(seenSet), Contents(cells))
    ensures forall i: nat :: i in Vars(cells) <==> Unbound(heap, i) && Reachable(heap, value, i)
    ensures forall k :: 0 <= k < |cells| ==> FromTerm(heap, value, cells[k].c)
  {
    hide StateOk, Unflipped, Load, FromTerm, CleanHeap, Unbound, Reachable, Less, Walking, Walk, Ahead;
    var iter := new EagerStackfulPreOrderHeapIter(heap, value, rank, bound);
    seenSet', cells := seenSet, [];
    NothingBefore(iter.Rest());
    while true
      invariant fresh(iter) && iter.Valid() && iter.markPhase && iter.original == heap && iter.startValue.c == value
      invariant iter.yielded == Vars(cells) && iter.rank == rank && iter.bound == bound
      invariant forall k :: 0 <= k < |cells| ==> FromTerm(heap, value, cells[k].c)
      invariant forall i: nat :: i in Vars(cells) ==> Unbound(heap, i) && Reachable(heap, value, i)
      invariant Before(Walked(Contents(cells), {}), iter.Rest()) == WholeWalk(heap, value, rank, bound)
      invariant seenSet' == seenSet + FirstVars(Elements(seenSet), Contents(cells))
      decreases Unflipped(iter.heap, true), Load(iter.iterStack, true, rank, bound)
    {
      ghost var before, rest := iter.State(), iter.Rest();
      var out := iter.Follow();
      if out.None? {
        break;
      }
      LessOn(iter.State(), before, before, true, rank, bound);
      CellMore(cells, out.value, rest, iter.Rest(), WholeWalk(heap, value, rank, bound));
      FirstVarsMore(Elements(seenSet), Contents(cells), out.value.c);
      if IsVar(out.value.c) {
        UnboundReachable(heap, value, out.value.c);
        if out.value.c !in seenSet' {
          seenSet' := seenSet' + [out.value.c];
        }
      }
      cells := cells + [out.value];
    }
    AllVariables(iter.State(), heap, value, rank, bound, iter.ages, iter.clock, iter.yielded);
    NothingAhead(iter.State(), heap, rank, bound);
    iter.Drop();
    heap' := iter.heap;
  }

  function Elements(s: seq<Content>): set<Content>
  {
    set c | c in s
  }

  lemma {:induction false} NothingAhead(st: St, heap: seq<Cell>, rank: seq<nat>, bound: nat)
    requires Walking(heap, st, rank, bound) && st.stack == []
    ensures Ahead(heap, st, rank, bound) == Walked([], Marked(st.heap))
    ensures forall cs: seq<Content> :: cs + [] == cs
  {
  }

  /** ground_test: it fails at the first variable; the iterator is dropped there. */
  method GroundTest(heap: seq<Cell>, value: Content, ghost rank: seq<nat>, ghost bound: nat)
    returns (fails: bool, heap': seq<Cell>)
    requires CleanHeap(heap, value, rank, bound)
    ensures fails <==> exists i: nat :: Unbound(heap, i) && Reachable(heap, value, i)
    ensures heap' == heap
  {
    hide StateOk, Unflipped, Load, FromTerm, CleanHeap, Unbound, Reachable, Less, Walking, Walk, Ahead;
    var iter := new EagerStackfulPreOrderHeapIter(heap, value, rank, bound);
    fails := false;
    while true
      invariant fresh(iter) && iter.Valid() && iter.markPhase && iter.original == heap && iter.startValue.c == value
      invariant iter.yielded == {} && iter.rank == rank && iter.bound == bound && !fails
      decreases Unflipped(iter.heap, true), Load(iter.iterStack, true, rank, bound)
    {
      ghost var before := iter.State();
      var out := iter.Follow();
      if out.None? {
        AllVariables(iter.State(), heap, value, rank, bound, iter.ages, iter.clock, iter.yielded);
        break;
      }
      if IsVar(out.value.c) {
        UnboundReachable(heap, value, out.value.c);
        fails := true;
        break;
      }
      LessOn(iter.State(), before, before, true, rank, bound);
    }
    iter.Drop();
    heap' := iter.heap;
  }

  // ----- the order, and how often -----

  /** For every term in which no cell but a variable is shared: the cells come in its preorder exactly if no variable
      occurs to the left of the structure that has it as an argument, and but for repeated variables they
      always do. */
  lemma {:induction false} TermInPreorder(heap: seq<Cell>, value: Content, t: Tree, rank: seq<nat>, bound: nat)
    requires CleanHeap(heap, value, rank, bound) && Holds(heap, value, t) && Unshared(t)
    ensures var cells := WholeWalk(heap, value, rank, bound).cells;
            && (cells == Preorder(t) <==> HomesFirst(t))
            && New({}, cells) == New({}, Preorder(t))
            && FirstVars({}, cells) == FirstVars({}, Preorder(t))
  {
    hide Holds, Unshared, Cells, Args, HomesFirst, Preorder, New, FirstVars, Walk;
    assert Cells(t) * {} == {} == Args(t) * {};
    WalkExact(heap, value, t, {}, rank, bound);
    WalkNew(heap, value, t, {}, {}, rank, bound);
    VarsOfNew({}, WholeWalk(heap, value, rank, bound).cells);
    VarsOfNew({}, Preorder(t));
  }

  /** For every term, shared and cyclic ones too: every reachable cell that is no variable is yielded exactly once. */
  lemma {:induction false} EachCellOnce(heap: seq<Cell>, value: Content, rank: seq<nat>, bound: nat, x: Content)
    requires CleanHeap(heap, value, rank, bound) && !IsVar(x)
    ensures Times(WholeWalk(heap, value, rank, bound).cells, x) ==
            HeldAt(heap, ReachSet(heap, value), x, |heap|) + if value == x then 1 else 0
  {
    hide Walk, StateOk, Walking;
    WalkTimes(heap, value, false, {}, rank, bound, x);
    Starting(heap, value, rank, bound);
    WalkStarts(heap, value, rank, bound);
    RunSees(St(heap, [Cell(value, false)]), heap, value, rank, bound, seq(|heap|, i => 0), 0, {});
    NoneHeld(heap, x, |heap|);
  }

  lemma {:induction false} NoneHeld(heap: seq<Cell>, x: Content, n: nat)
    requires n <= |heap|
    ensures HeldAt(heap, {}, x, n) == 0
  {
    if n > 0 {
      NoneHeld(heap, x, n - 1);
    }
  }
}
