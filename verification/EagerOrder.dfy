/**
 The order in which the eager iterator yields the cells of a term, by recursion over the heap and without a stack:
 on every heap, and in particular on heaps in which no cell but a variable is shared.
 */
module EagerOrder {
  import opened EagerSteps
  import opened Options

  // ----- the order on every heap -----

  /** The cells yielded, and the places seen. */
  datatype Walked = Walked(cells: seq<Content>, seen: set<nat>)

  ghost predicate Fit(heap: seq<Cell>, rank: seq<nat>, bound: nat)
  {
    GoodHeap(heap) && Acyclic(heap, rank) && Bounded(rank, bound)
  }

  ghost function Unseen(heap: seq<Cell>, seen: set<nat>): set<nat>
  {
    set i: nat | i < |heap| && i !in seen
  }

  predicate AtLeast(lo: nat, i: nat)
  {
    lo <= i
  }

  ghost function Places(lo: nat, hi: nat): set<nat>
  {
    set i: nat | i < hi && AtLeast(lo, i)
  }

  lemma {:induction false} SeeMore(heap: seq<Cell>, seen: set<nat>, more: set<nat>)
    requires forall i :: i in more ==> i < |heap|
    ensures Unseen(heap, seen + more) <= Unseen(heap, seen)
    ensures more <= seen || Unseen(heap, seen + more) < Unseen(heap, seen)
  {
    if !(more <= seen) {
      var i :| i in more && i !in seen;
      assert i in Unseen(heap, seen) && i !in Unseen(heap, seen + more);
    }
  }

  ghost function Before(a: Walked, b: Walked): Walked
  {
    Walked(a.cells + b.cells, b.seen)
  }

  /** How far a value may still be followed without a new place. */
  ghost function Slack(c: Content, again: bool, rank: seq<nat>, bound: nat): nat
  {
    if IsVar(c) then 1 + (if c.h < |rank| then rank[c.h] else 0) else if again then 0 else bound + 2
  }

  /** A value, and then what its cells hold, from left to right. All the cells of a structure count as seen before
      the first of them is walked. A value met `again`, held by a cell that was seen before, is not yielded unless it
      is an unbound variable, and a variable leads on to what it is bound to. */
  ghost function Walk(heap: seq<Cell>, c: Content, again: bool, seen: set<nat>, rank: seq<nat>, bound: nat): (r: Walked)
    requires Fit(heap, rank, bound) && InBounds(heap, c)
    ensures seen <= r.seen
    decreases Unseen(heap, seen), Slack(c, again, rank, bound), 0
  {
    if IsVar(c) then
      if Unbound(heap, c.h) then
        if again then Walked([c], seen)
        else if c.h in seen then Walked([heap[c.h].c], seen)
        else Walked([c], seen + {c.h})
      else
        SeeMore(heap, seen, {c.h});
        Walk(heap, heap[c.h].c, c.h in seen, seen + {c.h}, rank, bound)
    else if again then Walked([], seen)
    else if c.PStrLoc? then
      SeeMore(heap, seen, {c.tail});
      Before(Walked([c], seen), Walk(heap, heap[c.tail].c, c.tail in seen, seen + {c.tail}, rank, bound))
    else if Places(Lo(c), Hi(heap, c)) <= seen then Walked([c], seen)
    else
      SeeMore(heap, seen, Places(Lo(c), Hi(heap, c)));
      Before(Walked([c], seen),
             WalkArgs(heap, seen, Lo(c), Hi(heap, c), seen + Places(Lo(c), Hi(heap, c)), rank, bound))
  }

  /** What the cells from `lo` to `hi` hold, but for those that had been seen before. */
  ghost function WalkArgs(heap: seq<Cell>, before: set<nat>, lo: nat, hi: nat, seen: set<nat>, rank: seq<nat>,
                          bound: nat)
    : (r: Walked)
    requires Fit(heap, rank, bound) && hi <= |heap|
    ensures seen <= r.seen
    decreases Unseen(heap, seen), bound + 3, hi - lo
  {
    if hi <= lo then Walked([], seen)
    else if lo in before then WalkArgs(heap, before, lo + 1, hi, seen, rank, bound)
    else
      var first := Walk(heap, heap[lo].c, false, seen, rank, bound);
      assert Unseen(heap, first.seen) <= Unseen(heap, seen);
      Before(first, WalkArgs(heap, before, lo + 1, hi, first.seen, rank, bound))
  }

  ghost predicate AllInBounds(heap: seq<Cell>, stack: seq<Cell>)
  {
    forall v :: v in stack ==> InBounds(heap, v.c)
  }

  /** What is still going to be yielded when these values wait, the last one first. */
  ghost function WalkStack(heap: seq<Cell>, stack: seq<Cell>, seen: set<nat>, rank: seq<nat>, bound: nat): Walked
    requires Fit(heap, rank, bound) && AllInBounds(heap, stack)
  {
    if stack == [] then Walked([], seen)
    else
      var top := stack[|stack| - 1];
      var first := Walk(heap, top.c, top.mark, seen, rank, bound);
      Before(first, WalkStack(heap, stack[..|stack| - 1], first.seen, rank, bound))
  }

  // ----- a turn of the loop takes the next cell off the walk -----

  ghost function Marked(heap: seq<Cell>): set<nat>
  {
    set i: nat | i < |heap| && heap[i].mark
  }

  /** What touching the cells from `lo` to `hi` pushes. */
  function Pushed(heap: seq<Cell>, lo: nat, hi: nat): seq<Cell>
    requires hi <= |heap|
    decreases hi - lo
  {
    if hi <= lo then []
    else Pushed(heap, lo + 1, hi) + if heap[lo].mark then [] else [heap[lo]]
  }

  lemma {:induction false} PushedLast(heap: seq<Cell>, lo: nat, hi: nat)
    requires lo < hi <= |heap|
    ensures Pushed(heap, lo, hi) == (if heap[hi - 1].mark then [] else [heap[hi - 1]]) + Pushed(heap, lo, hi - 1)
    decreases hi - lo
  {
    if lo + 1 < hi {
      PushedLast(heap, lo + 1, hi);
    }
  }

  lemma {:induction false} PushedSame(heap: seq<Cell>, heap': seq<Cell>, lo: nat, hi: nat)
    requires hi <= |heap| == |heap'| && forall i :: lo <= i < hi ==> heap'[i] == heap[i]
    ensures Pushed(heap', lo, hi) == Pushed(heap, lo, hi)
    decreases hi - lo
  {
    if lo < hi {
      PushedSame(heap, heap', lo + 1, hi);
    }
  }

  lemma {:induction false} TouchPushes(st: St, lo: nat, hi: nat)
    requires hi <= |st.heap|
    ensures TouchDown(st, lo, hi, true).stack == st.stack + Pushed(st.heap, lo, hi)
    decreases hi
  {
    if lo < hi {
      TouchPushes(Touch(st, hi - 1, true), lo, hi - 1);
      PushedSame(st.heap, Touch(st, hi - 1, true).heap, lo, hi - 1);
      PushedLast(st.heap, lo, hi);
    }
  }

  lemma {:induction false} TouchMarks(st: St, lo: nat, hi: nat)
    requires hi <= |st.heap|
    ensures Marked(TouchDown(st, lo, hi, true).heap) == Marked(st.heap) + Places(lo, hi)
  {
    hide TouchDown;
    TouchDownEffect(st, lo, hi, true);
  }

  lemma {:induction false} WalkTop(heap: seq<Cell>, stack: seq<Cell>, top: Cell, seen: set<nat>, rank: seq<nat>,
                                   bound: nat)
    requires Fit(heap, rank, bound) && AllInBounds(heap, stack) && InBounds(heap, top.c)
    ensures AllInBounds(heap, stack + [top])
    ensures var first := Walk(heap, top.c, top.mark, seen, rank, bound);
            WalkStack(heap, stack + [top], seen, rank, bound) ==
            Before(first, WalkStack(heap, stack, first.seen, rank, bound))
  {
    hide Walk, Fit, InBounds;
    assert (stack + [top])[..|stack|] == stack;
  }

  lemma {:induction false} PushedInBounds(heap: seq<Cell>, lo: nat, hi: nat)
    requires hi <= |heap|
    ensures forall v :: v in Pushed(heap, lo, hi) ==> exists i :: 0 <= i < |heap| && heap[i] == v
    decreases hi - lo
  {
    if lo < hi {
      PushedInBounds(heap, lo + 1, hi);
    }
  }

  /** The cells pushed are walked from left to right. */
  lemma {:induction false} WalkPushed(heap: seq<Cell>, marked: seq<Cell>, stack: seq<Cell>, lo: nat, hi: nat,
                                      seen: set<nat>, rank: seq<nat>, bound: nat)
    requires Fit(heap, rank, bound) && AllInBounds(heap, stack) && SameContents(heap, marked) && hi <= |heap|
    ensures AllInBounds(heap, stack + Pushed(marked, lo, hi))
    ensures var args := WalkArgs(heap, Marked(marked), lo, hi, seen, rank, bound);
            WalkStack(heap, stack + Pushed(marked, lo, hi), seen, rank, bound) ==
            Before(args, WalkStack(heap, stack, args.seen, rank, bound))
    decreases hi - lo
  {
    hide Walk, WalkStack, Acyclic, Bounded;
    PushedInBounds(marked, lo, hi);
    if hi <= lo {
      assert stack + Pushed(marked, lo, hi) == stack;
    } else {
      assert lo in Marked(marked) <==> marked[lo].mark;
      if marked[lo].mark {
        assert Pushed(marked, lo, hi) == Pushed(marked, lo + 1, hi);
        WalkPushed(heap, marked, stack, lo + 1, hi, seen, rank, bound);
      } else {
        var rest := stack + Pushed(marked, lo + 1, hi);
        assert stack + Pushed(marked, lo, hi) == rest + [marked[lo]];
        var first := Walk(heap, heap[lo].c, false, seen, rank, bound);
        WalkPushed(heap, marked, stack, lo + 1, hi, first.seen, rank, bound);
        WalkTop(heap, rest, marked[lo], seen, rank, bound);
      }
    }
  }

  /** The content that is yielded, if any. */
  function Given(out: Option<Cell>): seq<Content>
  {
    if out.Some? then [out.value.c] else []
  }

  function Out(st: St): seq<Content>
    requires st.stack != [] && InBounds(st.heap, Top(st).c)
  {
    Given(Yielded(st.heap, Top(st), true))
  }

  ghost predicate Walking(heap: seq<Cell>, st: St, rank: seq<nat>, bound: nat)
  {
    Fit(heap, rank, bound) && SameContents(heap, st.heap) && AllInBounds(heap, st.stack)
  }

  ghost function Ahead(heap: seq<Cell>, st: St, rank: seq<nat>, bound: nat): Walked
    requires Walking(heap, st, rank, bound)
  {
    WalkStack(heap, st.stack, Marked(st.heap), rank, bound)
  }

  /** A turn for a variable. */
  lemma {:induction false} VarTurn(heap: seq<Cell>, st: St, v: Cell, rank: seq<nat>, bound: nat)
    requires Walking(heap, st, rank, bound) && IsVar(v.c) && InBounds(heap, v.c)
    ensures var whole, next := St(st.heap, st.stack + [v]), Turn(St(st.heap, st.stack + [v]), true);
            && InBounds(st.heap, v.c) && Walking(heap, whole, rank, bound) && Walking(heap, next, rank, bound)
            && Ahead(heap, whole, rank, bound) == Before(Walked(Out(whole), {}), Ahead(heap, next, rank, bound))
  {
    hide WalkStack, Acyclic, Bounded, GoodHeap;
    var h := v.c.h;
    WalkTop(heap, st.stack, v, Marked(st.heap), rank, bound);
    var whole := St(st.heap, st.stack + [v]);
    assert Popped(whole) == st && Top(whole) == v;
    assert InBounds(heap, heap[h].c) by { BoundsOf(heap, h); }
    SameUnbound(heap, st.heap, h);
    WalkTop(heap, st.stack, st.heap[h], Marked(st.heap) + {h}, rank, bound);
    assert Marked(SetMark(st.heap, h, true)) == Marked(st.heap) + {h};
    if st.heap[h].mark {
      assert Marked(st.heap) + {h} == Marked(st.heap);
    }
  }

  lemma {:induction false} BoundsOf(heap: seq<Cell>, i: nat)
    requires GoodHeap(heap) && i < |heap|
    ensures InBounds(heap, heap[i].c)
  {
  }

  /** A turn for any other value. */
  lemma {:induction false} ValueTurn(heap: seq<Cell>, st: St, v: Cell, rank: seq<nat>, bound: nat)
    requires Walking(heap, st, rank, bound) && !IsVar(v.c) && InBounds(heap, v.c)
    ensures var whole, next := St(st.heap, st.stack + [v]), Turn(St(st.heap, st.stack + [v]), true);
            && InBounds(st.heap, v.c) && Walking(heap, whole, rank, bound) && Walking(heap, next, rank, bound)
            && Ahead(heap, whole, rank, bound) == Before(Walked(Out(whole), {}), Ahead(heap, next, rank, bound))
  {
    hide WalkStack, Acyclic, Bounded, GoodHeap, TouchDown, WalkArgs;
    var whole := St(st.heap, st.stack + [v]);
    WalkTop(heap, st.stack, v, Marked(st.heap), rank, bound);
    assert Popped(whole) == st && Top(whole) == v;
    SameBounds(heap, st.heap, v.c);
    if v.mark {
    } else if v.c.PStrLoc? {
      BoundsOf(heap, v.c.tail);
      WalkTop(heap, st.stack, st.heap[v.c.tail], Marked(st.heap) + {v.c.tail}, rank, bound);
      assert Marked(SetMark(st.heap, v.c.tail, true)) == Marked(st.heap) + {v.c.tail};
    } else {
      ArgsTurn(heap, st, v.c, rank, bound);
    }
  }

  lemma {:induction false} ArgsTurn(heap: seq<Cell>, st: St, c: Content, rank: seq<nat>, bound: nat)
    requires Walking(heap, st, rank, bound) && !IsVar(c) && !c.PStrLoc? && InBounds(heap, c)
    ensures InBounds(st.heap, c)
    ensures var next, first := Expanded(st, c, true), Walk(heap, c, false, Marked(st.heap), rank, bound);
            && Walking(heap, next, rank, bound)
            && first.cells != [] && first.cells[0] == c
            && Before(first, WalkStack(heap, st.stack, first.seen, rank, bound)) ==
               Before(Walked([c], {}), Ahead(heap, next, rank, bound))
  {
    hide WalkStack, Acyclic, Bounded, GoodHeap, TouchDown, WalkArgs;
    SameBounds(heap, st.heap, c);
    var lo, hi, seen := Lo(c), Hi(heap, c), Marked(st.heap);
    TouchDownEffect(st, lo, hi, true);
    TouchPushes(st, lo, hi);
    TouchMarks(st, lo, hi);
    WalkPushed(heap, st.heap, st.stack, lo, hi, seen + Places(lo, hi), rank, bound);
    if Places(lo, hi) <= seen {
      assert seen + Places(lo, hi) == seen;
      AllSeen(heap, seen, lo, hi, seen, rank, bound);
    }
  }

  lemma {:induction false} AllSeen(heap: seq<Cell>, before: set<nat>, lo: nat, hi: nat, seen: set<nat>, rank: seq<nat>,
                                   bound: nat)
    requires Fit(heap, rank, bound) && hi <= |heap| && Places(lo, hi) <= before
    ensures WalkArgs(heap, before, lo, hi, seen, rank, bound) == Walked([], seen)
    decreases hi - lo
  {
    hide Fit;
    if lo < hi {
      assert lo in Places(lo, hi);
      AllSeen(heap, before, lo + 1, hi, seen, rank, bound);
    }
  }

  /** Every turn of the marking phase takes what it yields off the walk. */
  lemma {:induction false} TurnWalks(heap: seq<Cell>, st: St, rank: seq<nat>, bound: nat)
    requires Walking(heap, st, rank, bound) && st.stack != []
    ensures InBounds(st.heap, Top(st).c) && Walking(heap, Turn(st, true), rank, bound)
    ensures Ahead(heap, st, rank, bound) == Before(Walked(Out(st), {}), Ahead(heap, Turn(st, true), rank, bound))
  {
    hide Ahead, Turn, Out;
    var mid, v := Popped(st), Top(st);
    assert St(mid.heap, mid.stack + [v]) == st;
    if IsVar(v.c) {
      VarTurn(heap, mid, v, rank, bound);
    } else {
      ValueTurn(heap, mid, v, rank, bound);
    }
  }

  /** The walk of a whole term. */
  ghost function WholeWalk(heap: seq<Cell>, value: Content, rank: seq<nat>, bound: nat): Walked
    requires Fit(heap, rank, bound) && InBounds(heap, value)
  {
    Walk(heap, value, false, {}, rank, bound)
  }

  lemma {:induction false} WalkStarts(heap: seq<Cell>, value: Content, rank: seq<nat>, bound: nat)
    requires Fit(heap, rank, bound) && InBounds(heap, value) && forall i :: 0 <= i < |heap| ==> !heap[i].mark
    ensures Walking(heap, St(heap, [Cell(value, false)]), rank, bound)
    ensures Ahead(heap, St(heap, [Cell(value, false)]), rank, bound) == WholeWalk(heap, value, rank, bound)
  {
    hide Walk, Fit;
    assert Marked(heap) == {};
    WalkTop(heap, [], Cell(value, false), {}, rank, bound);
    assert [] + [Cell(value, false)] == [Cell(value, false)];
  }

  // ----- terms without sharing -----

  /** The term that a value stands for: a constant or an unbound variable, what a variable is bound to, a string with
      its tail, or a structure or list with its arguments. */
  datatype Tree = Leaf(c: Content) | Bound(h: nat, to: Tree) | Text(c: Content, to: Tree)
                | Node(c: Content, args: seq<Tree>)

  /** An unbound variable, referred to as its own cell is. */
  predicate Free(heap: seq<Cell>, c: Content)
  {
    IsVar(c) && c.h < |heap| && heap[c.h].c == c
  }

  ghost predicate Holds(heap: seq<Cell>, c: Content, t: Tree)
    decreases t
  {
    match t
    case Leaf(v) => v == c && (Free(heap, c) || c.Functor? || c.Constant?)
    case Bound(h, to) => IsVar(c) && c.h == h && h < |heap| && !Unbound(heap, h) && Holds(heap, heap[h].c, to)
    case Text(v, to) => v == c && c.PStrLoc? && c.tail < |heap| && Holds(heap, heap[c.tail].c, to)
    case Node(v, args) =>
      && v == c && (c.Str? || c.Lis?) && InBounds(heap, c) && Hi(heap, c) == Lo(c) + |args|
      && HoldAll(heap, Lo(c), args)
  }

  ghost predicate HoldAll(heap: seq<Cell>, lo: nat, args: seq<Tree>)
    requires lo + |args| <= |heap|
    decreases args
  {
    args != [] ==> Holds(heap, heap[lo].c, args[0]) && HoldAll(heap, lo + 1, args[1..])
  }

  /** The cells of a term from left to right. */
  function Preorder(t: Tree): seq<Content>
    decreases t
  {
    match t
    case Leaf(c) => [c]
    case Bound(_, to) => Preorder(to)
    case Text(c, to) => [c] + Preorder(to)
    case Node(c, args) => [c] + Preorders(args)
  }

  function Preorders(args: seq<Tree>): seq<Content>
    decreases args
  {
    if args == [] then [] else Preorder(args[0]) + Preorders(args[1..])
  }

  /** The places of a term's cells. */
  ghost function Cells(t: Tree): set<nat>
    decreases t
  {
    match t
    case Leaf(_) => {}
    case Bound(h, to) => {h} + Cells(to)
    case Text(c, to) => {Lo(c)} + Cells(to)
    case Node(c, args) => Places(Lo(c), Lo(c) + |args|) + CellsOf(args)
  }

  ghost function CellsOf(args: seq<Tree>): set<nat>
    decreases args
  {
    if args == [] then {} else Cells(args[0]) + CellsOf(args[1..])
  }

  /** The places of the unbound variables of a term. */
  ghost function Homes(t: Tree): set<nat>
    decreases t
  {
    match t
    case Leaf(c) => if IsVar(c) then {c.h} else {}
    case Bound(_, to) => Homes(to)
    case Text(_, to) => Homes(to)
    case Node(_, args) => HomesOf(args)
  }

  ghost function HomesOf(args: seq<Tree>): set<nat>
    decreases args
  {
    if args == [] then {} else Homes(args[0]) + HomesOf(args[1..])
  }

  /** No cell is part of a term twice; its variables may occur any number of times. */
  ghost predicate Unshared(t: Tree)
    decreases t
  {
    match t
    case Leaf(_) => true
    case Bound(h, to) => h !in Cells(to) && Unshared(to)
    case Text(c, to) => Lo(c) !in Cells(to) && Unshared(to)
    case Node(c, args) => Places(Lo(c), Lo(c) + |args|) !! CellsOf(args) && UnsharedAll(args)
  }

  ghost predicate UnsharedAll(args: seq<Tree>)
    decreases args
  {
    args != [] ==> Unshared(args[0]) && Cells(args[0]) !! CellsOf(args[1..]) && UnsharedAll(args[1..])
  }

  /** The places of the arguments in a term. */
  ghost function Args(t: Tree): set<nat>
    decreases t
  {
    match t
    case Leaf(_) => {}
    case Bound(_, to) => Args(to)
    case Text(_, to) => Args(to)
    case Node(c, args) => Places(Lo(c), Lo(c) + |args|) + ArgsOf(args)
  }

  ghost function ArgsOf(args: seq<Tree>): set<nat>
    decreases args
  {
    if args == [] then {} else Args(args[0]) + ArgsOf(args[1..])
  }

  /** No variable occurs to the left of the structure that has it as an argument. */
  ghost predicate HomesFirst(t: Tree)
    decreases t
  {
    match t
    case Leaf(_) => true
    case Bound(_, to) => HomesFirst(to)
    case Text(_, to) => HomesFirst(to)
    case Node(_, args) => HomesFirstAll(args)
  }

  ghost predicate HomesFirstAll(args: seq<Tree>)
    decreases args
  {
    args != [] ==> HomesFirst(args[0]) && Homes(args[0]) !! ArgsOf(args[1..]) && HomesFirstAll(args[1..])
  }

  /** Only places of unbound variables, in a set. */
  ghost predicate OnlyFree(heap: seq<Cell>, places: set<nat>)
  {
    forall i :: i in places ==> Unbound(heap, i)
  }

  // ----- what a walk of an unshared term sees -----

  ghost predicate Walks(heap: seq<Cell>, c: Content, t: Tree, seen: set<nat>, rank: seq<nat>, bound: nat)
  {
    && Fit(heap, rank, bound) && InBounds(heap, c) && Holds(heap, c, t) && Unshared(t)
    && OnlyFree(heap, Cells(t) * seen)
  }

  /** The arguments from `lo` on are about to be walked; those in `before` were seen before their structure. */
  ghost predicate WalksAll(heap: seq<Cell>, before: set<nat>, lo: nat, ts: seq<Tree>, seen: set<nat>, rank: seq<nat>,
                           bound: nat)
  {
    && Fit(heap, rank, bound) && lo + |ts| <= |heap| && HoldAll(heap, lo, ts) && UnsharedAll(ts)
    && before <= seen && Places(lo, lo + |ts|) <= seen && OnlyFree(heap, before * Places(lo, lo + |ts|))
    && Places(lo, lo + |ts|) !! CellsOf(ts) && OnlyFree(heap, CellsOf(ts) * seen)
  }

  lemma {:induction false} NodeWalk(heap: seq<Cell>, c: Content, seen: set<nat>, rank: seq<nat>, bound: nat)
    requires Fit(heap, rank, bound) && InBounds(heap, c) && (c.Str? || c.Lis?)
    ensures var lo, hi := Lo(c), Hi(heap, c);
            Walk(heap, c, false, seen, rank, bound) ==
            Before(Walked([c], seen), WalkArgs(heap, seen, lo, hi, seen + Places(lo, hi), rank, bound))
  {
    hide Fit, WalkArgs;
    if Places(Lo(c), Hi(heap, c)) <= seen {
      assert seen + Places(Lo(c), Hi(heap, c)) == seen;
      AllSeen(heap, seen, Lo(c), Hi(heap, c), seen, rank, bound);
    }
  }

  lemma {:induction false} NodeWalks(heap: seq<Cell>, c: Content, t: Tree, seen: set<nat>, rank: seq<nat>, bound: nat)
    requires Walks(heap, c, t, seen, rank, bound) && t.Node?
    ensures Hi(heap, c) == Lo(c) + |t.args| <= |heap|
    ensures WalksAll(heap, seen, Lo(c), t.args, seen + Places(Lo(c), Hi(heap, c)), rank, bound)
  {
    hide Fit, Cells, CellsOf, HoldAll, UnsharedAll, Unbound, Places;
    CellsStep(t);
    UnsharedStep(t);
  }

  lemma {:induction false} CellsStep(t: Tree)
    requires t.Node?
    ensures Cells(t) == Places(Lo(t.c), Lo(t.c) + |t.args|) + CellsOf(t.args)
    ensures Homes(t) == HomesOf(t.args)
    ensures Args(t) == Places(Lo(t.c), Lo(t.c) + |t.args|) + ArgsOf(t.args)
    ensures Preorder(t) == [t.c] + Preorders(t.args)
    ensures HomesFirst(t) == HomesFirstAll(t.args)
  {
  }

  lemma {:induction false} UnsharedStep(t: Tree)
    requires t.Node? && Unshared(t)
    ensures Places(Lo(t.c), Lo(t.c) + |t.args|) !! CellsOf(t.args) && UnsharedAll(t.args)
  {
  }

  /** An unbound variable is a leaf. */
  lemma {:induction false} FreeLeaf(heap: seq<Cell>, i: nat, t: Tree)
    requires Unbound(heap, i) && Holds(heap, heap[i].c, t)
    ensures t == Leaf(heap[i].c)
  {
  }

  /** The first argument, and the others. */
  lemma {:induction false} FirstArg(heap: seq<Cell>, before: set<nat>, lo: nat, ts: seq<Tree>, seen: set<nat>,
                                    rank: seq<nat>, bound: nat)
    requires WalksAll(heap, before, lo, ts, seen, rank, bound) && ts != []
    ensures lo in seen && Places(lo, lo + |ts|) == {lo} + Places(lo + 1, lo + |ts|)
    ensures CellsOf(ts) == Cells(ts[0]) + CellsOf(ts[1..]) && Cells(ts[0]) !! CellsOf(ts[1..])
    ensures HomesOf(ts) == Homes(ts[0]) + HomesOf(ts[1..]) && ArgsOf(ts) == Args(ts[0]) + ArgsOf(ts[1..])
    ensures Preorders(ts) == Preorder(ts[0]) + Preorders(ts[1..])
    ensures HomesFirstAll(ts) <==>
            HomesFirst(ts[0]) && Homes(ts[0]) !! ArgsOf(ts[1..]) && HomesFirstAll(ts[1..])
    ensures lo in before ==>
              ts[0] == Leaf(heap[lo].c) && Cells(ts[0]) == {} == Args(ts[0]) && Homes(ts[0]) == {lo}
    ensures lo !in before ==> Walks(heap, heap[lo].c, ts[0], seen, rank, bound)
  {
    hide Acyclic, Bounded;
    BoundsOf(heap, lo);
    assert lo in Places(lo, lo + |ts|);
    if lo in before {
      assert lo in before * Places(lo, lo + |ts|);
      FreeLeaf(heap, lo, ts[0]);
    }
  }

  lemma {:induction false} NoArgs(heap: seq<Cell>, before: set<nat>, lo: nat, ts: seq<Tree>, seen: set<nat>,
                                  rank: seq<nat>, bound: nat)
    requires WalksAll(heap, before, lo, ts, seen, rank, bound)
    ensures Fit(heap, rank, bound) && lo + |ts| <= |heap|
    ensures ts == [] ==> Places(lo, lo + |ts|) == {}
  {
  }

  lemma {:induction false} ArgsStep(heap: seq<Cell>, before: set<nat>, lo: nat, ts: seq<Tree>, seen: set<nat>,
                                    rank: seq<nat>, bound: nat)
    requires WalksAll(heap, before, lo, ts, seen, rank, bound) && ts != []
    ensures Fit(heap, rank, bound) && lo + |ts| == lo + 1 + |ts[1..]| <= |heap| && InBounds(heap, heap[lo].c)
    ensures WalkArgs(heap, before, lo, lo + |ts|, seen, rank, bound) ==
            if lo in before then WalkArgs(heap, before, lo + 1, lo + |ts|, seen, rank, bound)
            else
              var first := Walk(heap, heap[lo].c, false, seen, rank, bound);
              Before(first, WalkArgs(heap, before, lo + 1, lo + |ts|, first.seen, rank, bound))
  {
    hide Acyclic, Bounded, Walk;
    BoundsOf(heap, lo);
  }

  lemma {:induction false} HomesFree(heap: seq<Cell>, c: Content, t: Tree)
    requires Holds(heap, c, t)
    ensures OnlyFree(heap, Homes(t))
    decreases t
  {
    match t
    case Leaf(_) =>
    case Bound(h, to) => HomesFree(heap, heap[h].c, to);
    case Text(_, to) => HomesFree(heap, heap[c.tail].c, to);
    case Node(_, args) => HomesOfFree(heap, Lo(c), args);
  }

  lemma {:induction false} HomesOfFree(heap: seq<Cell>, lo: nat, ts: seq<Tree>)
    requires lo + |ts| <= |heap| && HoldAll(heap, lo, ts)
    ensures OnlyFree(heap, HomesOf(ts))
    decreases ts
  {
    if ts != [] {
      HomesFree(heap, heap[lo].c, ts[0]);
      HomesOfFree(heap, lo + 1, ts[1..]);
    }
  }

  /** The other arguments are walked after the first one. */
  lemma {:induction false} OtherArgs(heap: seq<Cell>, before: set<nat>, lo: nat, ts: seq<Tree>, seen: set<nat>,
                                     rank: seq<nat>, bound: nat)
    requires WalksAll(heap, before, lo, ts, seen, rank, bound) && ts != []
    ensures WalksAll(heap, before, lo + 1, ts[1..], seen, rank, bound)
    ensures WalksAll(heap, before, lo + 1, ts[1..], seen + Cells(ts[0]) + Homes(ts[0]), rank, bound)
  {
    hide Fit, Holds, Cells, Homes, Unshared, Unbound;
    assert Places(lo + 1, lo + 1 + |ts[1..]|) <= Places(lo, lo + |ts|);
    HomesFree(heap, heap[lo].c, ts[0]);
  }

  /** Afterwards the cells and variables of the term were seen. */
  lemma {:induction false} WalkSees(heap: seq<Cell>, c: Content, t: Tree, seen: set<nat>, rank: seq<nat>, bound: nat)
    requires Walks(heap, c, t, seen, rank, bound)
    ensures Walk(heap, c, false, seen, rank, bound).seen == seen + Cells(t) + Homes(t)
    decreases t
  {
    match t
    case Leaf(_) =>
      LeafWalk(heap, c, t, seen, rank, bound);
    case Bound(h, to) =>
      BoundWalk(heap, c, t, seen, rank, bound);
      WalkSees(heap, heap[h].c, to, seen + {h}, rank, bound);
    case Text(_, to) =>
      TextWalk(heap, c, t, seen, rank, bound);
      if c.tail !in seen {
        WalkSees(heap, heap[c.tail].c, to, seen + {c.tail}, rank, bound);
      }
    case Node(_, args) =>
      hide Walk, WalkArgs, Walks, WalksAll, Cells, Homes;
      NodeWalks(heap, c, t, seen, rank, bound);
      NodeWalk(heap, c, seen, rank, bound) by { WalksParts(heap, c, t, seen, rank, bound); }
      CellsStep(t);
      WalkArgsSees(heap, seen, Lo(c), args, seen + Places(Lo(c), Hi(heap, c)), rank, bound);
  }

  lemma {:induction false} WalksParts(heap: seq<Cell>, c: Content, t: Tree, seen: set<nat>, rank: seq<nat>, bound: nat)
    requires Walks(heap, c, t, seen, rank, bound)
    ensures Fit(heap, rank, bound) && InBounds(heap, c) && Unshared(t)
    ensures (t.Node? ==> t.c == c && (c.Str? || c.Lis?)) && (t.Text? ==> t.c == c)
  {
  }

  lemma {:induction false} LeafWalk(heap: seq<Cell>, c: Content, t: Tree, seen: set<nat>, rank: seq<nat>, bound: nat)
    requires Walks(heap, c, t, seen, rank, bound) && t.Leaf?
    ensures Walk(heap, c, false, seen, rank, bound) == Walked(Preorder(t), seen + Homes(t))
  {
    hide Fit;
    if IsVar(c) {
      assert Unbound(heap, c.h);
      if c.h in seen {
        assert seen + {c.h} == seen;
      }
    } else {
      assert Places(Lo(c), Hi(heap, c)) == {};
      assert seen + {} == seen;
    }
  }

  lemma {:induction false} BoundWalk(heap: seq<Cell>, c: Content, t: Tree, seen: set<nat>, rank: seq<nat>, bound: nat)
    requires Walks(heap, c, t, seen, rank, bound) && t.Bound?
    ensures t.h < |heap| && t.h !in seen && Walks(heap, heap[t.h].c, t.to, seen + {t.h}, rank, bound)
    ensures Walk(heap, c, false, seen, rank, bound) == Walk(heap, heap[t.h].c, false, seen + {t.h}, rank, bound)
  {
    hide Acyclic, Bounded;
    BoundsOf(heap, t.h);
    assert t.h in Cells(t);
    NotSeen(heap, Cells(t), seen, t.h);
  }

  lemma {:induction false} NotSeen(heap: seq<Cell>, places: set<nat>, seen: set<nat>, h: nat)
    requires OnlyFree(heap, places * seen) && h in places && !Unbound(heap, h)
    ensures h !in seen
  {
    assert h in places * seen <==> h in seen;
  }

  /** The tail of a string may be a variable that was seen before: it is yielded all the same. */
  lemma {:induction false} TextWalk(heap: seq<Cell>, c: Content, t: Tree, seen: set<nat>, rank: seq<nat>, bound: nat)
    requires Walks(heap, c, t, seen, rank, bound) && t.Text?
    ensures c.PStrLoc? && c.tail < |heap|
    ensures if c.tail in seen then
              && t.to.Leaf? && Cells(t.to) == {} == Args(t.to) && Homes(t.to) <= {c.tail}
              && Walk(heap, c, false, seen, rank, bound) == Walked(Preorder(t), seen)
            else
              && Walks(heap, heap[c.tail].c, t.to, seen + {c.tail}, rank, bound)
              && Walk(heap, c, false, seen, rank, bound) ==
                 Before(Walked([c], seen), Walk(heap, heap[c.tail].c, false, seen + {c.tail}, rank, bound))
  {
    hide Acyclic, Bounded;
    BoundsOf(heap, c.tail);
    assert c.tail in Cells(t);
    if c.tail in seen {
      assert c.tail in Cells(t) * seen;
      FreeLeaf(heap, c.tail, t.to);
      assert seen + {c.tail} == seen;
    }
  }

  lemma {:induction false} WalkArgsSees(heap: seq<Cell>, before: set<nat>, lo: nat, ts: seq<Tree>, seen: set<nat>,
                                        rank: seq<nat>, bound: nat)
    requires WalksAll(heap, before, lo, ts, seen, rank, bound)
    ensures Fit(heap, rank, bound) && lo + |ts| <= |heap|
    ensures WalkArgs(heap, before, lo, lo + |ts|, seen, rank, bound).seen == seen + CellsOf(ts) + HomesOf(ts)
    decreases ts
  {
    hide Walk, Walks, WalksAll, Cells, Homes, Args, Unbound, Holds, HoldAll;
    NoArgs(heap, before, lo, ts, seen, rank, bound);
    if ts != [] {
      FirstArg(heap, before, lo, ts, seen, rank, bound);
      ArgsStep(heap, before, lo, ts, seen, rank, bound);
      OtherArgs(heap, before, lo, ts, seen, rank, bound);
      if lo in before {
        WalkArgsSees(heap, before, lo + 1, ts[1..], seen, rank, bound);
      } else {
        WalkSees(heap, heap[lo].c, ts[0], seen, rank, bound);
        WalkArgsSees(heap, before, lo + 1, ts[1..], seen + Cells(ts[0]) + Homes(ts[0]), rank, bound);
      }
    }
  }

  // ----- an unshared term is yielded in preorder -----

  lemma {:induction false} ArgsAreCells(t: Tree)
    ensures Args(t) <= Cells(t)
    decreases t
  {
    match t
    case Leaf(_) =>
    case Bound(_, to) => ArgsAreCells(to);
    case Text(_, to) => ArgsAreCells(to);
    case Node(_, args) => ArgsOfAreCells(args);
  }

  lemma {:induction false} ArgsOfAreCells(ts: seq<Tree>)
    ensures ArgsOf(ts) <= CellsOf(ts)
    decreases ts
  {
    if ts != [] {
      ArgsAreCells(ts[0]);
      ArgsOfAreCells(ts[1..]);
    }
  }

  /** The cells come in the preorder of the term exactly if no variable was seen before the structure that has it as an
      argument; otherwise such arguments are left out. */
  lemma {:induction false} WalkExact(heap: seq<Cell>, c: Content, t: Tree, seen: set<nat>, rank: seq<nat>, bound: nat)
    requires Walks(heap, c, t, seen, rank, bound)
    ensures Fit(heap, rank, bound) && InBounds(heap, c)
    ensures var cs := Walk(heap, c, false, seen, rank, bound).cells;
            if Args(t) !! seen && HomesFirst(t) then cs == Preorder(t) else |cs| < |Preorder(t)|
    decreases t
  {
    hide Walk, WalkArgs, Walks, WalksAll, Args, HomesFirst, Preorder, Preorders, HomesFirstAll;
    WalksParts(heap, c, t, seen, rank, bound);
    match t
    case Leaf(_) =>
      LeafWalk(heap, c, t, seen, rank, bound);
      LeafStep(t);
    case Bound(h, to) =>
      BoundWalk(heap, c, t, seen, rank, bound);
      WalkExact(heap, heap[h].c, to, seen + {h}, rank, bound);
      OnlyStep(t);
    case Text(_, to) =>
      TextWalk(heap, c, t, seen, rank, bound);
      OnlyStep(t);
      if c.tail !in seen {
        WalkExact(heap, heap[c.tail].c, to, seen + {c.tail}, rank, bound);
      } else {
        LeafStep(to);
      }
    case Node(_, args) =>
      var lo, hi := Lo(c), Hi(heap, c);
      NodeWalks(heap, c, t, seen, rank, bound);
      NodeWalk(heap, c, seen, rank, bound);
      CellsStep(t);
      WalkArgsExact(heap, seen, lo, args, seen + Places(lo, hi), rank, bound);
      ArgsApart(heap, c, t, seen, rank, bound);
  }

  lemma {:induction false} LeafStep(t: Tree)
    requires t.Leaf?
    ensures Args(t) == {} && HomesFirst(t)
  {
  }

  lemma {:induction false} OnlyStep(t: Tree)
    requires t.Bound? || t.Text?
    ensures Args(t) == Args(t.to) && (HomesFirst(t) <==> HomesFirst(t.to))
    ensures Preorder(t) == if t.Text? then [t.c] + Preorder(t.to) else Preorder(t.to)
    ensures Unshared(t) ==> (if t.Text? then Lo(t.c) else t.h) !in Args(t.to)
  {
    ArgsAreCells(t.to);
  }

  lemma {:induction false} ArgsApart(heap: seq<Cell>, c: Content, t: Tree, seen: set<nat>, rank: seq<nat>, bound: nat)
    requires Walks(heap, c, t, seen, rank, bound) && t.Node?
    ensures t.c == c && Hi(heap, c) == Lo(c) + |t.args|
    ensures var places := Places(Lo(c), Hi(heap, c));
            Args(t) !! seen <==> seen !! places && ArgsOf(t.args) !! seen + places
  {
    hide Fit;
    UnsharedStep(t);
    ArgsOfAreCells(t.args);
  }

  lemma {:induction false} WalkArgsExact(heap: seq<Cell>, before: set<nat>, lo: nat, ts: seq<Tree>, seen: set<nat>,
                                         rank: seq<nat>, bound: nat)
    requires WalksAll(heap, before, lo, ts, seen, rank, bound)
    ensures Fit(heap, rank, bound) && lo + |ts| <= |heap|
    ensures var cs := WalkArgs(heap, before, lo, lo + |ts|, seen, rank, bound).cells;
            if before !! Places(lo, lo + |ts|) && ArgsOf(ts) !! seen && HomesFirstAll(ts) then cs == Preorders(ts)
            else |cs| < |Preorders(ts)|
    decreases ts
  {
    hide Walk, Walks, WalksAll, Cells, Homes, Args, HomesFirst, Unbound, Holds, HoldAll;
    NoArgs(heap, before, lo, ts, seen, rank, bound);
    if ts != [] {
      FirstArg(heap, before, lo, ts, seen, rank, bound);
      ArgsStep(heap, before, lo, ts, seen, rank, bound);
      OtherArgs(heap, before, lo, ts, seen, rank, bound);
      if lo in before {
        WalkArgsExact(heap, before, lo + 1, ts[1..], seen, rank, bound);
        OneSkipped(heap[lo].c, ts);
      } else {
        var seen' := seen + Cells(ts[0]) + Homes(ts[0]);
        WalkExact(heap, heap[lo].c, ts[0], seen, rank, bound);
        WalkSees(heap, heap[lo].c, ts[0], seen, rank, bound);
        WalkArgsExact(heap, before, lo + 1, ts[1..], seen', rank, bound);
        LaterArgs(before, lo, ts, seen);
        var rest := WalkArgs(heap, before, lo + 1, lo + |ts|, seen', rank, bound).cells;
        BothExact(Walk(heap, heap[lo].c, false, seen, rank, bound).cells, rest, Preorder(ts[0]), Preorders(ts[1..]),
            Args(ts[0]) !! seen && HomesFirst(ts[0]),
            before !! Places(lo + 1, lo + |ts|) && ArgsOf(ts[1..]) !! seen' && HomesFirstAll(ts[1..]));
      }
    }
  }

  /** When none of the arguments was seen before, with the first one walked. */
  lemma {:induction false} LaterArgs(before: set<nat>, lo: nat, ts: seq<Tree>, seen: set<nat>)
    requires ts != [] && lo !in before && Cells(ts[0]) !! CellsOf(ts[1..])
    ensures ArgsOf(ts) == Args(ts[0]) + ArgsOf(ts[1..])
    ensures before !! Places(lo, lo + |ts|) <==> before !! Places(lo + 1, lo + |ts|)
    ensures var seen' := seen + Cells(ts[0]) + Homes(ts[0]);
            ArgsOf(ts[1..]) !! seen' <==> ArgsOf(ts[1..]) !! seen && Homes(ts[0]) !! ArgsOf(ts[1..])
  {
    ArgsOfAreCells(ts[1..]);
    assert Places(lo, lo + |ts|) == {lo} + Places(lo + 1, lo + |ts|);
  }

  lemma {:induction false} BothExact(a: seq<Content>, b: seq<Content>, p: seq<Content>, q: seq<Content>, exactA: bool,
                                     exactB: bool)
    requires if exactA then a == p else |a| < |p|
    requires if exactB then b == q else |b| < |q|
    ensures if exactA && exactB then a + b == p + q else |a + b| < |p + q|
  {
  }

  lemma {:induction false} OneSkipped(c: Content, ts: seq<Tree>)
    requires ts != [] && ts[0] == Leaf(c)
    ensures |Preorders(ts)| == 1 + |Preorders(ts[1..])|
  {
  }

  // ----- the variables in order of their first occurrences -----

  /** The variables among some cells. */
  function Met(cs: seq<Content>): set<Content>
  {
    if cs == [] then {} else (if IsVar(cs[0]) then {cs[0]} else {}) + Met(cs[1..])
  }

  /** Cells without the variables that were met before. */
  function New(met: set<Content>, cs: seq<Content>): seq<Content>
    decreases cs
  {
    if cs == [] then []
    else if IsVar(cs[0]) && cs[0] in met then New(met, cs[1..])
    else [cs[0]] + New(met + Met([cs[0]]), cs[1..])
  }

  lemma {:induction false} MetOne(c: Content)
    ensures Met([c]) == if IsVar(c) then {c} else {}
  {
    assert [c][1..] == [];
  }

  lemma {:induction false} MetSum(a: seq<Content>, b: seq<Content>)
    ensures Met(a + b) == Met(a) + Met(b)
  {
    if a == [] {
      assert a + b == b;
    } else {
      assert (a + b)[1..] == a[1..] + b;
      MetSum(a[1..], b);
    }
  }

  lemma {:induction false} NewSum(met: set<Content>, a: seq<Content>, b: seq<Content>)
    ensures New(met, a + b) == New(met, a) + New(met + Met(a), b)
    decreases a
  {
    if a == [] {
      assert a + b == b && met + Met(a) == met;
    } else {
      assert (a + b)[1..] == a[1..] + b;
      MetOne(a[0]);
      var met' := met + Met([a[0]]);
      NewSum(met', a[1..], b);
      assert met' + Met(a[1..]) == met + Met(a);
      if IsVar(a[0]) && a[0] in met {
        assert met' == met;
      }
    }
  }

  /** Two lists of cells with the same variables and the same first occurrences, after some variables. */
  ghost predicate SameNew(met: set<Content>, cs: seq<Content>, ds: seq<Content>)
  {
    New(met, cs) == New(met, ds) && met + Met(cs) == met + Met(ds)
  }

  lemma {:induction false} SameNewSum(met: set<Content>, a: seq<Content>, b: seq<Content>, a': seq<Content>,
                                      b': seq<Content>)
    requires SameNew(met, a, a') && SameNew(met + Met(a), b, b')
    ensures SameNew(met, a + b, a' + b')
  {
    hide New, Met;
    NewSum(met, a, b);
    NewSum(met, a', b');
    MetSum(a, b);
    MetSum(a', b');
    assert met + (Met(a) + Met(b)) == met + Met(a) + Met(b);
    assert met + (Met(a') + Met(b')) == met + Met(a') + Met(b');
  }

  /** A variable met before may be left out. */
  lemma {:induction false} SkipMet(met: set<Content>, c: Content, cs: seq<Content>, ds: seq<Content>)
    requires IsVar(c) && c in met && SameNew(met, cs, ds)
    ensures SameNew(met, cs, [c] + ds)
  {
    hide New, Met;
    NewSum(met, [c], ds);
    MetSum([c], ds);
    MetOne(c);
    NewOne(met, c);
    assert met + {c} == met && met + ({c} + Met(ds)) == met + Met(ds);
  }

  lemma {:induction false} NewOne(met: set<Content>, c: Content)
    requires IsVar(c) && c in met
    ensures New(met, [c]) == []
  {
    assert [c][1..] == [];
  }

  /** The cells at some places, all of them unbound variables, were met. */
  ghost predicate AllMet(heap: seq<Cell>, places: set<nat>, met: set<Content>)
  {
    forall i :: i in places && i < |heap| ==> heap[i].c in met
  }

  lemma {:induction false} HomesMet(heap: seq<Cell>, c: Content, t: Tree)
    requires Holds(heap, c, t)
    ensures AllMet(heap, Homes(t), Met(Preorder(t)))
    decreases t
  {
    match t
    case Leaf(_) =>
      MetOne(c);
    case Bound(h, to) => HomesMet(heap, heap[h].c, to);
    case Text(_, to) =>
      HomesMet(heap, heap[c.tail].c, to);
      MetSum([c], Preorder(to));
    case Node(_, args) =>
      HomesOfMet(heap, Lo(c), args);
      MetSum([c], Preorders(args));
  }

  lemma {:induction false} HomesOfMet(heap: seq<Cell>, lo: nat, ts: seq<Tree>)
    requires lo + |ts| <= |heap| && HoldAll(heap, lo, ts)
    ensures AllMet(heap, HomesOf(ts), Met(Preorders(ts)))
    decreases ts
  {
    if ts != [] {
      HomesMet(heap, heap[lo].c, ts[0]);
      HomesOfMet(heap, lo + 1, ts[1..]);
      MetSum(Preorder(ts[0]), Preorders(ts[1..]));
    }
  }

  /** But for variables that were met before, the cells come in the preorder of the term. */
  lemma {:induction false} WalkNew(heap: seq<Cell>, c: Content, t: Tree, seen: set<nat>, met: set<Content>,
                                   rank: seq<nat>, bound: nat)
    requires Walks(heap, c, t, seen, rank, bound) && AllMet(heap, Args(t) * seen, met)
    ensures Fit(heap, rank, bound) && InBounds(heap, c)
    ensures SameNew(met, Walk(heap, c, false, seen, rank, bound).cells, Preorder(t))
    decreases t
  {
    hide Walk, WalkArgs, Walks, WalksAll, Args, ArgsOf, Preorder, Preorders, SameNew, Places, AllMet;
    WalksParts(heap, c, t, seen, rank, bound);
    match t
    case Leaf(_) =>
      LeafWalk(heap, c, t, seen, rank, bound);
      SameNewSelf(met, Preorder(t));
    case Bound(h, to) =>
      BoundWalk(heap, c, t, seen, rank, bound);
      OnlyStep(t);
      assert Args(to) * (seen + {h}) == Args(t) * seen;
      WalkNew(heap, heap[h].c, to, seen + {h}, met, rank, bound);
    case Text(_, to) =>
      TextWalk(heap, c, t, seen, rank, bound);
      OnlyStep(t);
      if c.tail !in seen {
        assert Args(to) * (seen + {c.tail}) == Args(t) * seen;
        WalkNew(heap, heap[c.tail].c, to, seen + {c.tail}, met, rank, bound);
        SameNewBehind(met, c, Walk(heap, heap[c.tail].c, false, seen + {c.tail}, rank, bound).cells, Preorder(to));
      } else {
        SameNewSelf(met, Preorder(t));
      }
    case Node(_, args) =>
      NodeWalks(heap, c, t, seen, rank, bound);
      NodeWalk(heap, c, seen, rank, bound);
      CellsStep(t);
      ArgsMet(heap, c, t, seen, met, rank, bound);
      var lo := Lo(c);
      WalkArgsNew(heap, seen, lo, args, seen + Places(lo, Hi(heap, c)), met, rank, bound);
      SameNewBehind(met, c, WalkArgs(heap, seen, lo, Hi(heap, c), seen + Places(lo, Hi(heap, c)), rank, bound).cells,
          Preorders(args));
  }

  lemma {:induction false} SameNewSelf(met: set<Content>, cs: seq<Content>)
    ensures SameNew(met, cs, cs)
  {
  }

  /** The same behind a cell that is no variable. */
  lemma {:induction false} SameNewBehind(met: set<Content>, c: Content, cs: seq<Content>, ds: seq<Content>)
    requires !IsVar(c) && SameNew(met, cs, ds)
    ensures SameNew(met, [c] + cs, [c] + ds)
  {
    hide SameNew;
    MetOne(c);
    assert met + Met([c]) == met;
    SameNewSelf(met, [c]);
    SameNewSum(met, [c], cs, [c], ds);
  }

  lemma {:induction false} ArgsMet(heap: seq<Cell>, c: Content, t: Tree, seen: set<nat>, met: set<Content>,
                                   rank: seq<nat>, bound: nat)
    requires Walks(heap, c, t, seen, rank, bound) && t.Node? && AllMet(heap, Args(t) * seen, met)
    ensures t.c == c && Hi(heap, c) == Lo(c) + |t.args|
    ensures AllMet(heap, seen * Places(Lo(c), Hi(heap, c)), met)
    ensures AllMet(heap, ArgsOf(t.args) * (seen + Places(Lo(c), Hi(heap, c))), met)
  {
    hide Fit;
    UnsharedStep(t);
    ArgsOfAreCells(t.args);
  }

  lemma {:induction false} WalkArgsNew(heap: seq<Cell>, before: set<nat>, lo: nat, ts: seq<Tree>, seen: set<nat>,
                                       met: set<Content>, rank: seq<nat>, bound: nat)
    requires WalksAll(heap, before, lo, ts, seen, rank, bound)
    requires AllMet(heap, before * Places(lo, lo + |ts|), met) && AllMet(heap, ArgsOf(ts) * seen, met)
    ensures Fit(heap, rank, bound) && lo + |ts| <= |heap|
    ensures SameNew(met, WalkArgs(heap, before, lo, lo + |ts|, seen, rank, bound).cells, Preorders(ts))
    decreases ts
  {
    hide Walk, Walks, WalksAll, Cells, Homes, Args, Unbound, Holds, HoldAll, SameNew, AllMet;
    NoArgs(heap, before, lo, ts, seen, rank, bound);
    SameNewSelf(met, []);
    if ts != [] {
      FirstArg(heap, before, lo, ts, seen, rank, bound);
      ArgsStep(heap, before, lo, ts, seen, rank, bound);
      OtherArgs(heap, before, lo, ts, seen, rank, bound);
      FirstMet(heap, before, lo, ts, seen, met, rank, bound);
      var rest := ts[1..];
      if lo in before {
        WalkArgsNew(heap, before, lo + 1, rest, seen, met, rank, bound);
        SkipMet(met, heap[lo].c, WalkArgs(heap, before, lo + 1, lo + |ts|, seen, rank, bound).cells, Preorders(rest));
      } else {
        var first := Walk(heap, heap[lo].c, false, seen, rank, bound);
        WalkNew(heap, heap[lo].c, ts[0], seen, met, rank, bound);
        WalkSees(heap, heap[lo].c, ts[0], seen, rank, bound);
        RestMet(heap, before, lo, ts, seen, met, rank, bound);
        WalkArgsNew(heap, before, lo + 1, rest, first.seen, met + Met(first.cells), rank, bound);
        SameNewSum(met, first.cells, WalkArgs(heap, before, lo + 1, lo + |ts|, first.seen, rank, bound).cells,
            Preorder(ts[0]), Preorders(rest));
      }
    }
  }

  lemma {:induction false} FirstMet(heap: seq<Cell>, before: set<nat>, lo: nat, ts: seq<Tree>, seen: set<nat>,
                                    met: set<Content>, rank: seq<nat>, bound: nat)
    requires WalksAll(heap, before, lo, ts, seen, rank, bound) && ts != []
    requires AllMet(heap, before * Places(lo, lo + |ts|), met) && AllMet(heap, ArgsOf(ts) * seen, met)
    ensures lo in before ==> IsVar(heap[lo].c) && heap[lo].c in met && Preorder(ts[0]) == [heap[lo].c]
    ensures AllMet(heap, before * Places(lo + 1, lo + |ts|), met)
    ensures AllMet(heap, Args(ts[0]) * seen, met) && AllMet(heap, ArgsOf(ts[1..]) * seen, met)
  {
    hide Fit, Args;
    FirstArg(heap, before, lo, ts, seen, rank, bound);
    assert lo in before ==> lo in before * Places(lo, lo + |ts|);
  }

  /** Once the first argument is walked, the arguments of the others that were seen have been met. */
  lemma {:induction false} RestMet(heap: seq<Cell>, before: set<nat>, lo: nat, ts: seq<Tree>, seen: set<nat>,
                                   met: set<Content>, rank: seq<nat>, bound: nat)
    requires WalksAll(heap, before, lo, ts, seen, rank, bound) && ts != [] && lo !in before
    requires AllMet(heap, before * Places(lo + 1, lo + |ts|), met) && AllMet(heap, ArgsOf(ts[1..]) * seen, met)
    requires InBounds(heap, heap[lo].c)
            && SameNew(met, Walk(heap, heap[lo].c, false, seen, rank, bound).cells, Preorder(ts[0]))
    ensures var met' := met + Met(Walk(heap, heap[lo].c, false, seen, rank, bound).cells);
            && AllMet(heap, before * Places(lo + 1, lo + |ts|), met')
            && AllMet(heap, ArgsOf(ts[1..]) * (seen + Cells(ts[0]) + Homes(ts[0])), met')
  {
    hide Fit, Args, New, Met, Cells, Homes, Walk, Unbound, ArgsOf, CellsOf, Preorder;
    FirstArg(heap, before, lo, ts, seen, rank, bound);
    HomesMet(heap, heap[lo].c, ts[0]);
    ArgsOfAreCells(ts[1..]);
  }

  /** The variables among some cells, in order of their first occurrences. */
  function FirstVars(met: set<Content>, cs: seq<Content>): seq<Content>
    decreases cs
  {
    if cs == [] then []
    else if IsVar(cs[0]) && cs[0] !in met then [cs[0]] + FirstVars(met + {cs[0]}, cs[1..])
    else FirstVars(met, cs[1..])
  }

  lemma {:induction false} VarsOfNew(met: set<Content>, cs: seq<Content>)
    ensures FirstVars(met, New(met, cs)) == FirstVars(met, cs)
    decreases cs
  {
    if cs != [] {
      MetOne(cs[0]);
      VarsOfNew(met + Met([cs[0]]), cs[1..]);
      VarsOfNew(met, cs[1..]);
      if !(IsVar(cs[0]) && cs[0] in met) {
        assert New(met, cs)[1..] == New(met + Met([cs[0]]), cs[1..]);
        assert met + {} == met;
      }
    }
  }

  // ----- every other cell is yielded once -----

  function Times(cs: seq<Content>, x: Content): nat
  {
    if cs == [] then 0 else (if cs[0] == x then 1 else 0) + Times(cs[1..], x)
  }

  /** At how many of some places, below `n`, a content is held. */
  ghost function HeldAt(heap: seq<Cell>, places: set<nat>, x: Content, n: nat): nat
    requires n <= |heap|
  {
    if n == 0 then 0
    else HeldAt(heap, places, x, n - 1) + if n - 1 in places && heap[n - 1].c == x then 1 else 0
  }

  lemma {:induction false} TimesSum(a: seq<Content>, b: seq<Content>, x: Content)
    ensures Times(a + b, x) == Times(a, x) + Times(b, x)
  {
    if a == [] {
      assert a + b == b;
    } else {
      assert (a + b)[1..] == a[1..] + b;
      TimesSum(a[1..], b, x);
    }
  }

  lemma {:induction false} TimesOne(c: Content, x: Content)
    ensures Times([c], x) == if c == x then 1 else 0
  {
    assert [c][1..] == [];
  }

  lemma {:induction false} HeldMore(heap: seq<Cell>, places: set<nat>, i: nat, x: Content, n: nat)
    requires i < |heap| && n <= |heap|
    ensures HeldAt(heap, places + {i}, x, n) ==
            HeldAt(heap, places, x, n) + if i < n && i !in places && heap[i].c == x then 1 else 0
  {
    if n > 0 {
      HeldMore(heap, places, i, x, n - 1);
    }
  }

  ghost function FreshAt(heap: seq<Cell>, before: set<nat>, lo: nat, hi: nat, x: Content): nat
    requires hi <= |heap|
    decreases hi - lo
  {
    if hi <= lo then 0
    else (if lo !in before && heap[lo].c == x then 1 else 0) + FreshAt(heap, before, lo + 1, hi, x)
  }

  lemma {:induction false} HeldPlaces(heap: seq<Cell>, seen: set<nat>, lo: nat, hi: nat, x: Content)
    requires hi <= |heap|
    ensures HeldAt(heap, seen + Places(lo, hi), x, |heap|) == HeldAt(heap, seen, x, |heap|)
            + FreshAt(heap, seen, lo, hi, x)
    decreases hi - lo
  {
    if hi <= lo {
      assert seen + Places(lo, hi) == seen;
    } else {
      var rest := seen + Places(lo + 1, hi);
      HeldPlaces(heap, seen, lo + 1, hi, x);
      HeldMore(heap, rest, lo, x, |heap|);
      assert seen + Places(lo, hi) == rest + {lo};
    }
  }

  /** Every cell but a variable is yielded as often as it is seen for the first time. */
  lemma {:induction false} WalkTimes(heap: seq<Cell>, c: Content, again: bool, seen: set<nat>, rank: seq<nat>,
                                     bound: nat, x: Content)
    requires Fit(heap, rank, bound) && InBounds(heap, c) && !IsVar(x)
    ensures var w := Walk(heap, c, again, seen, rank, bound);
            Times(w.cells, x) + HeldAt(heap, seen, x, |heap|) ==
            HeldAt(heap, w.seen, x, |heap|) + if !again && c == x then 1 else 0
    decreases Unseen(heap, seen), Slack(c, again, rank, bound), 0
  {
    hide HeldAt, Times, TouchDown, WalkArgs;
    var n := |heap|;
    TimesOne(c, x);
    NoTimes(x);
    if IsVar(c) {
      HeldMore(heap, seen, c.h, x, n);
      if Unbound(heap, c.h) {
        TimesOne(heap[c.h].c, x);
      } else {
        SeeMore(heap, seen, {c.h});
        BoundsOf(heap, c.h);
        WalkTimes(heap, heap[c.h].c, c.h in seen, seen + {c.h}, rank, bound, x);
      }
    } else if again {
    } else if c.PStrLoc? {
      BoundsOf(heap, c.tail);
      SeeMore(heap, seen, {c.tail});
      HeldMore(heap, seen, c.tail, x, n);
      WalkTimes(heap, heap[c.tail].c, c.tail in seen, seen + {c.tail}, rank, bound, x);
      TimesSum([c], Walk(heap, heap[c.tail].c, c.tail in seen, seen + {c.tail}, rank, bound).cells, x);
    } else if !(Places(Lo(c), Hi(heap, c)) <= seen) {
      var lo, hi := Lo(c), Hi(heap, c);
      SeeMore(heap, seen, Places(lo, hi));
      HeldPlaces(heap, seen, lo, hi, x);
      WalkArgsTimes(heap, seen, lo, hi, seen + Places(lo, hi), rank, bound, x);
      TimesSum([c], WalkArgs(heap, seen, lo, hi, seen + Places(lo, hi), rank, bound).cells, x);
    }
  }

  lemma {:induction false} NoTimes(x: Content)
    ensures Times([], x) == 0
  {
  }

  lemma {:induction false} WalkArgsTimes(heap: seq<Cell>, before: set<nat>, lo: nat, hi: nat, seen: set<nat>,
                                         rank: seq<nat>, bound: nat, x: Content)
    requires Fit(heap, rank, bound) && hi <= |heap| && !IsVar(x)
    ensures var w := WalkArgs(heap, before, lo, hi, seen, rank, bound);
            Times(w.cells, x) + HeldAt(heap, seen, x, |heap|) ==
            HeldAt(heap, w.seen, x, |heap|) + FreshAt(heap, before, lo, hi, x)
    decreases Unseen(heap, seen), bound + 3, hi - lo
  {
    hide HeldAt, Times, Walk;
    if hi <= lo {
      NoTimes(x);
    } else if lo in before {
      WalkArgsTimes(heap, before, lo + 1, hi, seen, rank, bound, x);
    } else {
      BoundsOf(heap, lo);
      var first := Walk(heap, heap[lo].c, false, seen, rank, bound);
      WalkTimes(heap, heap[lo].c, false, seen, rank, bound, x);
      assert Unseen(heap, first.seen) <= Unseen(heap, seen);
      WalkArgsTimes(heap, before, lo + 1, hi, first.seen, rank, bound, x);
      TimesSum(first.cells, WalkArgs(heap, before, lo + 1, hi, first.seen, rank, bound).cells, x);
    }
  }
}
