/**
 Writing a term to the heap, breadth first: a queue of holes waits for the subterms that the
 breadth-first iterator is going to yield.
 */
module TermWriter {
  import opened Options

  /** A term. An anonymous variable carries the identity of its occurrence; strings are opaque. */
  datatype Term =
    | AnonVar(id: nat)
    | Clause(name: nat, args: seq<Term>)
    | Cons(head: Term, tail: Term)
    | Literal(lit: nat)
    | PartialString(src: nat, rest: Term)
    | CompleteString(src: nat)
    | Var(name: nat)

  datatype Cell =
    | HeapLoc(h: nat)
    | ListLoc(l: nat)
    | StrLoc(s: nat)
    | Functor(name: nat, arity: nat)
    | Constant(lit: nat)
    | PStrLoc(d: nat)
    | Text(src: nat, complete: bool)

  datatype VarKey = Named(name: nat) | Anon(id: nat)

  const MAX_ARITY := 255

  function Children(t: Term): seq<Term>
  {
    match t
    case Clause(_, args) => args
    case Cons(head, tail) => [head, tail]
    case PartialString(_, rest) => [rest]
    case _ => []
  }

  /** Nested clauses have arguments. */
  predicate GoodSub(t: Term)
  {
    match t
    case Clause(_, args) => args != [] && forall i :: 0 <= i < |args| ==> GoodSub(args[i])
    case Cons(head, tail) => GoodSub(head) && GoodSub(tail)
    case PartialString(_, rest) => GoodSub(rest)
    case _ => true
  }

  predicate GoodSubs(ts: seq<Term>)
  {
    forall i :: 0 <= i < |ts| ==> GoodSub(ts[i])
  }

  /** How often an anonymous variable occurs. */
  function Occurs(ts: seq<Term>, id: nat): nat
  {
    if ts == [] then 0 else OccursIn(ts[0], id) + Occurs(ts[1..], id)
  }

  function OccursIn(t: Term, id: nat): nat
  {
    match t
    case AnonVar(i) => if i == id then 1 else 0
    case Clause(_, args) => Occurs(args, id)
    case Cons(head, tail) => OccursIn(head, id) + OccursIn(tail, id)
    case PartialString(_, rest) => OccursIn(rest, id)
    case _ => 0
  }

  // ----- representation -----

  /** The holes still to be filled: for each site, the term that belongs there. */
  datatype Holes = Holes(sites: seq<nat>, terms: seq<Term>)

  predicate Hole(holes: Holes, p: nat, t: Term, i: nat)
  {
    i < |holes.sites| && i < |holes.terms| && holes.sites[i] == p && holes.terms[i] == t
  }

  /** A cell that is final: in the heap and not a hole. */
  predicate Settled(heap: seq<Cell>, holes: Holes, p: nat)
  {
    p < |heap| && p !in holes.sites
  }

  /** Where the text of a string starts that is held by a cell, directly or through a reference. */
  function TextLoc(heap: seq<Cell>, holes: Holes, p: nat): Option<nat>
  {
    if !Settled(heap, holes, p) then None
    else if heap[p].PStrLoc? then Some(heap[p].d)
    else if heap[p].HeapLoc? && Settled(heap, holes, heap[p].h) && heap[heap[p].h].PStrLoc? then Some(heap[heap[p].h].d)
    else None
  }

  /** The cell leads to this text. */
  predicate HasText(heap: seq<Cell>, holes: Holes, p: nat, text: Cell)
  {
    var d := TextLoc(heap, holes, p);
    d.Some? && Settled(heap, holes, d.value) && heap[d.value] == text
  }

  /** The cell at `p` represents the term, with holes where subterms are still to be written. */
  ghost predicate Rep(heap: seq<Cell>, vars: map<VarKey, nat>, holes: Holes, p: nat, t: Term)
    decreases t
  {
    if p in holes.sites then exists i: nat :: Hole(holes, p, t, i)
    else
      && p < |heap|
      && match t
         case Literal(lit) => heap[p] == Constant(lit)
         case Var(name) => Named(name) in vars && heap[p] == HeapLoc(vars[Named(name)])
         case AnonVar(id) => Anon(id) in vars && vars[Anon(id)] == p && heap[p] == HeapLoc(p)
         case Cons(head, tail) =>
           heap[p].ListLoc? && Rep(heap, vars, holes, heap[p].l, head) && Rep(heap, vars, holes, heap[p].l + 1, tail)
         case Clause(name, args) =>
           if args == [] then heap[p].HeapLoc? && Settled(heap, holes, heap[p].h) && heap[heap[p].h] == Functor(name, 0)
           else
             && heap[p].StrLoc? && Settled(heap, holes, heap[p].s) && heap[heap[p].s] == Functor(name, |args|)
             && forall i :: 0 <= i < |args| ==> Rep(heap, vars, holes, heap[p].s + 1 + i, args[i])
         case CompleteString(src) => HasText(heap, holes, p, Text(src, true))
         case PartialString(src, rest) =>
           HasText(heap, holes, p, Text(src, false)) && Rep(heap, vars, holes, TextLoc(heap, holes, p).value + 1, rest)
  }

  predicate NoRepeats(s: seq<nat>)
  {
    forall i, j :: 0 <= i < j < |s| ==> s[i] != s[j]
  }

  /** Every variable has its own cell, which is unbound. */
  ghost predicate VarsOk(heap: seq<Cell>, vars: map<VarKey, nat>, sites: seq<nat>)
  {
    && (forall v :: v in vars ==> vars[v] < |heap| && vars[v] !in sites && heap[vars[v]] == HeapLoc(vars[v]))
    && (forall v, w :: v in vars && w in vars && vars[v] == vars[w] ==> v == w)
  }

  /** Holes are distinct and hold a reference to themselves. */
  ghost predicate HolesOk(heap: seq<Cell>, holes: Holes)
  {
    && |holes.sites| == |holes.terms| && NoRepeats(holes.sites) && GoodSubs(holes.terms)
    && forall i :: 0 <= i < |holes.sites| ==> holes.sites[i] < |heap| && heap[holes.sites[i]] == HeapLoc(holes.sites[i])
  }

  /** Each occurrence of an anonymous variable is still to come at most once, and only if it has no cell yet. */
  ghost predicate AnonsOk(vars: map<VarKey, nat>, terms: seq<Term>)
  {
    forall id :: Occurs(terms, id) + (if Anon(id) in vars then 1 else 0) <= 1
  }

  ghost predicate Inv(heap: seq<Cell>, vars: map<VarKey, nat>, holes: Holes, p: nat, t: Term)
  {
    && HolesOk(heap, holes) && VarsOk(heap, vars, holes.sites) && AnonsOk(vars, holes.terms)
    && Rep(heap, vars, holes, p, t)
  }

  // ----- filling a hole -----

  predicate Extends(vars: map<VarKey, nat>, vars': map<VarKey, nat>)
  {
    forall v :: v in vars ==> v in vars' && vars'[v] == vars[v]
  }

  /** The first hole is filled; cells are only added otherwise, and new holes are new cells. */
  ghost predicate Fills(heap: seq<Cell>, vars: map<VarKey, nat>, holes: Holes, heap': seq<Cell>, vars': map<VarKey,
                        nat>, holes': Holes)
  {
    && HolesOk(heap, holes) && holes.sites != []
    && |heap| <= |heap'| && (forall q :: 0 <= q < |heap| && q != holes.sites[0] ==> heap'[q] == heap[q])
    && Extends(vars, vars')
    && |holes'.sites| == |holes'.terms| >= |holes.sites| - 1
    && holes'.sites[..|holes.sites| - 1] == holes.sites[1..] && holes'.terms[..|holes.terms| - 1] == holes.terms[1..]
    && forall i :: |holes.sites| - 1 <= i < |holes'.sites| ==> holes'.sites[i] >= |heap|
  }

  lemma {:induction false} SettledKept(heap: seq<Cell>, vars: map<VarKey, nat>, holes: Holes, heap': seq<Cell>,
                                       vars': map<VarKey, nat>, holes': Holes, p: nat)
    requires Fills(heap, vars, holes, heap', vars', holes') && Settled(heap, holes, p)
    ensures Settled(heap', holes', p) && heap'[p] == heap[p]
  {
    forall i | 0 <= i < |holes'.sites| ensures holes'.sites[i] != p {
      if i < |holes.sites| - 1 {
        assert holes'.sites[i] == holes'.sites[..|holes.sites| - 1][i] == holes.sites[i + 1];
      }
    }
  }

  /** Holes other than the first stay as they are. */
  lemma {:induction false} HoleKept(heap: seq<Cell>, vars: map<VarKey, nat>, holes: Holes, heap': seq<Cell>,
                                    vars': map<VarKey, nat>, holes': Holes, p: nat, t: Term, i: nat)
    requires Fills(heap, vars, holes, heap', vars', holes') && Hole(holes, p, t, i) && i > 0
    ensures p in holes'.sites && Hole(holes', p, t, i - 1)
  {
    assert holes'.sites[..|holes.sites| - 1][i - 1] == holes.sites[1..][i - 1];
    assert holes'.terms[..|holes.terms| - 1][i - 1] == holes.terms[1..][i - 1];
  }

  lemma {:induction false} TextKept(heap: seq<Cell>, vars: map<VarKey, nat>, holes: Holes, heap': seq<Cell>,
                                    vars': map<VarKey, nat>, holes': Holes, p: nat, text: Cell)
    requires Fills(heap, vars, holes, heap', vars', holes') && HasText(heap, holes, p, text)
    ensures HasText(heap', holes', p, text) && TextLoc(heap', holes', p) == TextLoc(heap, holes, p)
  {
    hide Fills;
    SettledKept(heap, vars, holes, heap', vars', holes', p);
    SettledKept(heap, vars, holes, heap', vars', holes', TextLoc(heap, holes, p).value);
    if !heap[p].PStrLoc? {
      SettledKept(heap, vars, holes, heap', vars', holes', heap[p].h);
    }
  }

  /** Filling the first hole with what belongs there keeps everything represented. */
  lemma {:induction false} RepKept(heap: seq<Cell>, vars: map<VarKey, nat>, holes: Holes, heap': seq<Cell>,
                                   vars': map<VarKey, nat>, holes': Holes, p: nat, t: Term)
    requires Fills(heap, vars, holes, heap', vars', holes') && |holes.terms| > 0
    requires Rep(heap', vars', holes', holes.sites[0], holes.terms[0]) && Rep(heap, vars, holes, p, t)
    ensures Rep(heap', vars', holes', p, t)
    decreases t, 1
  {
    if p in holes.sites {
      RepHole(heap, vars, holes, heap', vars', holes', p, t);
    } else {
      hide Fills;
      assert Settled(heap, holes, p);
      SettledKept(heap, vars, holes, heap', vars', holes', p);
      if t.Clause? {
        ClauseKept(heap, vars, holes, heap', vars', holes', p, t);
      } else if t.Cons? {
        RepKept(heap, vars, holes, heap', vars', holes', heap[p].l, t.head);
        RepKept(heap, vars, holes, heap', vars', holes', heap[p].l + 1, t.tail);
      } else if t.CompleteString? {
        TextKept(heap, vars, holes, heap', vars', holes', p, Text(t.src, true));
      } else if t.PartialString? {
        TextKept(heap, vars, holes, heap', vars', holes', p, Text(t.src, false));
        RepKept(heap, vars, holes, heap', vars', holes', TextLoc(heap, holes, p).value + 1, t.rest);
      } else {
        FlatKept(heap, vars, holes, heap', vars', holes', p, t);
      }
    }
  }

  lemma {:induction false} FlatKept(heap: seq<Cell>, vars: map<VarKey, nat>, holes: Holes, heap': seq<Cell>,
                                    vars': map<VarKey, nat>, holes': Holes, p: nat, t: Term)
    requires Fills(heap, vars, holes, heap', vars', holes') && Settled(heap, holes, p)
    requires (t.Literal? || t.Var? || t.AnonVar?) && Rep(heap, vars, holes, p, t)
    ensures Rep(heap', vars', holes', p, t)
  {
    SettledKept(heap, vars, holes, heap', vars', holes', p);
  }

  lemma {:induction false} RepHole(heap: seq<Cell>, vars: map<VarKey, nat>, holes: Holes, heap': seq<Cell>,
                                   vars': map<VarKey, nat>, holes': Holes, p: nat, t: Term)
    requires Fills(heap, vars, holes, heap', vars', holes') && |holes.terms| > 0 && p in holes.sites
    requires Rep(heap', vars', holes', holes.sites[0], holes.terms[0]) && Rep(heap, vars, holes, p, t)
    ensures Rep(heap', vars', holes', p, t)
  {
    var i: nat :| Hole(holes, p, t, i);
    if i > 0 {
      HoleKept(heap, vars, holes, heap', vars', holes', p, t, i);
    }
  }

  lemma {:induction false} ClauseKept(heap: seq<Cell>, vars: map<VarKey, nat>, holes: Holes, heap': seq<Cell>,
                                      vars': map<VarKey, nat>, holes': Holes, p: nat, t: Term)
    requires Fills(heap, vars, holes, heap', vars', holes') && |holes.terms| > 0 && t.Clause? && Settled(heap, holes, p)
    requires Rep(heap', vars', holes', holes.sites[0], holes.terms[0]) && Rep(heap, vars, holes, p, t)
    ensures Rep(heap', vars', holes', p, t)
    decreases t, 0
  {
    hide Fills;
    SettledKept(heap, vars, holes, heap', vars', holes', p);
    if t.args == [] {
      SettledKept(heap, vars, holes, heap', vars', holes', heap[p].h);
    } else {
      SettledKept(heap, vars, holes, heap', vars', holes', heap[p].s);
      forall i | 0 <= i < |t.args| ensures Rep(heap', vars', holes', heap[p].s + 1 + i, t.args[i]) {
        RepKept(heap, vars, holes, heap', vars', holes', heap[p].s + 1 + i, t.args[i]);
      }
    }
  }

  // ----- what is written for each kind of subterm -----

  function Range(from: nat, n: nat): (r: seq<nat>)
    ensures |r| == n && forall i :: 0 <= i < n ==> r[i] == from + i
  {
    seq(n, i requires 0 <= i < n => from + i)
  }

  function Stubs(from: nat, n: nat): (r: seq<Cell>)
    ensures |r| == n && forall i :: 0 <= i < n ==> r[i] == HeapLoc(from + i)
  {
    seq(n, i requires 0 <= i < n => HeapLoc(from + i))
  }

  /** The cells added to a heap of size `h` for a subterm. */
  function Added(h: nat, t: Term): seq<Cell>
  {
    match t
    case Cons(_, _) => Stubs(h, 2)
    case Clause(name, args) => [Functor(name, |args|)] + Stubs(h + 1, |args|)
    case CompleteString(src) => [Text(src, true), PStrLoc(h)]
    case PartialString(src, _) => [Text(src, false), HeapLoc(h + 1), PStrLoc(h)]
    case _ => []
  }

  /** The first of its holes. */
  function FirstSite(h: nat, t: Term): nat
  {
    if t.Cons? then h else h + 1
  }

  function KeyOf(t: Term): VarKey
    requires t.Var? || t.AnonVar?
  {
    if t.Var? then Named(t.name) else Anon(t.id)
  }

  function NewVars(vars: map<VarKey, nat>, s: nat, t: Term): map<VarKey, nat>
  {
    if (t.Var? || t.AnonVar?) && KeyOf(t) !in vars then vars[KeyOf(t) := s] else vars
  }

  /** What the hole at `s` is filled with. */
  function Link(h: nat, vars: map<VarKey, nat>, s: nat, t: Term): Cell
  {
    match t
    case Cons(_, _) => ListLoc(h)
    case Clause(_, _) => StrLoc(h)
    case CompleteString(_) => HeapLoc(h + 1)
    case PartialString(_, _) => HeapLoc(h + 2)
    case Literal(lit) => Constant(lit)
    case Var(name) => if Named(name) in vars then HeapLoc(vars[Named(name)]) else HeapLoc(s)
    case AnonVar(_) => HeapLoc(s)
  }

  function NewHeap(heap: seq<Cell>, vars: map<VarKey, nat>, s: nat, t: Term): seq<Cell>
    requires s < |heap|
  {
    (heap + Added(|heap|, t))[s := Link(|heap|, vars, s, t)]
  }

  function NewHoles(heap: seq<Cell>, holes: Holes): Holes
    requires holes.sites != [] && holes.terms != []
  {
    var t := holes.terms[0];
    Holes(holes.sites[1..] + Range(FirstSite(|heap|, t), |Children(t)|), holes.terms[1..] + Children(t))
  }

  lemma {:induction false} OccursConcat(a: seq<Term>, b: seq<Term>, id: nat)
    ensures Occurs(a + b, id) == Occurs(a, id) + Occurs(b, id)
  {
    if a == [] {
      assert a + b == b;
    } else {
      assert (a + b)[1..] == a[1..] + b;
      OccursConcat(a[1..], b, id);
    }
  }

  lemma {:induction false} OccursChildren(t: Term, id: nat)
    requires !t.AnonVar?
    ensures Occurs(Children(t), id) == OccursIn(t, id)
  {
    if t.Cons? {
      assert [t.head, t.tail][1..] == [t.tail] && [t.tail][1..] == [];
      assert Occurs([t.tail], id) == OccursIn(t.tail, id) + Occurs([], id);
    } else if t.PartialString? {
      assert [t.rest][1..] == [];
    }
  }

  lemma {:induction false} AnonsStep(vars: map<VarKey, nat>, terms: seq<Term>, s: nat)
    requires AnonsOk(vars, terms) && terms != []
    ensures AnonsOk(NewVars(vars, s, terms[0]), terms[1..] + Children(terms[0]))
    ensures terms[0].AnonVar? ==> KeyOf(terms[0]) !in vars
  {
    var t := terms[0];
    forall id ensures Occurs(terms[1..] + Children(t), id) + (if Anon(id) in NewVars(vars, s, t) then 1 else 0) <= 1 {
      assert Occurs(terms, id) == OccursIn(t, id) + Occurs(terms[1..], id);
      OccursConcat(terms[1..], Children(t), id);
      if !t.AnonVar? {
        OccursChildren(t, id);
      }
    }
    if t.AnonVar? {
      assert OccursIn(t, t.id) == 1 && Occurs(terms, t.id) >= 1;
    }
  }

  lemma {:induction false} SitesDistinct(sites: seq<nat>, from: nat, n: nat, h: nat)
    requires NoRepeats(sites) && sites != [] && (forall i :: 0 <= i < |sites| ==> sites[i] < h) && h <= from
    ensures NoRepeats(sites[1..] + Range(from, n)) && sites[0] !in sites[1..] + Range(from, n)
  {
    var all := sites[1..] + Range(from, n);
    assert forall i :: 0 <= i < |all| ==> all[i] == if i < |sites| - 1 then sites[i + 1]
            else from + (i - (|sites| - 1));
  }

  lemma {:induction false} NewCells(heap: seq<Cell>, vars: map<VarKey, nat>, s: nat, t: Term)
    requires s < |heap|
    ensures var heap' := NewHeap(heap, vars, s, t);
            && |heap| + |Children(t)| <= |heap'| && heap'[s] == Link(|heap|, vars, s, t)
            && FirstSite(|heap|, t) >= |heap|
            && (Children(t) != [] ==> FirstSite(|heap|, t) + |Children(t)| <= |heap'|)
            && (forall q :: 0 <= q < |heap| && q != s ==> heap'[q] == heap[q])
  {
  }

  lemma {:induction false} NewCellAt(heap: seq<Cell>, vars: map<VarKey, nat>, s: nat, t: Term, i: nat)
    requires s < |heap| && i < |Added(|heap|, t)|
    ensures |heap| + i < |NewHeap(heap, vars, s, t)| && NewHeap(heap, vars, s, t)[|heap| + i] == Added(|heap|, t)[i]
  {
  }

  lemma {:induction false} NewStub(heap: seq<Cell>, vars: map<VarKey, nat>, s: nat, t: Term, i: nat)
    requires s < |heap| && i < |Children(t)|
    ensures var q := FirstSite(|heap|, t) + i;
            q < |NewHeap(heap, vars, s, t)| && NewHeap(heap, vars, s, t)[q] == HeapLoc(q)
  {
    var heap' := NewHeap(heap, vars, s, t);
    var k := FirstSite(|heap|, t) + i - |heap|;
    NewCellAt(heap, vars, s, t, k);
  }

  lemma {:induction false} FillsHole(heap: seq<Cell>, vars: map<VarKey, nat>, holes: Holes)
    requires HolesOk(heap, holes) && holes.sites != []
    ensures var s, t := holes.sites[0], holes.terms[0];
            Fills(heap, vars, holes, NewHeap(heap, vars, s, t), NewVars(vars, s, t), NewHoles(heap, holes))
  {
    hide NewHeap, HolesOk, Link, Added;
    HolesFacts(heap, holes);
    NewCells(heap, vars, holes.sites[0], holes.terms[0]);
    var holes' := NewHoles(heap, holes);
    assert holes'.sites[..|holes.sites| - 1] == holes.sites[1..]
            && holes'.terms[..|holes.terms| - 1] == holes.terms[1..];
  }

  lemma {:induction false} HolesFacts(heap: seq<Cell>, holes: Holes)
    requires HolesOk(heap, holes)
    ensures |holes.sites| == |holes.terms| && NoRepeats(holes.sites)
    ensures forall i :: 0 <= i < |holes.sites| ==> holes.sites[i] < |heap|
  {
  }

  lemma {:induction false} ChildrenGood(t: Term)
    requires GoodSub(t)
    ensures GoodSubs(Children(t))
  {
  }

  lemma {:induction false} HolesStep(heap: seq<Cell>, vars: map<VarKey, nat>, holes: Holes)
    requires HolesOk(heap, holes) && holes.sites != []
    ensures HolesOk(NewHeap(heap, vars, holes.sites[0], holes.terms[0]), NewHoles(heap, holes))
  {
    hide NewHeap, Link, Added, NoRepeats;
    var s, t := holes.sites[0], holes.terms[0];
    var heap', holes' := NewHeap(heap, vars, s, t), NewHoles(heap, holes);
    NewCells(heap, vars, s, t);
    SitesDistinct(holes.sites, FirstSite(|heap|, t), |Children(t)|, |heap|);
    ChildrenGood(t);
    forall i | 0 <= i < |holes'.sites| ensures holes'.sites[i] < |heap'|
        && heap'[holes'.sites[i]] == HeapLoc(holes'.sites[i]) {
      var n := |holes.sites| - 1;
      if i < n {
        assert holes'.sites[i] == holes.sites[i + 1] && holes'.sites[i] != s;
      } else {
        NewStub(heap, vars, s, t, i - n);
        assert holes'.sites[i] == FirstSite(|heap|, t) + (i - n);
      }
    }
    forall i | 0 <= i < |holes'.terms| ensures GoodSub(holes'.terms[i]) {
      if i < |holes.terms| - 1 {
        assert holes'.terms[i] == holes.terms[i + 1];
      } else {
        assert holes'.terms[i] == Children(t)[i - (|holes.terms| - 1)];
      }
    }
  }

  lemma {:induction false} VarsStep(heap: seq<Cell>, vars: map<VarKey, nat>, holes: Holes)
    requires HolesOk(heap, holes) && holes.sites != [] && VarsOk(heap, vars, holes.sites)
    ensures var s, t := holes.sites[0], holes.terms[0];
            VarsOk(NewHeap(heap, vars, s, t), NewVars(vars, s, t), NewHoles(heap, holes).sites)
  {
    hide NewHeap, Added, NoRepeats;
    var s, t := holes.sites[0], holes.terms[0];
    var heap', vars', sites' := NewHeap(heap, vars, s, t), NewVars(vars, s, t), NewHoles(heap, holes).sites;
    NewCells(heap, vars, s, t);
    SitesDistinct(holes.sites, FirstSite(|heap|, t), |Children(t)|, |heap|);
    forall v | v in vars' ensures vars'[v] < |heap'| && vars'[v] !in sites' && heap'[vars'[v]] == HeapLoc(vars'[v]) {
      if v in vars {
        assert vars'[v] == vars[v] && vars[v] != s;
      }
    }
  }

  /** The holes made for a subterm's children wait for those children. */
  lemma {:induction false} ChildHole(heap: seq<Cell>, holes: Holes, i: nat)
    requires |holes.sites| == |holes.terms| && holes.sites != [] && i < |Children(holes.terms[0])|
    ensures var t, holes' := holes.terms[0], NewHoles(heap, holes);
            var p := FirstSite(|heap|, t) + i;
            p in holes'.sites && Hole(holes', p, Children(t)[i], |holes.sites| - 1 + i)
  {
    var t, holes' := holes.terms[0], NewHoles(heap, holes);
    var k := |holes.sites| - 1 + i;
    assert holes'.sites[k] == FirstSite(|heap|, t) + i && holes'.terms[k] == Children(t)[i];
  }

  lemma {:induction false} ChildRep(heap: seq<Cell>, vars: map<VarKey, nat>, holes: Holes, heap': seq<Cell>, i: nat)
    requires |holes.sites| == |holes.terms| && holes.sites != [] && i < |Children(holes.terms[0])|
    ensures Rep(heap', vars, NewHoles(heap, holes), FirstSite(|heap|, holes.terms[0]) + i, Children(holes.terms[0])[i])
  {
    hide NewHoles;
    ChildHole(heap, holes, i);
  }

  /** The new cells that are not holes are settled. */
  lemma {:induction false} NewSettled(heap: seq<Cell>, vars: map<VarKey, nat>, holes: Holes, q: nat)
    requires HolesOk(heap, holes) && holes.sites != []
    requires var h, t := |heap|, holes.terms[0];
             q == holes.sites[0] ||
             (&& h <= q < h + |Added(h, t)|
              && (Children(t) != [] ==> q < FirstSite(h, t) || q >= FirstSite(h, t) + |Children(t)|))
    ensures Settled(NewHeap(heap, vars, holes.sites[0], holes.terms[0]), NewHoles(heap, holes), q)
  {
    hide NewHeap, Added, Link, NoRepeats;
    var s, t := holes.sites[0], holes.terms[0];
    NewCells(heap, vars, s, t);
    SitesDistinct(holes.sites, FirstSite(|heap|, t), |Children(t)|, |heap|);
    var sites' := NewHoles(heap, holes).sites;
    NewLength(heap, vars, s, t);
    forall i | 0 <= i < |sites'| ensures sites'[i] != q {
      if i < |holes.sites| - 1 {
        assert sites'[i] == holes.sites[i + 1];
      } else {
        assert sites'[i] == FirstSite(|heap|, t) + (i - (|holes.sites| - 1));
      }
    }
  }

  lemma {:induction false} NewLength(heap: seq<Cell>, vars: map<VarKey, nat>, s: nat, t: Term)
    requires s < |heap|
    ensures |NewHeap(heap, vars, s, t)| == |heap| + |Added(|heap|, t)|
  {
  }

  /** The filled hole represents its subterm, whose children wait in the new holes. */
  lemma {:induction false} LinkRep(heap: seq<Cell>, vars: map<VarKey, nat>, holes: Holes)
    requires HolesOk(heap, holes) && holes.sites != [] && (holes.terms[0].AnonVar? ==> KeyOf(holes.terms[0]) !in vars)
    ensures var s, t := holes.sites[0], holes.terms[0];
            Rep(NewHeap(heap, vars, s, t), NewVars(vars, s, t), NewHoles(heap, holes), s, t)
  {
    hide NewHeap, NewHoles, HolesOk;
    HolesFacts(heap, holes);
    var s, t := holes.sites[0], holes.terms[0];
    var heap', vars' := NewHeap(heap, vars, s, t), NewVars(vars, s, t);
    NewCells(heap, vars, s, t);
    NewSettled(heap, vars, holes, s);
    if t.Clause? {
      ClauseRep(heap, vars, holes);
    } else if t.Cons? {
      ChildRep(heap, vars', holes, heap', 0);
      ChildRep(heap, vars', holes, heap', 1);
    } else if t.CompleteString? {
      NewSettled(heap, vars, holes, |heap|);
      NewSettled(heap, vars, holes, |heap| + 1);
      NewCellAt(heap, vars, s, t, 0);
      NewCellAt(heap, vars, s, t, 1);
    } else if t.PartialString? {
      NewSettled(heap, vars, holes, |heap|);
      NewSettled(heap, vars, holes, |heap| + 2);
      NewCellAt(heap, vars, s, t, 0);
      NewCellAt(heap, vars, s, t, 2);
      ChildRep(heap, vars', holes, heap', 0);
    }
  }

  lemma {:induction false} ClauseRep(heap: seq<Cell>, vars: map<VarKey, nat>, holes: Holes)
    requires HolesOk(heap, holes) && holes.sites != [] && holes.terms[0].Clause?
    ensures var s, t := holes.sites[0], holes.terms[0];
            Rep(NewHeap(heap, vars, s, t), NewVars(vars, s, t), NewHoles(heap, holes), s, t)
  {
    hide NewHeap, NewHoles, HolesOk, Rep;
    HolesFacts(heap, holes);
    FirstGood(heap, holes);
    var s, t := holes.sites[0], holes.terms[0];
    var heap', vars', holes' := NewHeap(heap, vars, s, t), NewVars(vars, s, t), NewHoles(heap, holes);
    NewCells(heap, vars, s, t);
    NewSettled(heap, vars, holes, s);
    NewSettled(heap, vars, holes, |heap|);
    NewCellAt(heap, vars, s, t, 0);
    forall i | 0 <= i < |t.args| ensures Rep(heap', vars', holes', |heap| + 1 + i, t.args[i]) {
      ChildRep(heap, vars', holes, heap', i);
    }
    ClauseFrom(heap', vars', holes', s, t, |heap|);
  }

  lemma {:induction false} FirstGood(heap: seq<Cell>, holes: Holes)
    requires HolesOk(heap, holes) && holes.sites != []
    ensures GoodSub(holes.terms[0]) && (holes.terms[0].Clause? ==> Children(holes.terms[0]) != [])
  {
  }

  lemma {:induction false} ClauseFrom(heap: seq<Cell>, vars: map<VarKey, nat>, holes: Holes, p: nat, t: Term, s: nat)
    requires t.Clause? && t.args != [] && Settled(heap, holes, p) && heap[p] == StrLoc(s)
    requires Settled(heap, holes, s) && heap[s] == Functor(t.name, |t.args|)
    requires forall i :: 0 <= i < |t.args| ==> Rep(heap, vars, holes, s + 1 + i, t.args[i])
    ensures Rep(heap, vars, holes, p, t)
  {
  }

  /** Writing the next subterm keeps the invariant. */
  lemma {:induction false} WriteKeeps(heap: seq<Cell>, vars: map<VarKey, nat>, holes: Holes, p: nat, t: Term)
    requires Inv(heap, vars, holes, p, t) && holes.sites != []
    ensures var s, next := holes.sites[0], holes.terms[0];
            Inv(NewHeap(heap, vars, s, next), NewVars(vars, s, next), NewHoles(heap, holes), p, t)
  {
    hide Rep, HolesOk, VarsOk, AnonsOk, NewHeap, NewVars, NewHoles, Fills;
    HolesFacts(heap, holes);
    AnonsStep(vars, holes.terms, holes.sites[0]);
    var s, next := holes.sites[0], holes.terms[0];
    HolesStep(heap, vars, holes);
    VarsStep(heap, vars, holes);
    LinkRep(heap, vars, holes);
    FillsHole(heap, vars, holes);
    RepKept(heap, vars, holes, NewHeap(heap, vars, s, next), NewVars(vars, s, next), NewHoles(heap, holes), p, t);
    TermsNext(heap, holes);
  }

  lemma {:induction false} TermsNext(heap: seq<Cell>, holes: Holes)
    requires holes.sites != [] && holes.terms != []
    ensures NewHoles(heap, holes).terms == holes.terms[1..] + Children(holes.terms[0])
  {
  }

  // ----- the root -----

  /** Before anything is written, the whole term is a hole. */
  lemma {:induction false} OneHole(heap: seq<Cell>, t: Term)
    requires GoodSub(t) && AnonsOk(map[], [t])
    ensures Inv(heap + [HeapLoc(|heap|)], map[], Holes([|heap|], [t]), |heap|, t)
  {
    assert Hole(Holes([|heap|], [t]), |heap|, t, 0);
  }

  /** The root is written in place; a string or a clause without arguments is linked directly. */
  function RootHeap(heap: seq<Cell>, t: Term): seq<Cell>
  {
    var h := |heap|;
    if t.Clause? && t.args == [] then heap + [HeapLoc(h + 1), Functor(t.name, 0)]
    else if t.CompleteString? then heap + [PStrLoc(h + 1), Text(t.src, true), PStrLoc(h + 1)]
    else if t.PartialString? then heap + [PStrLoc(h + 1), Text(t.src, false), HeapLoc(h + 2)]
    else NewHeap(heap + [HeapLoc(h)], map[], h, t)
  }

  function RootHoles(heap: seq<Cell>, t: Term): Holes
  {
    Holes(Range(FirstSite(|heap| + 1, t), |Children(t)|), Children(t))
  }

  /** The subterms of a term are good; the term itself may be a clause without arguments. */
  ghost predicate GoodRoot(t: Term)
  {
    GoodSubs(Children(t)) && forall id :: OccursIn(t, id) <= 1
  }

  lemma {:induction false} RootKeeps(heap: seq<Cell>, t: Term)
    requires GoodRoot(t)
    ensures Inv(RootHeap(heap, t), NewVars(map[], |heap|, t), RootHoles(heap, t), |heap|, t)
  {
    hide Inv, NewHeap, GoodSub, GoodRoot, FirstSite, Children, RootHoles, NewHoles;
    var heap0, h := heap + [HeapLoc(|heap|)], |heap|;
    if t.Clause? && t.args == [] {
      RootFlat(heap, t);
    } else if t.CompleteString? || t.PartialString? {
      RootString(heap, t);
    } else {
      RootSub(t);
      OneHole(heap, t);
      WriteKeeps(heap0, map[], Holes([h], [t]), h, t);
      SameHoles(heap, t);
    }
  }

  lemma {:induction false} SameHoles(heap: seq<Cell>, t: Term)
    ensures NewHoles(heap + [HeapLoc(|heap|)], Holes([|heap|], [t])) == RootHoles(heap, t)
  {
    var h := |heap|;
    assert [h][1..] + Range(FirstSite(h + 1, t), |Children(t)|) == Range(FirstSite(h + 1, t), |Children(t)|);
    assert [t][1..] + Children(t) == Children(t);
  }

  lemma {:induction false} RootSub(t: Term)
    requires GoodRoot(t) && !(t.Clause? && t.args == [])
    ensures GoodSub(t) && AnonsOk(map[], [t])
  {
    forall id ensures Occurs([t], id) == OccursIn(t, id) {
      assert [t][1..] == [];
    }
    if t.Clause? {
      assert GoodSubs(t.args);
    } else if t.Cons? {
      assert GoodSub([t.head, t.tail][0]) && GoodSub([t.head, t.tail][1]);
    } else if t.PartialString? {
      assert GoodSub([t.rest][0]);
    }
  }

  lemma {:induction false} NothingOccurs(id: nat)
    ensures Occurs([], id) == 0
  {
  }

  lemma {:induction false} RootFlat(heap: seq<Cell>, t: Term)
    requires t.Clause? && t.args == []
    ensures Inv(RootHeap(heap, t), map[], RootHoles(heap, t), |heap|, t)
  {
    forall id ensures Occurs(RootHoles(heap, t).terms, id) == 0 { NothingOccurs(id); }
    var heap' := RootHeap(heap, t);
    assert heap'[|heap|] == HeapLoc(|heap| + 1) && heap'[|heap| + 1] == Functor(t.name, 0);
  }

  lemma {:induction false} RootString(heap: seq<Cell>, t: Term)
    requires (t.CompleteString? || t.PartialString?) && GoodRoot(t)
    ensures Inv(RootHeap(heap, t), map[], RootHoles(heap, t), |heap|, t)
  {
    var heap', holes := RootHeap(heap, t), RootHoles(heap, t);
    assert heap'[|heap|] == PStrLoc(|heap| + 1);
    forall id ensures Occurs(holes.terms, id) == OccursIn(t, id) {
      OccursChildren(t, id);
    }
    if t.PartialString? {
      assert heap'[|heap| + 1] == Text(t.src, false) && heap'[|heap| + 2] == HeapLoc(|heap| + 2);
      assert holes.sites[0] == |heap| + 2 && Hole(holes, |heap| + 2, t.rest, 0);
    } else {
      assert heap'[|heap| + 1] == Text(t.src, true);
    }
  }

  // ----- the queue of holes -----

  datatype Group = Group(count: nat, site: nat)

  /** The sites a queue of holes stands for. */
  function Sites(queue: seq<Group>): seq<nat>
  {
    if queue == [] then [] else Range(queue[0].site, queue[0].count) + Sites(queue[1..])
  }

  predicate GoodQueue(queue: seq<Group>)
  {
    forall i :: 0 <= i < |queue| ==> queue[i].count > 0
  }

  function PopHole(queue: seq<Group>): seq<Group>
    requires queue != []
  {
    if queue[0].count > 1 then [Group(queue[0].count - 1, queue[0].site + 1)] + queue[1..] else queue[1..]
  }

  lemma {:induction false} PopSites(queue: seq<Group>)
    requires queue != [] && GoodQueue(queue)
    ensures Sites(queue) != [] && Sites(queue)[0] == queue[0].site && Sites(PopHole(queue)) == Sites(queue)[1..]
            && GoodQueue(PopHole(queue))
  {
    var g := queue[0];
    assert Range(g.site, g.count)[1..] == Range(g.site + 1, g.count - 1);
    assert (Range(g.site, g.count) + Sites(queue[1..]))[1..] == Range(g.site, g.count)[1..] + Sites(queue[1..]);
    if g.count > 1 {
      assert PopHole(queue)[1..] == queue[1..];
    }
  }

  lemma {:induction false} PushSites(queue: seq<Group>, g: Group)
    ensures Sites(queue + [g]) == Sites(queue) + Range(g.site, g.count)
  {
    if queue == [] {
      assert [g][1..] == [];
    } else {
      assert (queue + [g])[1..] == queue[1..] + [g];
      PushSites(queue[1..], g);
    }
  }

  lemma {:induction false} NoSites()
    ensures Sites([]) == []
  {
  }

  // ----- the iterator and the writer -----

  /** The breadth-first iterator. */
  class FactIterator {
    var stateQueue: seq<Term>

    constructor (terms: seq<Term>)
      ensures stateQueue == terms
    {
      stateQueue := terms;
    }

    method Advance() returns (t: Option<Term>)
      modifies this
      ensures old(stateQueue) == [] ==> t.None? && stateQueue == []
      ensures old(stateQueue) != [] ==>
                t == Some(old(stateQueue)[0]) && stateQueue == old(stateQueue)[1..] + Children(t.value)
    {
      if stateQueue == [] {
        return None;
      }
      var next := stateQueue[0];
      stateQueue := stateQueue[1..];
      ghost var rest := stateQueue;
      var children := Children(next);
      for i := 0 to |children|
        invariant stateQueue == rest + children[..i]
      {
        stateQueue := stateQueue + [children[i]];
      }
      assert children[..|children|] == children;
      return Some(next);
    }
  }

  function TermSize(t: Term): nat
  {
    match t
    case Clause(_, args) => 1 + TermSizes(args)
    case Cons(head, tail) => 1 + TermSize(head) + TermSize(tail)
    case PartialString(_, rest) => 1 + TermSize(rest)
    case _ => 1
  }

  function TermSizes(ts: seq<Term>): nat
  {
    if ts == [] then 0 else TermSize(ts[0]) + TermSizes(ts[1..])
  }

  lemma {:induction false} SizesConcat(a: seq<Term>, b: seq<Term>)
    ensures TermSizes(a + b) == TermSizes(a) + TermSizes(b)
  {
    if a == [] {
      assert a + b == b;
    } else {
      assert (a + b)[1..] == a[1..] + b;
      SizesConcat(a[1..], b);
    }
  }

  lemma {:induction false} ChildrenSmaller(ts: seq<Term>)
    requires ts != []
    ensures TermSizes(ts[1..] + Children(ts[0])) < TermSizes(ts)
  {
    var t := ts[0];
    SizesConcat(ts[1..], Children(t));
    if t.Cons? {
      assert [t.head, t.tail][1..] == [t.tail] && [t.tail][1..] == [];
      assert TermSizes([t.tail]) == TermSize(t.tail) + TermSizes([]);
    } else if t.PartialString? {
      assert [t.rest][1..] == [];
    }
  }

  // ----- entries for anonymous variables -----

  /** The order in which subterms are visited. */
  function Visited(ts: seq<Term>): seq<Term>
    decreases TermSizes(ts)
  {
    if ts == [] then []
    else
      ChildrenSmaller(ts);
      [ts[0]] + Visited(ts[1..] + Children(ts[0]))
  }

  /** Subterms that are written into their hole alone. */
  predicate Flat(t: Term)
  {
    t.Literal? || t.Var? || t.AnonVar?
  }

  /** The length of the heap when subterm `i` is visited; `h` is its length before the first. */
  function LengthAt(h: nat, seen: seq<Term>, i: nat): nat
    requires i <= |seen|
  {
    if i == 0 then h else LengthAt(h, seen, i - 1) + |Added(0, seen[i - 1])|
  }

  /** The entries after `n` visits: an anonymous variable has the length of the heap as its key. */
  function Entries(h: nat, seen: seq<Term>, vars: map<VarKey, nat>, n: nat): map<nat, nat>
    requires n <= |seen|
  {
    if n == 0 then map[]
    else
      var before, t := Entries(h, seen, vars, n - 1), seen[n - 1];
      if t.AnonVar? && Anon(t.id) in vars then before[LengthAt(h, seen, n - 1) := vars[Anon(t.id)]] else before
  }

  /** The first `n` visited anonymous variables have cells, and no two of them are the same. */
  predicate AnonsKnown(seen: seq<Term>, vars: map<VarKey, nat>, n: nat)
    requires n <= |seen|
  {
    && (forall i :: 0 <= i < n && seen[i].AnonVar? ==> Anon(seen[i].id) in vars)
    && (forall i, j :: 0 <= i < j < n && seen[i].AnonVar? && seen[j].AnonVar? ==> seen[i] != seen[j])
  }

  /** The state of things after `n` visits. */
  ghost predicate Logged(h: nat, all: seq<Term>, n: nat, length: nat, vars: map<VarKey, nat>, dict: map<nat, nat>,
                         coming: seq<Term>)
  {
    && n <= |all| && all[n..] == Visited(coming) && length == LengthAt(h, all, n)
    && AnonsKnown(all, vars, n) && dict == Entries(h, all, vars, n)
  }

  lemma {:induction false} EntriesKept(h: nat, seen: seq<Term>, vars: map<VarKey, nat>, vars': map<VarKey, nat>, n: nat)
    requires n <= |seen| && AnonsKnown(seen, vars, n) && Extends(vars, vars')
    ensures Entries(h, seen, vars', n) == Entries(h, seen, vars, n)
  {
    if n > 0 {
      EntriesKept(h, seen, vars, vars', n - 1);
    }
  }

  lemma {:induction false} LoggedStart(h: nat, all: seq<Term>, vars: map<VarKey, nat>)
    ensures LengthAt(h, all, 0) == h && AnonsKnown(all, vars, 0) && Entries(h, all, vars, 0) == map[] && all[0..] == all
  {
  }

  lemma {:induction false} LoggedEnd(h: nat, all: seq<Term>, n: nat, length: nat, vars: map<VarKey, nat>,
                                     dict: map<nat, nat>)
    requires Logged(h, all, n, length, vars, dict, [])
    ensures n == |all| && AnonsKnown(all, vars, |all|) && dict == Entries(h, all, vars, |all|)
  {
  }

  lemma {:induction false} GrowsBy(heap: seq<Cell>, vars: map<VarKey, nat>, s: nat, t: Term)
    requires s < |heap|
    ensures |NewHeap(heap, vars, s, t)| == |heap| + |Added(0, t)|
  {
  }

  lemma {:induction false} LoggedStep(h: nat, all: seq<Term>, n: nat, length: nat, vars: map<VarKey, nat>,
                                      dict: map<nat, nat>, coming: seq<Term>, s: nat)
    requires Logged(h, all, n, length, vars, dict, coming) && coming != [] && AnonsOk(vars, coming)
    ensures var t := coming[0];
            Logged(h, all, n + 1, length + |Added(0, t)|, NewVars(vars, s, t), if t.AnonVar? then dict[length := s]
                else dict,
                   coming[1..] + Children(t))
  {
    var t := coming[0];
    var vars' := NewVars(vars, s, t);
    assert all[n] == all[n..][0] == t && all[n + 1..] == all[n..][1..];
    EntriesKept(h, all, vars, vars', n);
    if t.AnonVar? {
      assert Occurs(coming, t.id) >= 1;
    }
  }

  lemma {:induction false} LengthsEqual(h: nat, seen: seq<Term>, i: nat, j: nat)
    requires i <= j <= |seen|
    ensures LengthAt(h, seen, i) <= LengthAt(h, seen, j)
    ensures LengthAt(h, seen, i) == LengthAt(h, seen, j) <==> forall m :: i <= m < j ==> Flat(seen[m])
    decreases j
  {
    if i < j {
      LengthsEqual(h, seen, i, j - 1);
      assert |Added(0, seen[j - 1])| == 0 <==> Flat(seen[j - 1]);
    }
  }

  /** Two anonymous variables have one entry between them if and only if only literals and variables are visited from
      the one to the other. */
  lemma {:induction false} AnonsShareEntry(h: nat, seen: seq<Term>, i: nat, j: nat)
    requires i < j < |seen| && seen[i].AnonVar? && seen[j].AnonVar?
    ensures LengthAt(h, seen, i) == LengthAt(h, seen, j) <==> forall m :: i < m < j ==> Flat(seen[m])
  {
    LengthsEqual(h, seen, i, j);
  }

  predicate Shares(h: nat, seen: seq<Term>, i: nat, j: nat)
    requires i < |seen| && j < |seen|
  {
    seen[j].AnonVar? && LengthAt(h, seen, j) == LengthAt(h, seen, i)
  }

  /** The entry of an anonymous variable holds the cell of the last one that has the same entry. */
  lemma {:induction false} EntryOfLast(h: nat, seen: seq<Term>, vars: map<VarKey, nat>, n: nat, i: nat) returns (j: nat)
    requires i < n <= |seen| && seen[i].AnonVar? && AnonsKnown(seen, vars, n)
    ensures i <= j < n && Shares(h, seen, i, j) && forall m :: j < m < n ==> !Shares(h, seen, i, m)
    ensures var key := LengthAt(h, seen, i);
            key in Entries(h, seen, vars, n) && Entries(h, seen, vars, n)[key] == vars[Anon(seen[j].id)]
  {
    if Shares(h, seen, i, n - 1) {
      j := n - 1;
    } else {
      j := EntryOfLast(h, seen, vars, n - 1, i);
    }
  }

  /** An anonymous variable can be looked up in the dictionary if and only if no other one follows it with only
      literals and variables between them. */
  lemma {:induction false} AnonKeepsEntry(h: nat, seen: seq<Term>, vars: map<VarKey, nat>, i: nat)
    requires i < |seen| && seen[i].AnonVar? && AnonsKnown(seen, vars, |seen|)
    requires forall v, w :: v in vars && w in vars && vars[v] == vars[w] ==> v == w
    ensures var key := LengthAt(h, seen, i);
            key in Entries(h, seen, vars, |seen|) &&
            (Entries(h, seen, vars, |seen|)[key] == vars[Anon(seen[i].id)] <==>
             forall j :: i < j < |seen| && seen[j].AnonVar? ==> exists m :: i < m < j && !Flat(seen[m]))
  {
    hide Entries, LengthAt;
    var j := EntryOfLast(h, seen, vars, |seen|, i);
    forall m | i < m < |seen| && seen[m].AnonVar? ensures Shares(h, seen, i, m) <==> forall k :: i < k < m ==>
        Flat(seen[k]) {
      AnonsShareEntry(h, seen, i, m);
    }
  }

  /** f(_, _): the two variables have cells of their own, and one entry, which leads to the second. */
  lemma {:induction false} TwoAnonsOneEntry(h: nat, vars: map<VarKey, nat>)
    requires Anon(0) in vars && Anon(1) in vars
    ensures var seen := Visited(Children(Clause(0, [AnonVar(0), AnonVar(1)])));
            |seen| == 2 && Entries(h, seen, vars, 2) == map[h := vars[Anon(1)]]
  {
    var first, second := AnonVar(0), AnonVar(1);
    assert [first, second][1..] + Children(first) == [second];
    assert [second][1..] + Children(second) == [];
    assert Visited([second]) == [second] && Visited([first, second]) == [first, second];
    var seen := [first, second];
    assert LengthAt(h, seen, 0) == h && LengthAt(h, seen, 1) == h;
    assert Entries(h, seen, vars, 1) == map[h := vars[Anon(0)]];
  }

  datatype Written = Written(heapLoc: nat, varDict: map<nat, nat>, anonDict: map<nat, nat>) | ExceededMaxArity

  class TermWriter {
    var heap: seq<Cell>
    var queue: seq<Group>
    var varDict: map<nat, nat>
    var anonDict: map<nat, nat>
    ghost var vars: map<VarKey, nat>

    /** The dictionary knows the cells of the named variables. */
    ghost predicate DictOk()
      reads this
    {
      forall name :: (name in varDict <==> Named(name) in vars)
          && (name in varDict ==> varDict[name] == vars[Named(name)])
    }

    constructor (heap: seq<Cell>)
      ensures this.heap == heap && queue == [] && varDict == map[] && anonDict == map[] && vars == map[]
    {
      this.heap, queue, varDict, anonDict, vars := heap, [], map[], map[], map[];
    }

    method PushStubs(n: nat)
      modifies this`heap
      ensures heap == old(heap) + Stubs(|old(heap)|, n)
    {
      ghost var before := heap;
      for i := 0 to n
        invariant heap == before + Stubs(|before|, i)
      {
        heap := heap + [HeapLoc(|heap|)];
      }
    }

    /** Fill the first hole. */
    method ModifyHeadOfQueue(cell: Cell)
      requires queue != [] && GoodQueue(queue) && queue[0].site < |heap|
      modifies this`heap, this`queue
      ensures heap == old(heap)[old(queue)[0].site := cell] && queue == PopHole(old(queue))
    {
      heap := heap[queue[0].site := cell];
      queue := if queue[0].count > 1 then [Group(queue[0].count - 1, queue[0].site + 1)] + queue[1..] else queue[1..];
    }

    ghost predicate Ready()
      reads this
    {
      && queue != [] && GoodQueue(queue) && queue[0].site < |heap| && heap[queue[0].site] == HeapLoc(queue[0].site)
      && DictOk()
    }

    method WriteCons(ghost t: Term)
      requires Ready() && t.Cons?
      modifies this`heap, this`queue, this`varDict, this`vars
      ensures DictOk() && Wrote(old(heap), old(queue), old(vars), heap, queue, vars, t)
    {
      hide Sites;
      var h := |heap|;
      PushHead(queue, Group(2, h));
      queue := queue + [Group(2, h)];
      PushStubs(2);
      ModifyHeadOfQueue(ListLoc(h));
    }

    method WriteClause(name: nat, arity: nat, ghost t: Term)
      requires Ready() && arity > 0 && t.Clause? && t.name == name && |t.args| == arity
      modifies this`heap, this`queue, this`varDict, this`vars
      ensures DictOk() && Wrote(old(heap), old(queue), old(vars), heap, queue, vars, t)
    {
      hide Sites, NewHeap, PopHole, GoodQueue;
      var h := |heap|;
      ghost var before := heap;
      PushHead(queue, Group(arity, h + 1));
      queue := queue + [Group(arity, h + 1)];
      heap := heap + [Functor(name, arity)];
      PushStubs(arity);
      ClauseHeap(before, vars, queue[0].site, t);
      ModifyHeadOfQueue(StrLoc(h));
    }

    method WriteCompleteString(src: nat, ghost t: Term)
      requires Ready() && t == CompleteString(src)
      modifies this`heap, this`queue, this`varDict, this`vars
      ensures DictOk() && Wrote(old(heap), old(queue), old(vars), heap, queue, vars, t)
    {
      hide Sites;
      var h := |heap|;
      ghost var before := heap;
      heap := heap + [Text(src, true)];
      heap := heap + [PStrLoc(h)];
      assert heap == before + [Text(src, true), PStrLoc(h)];
      PopOnly(queue);
      ModifyHeadOfQueue(HeapLoc(h + 1));
    }

    method WritePartialString(src: nat, ghost t: Term)
      requires Ready() && t.PartialString? && t.src == src
      modifies this`heap, this`queue, this`varDict, this`vars
      ensures DictOk() && Wrote(old(heap), old(queue), old(vars), heap, queue, vars, t)
    {
      hide Sites;
      var h := |heap|;
      ghost var before := heap;
      heap := heap + [Text(src, false)];
      heap := heap + [HeapLoc(h + 1)];
      heap := heap + [PStrLoc(h)];
      assert heap == before + [Text(src, false), HeapLoc(h + 1), PStrLoc(h)];
      PushHead(queue, Group(1, h + 1));
      queue := queue + [Group(1, h + 1)];
      ModifyHeadOfQueue(HeapLoc(h + 2));
    }

    method WriteLiteral(lit: nat, ghost t: Term)
      requires Ready() && t == Literal(lit)
      modifies this`heap, this`queue, this`varDict, this`vars
      ensures DictOk() && Wrote(old(heap), old(queue), old(vars), heap, queue, vars, t)
    {
      hide Sites;
      assert heap + [] == heap;
      PopOnly(queue);
      ModifyHeadOfQueue(Constant(lit));
    }

    method WriteVar(name: nat, ghost t: Term)
      requires Ready() && t == Var(name)
      modifies this`heap, this`queue, this`varDict, this`vars
      ensures DictOk() && Wrote(old(heap), old(queue), old(vars), heap, queue, vars, t)
    {
      hide Sites;
      var s := queue[0].site;
      assert heap + [] == heap;
      PopOnly(queue);
      if name in varDict {
        heap := heap[s := HeapLoc(varDict[name])];
      } else {
        varDict := varDict[name := s];
        vars := vars[Named(name) := s];
        assert heap[s := HeapLoc(s)] == heap;
      }
      queue := PopHole(queue);
    }

    method WriteAnonVar(ghost t: Term)
      requires Ready() && t.AnonVar?
      modifies this
      ensures DictOk() && Wrote(old(heap), old(queue), old(vars), heap, queue, vars, t)
      ensures anonDict == old(anonDict)[|old(heap)| := old(queue)[0].site]
    {
      hide Sites;
      var s := queue[0].site;
      assert heap + [] == heap && heap[s := HeapLoc(s)] == heap;
      PopOnly(queue);
      vars := NewVars(vars, s, t);
      anonDict := anonDict[|heap| := s];
      queue := PopHole(queue);
    }

    /** Write one subterm: add its cells and holes, and link it into the first hole. */
    method WriteSub(t: Term)
      requires Ready() && (t.Clause? ==> t.args != [])
      modifies this
      ensures DictOk() && Wrote(old(heap), old(queue), old(vars), heap, queue, vars, t)
      ensures anonDict == if t.AnonVar? then old(anonDict)[|old(heap)| := old(queue)[0].site] else old(anonDict)
    {
      hide Wrote;
      match t {
        case Cons(_, _) => WriteCons(t);
        case Clause(name, args) => WriteClause(name, |args|, t);
        case CompleteString(src) => WriteCompleteString(src, t);
        case PartialString(src, _) => WritePartialString(src, t);
        case Literal(lit) => WriteLiteral(lit, t);
        case Var(name) => WriteVar(name, t);
        case AnonVar(_) => WriteAnonVar(t);
      }
    }

    ghost predicate Fresh()
      reads this
    {
      queue == [] && varDict == map[] && anonDict == map[] && vars == map[]
    }

    method WriteRootCons(ghost t: Term)
      requires Fresh() && t.Cons?
      modifies this`heap, this`queue, this`varDict, this`vars
      ensures DictOk() && WroteRoot(old(heap), heap, queue, vars, t)
    {
      var h := |heap|;
      ghost var before := heap;
      queue := [Group(2, h + 1)];
      heap := heap + [ListLoc(h + 1)];
      PushStubs(2);
      RootSites(queue);
      assert heap == RootHeap(before, t);
    }

    method WriteRootClause(name: nat, arity: nat, ghost t: Term)
      requires Fresh() && t.Clause? && t.name == name && |t.args| == arity
      modifies this`heap, this`queue, this`varDict, this`vars
      ensures DictOk() && WroteRoot(old(heap), heap, queue, vars, t)
    {
      hide RootHeap;
      var h := |heap|;
      ghost var before := heap;
      heap := heap + [if arity == 0 then HeapLoc(h + 1) else StrLoc(h + 1)];
      queue := [Group(arity, h + 2)];
      heap := heap + [Functor(name, arity)];
      PushStubs(arity);
      RootSites(queue);
      RootClauseHeap(before, t);
    }

    method WriteRootString(src: nat, complete: bool, ghost t: Term)
      requires Fresh() && if complete then t == CompleteString(src) else t.PartialString? && t.src == src
      modifies this`heap, this`queue, this`varDict, this`vars
      ensures DictOk() && WroteRoot(old(heap), heap, queue, vars, t)
    {
      var h := |heap|;
      ghost var before := heap;
      heap := heap + [HeapLoc(h)];
      heap := heap + [Text(src, complete)];
      heap := heap + [if complete then PStrLoc(h + 1) else HeapLoc(h + 2)];
      heap := heap[h := PStrLoc(h + 1)];
      if complete {
        NoSites();
      } else {
        queue := [Group(1, h + 2)];
        RootSites(queue);
      }
      assert heap == RootHeap(before, t);
    }

    method WriteRootFlat(t: Term)
      requires Fresh() && (t.Var? || t.AnonVar? || t.Literal?)
      modifies this`heap, this`queue, this`varDict, this`vars
      ensures DictOk() && WroteRoot(old(heap), heap, queue, vars, t)
    {
      var h := |heap|;
      ghost var before := heap;
      NoSites();
      if t.Var? {
        varDict := map[t.name := h];
      }
      vars := NewVars(vars, h, t);
      heap := heap + [if t.Literal? then Constant(t.lit) else HeapLoc(h)];
      assert heap == RootHeap(before, t);
    }

    /** The root has no hole to go to. Only here the arity is checked. */
    method WriteRoot(t: Term) returns (ok: bool)
      requires Fresh()
      modifies this`heap, this`queue, this`varDict, this`vars
      ensures ok <==> !(t.Clause? && |t.args| > MAX_ARITY)
      ensures ok ==> DictOk() && WroteRoot(old(heap), heap, queue, vars, t)
      ensures !ok ==> heap == old(heap)
    {
      hide WroteRoot;
      ok := true;
      match t {
        case Cons(_, _) => WriteRootCons(t);
        case Clause(name, args) =>
          if |args| > MAX_ARITY {
            return false;
          }
          WriteRootClause(name, |args|, t);
        case CompleteString(src) => WriteRootString(src, true, t);
        case PartialString(src, _) => WriteRootString(src, false, t);
        case _ => WriteRootFlat(t);
      }
    }

    /** Writes a term behind what is in the heap. The result represents the term: every variable has its own
        unbound cell, and what was in the heap before is unchanged. */
    method WriteTermToHeap(term: Term) returns (result: Written)
      requires Fresh() && GoodRoot(term)
      modifies this
      ensures result.ExceededMaxArity? <==> term.Clause? && |term.args| > MAX_ARITY
      ensures result.Written? ==>
                && result.heapLoc == |old(heap)| && old(heap) <= heap
                && Rep(heap, vars, Holes([], []), result.heapLoc, term) && VarsOk(heap, vars, [])
                && DictOk() && result.varDict == varDict
                && var seen := Visited(Children(term));
                   AnonsKnown(seen, vars, |seen|)
                       && result.anonDict == Entries(|RootHeap(old(heap), term)|, seen, vars, |seen|)
    {
      hide Rep, Sites, RootHeap, HolesOk, VarsOk, AnonsOk, GoodSub, TermSizes, NewHeap, NewHoles, Visited, Entries,
          AnonsKnown, LengthAt, Added;
      var heapLoc := |heap|;
      ghost var before := heap;
      var ok := WriteRoot(term);
      if !ok {
        return ExceededMaxArity;
      }
      RootKeeps(before, term);
      RootExtends(before, term);
      var iter := new FactIterator(Children(term));
      ghost var h, all, n := |heap|, Visited(Children(term)), 0;
      LoggedStart(h, all, vars);
      while true
        invariant Logged(h, all, n, |heap|, vars, anonDict, iter.stateQueue)
        invariant fresh(iter) && DictOk() && before <= heap
        invariant Inv(heap, vars, Holes(Sites(queue), iter.stateQueue), heapLoc, term)
        invariant (GoodQueue(queue) || iter.stateQueue == []) && Above(Sites(queue), heapLoc)
        decreases TermSizes(iter.stateQueue)
      {
        ghost var holes, heap0, vars0 := Holes(Sites(queue), iter.stateQueue), heap, vars;
        HolesFacts(heap, holes);
        var t := iter.Advance();
        if t.None? {
          break;
        }
        ChildrenSmaller(holes.terms);
        HoleReady(heap, queue, holes);
        WriteKeeps(heap, vars, holes, heapLoc, term);
        KeepsPrefix(before, heap, vars, holes);
        LoggedStep(h, all, n, |heap|, vars, anonDict, holes.terms, holes.sites[0]);
        GrowsBy(heap, vars, holes.sites[0], t.value);
        n := n + 1;
        WriteSub(t.value);
        HolesNext(heap0, holes);
      }
      assert Sites(queue) == [] && iter.stateQueue == [];
      LoggedEnd(h, all, n, |heap|, vars, anonDict);
      result := Written(heapLoc, varDict, anonDict);
    }
  }

  predicate Above(sites: seq<nat>, n: nat)
  {
    forall i :: 0 <= i < |sites| ==> sites[i] >= n
  }

  lemma {:induction false} RootExtends(heap: seq<Cell>, t: Term)
    ensures heap <= RootHeap(heap, t) && Above(RootHoles(heap, t).sites, |heap|)
  {
  }

  lemma {:induction false} HoleReady(heap: seq<Cell>, queue: seq<Group>, holes: Holes)
    requires GoodQueue(queue) && holes.sites == Sites(queue) && HolesOk(heap, holes) && holes.terms != []
    ensures queue != [] && holes.sites != [] && queue[0].site == holes.sites[0] && queue[0].site < |heap|
    ensures heap[queue[0].site] == HeapLoc(queue[0].site) && (holes.terms[0].Clause? ==> holes.terms[0].args != [])
  {
    if queue != [] {
      PopSites(queue);
    }
    FirstGood(heap, holes);
  }

  lemma {:induction false} HolesNext(heap: seq<Cell>, holes: Holes)
    requires holes.sites != [] && holes.terms != []
    ensures var t := holes.terms[0];
            NewHoles(heap, holes) == Holes(holes.sites[1..] + Range(FirstSite(|heap|, t), |Children(t)|),
                holes.terms[1..] + Children(t))
  {
  }

  /** What was in the heap before stays as it is. */
  lemma {:induction false} KeepsPrefix(before: seq<Cell>, heap: seq<Cell>, vars: map<VarKey, nat>, holes: Holes)
    requires before <= heap && HolesOk(heap, holes) && holes.sites != [] && Above(holes.sites, |before|)
    ensures before <= NewHeap(heap, vars, holes.sites[0], holes.terms[0])
            && Above(NewHoles(heap, holes).sites, |before|)
  {
    hide NewHeap, Link, Added;
    NewCells(heap, vars, holes.sites[0], holes.terms[0]);
    var heap' := NewHeap(heap, vars, holes.sites[0], holes.terms[0]);
    assert forall q :: 0 <= q < |before| ==> heap'[q] == heap[q] == before[q];
  }

  lemma {:induction false} ClauseHeap(heap: seq<Cell>, vars: map<VarKey, nat>, s: nat, t: Term)
    requires t.Clause? && s < |heap|
    ensures var h, n := |heap|, |t.args|;
            NewHeap(heap, vars, s, t) == (heap + [Functor(t.name, n)] + Stubs(h + 1, n))[s := StrLoc(h)]
  {
    var h, n := |heap|, |t.args|;
    assert heap + [Functor(t.name, n)] + Stubs(h + 1, n) == heap + ([Functor(t.name, n)] + Stubs(h + 1, n));
  }

  lemma {:induction false} RootClauseHeap(heap: seq<Cell>, t: Term)
    requires t.Clause?
    ensures var h, n := |heap|, |t.args|;
            RootHeap(heap, t) == heap + [if n == 0 then HeapLoc(h + 1) else StrLoc(h + 1)] + [Functor(t.name, n)]
                + Stubs(h + 2, n)
  {
    var h, n := |heap|, |t.args|;
    var r := heap + [if n == 0 then HeapLoc(h + 1) else StrLoc(h + 1)] + [Functor(t.name, n)] + Stubs(h + 2, n);
    if n == 0 {
      assert r == heap + [HeapLoc(h + 1), Functor(t.name, 0)];
    } else {
      var stub := heap + [HeapLoc(h)];
      assert r == (stub + ([Functor(t.name, n)] + Stubs(h + 2, n)))[h := StrLoc(h + 1)];
    }
  }

  lemma {:induction false} RootSites(queue: seq<Group>)
    requires |queue| == 1
    ensures Sites(queue) == Range(queue[0].site, queue[0].count)
  {
    assert queue[1..] == [];
    assert Sites(queue[1..]) == [];
  }

  /** The root was written, and its children wait in the holes. */
  ghost predicate WroteRoot(heap: seq<Cell>, heap': seq<Cell>, queue: seq<Group>, vars: map<VarKey, nat>, t: Term)
  {
    && heap' == RootHeap(heap, t) && vars == NewVars(map[], |heap|, t)
    && Sites(queue) == RootHoles(heap, t).sites && (GoodQueue(queue) || Children(t) == [])
  }

  /** A subterm was written: its cells were added and linked, and its holes follow the others. */
  ghost predicate Wrote(heap: seq<Cell>, queue: seq<Group>, vars: map<VarKey, nat>, heap': seq<Cell>,
                        queue': seq<Group>, vars': map<VarKey, nat>, t: Term)
  {
    && queue != [] && queue[0].site < |heap| && Sites(queue) != []
    && heap' == NewHeap(heap, vars, queue[0].site, t) && vars' == NewVars(vars, queue[0].site, t)
    && GoodQueue(queue') && Sites(queue') == Sites(queue)[1..] + Range(FirstSite(|heap|, t), |Children(t)|)
  }

  lemma {:induction false} PopOnly(queue: seq<Group>)
    requires queue != [] && GoodQueue(queue)
    ensures Sites(queue) != [] && Sites(PopHole(queue)) == Sites(queue)[1..] + [] && GoodQueue(PopHole(queue))
  {
    hide Sites, PopHole;
    PopSites(queue);
  }

  lemma {:induction false} TailConcat(a: seq<nat>, b: seq<nat>)
    requires a != []
    ensures (a + b)[1..] == a[1..] + b
  {
  }

  /** Adding holes at the back and taking one from the front do not get in each other's way. */
  lemma {:induction false} PushHead(queue: seq<Group>, g: Group)
    requires queue != [] && GoodQueue(queue) && g.count > 0
    ensures GoodQueue(queue + [g]) && (queue + [g])[0] == queue[0] && Sites(queue) != []
    ensures Sites(PopHole(queue + [g])) == Sites(queue)[1..] + Range(g.site, g.count) && GoodQueue(PopHole(queue + [g]))
  {
    hide Sites, PopHole;
    PushSites(queue, g);
    PopSites(queue);
    PopSites(queue + [g]);
    TailConcat(Sites(queue), Range(g.site, g.count));
  }
}
