/**
 Compiling an arithmetic expression to register code.
 */
module ArithCompile {
  import opened Options
  import opened ArithTerms

  datatype RegType = Temp(r: nat) | Perm(p: nat)

  /** An operand: a number, the register of a variable, or the register of an intermediate result. */
  datatype Operand = Value(n: int) | Reg(reg: RegType) | Interm(t: nat)

  /** Apply an evaluable functor to one or two operands and put the result in a register. */
  datatype Instr = Instr(name: nat, operands: seq<Operand>, target: nat)

  // ----- registers -----

  /** The part of the register allocator that expressions use: registers in use, registers given back,
      the first register never used, and the argument registers still to be filled. */
  datatype Marker = Marker(inUse: set<nat>, free: seq<nat>, lb: nat, argC: nat, arity: nat)

  predicate IsInUse(m: Marker, r: nat)
  {
    m.argC <= r <= m.arity || r in m.inUse
  }

  /** The first register from `i` on that is not in use. */
  function FirstFree(inUse: set<nat>, i: nat): (r: nat)
    ensures r >= i && r !in inUse
    decreases |inUse|
  {
    if i in inUse then FirstFree(inUse - {i}, i + 1) else i
  }

  lemma {:induction false} FirstFreeLeast(inUse: set<nat>, i: nat, k: nat)
    requires i <= k < FirstFree(inUse, i)
    ensures k in inUse
    decreases |inUse|
  {
    if i < k {
      FirstFreeLeast(inUse - {i}, i + 1, k);
    }
  }

  datatype Allocation = Allocation(reg: nat, marker: Marker)

  /** alloc_reg_to_non_var: a register given back, unless it is in use again, or a new one. */
  function Allocate(m: Marker): (r: Allocation)
    ensures r.reg !in m.inUse && r.marker.inUse == m.inUse + {r.reg}
    ensures r.marker.argC == m.argC && r.marker.arity == m.arity && r.marker.lb >= m.lb
    ensures r.reg >= m.lb || r.reg < m.argC || r.reg > m.arity
    decreases |m.free|
  {
    if m.free == [] then
      var r := FirstFree(m.inUse, m.lb);
      Allocation(r, m.(inUse := m.inUse + {r}, lb := r + 1))
    else
      var r, rest := m.free[|m.free| - 1], m.(free := m.free[..|m.free| - 1]);
      if IsInUse(m, r) then Allocate(rest) else Allocation(r, rest.(inUse := m.inUse + {r}))
  }

  function GiveBack(m: Marker, o: Operand): Marker
  {
    if o.Interm? then m.(inUse := m.inUse - {o.t}, free := m.free + [o.t]) else m
  }

  function GiveBackAll(m: Marker, os: seq<Operand>): Marker
    decreases |os|
  {
    if os == [] then m else GiveBackAll(GiveBack(m, os[0]), os[1..])
  }

  // ----- compiling, by recursion over the expression -----

  datatype Compiled = Compiled(code: seq<Instr>, operand: Operand, marker: Marker) | Refused(e: Error)

  datatype CompiledAll = CompiledAll(code: seq<Instr>, operands: seq<Operand>, marker: Marker) | RefusedOne(e: Error)

  /** The register of a result: the argument register for the whole expression, any other for a part. */
  function Target(m: Marker, root: bool): Allocation
  {
    if root then Allocation(m.argC, m.(argC := m.argC + 1)) else Allocate(m)
  }

  function Comp(arith: Arith, binding: nat -> RegType, t: Expr, root: bool, m: Marker): Compiled
    decreases t
  {
    match t
    case Number(n) => Compiled([], Value(n), m)
    case Atom(name) =>
      if arith.constant(name).Some? then Compiled([], Value(arith.constant(name).value), m)
          else Refused(NonEvaluable(name, 0))
    case Var(v) => Compiled([], Reg(binding(v)), m)
    case AnonVar => Refused(Uninstantiated)
    case List(_, _) => Refused(NonEvaluable(DOT, 2))
    case Text(_) => Refused(NonEvaluable(DOT, 2))
    case Op(name, args) =>
      match CompAll(arith, binding, args, m)
      case RefusedOne(e) => Refused(e)
      case CompiledAll(code, os, m1) =>
        var target := Target(m1, root);
        if Evaluable(arith, name, |args|) then
          Compiled(code + [Instr(name, os, target.reg)], Interm(target.reg), GiveBackAll(target.marker, os))
        else Refused(NonEvaluable(name, |args|))
  }

  function CompAll(arith: Arith, binding: nat -> RegType, ts: seq<Expr>, m: Marker): (r: CompiledAll)
    ensures r.CompiledAll? ==> |r.operands| == |ts|
    decreases ts
  {
    if ts == [] then CompiledAll([], [], m)
    else match Comp(arith, binding, ts[0], false, m)
      case Refused(e) => RefusedOne(e)
      case Compiled(code, o, m1) =>
        match CompAll(arith, binding, ts[1..], m1)
        case RefusedOne(e) => RefusedOne(e)
        case CompiledAll(more, os, m2) => CompiledAll(code + more, [o] + os, m2)
  }

  // ----- compiling, item by item -----

  datatype Item = LitItem(lit: Expr) | VarItem(v: nat) | OpItem(root: bool, name: nat, arity: nat) | ErrItem(e: Error)

  /** The expression in postorder. */
  function Post(t: Expr, root: bool): seq<Item>
    decreases t
  {
    match t
    case Number(_) => [LitItem(t)]
    case Atom(_) => [LitItem(t)]
    case Var(v) => [VarItem(v)]
    case AnonVar => [ErrItem(Uninstantiated)]
    case List(_, _) => [ErrItem(NonEvaluable(DOT, 2))]
    case Text(_) => [ErrItem(NonEvaluable(DOT, 2))]
    case Op(name, args) => PostAll(args) + [OpItem(root, name, |args|)]
  }

  function PostAll(ts: seq<Expr>): seq<Item>
    decreases ts
  {
    if ts == [] then [] else Post(ts[0], false) + PostAll(ts[1..])
  }

  datatype Work = Work(code: seq<Instr>, interm: seq<Operand>, marker: Marker)

  datatype Progress = Going(w: Work) | Halted(e: Error)

  function PushLiteral(arith: Arith, w: Work, lit: Expr): Progress
  {
    if lit.Number? then Going(w.(interm := w.interm + [Value(lit.n)]))
    else if lit.Atom? && arith.constant(lit.name).Some?
        then Going(w.(interm := w.interm + [Value(arith.constant(lit.name).value)]))
    else Halted(NonEvaluable(if lit.Atom? then lit.name else DOT, 0))
  }

  /** mark_non_var, then instr_from_clause: the result's register is taken before the operands' are given back. */
  function PushOp(arith: Arith, w: Work, root: bool, name: nat, arity: nat): Progress
  {
    var target := Target(w.marker, root);
    if !Evaluable(arith, name, arity) || arity > |w.interm| then Halted(NonEvaluable(name, arity))
    else
      var left := |w.interm| - arity;
      Going(Work(w.code + [Instr(name, w.interm[left..], target.reg)], w.interm[..left] + [Interm(target.reg)],
                 GiveBackAll(target.marker, w.interm[left..])))
  }

  function Step(arith: Arith, binding: nat -> RegType, w: Work, item: Item): Progress
  {
    match item
    case LitItem(lit) => PushLiteral(arith, w, lit)
    case VarItem(v) => Going(w.(interm := w.interm + [Reg(binding(v))]))
    case OpItem(root, name, arity) => PushOp(arith, w, root, name, arity)
    case ErrItem(e) => Halted(e)
  }

  function Loop(arith: Arith, binding: nat -> RegType, w: Work, items: seq<Item>): Progress
    decreases |items|
  {
    if items == [] then Going(w)
    else match Step(arith, binding, w, items[0])
      case Halted(e) => Halted(e)
      case Going(w') => Loop(arith, binding, w', items[1..])
  }

  lemma {:induction false} LoopFirst(arith: Arith, binding: nat -> RegType, w: Work, item: Item, rest: seq<Item>)
    ensures Loop(arith, binding, w, [item] + rest) ==
            match Step(arith, binding, w, item) case Halted(e) => Halted(e) case Going(w') =>
                Loop(arith, binding, w', rest)
  {
    assert ([item] + rest)[1..] == rest;
  }

  function Continue(arith: Arith, binding: nat -> RegType, w: Work, c: Compiled, rest: seq<Item>): Progress
  {
    match c
    case Refused(e) => Halted(e)
    case Compiled(code, o, m) => Loop(arith, binding, Work(w.code + code, w.interm + [o], m), rest)
  }

  function ContinueAll(arith: Arith, binding: nat -> RegType, w: Work, c: CompiledAll, rest: seq<Item>): Progress
  {
    match c
    case RefusedOne(e) => Halted(e)
    case CompiledAll(code, os, m) => Loop(arith, binding, Work(w.code + code, w.interm + os, m), rest)
  }

  /** Dealing with the items of an expression compiles it and leaves its operand on the stack. */
  lemma {:induction false} LoopCompiles(arith: Arith, binding: nat -> RegType, w: Work, t: Expr, root: bool,
                                        rest: seq<Item>)
    ensures Loop(arith, binding, w, Post(t, root) + rest)
            == Continue(arith, binding, w, Comp(arith, binding, t, root, w.marker), rest)
    decreases t
  {
    if t.Op? {
      OpCompiles(arith, binding, w, t, root, rest);
    } else {
      LoopFirst(arith, binding, w, Post(t, root)[0], rest);
      assert w.code + [] == w.code;
    }
  }

  lemma {:induction false} OpCompiles(arith: Arith, binding: nat -> RegType, w: Work, t: Expr, root: bool,
                                      rest: seq<Item>)
    requires t.Op?
    ensures Loop(arith, binding, w, Post(t, root) + rest)
            == Continue(arith, binding, w, Comp(arith, binding, t, root, w.marker), rest)
    decreases t, 0
  {
    hide Loop, Target, GiveBackAll, Evaluable;
    var item := OpItem(root, t.name, |t.args|);
    assert (PostAll(t.args) + [item]) + rest == PostAll(t.args) + ([item] + rest);
    LoopCompilesAll(arith, binding, w, t.args, [item] + rest);
    match CompAll(arith, binding, t.args, w.marker) {
      case RefusedOne(e) =>
      case CompiledAll(code, os, m) =>
        var w1 := Work(w.code + code, w.interm + os, m);
        LoopFirst(arith, binding, w1, item, rest);
        assert w1.interm[|w.interm|..] == os && w1.interm[..|w.interm|] == w.interm;
        var instr := [Instr(t.name, os, Target(m, root).reg)];
        assert (w.code + code) + instr == w.code + (code + instr);
    }
  }

  lemma {:induction false} LoopCompilesAll(arith: Arith, binding: nat -> RegType, w: Work, ts: seq<Expr>,
                                           rest: seq<Item>)
    ensures Loop(arith, binding, w, PostAll(ts) + rest)
            == ContinueAll(arith, binding, w, CompAll(arith, binding, ts, w.marker), rest)
    decreases ts
  {
    hide Loop, Comp, Post;
    if ts == [] {
      assert [] + rest == rest && w.code + [] == w.code && w.interm + [] == w.interm;
    } else {
      var first, others := Post(ts[0], false), PostAll(ts[1..]);
      assert (first + others) + rest == first + (others + rest);
      LoopCompiles(arith, binding, w, ts[0], false, others + rest);
      match Comp(arith, binding, ts[0], false, w.marker) {
        case Refused(e) =>
        case Compiled(code, o, m) =>
          var w1 := Work(w.code + code, w.interm + [o], m);
          LoopCompilesAll(arith, binding, w1, ts[1..], rest);
          CompiledStep(arith, binding, w, ts);
      }
    }
  }

  lemma {:induction false} CompiledStep(arith: Arith, binding: nat -> RegType, w: Work, ts: seq<Expr>)
    requires ts != []
    ensures var first := Comp(arith, binding, ts[0], false, w.marker);
            first.Compiled? ==>
              var more := CompAll(arith, binding, ts[1..], first.marker);
              more.CompiledAll? ==>
                && CompAll(arith, binding, ts, w.marker)
                    == CompiledAll(first.code + more.code, [first.operand] + more.operands, more.marker)
                && (w.code + first.code) + more.code == w.code + (first.code + more.code)
                && (w.interm + [first.operand]) + more.operands == w.interm + ([first.operand] + more.operands)
  {
    hide Comp;
  }

  // ----- the iterator -----

  datatype State = State(t: Expr, child: nat, root: bool)

  predicate GoodState(s: State)
  {
    s.t.Op? ==> s.child <= |s.t.args|
  }

  predicate GoodStack(stack: seq<State>)
  {
    forall i :: 0 <= i < |stack| ==> GoodState(stack[i])
  }

  function StateRest(s: State): seq<Item>
    requires GoodState(s)
  {
    if s.t.Op? then PostAll(s.t.args[s.child..]) + [OpItem(s.root, s.t.name, |s.t.args|)] else Post(s.t, s.root)
  }

  /** What the iterator has still to yield. */
  function Rest(stack: seq<State>): seq<Item>
    requires GoodStack(stack)
  {
    if stack == [] then [] else StateRest(stack[|stack| - 1]) + Rest(stack[..|stack| - 1])
  }

  lemma {:induction false} PushState(stack: seq<State>, s: State)
    requires GoodStack(stack) && GoodState(s)
    ensures GoodStack(stack + [s]) && Rest(stack + [s]) == StateRest(s) + Rest(stack)
  {
    assert (stack + [s])[..|stack|] == stack;
  }

  lemma {:induction false} OpenChild(stack: seq<State>, s: State)
    requires GoodStack(stack) && s.t.Op? && s.child < |s.t.args|
    ensures var stack' := stack + [s.(child := s.child + 1)] + [State(s.t.args[s.child], 0, false)];
            GoodStack(stack') && Rest(stack') == StateRest(s) + Rest(stack)
  {
    hide Rest, Post, PostAll;
    var next, child := s.(child := s.child + 1), State(s.t.args[s.child], 0, false);
    PushState(stack, next);
    PushState(stack + [next], child);
    ChildFirst(s);
    var here, others, op := Post(s.t.args[s.child], false), PostAll(s.t.args[s.child + 1..]),
        [OpItem(s.root, s.t.name, |s.t.args|)];
    ChildRest(s.t.args[s.child]);
    assert here + ((others + op) + Rest(stack)) == ((here + others) + op) + Rest(stack);
  }

  lemma {:induction false} ChildFirst(s: State)
    requires s.t.Op? && s.child < |s.t.args|
    ensures PostAll(s.t.args[s.child..]) == Post(s.t.args[s.child], false) + PostAll(s.t.args[s.child + 1..])
  {
    hide Post;
    assert s.t.args[s.child..][1..] == s.t.args[s.child + 1..];
  }

  lemma {:induction false} ChildRest(t: Expr)
    ensures GoodState(State(t, 0, false)) && StateRest(State(t, 0, false)) == Post(t, false)
  {
    if t.Op? {
      assert t.args[0..] == t.args;
    }
  }

  function ExprSize(t: Expr): nat
  {
    if t.Op? then 1 + ExprSizes(t.args) else 1
  }

  function ExprSizes(ts: seq<Expr>): nat
  {
    if ts == [] then 0 else ExprSize(ts[0]) + ExprSizes(ts[1..])
  }

  lemma {:induction false} PartSmaller(ts: seq<Expr>, i: nat)
    requires i < |ts|
    ensures ExprSize(ts[i]) <= ExprSizes(ts)
  {
    if i > 0 {
      PartSmaller(ts[1..], i - 1);
    }
  }

  class ArithInstructionIterator {
    var stateStack: seq<State>

    ghost predicate Valid()
      reads this
    {
      GoodStack(stateStack)
    }

    constructor (t: Expr)
      ensures Valid() && Rest(stateStack) == Post(t, true)
    {
      stateStack := [State(t, 0, true)];
      new;
      PushState([], State(t, 0, true));
      assert [] + [State(t, 0, true)] == [State(t, 0, true)];
      if t.Op? {
        assert t.args[0..] == t.args;
      }
    }

    /** Yields the next item in postorder. */
    method Advance() returns (item: Option<Item>)
      requires Valid()
      modifies this
      ensures Valid()
      ensures old(Rest(stateStack)) == [] ==> item.None? && Rest(stateStack) == []
      ensures old(Rest(stateStack)) != [] ==> item.Some? && old(Rest(stateStack)) == [item.value] + Rest(stateStack)
    {
      hide Rest, Post, PostAll, GoodState;
      ghost var rest := Rest(stateStack);
      while stateStack != []
        invariant Valid() && Rest(stateStack) == rest
        decreases if stateStack == [] then 0 else 1 + ExprSize(stateStack[|stateStack| - 1].t)
      {
        var s := stateStack[|stateStack| - 1];
        var below := stateStack[..|stateStack| - 1];
        TakeState(stateStack);
        if s.t.Op? && s.child < |s.t.args| {
          OpenChild(below, s);
          PartSmaller(s.t.args, s.child);
          stateStack := below + [s.(child := s.child + 1)] + [State(s.t.args[s.child], 0, false)];
        } else {
          stateStack := below;
          item := Some(ItemOf(s));
          return;
        }
      }
      NothingLeft();
      item := None;
    }
  }

  /** The item a state that is popped for good stands for. */
  function ItemOf(s: State): Item
  {
    match s.t
    case Var(v) => VarItem(v)
    case AnonVar => ErrItem(Uninstantiated)
    case List(_, _) => ErrItem(NonEvaluable(DOT, 2))
    case Text(_) => ErrItem(NonEvaluable(DOT, 2))
    case Op(name, args) => OpItem(s.root, name, |args|)
    case _ => LitItem(s.t)
  }

  lemma {:induction false} NothingLeft()
    ensures GoodStack([]) && Rest([]) == []
  {
  }

  lemma {:induction false} TakeState(stack: seq<State>)
    requires GoodStack(stack) && stack != []
    ensures var s, below := stack[|stack| - 1], stack[..|stack| - 1];
            && GoodStack(below) && GoodState(s) && Rest(stack) == StateRest(s) + Rest(below)
            && (s.t.Op? ==> s.child <= |s.t.args|)
            && (!(s.t.Op? && s.child < |s.t.args|) ==> StateRest(s) == [ItemOf(s)])
  {
    var s := stack[|stack| - 1];
    if s.t.Op? && s.child == |s.t.args| {
      assert s.t.args[s.child..] == [];
    }
  }

  // ----- the evaluator -----

  class ArithmeticEvaluator {
    const arith: Arith
    const binding: nat -> RegType
    var interm: seq<Operand>
    var marker: Marker

    constructor (arith: Arith, binding: nat -> RegType, marker: Marker)
      ensures this.arith == arith && this.binding == binding && this.marker == marker && interm == []
    {
      this.arith, this.binding, this.marker, interm := arith, binding, marker, [];
    }

    method AllocRegToNonVar() returns (r: nat)
      modifies this`marker
      ensures Allocation(r, marker) == Allocate(old(marker))
    {
      ghost var m := marker;
      while marker.free != []
        invariant Allocate(marker) == Allocate(m)
        decreases |marker.free|
      {
        r := marker.free[|marker.free| - 1];
        var inUse := IsInUse(marker, r);
        marker := marker.(free := marker.free[..|marker.free| - 1]);
        if !inUse {
          marker := marker.(inUse := marker.inUse + {r});
          return;
        }
      }
      r := marker.lb;
      ghost var first := FirstFree(marker.inUse, marker.lb);
      while r in marker.inUse
        invariant marker.lb <= r <= first
        decreases first - r
      {
        r := r + 1;
      }
      if r < first {
        FirstFreeLeast(marker.inUse, marker.lb, r);
      }
      marker := marker.(inUse := marker.inUse + {r}, lb := r + 1);
    }

    method TryAddToFreeList(os: seq<Operand>)
      modifies this`marker
      ensures marker == GiveBackAll(old(marker), os)
    {
      ghost var m := marker;
      assert os[0..] == os;
      for i := 0 to |os|
        invariant GiveBackAll(marker, os[i..]) == GiveBackAll(m, os)
      {
        assert os[i..][1..] == os[i + 1..];
        if os[i].Interm? {
          marker := marker.(inUse := marker.inUse - {os[i].t}, free := marker.free + [os[i].t]);
        }
      }
    }

    method CompileOp(code: seq<Instr>, root: bool, name: nat, arity: nat) returns (p: Option<seq<Instr>>)
      requires arity <= |interm|
      modifies this
      ensures var r := PushOp(arith, Work(code, old(interm), old(marker)), root, name, arity);
              if p.Some? then r == Going(Work(p.value, interm, marker)) else r == Halted(NonEvaluable(name, arity))
    {
      hide Allocate, GiveBackAll;
      var t;
      if root {
        t := marker.argC;
        marker := marker.(argC := marker.argC + 1);
      } else {
        t := AllocRegToNonVar();
      }
      if arity < 1 || arity > 2 {
        return None;
      }
      var left := |interm| - arity;
      var os := interm[left..];
      interm := interm[..left] + [Interm(t)];
      TryAddToFreeList(os);
      if !arith.known(name, arity) {
        return None;
      }
      p := Some(code + [Instr(name, os, t)]);
    }

    /** compile_is: the loop over the items compiles the expression. */
    method CompileIs(src: Expr) returns (result: Compiled)
      requires interm == []
      modifies this
      ensures result == Comp(arith, binding, src, true, old(marker))
    {
      hide Loop, Comp, Post, Rest, PushOp;
      var code: seq<Instr> := [];
      var iter := new ArithInstructionIterator(src);
      LoopCompiles(arith, binding, Work([], [], marker), src, true, []);
      assert Post(src, true) + [] == Post(src, true);
      ghost var end := Loop(arith, binding, Work([], [], marker), Post(src, true));
      ghost var m := marker;
      while true
        invariant fresh(iter) && iter.Valid()
        invariant Loop(arith, binding, Work(code, interm, marker), Rest(iter.stateStack)) == end
        decreases |Rest(iter.stateStack)|
      {
        ghost var w, items := Work(code, interm, marker), Rest(iter.stateStack);
        var item := iter.Advance();
        if item.None? {
          break;
        }
        LoopFirst(arith, binding, w, item.value, Rest(iter.stateStack));
        match item.value {
          case LitItem(lit) =>
            if lit.Number? {
              interm := interm + [Value(lit.n)];
            } else if lit.Atom? && arith.constant(lit.name).Some? {
              interm := interm + [Value(arith.constant(lit.name).value)];
            } else {
              HaltedIs(arith, binding, m, src, end);
              return Refused(NonEvaluable(if lit.Atom? then lit.name else DOT, 0));
            }
          case VarItem(v) =>
            interm := interm + [Reg(binding(v))];
          case OpItem(root, name, arity) =>
            if arity > |interm| {
              ShortStack(arith, w, root, name, arity);
              HaltedIs(arith, binding, m, src, end);
              return Refused(NonEvaluable(name, arity));
            }
            var p := CompileOp(code, root, name, arity);
            if p.None? {
              HaltedIs(arith, binding, m, src, end);
              return Refused(NonEvaluable(name, arity));
            }
            code := p.value;
          case ErrItem(e) =>
            HaltedIs(arith, binding, m, src, end);
            return Refused(e);
        }
      }
      GoingIs(arith, binding, m, src, Work(code, interm, marker));
      result := Compiled(code, interm[|interm| - 1], marker);
    }
  }

  lemma {:induction false} ShortStack(arith: Arith, w: Work, root: bool, name: nat, arity: nat)
    requires arity > |w.interm|
    ensures PushOp(arith, w, root, name, arity) == Halted(NonEvaluable(name, arity))
  {
  }

  lemma {:induction false} HaltedIs(arith: Arith, binding: nat -> RegType, m: Marker, src: Expr, end: Progress)
    requires end.Halted? && end == Continue(arith, binding, Work([], [], m), Comp(arith, binding, src, true, m), [])
    ensures Comp(arith, binding, src, true, m) == Refused(end.e)
  {
    hide Comp;
  }

  lemma {:induction false} GoingIs(arith: Arith, binding: nat -> RegType, m: Marker, src: Expr, w: Work)
    requires Loop(arith, binding, w, []) == Continue(arith, binding, Work([], [], m),
            Comp(arith, binding, src, true, m), [])
    ensures w.interm != [] && Comp(arith, binding, src, true, m) == Compiled(w.code, w.interm[|w.interm| - 1], w.marker)
  {
    hide Comp;
    match Comp(arith, binding, src, true, m) {
      case Refused(e) =>
      case Compiled(code, o, m') =>
        assert w == Work([] + code, [] + [o], m');
        assert [] + code == code;
    }
  }
}
