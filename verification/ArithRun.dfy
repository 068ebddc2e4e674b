/**
 Running the code of an arithmetic expression, and evaluating an expression without compiling it.
 */
module ArithRun {
  import opened Options
  import opened ArithTerms
  import opened ArithCompile

  // ----- the machine -----

  /** Temporary registers; one that was never written holds an unbound cell. */
  type Temps = map<nat, Cell>

  function TempCell(temps: Temps, r: nat): Cell
  {
    if r in temps then temps[r] else Ref(0)
  }

  function OperandCell(temps: Temps, perms: nat -> Cell, o: Operand): Cell
  {
    match o
    case Value(n) => Num(n)
    case Reg(Temp(r)) => TempCell(temps, r)
    case Reg(Perm(p)) => perms(p)
    case Interm(t) => TempCell(temps, t)
  }

  function OperandCells(temps: Temps, perms: nat -> Cell, os: seq<Operand>): (r: seq<Cell>)
    ensures |r| == |os| && forall i :: 0 <= i < |os| ==> r[i] == OperandCell(temps, perms, os[i])
  {
    seq(|os|, i requires 0 <= i < |os| => OperandCell(temps, perms, os[i]))
  }

  datatype Exec = Done(temps: Temps) | Raised(e: Error)

  /** Running code: every instruction reads its operands, applies its functor and writes its register. */
  function Run(arith: Arith, perms: nat -> Cell, code: seq<Instr>, temps: Temps): Exec
    decreases |code|
  {
    if code == [] then Done(temps)
    else match Operate(arith, code[0].name, OperandCells(temps, perms, code[0].operands))
      case Failed(e) => Raised(e)
      case Ready(cell) => Run(arith, perms, code[1..], temps[code[0].target := cell])
  }

  lemma {:induction false} RunConcat(arith: Arith, perms: nat -> Cell, a: seq<Instr>, b: seq<Instr>, temps: Temps)
    ensures Run(arith, perms, a + b, temps) ==
            match Run(arith, perms, a, temps) case Raised(e) => Raised(e) case Done(temps') =>
                Run(arith, perms, b, temps')
    decreases |a|
  {
    if a == [] {
      assert a + b == b;
    } else {
      assert (a + b)[1..] == a[1..] + b;
      match Operate(arith, a[0].name, OperandCells(temps, perms, a[0].operands)) {
        case Failed(e) =>
        case Ready(cell) => RunConcat(arith, perms, a[1..], b, temps[a[0].target := cell]);
      }
    }
  }

  // ----- which registers change -----

  function Interms(os: seq<Operand>): set<nat>
  {
    set o | o in os && o.Interm? :: o.t
  }

  lemma {:induction false} GiveBackFrees(m: Marker, os: seq<Operand>)
    ensures GiveBackAll(m, os).inUse == m.inUse - Interms(os)
    ensures GiveBackAll(m, os).argC == m.argC && GiveBackAll(m, os).arity == m.arity
    decreases |os|
  {
    if os != [] {
      GiveBackFrees(GiveBack(m, os[0]), os[1..]);
      assert os == [os[0]] + os[1..];
      assert forall o :: o in os <==> o == os[0] || o in os[1..];
    }
  }

  lemma {:induction false} IntermsFirst(o: Operand, os: seq<Operand>)
    ensures Interms([o] + os) == Interms([o]) + Interms(os)
  {
    assert forall x :: x in [o] + os <==> x == o || x in os;
  }

  /** Compiling a part leaves in use what was in use, and the register of its result, which is a new one. */
  lemma {:induction false} CompInUse(arith: Arith, binding: nat -> RegType, t: Expr, m: Marker)
    requires Comp(arith, binding, t, false, m).Compiled?
    ensures var c := Comp(arith, binding, t, false, m);
            c.marker.inUse == m.inUse + Interms([c.operand]) && Interms([c.operand]) !! m.inUse
                && c.marker.argC == m.argC
    decreases t, 1
  {
    if t.Op? {
      hide Comp, GiveBackAll, Allocate, Interms;
      OpParts(arith, binding, t, false, m);
      var all := CompAll(arith, binding, t.args, m);
      CompAllInUse(arith, binding, t.args, m);
      var target := Allocate(all.marker);
      GiveBackFrees(target.marker, all.operands);
      OneInterm(target.reg);
    } else {
      NoInterm(Comp(arith, binding, t, false, m).operand);
    }
  }

  lemma {:induction false} OneInterm(t: nat)
    ensures Interms([Interm(t)]) == {t}
  {
    assert Interm(t) in [Interm(t)];
  }

  lemma {:induction false} NoInterm(o: Operand)
    requires !o.Interm?
    ensures Interms([o]) == {}
  {
  }

  /** What compiling an operation consists of. */
  lemma {:induction false} OpParts(arith: Arith, binding: nat -> RegType, t: Expr, root: bool, m: Marker)
    requires t.Op? && Comp(arith, binding, t, root, m).Compiled?
    ensures var all := CompAll(arith, binding, t.args, m);
            && all.CompiledAll? && Evaluable(arith, t.name, |t.args|)
            && var target := Target(all.marker, root);
               Comp(arith, binding, t, root, m) ==
               Compiled(all.code + [Instr(t.name, all.operands, target.reg)], Interm(target.reg),
                   GiveBackAll(target.marker, all.operands))
  {
  }

  lemma {:induction false} CompAllInUse(arith: Arith, binding: nat -> RegType, ts: seq<Expr>, m: Marker)
    requires CompAll(arith, binding, ts, m).CompiledAll?
    ensures var c := CompAll(arith, binding, ts, m);
            c.marker.inUse == m.inUse + Interms(c.operands) && Interms(c.operands) !! m.inUse && c.marker.argC == m.argC
    decreases ts
  {
    if ts != [] {
      hide Comp, Interms;
      var first := Comp(arith, binding, ts[0], false, m);
      CompInUse(arith, binding, ts[0], m);
      CompAllInUse(arith, binding, ts[1..], first.marker);
      IntermsFirst(first.operand, CompAll(arith, binding, ts[1..], first.marker).operands);
    } else {
      assert Interms([]) == {};
    }
  }

  // ----- what running the code computes -----

  /** The registers of variables are in use. */
  ghost predicate Protected(binding: nat -> RegType, m: Marker)
  {
    forall v: nat :: binding(v).Temp? ==> binding(v).r in m.inUse
  }

  /** The registers hold the variables of the environment. */
  ghost predicate Holds(binding: nat -> RegType, temps: Temps, perms: nat -> Cell, env: nat -> Cell)
  {
    forall v: nat :: OperandCell(temps, perms, Reg(binding(v))) == env(v)
  }

  /** Registers in `kept` have not changed. */
  ghost predicate Same(temps: Temps, temps': Temps, kept: set<nat>)
  {
    forall r :: r in kept ==> TempCell(temps', r) == TempCell(temps, r)
  }

  lemma {:induction false} HoldsStill(binding: nat -> RegType, temps: Temps, temps': Temps, perms: nat -> Cell,
                                      env: nat -> Cell, m: Marker)
    requires Protected(binding, m) && Holds(binding, temps, perms, env) && Same(temps, temps', m.inUse)
    ensures Holds(binding, temps', perms, env)
  {
    forall v: nat ensures OperandCell(temps', perms, Reg(binding(v))) == env(v) {
      assert OperandCell(temps, perms, Reg(binding(v))) == env(v);
      if binding(v).Temp? {
        assert binding(v).r in m.inUse;
      }
    }
  }

  /** Running the code of a part: it stops where evaluation in compiled order stops, or leaves the result in the
      part's operand and everything that was in use as it was. */
  ghost predicate Runs(arith: Arith, perms: nat -> Cell, code: seq<Instr>, temps: Temps, kept: set<nat>, o: Operand,
                       r: Ready)
  {
    match r
    case Failed(e) => Run(arith, perms, code, temps) == Raised(e)
    case Ready(cell) =>
      && Run(arith, perms, code, temps).Done?
      && Same(temps, Run(arith, perms, code, temps).temps, kept)
      && OperandCell(Run(arith, perms, code, temps).temps, perms, o) == cell
  }

  ghost predicate RunsAll(arith: Arith, perms: nat -> Cell, code: seq<Instr>, temps: Temps, kept: set<nat>,
                          os: seq<Operand>, r: AllReady)
  {
    match r
    case NotReady(e) => Run(arith, perms, code, temps) == Raised(e)
    case AllReady(cells) =>
      && Run(arith, perms, code, temps).Done?
      && Same(temps, Run(arith, perms, code, temps).temps, kept)
      && OperandCells(Run(arith, perms, code, temps).temps, perms, os) == cells
  }

  lemma {:induction false} CompRuns(arith: Arith, binding: nat -> RegType, perms: nat -> Cell, env: nat -> Cell,
                                    t: Expr, m: Marker, temps: Temps)
    requires Comp(arith, binding, t, false, m).Compiled? && Protected(binding, m) && Holds(binding, temps, perms, env)
    ensures var c := Comp(arith, binding, t, false, m);
            Runs(arith, perms, c.code, temps, m.inUse, c.operand, Ran(arith, env, t))
    decreases t, 1
  {
    if t.Op? {
      hide Comp, GiveBackAll, Allocate, Runs, RunsAll;
      OpParts(arith, binding, t, false, m);
      var all := CompAll(arith, binding, t.args, m);
      CompAllRuns(arith, binding, perms, env, t.args, m, temps);
      CompAllInUse(arith, binding, t.args, m);
      var target := Allocate(all.marker);
      OpRuns(arith, perms, env, t, all.code, all.operands, target.reg, temps, m.inUse);
    } else {
      assert OperandCell(temps, perms, Comp(arith, binding, t, false, m).operand) == Ran(arith, env, t).cell;
    }
  }

  /** The last instruction applies the functor to what the arguments' code left. */
  lemma {:induction false} OpRuns(arith: Arith, perms: nat -> Cell, env: nat -> Cell, t: Expr, code: seq<Instr>,
                                  os: seq<Operand>, target: nat,
                                  temps: Temps, kept: set<nat>)
    requires t.Op? && RunsAll(arith, perms, code, temps, kept, os, RanAll(arith, env, t.args)) && target !in kept
    ensures Runs(arith, perms, code + [Instr(t.name, os, target)], temps, kept, Interm(target), Ran(arith, env, t))
  {
    hide Operate;
    RunConcat(arith, perms, code, [Instr(t.name, os, target)], temps);
    if RanAll(arith, env, t.args).AllReady? {
      RunOne(arith, perms, Instr(t.name, os, target), Run(arith, perms, code, temps).temps);
    }
  }

  lemma {:induction false} RunOne(arith: Arith, perms: nat -> Cell, instr: Instr, temps: Temps)
    ensures Run(arith, perms, [instr], temps) ==
            match Operate(arith, instr.name, OperandCells(temps, perms, instr.operands))
            case Failed(e) => Raised(e)
            case Ready(cell) => Done(temps[instr.target := cell])
  {
    assert [instr][1..] == [];
  }

  lemma {:induction false} CompAllRuns(arith: Arith, binding: nat -> RegType, perms: nat -> Cell, env: nat -> Cell,
                                       ts: seq<Expr>, m: Marker,
                                       temps: Temps)
    requires CompAll(arith, binding, ts, m).CompiledAll? && Protected(binding, m) && Holds(binding, temps, perms, env)
    ensures var c := CompAll(arith, binding, ts, m);
            RunsAll(arith, perms, c.code, temps, m.inUse, c.operands, RanAll(arith, env, ts))
    decreases ts
  {
    if ts != [] {
      hide Comp, Protected, Holds, Interms, Ran;
      var first := Comp(arith, binding, ts[0], false, m);
      var more := CompAll(arith, binding, ts[1..], first.marker);
      CompRuns(arith, binding, perms, env, ts[0], m, temps);
      RunConcat(arith, perms, first.code, more.code, temps);
      if Ran(arith, env, ts[0]).Ready? {
        var temps1 := Run(arith, perms, first.code, temps).temps;
        CompInUse(arith, binding, ts[0], m);
        HoldsStill(binding, temps, temps1, perms, env, m);
        ProtectedStill(binding, m, first.marker);
        CompAllRuns(arith, binding, perms, env, ts[1..], first.marker, temps1);
        if RanAll(arith, env, ts[1..]).AllReady? {
          var temps2 := Run(arith, perms, more.code, temps1).temps;
          OperandKept(first.operand, temps1, temps2, perms, binding, m, first.marker, ts[0], arith);
          assert OperandCells(temps2, perms, [first.operand] + more.operands) ==
                 [OperandCell(temps2, perms, first.operand)] + OperandCells(temps2, perms, more.operands);
        }
      }
    }
  }

  lemma {:induction false} ProtectedStill(binding: nat -> RegType, m: Marker, m': Marker)
    requires Protected(binding, m) && m.inUse <= m'.inUse
    ensures Protected(binding, m')
  {
  }

  /** The operand of a part is not touched while the later parts run. */
  lemma {:induction false} OperandKept(o: Operand, temps: Temps, temps': Temps, perms: nat -> Cell,
                                       binding: nat -> RegType, m: Marker, m': Marker,
                                       t: Expr, arith: Arith)
    requires Comp(arith, binding, t, false, m).Compiled? && o == Comp(arith, binding, t, false, m).operand
    requires m' == Comp(arith, binding, t, false, m).marker && Protected(binding, m) && Same(temps, temps', m'.inUse)
    ensures OperandCell(temps', perms, o) == OperandCell(temps, perms, o)
  {
    CompInUse(arith, binding, t, m);
    if o.Interm? {
      OneInterm(o.t);
    } else if o.Reg? {
      OperandOfVar(arith, binding, t, m);
    }
  }

  lemma {:induction false} OperandOfVar(arith: Arith, binding: nat -> RegType, t: Expr, m: Marker)
    requires Comp(arith, binding, t, false, m).Compiled? && Comp(arith, binding, t, false, m).operand.Reg?
            && Protected(binding, m)
    ensures var reg := Comp(arith, binding, t, false, m).operand.reg; reg.Temp? ==> reg.r in m.inUse
  {
  }

  // ----- the main result -----

  /** Running the code of a whole expression gives the outcome of evaluation in compiled order, and leaves the
      registers of all variables unchanged, whichever registers are given back and used again on the way. */
  lemma {:induction false} CompileIsCorrect(arith: Arith, binding: nat -> RegType, perms: nat -> Cell,
                                            env: nat -> Cell, t: Expr, m: Marker,
                                            temps: Temps)
    requires Comp(arith, binding, t, true, m).Compiled? && Protected(binding, m) && Holds(binding, temps, perms, env)
    requires forall v: nat :: binding(v) != Temp(m.argC)
    ensures var c := Comp(arith, binding, t, true, m);
            && Runs(arith, perms, c.code, temps, m.inUse - {m.argC}, c.operand, Ran(arith, env, t))
            && (Ran(arith, env, t).Ready? ==>
                  && Holds(binding, Run(arith, perms, c.code, temps).temps, perms, env)
                  && ReadCell(arith, OperandCell(Run(arith, perms, c.code, temps).temps, perms, c.operand))
                      == Final(arith, env, t))
  {
    var c := Comp(arith, binding, t, true, m);
    if t.Op? {
      hide Comp, GiveBackAll, RunsAll, Interms, Run, Ran;
      OpParts(arith, binding, t, true, m);
      var all := CompAll(arith, binding, t.args, m);
      CompAllRuns(arith, binding, perms, env, t.args, m, temps);
      CompAllInUse(arith, binding, t.args, m);
      FewerKept(arith, perms, all.code, temps, m.inUse, m.inUse - {m.argC}, all.operands, RanAll(arith, env, t.args));
      OpRuns(arith, perms, env, t, all.code, all.operands, m.argC, temps, m.inUse - {m.argC});
    } else {
      assert OperandCell(temps, perms, c.operand) == Ran(arith, env, t).cell;
    }
    if Ran(arith, env, t).Ready? {
      HoldsStill(binding, temps, Run(arith, perms, c.code, temps).temps, perms, env, m.(inUse := m.inUse - {m.argC}));
    }
  }

  lemma {:induction false} FewerKept(arith: Arith, perms: nat -> Cell, code: seq<Instr>, temps: Temps, kept: set<nat>,
                                     fewer: set<nat>, os: seq<Operand>, r: AllReady)
    requires RunsAll(arith, perms, code, temps, kept, os, r) && fewer <= kept
    ensures RunsAll(arith, perms, code, temps, fewer, os, r)
  {
  }

  /** Compiled code and recursive evaluation succeed together and with the same value, and have the same outcome if
      and only if, where evaluation stops at a variable, the operands after it compute without an error or with the
      same one; so they do if every variable can be read. */
  lemma {:induction false} CompiledMeansEval(arith: Arith, binding: nat -> RegType, perms: nat -> Cell,
                                             env: nat -> Cell, t: Expr, m: Marker,
                                             temps: Temps)
    requires Comp(arith, binding, t, true, m).Compiled? && Protected(binding, m) && Holds(binding, temps, perms, env)
    requires forall v: nat :: binding(v) != Temp(m.argC)
    ensures var c := Comp(arith, binding, t, true, m);
            var run := Run(arith, perms, c.code, temps);
            var result := if run.Raised? then Bad(run.e) else ReadCell(arith, OperandCell(run.temps, perms, c.operand));
            && Agree(result, Eval(arith, env, t), Readable(arith, env, t))
            && (result == Eval(arith, env, t) <==> LaterHarmless(arith, env, t))
  {
    hide Comp, Run, Eval, Ran, Readable, LaterHarmless;
    CompileIsCorrect(arith, binding, perms, env, t, m, temps);
    OrdersAgree(arith, env, t);
    SameOutcomeExactly(arith, env, t);
  }

  // ----- expressions that are refused -----

  /** The first part, in postorder, that can never be evaluated. */
  function FirstBad(arith: Arith, t: Expr): Option<Error>
  {
    match t
    case Number(_) => None
    case Var(_) => None
    case Atom(name) => if arith.constant(name).Some? then None else Some(NonEvaluable(name, 0))
    case AnonVar => Some(Uninstantiated)
    case List(_, _) => Some(NonEvaluable(DOT, 2))
    case Text(_) => Some(NonEvaluable(DOT, 2))
    case Op(name, args) =>
      var bad := FirstBadOf(arith, args);
      if bad.Some? then bad else if Evaluable(arith, name, |args|) then None else Some(NonEvaluable(name, |args|))
  }

  function FirstBadOf(arith: Arith, ts: seq<Expr>): Option<Error>
  {
    if ts == [] then None
    else
      var bad := FirstBad(arith, ts[0]);
      if bad.Some? then bad else FirstBadOf(arith, ts[1..])
  }

  /** An expression is refused exactly if it has such a part, and the first one is reported. */
  lemma {:induction false} RefusesBad(arith: Arith, binding: nat -> RegType, t: Expr, root: bool, m: Marker)
    ensures match FirstBad(arith, t)
            case None => Comp(arith, binding, t, root, m).Compiled?
            case Some(e) => Comp(arith, binding, t, root, m) == Refused(e)
    decreases t, 1
  {
    if t.Op? {
      RefusesBadOf(arith, binding, t.args, m);
    }
  }

  lemma {:induction false} RefusesBadOf(arith: Arith, binding: nat -> RegType, ts: seq<Expr>, m: Marker)
    ensures match FirstBadOf(arith, ts)
            case None => CompAll(arith, binding, ts, m).CompiledAll?
            case Some(e) => CompAll(arith, binding, ts, m) == RefusedOne(e)
    decreases ts
  {
    if ts != [] {
      RefusesBad(arith, binding, ts[0], false, m);
      if FirstBad(arith, ts[0]).None? {
        RefusesBadOf(arith, binding, ts[1..], Comp(arith, binding, ts[0], false, m).marker);
      }
    }
  }

  /** ... and then evaluation fails in every environment. */
  lemma {:induction false} BadNeverEvaluates(arith: Arith, env: nat -> Cell, t: Expr)
    requires FirstBad(arith, t).Some?
    ensures Eval(arith, env, t).Bad?
    decreases t, 1
  {
    if t.Op? && FirstBadOf(arith, t.args).Some? {
      BadOfNeverEvaluates(arith, env, t.args);
    }
  }

  lemma {:induction false} BadOfNeverEvaluates(arith: Arith, env: nat -> Cell, ts: seq<Expr>)
    requires FirstBadOf(arith, ts).Some?
    ensures EvalAll(arith, env, ts).Stopped?
    decreases ts
  {
    if FirstBad(arith, ts[0]).Some? {
      BadNeverEvaluates(arith, env, ts[0]);
    } else {
      BadOfNeverEvaluates(arith, env, ts[1..]);
    }
  }
}
