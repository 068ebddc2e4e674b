/**
 Arithmetic expressions, their recursive evaluation, and the order in which compiled code
 evaluates them.
 */
module ArithTerms {
  import opened Options

  /** An expression. Atoms may be constants such as pi; lists and strings, the latter given by what follows
      their characters, cannot be evaluated. */
  datatype Expr =
    | Number(n: int)
    | Atom(name: nat)
    | Var(v: nat)
    | AnonVar
    | Op(name: nat, args: seq<Expr>)
    | List(head: Expr, tail: Expr)
    | Text(rest: Expr)

  /** The last one is the type error for a cell that is no evaluable term. */
  datatype Error = Uninstantiated | NonEvaluable(name: nat, arity: nat) | Failure(id: nat) | NoEvaluableCell

  datatype Outcome = Ok(n: int) | Bad(e: Error)

  /** What a register holds: a number, or a cell that has to be evaluated when it is read. */
  datatype Cell = Num(n: int) | Ref(id: nat)

  /** The name reported for lists and strings. */
  const DOT := 0

  predicate IsList(t: Expr)
  {
    t.List? || t.Text?
  }

  /** The arithmetic itself: constants, the evaluable functors, and what they compute. */
  datatype Arith = Arith(constant: nat -> Option<int>, known: (nat, nat) -> bool, apply: (nat, seq<int>) -> Outcome,
                         metacall: nat -> Outcome)

  function ReadCell(arith: Arith, cell: Cell): Outcome
  {
    match cell
    case Num(n) => Ok(n)
    case Ref(id) => arith.metacall(id)
  }

  /** Only functors of one or two arguments are evaluable. */
  predicate Evaluable(arith: Arith, name: nat, arity: nat)
  {
    1 <= arity <= 2 && arith.known(name, arity)
  }

  function Applied(arith: Arith, name: nat, values: seq<int>): Outcome
  {
    if Evaluable(arith, name, |values|) then arith.apply(name, values) else Bad(NonEvaluable(name, |values|))
  }

  // ----- recursive evaluation -----

  datatype Values = Values(ns: seq<int>) | Stopped(e: Error)

  function Eval(arith: Arith, env: nat -> Cell, t: Expr): Outcome
  {
    match t
    case Number(n) => Ok(n)
    case Atom(name) => if arith.constant(name).Some? then Ok(arith.constant(name).value) else Bad(NonEvaluable(name, 0))
    case Var(v) => ReadCell(arith, env(v))
    case AnonVar => Bad(Uninstantiated)
    case List(_, _) => Bad(NonEvaluable(DOT, 2))
    case Text(_) => Bad(NonEvaluable(DOT, 2))
    case Op(name, args) =>
      match EvalAll(arith, env, args)
      case Stopped(e) => Bad(e)
      case Values(ns) => Applied(arith, name, ns)
  }

  function EvalAll(arith: Arith, env: nat -> Cell, ts: seq<Expr>): (r: Values)
    ensures r.Values? ==> |r.ns| == |ts|
  {
    if ts == [] then Values([])
    else match Eval(arith, env, ts[0])
      case Bad(e) => Stopped(e)
      case Ok(n) =>
        match EvalAll(arith, env, ts[1..])
        case Stopped(e) => Stopped(e)
        case Values(ns) => Values([n] + ns)
  }

  // ----- evaluation in the order of compiled code -----

  /** Variables are read only when the operation that needs them is carried out. */
  datatype Ready = Ready(cell: Cell) | Failed(e: Error)

  datatype AllReady = AllReady(cells: seq<Cell>) | NotReady(e: Error)

  function ReadCells(arith: Arith, cells: seq<Cell>): (r: Values)
    ensures r.Values? ==> |r.ns| == |cells|
  {
    if cells == [] then Values([])
    else match ReadCell(arith, cells[0])
      case Bad(e) => Stopped(e)
      case Ok(n) =>
        match ReadCells(arith, cells[1..])
        case Stopped(e) => Stopped(e)
        case Values(ns) => Values([n] + ns)
  }

  function Operate(arith: Arith, name: nat, cells: seq<Cell>): Ready
  {
    match ReadCells(arith, cells)
    case Stopped(e) => Failed(e)
    case Values(ns) => match Applied(arith, name, ns) case Bad(e) => Failed(e) case Ok(n) => Ready(Num(n))
  }

  function Ran(arith: Arith, env: nat -> Cell, t: Expr): Ready
  {
    match t
    case Number(n) => Ready(Num(n))
    case Atom(name) => if arith.constant(name).Some? then Ready(Num(arith.constant(name).value))
        else Failed(NonEvaluable(name, 0))
    case Var(v) => Ready(env(v))
    case AnonVar => Failed(Uninstantiated)
    case List(_, _) => Failed(NonEvaluable(DOT, 2))
    case Text(_) => Failed(NonEvaluable(DOT, 2))
    case Op(name, args) =>
      match RanAll(arith, env, args)
      case NotReady(e) => Failed(e)
      case AllReady(cells) => Operate(arith, name, cells)
  }

  function RanAll(arith: Arith, env: nat -> Cell, ts: seq<Expr>): (r: AllReady)
    ensures r.AllReady? ==> |r.cells| == |ts|
  {
    if ts == [] then AllReady([])
    else match Ran(arith, env, ts[0])
      case Failed(e) => NotReady(e)
      case Ready(cell) =>
        match RanAll(arith, env, ts[1..])
        case NotReady(e) => NotReady(e)
        case AllReady(cells) => AllReady([cell] + cells)
  }

  /** The result is read last. */
  function Final(arith: Arith, env: nat -> Cell, t: Expr): Outcome
  {
    match Ran(arith, env, t)
    case Failed(e) => Bad(e)
    case Ready(cell) => ReadCell(arith, cell)
  }

  // ----- the two orders compared -----

  /** Every variable of the expression can be read. */
  predicate Readable(arith: Arith, env: nat -> Cell, t: Expr)
  {
    match t
    case Var(v) => ReadCell(arith, env(v)).Ok?
    case Op(_, args) => forall i :: 0 <= i < |args| ==> Readable(arith, env, args[i])
    case _ => true
  }

  predicate Agree(a: Outcome, b: Outcome, readable: bool)
  {
    a.Ok? == b.Ok? && (a.Ok? ==> a == b) && (readable ==> a == b)
  }

  /** The values of arguments: those of the cells in order. */
  predicate AllAgree(cells: Values, values: Values, readable: bool)
  {
    cells.Values? == values.Values? && (cells.Values? ==> cells == values) && (readable ==> cells == values)
  }

  function FinalAll(arith: Arith, env: nat -> Cell, ts: seq<Expr>): Values
  {
    match RanAll(arith, env, ts)
    case NotReady(e) => Stopped(e)
    case AllReady(cells) => ReadCells(arith, cells)
  }

  lemma {:induction false} ReadFirst(arith: Arith, cell: Cell, cells: seq<Cell>)
    ensures ReadCells(arith, [cell] + cells) ==
            match ReadCell(arith, cell)
            case Bad(e) => Stopped(e)
            case Ok(n) => match ReadCells(arith, cells) case Stopped(e) => Stopped(e) case Values(ns) =>
                Values([n] + ns)
  {
    assert ([cell] + cells)[1..] == cells;
  }

  /** An operand that is computed is read without error; only variables can fail when they are read. */
  lemma {:induction false} ReadableCell(arith: Arith, env: nat -> Cell, t: Expr)
    requires Readable(arith, env, t) && Ran(arith, env, t).Ready?
    ensures ReadCell(arith, Ran(arith, env, t).cell).Ok?
  {
  }

  /** Compiled order and recursive order succeed together and with the same value; if no variable fails to be
      read, they also fail with the same error. */
  lemma {:induction false} OrdersAgree(arith: Arith, env: nat -> Cell, t: Expr)
    ensures Agree(Final(arith, env, t), Eval(arith, env, t), Readable(arith, env, t))
    decreases t
  {
    if t.Op? {
      ArgsAgree(arith, env, t.args);
    }
  }

  predicate AllReadable(arith: Arith, env: nat -> Cell, ts: seq<Expr>)
  {
    forall i :: 0 <= i < |ts| ==> Readable(arith, env, ts[i])
  }

  lemma {:induction false} ArgsAgree(arith: Arith, env: nat -> Cell, ts: seq<Expr>)
    ensures AllAgree(FinalAll(arith, env, ts), EvalAll(arith, env, ts), AllReadable(arith, env, ts))
    decreases ts
  {
    if ts != [] {
      OrdersAgree(arith, env, ts[0]);
      ArgsAgree(arith, env, ts[1..]);
      var first, rest := Ran(arith, env, ts[0]), RanAll(arith, env, ts[1..]);
      if AllReadable(arith, env, ts) {
        assert Readable(arith, env, ts[0]) && AllReadable(arith, env, ts[1..]);
        if first.Ready? {
          ReadableCell(arith, env, ts[0]);
        }
      }
      if first.Ready? && rest.AllReady? {
        ReadFirst(arith, first.cell, rest.cells);
      }
    }
  }

  /** The operands that come after the variable at which recursive evaluation stops, in the same operation. None if it
      does not stop at an operand that is a variable. */
  function VarStop(arith: Arith, env: nat -> Cell, t: Expr): Option<seq<Expr>>
  {
    if t.Op? then VarStopIn(arith, env, t.args) else None
  }

  function VarStopIn(arith: Arith, env: nat -> Cell, ts: seq<Expr>): Option<seq<Expr>>
  {
    if ts == [] then None
    else if Eval(arith, env, ts[0]).Ok? then VarStopIn(arith, env, ts[1..])
    else if ts[0].Var? then Some(ts[1..])
    else VarStop(arith, env, ts[0])
  }

  /** The error of the later operands, if they have one, and else `e`. */
  function LaterError(arith: Arith, env: nat -> Cell, later: Option<seq<Expr>>, e: Error): Error
  {
    if later.Some? && RanAll(arith, env, later.value).NotReady? then RanAll(arith, env, later.value).e else e
  }

  /** What compiled order reports where recursive evaluation fails. */
  lemma {:induction false} ErrorReported(arith: Arith, env: nat -> Cell, t: Expr)
    requires Eval(arith, env, t).Bad?
    ensures Final(arith, env, t) == Bad(LaterError(arith, env, VarStop(arith, env, t), Eval(arith, env, t).e))
    decreases t, 1
  {
    if t.Op? {
      if EvalAll(arith, env, t.args).Stopped? {
        ErrorReportedIn(arith, env, t.args);
      } else {
        ArgsAgree(arith, env, t.args);
        NoStop(arith, env, t.args);
      }
    }
  }

  lemma {:induction false} NoStop(arith: Arith, env: nat -> Cell, ts: seq<Expr>)
    requires EvalAll(arith, env, ts).Values?
    ensures VarStopIn(arith, env, ts).None?
  {
    if ts != [] {
      NoStop(arith, env, ts[1..]);
    }
  }

  lemma {:induction false} ErrorReportedIn(arith: Arith, env: nat -> Cell, ts: seq<Expr>)
    requires EvalAll(arith, env, ts).Stopped?
    ensures FinalAll(arith, env, ts) == Stopped(LaterError(arith, env, VarStopIn(arith, env, ts),
            EvalAll(arith, env, ts).e))
    decreases ts
  {
    var first, rest := Ran(arith, env, ts[0]), RanAll(arith, env, ts[1..]);
    if Eval(arith, env, ts[0]).Ok? {
      OrdersAgree(arith, env, ts[0]);
      ErrorReportedIn(arith, env, ts[1..]);
    } else {
      ErrorReported(arith, env, ts[0]);
    }
    if first.Ready? && rest.AllReady? {
      ReadFirst(arith, first.cell, rest.cells);
    }
  }

  /** The operands after the variable at which recursive evaluation stops compute without an error, or with the same
      one. */
  predicate LaterHarmless(arith: Arith, env: nat -> Cell, t: Expr)
  {
    var later := VarStop(arith, env, t);
    Eval(arith, env, t).Bad? && later.Some? ==>
      match RanAll(arith, env, later.value)
      case AllReady(_) => true
      case NotReady(e) => e == Eval(arith, env, t).e
  }

  /** The two orders have the same outcome if and only if the operands after an unreadable variable do no harm. */
  lemma {:induction false} SameOutcomeExactly(arith: Arith, env: nat -> Cell, t: Expr)
    ensures Final(arith, env, t) == Eval(arith, env, t) <==> LaterHarmless(arith, env, t)
  {
    hide Eval, Final, VarStop;
    OrdersAgree(arith, env, t);
    if Eval(arith, env, t).Bad? {
      ErrorReported(arith, env, t);
    }
  }

  /** An unreadable variable next to a failing operation: compiled code reports the operation, recursive
      evaluation the variable. */
  lemma {:induction false} OrdersDiffer(arith: Arith, env: nat -> Cell, f: nat, g: nat, zeroDivisor: Error)
    requires ReadCell(arith, env(0)) == Bad(Uninstantiated)
    requires Evaluable(arith, g, 2) && arith.apply(g, [1, 0]) == Bad(zeroDivisor)
    ensures var t := Op(f, [Var(0), Op(g, [Number(1), Number(0)])]);
            Final(arith, env, t) == Bad(zeroDivisor) && Eval(arith, env, t) == Bad(Uninstantiated)
  {
    var inner := Op(g, [Number(1), Number(0)]);
    assert [Var(0), inner][1..] == [inner] && [inner][1..] == [];
    assert [Number(1), Number(0)][1..] == [Number(0)] && [Number(0)][1..] == [];
    assert RanAll(arith, env, [Number(0)]) == AllReady([Num(0)]) by {
      assert RanAll(arith, env, []) == AllReady([]);
    }
    assert RanAll(arith, env, [Number(1), Number(0)]) == AllReady([Num(1)] + [Num(0)]);
    assert ReadCells(arith, []) == Values([]);
    ReadFirst(arith, Num(0), []);
    assert [Num(0)] + [] == [Num(0)] && [0] + [] == [0] && [1] + [0] == [1, 0];
    ReadFirst(arith, Num(1), [Num(0)]);
    assert Ran(arith, env, inner) == Failed(zeroDivisor);
    var args := [Var(0), inner];
    assert args[0] == Var(0) && Ran(arith, env, Var(0)) == Ready(env(0));
    assert RanAll(arith, env, [inner]) == NotReady(zeroDivisor);
    assert RanAll(arith, env, args) == NotReady(zeroDivisor);
    assert Eval(arith, env, Var(0)) == Bad(Uninstantiated);
    assert EvalAll(arith, env, args) == Stopped(Uninstantiated);
  }
}
