/**
 Running a call of a compiled predicate with its choice points: the answers of the clauses it is led to, in order, up
 to the first clause that cuts; and no choice point is left behind.
 */
module PredicateAnswers {
  import opened IndexingLines
  import opened IndexingDispatch
  import opened PredicateCode
  import opened PredicateReach
  import opened PredicateRun
  import opened Slices
  import opened Options
  import M = BodyMeaning

  /** What a clause does that stands at a position, under a number of choice points. */
  type ClauseRun = (nat, nat) -> M.Outcome

  function Failing(depth: nat): M.Outcome
  {
    M.Outcome([], depth)
  }

  // ----- choice lists of an indexing block -----

  /** A choice list from choice `i` on: a try puts a choice point on top, a retry leaves it there, and a trust takes
      it off. */
  function RunChoices(cs: seq<Choice>, i: nat, p: nat, depth: nat, clause: ClauseRun): M.Outcome
    decreases |cs| - i
  {
    if i >= |cs| then Failing(depth)
    else match cs[i]
      case Try(o) => M.OrElse(clause(p + o, depth + 1), depth, RunChoices(cs, i + 1, p, depth + 1, clause))
      case Retry(o) => M.OrElse(clause(p + o, depth), M.Prev(depth), RunChoices(cs, i + 1, p, depth, clause))
      case DefaultRetry(o) => M.OrElse(clause(p + o, depth), M.Prev(depth), RunChoices(cs, i + 1, p, depth, clause))
      case Trust(o) => clause(p + o, M.Prev(depth))
      case DefaultTrust(o) => clause(p + o, M.Prev(depth))
  }

  /** A dynamic choice list: the first clause acts as a try and the others as retries as long as another one follows;
      the last one acts as a trust, or leads straight on if it is the first. */
  function RunOffsets(os: seq<nat>, i: nat, p: nat, depth: nat, clause: ClauseRun): M.Outcome
    decreases |os| - i
  {
    if i >= |os| then Failing(depth)
    else if i + 1 == |os| then clause(p + os[i], if i == 0 then depth else M.Prev(depth))
    else if i == 0 then M.OrElse(clause(p + os[i], depth + 1), depth, RunOffsets(os, i + 1, p, depth + 1, clause))
    else M.OrElse(clause(p + os[i], depth), M.Prev(depth), RunOffsets(os, i + 1, p, depth, clause))
  }

  function RunLine(line: Line, p: nat, depth: nat, clause: ClauseRun): M.Outcome
  {
    match line
    case IndexedChoice(cs) => RunChoices(cs, 0, p, depth, clause)
    case DynamicIndexedChoice(os) => RunOffsets(os, 0, p, depth, clause)
    case _ => Failing(depth)
  }

  /** Where a bound argument is led. */
  function RunBlock(lines: seq<Line>, arg: Arg, p: nat, depth: nat, clause: ClauseRun): M.Outcome
    requires Rooted(lines)
  {
    var leaf := LeafReached(lines, arg);
    if leaf.None? then Failing(depth)
    else match Ptr(lines, leaf.value)
      case Fail => Failing(depth)
      case External(o) => clause(p + o, depth)
      case DynamicExternal(o) => clause(p + o, depth)
      case Internal(o) =>
        var at := Base(lines, leaf.value) + o;
        if at < |lines| then RunLine(lines[at], p, depth, clause) else Failing(depth)
  }

  // ----- a predicate -----

  /** Execution from `p` on under `depth` choice points. The choice instructions of dynamic predicates act as tries
      when they are reached first, and as retries or trusts when they are reached by backtracking. A try without an
      alternative is a stub, which is never reached. */
  function RunFrom(code: seq<Instr>, args: seq<Arg>, p: nat, depth: nat, first: bool, clause: ClauseRun): M.Outcome
    decreases |code| - p
  {
    if p >= |code| then Failing(depth)
    else match code[p]
      case Body(_) => clause(p, depth)
      case IndexingCode(lines) =>
        if !Rooted(lines) || !(1 <= lines[0].arg <= |args|) then Failing(depth)
        else
          var arg := args[lines[0].arg - 1];
          if !arg.Unbound? then RunBlock(lines, arg, p, depth, clause)
          else if lines[0].v.Fail? || lines[0].v.o == 0 then Failing(depth)
          else RunFrom(code, args, p + lines[0].v.o, depth, true, clause)
      case TryMeElse(o) =>
        if o == 0 then Failing(depth)
        else M.OrElse(RunFrom(code, args, p + 1, depth + 1, false, clause), depth,
                      RunFrom(code, args, p + o, depth + 1, false, clause))
      case RetryMeElse(o) => Retried(code, args, p, o, depth, clause)
      case DefaultRetryMeElse(o) => Retried(code, args, p, o, depth, clause)
      case TrustMe => RunFrom(code, args, p + 1, M.Prev(depth), false, clause)
      case DefaultTrustMe => RunFrom(code, args, p + 1, M.Prev(depth), false, clause)
      case DynamicElse(_, next) => RunDynamic(code, args, p, next, depth, first, clause)
      case DynamicInternalElse(_, next) => RunDynamic(code, args, p, next, depth, first, clause)
  }

  function Retried(code: seq<Instr>, args: seq<Arg>, p: nat, o: nat, depth: nat, clause: ClauseRun): M.Outcome
    requires p < |code|
    decreases |code| - p, 0
  {
    if o == 0 then Failing(depth)
    else M.OrElse(RunFrom(code, args, p + 1, depth, false, clause), M.Prev(depth),
                  RunFrom(code, args, p + o, depth, false, clause))
  }

  function RunDynamic(code: seq<Instr>, args: seq<Arg>, p: nat, next: NextOrFail, depth: nat, first: bool,
                      clause: ClauseRun): M.Outcome
    requires p < |code|
    decreases |code| - p, 1
  {
    if next.Next? && next.o > 0 then
      if first then
        M.OrElse(RunFrom(code, args, p + 1, depth + 1, false, clause), depth,
                 RunFrom(code, args, p + next.o, depth + 1, false, clause))
      else Retried(code, args, p, next.o, depth, clause)
    else RunFrom(code, args, p + 1, if first then depth else M.Prev(depth), false, clause)
  }

  // ----- what it should do -----

  /** Trying the clauses at the given positions in order, under a choice point of their own while another one
      follows. */
  function TryAll(ps: seq<nat>, depth: nat, clause: ClauseRun): M.Outcome
  {
    if ps == [] then Failing(depth)
    else if |ps| == 1 then clause(ps[0], depth)
    else M.OrElse(clause(ps[0], depth + 1), depth, TryAll(ps[1..], depth, clause))
  }

  /** Trying several lists of clauses in order, under another choice point while another list follows. */
  function TryRuns(runs: seq<seq<nat>>, depth: nat, clause: ClauseRun): M.Outcome
  {
    if runs == [] then Failing(depth)
    else if |runs| == 1 then TryAll(runs[0], depth, clause)
    else M.OrElse(TryAll(runs[0], depth + 1, clause), depth, TryRuns(runs[1..], depth, clause))
  }

  /** Entered by backtracking, a chain or list has its choice point on top. */
  function Under(i: nat, depth: nat): nat
  {
    if i == 0 then depth else depth + 1
  }

  // ----- choice lists -----

  /** A choice of a list, entered first or by backtracking. */
  lemma {:induction false} ChoiceStep(cs: seq<Choice>, i: nat, p: nat, depth: nat, clause: ClauseRun)
    requires ChoiceShape(cs) && i < |cs|
    ensures RunChoices(cs, i, p, Under(i, depth), clause) ==
            if i + 1 == |cs| then clause(p + cs[i].o, depth)
            else M.OrElse(clause(p + cs[i].o, depth + 1), depth, RunChoices(cs, i + 1, p, depth + 1, clause))
  {
  }

  lemma {:induction false} TryStep(ps: seq<nat>, depth: nat, clause: ClauseRun)
    requires ps != []
    ensures TryAll(ps, depth, clause) ==
            if |ps| == 1 then clause(ps[0], depth)
            else M.OrElse(clause(ps[0], depth + 1), depth, TryAll(ps[1..], depth, clause))
  {
  }

  lemma {:induction false} ChoicesTry(cs: seq<Choice>, i: nat, p: nat, depth: nat, clause: ClauseRun)
    requires ChoiceShape(cs) && i < |cs|
    ensures RunChoices(cs, i, p, Under(i, depth), clause) == TryAll(At(p, ChoiceOffsets(cs)[i..]), depth, clause)
    decreases |cs| - i
  {
    hide RunChoices, TryAll, ChoiceShape, M.OrElse;
    var ps := At(p, ChoiceOffsets(cs)[i..]);
    assert ps[0] == p + cs[i].o;
    ChoiceStep(cs, i, p, depth, clause);
    TryStep(ps, depth, clause);
    if i + 1 < |cs| {
      assert ps[1..] == At(p, ChoiceOffsets(cs)[i + 1..]);
      ChoicesTry(cs, i + 1, p, depth, clause);
    }
  }

  lemma {:induction false} OffsetsTry(os: seq<nat>, i: nat, p: nat, depth: nat, clause: ClauseRun)
    requires i < |os|
    ensures RunOffsets(os, i, p, Under(i, depth), clause) == TryAll(At(p, os[i..]), depth, clause)
    decreases |os| - i
  {
    var ps := At(p, os[i..]);
    if i + 1 < |os| {
      assert ps[1..] == At(p, os[i + 1..]);
      OffsetsTry(os, i + 1, p, depth, clause);
    }
  }

  /** A block tries what the argument reaches. */
  lemma {:induction false} BlockTries(lines: seq<Line>, arg: Arg, p: nat, depth: nat, clause: ClauseRun, dynamic: bool)
    requires WellFormed(lines, dynamic) && !arg.Unbound?
    ensures Rooted(lines) && RunBlock(lines, arg, p, depth, clause) == TryAll(At(p, Reached(lines, arg)), depth, clause)
  {
    var leaf := LeafReached(lines, arg);
    if leaf.Some? {
      assert LeafOk(lines, leaf.value, dynamic);
      if Ptr(lines, leaf.value).Internal? {
        var line := lines[Base(lines, leaf.value) + Ptr(lines, leaf.value).o];
        if dynamic {
          OffsetsTry(line.offsets, 0, p, depth, clause);
          assert line.offsets[0..] == line.offsets;
        } else {
          ChoicesTry(line.choices, 0, p, depth, clause);
          assert ChoiceOffsets(line.choices)[0..] == ChoiceOffsets(line.choices);
        }
      }
    }
  }

  // ----- runs -----

  /** A choice instruction with another alternative `o` further on. */
  predicate Leads(instr: Instr, i: nat, o: nat)
  {
    || instr == (if i == 0 then TryMeElse(o) else RetryMeElse(o))
    || (i > 0 && instr == DefaultRetryMeElse(o))
    || (instr.DynamicElse? && instr.next == Next(o))
    || (instr.DynamicInternalElse? && instr.next == Next(o))
  }

  /** A choice instruction without another alternative. */
  predicate Ends(instr: Instr)
  {
    || instr.TrustMe? || instr.DefaultTrustMe?
    || (instr.DynamicElse? && instr.next.Fail?)
    || (instr.DynamicInternalElse? && instr.next.Fail?)
  }

  lemma {:induction false} LeadsOn(code: seq<Instr>, args: seq<Arg>, p: nat, i: nat, o: nat, depth: nat,
                                   clause: ClauseRun)
    requires p < |code| && o > 0 && Leads(code[p], i, o)
    ensures RunFrom(code, args, p, Under(i, depth), i == 0, clause) ==
            M.OrElse(RunFrom(code, args, p + 1, depth + 1, false, clause), depth,
                     RunFrom(code, args, p + o, depth + 1, false, clause))
  {
    if code[p].DynamicElse? || code[p].DynamicInternalElse? {
      DynamicLeadsOn(code, args, p, i, o, depth, clause);
    } else if i > 0 {
      RetryLeadsOn(code, args, p, o, depth, clause);
    }
  }

  lemma {:induction false} RetryLeadsOn(code: seq<Instr>, args: seq<Arg>, p: nat, o: nat, depth: nat, clause: ClauseRun)
    requires p < |code| && o > 0 && (code[p] == RetryMeElse(o) || code[p] == DefaultRetryMeElse(o))
    ensures RunFrom(code, args, p, depth + 1, false, clause) ==
            M.OrElse(RunFrom(code, args, p + 1, depth + 1, false, clause), depth,
                     RunFrom(code, args, p + o, depth + 1, false, clause))
  {
    assert RunFrom(code, args, p, depth + 1, false, clause) == Retried(code, args, p, o, depth + 1, clause);
  }

  lemma {:induction false} DynamicLeadsOn(code: seq<Instr>, args: seq<Arg>, p: nat, i: nat, o: nat, depth: nat,
                                          clause: ClauseRun)
    requires p < |code| && o > 0 && (code[p].DynamicElse? || code[p].DynamicInternalElse?) && code[p].next == Next(o)
    ensures RunFrom(code, args, p, Under(i, depth), i == 0, clause) ==
            M.OrElse(RunFrom(code, args, p + 1, depth + 1, false, clause), depth,
                     RunFrom(code, args, p + o, depth + 1, false, clause))
  {
    assert RunFrom(code, args, p, Under(i, depth), i == 0, clause) ==
           RunDynamic(code, args, p, Next(o), Under(i, depth), i == 0, clause);
    if i > 0 {
      assert RunDynamic(code, args, p, Next(o), depth + 1, false, clause) ==
             Retried(code, args, p, o, depth + 1, clause);
    }
  }

  lemma {:induction false} EndsHere(code: seq<Instr>, args: seq<Arg>, p: nat, depth: nat, clause: ClauseRun)
    requires p < |code| && Ends(code[p])
    ensures RunFrom(code, args, p, depth + 1, false, clause) == RunFrom(code, args, p + 1, depth, false, clause)
  {
  }

  /** The choice instruction in front of a clause of a run of at least two, and the clause. */
  lemma {:induction false} InnerRuns(code: seq<Instr>, args: seq<Arg>, run: seq<Clause>, settings: Settings, p: nat,
                                     i: nat, depth: nat, clause: ClauseRun)
    requires i < |run| && |run| >= 2 && p + 1 < |code| && code[p] == InnerChoice(run, i, settings) && code[p + 1].Body?
    ensures RunFrom(code, args, p, Under(i, depth), i == 0, clause) ==
            if i + 1 == |run| then clause(p + 1, depth)
            else M.OrElse(clause(p + 1, depth + 1), depth,
                          RunFrom(code, args, p + 1 + |run[i].body|, depth + 1, false, clause))
  {
    hide RunFrom;
    BodyRuns(code, args, p + 1, depth, false, clause);
    BodyRuns(code, args, p + 1, depth + 1, false, clause);
    if i + 1 == |run| {
      EndsHere(code, args, p, depth, clause);
    } else {
      LeadsOn(code, args, p, i, |run[i].body| + 1, depth, clause);
      assert p + (|run[i].body| + 1) == p + 1 + |run[i].body|;
    }
  }

  lemma {:induction false} ChainRuns(code: seq<Instr>, args: seq<Arg>, run: seq<Clause>, settings: Settings, b: nat,
                                     i: nat, depth: nat, clause: ClauseRun)
    requires PlainBodies(run) && i < |run| && |run| >= 2 && StandsAt(code, Chained(run, |run|, settings), b)
    ensures RunFrom(code, args, b + Room(run, i), Under(i, depth), i == 0, clause) ==
            TryAll(BodyList(run, b, i), depth, clause)
    decreases |run| - i
  {
    hide RunFrom, Chained, StandsAt, InnerChoice, PlainBodies, TryAll, M.OrElse, Room;
    ChainInstr(code, run, settings, b, i);
    InnerRuns(code, args, run, settings, b + Room(run, i), i, depth, clause);
    var ps := BodyList(run, b, i);
    TryStep(ps, depth, clause);
    if i + 1 < |run| {
      ChainRuns(code, args, run, settings, b, i + 1, depth, clause);
      assert ps[1..] == BodyList(run, b, i + 1);
    }
  }

  lemma {:induction false} BodyRuns(code: seq<Instr>, args: seq<Arg>, p: nat, depth: nat, first: bool,
                                    clause: ClauseRun)
    requires p < |code| && code[p].Body?
    ensures RunFrom(code, args, p, depth, first, clause) == clause(p, depth)
  {
  }

  lemma {:induction false} UnboundRuns(code: seq<Instr>, args: seq<Arg>, lines: seq<Line>, arg: nat, b: nat, depth: nat,
                                       first: bool, clause: ClauseRun)
    requires StandsAt(code, [IndexingCode(lines)], b)
    requires Rooted(lines) && lines[0].arg == arg + 1 && arg < |args| && args[arg].Unbound?
    requires !lines[0].v.Fail? && lines[0].v.o > 0
    ensures RunFrom(code, args, b, depth, first, clause) == RunFrom(code, args, b + lines[0].v.o, depth, true, clause)
  {
    Within(code, [IndexingCode(lines)], b, 0, 1);
  }

  lemma {:induction false} BoundRuns(code: seq<Instr>, args: seq<Arg>, lines: seq<Line>, arg: nat, b: nat, depth: nat,
                                     first: bool, clause: ClauseRun)
    requires StandsAt(code, [IndexingCode(lines)], b)
    requires Rooted(lines) && lines[0].arg == arg + 1 && arg < |args| && !args[arg].Unbound?
    ensures RunFrom(code, args, b, depth, first, clause) == RunBlock(lines, args[arg], b, depth, clause)
  {
    Within(code, [IndexingCode(lines)], b, 0, 1);
  }

  /** A run of one clause behind its stub, as an unbound argument enters it. */
  lemma {:induction false} OneClauseRuns(code: seq<Instr>, args: seq<Arg>, run: seq<Clause>, settings: Settings, b: nat,
                                         depth: nat, clause: ClauseRun)
    requires PlainBodies(run) && |run| == 1 && StandsAt(code, Chained(run, 1, settings), b)
    ensures RunFrom(code, args, b + if settings.Dynamic() then 0 else 1, depth, true, clause) == clause(b + 1, depth)
  {
    hide Chained, StandsAt;
    ChainInstr(code, run, settings, b, 0);
    BodyRuns(code, args, b + 1, depth, true, clause);
    BodyRuns(code, args, b + 1, depth, false, clause);
  }

  lemma {:induction false} UnboundTries(code: seq<Instr>, args: seq<Arg>, run: seq<Clause>, lines: seq<Line>, arg: nat,
                                        settings: Settings, b: nat, depth: nat, first: bool, clause: ClauseRun)
    requires PlainBodies(run) && run != [] && lines != [] && !Bare(run, lines, settings)
    requires StandsAt(code, RunCode(run, lines, settings), b)
    requires Rooted(lines) && lines[0].arg == arg + 1 && arg < |args| && args[arg].Unbound?
    requires !lines[0].v.Fail? && lines[0].v.o == if |run| == 1 && !settings.Dynamic() then 2 else 1
    ensures RunFrom(code, args, b, depth, first, clause) == TryAll(BodyList(run, b + 1, 0), depth, clause)
  {
    hide RunFrom, Chained, StandsAt, TryAll;
    var chain := Chained(run, |run|, settings);
    assert RunCode(run, lines, settings) == [IndexingCode(lines)] + chain;
    Joined(code, [IndexingCode(lines)], chain, b);
    UnboundRuns(code, args, lines, arg, b, depth, first, clause);
    if |run| == 1 {
      OneClauseRuns(code, args, run, settings, b + 1, depth, clause);
      assert BodyList(run, b + 1, 1) == [];
      assert BodyList(run, b + 1, 0) == [b + 2];
      OneTry(b + 2, depth, clause);
    } else {
      ChainRuns(code, args, run, settings, b + 1, 0, depth, clause);
    }
  }

  lemma {:induction false} OneTry(p: nat, depth: nat, clause: ClauseRun)
    ensures TryAll([p], depth, clause) == clause(p, depth)
  {
  }

  /** Entering a run tries what it reaches. */
  lemma {:induction false} RunTries(code: seq<Instr>, args: seq<Arg>, run: seq<Clause>, lines: seq<Line>, arg: nat,
                                    settings: Settings, b: nat, depth: nat, first: bool, clause: ClauseRun)
    requires PlainBodies(run) && run != [] && StandsAt(code, RunCode(run, lines, settings), b)
    requires RunForm(run, arg, lines, settings) && RunLines(run, lines, arg, settings) && (lines != [] ==> arg < |args|)
    ensures RunFrom(code, args, b, depth, first, clause) == TryAll(Reach(code, args, b), depth, clause)
  {
    hide RunFrom, Reach, Represents, RunEntries, TryAll, WellFormed, StandsAt;
    if Bare(run, lines, settings) {
      EnterBody(code, args, run, b);
      FirstOfBody(code, run, b);
      BodyRuns(code, args, b, depth, first, clause);
      OneTry(b, depth, clause);
    } else {
      BlockFirst(code, run, lines, settings, b);
      VarSlot(lines, settings.Dynamic());
      if args[arg].Unbound? {
        UnboundReach(code, args, run, lines, arg, settings, b);
        UnboundTries(code, args, run, lines, arg, settings, b, depth, first, clause);
      } else {
        BoundReach(code, args, run, lines, arg, settings, b);
        BoundRuns(code, args, lines, arg, b, depth, first, clause);
        BlockTries(lines, args[arg], b, depth, clause, settings.Dynamic());
      }
    }
  }

  lemma {:induction false} FirstOfBody(code: seq<Instr>, run: seq<Clause>, b: nat)
    requires PlainBodies(run) && run != [] && StandsAt(code, run[0].body, b)
    ensures b < |code| && code[b].Body?
  {
    Within(code, run[0].body, b, 0, 1);
  }

  lemma {:induction false} BlockFirst(code: seq<Instr>, run: seq<Clause>, lines: seq<Line>, settings: Settings, b: nat)
    requires run != [] && lines != [] && !Bare(run, lines, settings) && StandsAt(code, RunCode(run, lines, settings), b)
    ensures StandsAt(code, [IndexingCode(lines)], b)
  {
    Joined(code, [IndexingCode(lines)], Chained(run, |run|, settings), b);
  }

  // ----- the whole predicate -----

  /** Where a call enters: past a stub in front of the only run. */
  function Entered(code: seq<Instr>): nat
  {
    if code != [] && code[0] == TryMeElse(0) then 1 else 0
  }

  /** What a call reaches of each run from run `k` on. */
  function RunsReached(spans: seq<ClauseSpan>, placed: seq<Placed>, settings: Settings, args: seq<Arg>, k: nat)
    : (r: seq<seq<nat>>)
    requires k <= |placed|
    ensures |r| == |placed| - k
    decreases |placed| - k
  {
    if k == |placed| then [] else
      [Reach(Flatten(Codes(placed)), args, RunBase(spans, placed, settings, k))]
      + RunsReached(spans, placed, settings, args, k + 1)
  }

  /** The outer choice instruction of one of several runs. */
  lemma {:induction false} OuterRuns(code: seq<Instr>, args: seq<Arg>, clauses: seq<Clause>, spans: seq<ClauseSpan>,
                                     settings: Settings, k: nat, size: nat, p: nat, depth: nat, clause: ClauseRun)
    requires Tiles(spans, 0, |clauses|) && k < |spans| && |spans| >= 2 && p < |code|
    requires [code[p]] == OuterChoice(clauses, spans, k, size, settings)
    ensures RunFrom(code, args, p, Under(k, depth), k == 0, clause) ==
            if k + 1 == |spans| then RunFrom(code, args, p + 1, depth, false, clause)
            else M.OrElse(RunFrom(code, args, p + 1, depth + 1, false, clause), depth,
                          RunFrom(code, args, p + size + 1, depth + 1, false, clause))
  {
    hide RunFrom, Tiles;
    LastSpan(spans, |clauses|, k);
    if k + 1 == |spans| {
      EndsHere(code, args, p, depth, clause);
    } else {
      LeadsOn(code, args, p, k, size + 1, depth, clause);
      assert p + (size + 1) == p + size + 1;
    }
  }

  /** How a run is entered does not matter to it. */
  lemma {:induction false} SpanTries(clauses: seq<Clause>, spans: seq<ClauseSpan>, placed: seq<Placed>,
                                     settings: Settings, args: seq<Arg>, k: nat, depth: nat, first: bool,
                                         clause: ClauseRun)
    requires Compiled(clauses, spans, placed, settings) && k < |spans| && PlainBodies(clauses)
            && ArityFits(clauses, args)
    ensures var code, b := Flatten(Codes(placed)), RunBase(spans, placed, settings, k);
            RunFrom(code, args, b, depth, first, clause) == TryAll(Reach(code, args, b), depth, clause)
  {
    hide Reach, RunFrom, TryAll, GoodSpans, RunLines, RunPlaced, Flatten;
    assert RunPlaced(clauses, spans, placed, settings, k);
    PieceAt(clauses, spans, placed, settings, k);
    RunForms(clauses, spans, placed, settings, k);
    assert RunIndexed(clauses, spans, placed, settings, k);
    var run := Run(clauses, spans[k]);
    assert placed[k].lines != [] ==> spans[k].arg < |args| by {
      if placed[k].lines != [] { assert run[0] == clauses[spans[k].left]; }
    }
    RunTries(Flatten(Codes(placed)), args, run, placed[k].lines, spans[k].arg, settings,
        RunBase(spans, placed, settings, k), depth, first, clause);
  }

  lemma {:induction false} SpansTry(clauses: seq<Clause>, spans: seq<ClauseSpan>, placed: seq<Placed>,
                                    settings: Settings, args: seq<Arg>, k: nat, depth: nat, clause: ClauseRun)
    requires Compiled(clauses, spans, placed, settings) && k < |spans| && |spans| >= 2 && PlainBodies(clauses)
            && ArityFits(clauses, args)
    ensures RunFrom(Flatten(Codes(placed)), args, PieceStart(placed, k), Under(k, depth), k == 0, clause) ==
            TryRuns(RunsReached(spans, placed, settings, args, k), depth, clause)
    decreases |spans| - k
  {
    hide Reach, RunFrom, TryAll, RunPlaced, RunIndexed, Flatten, Uniform, Tiles, PieceStart, OuterChoice, RunCode;
    var code, p := Flatten(Codes(placed)), PieceStart(placed, k);
    assert RunPlaced(clauses, spans, placed, settings, k);
    PieceAt(clauses, spans, placed, settings, k);
    var run := RunCode(Run(clauses, spans[k]), placed[k].lines, settings);
    OuterOne(clauses, spans, settings, k, |run|);
    var choice := OuterChoice(clauses, spans, k, |run|, settings);
    Within(code, choice, p, 0, 1);
    OuterRuns(code, args, clauses, spans, settings, k, |run|, p, depth, clause);
    SpanTries(clauses, spans, placed, settings, args, k, depth, false, clause);
    SpanTries(clauses, spans, placed, settings, args, k, depth + 1, false, clause);
    if k + 1 < |spans| {
      SpansTry(clauses, spans, placed, settings, args, k + 1, depth, clause);
    }
  }

  lemma {:induction false} OuterOne(clauses: seq<Clause>, spans: seq<ClauseSpan>, settings: Settings, k: nat, size: nat)
    requires k < |spans| && |spans| >= 2
    ensures |OuterChoice(clauses, spans, k, size, settings)| == 1
  {
  }

  /** A call tries, run by run, what it reaches. */
  lemma {:induction false} CallTries(clauses: seq<Clause>, spans: seq<ClauseSpan>, placed: seq<Placed>,
                                     settings: Settings, args: seq<Arg>, depth: nat, clause: ClauseRun)
    requires Compiled(clauses, spans, placed, settings) && PlainBodies(clauses) && ArityFits(clauses, args)
    ensures var code := Flatten(Codes(placed));
            RunFrom(code, args, Entered(code), depth, true, clause) ==
            TryRuns(RunsReached(spans, placed, settings, args, 0), depth, clause)
  {
    hide Reach, RunFrom, TryAll, RunPlaced, RunIndexed, GoodSpans, ArityFits, Flatten;
    var code := Flatten(Codes(placed));
    if spans == [] {
      NoCode(code, placed, args, depth, clause);
    } else if |spans| == 1 {
      OneSpan(clauses, spans, placed, settings, args, depth, clause);
    } else {
      SpansTry(clauses, spans, placed, settings, args, 0, depth, clause);
      NoStub(clauses, spans, placed, settings);
    }
  }

  lemma {:induction false} NoCode(code: seq<Instr>, placed: seq<Placed>, args: seq<Arg>, depth: nat, clause: ClauseRun)
    requires placed == [] && code == Flatten(Codes(placed))
    ensures code == [] && RunFrom(code, args, Entered(code), depth, true, clause) == Failing(depth)
  {
    assert Codes(placed) == [];
  }

  /** With several runs, the first instruction is no stub. */
  lemma {:induction false} NoStub(clauses: seq<Clause>, spans: seq<ClauseSpan>, placed: seq<Placed>, settings: Settings)
    requires Compiled(clauses, spans, placed, settings) && |spans| >= 2
    ensures Entered(Flatten(Codes(placed))) == 0 == PieceStart(placed, 0)
  {
    hide RunCode, RunIndexed, Uniform, Tiles;
    assert RunPlaced(clauses, spans, placed, settings, 0);
    PieceAt(clauses, spans, placed, settings, 0);
    var run := RunCode(Run(clauses, spans[0]), placed[0].lines, settings);
    OuterOne(clauses, spans, settings, 0, |run|);
    Within(Flatten(Codes(placed)), OuterChoice(clauses, spans, 0, |run|, settings), 0, 0, 1);
  }

  lemma {:induction false} OneSpan(clauses: seq<Clause>, spans: seq<ClauseSpan>, placed: seq<Placed>,
                                   settings: Settings, args: seq<Arg>, depth: nat, clause: ClauseRun)
    requires Compiled(clauses, spans, placed, settings) && |spans| == 1 && PlainBodies(clauses)
            && ArityFits(clauses, args)
    ensures var code := Flatten(Codes(placed));
            RunFrom(code, args, Entered(code), depth, true, clause) ==
            TryRuns(RunsReached(spans, placed, settings, args, 0), depth, clause)
  {
    hide Reach, RunFrom, TryAll, RunIndexed, GoodSpans, ArityFits, Flatten, RunCode, PlainBodies;
    var code := Flatten(Codes(placed));
    assert RunPlaced(clauses, spans, placed, settings, 0);
    PieceAt(clauses, spans, placed, settings, 0);
    SpanTries(clauses, spans, placed, settings, args, 0, depth, EnteredFirst(settings), clause);
    OneEntry(clauses, spans, placed, settings, args, depth, clause);
    assert RunsReached(spans, placed, settings, args, 1) == [];
  }

  /** A stub leads on to the next instruction if it is dynamic, and is passed over by the call if not. */
  lemma {:induction false} StubRuns(code: seq<Instr>, args: seq<Arg>, settings: Settings, depth: nat, clause: ClauseRun)
    requires code != [] && code[0] == settings.OuterTryMeElse(0)
    ensures RunFrom(code, args, Entered(code), depth, true, clause) ==
            RunFrom(code, args, 1, depth, !code[0].DynamicElse?, clause)
  {
    if code[0].DynamicElse? {
      assert RunFrom(code, args, 0, depth, true, clause) == RunDynamic(code, args, 0, Next(0), depth, true, clause);
    }
  }

  /** The only run is entered first unless a dynamic stub stands in front of it. */
  predicate EnteredFirst(settings: Settings)
  {
    !(settings.extensible && settings.Dynamic())
  }

  /** Past the stub, or through a dynamic one, the only run is entered. */
  lemma {:induction false} OneEntry(clauses: seq<Clause>, spans: seq<ClauseSpan>, placed: seq<Placed>,
                                    settings: Settings, args: seq<Arg>, depth: nat, clause: ClauseRun)
    requires Compiled(clauses, spans, placed, settings) && |spans| == 1 && PlainBodies(clauses)
    ensures var code, b := Flatten(Codes(placed)), RunBase(spans, placed, settings, 0);
            RunFrom(code, args, Entered(code), depth, true, clause) ==
            RunFrom(code, args, b, depth, EnteredFirst(settings), clause)
  {
    hide RunIndexed, Tiles, Uniform, RunFrom, RunCode, PlainBodies;
    assert RunPlaced(clauses, spans, placed, settings, 0);
    PieceAt(clauses, spans, placed, settings, 0);
    var code, run := Flatten(Codes(placed)), Run(clauses, spans[0]);
    var piece := RunCode(run, placed[0].lines, settings);
    assert PieceStart(placed, 0) == 0;
    if settings.extensible {
      Within(code, OuterChoice(clauses, spans, 0, |piece|, settings), 0, 0, 1);
      StubRuns(code, args, settings, depth, clause);
    } else {
      PlainRun(clauses, spans[0]);
      FirstNoStub(run, placed[0].lines, settings);
      Within(code, piece, 0, 0, 1);
    }
  }

  lemma {:induction false} PlainRun(clauses: seq<Clause>, span: ClauseSpan)
    requires PlainBodies(clauses) && span.left < span.right <= |clauses|
    ensures PlainBodies(Run(clauses, span)) && Run(clauses, span) != []
  {
  }

  lemma {:induction false} FirstNoStub(run: seq<Clause>, lines: seq<Line>, settings: Settings)
    requires run != [] && PlainBodies(run) && !settings.extensible
    ensures RunCode(run, lines, settings) != [] && RunCode(run, lines, settings)[0] != TryMeElse(0)
  {
    if |run| > 1 && lines == [] {
      ChainedAt(run, 0, |run|, settings);
    }
  }

  // ----- answers -----

  /** The clauses give certain answers, whatever choice points lie under them, and either leave those or cut back to
      where the predicate was called. */
  ghost predicate Clausal(clause: ClauseRun, base: nat, answers: nat -> seq<M.State>, cuts: nat -> bool)
  {
    forall p: nat, d: nat :: d >= base ==> clause(p, d) == M.Outcome(answers(p), if cuts(p) then base else d)
  }

  /** The answers of clauses in order, up to the first one that cuts. */
  function Answers(ps: seq<nat>, answers: nat -> seq<M.State>, cuts: nat -> bool): seq<M.State>
  {
    if ps == [] then []
    else answers(ps[0]) + if cuts(ps[0]) then [] else Answers(ps[1..], answers, cuts)
  }

  predicate SomeCut(ps: seq<nat>, cuts: nat -> bool)
  {
    ps != [] && (cuts(ps[0]) || SomeCut(ps[1..], cuts))
  }

  lemma {:induction false} AnswersSum(a: seq<nat>, b: seq<nat>, answers: nat -> seq<M.State>, cuts: nat -> bool)
    ensures Answers(a + b, answers, cuts) ==
            Answers(a, answers, cuts) + if SomeCut(a, cuts) then [] else Answers(b, answers, cuts)
    ensures SomeCut(a + b, cuts) <==> SomeCut(a, cuts) || SomeCut(b, cuts)
  {
    if a == [] {
      assert a + b == b;
    } else {
      assert (a + b)[1..] == a[1..] + b;
      AnswersSum(a[1..], b, answers, cuts);
    }
  }

  lemma {:induction false} TryAllAnswers(ps: seq<nat>, depth: nat, clause: ClauseRun, base: nat,
                                         answers: nat -> seq<M.State>, cuts: nat -> bool)
    requires Clausal(clause, base, answers, cuts) && depth >= base
    ensures TryAll(ps, depth, clause) == M.Outcome(Answers(ps, answers, cuts),
                                                       if SomeCut(ps, cuts) then base else depth)
  {
    if ps != [] {
      TryAllAnswers(ps[1..], depth, clause, base, answers, cuts);
      if |ps| == 1 {
        assert ps[1..] == [];
        assert answers(ps[0]) + [] == answers(ps[0]);
      }
    }
  }

  function Concatenated(runs: seq<seq<nat>>): seq<nat>
  {
    if runs == [] then [] else runs[0] + Concatenated(runs[1..])
  }

  lemma {:induction false} TryRunsAnswers(runs: seq<seq<nat>>, depth: nat, clause: ClauseRun, base: nat,
                                          answers: nat -> seq<M.State>, cuts: nat -> bool)
    requires Clausal(clause, base, answers, cuts) && depth >= base
    ensures TryRuns(runs, depth, clause) ==
            M.Outcome(Answers(Concatenated(runs), answers, cuts),
                      if SomeCut(Concatenated(runs), cuts) then base else depth)
  {
    hide TryAll, Clausal;
    if runs != [] {
      TryRunsAnswers(runs[1..], depth, clause, base, answers, cuts);
      TryAllAnswers(runs[0], depth, clause, base, answers, cuts);
      TryAllAnswers(runs[0], depth + 1, clause, base, answers, cuts);
      AnswersSum(runs[0], Concatenated(runs[1..]), answers, cuts);
      if |runs| == 1 {
        assert runs[1..] == [] && runs[0] + [] == runs[0];
      }
    }
  }

  /** What a call reaches is what it reaches of each run. */
  lemma {:induction false} ReachIsRuns(clauses: seq<Clause>, spans: seq<ClauseSpan>, placed: seq<Placed>,
                                       settings: Settings, args: seq<Arg>, k: nat)
    requires Compiled(clauses, spans, placed, settings) && k <= |spans|
    ensures k < |spans| ==>
              Reach(Flatten(Codes(placed)), args, PieceStart(placed, k))
                  == Concatenated(RunsReached(spans, placed, settings, args, k))
    decreases |spans| - k
  {
    hide Reach, RunCode, Flatten, RunIndexed, Uniform, PieceStart, RunBase;
    if k < |spans| {
      assert RunPlaced(clauses, spans, placed, settings, k);
      OuterStep(clauses, spans, placed, settings, args, k);
      ReachIsRuns(clauses, spans, placed, settings, args, k + 1);
      var runs := RunsReached(spans, placed, settings, args, k);
      assert runs[1..] == RunsReached(spans, placed, settings, args, k + 1);
    }
  }

  /** For every compiled predicate and every call: the answers are those of the clauses that the call reaches, in
      order, up to the first clause that cuts; and in the end the choice points are those under which it was called. */
  lemma {:induction false} CallAnswers(clauses: seq<Clause>, spans: seq<ClauseSpan>, placed: seq<Placed>,
                                       settings: Settings, args: seq<Arg>, depth: nat, clause: ClauseRun,
                                       answers: nat -> seq<M.State>, cuts: nat -> bool)
    requires Compiled(clauses, spans, placed, settings) && PlainBodies(clauses) && ArityFits(clauses, args)
    requires Clausal(clause, depth, answers, cuts)
    ensures var code := Flatten(Codes(placed));
            RunFrom(code, args, Entered(code), depth, true, clause) ==
            M.Outcome(Answers(Reach(code, args, 0), answers, cuts), depth)
  {
    hide RunFrom, Reach, TryRuns, Compiled, ArityFits, PlainBodies, Clausal, Answers;
    CallTries(clauses, spans, placed, settings, args, depth, clause);
    TryRunsAnswers(RunsReached(spans, placed, settings, args, 0), depth, clause, depth, answers, cuts);
    CompiledRange(clauses, spans, placed, settings);
    ReachIsRuns(clauses, spans, placed, settings, args, 0);
    if spans == [] {
      assert placed == [] && Codes(placed) == [];
      EndOfCode([], args, 0);
    } else {
      assert PieceStart(placed, 0) == 0;
    }
  }

  // ----- what the choice instructions say besides -----

  /** In front of a clause of a run: an internal instruction with the clock of the compilation for a dynamic predicate;
      otherwise the last one counts backtracking as an inference exactly if the predicate does, and the ones before it
      always do. */
  predicate InnerKind(instr: Instr, settings: Settings)
  {
    match instr
    case DynamicInternalElse(birth, _) => settings.clock == Some(birth)
    case TryMeElse(_) => settings.clock.None?
    case RetryMeElse(_) => settings.clock.None?
    case TrustMe => settings.clock.None? && !settings.nonCountedBt
    case DefaultTrustMe => settings.clock.None? && settings.nonCountedBt
    case _ => false
  }

  /** In front of a run: backtracking is counted exactly if the predicate counts it. */
  predicate OuterKind(instr: Instr, settings: Settings)
  {
    match instr
    case DynamicElse(birth, _) => settings.clock == Some(birth)
    case TryMeElse(_) => settings.clock.None?
    case RetryMeElse(_) => settings.clock.None? && !settings.nonCountedBt
    case DefaultRetryMeElse(_) => settings.clock.None? && settings.nonCountedBt
    case TrustMe => settings.clock.None? && !settings.nonCountedBt
    case DefaultTrustMe => settings.clock.None? && settings.nonCountedBt
    case _ => false
  }

  /** The instruction in front of every run. */
  lemma {:induction false} RunChoiceKinds(clauses: seq<Clause>, spans: seq<ClauseSpan>, placed: seq<Placed>,
                                          settings: Settings, k: nat)
    requires Compiled(clauses, spans, placed, settings) && k < |spans| && (|spans| > 1 || settings.extensible)
    ensures var code, p := Flatten(Codes(placed)), PieceStart(placed, k);
            p < |code| && OuterKind(code[p], settings)
  {
    hide RunIndexed, Tiles, Uniform, RunCode, Flatten;
    assert RunPlaced(clauses, spans, placed, settings, k);
    PieceAt(clauses, spans, placed, settings, k);
    var code, size := Flatten(Codes(placed)), |RunCode(Run(clauses, spans[k]), placed[k].lines, settings)|;
    Within(code, OuterChoice(clauses, spans, k, size, settings), PieceStart(placed, k), 0, 1);
  }

  /** The instruction in front of every clause of a run. */
  lemma {:induction false} ClauseChoiceKinds(clauses: seq<Clause>, spans: seq<ClauseSpan>, placed: seq<Placed>,
                                             settings: Settings, k: nat, i: nat)
    requires Compiled(clauses, spans, placed, settings) && PlainBodies(clauses) && k < |spans|
    requires spans[k].left + i < spans[k].right <= |clauses|
    requires |Run(clauses, spans[k])| > 1 || (placed[k].lines != [] && settings.extensible)
    ensures var code := Flatten(Codes(placed));
            var p := RunBase(spans, placed, settings, k) + (if placed[k].lines == [] then 0 else 1)
                     + Room(Run(clauses, spans[k]), i);
            p < |code| && InnerKind(code[p], settings)
  {
    hide RunIndexed, Tiles, Uniform, RunCode, Flatten, PlainBodies, RunBase;
    assert RunPlaced(clauses, spans, placed, settings, k);
    PieceAt(clauses, spans, placed, settings, k);
    PlainRun(clauses, spans[k]);
    var code, run, lines := Flatten(Codes(placed)), Run(clauses, spans[k]), placed[k].lines;
    var b := RunBase(spans, placed, settings, k);
    ChainBehind(code, run, lines, settings, b);
    ChainInstr(code, run, settings, b + (if lines == [] then 0 else 1), i);
  }

  lemma {:induction false} ChainBehind(code: seq<Instr>, run: seq<Clause>, lines: seq<Line>, settings: Settings, b: nat)
    requires run != [] && StandsAt(code, RunCode(run, lines, settings), b)
    requires |run| > 1 || (lines != [] && settings.extensible)
    ensures StandsAt(code, Chained(run, |run|, settings), b + if lines == [] then 0 else 1)
  {
    hide Chained, StandsAt;
    var chain := Chained(run, |run|, settings);
    if lines == [] {
      assert [] + chain == chain;
    } else {
      Joined(code, [IndexingCode(lines)], chain, b);
    }
  }
}
