/**
 Running a call with the machine's look-ahead: choice points are put up only while a later clause might apply, and
 clauses that cannot apply are passed over. The answers and the choice points left are those of running every clause.
 */
module PredicateLookahead {
  import opened IndexingLines
  import opened IndexingLemmas
  import opened IndexingDispatch
  import opened PredicateCode
  import opened PredicateReach
  import opened PredicateRun
  import opened PredicateAnswers
  import opened Slices
  import opened Options
  import M = BodyMeaning

  /** A call of a predicate: its code, the arguments, what clauses do, and whether the head of the clause at a position
      might match. */
  datatype Machine = Machine(code: seq<Instr>, args: seq<Arg>, clause: ClauseRun, may: nat -> bool)

  // ----- the look-ahead -----

  /** next_clause_applicable: a clause whose head might match, or an indexing block that leads somewhere. */
  predicate Applicable(m: Machine, q: nat)
  {
    q < |m.code| &&
    match m.code[q]
    case Body(_) => m.may(q)
    case IndexingCode(lines) =>
      && Rooted(lines) && 1 <= lines[0].arg <= |m.args|
      && var arg := m.args[lines[0].arg - 1];
         if arg.Unbound? then !lines[0].v.Fail?
         else LeafReached(lines, arg).Some? && !Ptr(lines, LeafReached(lines, arg).value).Fail?
    case _ => true
  }

  /** The way to the alternative after the one at `q`, for those that can be passed over. */
  function PassOver(code: seq<Instr>, q: nat): nat
  {
    if q >= |code| then 0
    else match code[q]
      case RetryMeElse(o) => o
      case DefaultRetryMeElse(o) => o
      case DynamicElse(_, next) => if next.Next? then next.o else 0
      case DynamicInternalElse(_, next) => if next.Next? then next.o else 0
      case _ => 0
  }

  /** next_applicable_clause, from `p` on. */
  function NextApplicable(m: Machine, p: nat, o: nat): (r: Option<nat>)
    ensures r.Some? ==> r.value >= o
    decreases |m.code| - (p + o)
  {
    if Applicable(m, p + o + 1) then Some(o)
    else if PassOver(m.code, p + o) == 0 then None
    else NextApplicable(m, p, o + PassOver(m.code, p + o))
  }

  /** next_inner_applicable_clause: the first choice from `i` on whose clause might match. */
  function NextChoice(m: Machine, os: seq<nat>, i: nat, p: nat): (r: Option<nat>)
    ensures r.Some? ==> i <= r.value < |os|
    decreases |os| - i
  {
    if i >= |os| then None else if m.may(p + os[i]) then Some(i) else NextChoice(m, os, i + 1, p)
  }

  // ----- choice lists -----

  function LookChoices(m: Machine, cs: seq<Choice>, i: nat, p: nat, depth: nat): M.Outcome
    decreases |cs| - i
  {
    if i >= |cs| then Failing(depth)
    else match cs[i]
      case Try(o) => LookTryList(m, cs, i, p, depth)
      case Retry(o) => LookRetryList(m, cs, i, p, depth)
      case DefaultRetry(o) => LookRetryList(m, cs, i, p, depth)
      case Trust(o) => m.clause(p + o, M.Prev(depth))
      case DefaultTrust(o) => m.clause(p + o, M.Prev(depth))
  }

  function LookTryList(m: Machine, cs: seq<Choice>, i: nat, p: nat, depth: nat): M.Outcome
    requires i < |cs|
    decreases |cs| - i, 0
  {
    var next := NextChoice(m, ChoiceOffsets(cs), i + 1, p);
    if next.None? then m.clause(p + cs[i].o, depth)
    else M.OrElse(m.clause(p + cs[i].o, depth + 1), depth, LookChoices(m, cs, next.value, p, depth + 1))
  }

  function LookRetryList(m: Machine, cs: seq<Choice>, i: nat, p: nat, depth: nat): M.Outcome
    requires i < |cs|
    decreases |cs| - i, 0
  {
    var next := NextChoice(m, ChoiceOffsets(cs), i + 1, p);
    if next.None? then m.clause(p + cs[i].o, M.Prev(depth))
    else M.OrElse(m.clause(p + cs[i].o, depth), M.Prev(depth), LookChoices(m, cs, next.value, p, depth))
  }

  function LookOffsets(m: Machine, os: seq<nat>, i: nat, p: nat, depth: nat): M.Outcome
    decreases |os| - i
  {
    if i >= |os| then Failing(depth)
    else
      var below := if i == 0 then depth else M.Prev(depth);
      var next := NextChoice(m, os, i + 1, p);
      if next.None? then m.clause(p + os[i], below)
      else
        var with := if i == 0 then depth + 1 else depth;
        M.OrElse(m.clause(p + os[i], with), below, LookOffsets(m, os, next.value, p, with))
  }

  function LookLine(m: Machine, line: Line, p: nat, depth: nat): M.Outcome
  {
    match line
    case IndexedChoice(cs) => LookChoices(m, cs, 0, p, depth)
    case DynamicIndexedChoice(os) => LookOffsets(m, os, 0, p, depth)
    case _ => Failing(depth)
  }

  function LookBlock(m: Machine, lines: seq<Line>, arg: Arg, p: nat, depth: nat): M.Outcome
    requires Rooted(lines)
  {
    var leaf := LeafReached(lines, arg);
    if leaf.None? then Failing(depth)
    else match Ptr(lines, leaf.value)
      case Fail => Failing(depth)
      case External(o) => m.clause(p + o, depth)
      case DynamicExternal(o) => m.clause(p + o, depth)
      case Internal(o) =>
        var at := Base(lines, leaf.value) + o;
        if at < |lines| then LookLine(m, lines[at], p, depth) else Failing(depth)
  }

  // ----- a predicate -----

  function LookFrom(m: Machine, p: nat, depth: nat, first: bool): M.Outcome
    decreases |m.code| - p
  {
    if p >= |m.code| then Failing(depth)
    else match m.code[p]
      case Body(_) => m.clause(p, depth)
      case IndexingCode(lines) =>
        if !Rooted(lines) || !(1 <= lines[0].arg <= |m.args|) then Failing(depth)
        else
          var arg := m.args[lines[0].arg - 1];
          if !arg.Unbound? then LookBlock(m, lines, arg, p, depth)
          else if lines[0].v.Fail? || lines[0].v.o == 0 then Failing(depth)
          else LookFrom(m, p + lines[0].v.o, depth, true)
      case TryMeElse(o) => LookTry(m, p, o, depth)
      case RetryMeElse(o) => LookRetry(m, p, o, depth)
      case DefaultRetryMeElse(o) => LookRetry(m, p, o, depth)
      case TrustMe => LookFrom(m, p + 1, M.Prev(depth), false)
      case DefaultTrustMe => LookFrom(m, p + 1, M.Prev(depth), false)
      case DynamicElse(_, next) => LookDynamic(m, p, next, depth, first)
      case DynamicInternalElse(_, next) => LookDynamic(m, p, next, depth, first)
  }

  /** try_me_else: a choice point is put up only if a later clause might apply, and leads there. */
  function LookTry(m: Machine, p: nat, o: nat, depth: nat): M.Outcome
    requires p < |m.code|
    decreases |m.code| - p, 0
  {
    if o == 0 then Failing(depth)
    else
      var next := NextApplicable(m, p, o);
      if next.None? then LookFrom(m, p + 1, depth, false)
      else M.OrElse(LookFrom(m, p + 1, depth + 1, false), depth, LookFrom(m, p + next.value, depth + 1, false))
  }

  /** retry_me_else: the choice point is taken off if no later clause might apply, and else leads there. */
  function LookRetry(m: Machine, p: nat, o: nat, depth: nat): M.Outcome
    requires p < |m.code|
    decreases |m.code| - p, 0
  {
    if o == 0 then Failing(depth)
    else
      var next := NextApplicable(m, p, o);
      if next.None? then LookFrom(m, p + 1, M.Prev(depth), false)
      else M.OrElse(LookFrom(m, p + 1, depth, false), M.Prev(depth), LookFrom(m, p + next.value, depth, false))
  }

  function LookDynamic(m: Machine, p: nat, next: NextOrFail, depth: nat, first: bool): M.Outcome
    requires p < |m.code|
    decreases |m.code| - p, 1
  {
    if next.Next? && next.o > 0 then
      if first then LookTry(m, p, next.o, depth) else LookRetry(m, p, next.o, depth)
    else LookFrom(m, p + 1, if first then depth else M.Prev(depth), false)
  }

  // ----- what it should give -----

  /** What clauses give and whether they cut, and the choice points under which the predicate was called. */
  datatype Meaning = Meaning(base: nat, answers: nat -> seq<M.State>, cuts: nat -> bool)

  /** Clauses do what they mean, and one whose head cannot match has no answers. */
  ghost predicate Behaves(m: Machine, w: Meaning)
  {
    && Clausal(m.clause, w.base, w.answers, w.cuts)
    && forall q: nat :: !m.may(q) ==> w.answers(q) == [] && !w.cuts(q)
  }

  /** The answers of clauses in order, up to the first one that cuts. */
  function Result(ps: seq<nat>, depth: nat, w: Meaning): M.Outcome
  {
    M.Outcome(Answers(ps, w.answers, w.cuts), if SomeCut(ps, w.cuts) then w.base else depth)
  }

  /** No answers and no cut. */
  predicate Nothing(ps: seq<nat>, w: Meaning)
  {
    Answers(ps, w.answers, w.cuts) == [] && !SomeCut(ps, w.cuts)
  }

  lemma {:induction false} NothingFirst(a: seq<nat>, b: seq<nat>, depth: nat, w: Meaning)
    requires Nothing(a, w)
    ensures Result(a + b, depth, w) == Result(b, depth, w)
  {
    AnswersSum(a, b, w.answers, w.cuts);
    assert [] + Answers(b, w.answers, w.cuts) == Answers(b, w.answers, w.cuts);
  }

  lemma {:induction false} NothingLast(a: seq<nat>, b: seq<nat>, depth: nat, w: Meaning)
    requires Nothing(b, w)
    ensures Result(a + b, depth, w) == Result(a, depth, w)
  {
    AnswersSum(a, b, w.answers, w.cuts);
    assert Answers(a, w.answers, w.cuts) + [] == Answers(a, w.answers, w.cuts);
  }

  /** A first alternative under a choice point of its own, and the others. */
  lemma {:induction false} ResultSum(a: seq<nat>, b: seq<nat>, depth: nat, w: Meaning)
    requires depth >= w.base
    ensures Result(a + b, depth, w) == M.OrElse(Result(a, depth + 1, w), depth, Result(b, depth, w))
  {
    AnswersSum(a, b, w.answers, w.cuts);
    assert Answers(a, w.answers, w.cuts) + [] == Answers(a, w.answers, w.cuts);
  }

  lemma {:induction false} OneResult(m: Machine, q: nat, depth: nat, w: Meaning)
    requires Behaves(m, w) && depth >= w.base
    ensures m.clause(q, depth) == Result([q], depth, w)
    ensures !m.may(q) ==> Nothing([q], w)
  {
    assert [q][1..] == [];
    assert Answers([q], w.answers, w.cuts) == w.answers(q) + [];
    assert SomeCut([q], w.cuts) == w.cuts(q);
    assert m.clause(q, depth) == M.Outcome(w.answers(q), if w.cuts(q) then w.base else depth);
  }

  // ----- choice lists -----

  /** Between a choice and the next one that might apply there is nothing. */
  lemma {:induction false} ListSkips(m: Machine, os: seq<nat>, i: nat, p: nat, depth: nat, w: Meaning)
    requires i <= |os| && Behaves(m, w) && depth >= w.base
    ensures var next := NextChoice(m, os, i, p);
            if next.None? then Nothing(At(p, os[i..]), w)
            else Result(At(p, os[i..]), depth, w) == Result(At(p, os[next.value..]), depth, w)
    decreases |os| - i
  {
    hide Behaves;
    if i < |os| {
      var q := p + os[i];
      assert At(p, os[i..]) == [q] + At(p, os[i + 1..]);
      OneResult(m, q, depth, w);
      if !m.may(q) {
        ListSkips(m, os, i + 1, p, depth, w);
        NothingFirst([q], At(p, os[i + 1..]), depth, w);
        AnswersSum([q], At(p, os[i + 1..]), w.answers, w.cuts);
      }
    }
  }

  /** One choice: alone if nothing that might apply follows, or under a choice point of its own. */
  lemma {:induction false} ListStep(m: Machine, os: seq<nat>, i: nat, p: nat, depth: nat, w: Meaning)
    requires i < |os| && Behaves(m, w) && depth >= w.base
    ensures var next := NextChoice(m, os, i + 1, p);
            Result(At(p, os[i..]), depth, w) ==
            if next.None? then m.clause(p + os[i], depth)
            else M.OrElse(m.clause(p + os[i], depth + 1), depth, Result(At(p, os[next.value..]), depth, w))
  {
    hide Behaves, NextChoice;
    var q, rest := p + os[i], At(p, os[i + 1..]);
    assert At(p, os[i..]) == [q] + rest;
    OneResult(m, q, depth, w);
    OneResult(m, q, depth + 1, w);
    ListSkips(m, os, i + 1, p, depth, w);
    if NextChoice(m, os, i + 1, p).None? {
      NothingLast([q], rest, depth, w);
    } else {
      ResultSum([q], rest, depth, w);
    }
  }

  lemma {:induction false} ChoicesLook(m: Machine, cs: seq<Choice>, i: nat, p: nat, depth: nat, w: Meaning)
    requires ChoiceShape(cs) && i < |cs| && Behaves(m, w) && depth >= w.base
    ensures LookChoices(m, cs, i, p, Under(i, depth)) == Result(At(p, ChoiceOffsets(cs)[i..]), depth, w)
    decreases |cs| - i
  {
    hide Behaves, NextChoice, Result, M.OrElse;
    var os := ChoiceOffsets(cs);
    ListStep(m, os, i, p, depth, w);
    var next := NextChoice(m, os, i + 1, p);
    if next.Some? {
      ChoicesLook(m, cs, next.value, p, depth, w);
    }
    if i + 1 == |cs| {
      NoNext(m, os, i + 1, p);
    }
  }

  lemma {:induction false} NoNext(m: Machine, os: seq<nat>, i: nat, p: nat)
    requires i >= |os|
    ensures NextChoice(m, os, i, p).None?
  {
  }

  lemma {:induction false} OffsetsLook(m: Machine, os: seq<nat>, i: nat, p: nat, depth: nat, w: Meaning)
    requires i < |os| && Behaves(m, w) && depth >= w.base
    ensures LookOffsets(m, os, i, p, Under(i, depth)) == Result(At(p, os[i..]), depth, w)
    decreases |os| - i
  {
    hide Behaves, NextChoice, Result, M.OrElse;
    ListStep(m, os, i, p, depth, w);
    var next := NextChoice(m, os, i + 1, p);
    if next.Some? {
      OffsetsLook(m, os, next.value, p, depth, w);
    }
  }

  lemma {:induction false} LineLooks(m: Machine, line: Line, p: nat, depth: nat, w: Meaning, dynamic: bool)
    requires GoodChoiceLine(line, dynamic) && Behaves(m, w) && depth >= w.base
    ensures LookLine(m, line, p, depth) == Result(At(p, LineOffsets(line)), depth, w)
  {
    hide Behaves, LookChoices, LookOffsets, Result;
    if dynamic {
      OffsetsLook(m, line.offsets, 0, p, depth, w);
      assert line.offsets[0..] == line.offsets;
    } else {
      ChoicesLook(m, line.choices, 0, p, depth, w);
      assert ChoiceOffsets(line.choices)[0..] == ChoiceOffsets(line.choices);
    }
  }

  lemma {:induction false} BlockLooks(m: Machine, lines: seq<Line>, arg: Arg, p: nat, depth: nat, w: Meaning,
                                      dynamic: bool)
    requires WellFormed(lines, dynamic) && !arg.Unbound? && Behaves(m, w) && depth >= w.base
    ensures Rooted(lines) && LookBlock(m, lines, arg, p, depth) == Result(At(p, Reached(lines, arg)), depth, w)
  {
    hide Behaves, LookLine, Result, WellFormed, LineOffsets, GoodChoiceLine;
    LeafFine(lines, ListLeaf, dynamic);
    var leaf := LeafReached(lines, arg);
    NoResult(p, depth, w);
    if leaf.Some? {
      LeafFine(lines, leaf.value, dynamic);
      var ptr := Ptr(lines, leaf.value);
      if ptr.Internal? {
        LineLooks(m, lines[Base(lines, leaf.value) + ptr.o], p, depth, w, dynamic);
      } else if !ptr.Fail? {
        OneResult(m, p + ptr.o, depth, w);
        assert At(p, [ptr.o]) == [p + ptr.o];
      }
    }
  }

  lemma {:induction false} NoResult(p: nat, depth: nat, w: Meaning)
    ensures At(p, []) == [] && Result([], depth, w) == Failing(depth)
  {
  }

  // ----- chains -----

  /** Choice instruction `k` of a chain leads to the next one; the last one ends it. */
  predicate Link(m: Machine, heads: seq<nat>, k: nat)
    requires k < |heads|
  {
    && heads[k] < |m.code|
    && if k + 1 == |heads| then Ends(m.code[heads[k]])
       else heads[k] < heads[k + 1] && Leads(m.code[heads[k]], k, heads[k + 1] - heads[k])
  }

  /** What stands behind choice instruction `k` gives these clauses, however it is entered; it is not applicable only
      if they have no answers. */
  ghost predicate Gives(m: Machine, p: nat, group: seq<nat>, w: Meaning)
  {
    && (forall d: nat, first :: d >= w.base ==> LookFrom(m, p, d, first) == Result(group, d, w))
    && (!Applicable(m, p) ==> Nothing(group, w))
  }

  ghost predicate Chain(m: Machine, heads: seq<nat>, groups: seq<seq<nat>>, w: Meaning)
  {
    && |heads| == |groups| && |heads| >= 2
    && forall k :: 0 <= k < |heads| ==> Link(m, heads, k) && Gives(m, heads[k] + 1, groups[k], w)
  }

  lemma {:induction false} LookLeads(m: Machine, p: nat, i: nat, o: nat, depth: nat)
    requires p < |m.code| && o > 0 && Leads(m.code[p], i, o)
    ensures LookFrom(m, p, Under(i, depth), i == 0) ==
            var next := NextApplicable(m, p, o);
            if next.None? then LookFrom(m, p + 1, depth, false)
            else M.OrElse(LookFrom(m, p + 1, depth + 1, false), depth, LookFrom(m, p + next.value, depth + 1, false))
  {
    hide NextApplicable;
    var instr := m.code[p];
    if instr.DynamicElse? || instr.DynamicInternalElse? {
      assert LookFrom(m, p, Under(i, depth), i == 0) == LookDynamic(m, p, instr.next, Under(i, depth), i == 0);
    }
    if i == 0 {
      assert LookFrom(m, p, Under(i, depth), i == 0) == LookTry(m, p, o, depth);
    } else {
      assert LookFrom(m, p, Under(i, depth), i == 0) == LookRetry(m, p, o, depth + 1);
    }
  }

  lemma {:induction false} LookEnds(m: Machine, p: nat, depth: nat)
    requires p < |m.code| && Ends(m.code[p])
    ensures LookFrom(m, p, depth + 1, false) == LookFrom(m, p + 1, depth, false)
  {
    var instr := m.code[p];
    if instr.DynamicElse? || instr.DynamicInternalElse? {
      assert LookFrom(m, p, depth + 1, false) == LookDynamic(m, p, instr.next, depth + 1, false);
    }
  }

  lemma {:induction false} PassesOver(m: Machine, heads: seq<nat>, k: nat)
    requires 0 < k < |heads| && Link(m, heads, k)
    ensures PassOver(m.code, heads[k]) == if k + 1 == |heads| then 0 else heads[k + 1] - heads[k]
  {
  }

  /** The first choice instruction from `k` on with something applicable behind it. */
  function NextHead(m: Machine, heads: seq<nat>, k: nat): (r: Option<nat>)
    ensures r.Some? ==> k <= r.value < |heads|
    decreases |heads| - k
  {
    if k >= |heads| then None else if Applicable(m, heads[k] + 1) then Some(k) else NextHead(m, heads, k + 1)
  }

  lemma {:induction false} HeadStep(m: Machine, heads: seq<nat>, k: nat)
    requires k < |heads|
    ensures NextHead(m, heads, k) == if Applicable(m, heads[k] + 1) then Some(k) else NextHead(m, heads, k + 1)
    ensures k + 1 == |heads| ==> NextHead(m, heads, k + 1).None?
  {
  }

  lemma {:induction false} ApplicableStep(m: Machine, p: nat, o: nat)
    ensures NextApplicable(m, p, o) ==
            if Applicable(m, p + o + 1) then Some(o)
            else if PassOver(m.code, p + o) == 0 then None
            else NextApplicable(m, p, o + PassOver(m.code, p + o))
  {
  }

  lemma {:induction false} ChainLink(m: Machine, heads: seq<nat>, groups: seq<seq<nat>>, w: Meaning, k: nat)
    requires Chain(m, heads, groups, w) && 0 < k < |heads|
    ensures PassOver(m.code, heads[k]) == if k + 1 == |heads| then 0 else heads[k + 1] - heads[k]
    ensures k + 1 < |heads| ==> heads[k] < heads[k + 1]
  {
    hide Gives, PassOver, Leads, Ends;
    assert Link(m, heads, k);
    PassesOver(m, heads, k);
  }

  /** The look-ahead along the code finds it. */
  lemma {:induction false} ChainNext(m: Machine, heads: seq<nat>, groups: seq<seq<nat>>, w: Meaning, p: nat, k: nat)
    requires Chain(m, heads, groups, w) && 0 < k < |heads| && p <= heads[k]
    ensures NextApplicable(m, p, heads[k] - p) ==
            if NextHead(m, heads, k).None? then None else Some(heads[NextHead(m, heads, k).value] - p)
    ensures NextHead(m, heads, k).Some? ==> p <= heads[NextHead(m, heads, k).value]
    decreases |heads| - k
  {
    hide Applicable, PassOver, Chain, NextHead, NextApplicable;
    ChainLink(m, heads, groups, w, k);
    HeadStep(m, heads, k);
    ApplicableStep(m, p, heads[k] - p);
    assert p + (heads[k] - p) == heads[k];
    if !Applicable(m, heads[k] + 1) && k + 1 < |heads| {
      assert heads[k] - p + (heads[k + 1] - heads[k]) == heads[k + 1] - p;
      ChainNext(m, heads, groups, w, p, k + 1);
    }
  }

  lemma {:induction false} ConcatStep(groups: seq<seq<nat>>, k: nat)
    requires k < |groups|
    ensures Concatenated(groups[k..]) == groups[k] + Concatenated(groups[k + 1..])
  {
    assert groups[k..][1..] == groups[k + 1..];
  }

  lemma {:induction false} ChainSkips(m: Machine, heads: seq<nat>, groups: seq<seq<nat>>, w: Meaning, k: nat,
                                      depth: nat)
    requires Chain(m, heads, groups, w) && k <= |heads|
    ensures var next := NextHead(m, heads, k);
            if next.None? then Nothing(Concatenated(groups[k..]), w)
            else Result(Concatenated(groups[k..]), depth, w) == Result(Concatenated(groups[next.value..]), depth, w)
    decreases |heads| - k
  {
    hide Applicable, LookFrom, Link;
    if k < |heads| {
      ConcatStep(groups, k);
      assert Gives(m, heads[k] + 1, groups[k], w);
      if !Applicable(m, heads[k] + 1) {
        ChainSkips(m, heads, groups, w, k + 1, depth);
        NothingFirst(groups[k], Concatenated(groups[k + 1..]), depth, w);
        AnswersSum(groups[k], Concatenated(groups[k + 1..]), w.answers, w.cuts);
      }
    }
  }

  lemma {:induction false} GroupLooks(m: Machine, heads: seq<nat>, groups: seq<seq<nat>>, w: Meaning, k: nat,
                                      depth: nat)
    requires Chain(m, heads, groups, w) && k < |heads| && depth >= w.base
    ensures LookFrom(m, heads[k] + 1, depth, false) == Result(groups[k], depth, w)
    ensures heads[k] < |m.code| && |heads| >= 2
    ensures if k + 1 == |heads| then Ends(m.code[heads[k]])
            else heads[k] < heads[k + 1] && Leads(m.code[heads[k]], k, heads[k + 1] - heads[k])
  {
    hide Applicable, LookFrom, Result;
    assert Link(m, heads, k) && Gives(m, heads[k] + 1, groups[k], w);
  }

  /** A chain gives the clauses of all its groups, in order. */
  lemma {:induction false} ChainLooks(m: Machine, heads: seq<nat>, groups: seq<seq<nat>>, w: Meaning, k: nat,
                                      depth: nat)
    requires Chain(m, heads, groups, w) && k < |heads| == |groups| && depth >= w.base
    ensures LookFrom(m, heads[k], Under(k, depth), k == 0) == Result(Concatenated(groups[k..]), depth, w)
    decreases |heads| - k
  {
    hide Chain, LookFrom, Result, Nothing, M.OrElse, Leads, Ends, NextHead, NextApplicable, Concatenated;
    GroupLooks(m, heads, groups, w, k, depth);
    ConcatStep(groups, k);
    var rest := Concatenated(groups[k + 1..]);
    if k + 1 == |heads| {
      LookEnds(m, heads[k], depth);
      NoGroups(groups, k + 1);
    } else {
      GroupLooks(m, heads, groups, w, k, depth + 1);
      LookLeads(m, heads[k], k, heads[k + 1] - heads[k], depth);
      ChainNext(m, heads, groups, w, heads[k], k + 1);
      ChainSkips(m, heads, groups, w, k + 1, depth);
      var next := NextHead(m, heads, k + 1);
      if next.None? {
        NothingLast(groups[k], rest, depth, w);
      } else {
        ChainLooks(m, heads, groups, w, next.value, depth);
        ResultSum(groups[k], rest, depth, w);
        assert heads[k] + (heads[next.value] - heads[k]) == heads[next.value];
      }
    }
  }

  lemma {:induction false} NoGroups(groups: seq<seq<nat>>, k: nat)
    requires k == |groups| && k > 0
    ensures groups[k - 1] + Concatenated(groups[k..]) == groups[k - 1]
  {
  }

  // ----- runs -----

  function RunHeads(run: seq<Clause>, b: nat): (r: seq<nat>)
    ensures |r| == |run| && forall i :: 0 <= i < |run| ==> r[i] == b + Room(run, i)
  {
    seq(|run|, i requires 0 <= i < |run| => b + Room(run, i))
  }

  function RunGroups(run: seq<Clause>, b: nat): (r: seq<seq<nat>>)
    ensures |r| == |run| && forall i :: 0 <= i < |run| ==> r[i] == [InChain(run, b, i)]
  {
    seq(|run|, i requires 0 <= i < |run| => [InChain(run, b, i)])
  }

  lemma {:induction false} GroupsAreBodies(run: seq<Clause>, b: nat, i: nat)
    requires i <= |run|
    ensures Concatenated(RunGroups(run, b)[i..]) == BodyList(run, b, i)
    decreases |run| - i
  {
    if i < |run| {
      ConcatStep(RunGroups(run, b), i);
      GroupsAreBodies(run, b, i + 1);
    }
  }

  /** A clause behind its choice instruction. */
  lemma {:induction false} BodyGives(m: Machine, q: nat, w: Meaning)
    requires q < |m.code| && m.code[q].Body? && Behaves(m, w)
    ensures Gives(m, q, [q], w)
  {
    hide Behaves, Clausal, Result, Nothing;
    forall d: nat, first | d >= w.base ensures LookFrom(m, q, d, first) == Result([q], d, w) {
      OneResult(m, q, d, w);
    }
    if !Applicable(m, q) {
      OneResult(m, q, w.base, w);
    }
  }

  lemma {:induction false} InnerLeads(run: seq<Clause>, settings: Settings, i: nat)
    requires i < |run| && |run| >= 2
    ensures var instr := InnerChoice(run, i, settings);
            if i + 1 == |run| then Ends(instr) else Leads(instr, i, |run[i].body| + 1)
  {
  }

  lemma {:induction false} RunIsChain(m: Machine, run: seq<Clause>, settings: Settings, b: nat, w: Meaning)
    requires PlainBodies(run) && |run| >= 2 && StandsAt(m.code, Chained(run, |run|, settings), b) && Behaves(m, w)
    ensures Chain(m, RunHeads(run, b), RunGroups(run, b), w)
  {
    hide Behaves, Gives, Leads, Ends, StandsAt, Chained, InnerChoice, PlainBodies, Room;
    var heads, groups := RunHeads(run, b), RunGroups(run, b);
    forall k | 0 <= k < |heads| ensures Link(m, heads, k) && Gives(m, heads[k] + 1, groups[k], w) {
      ChainInstr(m.code, run, settings, b, k);
      InnerLeads(run, settings, k);
      BodyGives(m, heads[k] + 1, w);
    }
  }

  lemma {:induction false} OneClauseLooks(m: Machine, run: seq<Clause>, settings: Settings, b: nat, depth: nat,
                                          w: Meaning)
    requires PlainBodies(run) && |run| == 1 && StandsAt(m.code, Chained(run, 1, settings), b)
    requires Behaves(m, w) && depth >= w.base
    ensures LookFrom(m, b + if settings.Dynamic() then 0 else 1, depth, true) == Result([b + 1], depth, w)
  {
    hide Chained, StandsAt, Behaves, Result;
    ChainInstr(m.code, run, settings, b, 0);
    OneResult(m, b + 1, depth, w);
    assert LookFrom(m, b + 1, depth, false) == LookFrom(m, b + 1, depth, true) == m.clause(b + 1, depth);
    if settings.Dynamic() {
      assert LookFrom(m, b, depth, true) == LookDynamic(m, b, Next(0), depth, true);
    }
  }

  lemma {:induction false} UnboundLooks(m: Machine, lines: seq<Line>, arg: nat, b: nat, depth: nat, first: bool)
    requires StandsAt(m.code, [IndexingCode(lines)], b)
    requires Rooted(lines) && lines[0].arg == arg + 1 && arg < |m.args| && m.args[arg].Unbound?
    requires !lines[0].v.Fail? && lines[0].v.o > 0
    ensures LookFrom(m, b, depth, first) == LookFrom(m, b + lines[0].v.o, depth, true) && Applicable(m, b)
  {
    Within(m.code, [IndexingCode(lines)], b, 0, 1);
  }

  lemma {:induction false} BoundLooks(m: Machine, lines: seq<Line>, arg: nat, b: nat, depth: nat, first: bool)
    requires StandsAt(m.code, [IndexingCode(lines)], b)
    requires Rooted(lines) && lines[0].arg == arg + 1 && arg < |m.args| && !m.args[arg].Unbound?
    ensures LookFrom(m, b, depth, first) == LookBlock(m, lines, m.args[arg], b, depth)
    ensures !Applicable(m, b) ==> Reached(lines, m.args[arg]) == []
  {
    Within(m.code, [IndexingCode(lines)], b, 0, 1);
  }

  lemma {:induction false} ChainBehindBlock(m: Machine, run: seq<Clause>, lines: seq<Line>, settings: Settings, b: nat,
                                            depth: nat, w: Meaning)
    requires PlainBodies(run) && run != [] && lines != [] && !Bare(run, lines, settings)
    requires StandsAt(m.code, RunCode(run, lines, settings), b) && Behaves(m, w) && depth >= w.base
    ensures LookFrom(m, b + if |run| == 1 && !settings.Dynamic() then 2 else 1, depth, true) ==
            Result(BodyList(run, b + 1, 0), depth, w)
  {
    hide Chained, StandsAt, Behaves, Result, LookFrom, PlainBodies;
    var chain := Chained(run, |run|, settings);
    assert RunCode(run, lines, settings) == [IndexingCode(lines)] + chain;
    Joined(m.code, [IndexingCode(lines)], chain, b);
    if |run| == 1 {
      OneClauseLooks(m, run, settings, b + 1, depth, w);
      assert BodyList(run, b + 1, 1) == [];
      assert BodyList(run, b + 1, 0) == [b + 2];
    } else {
      RunIsChain(m, run, settings, b + 1, w);
      ChainLooks(m, RunHeads(run, b + 1), RunGroups(run, b + 1), w, 0, depth);
      GroupsAreBodies(run, b + 1, 0);
    }
  }

  /** Entering a run gives what it reaches; it is passed over only if that has no answers. */
  lemma {:induction false} RunGives(m: Machine, run: seq<Clause>, lines: seq<Line>, arg: nat, settings: Settings,
                                    b: nat, w: Meaning)
    requires PlainBodies(run) && run != [] && StandsAt(m.code, RunCode(run, lines, settings), b) && Behaves(m, w)
    requires RunForm(run, arg, lines, settings) && RunLines(run, lines, arg, settings)
            && (lines != [] ==> arg < |m.args|)
    ensures Gives(m, b, Reach(m.code, m.args, b), w)
  {
    hide LookFrom, Reach, Represents, RunEntries, WellFormed, StandsAt, Behaves, Result, Applicable, PlainBodies;
    if Bare(run, lines, settings) {
      FirstOfBody(m.code, run, b);
      EnterBody(m.code, m.args, run, b);
      BodyGives(m, b, w);
    } else {
      BlockFirst(m.code, run, lines, settings, b);
      VarSlot(lines, settings.Dynamic());
      forall d: nat, first | d >= w.base
        ensures LookFrom(m, b, d, first) == Result(Reach(m.code, m.args, b), d, w)
      {
        if m.args[arg].Unbound? {
          UnboundReach(m.code, m.args, run, lines, arg, settings, b);
          UnboundLooks(m, lines, arg, b, d, first);
          ChainBehindBlock(m, run, lines, settings, b, d, w);
        } else {
          BoundReach(m.code, m.args, run, lines, arg, settings, b);
          BoundLooks(m, lines, arg, b, d, first);
          BlockLooks(m, lines, m.args[arg], b, d, w, settings.Dynamic());
        }
      }
      if m.args[arg].Unbound? {
        UnboundLooks(m, lines, arg, b, w.base, true);
      } else {
        BoundReach(m.code, m.args, run, lines, arg, settings, b);
        BoundLooks(m, lines, arg, b, w.base, true);
        NothingReached(b, w);
      }
    }
  }

  lemma {:induction false} NothingReached(b: nat, w: Meaning)
    ensures At(b, []) == [] && Nothing([], w)
  {
  }

  // ----- the whole predicate -----

  /** A call under the look-ahead of a compiled predicate. */
  ghost predicate Called(m: Machine, clauses: seq<Clause>, spans: seq<ClauseSpan>, placed: seq<Placed>,
                         settings: Settings, w: Meaning)
  {
    && Compiled(clauses, spans, placed, settings) && PlainBodies(clauses) && ArityFits(clauses, m.args)
    && m.code == Flatten(Codes(placed)) && Behaves(m, w)
  }

  lemma {:induction false} SpanGives(m: Machine, clauses: seq<Clause>, spans: seq<ClauseSpan>, placed: seq<Placed>,
                                     settings: Settings, w: Meaning, k: nat)
    requires Called(m, clauses, spans, placed, settings, w) && k < |spans|
    ensures |placed| == |spans|
    ensures var b := RunBase(spans, placed, settings, k); Gives(m, b, Reach(m.code, m.args, b), w)
  {
    hide Reach, Gives, GoodSpans, RunLines, RunPlaced, Flatten, Behaves;
    assert RunPlaced(clauses, spans, placed, settings, k);
    PieceAt(clauses, spans, placed, settings, k);
    RunForms(clauses, spans, placed, settings, k);
    assert RunIndexed(clauses, spans, placed, settings, k);
    var run := Run(clauses, spans[k]);
    assert placed[k].lines != [] ==> spans[k].arg < |m.args| by {
      if placed[k].lines != [] { assert run[0] == clauses[spans[k].left]; }
    }
    RunGives(m, run, placed[k].lines, spans[k].arg, settings, RunBase(spans, placed, settings, k), w);
  }

  function OuterHeads(placed: seq<Placed>): (r: seq<nat>)
    ensures |r| == |placed| && forall k :: 0 <= k < |placed| ==> r[k] == PieceStart(placed, k)
  {
    seq(|placed|, k requires 0 <= k < |placed| => PieceStart(placed, k))
  }

  lemma {:induction false} ReachedAt(spans: seq<ClauseSpan>, placed: seq<Placed>, settings: Settings, args: seq<Arg>,
                                     k: nat, j: nat)
    requires k <= j < |placed|
    ensures RunsReached(spans, placed, settings, args, k)[j - k] ==
            Reach(Flatten(Codes(placed)), args, RunBase(spans, placed, settings, j))
    decreases j - k
  {
    hide Reach, RunBase, Flatten;
    if k < j {
      ReachedAt(spans, placed, settings, args, k + 1, j);
    }
  }

  lemma {:induction false} OuterLeads(clauses: seq<Clause>, spans: seq<ClauseSpan>, settings: Settings, k: nat,
                                      size: nat, instr: Instr)
    requires Tiles(spans, 0, |clauses|) && k < |spans| && |spans| >= 2
    requires [instr] == OuterChoice(clauses, spans, k, size, settings)
    ensures if k + 1 == |spans| then Ends(instr) else Leads(instr, k, size + 1)
  {
    hide Tiles;
    LastSpan(spans, |clauses|, k);
  }

  lemma {:induction false} OuterLink(m: Machine, clauses: seq<Clause>, spans: seq<ClauseSpan>, placed: seq<Placed>,
                                     settings: Settings, w: Meaning, k: nat)
    requires Called(m, clauses, spans, placed, settings, w) && k < |spans| && |spans| >= 2
    ensures |placed| == |spans| && Link(m, OuterHeads(placed), k)
    ensures RunBase(spans, placed, settings, k) == PieceStart(placed, k) + 1
  {
    hide RunPlaced, RunIndexed, Flatten, Uniform, Tiles, PieceStart, OuterChoice, RunCode, Leads, Ends, Behaves;
    assert RunPlaced(clauses, spans, placed, settings, k);
    PieceAt(clauses, spans, placed, settings, k);
    var size := |RunCode(Run(clauses, spans[k]), placed[k].lines, settings)|;
    OuterOne(clauses, spans, settings, k, size);
    var choice, p := OuterChoice(clauses, spans, k, size, settings), PieceStart(placed, k);
    Within(m.code, choice, p, 0, 1);
    assert choice == [m.code[p]];
    OuterLeads(clauses, spans, settings, k, size, m.code[p]);
  }

  lemma {:induction false} PredicateIsChain(m: Machine, clauses: seq<Clause>, spans: seq<ClauseSpan>,
                                            placed: seq<Placed>, settings: Settings, w: Meaning)
    requires Called(m, clauses, spans, placed, settings, w) && |spans| >= 2
    ensures Chain(m, OuterHeads(placed), RunsReached(spans, placed, settings, m.args, 0), w)
  {
    hide Reach, Gives, Link, RunBase, PieceStart, Compiled, Behaves, PlainBodies, ArityFits;
    assert |placed| == |spans| by { OuterLink(m, clauses, spans, placed, settings, w, 0); }
    var heads, groups := OuterHeads(placed), RunsReached(spans, placed, settings, m.args, 0);
    forall k | 0 <= k < |heads| ensures Link(m, heads, k) && Gives(m, heads[k] + 1, groups[k], w) {
      OuterLink(m, clauses, spans, placed, settings, w, k);
      SpanGives(m, clauses, spans, placed, settings, w, k);
      ReachedAt(spans, placed, settings, m.args, 0, k);
    }
  }

  /** Past the stub, or through a dynamic one, the only run is entered. */
  lemma {:induction false} OnlyRun(m: Machine, clauses: seq<Clause>, spans: seq<ClauseSpan>, placed: seq<Placed>,
                                   settings: Settings, w: Meaning, depth: nat)
    requires Called(m, clauses, spans, placed, settings, w) && |spans| == 1
    ensures |placed| == 1
    ensures var b := RunBase(spans, placed, settings, 0);
            LookFrom(m, Entered(m.code), depth, true) == LookFrom(m, b, depth, EnteredFirst(settings))
  {
    hide RunIndexed, Tiles, Uniform, RunCode, PlainBodies, Behaves, LookFrom;
    assert RunPlaced(clauses, spans, placed, settings, 0);
    PieceAt(clauses, spans, placed, settings, 0);
    var run := Run(clauses, spans[0]);
    var piece := RunCode(run, placed[0].lines, settings);
    assert PieceStart(placed, 0) == 0;
    if settings.extensible {
      Within(m.code, OuterChoice(clauses, spans, 0, |piece|, settings), 0, 0, 1);
      LookStub(m, settings, depth);
    } else {
      PlainRun(clauses, spans[0]);
      FirstNoStub(run, placed[0].lines, settings);
      Within(m.code, piece, 0, 0, 1);
    }
  }

  lemma {:induction false} LookStub(m: Machine, settings: Settings, depth: nat)
    requires m.code != [] && m.code[0] == settings.OuterTryMeElse(0)
    ensures LookFrom(m, Entered(m.code), depth, true) == LookFrom(m, 1, depth, !m.code[0].DynamicElse?)
  {
    if m.code[0].DynamicElse? {
      assert LookFrom(m, 0, depth, true) == LookDynamic(m, 0, Next(0), depth, true);
    }
  }

  /** For every compiled predicate and every call, whichever clauses the look-ahead passes over because their heads
      cannot match: the answers are those of all clauses that the call reaches, in order, up to the first one that
      cuts, and in the end the choice points are those under which it was called. */
  lemma {:induction false} LookAheadAnswers(m: Machine, clauses: seq<Clause>, spans: seq<ClauseSpan>,
                                            placed: seq<Placed>, settings: Settings, w: Meaning)
    requires Called(m, clauses, spans, placed, settings, w)
    ensures LookFrom(m, Entered(m.code), w.base, true) ==
            M.Outcome(Answers(Reach(m.code, m.args, 0), w.answers, w.cuts), w.base)
  {
    hide LookFrom, Reach, Gives, Flatten, Compiled, ArityFits, PlainBodies, Behaves, Answers, SomeCut, Chain, RunBase;
    CompiledRange(clauses, spans, placed, settings);
    ReachIsRuns(clauses, spans, placed, settings, m.args, 0);
    var groups := RunsReached(spans, placed, settings, m.args, 0);
    if spans == [] {
      NoLook(m, placed, w);
      EndOfCode([], m.args, 0);
    } else if |spans| == 1 {
      SpanGives(m, clauses, spans, placed, settings, w, 0);
      OnlyRun(m, clauses, spans, placed, settings, w, w.base);
      OneGives(m, RunBase(spans, placed, settings, 0), groups[0], w, EnteredFirst(settings));
      assert groups[1..] == [] && groups[0] + [] == groups[0];
      FirstPiece(placed);
    } else {
      PredicateIsChain(m, clauses, spans, placed, settings, w);
      ChainLooks(m, OuterHeads(placed), groups, w, 0, w.base);
      NoStub(clauses, spans, placed, settings);
      assert groups[0..] == groups;
    }
  }

  lemma {:induction false} FirstPiece(placed: seq<Placed>)
    ensures PieceStart(placed, 0) == 0
  {
    assert Codes(placed)[..0] == [];
  }

  lemma {:induction false} OneGives(m: Machine, b: nat, group: seq<nat>, w: Meaning, first: bool)
    requires Gives(m, b, group, w)
    ensures LookFrom(m, b, w.base, first) == Result(group, w.base, w)
  {
  }

  lemma {:induction false} NoLook(m: Machine, placed: seq<Placed>, w: Meaning)
    requires placed == [] && m.code == Flatten(Codes(placed))
    ensures m.code == [] && LookFrom(m, Entered(m.code), w.base, true) == Failing(w.base)
    ensures Answers([], w.answers, w.cuts) == []
  {
    assert Codes(placed) == [];
  }

  /** The look-ahead makes no difference. */
  lemma {:induction false} LookAheadRefines(m: Machine, clauses: seq<Clause>, spans: seq<ClauseSpan>,
                                            placed: seq<Placed>, settings: Settings, w: Meaning)
    requires Called(m, clauses, spans, placed, settings, w)
    ensures LookFrom(m, Entered(m.code), w.base, true) ==
            RunFrom(m.code, m.args, Entered(m.code), w.base, true, m.clause)
  {
    hide LookFrom, RunFrom, Compiled, ArityFits, PlainBodies, Flatten, Clausal, Reach, Answers;
    LookAheadAnswers(m, clauses, spans, placed, settings, w);
    CallAnswers(clauses, spans, placed, settings, m.args, w.base, m.clause, w.answers, w.cuts);
  }
}
