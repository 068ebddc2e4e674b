/**
 Running the code of a clause body: it gives the answers that the tree it was compiled from means.
 */
module BodyRun {
  import opened BodyTree
  import opened BodyMeaning
  import opened BodyControl
  import BodySource
  import opened Options
  import opened BranchCode
  import opened CompileSeq
  import opened Slices

  /** Execution from `p` on under `depth` choice points. A try puts one on top; a retry and a trust are reached by
      backtracking, with the choice point of their branch on top, which a trust takes off. */
  function Run(w: World, code: Code, p: nat, st: State, depth: nat): Outcome
    decreases |code| - p, 0
  {
    if p >= |code| then Answer(st, depth)
    else match code[p]
      case Query(t) => DoTerm(w, t, st, depth, From(w, code, p + 1))
      case Leave(t) => DoTerm(w, t, st, depth, Answer)
      case JmpByCall(o) => if o == 0 then Outcome([], depth) else Run(w, code, p + o, st, depth)
      case TryMeElse(o) => OrElse(Run(w, code, p + 1, st, depth + 1), depth, Resumed(w, code, p, o, st, depth + 1))
      case RetryMeElse(o) => OrElse(Run(w, code, p + 1, st, depth), Prev(depth), Resumed(w, code, p, o, st, depth))
      case DefaultRetryMeElse(o) => OrElse(Run(w, code, p + 1, st, depth), Prev(depth),
          Resumed(w, code, p, o, st, depth))
      case TrustMe => Run(w, code, p + 1, st, Prev(depth))
      case DefaultTrustMe => Run(w, code, p + 1, st, Prev(depth))
  }

  /** The next alternative of the choice instruction at `p`. */
  function Resumed(w: World, code: Code, p: nat, o: nat, st: State, depth: nat): Outcome
    requires p < |code|
    decreases |code| - p - 1, 1
  {
    if o == 0 then Outcome([], depth) else Run(w, code, p + o, st, depth)
  }

  function From(w: World, code: Code, p: nat): Cont
    decreases |code| - p, 1
  {
    (st: State, depth: nat) => Run(w, code, p, st, depth)
  }

  /** What is done after a piece of code that ends at `p`: in tail position its paths leave the clause. */
  function After(w: World, code: Code, p: nat, tail: bool): Cont
  {
    if tail then Answer else From(w, code, p)
  }

  // ----- branches -----

  function Full(arms: seq<Code>, tail: bool): (r: seq<Code>)
    ensures |r| == |arms|
  {
    if tail then arms else JumpedLevel(arms, 0)
  }

  function Start(arms: seq<Code>, tail: bool, i: nat): nat
    requires i < |arms|
  {
    ArmStart(Full(arms, tail), i)
  }

  /** How arm `i` of a branch that stands at `at` is laid out. */
  predicate ArmLaidOut(code: Code, arms: seq<Code>, tail: bool, at: nat, i: nat, end: nat)
    requires i < |arms|
  {
    var p := at + Start(arms, tail, i);
    var q := p + 1 + |arms[i]|;
    && p < |code| && OpensArm(code[p], i, |arms|) && StandsAt(code, arms[i], p + 1)
    && (if i + 1 < |arms| then Start(arms, tail, i + 1) > Start(arms, tail, i) &&
                               NextAlternative(code[p]) == Start(arms, tail, i + 1) - Start(arms, tail, i)
        else NextAlternative(code[p]) == 0 && q == end)
    && (!tail && i + 1 < |arms| ==> q < end && q < |code| && code[q] == JmpByCall(end - q))
  }

  lemma {:induction false} JoinLaidOut(code: Code, arms: seq<Code>, tail: bool, nonCountedBt: bool, at: nat, i: nat)
    requires StandsAt(code, Join(arms, tail, nonCountedBt), at) && i < |arms| && |arms| >= 2
    ensures ArmLaidOut(code, arms, tail, at, i, at + |Join(arms, tail, nonCountedBt)|)
  {
    hide Combined, Choice, OpensArm, NextAlternative, RestSize, StandsAt, ArmStart, JumpedLevel;
    var whole, full := Join(arms, tail, nonCountedBt), Full(arms, tail);
    var start := ArmStart(full, i);
    ArmAt(full, i, |arms|, nonCountedBt);
    ChoiceLeads(full, i, nonCountedBt);
    ElementAt(code, whole, at, start);
    Part(code, whole, at, start + 1, full[i]);
    if !tail {
      ArmJumps(code, arms, at, i);
    }
  }

  lemma {:induction false} ArmJumps(code: Code, arms: seq<Code>, at: nat, i: nat)
    requires i < |arms|
    requires StandsAt(code, Jumped(arms, i, 0), at + Start(arms, false, i) + 1)
    ensures var p := at + Start(arms, false, i);
            var q := p + 1 + |arms[i]|;
            var end := at + ArmStart(JumpedLevel(arms, 0), |arms|);
            && StandsAt(code, arms[i], p + 1)
            && (i + 1 < |arms| ==> q < end && q < |code| && code[q] == JmpByCall(end - q))
  {
    hide RestSize, StandsAt, ArmStart, JumpedLevel;
    var p := at + Start(arms, false, i);
    if i + 1 < |arms| {
      var jump := [JmpByCall(1 + RestSize(arms, i + 1))];
      Joined(code, arms[i], jump, p + 1);
      ElementAt(code, jump, p + 1 + |arms[i]|, 0);
      JumpedSize(arms, i + 1, 0);
      StartStep(JumpedLevel(arms, 0), i);
    }
  }

  /** The meaning of the alternatives in front of which the choice instruction at `p` stands. */
  lemma {:induction false} ChoiceRuns(w: World, code: Code, p: nat, i: nat, n: nat, st: State, depth: nat)
    requires p < |code| && OpensArm(code[p], i, n) && i < n && n >= 2 && (i + 1 < n ==> NextAlternative(code[p]) > 0)
    ensures Run(w, code, p, st, if i == 0 then depth else depth + 1) ==
            if i + 1 == n then Run(w, code, p + 1, st, depth)
            else OrElse(Run(w, code, p + 1, st, depth + 1), depth,
                Run(w, code, p + NextAlternative(code[p]), st, depth + 1))
  {
  }

  /** An arm goes on where its branch ends. */
  lemma {:induction false} ArmGoesOn(w: World, code: Code, arms: seq<Code>, tail: bool, at: nat, i: nat, end: nat,
                                     k: Cont)
    requires i < |arms| && ArmLaidOut(code, arms, tail, at, i, end) && Same(k, After(w, code, end, tail))
    ensures Same(k, After(w, code, at + Start(arms, tail, i) + 1 + |arms[i]|, tail))
  {
    hide Start, OpensArm, NextAlternative, StandsAt;
    var q := at + Start(arms, tail, i) + 1 + |arms[i]|;
    if !tail {
      forall st: State, depth: nat ensures k(st, depth) == From(w, code, q)(st, depth) {
        assert k(st, depth) == After(w, code, end, tail)(st, depth);
      }
    }
  }

  // ----- chunks -----

  lemma {:induction false} ChunkRuns(w: World, code: Code, terms: seq<QueryTerm>, tail: bool, at: nat, i: nat,
                                     st: State, depth: nat, k: Cont)
    requires StandsAt(code, ChunkCode(terms, tail), at) && i <= |terms| && (tail ==> i < |terms|)
    requires Same(k, After(w, code, at + |terms|, tail))
    ensures Run(w, code, at + i, st, depth) == TermsMeaning(w, terms[i..], st, depth, k)
    decreases |terms| - i
  {
    hide DoTerm, StandsAt;
    if i == |terms| {
      assert terms[i..] == [];
      assert k(st, depth) == After(w, code, at + |terms|, tail)(st, depth);
    } else {
      ElementAt(code, ChunkCode(terms, tail), at, i);
      var rest := terms[i..][1..];
      assert rest == terms[i + 1..];
      if tail && i + 1 == |terms| {
        LastGoesOn(w, code, at + |terms|, rest, k);
        DoTermSame(w, terms[i], st, depth, Answer, ThenTerms(w, rest, k));
      } else {
        forall s: State, d: nat ensures From(w, code, at + i + 1)(s, d) == ThenTerms(w, rest, k)(s, d) {
          ChunkRuns(w, code, terms, tail, at, i + 1, s, d, k);
        }
        DoTermSame(w, terms[i], st, depth, From(w, code, at + i + 1), ThenTerms(w, rest, k));
      }
    }
  }

  lemma {:induction false} LastGoesOn(w: World, code: Code, end: nat, none: seq<QueryTerm>, k: Cont)
    requires none == [] && Same(k, After(w, code, end, true))
    ensures Same(Answer, ThenTerms(w, none, k))
  {
    forall st: State, depth: nat ensures Answer(st, depth) == ThenTerms(w, none, k)(st, depth) {
      assert k(st, depth) == After(w, code, end, true)(st, depth);
    }
  }

  // ----- the whole body -----

  lemma {:induction false} BodyStep(items: seq<ChunkedTerms>, tail: bool, nonCountedBt: bool)
    requires items != []
    ensures BodyCode(items, tail, nonCountedBt) ==
            ItemCode(items[0], tail && |items| == 1, nonCountedBt) + BodyCode(items[1..], tail, nonCountedBt)
    ensures |items| == 1 ==> BodyCode(items[1..], tail, nonCountedBt) == []
  {
    hide ItemCode;
  }

  lemma {:induction false} NoCode(tail: bool, nonCountedBt: bool)
    ensures BodyCode([], tail, nonCountedBt) == []
  {
  }

  /** The code of a body does what the body means, and goes on with what follows it. */
  lemma {:induction false} BodyRuns(w: World, code: Code, items: seq<ChunkedTerms>, tail: bool, nonCountedBt: bool,
                                    at: nat, st: State, depth: nat, k: Cont)
    requires GoodItems(items) && Forked(items) && (tail ==> items != [])
            && StandsAt(code, BodyCode(items, tail, nonCountedBt), at)
    requires Same(k, After(w, code, at + |BodyCode(items, tail, nonCountedBt)|, tail))
    ensures Run(w, code, at, st, depth) == Meaning(w, items, st, depth, k)
    decreases items, 1
  {
    hide Run, BodyCode, ItemCode, GoodItems, GoodItem, StandsAt, ForkedItem, ItemMeaning;
    if items == [] {
      NoCode(tail, nonCountedBt);
      assert k(st, depth) == After(w, code, at, tail)(st, depth);
    } else {
      var alone := tail && |items| == 1;
      var first, rest := ItemCode(items[0], alone, nonCountedBt), BodyCode(items[1..], tail, nonCountedBt);
      BodyStep(items, tail, nonCountedBt);
      ItemsGood(items);
      Joined(code, first, rest, at);
      RestGoesOn(w, code, items, tail, nonCountedBt, at + |first|, k);
      ItemRuns(w, code, items[0], alone, nonCountedBt, at, st, depth, Then(w, items[1..], k));
    }
  }

  lemma {:induction false} RestGoesOn(w: World, code: Code, items: seq<ChunkedTerms>, tail: bool, nonCountedBt: bool,
                                      at: nat, k: Cont)
    requires items != [] && GoodItems(items[1..]) && Forked(items[1..])
            && StandsAt(code, BodyCode(items[1..], tail, nonCountedBt), at)
    requires Same(k, After(w, code, at + |BodyCode(items[1..], tail, nonCountedBt)|, tail))
    ensures Same(Then(w, items[1..], k), After(w, code, at, tail && |items| == 1))
    decreases items, 0
  {
    hide Run, BodyCode, GoodItems, Forked, StandsAt, Meaning;
    var rest := items[1..];
    forall st: State, depth: nat ensures Then(w, rest, k)(st, depth)
        == After(w, code, at, tail && |items| == 1)(st, depth) {
      if rest == [] {
        NoCode(tail, nonCountedBt);
        NothingMeant(w, rest, st, depth, k);
        assert k(st, depth) == After(w, code, at, tail)(st, depth);
      } else {
        BodyRuns(w, code, rest, tail, nonCountedBt, at, st, depth, k);
      }
    }
  }

  lemma {:induction false} NothingMeant(w: World, none: seq<ChunkedTerms>, st: State, depth: nat, k: Cont)
    requires none == []
    ensures Meaning(w, none, st, depth, k) == k(st, depth)
  {
  }

  lemma {:induction false} ItemRuns(w: World, code: Code, item: ChunkedTerms, tail: bool, nonCountedBt: bool, at: nat,
                                    st: State, depth: nat, k: Cont)
    requires GoodItem(item) && ForkedItem(item) && StandsAt(code, ItemCode(item, tail, nonCountedBt), at)
    requires Same(k, After(w, code, at + |ItemCode(item, tail, nonCountedBt)|, tail))
    ensures Run(w, code, at, st, depth) == ItemMeaning(w, item, st, depth, k)
    decreases item, 1
  {
    hide Run, GoodItems, StandsAt, ArmCodes, Join, ArmsMeaning, TermsMeaning, Same;
    if item.Chunk? {
      ChunkRuns(w, code, item.terms, tail, at, 0, st, depth, k);
      assert item.terms[0..] == item.terms;
    } else {
      ArmsRun(w, code, item, tail, nonCountedBt, at, 0, st, depth, k);
      StartZero(ArmCodes(item, |item.arms|, tail, nonCountedBt), tail);
    }
  }

  lemma {:induction false} StartZero(arms: seq<Code>, tail: bool)
    requires arms != []
    ensures Start(arms, tail, 0) == 0
  {
  }

  lemma {:induction false} ArmCodeAt(branch: ChunkedTerms, i: nat, n: nat, tail: bool, nonCountedBt: bool)
    requires branch.Branch? && i < n <= |branch.arms|
    ensures ArmCodes(branch, n, tail, nonCountedBt)[i] == BodyCode(branch.arms[i].items, tail, nonCountedBt)
  {
    if i + 1 < n {
      ArmCodeAt(branch, i, n - 1, tail, nonCountedBt);
    }
  }

  /** Entering a branch at arm `i` does what the arms from there on mean. */
  lemma {:induction false} ArmsRun(w: World, code: Code, branch: ChunkedTerms, tail: bool, nonCountedBt: bool,
                                   at: nat, i: nat, st: State, depth: nat, k: Cont)
    requires branch.Branch? && GoodItem(branch) && ForkedItem(branch) && i < |branch.arms|
    requires StandsAt(code, ItemCode(branch, tail, nonCountedBt), at)
    requires Same(k, After(w, code, at + |ItemCode(branch, tail, nonCountedBt)|, tail))
    ensures var codes := ArmCodes(branch, |branch.arms|, tail, nonCountedBt);
            Run(w, code, at + Start(codes, tail, i), st, if i == 0 then depth else depth + 1) ==
            ArmsMeaning(w, branch, i, st, depth, k)
    decreases branch, 0, |branch.arms| - i
  {
    hide Run, GoodItems, GoodBody, StandsAt, ArmCodes, Join, Start, Meaning, Same, OpensArm, NextAlternative, After,
        OrElse;
    var codes := ArmCodes(branch, |branch.arms|, tail, nonCountedBt);
    var end := at + |Join(codes, tail, nonCountedBt)|;
    var arm, p := branch.arms[i], at + Start(codes, tail, i);
    JoinLaidOut(code, codes, tail, nonCountedBt, at, i);
    ArmCodeAt(branch, i, |branch.arms|, tail, nonCountedBt);
    ArmGood(branch, i);
    assert ForkedArm(arm);
    BodyNotEmpty(arm.items);
    ArmGoesOn(w, code, codes, tail, at, i, end, k);
    ChoiceRuns(w, code, p, i, |branch.arms|, st, depth);
    if i + 1 < |branch.arms| {
      BodyRuns(w, code, arm.items, tail, nonCountedBt, p + 1, st, depth + 1, k);
      ArmsRun(w, code, branch, tail, nonCountedBt, at, i + 1, st, depth, k);
    } else {
      BodyRuns(w, code, arm.items, tail, nonCountedBt, p + 1, st, depth, k);
    }
  }

  lemma {:induction false} BodyNotEmpty(items: seq<ChunkedTerms>)
    requires GoodBody(items)
    ensures items != [] && GoodItems(items)
  {
  }

  /** Running the code of a clause body gives the answers that the body means, in order, and cuts as it does. */
  lemma {:induction false} CompiledBodyRuns(w: World, items: seq<ChunkedTerms>, nonCountedBt: bool, st: State,
                                            depth: nat)
    requires GoodBody(items) && Forked(items)
    ensures Run(w, BodyCode(items, true, nonCountedBt), 0, st, depth) == Meaning(w, items, st, depth, Answer)
  {
    hide Run, BodyCode, GoodItems, Meaning;
    var code := BodyCode(items, true, nonCountedBt);
    BodyNotEmpty(items);
    assert code[0..|code|] == code;
    BodyRuns(w, code, items, true, nonCountedBt, 0, st, depth, Answer);
  }

  /** Without cuts, the code of a body gives every exit of the body, in order. */
  lemma {:induction false} CompiledCutFree(w: World, items: seq<ChunkedTerms>, nonCountedBt: bool, st: State,
                                           depth: nat)
    requires GoodBody(items) && Forked(items) && CutFree(items)
    ensures Run(w, BodyCode(items, true, nonCountedBt), 0, st, depth) == Outcome(Exits(w, items, st), depth)
  {
    hide Run, BodyCode, Meaning, Exits, CutFree, GoodBody, Forked;
    CompiledBodyRuns(w, items, nonCountedBt, st, depth);
    CutFreeAnswers(w, items, st, depth);
  }

  /** The code of a body as it is written, classified and divided into chunks in any way, gives the answers that the
      body means, in order, and leaves the choice points that the body means after its cuts. */
  lemma {:induction false} SourceRuns(w: World, g: BodySource.Goal, cutVar: nat, items: seq<ChunkedTerms>,
                                      nonCountedBt: bool,
                                      st: State, depth: nat)
    requires GoodBody(items) && Forked(items) && BodySource.IsClassified(items, g, cutVar)
    ensures BodySource.Alike(Run(w, BodyCode(items, true, nonCountedBt), 0, st, depth),
                             BodySource.Sem(w, g, st, depth, w.b0, depth, Answer))
  {
    hide Run, BodyCode, Meaning, GoodBody, Forked, BodySource.Sem, BodySource.Classify, Apart;
    CompiledBodyRuns(w, items, nonCountedBt, st, depth);
    ApartMeans(w, items, st, depth, Answer);
    var none := BodySource.Notes(map[], 0);
    BodySource.AllAlike(none, Answer, Answer);
    BodySource.ClassifiedMeans(w, g, 0, None, cutVar, false, st, st, depth, w.b0, depth, none, Answer, Answer);
  }
}
