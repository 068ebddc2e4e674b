/**
 Clause bodies as they are written: what conjunction, disjunction, if-then, negation and cut mean, and the body of query
 terms that they are classified into.
 */
module BodySource {
  import opened BodyTree
  import opened BodyMeaning
  import opened Options
  import BranchNumbers

  datatype Goal =
    | Plain(goal: nat)
    | Cut
    | And(first: Goal, second: Goal)
    | Or(arms: seq<Goal>)
    | IfThen(condition: Goal, consequence: Goal)
    | Not(negated: Goal)

  /** The goal that always succeeds, which stands in the second arm of a negation. */
  const Succeed := 0

  // ----- what a body means -----

  /** A goal under `depth` choice points. A cut goes back to `to`; an if-then goes back to `back` once its condition
      has a solution, which is the beginning of the disjunction if it is an arm of one that others follow. */
  function Sem(w: World, g: Goal, st: State, depth: nat, to: nat, back: nat, k: Cont): Outcome
    decreases g, 1
  {
    match g
    case Plain(goal) => Solutions(w, goal, 0, st, depth, k)
    case Cut => k(st, Min(depth, to))
    case And(first, second) => Sem(w, first, st, depth, to, depth, AndThen(w, second, to, k))
    case Or(_) => SemArms(w, g, 0, st, depth, to, k)
    case IfThen(condition, consequence) => Sem(w, condition, st, depth, to, depth,
        Committing(w, consequence, to, back, k))
    case Not(negated) =>
      OrElse(Sem(w, negated, st, depth + 1, depth + 1, depth + 1, Refusing(depth)), depth,
          Solutions(w, Succeed, 0, st, depth, k))
  }

  function AndThen(w: World, g: Goal, to: nat, k: Cont): Cont
    decreases g, 2
  {
    (st: State, depth: nat) => Sem(w, g, st, depth, to, depth, k)
  }

  function Committing(w: World, g: Goal, to: nat, back: nat, k: Cont): Cont
    decreases g, 2
  {
    (st: State, depth: nat) => Sem(w, g, st, Min(depth, back), to, Min(depth, back), k)
  }

  function Refusing(back: nat): Cont
  {
    (st: State, depth: nat) => Outcome([], Min(depth, back))
  }

  /** The arms from arm `i` on; all but the last run under a choice point. */
  function SemArms(w: World, g: Goal, i: nat, st: State, depth: nat, to: nat, k: Cont): Outcome
    requires g.Or?
    decreases g, 0, |g.arms| - i
  {
    if i >= |g.arms| then Outcome([], depth)
    else if i + 1 == |g.arms| then Sem(w, g.arms[i], st, depth, to, depth, k)
    else OrElse(Sem(w, g.arms[i], st, depth + 1, to, depth, k), depth, SemArms(w, g, i + 1, st, depth, to, k))
  }

  // ----- classification -----

  /** The query terms and disjunctions of a body, and the next unused variable for a cut point. */
  datatype Classified = Classified(items: seq<ChunkedTerms>, next: nat)

  function One(t: QueryTerm): seq<ChunkedTerms>
  {
    [Chunk([t])]
  }

  function ArmOf(items: seq<ChunkedTerms>): Arm
  {
    Arm(BranchNumbers.Default, items)
  }

  /** The variable that a cut in a negation goes to is `over`; elsewhere a cut is a global one, with variable `cutVar`.
      `prevB` says that the goal is an arm that others follow. */
  function Classify(g: Goal, n: nat, over: Option<nat>, cutVar: nat, prevB: bool): (r: Classified)
    ensures r.next >= n
    decreases g, 1
  {
    match g
    case Plain(goal) => Classified(One(Call(goal)), n)
    case Cut => Classified(One(if over.Some? then LocalCut(over.value, false) else GlobalCut(cutVar)), n)
    case And(first, second) =>
      var a := Classify(first, n, over, cutVar, false);
      var b := Classify(second, a.next, over, cutVar, false);
      Classified(a.items + b.items, b.next)
    case Or(_) =>
      var arms := ClassifyArms(g, |g.arms|, n, over, cutVar);
      Classified([Branch(arms.arms)], arms.next)
    case IfThen(condition, consequence) =>
      var a := Classify(condition, n + 1, over, cutVar, false);
      var b := Classify(consequence, a.next, over, cutVar, false);
      Classified(One(GetCutPoint(n, prevB)) + (a.items + (One(LocalCut(n, false)) + b.items)), b.next)
    case Not(negated) =>
      var a := Classify(negated, n + 1, Some(n), cutVar, false);
      var refusal := One(GetCutPoint(n, false)) + (a.items + (One(LocalCut(n, true)) + One(Fail)));
      Classified([Branch([ArmOf(refusal), ArmOf(One(Call(Succeed)))])], a.next)
  }

  datatype ClassifiedArms = ClassifiedArms(arms: seq<Arm>, next: nat)

  /** The first `i` arms. */
  function ClassifyArms(g: Goal, i: nat, n: nat, over: Option<nat>, cutVar: nat): (r: ClassifiedArms)
    requires g.Or? && i <= |g.arms|
    ensures r.next >= n && |r.arms| == i
    decreases g, 0, i
  {
    if i == 0 then ClassifiedArms([], n)
    else
      var before := ClassifyArms(g, i - 1, n, over, cutVar);
      var arm := Classify(g.arms[i - 1], before.next, over, cutVar, i < |g.arms|);
      ClassifiedArms(before.arms + [ArmOf(arm.items)], arm.next)
  }

  // ----- variables for choice points -----

  /** Outcomes that differ in the notes of choice points only. */
  predicate Alike(a: Outcome, b: Outcome)
  {
    && a.level == b.level && |a.answers| == |b.answers|
    && forall i :: 0 <= i < |a.answers| ==> a.answers[i].did == b.answers[i].did
  }

  /** The notes of the variables below `kept`. */
  datatype Notes = Notes(levels: map<nat, nat>, kept: nat)

  predicate Keeps(notes: Notes, st: State)
  {
    forall u :: u in notes.levels && u < notes.kept ==> u in st.levels && st.levels[u] == notes.levels[u]
  }

  ghost predicate AlikeAfter(notes: Notes, k: Cont, l: Cont)
  {
    forall s: State, t: State, d: nat :: s.did == t.did && Keeps(notes, s) ==> Alike(k(s, d), l(t, d))
  }

  lemma {:induction false} AlikeAt(notes: Notes, k: Cont, l: Cont, s: State, t: State, d: nat)
    requires AlikeAfter(notes, k, l) && s.did == t.did && Keeps(notes, s)
    ensures Alike(k(s, d), l(t, d))
  {
  }

  lemma {:induction false} AllAlike(notes: Notes, k: Cont, l: Cont)
    requires forall s: State, t: State, d: nat :: s.did == t.did && Keeps(notes, s) ==> Alike(k(s, d), l(t, d))
    ensures AlikeAfter(notes, k, l)
  {
  }

  lemma {:induction false} OrElseAlike(a: Outcome, b: Outcome, depth: nat, a': Outcome, b': Outcome)
    requires Alike(a, a') && Alike(b, b')
    ensures Alike(OrElse(a, depth, b), OrElse(a', depth, b'))
  {
  }

  lemma {:induction false} SolutionsAlike(w: World, goal: nat, i: nat, s: State, t: State, depth: nat, notes: Notes,
                                          k: Cont, l: Cont)
    requires AlikeAfter(notes, k, l) && s.did == t.did && Keeps(notes, s)
    ensures Alike(Solutions(w, goal, i, s, depth, k), Solutions(w, goal, i, t, depth, l))
    decreases w.solutions(goal, s.did) - i
  {
    hide Alike, AlikeAfter, OrElse;
    if i < w.solutions(goal, s.did) {
      AlikeAt(notes, k, l, Done(s, goal, i), Done(t, goal, i), depth);
      if i + 1 < w.solutions(goal, s.did) {
        AlikeAt(notes, k, l, Done(s, goal, i), Done(t, goal, i), depth + 1);
        SolutionsAlike(w, goal, i + 1, s, t, depth, notes, k, l);
        OrElseAlike(k(Done(s, goal, i), depth + 1), Solutions(w, goal, i + 1, s, depth, k), depth,
                    l(Done(t, goal, i), depth + 1), Solutions(w, goal, i + 1, t, depth, l));
      }
    } else {
      Nothing(depth);
    }
  }

  lemma {:induction false} Nothing(level: nat)
    ensures Alike(Outcome([], level), Outcome([], level))
  {
  }

  /** The variable of the innermost negation notes the choice point that a cut goes back to. */
  predicate CutsTo(w: World, notes: Notes, over: Option<nat>, to: nat)
  {
    match over
    case Some(v) => v < notes.kept && v in notes.levels && notes.levels[v] == to
    case None => to == w.b0
  }

  /** The choice point an if-then goes back to. */
  predicate GoesBack(g: Goal, prevB: bool, depth: nat, back: nat)
  {
    g.IfThen? ==> back == if prevB then Prev(depth) else depth
  }

  /** The notes while variable `n` notes `level`. */
  function Noting(notes: Notes, n: nat, level: nat): Notes
  {
    Notes((map u | u in notes.levels && u < notes.kept :: notes.levels[u])[n := level], n + 1)
  }

  lemma {:induction false} NotingKeeps(w: World, notes: Notes, n: nat, level: nat, s: State, over: Option<nat>, to: nat)
    requires notes.kept <= n
    ensures Keeps(notes, s) ==> Keeps(Noting(notes, n, level), s.(levels := s.levels[n := level]))
    ensures Keeps(Noting(notes, n, level), s) ==> Keeps(notes, s) && n in s.levels && s.levels[n] == level
    ensures CutsTo(w, notes, over, to) ==> CutsTo(w, Noting(notes, n, level), over, to)
  {
  }

  lemma {:induction false} Single(w: World, t: QueryTerm, st: State, depth: nat, k: Cont)
    ensures Meaning(w, One(t), st, depth, k) == DoTerm(w, t, st, depth, k)
  {
    hide DoTerm;
    OneTerm(w, t, [], st, depth, k);
    assert One(t) + [] == One(t);
    DoTermSame(w, t, st, depth, Then(w, [], k), k);
  }

  lemma {:induction false} OneItem(w: World, item: ChunkedTerms, st: State, depth: nat, k: Cont)
    ensures Meaning(w, [item], st, depth, k) == ItemMeaning(w, item, st, depth, k)
  {
    hide ItemMeaning;
    assert [item][1..] == [];
    ItemSame(w, item, st, depth, Then(w, [], k), k);
  }

  /** What a goal is classified into means what the goal means, up to the notes of choice points. */
  lemma {:induction false} ClassifiedMeans(w: World, g: Goal, n: nat, over: Option<nat>, cutVar: nat, prevB: bool,
                                           s: State, t: State,
                                           depth: nat, to: nat, back: nat, notes: Notes, k: Cont, l: Cont)
    requires AlikeAfter(notes, k, l) && s.did == t.did && Keeps(notes, s) && notes.kept <= n
    requires CutsTo(w, notes, over, to) && GoesBack(g, prevB, depth, back)
    ensures Alike(Meaning(w, Classify(g, n, over, cutVar, prevB).items, s, depth, k), Sem(w, g, t, depth, to, back, l))
    decreases g, 1
  {
    hide Alike, AlikeAfter, Keeps, Meaning, Solutions;
    match g
    case Plain(goal) =>
      Single(w, Call(goal), s, depth, k);
      SolutionsAlike(w, goal, 0, s, t, depth, notes, k, l);
    case Cut =>
      CutMeans(w, over, cutVar, s, t, depth, to, notes, k, l);
    case And(first, second) =>
      var a := Classify(first, n, over, cutVar, false);
      var b := Classify(second, a.next, over, cutVar, false);
      MeaningSum(w, a.items, b.items, s, depth, k);
      forall s': State, t': State, d: nat | s'.did == t'.did && Keeps(notes, s')
        ensures Alike(Then(w, b.items, k)(s', d), AndThen(w, second, to, l)(t', d)) {
        ClassifiedMeans(w, second, a.next, over, cutVar, false, s', t', d, to, d, notes, k, l);
      }
      AllAlike(notes, Then(w, b.items, k), AndThen(w, second, to, l));
      ClassifiedMeans(w, first, n, over, cutVar, false, s, t, depth, to, depth, notes, Then(w, b.items, k),
          AndThen(w, second, to, l));
    case Or(arms) =>
      OneItem(w, Branch(ClassifyArms(g, |arms|, n, over, cutVar).arms), s, depth, k);
      ArmsMean(w, g, 0, n, over, cutVar, s, t, depth, to, notes, k, l);
    case IfThen(_, _) =>
      IfThenMeans(w, g, n, over, cutVar, prevB, s, t, depth, to, back, notes, k, l);
    case Not(_) =>
      NotMeans(w, g, n, over, cutVar, s, t, depth, to, notes, k, l);
  }

  lemma {:induction false} CutMeans(w: World, over: Option<nat>, cutVar: nat, s: State, t: State, depth: nat, to: nat,
                                    notes: Notes, k: Cont, l: Cont)
    requires AlikeAfter(notes, k, l) && s.did == t.did && Keeps(notes, s) && CutsTo(w, notes, over, to)
    ensures Alike(Meaning(w, One(if over.Some? then LocalCut(over.value, false) else GlobalCut(cutVar)), s, depth, k),
                  l(t, Min(depth, to)))
  {
    hide Alike, AlikeAfter, Meaning;
    Single(w, if over.Some? then LocalCut(over.value, false) else GlobalCut(cutVar), s, depth, k);
    AlikeAt(notes, k, l, s, t, Min(depth, to));
  }

  lemma {:induction false} IfThenMeans(w: World, g: Goal, n: nat, over: Option<nat>, cutVar: nat, prevB: bool,
                                       s: State, t: State,
                                       depth: nat, to: nat, back: nat, notes: Notes, k: Cont, l: Cont)
    requires g.IfThen? && AlikeAfter(notes, k, l) && s.did == t.did && Keeps(notes, s) && notes.kept <= n
    requires CutsTo(w, notes, over, to) && GoesBack(g, prevB, depth, back)
    ensures Alike(Meaning(w, Classify(g, n, over, cutVar, prevB).items, s, depth, k), Sem(w, g, t, depth, to, back, l))
    decreases g, 0
  {
    hide Alike, AlikeAfter, Keeps, Meaning, CutsTo, Noting;
    var a := Classify(g.condition, n + 1, over, cutVar, false);
    var b := Classify(g.consequence, a.next, over, cutVar, false);
    var rest := One(LocalCut(n, false)) + b.items;
    var inner, s1 := Noting(notes, n, back), s.(levels := s.levels[n := back]);
    OneTerm(w, GetCutPoint(n, prevB), a.items + rest, s, depth, k);
    MeaningSum(w, a.items, rest, s1, depth, k);
    NotingKeeps(w, notes, n, back, s, over, to);
    forall s': State, t': State, d: nat | s'.did == t'.did && Keeps(inner, s')
      ensures Alike(Then(w, rest, k)(s', d), Committing(w, g.consequence, to, back, l)(t', d)) {
      NotingKeeps(w, notes, n, back, s', over, to);
      OneTerm(w, LocalCut(n, false), b.items, s', d, k);
      ClassifiedMeans(w, g.consequence, a.next, over, cutVar, false, s', t', Min(d, back), to, Min(d, back), notes, k,
          l);
    }
    AllAlike(inner, Then(w, rest, k), Committing(w, g.consequence, to, back, l));
    NotingKept(notes, n, back);
    ClassifiedMeans(w, g.condition, n + 1, over, cutVar, false, s1, t, depth, to, depth, inner, Then(w, rest, k),
                    Committing(w, g.consequence, to, back, l));
  }

  lemma {:induction false} NotingKept(notes: Notes, n: nat, level: nat)
    ensures Noting(notes, n, level).kept == n + 1
  {
  }

  lemma {:induction false} NotMeans(w: World, g: Goal, n: nat, over: Option<nat>, cutVar: nat, s: State, t: State,
                                    depth: nat, to: nat,
                                    notes: Notes, k: Cont, l: Cont)
    requires g.Not? && AlikeAfter(notes, k, l) && s.did == t.did && Keeps(notes, s) && notes.kept <= n
            && CutsTo(w, notes, over, to)
    ensures Alike(Meaning(w, Classify(g, n, over, cutVar, false).items, s, depth, k), Sem(w, g, t, depth, to, depth, l))
    decreases g, 0
  {
    hide Alike, AlikeAfter, Keeps, Meaning, CutsTo, Noting, Solutions, OrElse;
    var a := Classify(g.negated, n + 1, Some(n), cutVar, false);
    var rest := One(LocalCut(n, true)) + One(Fail);
    var refusal := One(GetCutPoint(n, false)) + (a.items + rest);
    var branch := Branch([ArmOf(refusal), ArmOf(One(Call(Succeed)))]);
    var inner, s1 := Noting(notes, n, depth + 1), s.(levels := s.levels[n := depth + 1]);
    OneItem(w, branch, s, depth, k);
    TwoArms(w, branch, s, depth, k);
    OneTerm(w, GetCutPoint(n, false), a.items + rest, s, depth + 1, k);
    MeaningSum(w, a.items, rest, s1, depth + 1, k);
    NotingKeeps(w, notes, n, depth + 1, s, over, to);
    forall s': State, t': State, d: nat | s'.did == t'.did && Keeps(inner, s')
      ensures Alike(Then(w, rest, k)(s', d), Refusing(depth)(t', d)) {
      NotingKeeps(w, notes, n, depth + 1, s', over, to);
      OneTerm(w, LocalCut(n, true), One(Fail), s', d, k);
      Single(w, Fail, s', Min(d, depth), k);
      Nothing(Min(d, depth));
    }
    AllAlike(inner, Then(w, rest, k), Refusing(depth));
    NotingCuts(w, notes, n, depth + 1);
    ClassifiedMeans(w, g.negated, n + 1, Some(n), cutVar, false, s1, t, depth + 1, depth + 1, depth + 1, inner,
        Then(w, rest, k), Refusing(depth));
    Single(w, Call(Succeed), s, depth, k);
    SolutionsAlike(w, Succeed, 0, s, t, depth, notes, k, l);
    OrElseAlike(Meaning(w, refusal, s, depth + 1, k), Meaning(w, One(Call(Succeed)), s, depth, k), depth,
                Sem(w, g.negated, t, depth + 1, depth + 1, depth + 1, Refusing(depth)),
                    Solutions(w, Succeed, 0, t, depth, l));
  }

  lemma {:induction false} NotingCuts(w: World, notes: Notes, n: nat, level: nat)
    ensures Noting(notes, n, level).kept == n + 1 && CutsTo(w, Noting(notes, n, level), Some(n), level)
  {
  }

  lemma {:induction false} TwoArms(w: World, branch: ChunkedTerms, st: State, depth: nat, k: Cont)
    requires branch.Branch? && |branch.arms| == 2
    ensures ItemMeaning(w, branch, st, depth, k) ==
            OrElse(Meaning(w, branch.arms[0].items, st, depth + 1, k), depth,
                Meaning(w, branch.arms[1].items, st, depth, k))
  {
    hide Meaning, OrElse;
    assert ArmsMeaning(w, branch, 1, st, depth, k) == Meaning(w, branch.arms[1].items, st, depth, k);
  }

  /** Where an arm's variables begin. */
  lemma {:induction false} ArmAt(g: Goal, i: nat, j: nat, n: nat, over: Option<nat>, cutVar: nat) returns (m: nat)
    requires g.Or? && i < j <= |g.arms|
    ensures m >= n && ClassifyArms(g, j, n, over, cutVar).arms[i].items
            == Classify(g.arms[i], m, over, cutVar, i + 1 < |g.arms|).items
  {
    hide Classify;
    if i + 1 == j {
      m := ClassifyArms(g, i, n, over, cutVar).next;
    } else {
      m := ArmAt(g, i, j - 1, n, over, cutVar);
    }
  }

  lemma {:induction false} ArmsMean(w: World, g: Goal, i: nat, n: nat, over: Option<nat>, cutVar: nat, s: State,
                                    t: State, depth: nat, to: nat,
                                    notes: Notes, k: Cont, l: Cont)
    requires g.Or? && AlikeAfter(notes, k, l) && s.did == t.did && Keeps(notes, s) && notes.kept <= n
            && CutsTo(w, notes, over, to)
    ensures Alike(ArmsMeaning(w, Branch(ClassifyArms(g, |g.arms|, n, over, cutVar).arms), i, s, depth, k),
            SemArms(w, g, i, t, depth, to, l))
    decreases g, 0, |g.arms| - i
  {
    hide Alike, AlikeAfter, Keeps, Meaning, CutsTo, OrElse, Classify, ClassifyArms;
    var branch := Branch(ClassifyArms(g, |g.arms|, n, over, cutVar).arms);
    if i >= |g.arms| {
      Nothing(depth);
    } else {
      var arm := g.arms[i];
      var m := ArmAt(g, i, |g.arms|, n, over, cutVar);
      if i + 1 == |g.arms| {
        ClassifiedMeans(w, arm, m, over, cutVar, false, s, t, depth, to, depth, notes, k, l);
      } else {
        ClassifiedMeans(w, arm, m, over, cutVar, true, s, t, depth + 1, to, depth, notes, k, l);
        ArmsMean(w, g, i + 1, n, over, cutVar, s, t, depth, to, notes, k, l);
        OrElseAlike(Meaning(w, branch.arms[i].items, s, depth + 1, k), ArmsMeaning(w, branch, i + 1, s, depth, k),
            depth,
                    Sem(w, arm, t, depth + 1, to, depth, l), SemArms(w, g, i + 1, t, depth, to, l));
      }
    }
  }

  // ----- committing to the first answer -----

  /** No cut outside negations. */
  predicate CutFree(g: Goal)
  {
    match g
    case Cut => false
    case And(first, second) => CutFree(first) && CutFree(second)
    case Or(arms) => forall i :: 0 <= i < |arms| ==> CutFree(arms[i])
    case IfThen(condition, consequence) => CutFree(condition) && CutFree(consequence)
    case _ => true
  }

  /** What follows a goal that begins under `base` choice points is `next`, whatever choice points the goal leaves. */
  datatype Frame = Frame(base: nat, next: State -> Outcome)

  ghost predicate CutsBack(f: Frame)
  {
    forall s: State :: f.next(s).level <= f.base
  }

  /** The outcome with what follows, and the outcome of the goal alone: its first answer is gone on from, and where
      there is none they are the same. */
  predicate Follows(f: Frame, followed: Outcome, alone: Outcome)
  {
    if alone.answers == [] then followed == alone && f.base <= alone.level else followed == f.next(alone.answers[0])
  }

  ghost predicate FollowsAll(f: Frame, k: Cont, a: Cont)
  {
    forall s: State, d: nat :: d >= f.base ==> Follows(f, k(s, d), a(s, d))
  }

  lemma {:induction false} OrElseFollows(f: Frame, depth: nat, k1: Outcome, a1: Outcome, k2: Outcome, a2: Outcome)
    requires CutsBack(f) && depth >= f.base && Follows(f, k1, a1) && Follows(f, k2, a2)
    ensures Follows(f, OrElse(k1, depth, k2), OrElse(a1, depth, a2))
  {
    if a1.answers == [] {
      assert [] + a2.answers == a2.answers && [] + k2.answers == k2.answers;
    }
  }

  lemma {:induction false} SolutionsFollow(f: Frame, w: World, goal: nat, i: nat, s: State, depth: nat, k: Cont,
                                           a: Cont)
    requires CutsBack(f) && FollowsAll(f, k, a) && depth >= f.base
    ensures Follows(f, Solutions(w, goal, i, s, depth, k), Solutions(w, goal, i, s, depth, a))
    decreases w.solutions(goal, s.did) - i
  {
    hide CutsBack, OrElse;
    if i + 1 < w.solutions(goal, s.did) {
      SolutionsFollow(f, w, goal, i + 1, s, depth, k, a);
      OrElseFollows(f, depth, k(Done(s, goal, i), depth + 1), a(Done(s, goal, i), depth + 1),
                    Solutions(w, goal, i + 1, s, depth, k), Solutions(w, goal, i + 1, s, depth, a));
    }
  }

  /** What follows a goal and cuts back to its beginning goes on from the goal's first answer alone, if the goal's
      own cuts stay inside it. */
  lemma {:induction false} GoalFollows(f: Frame, w: World, g: Goal, s: State, depth: nat, to: nat, back: nat, k: Cont,
                                       a: Cont)
    requires CutsBack(f) && FollowsAll(f, k, a) && f.base <= depth && (g.IfThen? ==> f.base <= back)
    requires CutFree(g) || f.base <= to
    ensures Follows(f, Sem(w, g, s, depth, to, back, k), Sem(w, g, s, depth, to, back, a))
    decreases g, 1
  {
    hide CutsBack, FollowsAll, Follows, Solutions, OrElse;
    match g
    case Plain(goal) => SolutionsFollow(f, w, goal, 0, s, depth, k, a);
    case Cut => FollowsAt(f, k, a, s, Min(depth, to));
    case And(first, second) =>
      forall s': State, d: nat | d >= f.base ensures Follows(f, AndThen(w, second, to, k)(s', d),
          AndThen(w, second, to, a)(s', d)) {
        GoalFollows(f, w, second, s', d, to, d, k, a);
      }
      Collect(f, AndThen(w, second, to, k), AndThen(w, second, to, a));
      GoalFollows(f, w, first, s, depth, to, depth, AndThen(w, second, to, k), AndThen(w, second, to, a));
    case Or(_) => ArmsFollow(f, w, g, 0, s, depth, to, k, a);
    case IfThen(condition, t) =>
      forall s': State, d: nat | d >= f.base
        ensures Follows(f, Committing(w, t, to, back, k)(s', d), Committing(w, t, to, back, a)(s', d)) {
        GoalFollows(f, w, t, s', Min(d, back), to, Min(d, back), k, a);
      }
      Collect(f, Committing(w, t, to, back, k), Committing(w, t, to, back, a));
      GoalFollows(f, w, condition, s, depth, to, depth, Committing(w, t, to, back, k), Committing(w, t, to, back, a));
    case Not(negated) =>
      var refused := Sem(w, negated, s, depth + 1, depth + 1, depth + 1, Refusing(depth));
      RefusedSilent(f, w, negated, s, depth);
      SolutionsFollow(f, w, Succeed, 0, s, depth, k, a);
      OrElseFollows(f, depth, refused, refused, Solutions(w, Succeed, 0, s, depth, k),
          Solutions(w, Succeed, 0, s, depth, a));
  }

  lemma {:induction false} FollowsAt(f: Frame, k: Cont, a: Cont, s: State, d: nat)
    requires FollowsAll(f, k, a) && d >= f.base
    ensures Follows(f, k(s, d), a(s, d))
  {
  }

  lemma {:induction false} Collect(f: Frame, k: Cont, a: Cont)
    requires forall s: State, d: nat :: d >= f.base ==> Follows(f, k(s, d), a(s, d))
    ensures FollowsAll(f, k, a)
  {
  }

  /** A negated goal gives no answers, and cuts nothing away that was there before. */
  lemma {:induction false} RefusedSilent(f: Frame, w: World, g: Goal, s: State, depth: nat)
    requires f.base <= depth
    ensures var refused := Sem(w, g, s, depth + 1, depth + 1, depth + 1, Refusing(depth));
            refused.answers == [] && f.base <= refused.level && Follows(f, refused, refused)
    decreases g, 2
  {
    hide Sem;
    var silent := Frame(f.base, (st: State) => Outcome([], f.base));
    GoalFollows(silent, w, g, s, depth + 1, depth + 1, depth + 1, Refusing(depth), Refusing(depth));
  }

  lemma {:induction false} ArmsFollow(f: Frame, w: World, g: Goal, i: nat, s: State, depth: nat, to: nat, k: Cont,
                                      a: Cont)
    requires g.Or? && CutsBack(f) && FollowsAll(f, k, a) && f.base <= depth && (CutFree(g) || f.base <= to)
    ensures Follows(f, SemArms(w, g, i, s, depth, to, k), SemArms(w, g, i, s, depth, to, a))
    decreases g, 0, |g.arms| - i
  {
    hide CutsBack, FollowsAll, Sem, OrElse;
    if i < |g.arms| {
      GoalFollows(f, w, g.arms[i], s, depth, to, depth, k, a);
      GoalFollows(f, w, g.arms[i], s, depth + 1, to, depth, k, a);
      ArmsFollow(f, w, g, i + 1, s, depth, to, k, a);
      OrElseFollows(f, depth, Sem(w, g.arms[i], s, depth + 1, to, depth, k),
          Sem(w, g.arms[i], s, depth + 1, to, depth, a),
                    SemArms(w, g, i + 1, s, depth, to, k), SemArms(w, g, i + 1, s, depth, to, a));
    }
  }

  /** When a goal has nothing more to do, no more choice points are left than before it. */
  lemma {:induction false} SemSound(w: World, g: Goal, st: State, depth: nat, to: nat, back: nat, k: Cont)
    requires Sound(k)
    ensures Sem(w, g, st, depth, to, back, k).level <= depth
    decreases g, 1
  {
    hide Solutions;
    match g
    case Plain(goal) => SolutionsSound(w, goal, 0, st, depth, k);
    case Cut =>
    case And(first, second) =>
      forall s: State, d: nat ensures AndThen(w, second, to, k)(s, d).level <= d {
        SemSound(w, second, s, d, to, d, k);
      }
      SemSound(w, first, st, depth, to, depth, AndThen(w, second, to, k));
    case Or(_) => ArmsSound(w, g, 0, st, depth, to, k);
    case IfThen(condition, t) =>
      forall s: State, d: nat ensures Committing(w, t, to, back, k)(s, d).level <= d {
        SemSound(w, t, s, Min(d, back), to, Min(d, back), k);
      }
      SemSound(w, condition, st, depth, to, depth, Committing(w, t, to, back, k));
    case Not(_) => SolutionsSound(w, Succeed, 0, st, depth, k);
  }

  lemma {:induction false} ArmsSound(w: World, g: Goal, i: nat, st: State, depth: nat, to: nat, k: Cont)
    requires g.Or? && Sound(k)
    ensures SemArms(w, g, i, st, depth, to, k).level <= depth
    decreases g, 0, |g.arms| - i
  {
    hide Sound, Sem;
    if i < |g.arms| {
      SemSound(w, g.arms[i], st, depth, to, depth, k);
      SemSound(w, g.arms[i], st, depth + 1, to, depth, k);
      ArmsSound(w, g, i + 1, st, depth, to, k);
    }
  }

  /** The answers of a goal on its own. */
  function Alone(w: World, g: Goal, st: State, depth: nat, to: nat): seq<State>
  {
    Sem(w, g, st, depth, to, depth, Answer).answers
  }

  lemma {:induction false} AnswerSound()
    ensures Sound(Answer)
  {
  }

  /** An if-then goes on from the first answer of its condition, from where it goes back to, and fails if there is
      none. */
  lemma {:induction false} CommitsToFirst(w: World, condition: Goal, t: Goal, st: State, depth: nat, to: nat,
                                          back: nat, k: Cont)
    requires CutFree(condition) && Sound(k) && back <= depth
    ensures var answers := Alone(w, condition, st, depth, to);
            Sem(w, IfThen(condition, t), st, depth, to, back, k) ==
            if answers == [] then Outcome([], depth) else Sem(w, t, answers[0], back, to, back, k)
  {
    hide Sem, Sound, CutFree;
    var f := Frame(depth, (s: State) => Sem(w, t, s, back, to, back, k));
    var l := Committing(w, t, to, back, k);
    forall s: State ensures f.next(s).level <= f.base {
      SemSound(w, t, s, back, to, back, k);
    }
    forall s: State, d: nat | d >= f.base ensures Follows(f, l(s, d), Answer(s, d)) {
      assert Min(d, back) == back;
    }
    Collect(f, l, Answer);
    GoalFollows(f, w, condition, st, depth, to, depth, l, Answer);
    AnswerSound();
    SemSound(w, condition, st, depth, to, depth, Answer);
    IfThenIs(w, condition, t, st, depth, to, back, k);
  }

  lemma {:induction false} IfThenIs(w: World, condition: Goal, t: Goal, st: State, depth: nat, to: nat, back: nat,
                                    k: Cont)
    ensures Sem(w, IfThen(condition, t), st, depth, to, back, k) ==
            Sem(w, condition, st, depth, to, depth, Committing(w, t, to, back, k))
  {
  }

  /** (C -> T ; others): if the condition of an arm that is not the last has a solution, the disjunction means T
      after the first one, and nothing else; and if it has none, the disjunction means the other arms. */
  lemma {:induction false} IfThenElse(w: World, g: Goal, i: nat, st: State, depth: nat, to: nat, k: Cont)
    requires g.Or? && i + 1 < |g.arms| && g.arms[i].IfThen? && CutFree(g.arms[i].condition) && Sound(k)
    ensures var answers := Alone(w, g.arms[i].condition, st, depth + 1, to);
            SemArms(w, g, i, st, depth, to, k) ==
            if answers == [] then SemArms(w, g, i + 1, st, depth, to, k)
            else Sem(w, g.arms[i].consequence, answers[0], depth, to, depth, k)
  {
    hide Sem, Sound, CutFree, Alone;
    var arm := g.arms[i];
    CommitsToFirst(w, arm.condition, arm.consequence, st, depth + 1, to, depth, k);
    var answers := Alone(w, arm.condition, st, depth + 1, to);
    if answers == [] {
      NoAnswers(SemArms(w, g, i + 1, st, depth, to, k), depth);
    } else {
      SemSound(w, arm.consequence, answers[0], depth, to, depth, k);
    }
  }

  lemma {:induction false} NoAnswers(second: Outcome, depth: nat)
    ensures OrElse(Outcome([], depth + 1), depth, second) == second
  {
    assert [] + second.answers == second.answers;
  }

  /** A negation, whatever cuts are in it, fails if its goal has a solution, and succeeds once if it has none. */
  lemma {:induction false} Negation(w: World, g: Goal, st: State, depth: nat, to: nat, back: nat, k: Cont)
    requires Sound(k)
    ensures Sem(w, Not(g), st, depth, to, back, k) ==
            if Alone(w, g, st, depth + 1, depth + 1) == [] then Solutions(w, Succeed, 0, st, depth, k)
                else Outcome([], depth)
  {
    hide Sem, Sound;
    var f := Frame(depth + 1, (s: State) => Outcome([], depth));
    Collect(f, Refusing(depth), Answer);
    GoalFollows(f, w, g, st, depth + 1, depth + 1, depth + 1, Refusing(depth), Answer);
    AnswerSound();
    SemSound(w, g, st, depth + 1, depth + 1, depth + 1, Answer);
    NoAnswers(Solutions(w, Succeed, 0, st, depth, k), depth);
    NotIs(w, g, st, depth, to, back, k);
  }

  lemma {:induction false} NotIs(w: World, g: Goal, st: State, depth: nat, to: nat, back: nat, k: Cont)
    ensures Sem(w, Not(g), st, depth, to, back, k) ==
            OrElse(Sem(w, g, st, depth + 1, depth + 1, depth + 1, Refusing(depth)), depth,
                Solutions(w, Succeed, 0, st, depth, k))
  {
  }

  /** ( ! -> T ; others): the cut goes back to the clause's beginning, not to that of the condition. */
  lemma {:induction false} CutInCondition(w: World, g: Goal, i: nat, st: State, depth: nat, to: nat, k: Cont)
    requires g.Or? && i + 1 < |g.arms| && g.arms[i].IfThen? && g.arms[i].condition == Cut && to <= depth && Sound(k)
    ensures SemArms(w, g, i, st, depth, to, k) == Sem(w, g.arms[i].consequence, st, to, to, to, k)
  {
    hide Sound;
    var t := g.arms[i].consequence;
    assert g.arms[i] == IfThen(Cut, t) && Min(depth + 1, to) == to && Min(to, depth) == to;
    IfThenIs(w, Cut, t, st, depth + 1, to, depth, k);
    assert Sem(w, g.arms[i], st, depth + 1, to, depth, k) == Committing(w, t, to, depth, k)(st, to);
    SemSound(w, t, st, to, to, to, k);
  }

  // ----- bodies in chunks -----

  /** The body is what the goal is classified into, in any chunks. */
  predicate IsClassified(items: seq<ChunkedTerms>, g: Goal, cutVar: nat)
  {
    Apart(items) == Classify(g, 0, None, cutVar, false).items
  }

  /** (a -> b ; c) as the classifier divides it: a shares the chunk in which the choice point is noted, and b that of
      the cut. */
  lemma {:induction false} IfThenElseOfGoals(a: nat, b: nat, c: nat, cutVar: nat, branch: ChunkedTerms)
    requires branch.Branch? && |branch.arms| == 2 && branch.arms[1].items == [Chunk([Call(c)])]
    requires branch.arms[0].items == [Chunk([GetCutPoint(0, true), Call(a)]), Chunk([LocalCut(0, false), Call(b)])]
    ensures IsClassified([branch], Or([IfThen(Plain(a), Plain(b)), Plain(c)]), cutVar)
  {
    var g := Or([IfThen(Plain(a), Plain(b)), Plain(c)]);
    ApartTwo(branch);
    PairApart(GetCutPoint(0, true), Call(a), LocalCut(0, false), Call(b));
    SingleApart(Call(c));
    var first := Classify(g.arms[0], 0, None, cutVar, true);
    assert g.arms[0] == IfThen(Plain(a), Plain(b));
    assert Classify(Plain(a), 1, None, cutVar, false) == Classified(One(Call(a)), 1);
    assert Classify(Plain(b), 1, None, cutVar, false) == Classified(One(Call(b)), 1);
    assert first.items == One(GetCutPoint(0, true)) + (One(Call(a)) + (One(LocalCut(0, false)) + One(Call(b))));
    assert ClassifyArms(g, 0, 0, None, cutVar) == ClassifiedArms([], 0);
    assert ClassifyArms(g, 1, 0, None, cutVar).arms == [ArmOf(first.items)];
    assert ClassifyArms(g, 2, 0, None, cutVar).arms == [ArmOf(first.items), ArmOf(One(Call(c)))];
  }

  /** \+ a: the failure shares the chunk of the cut. */
  lemma {:induction false} NegationOfGoal(a: nat, cutVar: nat, branch: ChunkedTerms)
    requires branch.Branch? && |branch.arms| == 2 && branch.arms[1].items == [Chunk([Call(Succeed)])]
    requires branch.arms[0].items == [Chunk([GetCutPoint(0, false), Call(a)]), Chunk([LocalCut(0, true), Fail])]
    ensures IsClassified([branch], Not(Plain(a)), cutVar)
  {
    ApartTwo(branch);
    PairApart(GetCutPoint(0, false), Call(a), LocalCut(0, true), Fail);
    SingleApart(Call(Succeed));
  }

  lemma {:induction false} ApartTwo(branch: ChunkedTerms)
    requires branch.Branch? && |branch.arms| == 2
    ensures Apart([branch]) == [Branch([ArmOf(Apart(branch.arms[0].items)), ArmOf(Apart(branch.arms[1].items))])]
  {
    assert [branch][1..] == [] && Apart([]) == [];
    var x, y := ArmOf(Apart(branch.arms[0].items)), ArmOf(Apart(branch.arms[1].items));
    assert ApartArms(branch, 0) == [];
    assert ApartArms(branch, 1) == [x];
    assert ApartArms(branch, 2) == [x, y];
  }

  lemma {:induction false} PairApart(a: QueryTerm, b: QueryTerm, c: QueryTerm, d: QueryTerm)
    ensures Apart([Chunk([a, b]), Chunk([c, d])]) == One(a) + (One(b) + (One(c) + One(d)))
  {
    var first, second := Chunk([a, b]), Chunk([c, d]);
    assert [first, second][1..] == [second] && [second][1..] == [];
    TwoUnits(a, b);
    TwoUnits(c, d);
    assert Apart([second]) == Units([c, d]) + Apart([]);
  }

  lemma {:induction false} TwoUnits(a: QueryTerm, b: QueryTerm)
    ensures Units([a, b]) == One(a) + One(b)
  {
    assert [a, b][1..] == [b] && [b][1..] == [];
    assert Units([b]) == One(b) + Units([]);
  }

  lemma {:induction false} SingleApart(t: QueryTerm)
    ensures Apart([Chunk([t])]) == One(t)
  {
    assert [Chunk([t])][1..] == [] && [t][1..] == [];
    assert Units([t]) == One(t) + Units([]);
  }
}
