/**
 What a clause body means: its answers in order, with failing goals, goals with several solutions, and cuts.
 */
module BodyMeaning {
  import opened BodyTree
  import BranchNumbers

  /** A goal that was called, and which of its solutions was taken. */
  datatype Did = Did(goal: nat, solution: nat)

  /** What was done so far, and the choice points that were noted. A choice point is named by the height of the stack of
      choice points when it is on top. */
  datatype State = State(did: seq<Did>, levels: map<nat, nat>)

  /** How many solutions a goal has, given all that was done before; and the top choice point when the clause was
      called. */
  datatype World = World(solutions: (nat, seq<Did>) -> nat, b0: nat)

  /** The answers found until nothing more can be done here, and the choice point that is on top then. */
  datatype Outcome = Outcome(answers: seq<State>, level: nat)

  /** What is done after a success, in a state and under a number of choice points. */
  type Cont = (State, nat) -> Outcome

  /** A first alternative under a choice point put on top of `depth` others, and the second one: it is taken unless
      its choice point was cut away. */
  function OrElse(first: Outcome, depth: nat, second: Outcome): Outcome
  {
    if first.level <= depth then first else Outcome(first.answers + second.answers, second.level)
  }

  /** The choice point below a given one. */
  function Prev(level: nat): nat
  {
    if level == 0 then 0 else level - 1
  }

  function Min(a: nat, b: nat): nat
  {
    if a <= b then a else b
  }

  function Done(st: State, goal: nat, i: nat): State
  {
    st.(did := st.did + [Did(goal, i)])
  }

  /** The solutions of a goal from solution `i` on. All but the last leave a choice point. */
  function Solutions(w: World, goal: nat, i: nat, st: State, depth: nat, k: Cont): Outcome
    decreases w.solutions(goal, st.did) - i
  {
    var n := w.solutions(goal, st.did);
    if i >= n then Outcome([], depth)
    else if i + 1 == n then k(Done(st, goal, i), depth)
    else OrElse(k(Done(st, goal, i), depth + 1), depth, Solutions(w, goal, i + 1, st, depth, k))
  }

  /** Doing one query term, and then `k` after each success. */
  function DoTerm(w: World, t: QueryTerm, st: State, depth: nat, k: Cont): Outcome
  {
    match t
    case Call(goal) => Solutions(w, goal, 0, st, depth, k)
    case Fail => Outcome([], depth)
    case LocalCut(v, cutPrev) =>
      if v !in st.levels then Outcome([], depth)
      else k(st, Min(depth, if cutPrev then Prev(st.levels[v]) else st.levels[v]))
    case GlobalCut(_) => k(st, Min(depth, w.b0))
    case GetCutPoint(v, prevB) => k(st.(levels := st.levels[v := if prevB then Prev(depth) else depth]), depth)
    case GetLevel(v) => k(st.(levels := st.levels[v := w.b0]), depth)
  }

  // ----- bodies -----

  function TermsMeaning(w: World, terms: seq<QueryTerm>, st: State, depth: nat, k: Cont): Outcome
    decreases |terms|, 0
  {
    if terms == [] then k(st, depth) else DoTerm(w, terms[0], st, depth, ThenTerms(w, terms[1..], k))
  }

  function ThenTerms(w: World, terms: seq<QueryTerm>, k: Cont): Cont
    decreases |terms|, 1
  {
    (st: State, depth: nat) => TermsMeaning(w, terms, st, depth, k)
  }

  /** The items of a body, one after the other. */
  function Meaning(w: World, items: seq<ChunkedTerms>, st: State, depth: nat, k: Cont): Outcome
    decreases items, 0
  {
    if items == [] then k(st, depth) else ItemMeaning(w, items[0], st, depth, Then(w, items[1..], k))
  }

  function Then(w: World, items: seq<ChunkedTerms>, k: Cont): Cont
    decreases items, 1
  {
    (st: State, depth: nat) => Meaning(w, items, st, depth, k)
  }

  function ItemMeaning(w: World, item: ChunkedTerms, st: State, depth: nat, k: Cont): Outcome
    decreases item, 1
  {
    match item
    case Chunk(terms) => TermsMeaning(w, terms, st, depth, k)
    case Branch(_) => ArmsMeaning(w, item, 0, st, depth, k)
  }

  /** The arms of a disjunction from arm `i` on, in order. All but the last run under a choice point. */
  function ArmsMeaning(w: World, branch: ChunkedTerms, i: nat, st: State, depth: nat, k: Cont): Outcome
    requires branch.Branch?
    decreases branch, 0, |branch.arms| - i
  {
    if i >= |branch.arms| then Outcome([], depth)
    else if i + 1 == |branch.arms| then Meaning(w, branch.arms[i].items, st, depth, k)
    else OrElse(Meaning(w, branch.arms[i].items, st, depth + 1, k), depth, ArmsMeaning(w, branch, i + 1, st, depth, k))
  }

  /** Reporting an answer, and going on to the next. */
  function Answer(st: State, depth: nat): Outcome
  {
    Outcome([st], depth)
  }

  // ----- continuations that do the same -----

  ghost predicate Same(k: Cont, l: Cont)
  {
    forall st: State, depth: nat :: k(st, depth) == l(st, depth)
  }

  lemma {:induction false} SolutionsSame(w: World, goal: nat, i: nat, st: State, depth: nat, k: Cont, l: Cont)
    requires Same(k, l)
    ensures Solutions(w, goal, i, st, depth, k) == Solutions(w, goal, i, st, depth, l)
    decreases w.solutions(goal, st.did) - i
  {
    if i + 1 < w.solutions(goal, st.did) {
      SolutionsSame(w, goal, i + 1, st, depth, k, l);
    }
  }

  lemma {:induction false} DoTermSame(w: World, t: QueryTerm, st: State, depth: nat, k: Cont, l: Cont)
    requires Same(k, l)
    ensures DoTerm(w, t, st, depth, k) == DoTerm(w, t, st, depth, l)
  {
    if t.Call? {
      SolutionsSame(w, t.goal, 0, st, depth, k, l);
    }
  }

  lemma {:induction false} TermsSame(w: World, terms: seq<QueryTerm>, st: State, depth: nat, k: Cont, l: Cont)
    requires Same(k, l)
    ensures TermsMeaning(w, terms, st, depth, k) == TermsMeaning(w, terms, st, depth, l)
    decreases |terms|
  {
    hide DoTerm;
    if terms != [] {
      var rest := terms[1..];
      forall s: State, d: nat ensures ThenTerms(w, rest, k)(s, d) == ThenTerms(w, rest, l)(s, d) {
        TermsSame(w, rest, s, d, k, l);
      }
      DoTermSame(w, terms[0], st, depth, ThenTerms(w, rest, k), ThenTerms(w, rest, l));
    }
  }

  lemma {:induction false} MeaningSame(w: World, items: seq<ChunkedTerms>, st: State, depth: nat, k: Cont, l: Cont)
    requires Same(k, l)
    ensures Meaning(w, items, st, depth, k) == Meaning(w, items, st, depth, l)
    decreases items, 0
  {
    hide ItemMeaning;
    if items != [] {
      var rest := items[1..];
      forall s: State, d: nat ensures Then(w, rest, k)(s, d) == Then(w, rest, l)(s, d) {
        MeaningSame(w, rest, s, d, k, l);
      }
      ItemSame(w, items[0], st, depth, Then(w, rest, k), Then(w, rest, l));
    }
  }

  lemma {:induction false} ItemSame(w: World, item: ChunkedTerms, st: State, depth: nat, k: Cont, l: Cont)
    requires Same(k, l)
    ensures ItemMeaning(w, item, st, depth, k) == ItemMeaning(w, item, st, depth, l)
    decreases item, 1
  {
    hide Same;
    if item.Chunk? {
      TermsSame(w, item.terms, st, depth, k, l);
    } else {
      ArmsSame(w, item, 0, st, depth, k, l);
    }
  }

  lemma {:induction false} ArmsSame(w: World, branch: ChunkedTerms, i: nat, st: State, depth: nat, k: Cont, l: Cont)
    requires branch.Branch? && Same(k, l)
    ensures ArmsMeaning(w, branch, i, st, depth, k) == ArmsMeaning(w, branch, i, st, depth, l)
    decreases branch, 0, |branch.arms| - i
  {
    hide Same, Meaning;
    if i < |branch.arms| {
      MeaningSame(w, branch.arms[i].items, st, depth, k, l);
      MeaningSame(w, branch.arms[i].items, st, depth + 1, k, l);
      ArmsSame(w, branch, i + 1, st, depth, k, l);
    }
  }

  /** One body after another. */
  lemma {:induction false} MeaningSum(w: World, a: seq<ChunkedTerms>, b: seq<ChunkedTerms>, st: State, depth: nat,
                                      k: Cont)
    ensures Meaning(w, a + b, st, depth, k) == Meaning(w, a, st, depth, Then(w, b, k))
    decreases |a|
  {
    hide ItemMeaning;
    if a == [] {
      assert a + b == b;
    } else {
      assert (a + b)[1..] == a[1..] + b;
      var l := Then(w, b, k);
      forall s: State, d: nat ensures Then(w, a[1..] + b, k)(s, d) == Then(w, a[1..], l)(s, d) {
        MeaningSum(w, a[1..], b, s, d, k);
      }
      ItemSame(w, a[0], st, depth, Then(w, a[1..] + b, k), Then(w, a[1..], l));
    }
  }

  // ----- no choice points appear from nowhere -----

  ghost predicate Sound(k: Cont)
  {
    forall st: State, depth: nat :: k(st, depth).level <= depth
  }

  lemma {:induction false} SolutionsSound(w: World, goal: nat, i: nat, st: State, depth: nat, k: Cont)
    requires Sound(k)
    ensures Solutions(w, goal, i, st, depth, k).level <= depth
    decreases w.solutions(goal, st.did) - i
  {
    if i + 1 < w.solutions(goal, st.did) {
      SolutionsSound(w, goal, i + 1, st, depth, k);
    }
  }

  lemma {:induction false} DoTermSound(w: World, t: QueryTerm, st: State, depth: nat, k: Cont)
    requires Sound(k)
    ensures DoTerm(w, t, st, depth, k).level <= depth
  {
    if t.Call? {
      SolutionsSound(w, t.goal, 0, st, depth, k);
    }
  }

  lemma {:induction false} TermsSound(w: World, terms: seq<QueryTerm>, st: State, depth: nat, k: Cont)
    requires Sound(k)
    ensures TermsMeaning(w, terms, st, depth, k).level <= depth
    decreases |terms|
  {
    hide DoTerm;
    if terms != [] {
      var l := ThenTerms(w, terms[1..], k);
      forall s: State, d: nat ensures l(s, d).level <= d {
        TermsSound(w, terms[1..], s, d, k);
      }
      DoTermSound(w, terms[0], st, depth, l);
    }
  }

  /** When a body has nothing more to do, no more choice points are left than before it. */
  lemma {:induction false} MeaningSound(w: World, items: seq<ChunkedTerms>, st: State, depth: nat, k: Cont)
    requires Sound(k)
    ensures Meaning(w, items, st, depth, k).level <= depth
    decreases items, 0
  {
    hide ItemMeaning;
    if items != [] {
      var l := Then(w, items[1..], k);
      forall s: State, d: nat ensures l(s, d).level <= d {
        MeaningSound(w, items[1..], s, d, k);
      }
      ItemSound(w, items[0], st, depth, l);
    }
  }

  lemma {:induction false} ItemSound(w: World, item: ChunkedTerms, st: State, depth: nat, k: Cont)
    requires Sound(k)
    ensures ItemMeaning(w, item, st, depth, k).level <= depth
    decreases item, 1
  {
    hide Sound;
    if item.Chunk? {
      TermsSound(w, item.terms, st, depth, k);
    } else {
      ArmsSound(w, item, 0, st, depth, k);
    }
  }

  lemma {:induction false} ArmsSound(w: World, branch: ChunkedTerms, i: nat, st: State, depth: nat, k: Cont)
    requires branch.Branch? && Sound(k)
    ensures ArmsMeaning(w, branch, i, st, depth, k).level <= depth
    decreases branch, 0, |branch.arms| - i
  {
    hide Sound, Meaning;
    if i < |branch.arms| {
      MeaningSound(w, branch.arms[i].items, st, depth, k);
      ArmsSound(w, branch, i + 1, st, depth, k);
    }
  }

  /** How query terms are divided into chunks makes no difference. */
  lemma {:induction false} ChunksJoin(w: World, a: seq<QueryTerm>, b: seq<QueryTerm>, st: State, depth: nat, k: Cont)
    ensures TermsMeaning(w, a + b, st, depth, k) == TermsMeaning(w, a, st, depth, ThenTerms(w, b, k))
    decreases |a|
  {
    hide DoTerm;
    if a == [] {
      assert a + b == b;
    } else {
      assert (a + b)[1..] == a[1..] + b;
      var l := ThenTerms(w, b, k);
      forall s: State, d: nat ensures ThenTerms(w, a[1..] + b, k)(s, d) == ThenTerms(w, a[1..], l)(s, d) {
        ChunksJoin(w, a[1..], b, s, d, k);
      }
      DoTermSame(w, a[0], st, depth, ThenTerms(w, a[1..] + b, k), ThenTerms(w, a[1..], l));
    }
  }

  /** A chunk may be split wherever it stands in a body. */
  lemma {:induction false} ChunkSplits(w: World, before: seq<ChunkedTerms>, a: seq<QueryTerm>, b: seq<QueryTerm>,
                                       items: seq<ChunkedTerms>, st: State, depth: nat, k: Cont)
    ensures Meaning(w, before + ([Chunk(a + b)] + items), st, depth, k) ==
            Meaning(w, before + ([Chunk(a), Chunk(b)] + items), st, depth, k)
  {
    hide Meaning;
    var joined, split := [Chunk(a + b)] + items, [Chunk(a), Chunk(b)] + items;
    MeaningSum(w, before, joined, st, depth, k);
    MeaningSum(w, before, split, st, depth, k);
    forall s: State, d: nat ensures Then(w, joined, k)(s, d) == Then(w, split, k)(s, d) {
      FirstChunkSplits(w, a, b, items, s, d, k);
    }
    MeaningSame(w, before, st, depth, Then(w, joined, k), Then(w, split, k));
  }

  lemma {:induction false} FirstChunkSplits(w: World, a: seq<QueryTerm>, b: seq<QueryTerm>, items: seq<ChunkedTerms>,
                                            st: State, depth: nat, k: Cont)
    ensures Meaning(w, [Chunk(a + b)] + items, st, depth, k) == Meaning(w, [Chunk(a), Chunk(b)] + items, st, depth, k)
  {
    hide TermsMeaning;
    var joined, split, second := [Chunk(a + b)] + items, [Chunk(a), Chunk(b)] + items, [Chunk(b)] + items;
    var l := Then(w, items, k);
    assert joined[1..] == items && split[1..] == second && second[1..] == items;
    ChunksJoin(w, a, b, st, depth, l);
    forall s: State, d: nat ensures ThenTerms(w, b, l)(s, d) == Then(w, second, k)(s, d) {
      assert Meaning(w, second, s, d, k) == ItemMeaning(w, Chunk(b), s, d, l);
    }
    TermsSame(w, a, st, depth, ThenTerms(w, b, l), Then(w, second, k));
    assert Meaning(w, split, st, depth, k) == ItemMeaning(w, Chunk(a), st, depth, Then(w, second, k));
    assert Meaning(w, joined, st, depth, k) == ItemMeaning(w, Chunk(a + b), st, depth, l);
  }

  // ----- bodies without regard to chunks -----

  /** A chunk for each query term. */
  function Units(terms: seq<QueryTerm>): seq<ChunkedTerms>
  {
    if terms == [] then [] else [Chunk([terms[0]])] + Units(terms[1..])
  }

  /** A body with every chunk taken apart and without branch numbers. */
  function Apart(items: seq<ChunkedTerms>): seq<ChunkedTerms>
    decreases items, 1
  {
    if items == [] then []
    else
      var first := if items[0].Chunk? then Units(items[0].terms) else [Branch(ApartArms(items[0], |items[0].arms|))];
      first + Apart(items[1..])
  }

  /** The first `i` arms. */
  function ApartArms(branch: ChunkedTerms, i: nat): (r: seq<Arm>)
    requires branch.Branch? && i <= |branch.arms|
    ensures |r| == i
    decreases branch, 0, i
  {
    if i == 0 then []
    else ApartArms(branch, i - 1) + [Arm(BranchNumbers.Default, Apart(branch.arms[i - 1].items))]
  }

  lemma {:induction false} ApartArmAt(branch: ChunkedTerms, i: nat, n: nat)
    requires branch.Branch? && i < n <= |branch.arms|
    ensures ApartArms(branch, n)[i].items == Apart(branch.arms[i].items)
  {
    hide Apart;
    if i + 1 < n {
      ApartArmAt(branch, i, n - 1);
    }
  }

  lemma {:induction false} OneTerm(w: World, t: QueryTerm, items: seq<ChunkedTerms>, st: State, depth: nat, k: Cont)
    ensures Meaning(w, [Chunk([t])] + items, st, depth, k) == DoTerm(w, t, st, depth, Then(w, items, k))
  {
    hide DoTerm;
    var all := [Chunk([t])] + items;
    assert all[1..] == items && [t][1..] == [];
    var l := Then(w, items, k);
    assert Same(ThenTerms(w, [], l), l);
    DoTermSame(w, t, st, depth, ThenTerms(w, [], l), l);
  }

  lemma {:induction false} UnitsMean(w: World, terms: seq<QueryTerm>, items: seq<ChunkedTerms>, st: State, depth: nat,
                                     k: Cont)
    ensures Meaning(w, Units(terms) + items, st, depth, k) == TermsMeaning(w, terms, st, depth, Then(w, items, k))
    decreases |terms|
  {
    hide DoTerm, Meaning;
    if terms == [] {
      assert [] + items == items;
    } else {
      var rest, l := terms[1..], Then(w, items, k);
      assert ([Chunk([terms[0]])] + Units(rest)) + items == [Chunk([terms[0]])] + (Units(rest) + items);
      OneTerm(w, terms[0], Units(rest) + items, st, depth, k);
      forall s: State, d: nat ensures Then(w, Units(rest) + items, k)(s, d) == ThenTerms(w, rest, l)(s, d) {
        UnitsMean(w, rest, items, s, d, k);
      }
      DoTermSame(w, terms[0], st, depth, Then(w, Units(rest) + items, k), ThenTerms(w, rest, l));
    }
  }

  /** The division into chunks and the numbers of arms make no difference to what a body means. */
  lemma {:induction false} ApartMeans(w: World, items: seq<ChunkedTerms>, st: State, depth: nat, k: Cont)
    ensures Meaning(w, Apart(items), st, depth, k) == Meaning(w, items, st, depth, k)
    decreases items, 1
  {
    hide TermsMeaning, ItemMeaning, ApartArms;
    if items != [] {
      var first, rest := items[0], items[1..];
      forall s: State, d: nat ensures Then(w, Apart(rest), k)(s, d) == Then(w, rest, k)(s, d) {
        ApartMeans(w, rest, s, d, k);
      }
      ItemSame(w, first, st, depth, Then(w, Apart(rest), k), Then(w, rest, k));
      if first.Chunk? {
        UnitsMean(w, first.terms, Apart(rest), st, depth, k);
        ChunkIsTerms(w, first, st, depth, Then(w, Apart(rest), k));
      } else {
        var branch := Branch(ApartArms(first, |first.arms|));
        assert ([branch] + Apart(rest))[1..] == Apart(rest);
        ApartBranchMeans(w, first, st, depth, Then(w, Apart(rest), k));
      }
    }
  }

  lemma {:induction false} ChunkIsTerms(w: World, item: ChunkedTerms, st: State, depth: nat, k: Cont)
    requires item.Chunk?
    ensures ItemMeaning(w, item, st, depth, k) == TermsMeaning(w, item.terms, st, depth, k)
  {
  }

  lemma {:induction false} ApartBranchMeans(w: World, branch: ChunkedTerms, st: State, depth: nat, k: Cont)
    requires branch.Branch?
    ensures ItemMeaning(w, Branch(ApartArms(branch, |branch.arms|)), st, depth, k)
            == ItemMeaning(w, branch, st, depth, k)
    decreases branch, 1
  {
    hide ArmsMeaning, ApartArms;
    ApartArmsMean(w, branch, 0, st, depth, k);
  }

  lemma {:induction false} ApartArmsMean(w: World, branch: ChunkedTerms, i: nat, st: State, depth: nat, k: Cont)
    requires branch.Branch?
    ensures ArmsMeaning(w, Branch(ApartArms(branch, |branch.arms|)), i, st, depth, k)
            == ArmsMeaning(w, branch, i, st, depth, k)
    decreases branch, 0, |branch.arms| - i
  {
    hide Meaning, Apart, ApartArms;
    if i < |branch.arms| {
      ApartArmAt(branch, i, |branch.arms|);
      ApartMeans(w, branch.arms[i].items, st, depth, k);
      ApartMeans(w, branch.arms[i].items, st, depth + 1, k);
      ApartArmsMean(w, branch, i + 1, st, depth, k);
    }
  }
}
