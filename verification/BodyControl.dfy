/**
 What bodies without cuts mean in plain terms: all solutions, in order.
 */
module BodyControl {
  import opened BodyTree
  import opened BodyMeaning

  // ----- bodies without cuts -----

  predicate CutFree(items: seq<ChunkedTerms>)
  {
    forall i :: 0 <= i < |items| ==> CutFreeItem(items[i])
  }

  predicate CutFreeItem(item: ChunkedTerms)
  {
    match item
    case Chunk(terms) => forall i :: 0 <= i < |terms| ==> terms[i].Call? || terms[i].Fail?
    case Branch(arms) => forall i :: 0 <= i < |arms| ==> CutFreeArm(arms[i])
  }

  predicate CutFreeArm(arm: Arm)
  {
    CutFree(arm.items)
  }

  lemma {:induction false} CutFreeStep(items: seq<ChunkedTerms>)
    requires CutFree(items) && items != []
    ensures CutFreeItem(items[0]) && CutFree(items[1..])
  {
  }

  /** The states in which a goal leaves, from solution `i` on. */
  function GoalExits(w: World, goal: nat, i: nat, st: State): seq<State>
    decreases w.solutions(goal, st.did) - i
  {
    if i >= w.solutions(goal, st.did) then [] else [Done(st, goal, i)] + GoalExits(w, goal, i + 1, st)
  }

  function TermsExits(w: World, terms: seq<QueryTerm>, st: State): seq<State>
    decreases |terms|, 0
  {
    if terms == [] then [st]
    else if terms[0].Call? then TermsAll(w, terms[1..], GoalExits(w, terms[0].goal, 0, st))
    else []
  }

  function TermsAll(w: World, terms: seq<QueryTerm>, sts: seq<State>): seq<State>
    decreases |terms|, 1, |sts|
  {
    if sts == [] then [] else TermsExits(w, terms, sts[0]) + TermsAll(w, terms, sts[1..])
  }

  /** The states in which a body leaves, in order: each item is done from every state in which the one before left. */
  function Exits(w: World, items: seq<ChunkedTerms>, st: State): seq<State>
    decreases items, 1
  {
    if items == [] then [st] else ExitsAll(w, items[1..], ItemExits(w, items[0], st))
  }

  function ExitsAll(w: World, items: seq<ChunkedTerms>, sts: seq<State>): seq<State>
    decreases items, 2, |sts|
  {
    if sts == [] then [] else Exits(w, items, sts[0]) + ExitsAll(w, items, sts[1..])
  }

  function ItemExits(w: World, item: ChunkedTerms, st: State): seq<State>
    decreases item, 1
  {
    match item
    case Chunk(terms) => TermsExits(w, terms, st)
    case Branch(_) => ArmsExits(w, item, 0, st)
  }

  function ArmsExits(w: World, branch: ChunkedTerms, i: nat, st: State): seq<State>
    requires branch.Branch?
    decreases branch, 0, |branch.arms| - i
  {
    if i >= |branch.arms| then [] else Exits(w, branch.arms[i].items, st) + ArmsExits(w, branch, i + 1, st)
  }

  // ----- what follows a body -----

  /** The answers of going on from each of several states in turn. */
  function Each(sts: seq<State>, e: State -> seq<State>): seq<State>
  {
    if sts == [] then [] else e(sts[0]) + Each(sts[1..], e)
  }

  /** The continuation gives the answers `e`, whatever choice points lie under it, and leaves them. */
  ghost predicate Plain(k: Cont, e: State -> seq<State>)
  {
    forall st: State, d: nat :: k(st, d) == Outcome(e(st), d)
  }

  lemma {:induction false} EachSum(a: seq<State>, b: seq<State>, e: State -> seq<State>)
    ensures Each(a + b, e) == Each(a, e) + Each(b, e)
  {
    if a == [] {
      assert a + b == b;
    } else {
      assert (a + b)[1..] == a[1..] + b;
      EachSum(a[1..], b, e);
    }
  }

  lemma {:induction false} EachOne(st: State, e: State -> seq<State>)
    ensures Each([st], e) == e(st)
  {
    assert [st][1..] == [];
    assert e(st) + [] == e(st);
  }

  // ----- the meaning of bodies without cuts -----

  function AfterTerms(w: World, terms: seq<QueryTerm>, e: State -> seq<State>): State -> seq<State>
  {
    (st: State) => Each(TermsExits(w, terms, st), e)
  }

  function AfterItems(w: World, items: seq<ChunkedTerms>, e: State -> seq<State>): State -> seq<State>
  {
    (st: State) => Each(Exits(w, items, st), e)
  }

  lemma {:induction false} EachTerms(w: World, terms: seq<QueryTerm>, sts: seq<State>, e: State -> seq<State>)
    ensures Each(TermsAll(w, terms, sts), e) == Each(sts, AfterTerms(w, terms, e))
    decreases |sts|
  {
    hide TermsExits;
    if sts != [] {
      EachTerms(w, terms, sts[1..], e);
      EachSum(TermsExits(w, terms, sts[0]), TermsAll(w, terms, sts[1..]), e);
    }
  }

  lemma {:induction false} EachItems(w: World, items: seq<ChunkedTerms>, sts: seq<State>, e: State -> seq<State>)
    ensures Each(ExitsAll(w, items, sts), e) == Each(sts, AfterItems(w, items, e))
    decreases |sts|
  {
    hide Exits;
    if sts != [] {
      EachItems(w, items, sts[1..], e);
      EachSum(Exits(w, items, sts[0]), ExitsAll(w, items, sts[1..]), e);
    }
  }

  /** A goal goes on from each of its solutions in turn. */
  lemma {:induction false} GoalMeans(w: World, goal: nat, i: nat, st: State, depth: nat, k: Cont,
                                     e: State -> seq<State>)
    requires Plain(k, e)
    ensures Solutions(w, goal, i, st, depth, k) == Outcome(Each(GoalExits(w, goal, i, st), e), depth)
    decreases w.solutions(goal, st.did) - i
  {
    if i < w.solutions(goal, st.did) {
      var first, others := Done(st, goal, i), GoalExits(w, goal, i + 1, st);
      assert GoalExits(w, goal, i, st)[1..] == others;
      if i + 1 == w.solutions(goal, st.did) {
        EachOne(first, e);
      } else {
        GoalMeans(w, goal, i + 1, st, depth, k, e);
      }
    }
  }

  lemma {:induction false} TermsMean(w: World, terms: seq<QueryTerm>, st: State, depth: nat, k: Cont,
                                     e: State -> seq<State>)
    requires Plain(k, e) && forall i :: 0 <= i < |terms| ==> terms[i].Call? || terms[i].Fail?
    ensures TermsMeaning(w, terms, st, depth, k) == Outcome(Each(TermsExits(w, terms, st), e), depth)
    decreases |terms|
  {
    if terms == [] {
      EachOne(st, e);
    } else if terms[0].Call? {
      hide TermsMeaning, TermsExits, Each, GoalExits, Solutions;
      var rest := terms[1..];
      forall s: State, d: nat ensures ThenTerms(w, rest, k)(s, d) == Outcome(AfterTerms(w, rest, e)(s), d) {
        TermsMean(w, rest, s, d, k, e);
      }
      GoalMeans(w, terms[0].goal, 0, st, depth, ThenTerms(w, rest, k), AfterTerms(w, rest, e));
      EachTerms(w, rest, GoalExits(w, terms[0].goal, 0, st), e);
      CallFirst(w, terms, st, depth, k);
    }
  }

  lemma {:induction false} CallFirst(w: World, terms: seq<QueryTerm>, st: State, depth: nat, k: Cont)
    requires terms != [] && terms[0].Call?
    ensures TermsMeaning(w, terms, st, depth, k)
            == Solutions(w, terms[0].goal, 0, st, depth, ThenTerms(w, terms[1..], k))
    ensures TermsExits(w, terms, st) == TermsAll(w, terms[1..], GoalExits(w, terms[0].goal, 0, st))
  {
  }

  /** A body without cuts goes on from each of its exits in turn. */
  lemma {:induction false} ItemsMean(w: World, items: seq<ChunkedTerms>, st: State, depth: nat, k: Cont,
                                     e: State -> seq<State>)
    requires CutFree(items) && Plain(k, e)
    ensures Meaning(w, items, st, depth, k) == Outcome(Each(Exits(w, items, st), e), depth)
    decreases items, 1
  {
    hide CutFree, CutFreeItem, ItemMeaning, ItemExits;
    if items == [] {
      EachOne(st, e);
    } else {
      var rest := items[1..];
      CutFreeStep(items);
      forall s: State, d: nat ensures Then(w, rest, k)(s, d) == Outcome(AfterItems(w, rest, e)(s), d) {
        ItemsMean(w, rest, s, d, k, e);
      }
      ItemMeans(w, items[0], st, depth, Then(w, rest, k), AfterItems(w, rest, e));
      EachItems(w, rest, ItemExits(w, items[0], st), e);
    }
  }

  lemma {:induction false} ItemMeans(w: World, item: ChunkedTerms, st: State, depth: nat, k: Cont,
                                     e: State -> seq<State>)
    requires CutFreeItem(item) && Plain(k, e)
    ensures ItemMeaning(w, item, st, depth, k) == Outcome(Each(ItemExits(w, item, st), e), depth)
    decreases item, 1
  {
    hide Plain, Each;
    if item.Chunk? {
      TermsMean(w, item.terms, st, depth, k, e);
    } else {
      ArmsMean(w, item, 0, st, depth, k, e);
    }
  }

  lemma {:induction false} ArmsMean(w: World, branch: ChunkedTerms, i: nat, st: State, depth: nat, k: Cont,
                                    e: State -> seq<State>)
    requires branch.Branch? && CutFreeItem(branch) && Plain(k, e)
    ensures ArmsMeaning(w, branch, i, st, depth, k) == Outcome(Each(ArmsExits(w, branch, i, st), e), depth)
    decreases branch, 0, |branch.arms| - i
  {
    hide Plain, Exits, Meaning, CutFree;
    if i < |branch.arms| {
      var items := branch.arms[i].items;
      var others := ArmsExits(w, branch, i + 1, st);
      assert CutFreeArm(branch.arms[i]);
      EachSum(Exits(w, items, st), others, e);
      if i + 1 == |branch.arms| {
        ItemsMean(w, items, st, depth, k, e);
        assert others == [];
      } else {
        ItemsMean(w, items, st, depth + 1, k, e);
        ArmsMean(w, branch, i + 1, st, depth, k, e);
      }
    }
  }

  /** Without cuts the answers of a body are all its exits, in order, and no choice point under it is lost. */
  lemma {:induction false} CutFreeAnswers(w: World, items: seq<ChunkedTerms>, st: State, depth: nat)
    requires CutFree(items)
    ensures Meaning(w, items, st, depth, Answer) == Outcome(Exits(w, items, st), depth)
  {
    hide Meaning, Exits, CutFree;
    var e := (s: State) => [s];
    ItemsMean(w, items, st, depth, Answer, e);
    EachAnswer(Exits(w, items, st), e);
  }

  lemma {:induction false} EachAnswer(sts: seq<State>, e: State -> seq<State>)
    requires forall s :: e(s) == [s]
    ensures Each(sts, e) == sts
  {
    if sts != [] {
      EachAnswer(sts[1..], e);
    }
  }
}
