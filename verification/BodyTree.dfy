/**
 A clause body as a tree of chunks and branches, and its linearisation.
 */
module BodyTree {
  import BranchNumbers

  /** A query term: a call, failure, cuts back to a choice point, and noting choice points to cut back to. */
  datatype QueryTerm =
    | Call(goal: nat)
    | Fail
    | LocalCut(v: nat, cutPrev: bool)
    | GlobalCut(v: nat)
    | GetCutPoint(v: nat, prevB: bool)
    | GetLevel(v: nat)

  /** A chunk of query terms, or a disjunction. An arm carries its branch number. */
  datatype ChunkedTerms = Chunk(terms: seq<QueryTerm>) | Branch(arms: seq<Arm>)

  datatype Arm = Arm(num: BranchNumbers.BranchNumber, items: seq<ChunkedTerms>)

  /** Chunks are not empty, disjunctions have arms, and no arm is empty. */
  predicate GoodItem(item: ChunkedTerms)
  {
    match item
    case Chunk(terms) => terms != []
    case Branch(arms) => |arms| >= 1 && forall i :: 0 <= i < |arms| ==> GoodArm(arms[i])
  }

  predicate GoodArm(arm: Arm)
  {
    GoodBody(arm.items)
  }

  predicate GoodBody(items: seq<ChunkedTerms>)
    decreases items, 1
  {
    items != [] && GoodItems(items)
  }

  predicate GoodItems(items: seq<ChunkedTerms>)
    decreases items, 0
  {
    forall i :: 0 <= i < |items| ==> GoodItem(items[i])
  }

  lemma {:induction false} ArmGood(branch: ChunkedTerms, i: nat)
    requires branch.Branch? && GoodItem(branch) && i < |branch.arms|
    ensures GoodBody(branch.arms[i].items) && GoodItems(branch.arms[i].items)
  {
    assert GoodArm(branch.arms[i]);
    assert GoodBody(branch.arms[i].items);
  }

  lemma {:induction false} ItemsGood(items: seq<ChunkedTerms>)
    requires GoodItems(items) && items != []
    ensures GoodItem(items[0]) && GoodItems(items[1..])
  {
  }

  /** Every disjunction has at least two arms. */
  predicate Forked(items: seq<ChunkedTerms>)
  {
    forall i :: 0 <= i < |items| ==> ForkedItem(items[i])
  }

  predicate ForkedItem(item: ChunkedTerms)
  {
    match item
    case Chunk(_) => true
    case Branch(arms) => |arms| >= 2 && forall i :: 0 <= i < |arms| ==> ForkedArm(arms[i])
  }

  predicate ForkedArm(arm: Arm)
  {
    Forked(arm.items)
  }

  // ----- linearisation -----

  /** One event of the linearisation; `tail` says that nothing follows it on its path. */
  datatype Event =
    | First(num: BranchNumbers.BranchNumber, arms: nat)
    | Next(num: BranchNumbers.BranchNumber)
    | End(tail: bool)
    | Do(terms: seq<QueryTerm>, tail: bool)

  /** The linearisation of a list of items; its last item is in tail position if the list is. */
  function Linear(items: seq<ChunkedTerms>, tail: bool): seq<Event>
  {
    if items == [] then []
    else LinearItem(items[0], tail && |items| == 1) + Linear(items[1..], tail)
  }

  function LinearItem(item: ChunkedTerms, tail: bool): seq<Event>
    decreases item
  {
    match item
    case Chunk(terms) => [Do(terms, tail)]
    case Branch(arms) => LinearArms(item, 0, tail) + [End(tail)]
  }

  /** The arms of a branch, from arm `from` on. */
  function LinearArms(branch: ChunkedTerms, from: nat, tail: bool): seq<Event>
    requires branch.Branch? && from <= |branch.arms|
    decreases branch, |branch.arms| - from
  {
    if from == |branch.arms| then []
    else [ArmEvent(branch, from)] + Linear(branch.arms[from].items, tail) + LinearArms(branch, from + 1, tail)
  }

  function ArmEvent(branch: ChunkedTerms, i: nat): Event
    requires branch.Branch? && i < |branch.arms|
  {
    if i == 0 then First(branch.arms[0].num, |branch.arms|) else Next(branch.arms[i].num)
  }

  lemma {:induction false} ArmsStep(branch: ChunkedTerms, focus: nat, tail: bool)
    requires branch.Branch? && focus < |branch.arms|
    ensures LinearArms(branch, focus, tail) ==
            [ArmEvent(branch, focus)] + Linear(branch.arms[focus].items, tail) + LinearArms(branch, focus + 1, tail)
  {
  }
}
