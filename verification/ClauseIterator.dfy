/**
 The iterator over a clause body: it flattens the tree without recursion and keeps
 track of tail position.
 */
module ClauseIterator {
  import opened BodyTree
  import BranchNumbers
  import opened Options

  datatype ClauseItem =
    | FirstBranch(num: BranchNumbers.BranchNumber, numBranches: nat)
    | NextBranch(num: BranchNumbers.BranchNumber)
    | BranchEnd(depth: nat)
    | ChunkItem(terms: seq<QueryTerm>)

  datatype State =
    | RemainingChunks(chunks: seq<ChunkedTerms>, focus: nat)
    | RemainingBranches(branch: ChunkedTerms, focus: nat)

  function StateFromChunkedTerms(items: seq<ChunkedTerms>): State
  {
    if |items| == 1 && items[0].Branch? then RemainingBranches(items[0], 0) else RemainingChunks(items, 0)
  }

  // ----- what is left to emit -----

  predicate GoodState(state: State)
  {
    match state
    case RemainingChunks(chunks, focus) => GoodBody(chunks) && focus < |chunks|
    case RemainingBranches(branch, focus) => branch.Branch? && GoodItem(branch) && focus <= |branch.arms|
  }

  predicate GoodStack(stack: seq<State>)
  {
    forall i :: 0 <= i < |stack| ==> GoodState(stack[i])
  }

  /** How many states have chunks left to run after what is on top of them. */
  function Waiting(stack: seq<State>): nat
  {
    if stack == [] then 0
    else Waiting(stack[..|stack| - 1]) + if stack[|stack| - 1].RemainingChunks? then 1 else 0
  }

  function Finished(state: State): bool
    requires GoodState(state)
  {
    state.RemainingBranches? && state.focus == |state.branch.arms|
  }

  /** The events one state still stands for. */
  function StateRest(state: State, tail: bool): seq<Event>
    requires GoodState(state)
  {
    match state
    case RemainingChunks(chunks, focus) => Linear(chunks[focus..], tail)
    case RemainingBranches(branch, focus) => LinearArms(branch, focus, tail) + [End(tail)]
  }

  /** The events a stack still stands for: the top state first, in tail position if no chunks wait below. */
  function Rest(stack: seq<State>): seq<Event>
    requires GoodStack(stack)
  {
    if stack == [] then []
    else
      var below := stack[..|stack| - 1];
      StateRest(stack[|stack| - 1], Waiting(below) == 0) + Rest(below)
  }

  /** The events an item stands for: a branch end stands for the ends of all branches it closes. */
  function Expanded(item: ClauseItem, tail: bool): seq<Event>
  {
    match item
    case FirstBranch(num, n) => [First(num, n)]
    case NextBranch(num) => [Next(num)]
    case BranchEnd(depth) => seq(depth, i => End(tail))
    case ChunkItem(terms) => [Do(terms, tail)]
  }

  lemma {:induction false} Push(stack: seq<State>, state: State)
    requires GoodStack(stack) && GoodState(state)
    ensures GoodStack(stack + [state])
    ensures Rest(stack + [state]) == StateRest(state, Waiting(stack) == 0) + Rest(stack)
    ensures Waiting(stack + [state]) == Waiting(stack) + if state.RemainingChunks? then 1 else 0
  {
    assert (stack + [state])[..|stack|] == stack;
  }

  /** An arm is entered the same way whichever state it is represented by. */
  lemma {:induction false} EnterBody(items: seq<ChunkedTerms>, tail: bool)
    requires GoodBody(items)
    ensures GoodState(StateFromChunkedTerms(items))
    ensures StateRest(StateFromChunkedTerms(items), tail) == Linear(items, tail)
  {
    if |items| == 1 && items[0].Branch? {
      assert items[1..] == [];
      assert Linear(items, tail) == LinearItem(items[0], tail) + [];
    } else {
      assert items[0..] == items;
    }
  }

  function Below(stack: seq<State>): seq<State>
    requires stack != []
  {
    stack[..|stack| - 1]
  }

  function Top(stack: seq<State>): State
    requires stack != []
  {
    stack[|stack| - 1]
  }

  lemma {:induction false} Unstack(stack: seq<State>)
    requires GoodStack(stack) && stack != []
    ensures GoodStack(Below(stack)) && GoodState(Top(stack))
    ensures Rest(stack) == StateRest(Top(stack), Waiting(Below(stack)) == 0) + Rest(Below(stack))
    ensures Waiting(stack) == Waiting(Below(stack)) + if Top(stack).RemainingChunks? then 1 else 0
  {
    hide Linear, LinearArms, GoodState;
  }

  lemma {:induction false} LinearStep(chunks: seq<ChunkedTerms>, focus: nat, tail: bool)
    requires focus < |chunks|
    ensures Linear(chunks[focus..], tail) ==
            LinearItem(chunks[focus], tail && focus + 1 == |chunks|) + Linear(chunks[focus + 1..], tail)
    ensures focus + 1 == |chunks| ==> Linear(chunks[focus + 1..], tail) == []
  {
    hide LinearItem;
    assert chunks[focus..][1..] == chunks[focus + 1..];
  }

  /** The stack after the top state's current chunk is taken off. */
  function AfterChunk(stack: seq<State>): seq<State>
    requires stack != [] && Top(stack).RemainingChunks?
  {
    var RemainingChunks(chunks, focus) := Top(stack);
    if focus + 1 < |chunks| then Below(stack) + [RemainingChunks(chunks, focus + 1)] else Below(stack)
  }

  lemma {:induction false} TakeChunk(stack: seq<State>)
    requires GoodStack(stack) && stack != [] && Top(stack).RemainingChunks?
    ensures var after := AfterChunk(stack);
            && GoodStack(after)
            && Rest(stack) == LinearItem(Top(stack).chunks[Top(stack).focus], Waiting(after) == 0) + Rest(after)
            && Waiting(stack) == Waiting(Below(stack)) + 1
            && Waiting(after) == if Top(stack).focus + 1 < |Top(stack).chunks| then Waiting(stack)
                else Waiting(stack) - 1
  {
    hide Rest, Waiting, Linear, LinearItem, LinearArms, GoodBody, GoodItem;
    var RemainingChunks(chunks, focus) := Top(stack);
    var below, after := Below(stack), AfterChunk(stack);
    Unstack(stack);
    var tail := Waiting(below) == 0;
    LinearStep(chunks, focus, tail);
    if focus + 1 < |chunks| {
      Push(below, RemainingChunks(chunks, focus + 1));
    }
  }

  /** The stack after an arm is entered. */
  function InArm(stack: seq<State>): seq<State>
    requires stack != [] && Top(stack).RemainingBranches? && Top(stack).branch.Branch?
            && Top(stack).focus < |Top(stack).branch.arms|
  {
    var RemainingBranches(branch, focus) := Top(stack);
    Below(stack) + [RemainingBranches(branch, focus + 1)] + [StateFromChunkedTerms(branch.arms[focus].items)]
  }

  lemma {:induction false} TakeArm(stack: seq<State>)
    requires GoodStack(stack) && stack != [] && Top(stack).RemainingBranches? && !Finished(Top(stack))
    ensures var after := InArm(stack);
            && GoodStack(after)
            && Rest(stack) == [ArmEvent(Top(stack).branch, Top(stack).focus)] + Rest(after)
            && Waiting(after) == Waiting(stack) + if Top(after).RemainingChunks? then 1 else 0
  {
    hide Rest, Waiting, Linear, LinearItem, LinearArms, GoodBody, ArmEvent, StateFromChunkedTerms;
    var RemainingBranches(branch, focus) := Top(stack);
    var below, next := Below(stack), RemainingBranches(branch, focus + 1);
    Unstack(stack);
    var tail, arm := Waiting(below) == 0, branch.arms[focus];
    ArmGood(branch, focus);
    ArmsStep(branch, focus, tail);
    Push(below, next);
    EnterBody(arm.items, tail);
    Push(below + [next], StateFromChunkedTerms(arm.items));
    var event, body, others := [ArmEvent(branch, focus)], Linear(arm.items, tail), LinearArms(branch, focus + 1, tail);
    Regroup(event, body, others, [End(tail)], Rest(below));
  }

  lemma {:induction false} Regroup(a: seq<Event>, b: seq<Event>, c: seq<Event>, d: seq<Event>, e: seq<Event>)
    ensures ((a + b + c) + d) + e == a + (b + ((c + d) + e))
  {
  }

  lemma {:induction false} TakeEnd(stack: seq<State>)
    requires GoodStack(stack) && stack != [] && Finished(Top(stack))
    ensures GoodStack(Below(stack)) && Waiting(Below(stack)) == Waiting(stack)
    ensures Rest(stack) == [End(Waiting(stack) == 0)] + Rest(Below(stack))
  {
    var state := Top(stack);
    assert LinearArms(state.branch, state.focus, Waiting(stack) == 0) == [];
  }

  lemma {:induction false} OneMoreEnd(depth: nat, tail: bool)
    ensures Expanded(BranchEnd(depth + 1), tail) == Expanded(BranchEnd(depth), tail) + [End(tail)]
  {
  }

  /** What is left starts with something other than a branch end unless the top branch is finished. */
  lemma {:induction false} NotAtEnd(stack: seq<State>)
    requires GoodStack(stack) && stack != [] && !Finished(Top(stack))
    ensures Rest(stack) != [] && !Rest(stack)[0].End?
  {
    hide Rest, Waiting, Linear, LinearArms, GoodBody, InArm, AfterChunk;
    if Top(stack).RemainingBranches? {
      TakeArm(stack);
    } else {
      TakeChunk(stack);
      var item := Top(stack).chunks[Top(stack).focus];
      assert GoodItem(item) by { ItemGood(Top(stack).chunks, Top(stack).focus); }
      if item.Branch? {
        ArmsStep(item, 0, Waiting(AfterChunk(stack)) == 0);
      }
    }
  }

  lemma {:induction false} ItemGood(items: seq<ChunkedTerms>, i: nat)
    requires GoodBody(items) && i < |items|
    ensures GoodItem(items[i])
  {
  }

  class Iterator {
    var stateStack: seq<State>
    var remainingChunksOnStack: nat

    /** The counter says how many states have chunks waiting. */
    ghost predicate Valid()
      reads this
    {
      GoodStack(stateStack) && remainingChunksOnStack == Waiting(stateStack)
    }

    constructor (items: seq<ChunkedTerms>)
      requires GoodBody(items)
      ensures Valid() && Rest(stateStack) == Linear(items, true)
    {
      var state := StateFromChunkedTerms(items);
      stateStack := [state];
      remainingChunksOnStack := if state.RemainingBranches? then 0 else 1;
      new;
      EnterBody(items, true);
      Push([], state);
      assert [] + [state] == [state];
    }

    function InTailPosition(): (r: bool)
      reads this
      ensures Valid() ==> (r <==> Waiting(stateStack) == 0)
    {
      remainingChunksOnStack == 0
    }

    /** Closes the branches that are finished together with the one just popped. */
    method BranchEndDepth() returns (depth: nat)
      requires Valid()
      modifies this`stateStack
      ensures Valid() && depth >= 1
      ensures [End(InTailPosition())] + old(Rest(stateStack)) == Expanded(BranchEnd(depth), InTailPosition())
              + Rest(stateStack)
      ensures stateStack == [] || !Finished(Top(stateStack))
    {
      hide Rest, Waiting, Expanded;
      depth := 1;
      ghost var rest := Rest(stateStack);
      ghost var tail := InTailPosition();
      OneEnd(tail);
      while stateStack != []
        invariant Valid() && depth >= 1
        invariant [End(tail)] + rest == Expanded(BranchEnd(depth), tail) + Rest(stateStack)
        decreases |stateStack|
      {
        var state := Top(stateStack);
        if state.RemainingBranches? && |state.branch.arms| == state.focus {
          TakeEnd(stateStack);
          OneMoreEnd(depth, tail);
          stateStack := Below(stateStack);
          depth := depth + 1;
        } else {
          break;
        }
      }
    }

    /** Emits the next item: its events are taken off what is left to emit, and a branch end closes
        every branch that ends there. */
    method Advance() returns (item: Option<ClauseItem>)
      requires Valid()
      modifies this
      ensures Valid()
      ensures item.None? ==> old(Rest(stateStack)) == Rest(stateStack) == []
      ensures item.Some? ==> old(Rest(stateStack)) == Expanded(item.value, InTailPosition()) + Rest(stateStack)
      ensures item.Some? && item.value.BranchEnd? ==>
                item.value.depth >= 1 && (Rest(stateStack) == [] || !Rest(stateStack)[0].End?)
    {
      hide Rest, Waiting, LinearArms;
      while stateStack != []
        invariant Valid() && Rest(stateStack) == old(Rest(stateStack))
        decreases if stateStack == [] then 0 else if Top(stateStack).RemainingBranches? then 1 else 2
      {
        var state := Top(stateStack);
        if state.RemainingChunks? {
          TakeChunk(stateStack);
          var current := state.chunks[state.focus];
          if state.focus + 1 >= |state.chunks| {
            remainingChunksOnStack := remainingChunksOnStack - 1;
          }
          stateStack := AfterChunk(stateStack);
          if current.Chunk? {
            return Some(ChunkItem(current.terms));
          }
          ItemGood(state.chunks, state.focus);
          Push(stateStack, RemainingBranches(current, 0));
          stateStack := stateStack + [RemainingBranches(current, 0)];
        } else if state.focus < |state.branch.arms| {
          TakeArm(stateStack);
          stateStack := InArm(stateStack);
          if Top(stateStack).RemainingChunks? {
            remainingChunksOnStack := remainingChunksOnStack + 1;
          }
          return Some(if state.focus == 0 then FirstBranch(state.branch.arms[0].num, |state.branch.arms|)
                      else NextBranch(state.branch.arms[state.focus].num));
        } else {
          TakeEnd(stateStack);
          stateStack := Below(stateStack);
          var depth := BranchEndDepth();
          if stateStack != [] { NotAtEnd(stateStack); } else { NothingLeft(); }
          return Some(BranchEnd(depth));
        }
      }
      NothingLeft();
      item := None;
    }
  }

  lemma {:induction false} NothingLeft()
    ensures Rest([]) == []
  {
  }

  lemma {:induction false} OneEnd(tail: bool)
    ensures Expanded(BranchEnd(1), tail) == [End(tail)]
  {
  }

  // ----- a whole iteration -----

  /** An item, with the tail position the iterator reports right after it. */
  datatype Emission = Emission(item: ClauseItem, tail: bool)

  function Flattened(es: seq<Emission>): seq<Event>
  {
    if es == [] then []
    else Flattened(es[..|es| - 1]) + Expanded(es[|es| - 1].item, es[|es| - 1].tail)
  }

  function FirstBranches(es: seq<Emission>): nat
  {
    if es == [] then 0 else FirstBranches(es[..|es| - 1]) + if es[|es| - 1].item.FirstBranch? then 1 else 0
  }

  function Depths(es: seq<Emission>): nat
  {
    if es == [] then 0
    else Depths(es[..|es| - 1]) + if es[|es| - 1].item.BranchEnd? then es[|es| - 1].item.depth else 0
  }

  /** Branches opened minus branches closed. */
  function Open(events: seq<Event>): int
  {
    if events == [] then 0
    else Open(events[..|events| - 1]) + match events[|events| - 1]
      case First(_, _) => 1
      case End(_) => -1
      case _ => 0
  }

  lemma {:induction false} OpenConcat(a: seq<Event>, b: seq<Event>)
    ensures Open(a + b) == Open(a) + Open(b)
  {
    if b == [] {
      assert a + b == a;
    } else {
      assert (a + b)[..|a + b| - 1] == a + b[..|b| - 1];
      OpenConcat(a, b[..|b| - 1]);
    }
  }

  /** Every branch that is opened is closed. */
  lemma {:induction false} LinearCloses(items: seq<ChunkedTerms>, tail: bool)
    requires GoodItems(items)
    ensures Open(Linear(items, tail)) == 0
    decreases items, 0
  {
    if items != [] {
      ItemsGood(items);
      LinearItemCloses(items[0], tail && |items| == 1);
      LinearCloses(items[1..], tail);
      OpenConcat(LinearItem(items[0], tail && |items| == 1), Linear(items[1..], tail));
    }
  }

  lemma {:induction false} LinearItemCloses(item: ChunkedTerms, tail: bool)
    requires GoodItem(item)
    ensures Open(LinearItem(item, tail)) == 0
    decreases item
  {
    if item.Branch? {
      LinearArmsOpen(item, 0, tail);
      OpenConcat(LinearArms(item, 0, tail), [End(tail)]);
      OpenOne(End(tail));
    } else {
      OpenOne(Do(item.terms, tail));
    }
  }

  lemma {:induction false} OpenOne(e: Event)
    ensures Open([e]) == match e case First(_, _) => 1 case End(_) => -1 case _ => 0
  {
    assert [e][..0] == [];
  }

  lemma {:induction false} LinearArmsOpen(branch: ChunkedTerms, from: nat, tail: bool)
    requires branch.Branch? && GoodItem(branch) && from <= |branch.arms|
    ensures Open(LinearArms(branch, from, tail)) == if from == 0 then 1 else 0
    decreases branch, |branch.arms| - from
  {
    hide Linear, Open;
    if from < |branch.arms| {
      ArmGood(branch, from);
      var event, body, others := [ArmEvent(branch, from)], Linear(branch.arms[from].items, tail),
          LinearArms(branch, from + 1, tail);
      LinearCloses(branch.arms[from].items, tail);
      LinearArmsOpen(branch, from + 1, tail);
      OpenConcat(event + body, others);
      OpenConcat(event, body);
      OpenOne(ArmEvent(branch, from));
    } else {
      OpenNothing();
    }
  }

  lemma {:induction false} OpenNothing()
    ensures Open([]) == 0
  {
  }

  lemma {:induction false} EndsOpen(depth: nat, tail: bool)
    ensures Open(Expanded(BranchEnd(depth), tail)) == 0 - depth
  {
    if depth > 0 {
      EndsOpen(depth - 1, tail);
      OneMoreEnd(depth - 1, tail);
      OpenConcat(Expanded(BranchEnd(depth - 1), tail), [End(tail)]);
      OpenOne(End(tail));
    }
  }

  /** The depths of the branch ends add up to the branches opened so far but for those still open. */
  lemma {:induction false} OpenFlattened(es: seq<Emission>)
    ensures Open(Flattened(es)) == FirstBranches(es) - Depths(es)
  {
    hide Open;
    if es == [] {
      OpenNothing();
    } else {
      var e := es[|es| - 1];
      OpenFlattened(es[..|es| - 1]);
      OpenConcat(Flattened(es[..|es| - 1]), Expanded(e.item, e.tail));
      if e.item.BranchEnd? {
        EndsOpen(e.item.depth, e.tail);
      } else {
        OpenOne(Expanded(e.item, e.tail)[0]);
      }
    }
  }

  /** Branches that end together are closed by one item. */
  predicate EndsMerged(es: seq<Emission>)
  {
    forall i :: 0 < i < |es| ==> !EndsTwice(es, i)
  }

  predicate EndsTwice(es: seq<Emission>, i: nat)
    requires 0 < i < |es|
  {
    es[i - 1].item.BranchEnd? && es[i].item.BranchEnd?
  }

  lemma {:induction false} FlattenedNext(es: seq<Emission>, e: Emission)
    ensures Flattened(es + [e]) == Flattened(es) + Expanded(e.item, e.tail)
  {
    assert (es + [e])[..|es|] == es;
  }

  lemma {:induction false} MergedNext(es: seq<Emission>, e: Emission)
    requires EndsMerged(es) && (es != [] && es[|es| - 1].item.BranchEnd? ==> !e.item.BranchEnd?)
    ensures EndsMerged(es + [e])
  {
    forall i | 0 < i < |es + [e]| ensures !EndsTwice(es + [e], i) {
      assert i < |es| ==> !EndsTwice(es, i);
    }
  }

  /** Iterating over a body emits its linearisation with the right tail positions, merges the ends of
      branches that end together, and closes as many branches as it opens. */
  method Iterate(items: seq<ChunkedTerms>) returns (es: seq<Emission>)
    requires GoodBody(items)
    ensures Flattened(es) == Linear(items, true)
    ensures EndsMerged(es) && Depths(es) == FirstBranches(es)
  {
    hide Rest, Expanded, Linear, GoodBody, Flattened, EndsMerged, Open, Depths, FirstBranches;
    var iter := new Iterator(items);
    es := [];
    NothingYet();
    ghost var rest := Rest(iter.stateStack);
    assert [] + rest == rest;
    while true
      invariant fresh(iter) && iter.Valid() && EndsMerged(es)
      invariant Flattened(es) + Rest(iter.stateStack) == Linear(items, true)
      invariant es != [] && es[|es| - 1].item.BranchEnd? ==>
              Rest(iter.stateStack) == [] || !Rest(iter.stateStack)[0].End?
      decreases |Rest(iter.stateStack)|
    {
      ghost var before := Rest(iter.stateStack);
      var item := iter.Advance();
      if item.None? {
        break;
      }
      var e := Emission(item.value, iter.InTailPosition());
      FlattenedNext(es, e);
      ExpandedNonempty(e.item, e.tail);
      MergedNext(es, e);
      Associate(Flattened(es), Expanded(e.item, e.tail), Rest(iter.stateStack));
      es := es + [e];
    }
    assert Flattened(es) == Linear(items, true);
    OpenFlattened(es);
    BodyCloses(items);
  }

  lemma {:induction false} BodyCloses(items: seq<ChunkedTerms>)
    requires GoodBody(items)
    ensures Open(Linear(items, true)) == 0
  {
    LinearCloses(items, true);
  }

  lemma {:induction false} Associate(a: seq<Event>, b: seq<Event>, c: seq<Event>)
    ensures (a + b) + c == a + (b + c)
  {
  }

  lemma {:induction false} NothingYet()
    ensures Flattened([]) == [] && EndsMerged([])
  {
  }

  lemma {:induction false} ExpandedNonempty(item: ClauseItem, tail: bool)
    ensures (item.BranchEnd? ==> item.depth > 0) ==> |Expanded(item, tail)| > 0
    ensures item.BranchEnd? && item.depth > 0 ==> Expanded(item, tail)[0].End?
  {
  }
}
