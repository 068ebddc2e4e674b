/**
 Compiling a clause body: the loop over the iterator's items, the code it builds, and what
 running that code does.
 */
module CompileSeq {
  import opened BodyTree
  import opened BranchCode
  import ClauseIterator

  // ----- code, by recursion over the tree -----

  /** One instruction for each query term; the last one of a tail chunk leaves the clause. */
  function ChunkCode(terms: seq<QueryTerm>, tail: bool): (r: Code)
    ensures |r| == |terms|
  {
    seq(|terms|, i requires 0 <= i < |terms| => if tail && i + 1 == |terms| then Leave(terms[i]) else Query(terms[i]))
  }

  function BodyCode(items: seq<ChunkedTerms>, tail: bool, nonCountedBt: bool): Code
    decreases items
  {
    if items == [] then []
    else ItemCode(items[0], tail && |items| == 1, nonCountedBt) + BodyCode(items[1..], tail, nonCountedBt)
  }

  function ItemCode(item: ChunkedTerms, tail: bool, nonCountedBt: bool): Code
    decreases item
  {
    match item
    case Chunk(terms) => ChunkCode(terms, tail)
    case Branch(arms) => Join(ArmCodes(item, |arms|, tail, nonCountedBt), tail, nonCountedBt)
  }

  /** The code of the first `n` arms. */
  function ArmCodes(branch: ChunkedTerms, n: nat, tail: bool, nonCountedBt: bool): (r: seq<Code>)
    requires branch.Branch? && n <= |branch.arms|
    ensures |r| == n
    decreases branch, n
  {
    if n == 0 then []
    else ArmCodes(branch, n - 1, tail, nonCountedBt) + [BodyCode(branch.arms[n - 1].items, tail, nonCountedBt)]
  }

  // ----- code, event by event -----

  /** The arms under construction, innermost last, and the code outside them. */
  datatype Building = Building(stack: seq<seq<Code>>, code: Code)

  function Grown(b: Building, more: Code): (r: Building)
    requires GoodNest(b.stack)
    ensures GoodNest(r.stack) && |r.stack| == |b.stack|
  {
    if b.stack == [] then Building([], b.code + more)
    else
      var last := |b.stack| - 1;
      Building(b.stack[last := Extended(b.stack[last], more)], b.code)
  }

  /** The events fit the `n` branches that are open. */
  predicate Fits(events: seq<Event>, n: nat)
  {
    if events == [] then n == 0
    else match events[0]
      case First(_, _) => Fits(events[1..], n + 1)
      case Next(_) => n > 0 && Fits(events[1..], n)
      case End(_) => n > 0 && Fits(events[1..], n - 1)
      case Do(_, _) => Fits(events[1..], n)
  }

  /** What an event does to the number of open branches. */
  function Change(event: Event): int
  {
    match event case First(_, _) => 1 case End(_) => -1 case _ => 0
  }

  lemma {:induction false} FitsStep(events: seq<Event>, n: nat)
    requires Fits(events, n) && events != []
    ensures (events[0].Next? || events[0].End? ==> n > 0) && Fits(events[1..], n + Change(events[0]))
  {
  }

  function Step(b: Building, event: Event, nonCountedBt: bool): (r: Building)
    requires GoodNest(b.stack) && (event.Next? || event.End? ==> b.stack != [])
    ensures GoodNest(r.stack)
    ensures |r.stack| == |b.stack| + Change(event)
  {
    match event
    case First(_, _) => Building(b.stack + [[[]]], b.code)
    case Next(_) =>
      var last := |b.stack| - 1;
      Building(b.stack[last := b.stack[last] + [[]]], b.code)
    case Do(terms, tail) => Grown(b, ChunkCode(terms, tail))
    case End(tail) =>
      var last := |b.stack| - 1;
      Grown(Building(b.stack[..last], b.code), Join(b.stack[last], tail, nonCountedBt))
  }

  /** What is built once all events are dealt with. */
  function Built(b: Building, events: seq<Event>, nonCountedBt: bool): Building
    requires GoodNest(b.stack) && Fits(events, |b.stack|)
    decreases |events|
  {
    if events == [] then b
    else
      FitsStep(events, |b.stack|);
      Built(Step(b, events[0], nonCountedBt), events[1..], nonCountedBt)
  }

  lemma {:induction false} GrownTwice(b: Building, more: Code, yet: Code)
    requires GoodNest(b.stack)
    ensures GoodNest(Grown(b, more).stack) && Grown(Grown(b, more), yet) == Grown(b, more + yet)
  {
    if b.stack == [] {
      assert (b.code + more) + yet == b.code + (more + yet);
    } else {
      var last := |b.stack| - 1;
      var arms := b.stack[last];
      assert (arms[|arms| - 1] + more) + yet == arms[|arms| - 1] + (more + yet);
      assert Extended(Extended(arms, more), yet) == Extended(arms, more + yet);
    }
  }

  lemma {:induction false} GrownNothing(b: Building)
    requires GoodNest(b.stack)
    ensures Grown(b, []) == b
  {
    if b.stack != [] {
      var last := |b.stack| - 1;
      var arms := b.stack[last];
      assert arms[|arms| - 1] + [] == arms[|arms| - 1];
      assert Extended(arms, []) == arms;
    }
  }

  lemma {:induction false} OneStep(b: Building, event: Event, rest: seq<Event>, nonCountedBt: bool)
    requires GoodNest(b.stack) && Fits([event] + rest, |b.stack|)
    ensures (event.Next? || event.End? ==> b.stack != []) && Fits(rest, |Step(b, event, nonCountedBt).stack|)
    ensures Built(b, [event] + rest, nonCountedBt) == Built(Step(b, event, nonCountedBt), rest, nonCountedBt)
  {
    assert ([event] + rest)[1..] == rest;
  }

  /** The linearisation of a body fits wherever what follows it does. */
  lemma {:induction false} LinearFits(items: seq<ChunkedTerms>, tail: bool, rest: seq<Event>, n: nat)
    requires GoodItems(items) && Fits(rest, n)
    ensures Fits(Linear(items, tail) + rest, n)
    decreases items
  {
    if items == [] {
      assert [] + rest == rest;
    } else {
      ItemsGood(items);
      var here, later := LinearItem(items[0], tail && |items| == 1), Linear(items[1..], tail);
      LinearFits(items[1..], tail, rest, n);
      LinearItemFits(items[0], tail && |items| == 1, later + rest, n);
      assert (here + later) + rest == here + (later + rest);
    }
  }

  lemma {:induction false} LinearItemFits(item: ChunkedTerms, tail: bool, rest: seq<Event>, n: nat)
    requires GoodItem(item) && Fits(rest, n)
    ensures Fits(LinearItem(item, tail) + rest, n)
    decreases item
  {
    match item
    case Chunk(terms) =>
      assert ([Do(terms, tail)] + rest)[1..] == rest;
    case Branch(arms) =>
      assert ([End(tail)] + rest)[1..] == rest;
      LinearArmsFit(item, 0, tail, [End(tail)] + rest, n + 1);
      assert (LinearArms(item, 0, tail) + [End(tail)]) + rest == LinearArms(item, 0, tail) + ([End(tail)] + rest);
  }

  lemma {:induction false} LinearArmsFit(branch: ChunkedTerms, from: nat, tail: bool, rest: seq<Event>, n: nat)
    requires branch.Branch? && GoodItem(branch) && from <= |branch.arms| && n > 0 && Fits(rest, n)
    ensures Fits(LinearArms(branch, from, tail) + rest, if from == 0 then n - 1 else n)
    decreases branch, |branch.arms| - from
  {
    if from == |branch.arms| {
      assert [] + rest == rest;
    } else {
      var event, body, others := ArmEvent(branch, from), Linear(branch.arms[from].items, tail),
          LinearArms(branch, from + 1, tail);
      ArmGood(branch, from);
      LinearArmsFit(branch, from + 1, tail, rest, n);
      LinearFits(branch.arms[from].items, tail, others + rest, n);
      assert ([event] + body + others) + rest == [event] + (body + (others + rest));
      assert ([event] + (body + (others + rest)))[1..] == body + (others + rest);
    }
  }

  /** Dealing with a body's events adds the body's code to what is under construction. */
  lemma {:induction false} LinearBuilds(b: Building, items: seq<ChunkedTerms>, tail: bool, rest: seq<Event>,
                                        nonCountedBt: bool)
    requires GoodNest(b.stack) && GoodItems(items) && Fits(rest, |b.stack|)
    ensures Fits(Linear(items, tail) + rest, |b.stack|)
    ensures Built(b, Linear(items, tail) + rest, nonCountedBt) ==
            Built(Grown(b, BodyCode(items, tail, nonCountedBt)), rest, nonCountedBt)
    decreases items
  {
    hide Built, Fits, Grown, LinearItem, ItemCode, GoodItem, GoodItems, GoodNest;
    LinearFits(items, tail, rest, |b.stack|);
    if items == [] {
      assert [] + rest == rest;
      GrownNothing(b);
    } else {
      ItemsGood(items);
      var alone := tail && |items| == 1;
      var here, later := LinearItem(items[0], alone), Linear(items[1..], tail);
      var code := ItemCode(items[0], alone, nonCountedBt);
      LinearBuilds(Grown(b, code), items[1..], tail, rest, nonCountedBt);
      ItemBuilds(b, items[0], alone, later + rest, nonCountedBt);
      GrownTwice(b, code, BodyCode(items[1..], tail, nonCountedBt));
      Regroup([], here, later, rest);
      assert [] + here == here && [] + (here + (later + rest)) == here + (later + rest);
    }
  }

  lemma {:induction false} ItemBuilds(b: Building, item: ChunkedTerms, tail: bool, rest: seq<Event>, nonCountedBt: bool)
    requires GoodNest(b.stack) && GoodItem(item) && Fits(rest, |b.stack|)
    ensures Fits(LinearItem(item, tail) + rest, |b.stack|)
    ensures Built(b, LinearItem(item, tail) + rest, nonCountedBt) ==
            Built(Grown(b, ItemCode(item, tail, nonCountedBt)), rest, nonCountedBt)
    decreases item
  {
    LinearItemFits(item, tail, rest, |b.stack|);
    hide Built, Fits, Linear, LinearArms, Join, BodyCode, ArmCodes;
    if item.Chunk? {
      OneStep(b, Do(item.terms, tail), rest, nonCountedBt);
    } else {
      var ending := [End(tail)] + rest;
      assert (LinearArms(item, 0, tail) + [End(tail)]) + rest == LinearArms(item, 0, tail) + ending;
      EndFits(tail, rest, |b.stack|);
      var all := ArmCodes(item, |item.arms|, tail, nonCountedBt);
      LinearArmsFit(item, 0, tail, ending, |b.stack| + 1);
      ArmsBuild(b, item, 0, tail, ending, nonCountedBt);
      var unclosed := Building(b.stack + [all], b.code);
      OneStep(unclosed, End(tail), rest, nonCountedBt);
      assert unclosed.stack[..|b.stack|] == b.stack && unclosed.stack[|b.stack|] == all;
    }
  }

  lemma {:induction false} EndFits(tail: bool, rest: seq<Event>, n: nat)
    requires Fits(rest, n)
    ensures Fits([End(tail)] + rest, n + 1)
  {
    assert ([End(tail)] + rest)[1..] == rest;
  }

  /** Inside a branch, some of whose arms are under construction; before it when there are none. */
  function Inside(b: Building, codes: seq<Code>): (r: Building)
    requires GoodNest(b.stack)
    ensures GoodNest(r.stack) && |r.stack| == |b.stack| + if codes == [] then 0 else 1
  {
    if codes == [] then b else Building(b.stack + [codes], b.code)
  }

  /** With the first `from` arms of a branch built, dealing with the others builds them all. */
  lemma {:induction false} ArmsBuild(b: Building, branch: ChunkedTerms, from: nat, tail: bool, rest: seq<Event>,
                                     nonCountedBt: bool)
    requires GoodNest(b.stack) && branch.Branch? && GoodItem(branch) && from <= |branch.arms|
            && Fits(rest, |b.stack| + 1)
    ensures var now := Inside(b, ArmCodes(branch, from, tail, nonCountedBt));
            var done := Inside(b, ArmCodes(branch, |branch.arms|, tail, nonCountedBt));
            && |branch.arms| > 0
            && Fits(LinearArms(branch, from, tail) + rest, |now.stack|)
            && Built(now, LinearArms(branch, from, tail) + rest, nonCountedBt) == Built(done, rest, nonCountedBt)
    decreases branch, |branch.arms| - from
  {
    hide Built, Fits, Step, Grown, BodyCode, Linear, ArmEvent, LinearArms, ArmCodes, GoodItems, GoodBody, Inside,
        GoodNest;
    var codes := ArmCodes(branch, from, tail, nonCountedBt);
    LinearArmsFit(branch, from, tail, rest, |b.stack| + 1);
    if from == |branch.arms| {
      NoArmsLeft(branch, tail, rest);
    } else {
      ArmsBuild(b, branch, from + 1, tail, rest, nonCountedBt);
      var arm, now := branch.arms[from], Inside(b, codes);
      ArmGood(branch, from);
      ArmsStep(branch, from, tail);
      ArmCodesStep(branch, from, tail, nonCountedBt);
      var event, body, others := ArmEvent(branch, from), Linear(arm.items, tail), LinearArms(branch, from + 1, tail);
      Regroup([event], body, others, rest);
      OneStep(now, event, body + (others + rest), nonCountedBt);
      EnterArm(b, branch, from, codes, nonCountedBt);
      var entered := Inside(b, codes + [[]]);
      LinearBuilds(entered, arm.items, tail, others + rest, nonCountedBt);
      ArmGrown(b, codes, BodyCode(arm.items, tail, nonCountedBt));
    }
  }

  lemma {:induction false} NoArmsLeft(branch: ChunkedTerms, tail: bool, rest: seq<Event>)
    requires branch.Branch?
    ensures LinearArms(branch, |branch.arms|, tail) + rest == rest
  {
  }

  lemma {:induction false} ArmCodesStep(branch: ChunkedTerms, n: nat, tail: bool, nonCountedBt: bool)
    requires branch.Branch? && n < |branch.arms|
    ensures ArmCodes(branch, n + 1, tail, nonCountedBt) ==
            ArmCodes(branch, n, tail, nonCountedBt) + [BodyCode(branch.arms[n].items, tail, nonCountedBt)]
  {
  }

  lemma {:induction false} Regroup(a: seq<Event>, b: seq<Event>, c: seq<Event>, d: seq<Event>)
    ensures (a + b + c) + d == a + (b + (c + d))
  {
  }

  lemma {:induction false} EnterArm(b: Building, branch: ChunkedTerms, i: nat, codes: seq<Code>, nonCountedBt: bool)
    requires GoodNest(b.stack) && branch.Branch? && i < |branch.arms| && |codes| == i
    ensures i > 0 ==> Inside(b, codes).stack != []
    ensures Step(Inside(b, codes), ArmEvent(branch, i), nonCountedBt) == Inside(b, codes + [[]])
  {
    if i == 0 {
      assert codes == [] && codes + [[]] == [[]];
    }
  }

  lemma {:induction false} ArmGrown(b: Building, codes: seq<Code>, code: Code)
    requires GoodNest(b.stack)
    ensures Grown(Inside(b, codes + [[]]), code) == Inside(b, codes + [code])
  {
    assert [] + code == code;
    assert Extended(codes + [[]], code) == codes + [code];
  }

  // ----- ends that were merged -----

  function Ends(depth: nat, tail: bool): (r: seq<Event>)
    ensures r == ClauseIterator.Expanded(ClauseIterator.BranchEnd(depth), tail)
  {
    seq(depth, i => End(tail))
  }

  function TopLevels(b: Building, depth: nat): (r: seq<seq<Code>>)
    requires depth <= |b.stack|
    ensures GoodNest(b.stack) ==> GoodNest(r)
  {
    b.stack[|b.stack| - depth..]
  }

  function Without(b: Building, depth: nat): (r: Building)
    requires depth <= |b.stack|
    ensures |r.stack| == |b.stack| - depth && (GoodNest(b.stack) ==> GoodNest(r.stack))
  {
    Building(b.stack[..|b.stack| - depth], b.code)
  }

  lemma {:induction false} EndsFit(depth: nat, tail: bool, rest: seq<Event>, n: nat)
    requires Fits(Ends(depth, tail) + rest, n)
    ensures depth <= n && Fits(rest, n - depth)
  {
    if depth == 0 {
      assert [] + rest == rest;
    } else {
      assert (Ends(depth, tail) + rest)[1..] == Ends(depth - 1, tail) + rest;
      EndsFit(depth - 1, tail, rest, n - 1);
    }
  }

  /** Closing several branches one by one leaves the code of their nest. */
  lemma {:induction false} EndsBuild(b: Building, depth: nat, tail: bool, rest: seq<Event>, nonCountedBt: bool)
    requires GoodNest(b.stack) && Fits(Ends(depth, tail) + rest, |b.stack|)
    ensures depth <= |b.stack| && Fits(rest, |b.stack| - depth)
    ensures Built(b, Ends(depth, tail) + rest, nonCountedBt) ==
            Built(Grown(Without(b, depth), Nest(TopLevels(b, depth), tail, nonCountedBt)), rest, nonCountedBt)
    decreases depth
  {
    hide Built, Fits, Join;
    EndsFit(depth, tail, rest, |b.stack|);
    if depth == 0 {
      assert [] + rest == rest && TopLevels(b, depth) == [] && Without(b, depth) == b;
      GrownNothing(b);
    } else {
      EndsFirst(depth, tail, rest);
      OneStep(b, End(tail), Ends(depth - 1, tail) + rest, nonCountedBt);
      var closed := Step(b, End(tail), nonCountedBt);
      EndsBuild(closed, depth - 1, tail, rest, nonCountedBt);
      CloseStep(b, depth, tail, nonCountedBt);
    }
  }

  lemma {:induction false} EndsFirst(depth: nat, tail: bool, rest: seq<Event>)
    requires depth > 0
    ensures Ends(depth, tail) + rest == [End(tail)] + (Ends(depth - 1, tail) + rest)
  {
  }

  lemma {:induction false} CloseStep(b: Building, depth: nat, tail: bool, nonCountedBt: bool)
    requires GoodNest(b.stack) && 0 < depth <= |b.stack|
    ensures var closed := Step(b, End(tail), nonCountedBt);
            Grown(Without(closed, depth - 1), Nest(TopLevels(closed, depth - 1), tail, nonCountedBt)) ==
            Grown(Without(b, depth), Nest(TopLevels(b, depth), tail, nonCountedBt))
  {
    hide Join, Nest;
    var last := |b.stack| - 1;
    var closed := Step(b, End(tail), nonCountedBt);
    var arms := b.stack[last];
    if depth == 1 {
      assert TopLevels(b, 1) == [arms] && TopLevels(closed, 0) == [] && Without(closed, 0) == closed;
      NestOne(arms, tail, nonCountedBt);
      GrownNothing(closed);
      NestEmpty(tail, nonCountedBt);
    } else {
      var levels := TopLevels(Without(b, 1), depth - 1);
      assert TopLevels(b, depth) == levels + [arms];
      CloseInnermost(levels, arms, tail, nonCountedBt);
      assert TopLevels(closed, depth - 1) ==
             levels[|levels| - 1 := Extended(levels[|levels| - 1], Join(arms, tail, nonCountedBt))];
      assert Without(closed, depth - 1) == Without(b, depth);
    }
  }

  lemma {:induction false} NestEmpty(tail: bool, nonCountedBt: bool)
    ensures Nest([], tail, nonCountedBt) == []
  {
  }

  // ----- the loop -----

  /** One instruction for each query term of a chunk, in the arm under construction. */
  method CompileChunk(branches: BranchCodeStack, code: Code, terms: seq<QueryTerm>, tail: bool) returns (code': Code)
    requires GoodNest(branches.stack)
    modifies branches
    ensures GoodNest(old(branches.stack))
    ensures Building(branches.stack, code') == Grown(Building(old(branches.stack), code), ChunkCode(terms, tail))
  {
    code' := code;
    ghost var b, all := Building(branches.stack, code), ChunkCode(terms, tail);
    GrownNothing(b);
    for idx := 0 to |terms|
      invariant GoodNest(branches.stack) && Building(branches.stack, code') == Grown(b, all[..idx])
    {
      hide Grown;
      var instr := if idx + 1 < |terms| then Query(terms[idx]) else if tail then Leave(terms[idx])
          else Query(terms[idx]);
      GrownTwice(b, all[..idx], [instr]);
      assert all[..idx] + [instr] == all[..idx + 1];
      code' := ExtendCode(branches, code', [instr]);
    }
    assert all[..|terms|] == all;
  }

  method ExtendCode(branches: BranchCodeStack, code: Code, more: Code) returns (code': Code)
    requires GoodNest(branches.stack)
    modifies branches
    ensures GoodNest(old(branches.stack))
    ensures Building(branches.stack, code') == Grown(Building(old(branches.stack), code), more)
  {
    code' := branches.Extend(code, more);
  }

  method OpenBranch(branches: BranchCodeStack)
    modifies branches
    ensures branches.stack == old(branches.stack) + [[[]]]
  {
    branches.AddNewBranchStack();
    ghost var levels := branches.stack;
    branches.AddNewBranch();
    assert levels[|levels| - 1] + [[]] == [[]];
  }

  /** Combine the arms of all branches that end here, with jumps unless every path leaves the clause. */
  method CloseBranches(branches: BranchCodeStack, code: Code, depth: nat, tail: bool,
                       nonCountedBt: bool) returns (code': Code)
    requires GoodNest(branches.stack) && depth <= |branches.stack|
    modifies branches
    ensures var b := Building(old(branches.stack), code);
            && GoodNest(b.stack)
            && Building(branches.stack, code')
                == Grown(Without(b, depth), Nest(TopLevels(b, depth), tail, nonCountedBt))
  {
    hide Grown, Nest, JumpedNest, CombinedNest;
    ghost var b := Building(branches.stack, code);
    ghost var outer, levels := Without(b, depth).stack, TopLevels(b, depth);
    Cut(b.stack, |b.stack| - depth);
    ghost var ready := levels;
    if !tail {
      branches.PushJumpInstrs(depth);
      NestIsJumped(levels, nonCountedBt);
      ready := JumpedNest(levels);
    } else {
      NestIsCombined(levels, nonCountedBt);
    }
    Rejoined(outer, ready);
    var branchCode := branches.PopBranch(depth, nonCountedBt);
    code' := ExtendCode(branches, code, branchCode);
  }

  lemma {:induction false} Cut<T>(s: seq<T>, n: nat)
    requires n <= |s|
    ensures s == s[..n] + s[n..]
  {
  }

  lemma {:induction false} Rejoined(outer: seq<seq<Code>>, levels: seq<seq<Code>>)
    requires GoodNest(outer) && GoodNest(levels)
    ensures GoodNest(outer + levels)
    ensures (outer + levels)[..|outer|] == outer && (outer + levels)[|outer|..] == levels
  {
  }

  /** The loop over the iterator's items builds the code of the tree. */
  method CompileBody(items: seq<ChunkedTerms>, nonCountedBt: bool) returns (code: Code)
    requires GoodBody(items)
    ensures code == BodyCode(items, true, nonCountedBt)
  {
    hide Built, BodyCode, Linear, Fits, Grown, ClauseIterator.Rest, GoodBody, GoodNest, Without, TopLevels, Nest;
    code := [];
    var branches := new BranchCodeStack();
    var iter := new ClauseIterator.Iterator(items);
    BodyBuilt(items, nonCountedBt);
    while true
      invariant fresh(iter) && fresh(branches) && iter.Valid() && GoodNest(branches.stack)
      invariant Goes(Building(branches.stack, code), ClauseIterator.Rest(iter.stateStack), items, nonCountedBt)
      decreases |ClauseIterator.Rest(iter.stateStack)|
    {
      ghost var b := Building(branches.stack, code);
      var item := iter.Advance();
      ghost var rest := ClauseIterator.Rest(iter.stateStack);
      if item.None? {
        break;
      }
      var tail := iter.InTailPosition();
      ClauseIterator.ExpandedNonempty(item.value, tail);
      match item.value {
        case ChunkItem(terms) =>
          GoesOn(b, Do(terms, tail), rest, items, nonCountedBt);
          code := CompileChunk(branches, code, terms, tail);
        case FirstBranch(num, n) =>
          GoesOn(b, First(num, n), rest, items, nonCountedBt);
          OpenBranch(branches);
        case NextBranch(num) =>
          GoesOn(b, Next(num), rest, items, nonCountedBt);
          branches.AddNewBranch();
        case BranchEnd(depth) =>
          EndsGo(b, depth, tail, rest, items, nonCountedBt);
          code := CloseBranches(branches, code, depth, tail, nonCountedBt);
      }
    }
    GoesDone(Building(branches.stack, code), items, nonCountedBt);
  }

  /** What is built, with the events still to come, leads to the code of the body. */
  ghost predicate Goes(b: Building, events: seq<Event>, items: seq<ChunkedTerms>, nonCountedBt: bool)
  {
    && GoodNest(b.stack) && Fits(events, |b.stack|)
    && Built(b, events, nonCountedBt) == Building([], BodyCode(items, true, nonCountedBt))
  }

  lemma {:induction false} BodyBuilt(items: seq<ChunkedTerms>, nonCountedBt: bool)
    requires GoodBody(items)
    ensures GoodNest([]) && Goes(Building([], []), Linear(items, true), items, nonCountedBt)
  {
    hide Linear, BodyCode, GoodItems;
    LinearBuilds(Building([], []), items, true, [], nonCountedBt);
    assert Linear(items, true) + [] == Linear(items, true);
    assert [] + BodyCode(items, true, nonCountedBt) == BodyCode(items, true, nonCountedBt);
  }

  lemma {:induction false} GoesOn(b: Building, event: Event, rest: seq<Event>, items: seq<ChunkedTerms>,
                                  nonCountedBt: bool)
    requires Goes(b, [event] + rest, items, nonCountedBt)
    ensures (event.Next? || event.End? ==> b.stack != []) && GoodNest(b.stack)
    ensures Goes(Step(b, event, nonCountedBt), rest, items, nonCountedBt)
  {
    hide Built, Fits, Step, BodyCode;
    OneStep(b, event, rest, nonCountedBt);
  }

  lemma {:induction false} EndsGo(b: Building, depth: nat, tail: bool, rest: seq<Event>, items: seq<ChunkedTerms>,
                                  nonCountedBt: bool)
    requires Goes(b, Ends(depth, tail) + rest, items, nonCountedBt)
    ensures depth <= |b.stack| && GoodNest(b.stack)
    ensures Goes(Grown(Without(b, depth), Nest(TopLevels(b, depth), tail, nonCountedBt)), rest, items, nonCountedBt)
  {
    hide Built, Fits, BodyCode, Nest, Grown;
    EndsBuild(b, depth, tail, rest, nonCountedBt);
  }

  lemma {:induction false} GoesDone(b: Building, items: seq<ChunkedTerms>, nonCountedBt: bool)
    requires Goes(b, [], items, nonCountedBt)
    ensures b.code == BodyCode(items, true, nonCountedBt)
  {
    hide BodyCode;
  }
}
