/**
 Flat code for nested branches: the stack of arm code under construction, the jumps that
 leave an arm, and the choice instructions in front of the arms.
 */
module BranchCode {
  import opened BodyTree

  /** The code of a clause body: query terms, the last one of a path leaving the clause,
      choice instructions and jumps. Offsets are relative. */
  datatype Instr =
    | Query(term: QueryTerm)
    | Leave(term: QueryTerm)
    | TryMeElse(o: nat)
    | RetryMeElse(o: nat)
    | DefaultRetryMeElse(o: nat)
    | TrustMe
    | DefaultTrustMe
    | JmpByCall(o: nat)

  type Code = seq<Instr>

  // ----- one branch -----

  /** The choice instruction in front of arm `i`. */
  function Choice(arms: seq<Code>, i: nat, nonCountedBt: bool): Instr
    requires i < |arms|
  {
    if i == 0 then TryMeElse(|arms[i]| + 1)
    else if i + 1 < |arms| then (if nonCountedBt then DefaultRetryMeElse(|arms[i]| + 1) else RetryMeElse(|arms[i]| + 1))
    else if nonCountedBt then DefaultTrustMe else TrustMe
  }

  /** The first `n` arms of a branch, each behind its choice instruction. */
  function Combined(arms: seq<Code>, n: nat, nonCountedBt: bool): (r: Code)
    requires n <= |arms|
    ensures |r| == ArmStart(arms, n)
  {
    if n == 0 then []
    else Combined(arms, n - 1, nonCountedBt) + [Choice(arms, n - 1, nonCountedBt)] + arms[n - 1]
  }

  /** Where the choice instruction of arm `n` stands. */
  function ArmStart(arms: seq<Code>, n: nat): nat
    requires n <= |arms|
  {
    if n == 0 then 0 else ArmStart(arms, n - 1) + 1 + |arms[n - 1]|
  }

  /** Room for the arms from `i` on, with their choice instructions and jumps still to come. */
  function RestSize(arms: seq<Code>, i: nat): (r: nat)
    requires i < |arms|
    decreases |arms| - i
  {
    |arms[i]| + 1 + if i + 1 < |arms| then 1 + RestSize(arms, i + 1) else 0
  }

  /** Arm `i` with the jump that leaves it; `after` instructions follow the whole branch. */
  function Jumped(arms: seq<Code>, i: nat, after: nat): Code
    requires i < |arms|
  {
    if i + 1 < |arms| then arms[i] + [JmpByCall(1 + RestSize(arms, i + 1) + after)] else arms[i]
  }

  function JumpedLevel(arms: seq<Code>, after: nat): (r: seq<Code>)
    ensures |r| == |arms| && forall i :: 0 <= i < |arms| ==> r[i] == Jumped(arms, i, after)
  {
    seq(|arms|, i requires 0 <= i < |arms| => Jumped(arms, i, after))
  }

  /** The code of a branch. In tail position every path leaves the clause and needs no jump. */
  function Join(arms: seq<Code>, tail: bool, nonCountedBt: bool): Code
  {
    Combined(if tail then arms else JumpedLevel(arms, 0), |arms|, nonCountedBt)
  }

  lemma {:induction false} StartStep(arms: seq<Code>, i: nat)
    requires i < |arms|
    ensures ArmStart(arms, i + 1) == ArmStart(arms, i) + 1 + |arms[i]|
  {
  }

  lemma {:induction false} RestStep(arms: seq<Code>, i: nat)
    requires i < |arms|
    ensures RestSize(arms, i) == |arms[i]| + 1 + if i + 1 < |arms| then 1 + RestSize(arms, i + 1) else 0
  {
  }

  /** The arms from `i` on of a branch with jumps take up what was reserved for them. */
  lemma {:induction false} JumpedSize(arms: seq<Code>, i: nat, after: nat)
    requires i < |arms|
    ensures ArmStart(JumpedLevel(arms, after), |arms|) == ArmStart(JumpedLevel(arms, after), i) + RestSize(arms, i)
    decreases |arms| - i
  {
    hide ArmStart, RestSize;
    var jumped := JumpedLevel(arms, after);
    StartStep(jumped, i);
    RestStep(arms, i);
    if i + 1 < |arms| {
      JumpedSize(arms, i + 1, after);
    }
  }

  /** Where the choice instruction and the code of arm `i` stand. */
  lemma {:induction false} ArmAt(arms: seq<Code>, i: nat, n: nat, nonCountedBt: bool)
    requires i < n <= |arms|
    ensures ArmStart(arms, i) + 1 + |arms[i]| == ArmStart(arms, i + 1) <= ArmStart(arms, n)
    ensures var c := Combined(arms, n, nonCountedBt);
            && c[ArmStart(arms, i)] == Choice(arms, i, nonCountedBt)
            && c[ArmStart(arms, i) + 1..ArmStart(arms, i + 1)] == arms[i]
  {
    var c := Combined(arms, n, nonCountedBt);
    if i + 1 < n {
      ArmAt(arms, i, n - 1, nonCountedBt);
      var inner := Combined(arms, n - 1, nonCountedBt);
      assert c[..ArmStart(arms, n - 1)] == inner;
      assert c[ArmStart(arms, i) + 1..ArmStart(arms, i + 1)] == inner[ArmStart(arms, i) + 1..ArmStart(arms, i + 1)];
    }
  }

  /** How far ahead the next alternative is; 0 when there is none. */
  function NextAlternative(instr: Instr): nat
  {
    match instr
    case TryMeElse(o) => o
    case RetryMeElse(o) => o
    case DefaultRetryMeElse(o) => o
    case _ => 0
  }

  predicate IsChoice(instr: Instr)
  {
    !instr.Query? && !instr.Leave? && !instr.JmpByCall?
  }

  /** A try in front of the first of `n` arms, a trust in front of the last, and retries between. */
  predicate OpensArm(instr: Instr, i: nat, n: nat)
  {
    if i == 0 then instr.TryMeElse?
    else if i + 1 < n then instr.RetryMeElse? || instr.DefaultRetryMeElse?
    else instr.TrustMe? || instr.DefaultTrustMe?
  }

  /** In the code of a branch with at least two arms, every choice instruction leads to the next arm's
      choice instruction, and every jump leads to the first position after the branch. */
  lemma {:induction false} JoinTargets(arms: seq<Code>, nonCountedBt: bool, i: nat)
    requires i < |arms| && |arms| >= 2
    ensures var code, jumped := Join(arms, false, nonCountedBt), JumpedLevel(arms, 0);
            var at := ArmStart(jumped, i);
            && at < |code| && OpensArm(code[at], i, |arms|)
            && NextAlternative(code[at]) == (if i + 1 < |arms| then ArmStart(jumped, i + 1) - at else 0)
            && at + 1 + |arms[i]| <= |code| && code[at + 1..at + 1 + |arms[i]|] == arms[i]
            && (i + 1 < |arms| ==>
                  && at + 1 + |arms[i]| + 1 == ArmStart(jumped, i + 1) < |code|
                  && code[at + 1 + |arms[i]|].JmpByCall?
                  && at + 1 + |arms[i]| + code[at + 1 + |arms[i]|].o == |code|)
  {
    hide Combined, ArmStart, RestSize, Choice;
    var code, jumped := Join(arms, false, nonCountedBt), JumpedLevel(arms, 0);
    ArmAt(jumped, i, |arms|, nonCountedBt);
    ChoiceLeads(jumped, i, nonCountedBt);
    if i + 1 < |arms| {
      JumpedSize(arms, i + 1, 0);
      SplitLast(code, ArmStart(jumped, i) + 1, arms[i], JmpByCall(1 + RestSize(arms, i + 1)));
      ArmAt(jumped, i + 1, |arms|, nonCountedBt);
    }
  }

  lemma {:induction false} ChoiceLeads(arms: seq<Code>, i: nat, nonCountedBt: bool)
    requires i < |arms| && |arms| >= 2
    ensures var choice := Choice(arms, i, nonCountedBt);
            && IsChoice(choice) && OpensArm(choice, i, |arms|)
            && NextAlternative(choice) == if i + 1 < |arms| then |arms[i]| + 1 else 0
  {
  }

  lemma {:induction false} SplitLast(code: Code, at: nat, arm: Code, jump: Instr)
    requires at + |arm| + 1 <= |code| && code[at..at + |arm| + 1] == arm + [jump]
    ensures code[at..at + |arm|] == arm && code[at + |arm|] == jump
  {
    var part := code[at..at + |arm| + 1];
    assert code[at..at + |arm|] == part[..|arm|];
    assert code[at + |arm|] == part[|arm|];
  }

  // ----- nested branches that end together -----

  /** A nest of branches, each at the end of the last arm of the one before. */
  predicate GoodNest(levels: seq<seq<Code>>)
  {
    forall i :: 0 <= i < |levels| ==> levels[i] != []
  }

  /** Extend the last arm. */
  function Extended(arms: seq<Code>, code: Code): seq<Code>
    requires arms != []
  {
    arms[|arms| - 1 := arms[|arms| - 1] + code]
  }

  /** The code of a nest, closing its branches one by one from the innermost outwards. */
  function Nest(levels: seq<seq<Code>>, tail: bool, nonCountedBt: bool): Code
    requires GoodNest(levels)
  {
    if levels == [] then []
    else Join(Extended(levels[0], Nest(levels[1..], tail, nonCountedBt)), tail, nonCountedBt)
  }

  /** Room for a nest, with its choice instructions and jumps still to come. */
  function NestSize(levels: seq<seq<Code>>): nat
    requires GoodNest(levels)
  {
    if levels == [] then 0 else RestSize(levels[0], 0) + NestSize(levels[1..])
  }

  /** What pop_branch builds of a nest whose arms are complete. */
  function CombinedNest(levels: seq<seq<Code>>, nonCountedBt: bool): Code
    requires GoodNest(levels)
  {
    if levels == [] then []
    else
      var arms := Extended(levels[0], CombinedNest(levels[1..], nonCountedBt));
      Combined(arms, |arms|, nonCountedBt)
  }

  /** What push_jump_instrs makes of a nest. */
  function JumpedNest(levels: seq<seq<Code>>): (r: seq<seq<Code>>)
    requires GoodNest(levels)
    ensures |r| == |levels| && GoodNest(r)
    ensures forall i :: 0 <= i < |r| ==> |r[i]| == |levels[i]|
  {
    if levels == [] then []
    else [JumpedLevel(levels[0], NestSize(levels[1..]))] + JumpedNest(levels[1..])
  }

  lemma {:induction false} ExtendedSize(arms: seq<Code>, code: Code, i: nat)
    requires i < |arms|
    ensures RestSize(Extended(arms, code), i) == RestSize(arms, i) + |code|
    decreases |arms| - i
  {
    if i + 1 < |arms| {
      ExtendedSize(arms, code, i + 1);
    }
  }

  /** Jumps over deeper levels are the jumps of a branch whose last arm holds those levels. */
  lemma {:induction false} JumpedExtended(arms: seq<Code>, code: Code)
    requires arms != []
    ensures Extended(JumpedLevel(arms, |code|), code) == JumpedLevel(Extended(arms, code), 0)
  {
    var a, b := Extended(JumpedLevel(arms, |code|), code), JumpedLevel(Extended(arms, code), 0);
    forall i | 0 <= i < |arms| ensures a[i] == b[i] {
      if i + 1 < |arms| {
        ExtendedSize(arms, code, i + 1);
      }
    }
  }

  lemma {:induction false} JoinSize(arms: seq<Code>, nonCountedBt: bool)
    requires arms != []
    ensures |Join(arms, false, nonCountedBt)| == RestSize(arms, 0)
  {
    JumpedSize(arms, 0, 0);
  }

  /** Computing all jumps of a nest in one pass and then combining the arms builds the same code as closing
      the branches one by one. */
  lemma {:induction false} NestIsJumped(levels: seq<seq<Code>>, nonCountedBt: bool)
    requires GoodNest(levels)
    ensures Nest(levels, false, nonCountedBt) == CombinedNest(JumpedNest(levels), nonCountedBt)
    ensures |Nest(levels, false, nonCountedBt)| == NestSize(levels)
  {
    if levels != [] {
      hide Combined, JumpedLevel, RestSize;
      var rest := levels[1..];
      NestIsJumped(rest, nonCountedBt);
      var inner := Nest(rest, false, nonCountedBt);
      JumpedExtended(levels[0], inner);
      assert JumpedNest(levels)[0] == JumpedLevel(levels[0], |inner|);
      assert JumpedNest(levels)[1..] == JumpedNest(rest);
      JoinSize(Extended(levels[0], inner), nonCountedBt);
      ExtendedSize(levels[0], inner, 0);
    }
  }

  lemma {:induction false} NestIsCombined(levels: seq<seq<Code>>, nonCountedBt: bool)
    requires GoodNest(levels)
    ensures Nest(levels, true, nonCountedBt) == CombinedNest(levels, nonCountedBt)
  {
    if levels != [] {
      NestIsCombined(levels[1..], nonCountedBt);
    }
  }

  /** The innermost branch of a nest can be closed first. */
  lemma {:induction false} CloseInnermost(levels: seq<seq<Code>>, arms: seq<Code>, tail: bool, nonCountedBt: bool)
    requires GoodNest(levels) && levels != [] && arms != []
    ensures var last := |levels| - 1;
            Nest(levels + [arms], tail, nonCountedBt) ==
            Nest(levels[last := Extended(levels[last], Join(arms, tail, nonCountedBt))], tail, nonCountedBt)
  {
    hide Join;
    var last := |levels| - 1;
    var code := Join(arms, tail, nonCountedBt);
    NestOne(arms, tail, nonCountedBt);
    var closed := levels[last := Extended(levels[last], code)];
    if last == 0 {
      assert (levels + [arms])[1..] == [arms];
      NestOne(closed[0], tail, nonCountedBt);
      assert closed == [closed[0]];
    } else {
      assert (levels + [arms])[1..] == levels[1..] + [arms];
      CloseInnermost(levels[1..], arms, tail, nonCountedBt);
      assert closed[1..] == levels[1..][last - 1 := Extended(levels[1..][last - 1], code)];
    }
  }

  lemma {:induction false} NestOne(arms: seq<Code>, tail: bool, nonCountedBt: bool)
    requires arms != []
    ensures Nest([arms], tail, nonCountedBt) == Join(arms, tail, nonCountedBt)
  {
    assert [arms][1..] == [];
    assert arms[|arms| - 1] + [] == arms[|arms| - 1];
    assert Extended(arms, []) == arms;
  }

  // ----- the stack -----

  function SpanSum(arms: seq<Code>, n: nat): nat
    requires n <= |arms|
  {
    if n == 0 then 0 else SpanSum(arms, n - 1) + |arms[n - 1]| + 2
  }

  lemma {:induction false} SpanIsRest(arms: seq<Code>, i: nat)
    requires i < |arms|
    ensures SpanSum(arms, |arms|) == SpanSum(arms, i) + RestSize(arms, i) + 1
    decreases |arms| - i
  {
    if i + 1 < |arms| {
      SpanIsRest(arms, i + 1);
    }
  }

  function NestSpan(levels: seq<seq<Code>>): nat
  {
    if GoodNest(levels) then NestSize(levels) else 0
  }

  /** Part of a nest has got its jumps. */
  ghost predicate Halfway(outer: seq<seq<Code>>, done: seq<seq<Code>>, rest: seq<seq<Code>>, levels: seq<seq<Code>>,
                          stack: seq<seq<Code>>)
  {
    && GoodNest(levels) && GoodNest(rest) && stack == outer + done + rest
    && done + JumpedNest(rest) == JumpedNest(levels)
  }

  lemma {:induction false} HalfwayStart(outer: seq<seq<Code>>, levels: seq<seq<Code>>)
    requires GoodNest(levels)
    ensures Halfway(outer, [], levels, levels, outer + levels) && NestSpan(levels) == NestSize(levels)
  {
    assert outer + [] + levels == outer + levels;
    assert [] + JumpedNest(levels) == JumpedNest(levels);
  }

  lemma {:induction false} HalfwayStep(outer: seq<seq<Code>>, done: seq<seq<Code>>, rest: seq<seq<Code>>,
                                       levels: seq<seq<Code>>, stack: seq<seq<Code>>)
    requires Halfway(outer, done, rest, levels, stack) && |done| < |levels|
    ensures rest != [] && GoodNest(rest[1..]) && rest[0] != [] && stack[|outer| + |done|] == rest[0]
    ensures NestSpan(rest) == RestSize(rest[0], 0) + NestSpan(rest[1..]) && NestSpan(rest[1..]) == NestSize(rest[1..])
    ensures var level := JumpedLevel(rest[0], NestSize(rest[1..]));
            Halfway(outer, done + [level], rest[1..], levels, stack[|outer| + |done| := level])
  {
    hide JumpedLevel, RestSize;
    assert |done| + |JumpedNest(rest)| == |levels|;
    var level := JumpedLevel(rest[0], NestSize(rest[1..]));
    Replaced(outer, done, rest, level);
    assert done + ([level] + JumpedNest(rest[1..])) == (done + [level]) + JumpedNest(rest[1..]);
  }

  lemma {:induction false} HalfwayDone(outer: seq<seq<Code>>, done: seq<seq<Code>>, rest: seq<seq<Code>>,
                                       levels: seq<seq<Code>>, stack: seq<seq<Code>>)
    requires Halfway(outer, done, rest, levels, stack) && |done| == |levels|
    ensures stack == outer + JumpedNest(levels)
  {
    assert |done + JumpedNest(rest)| == |levels|;
    assert rest == [];
    assert outer + done + [] == outer + done && done + [] == done;
  }

  lemma {:induction false} Replaced<T>(a: seq<T>, b: seq<T>, c: seq<T>, x: T)
    requires c != []
    ensures (a + b + c)[|a| + |b| := x] == a + (b + [x]) + c[1..]
  {
  }

  class BranchCodeStack {
    var stack: seq<seq<Code>>

    constructor ()
      ensures stack == []
    {
      stack := [];
    }

    method AddNewBranchStack()
      modifies this
      ensures stack == old(stack) + [[]]
    {
      stack := stack + [[]];
    }

    method AddNewBranch()
      modifies this
      ensures var levels := if old(stack) == [] then [[]] else old(stack);
              stack == levels[|levels| - 1 := levels[|levels| - 1] + [[]]]
    {
      if stack == [] {
        AddNewBranchStack();
      }
      stack := stack[|stack| - 1 := stack[|stack| - 1] + [[]]];
    }

    /** Append to the arm under construction, or to the clause's own code outside any branch. */
    method Extend(code: Code, more: Code) returns (code': Code)
      requires GoodNest(stack)
      modifies this
      ensures stack == [] <==> old(stack) == []
      ensures old(stack) == [] ==> stack == [] && code' == code + more
      ensures old(stack) != [] ==>
                var last := |old(stack)| - 1;
                code' == code && stack == old(stack)[last := Extended(old(stack)[last], more)]
    {
      if stack == [] {
        code' := code + more;
      } else {
        var last := |stack| - 1;
        var arms := stack[last];
        stack := stack[last := arms[|arms| - 1 := arms[|arms| - 1] + more]];
        code' := code;
      }
    }

    /** The room `depth` levels will take up once their choice instructions and jumps are added. */
    method JumpSpan(depth: nat) returns (span: nat)
      requires depth <= |stack| && GoodNest(stack)
      ensures span == NestSize(stack[|stack| - depth..])
    {
      span := 0;
      var idx := |stack|;
      assert stack[idx..] == [];
      while idx > |stack| - depth
        invariant |stack| - depth <= idx <= |stack|
        invariant span == NestSize(stack[idx..])
      {
        idx := idx - 1;
        var arms := stack[idx];
        var sum := 0;
        for i := 0 to |arms|
          invariant sum == SpanSum(arms, i)
        {
          sum := sum + |arms[i]| + 2;
        }
        SpanIsRest(arms, 0);
        assert stack[idx..][1..] == stack[idx + 1..];
        span := span + sum - 1;
      }
    }

    /** One level: every arm but the last gets a jump over the rest of the nest. */
    method JumpLevel(idx: nat, span: nat, ghost after: nat) returns (span': nat)
      requires idx < |stack| && stack[idx] != [] && span == RestSize(stack[idx], 0) + after
      modifies this
      ensures stack == old(stack)[idx := JumpedLevel(old(stack)[idx], after)] && span' == after
    {
      var arms := stack[idx];
      span' := span;
      for i := 0 to |arms|
        invariant |stack| == |old(stack)| && stack == old(stack)[idx := stack[idx]] && |stack[idx]| == |arms|
        invariant forall j :: 0 <= j < i ==> stack[idx][j] == Jumped(arms, j, after)
        invariant forall j :: i <= j < |arms| ==> stack[idx][j] == arms[j]
        invariant span' == if i < |arms| then RestSize(arms, i) + after else after
      {
        var code := stack[idx][i];
        span' := span' - (|code| + 1);
        if i + 1 < |arms| {
          stack := stack[idx := stack[idx][i := code + [JmpByCall(span')]]];
          span' := span' - 1;
        }
      }
      assert stack[idx] == JumpedLevel(arms, after);
    }

    method PushJumpInstrs(depth: nat)
      requires depth <= |stack| && GoodNest(stack)
      modifies this
      ensures var base := |old(stack)| - depth;
              stack == old(stack)[..base] + JumpedNest(old(stack)[base..])
    {
      hide JumpedLevel, RestSize, NestSize, JumpedNest, Halfway;
      var span := JumpSpan(depth);
      var base := |stack| - depth;
      ghost var outer, levels, done, rest := stack[..base], stack[base..], [], stack[base..];
      HalfwayStart(outer, levels);
      assert stack == outer + levels;
      for idx := base to |stack|
        invariant |stack| == |outer| + |levels| && |outer| == base && |done| == idx - base
        invariant Halfway(outer, done, rest, levels, stack) && span == NestSpan(rest)
      {
        HalfwayStep(outer, done, rest, levels, stack);
        ghost var level := JumpedLevel(rest[0], NestSize(rest[1..]));
        span := JumpLevel(idx, span, NestSize(rest[1..]));
        done, rest := done + [level], rest[1..];
      }
      HalfwayDone(outer, done, rest, levels, stack);
    }

    /** Takes `depth` levels off the stack and combines them, innermost first. */
    method PopBranch(depth: nat, nonCountedBt: bool) returns (combined: Code)
      requires depth <= |stack| && GoodNest(stack)
      modifies this
      ensures stack == old(stack)[..|old(stack)| - depth]
      ensures combined == CombinedNest(old(stack)[|old(stack)| - depth..], nonCountedBt)
    {
      combined := [];
      var base := |stack| - depth;
      assert stack[|stack|..] == [];
      while |stack| > base
        invariant base <= |stack| <= |old(stack)| && stack == old(stack)[..|stack|]
        invariant combined == CombinedNest(old(stack)[|stack|..], nonCountedBt)
        decreases |stack|
      {
        var top := |stack| - 1;
        assert old(stack)[top..][1..] == old(stack)[top + 1..];
        var arms := Extended(stack[top], combined);
        combined := CombineArms(arms, nonCountedBt);
        stack := stack[..top];
      }
    }
  }

  method CombineArms(arms: seq<Code>, nonCountedBt: bool) returns (code: Code)
    ensures code == Combined(arms, |arms|, nonCountedBt)
  {
    code := [];
    for idx := 0 to |arms|
      invariant code == Combined(arms, idx, nonCountedBt)
    {
      var len := |arms[idx]| + 1;
      var choice :=
        if idx == 0 then TryMeElse(len)
        else if idx + 1 < |arms| then (if nonCountedBt then DefaultRetryMeElse(len) else RetryMeElse(len))
        else if nonCountedBt then DefaultTrustMe else TrustMe;
      code := code + [choice] + arms[idx];
    }
  }
}
