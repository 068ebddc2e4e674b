/**
 Permanent variables over a clause's tree of chunks and branches: when a variable's slot counts as holding its value.
 */
module PermWalk {
  import opened Options
  import opened PermSlots

  /** A step of a chunk: an occurrence of a variable, in the middle of a chunk or not; a cut point is taken; a cut goes
      through one outside tail position. */
  datatype Step =
    | Use(v: nat, chunk: nat, mid: bool)
    | TakePoint(v: nat, chunk: nat)
    | CutThrough(v: nat, chunk: nat)

  datatype Item = Chunk(steps: seq<Step>) | Branch(arms: seq<Arm>)

  datatype Arm = Arm(items: seq<Item>)

  /** The variables met first in some arm of a branch, and those met first in the arm that is being compiled. */
  datatype Occurrences = Occurrences(hits: set<nat>, subsumed: set<nat>)

  /** The allocator with its stack of branches. */
  datatype Walker = Walker(slots: Slots, stack: seq<Occurrences>)

  /** The slot of a variable counts as holding its value. */
  predicate HoldsValue(s: Slots, v: nat)
  {
    v < |s.records| && s.records[v].Perm? && s.records[v].p > 0 && s.records[v].done
  }

  /** add_branch_occurrence, in the innermost branch. */
  function Occur(stack: seq<Occurrences>, vs: set<nat>): seq<Occurrences>
  {
    if stack == [] then []
    else
      var top := stack[|stack| - 1];
      stack[|stack| - 1 := Occurrences(top.hits + vs, top.subsumed + vs)]
  }

  function Take(w: Walker, op: Op): Walker
  {
    w.(slots := Apply(w.slots, op))
  }

  predicate Permanent(s: Slots, v: nat)
  {
    v < |s.records| && s.records[v].Perm?
  }

  /** In the middle of a chunk a variable whose slot holds its value is only counted. A permanent variable
      without its value is new: it is recorded for the innermost branch. */
  function DoStep(w: Walker, step: Step): Walker
  {
    match step
    case Use(v, chunk, mid) =>
      if mid && HoldsValue(w.slots, v) then Take(w, Count(v))
      else
        var isNew := Permanent(w.slots, v) && !HoldsValue(w.slots, v);
        Take(w, Visit(v, chunk)).(stack := if isNew then Occur(w.stack, {v}) else w.stack)
    case TakePoint(v, chunk) => Take(w, MarkCut(v, chunk))
    case CutThrough(v, chunk) => Take(w, LocalCut(v, chunk))
  }

  function DoSteps(w: Walker, steps: seq<Step>): Walker
    decreases |steps|
  {
    if steps == [] then w else DoSteps(DoStep(w, steps[0]), steps[1..])
  }

  /** The first arm of a branch is entered. */
  function EnterBranch(w: Walker): Walker
  {
    Take(w, AddBranch({})).(stack := w.stack + [Occurrences({}, {})])
  }

  /** add_branch: the variables met first in the last arm start over in the next one. */
  function NextArm(w: Walker): Walker
  {
    if w.stack == [] then w
    else
      var top := w.stack[|w.stack| - 1];
      Take(w, AddBranch(top.subsumed)).(stack := w.stack[|w.stack| - 1 := Occurrences(top.hits, {})])
  }

  /** The variables of a branch that still occur after it. */
  function StillCounted(s: Slots, vs: set<nat>): set<nat>
  {
    set v | v in vs && Counted(s, v)
  }

  /** push_missing_vars and pop_branch, or nothing but leaving the branch in tail position. */
  function LeaveBranch(w: Walker, tail: bool): Walker
  {
    if w.stack == [] then w
    else
      var below, top := w.stack[..|w.stack| - 1], w.stack[|w.stack| - 1];
      if tail then w.(stack := below)
      else
        var hits := StillCounted(w.slots, top.hits);
        Take(w, PopBranch(hits)).(stack := Occur(below, hits))
  }

  function WalkItems(w: Walker, items: seq<Item>, tail: bool): Walker
    decreases items
  {
    if items == [] then w
    else WalkItems(WalkItem(w, items[0], tail && |items| == 1), items[1..], tail)
  }

  function WalkItem(w: Walker, item: Item, tail: bool): Walker
    decreases item
  {
    match item
    case Chunk(steps) => DoSteps(w, steps)
    case Branch(arms) =>
      if arms == [] then w
      else LeaveBranch(WalkItems(AtArm(w, item, |arms| - 1, tail), arms[|arms| - 1].items, tail), tail)
  }

  /** Arm `a` of a branch is entered. */
  function AtArm(w: Walker, branch: Item, a: nat, tail: bool): Walker
    requires branch.Branch? && a < |branch.arms|
    decreases branch, a
  {
    if a == 0 then EnterBranch(w) else NextArm(WalkItems(AtArm(w, branch, a - 1, tail), branch.arms[a - 1].items, tail))
  }

  // ----- places, and the way to them -----

  /** A place in a list of items: before the first item, in its steps, in one of its arms, or past it. */
  datatype Place = Before | AtStep(k: nat) | InArm(a: nat, place: Place) | Past(place: Place)

  predicate IsPlace(items: seq<Item>, place: Place)
    decreases place
  {
    match place
    case Before => true
    case AtStep(k) => items != [] && items[0].Chunk? && k <= |items[0].steps|
    case InArm(a, inner) =>
      items != [] && items[0].Branch? && a < |items[0].arms| && IsPlace(items[0].arms[a].items, inner)
    case Past(later) => items != [] && IsPlace(items[1..], later)
  }

  /** The state in which a place is reached. */
  function WalkTo(w: Walker, items: seq<Item>, tail: bool, place: Place): Walker
    requires IsPlace(items, place)
    decreases place
  {
    match place
    case Before => w
    case AtStep(k) => DoSteps(w, items[0].steps[..k])
    case InArm(a, inner) =>
      var inTail := tail && |items| == 1;
      WalkTo(AtArm(w, items[0], a, inTail), items[0].arms[a].items, inTail, inner)
    case Past(later) => WalkTo(WalkItem(w, items[0], tail && |items| == 1), items[1..], tail, later)
  }

  /** The variable of an occurrence. */
  function UsedBy(step: Step): set<nat>
  {
    if step.Use? then {step.v} else {}
  }

  function VarsOfSteps(steps: seq<Step>): set<nat>
    decreases |steps|
  {
    if steps == [] then {} else UsedBy(steps[0]) + VarsOfSteps(steps[1..])
  }

  /** The variables of some items, whichever arms are taken. */
  function VarsOf(items: seq<Item>): set<nat>
    decreases items
  {
    if items == [] then {} else VarsOfItem(items[0]) + VarsOf(items[1..])
  }

  function VarsOfItem(item: Item): set<nat>
    decreases item
  {
    match item
    case Chunk(steps) => VarsOfSteps(steps)
    case Branch(arms) => VarsOfArms(item, 0)
  }

  function VarsOfArms(branch: Item, from: nat): set<nat>
    requires branch.Branch? && from <= |branch.arms|
    decreases branch, |branch.arms| - from
  {
    if from == |branch.arms| then {} else VarsOf(branch.arms[from].items) + VarsOfArms(branch, from + 1)
  }

  /** The variables that occur on the way to a place: in the items passed, in any of their arms, and in the arm in which
      the place is, up to it. */
  function OnTheWay(items: seq<Item>, place: Place): set<nat>
    requires IsPlace(items, place)
    decreases place
  {
    match place
    case Before => {}
    case AtStep(k) => VarsOfSteps(items[0].steps[..k])
    case InArm(a, inner) => OnTheWay(items[0].arms[a].items, inner)
    case Past(later) => VarsOfItem(items[0]) + OnTheWay(items[1..], later)
  }

  // ----- the occurrences still to come -----

  function CountSteps(steps: seq<Step>, v: nat): nat
    decreases |steps|
  {
    if steps == [] then 0 else (if steps[0].Use? && steps[0].v == v then 1 else 0) + CountSteps(steps[1..], v)
  }

  /** How often a variable occurs, all arms counted. */
  function CountIn(items: seq<Item>, v: nat): nat
    decreases items
  {
    if items == [] then 0 else CountItem(items[0], v) + CountIn(items[1..], v)
  }

  function CountItem(item: Item, v: nat): nat
    decreases item
  {
    match item
    case Chunk(steps) => CountSteps(steps, v)
    case Branch(arms) => CountArms(item, 0, v)
  }

  function CountArms(branch: Item, from: nat, v: nat): nat
    requires branch.Branch? && from <= |branch.arms|
    decreases branch, |branch.arms| - from
  {
    if from == |branch.arms| then 0 else CountIn(branch.arms[from].items, v) + CountArms(branch, from + 1, v)
  }

  /** The occurrences from a place on, in the order in which the code is compiled. */
  function CountFrom(items: seq<Item>, place: Place, v: nat): nat
    requires IsPlace(items, place)
    decreases place
  {
    match place
    case Before => CountIn(items, v)
    case AtStep(k) => CountSteps(items[0].steps[k..], v) + CountIn(items[1..], v)
    case InArm(a, inner) =>
      CountFrom(items[0].arms[a].items, inner, v) + CountArms(items[0], a + 1, v) + CountIn(items[1..], v)
    case Past(later) => CountFrom(items[1..], later, v)
  }

  // ----- clauses as the classifier makes them -----

  /** Cut points have variables of their own. */
  predicate StepApart(step: Step, cuts: set<nat>)
  {
    step.v in cuts <==> !step.Use?
  }

  predicate CutsOwn(items: seq<Item>, cuts: set<nat>)
    decreases items
  {
    items == [] || (CutsOwnItem(items[0], cuts) && CutsOwn(items[1..], cuts))
  }

  predicate CutsOwnItem(item: Item, cuts: set<nat>)
    decreases item
  {
    match item
    case Chunk(steps) => forall k :: 0 <= k < |steps| ==> StepApart(steps[k], cuts)
    case Branch(arms) => CutsOwnArms(item, 0, cuts)
  }

  predicate CutsOwnArms(branch: Item, from: nat, cuts: set<nat>)
    requires branch.Branch? && from <= |branch.arms|
    decreases branch, |branch.arms| - from
  {
    from == |branch.arms| || (CutsOwn(branch.arms[from].items, cuts) && CutsOwnArms(branch, from + 1, cuts))
  }

  /** A variable that occurs in two arms of a branch in tail position occurs before the branch. */
  predicate ArmsApart(items: seq<Item>, tail: bool, met: set<nat>)
    decreases items
  {
    items != [] ==>
      && ItemApart(items[0], tail && |items| == 1, met)
      && ArmsApart(items[1..], tail, met + VarsOfItem(items[0]))
  }

  predicate ItemApart(item: Item, tail: bool, met: set<nat>)
    decreases item
  {
    item.Branch? ==> FromArmApart(item, 0, tail, met)
  }

  predicate FromArmApart(branch: Item, from: nat, tail: bool, met: set<nat>)
    requires branch.Branch? && from <= |branch.arms|
    decreases branch, |branch.arms| - from
  {
    from < |branch.arms| ==>
      && ArmsApart(branch.arms[from].items, tail, met)
      && (tail ==> VarsOf(branch.arms[from].items) * VarsOfArms(branch, from + 1) <= met)
      && FromArmApart(branch, from + 1, tail, met)
  }

  // ----- what is kept -----

  predicate OnlyCuts(free: seq<Freed>, cuts: set<nat>)
  {
    forall i :: 0 <= i < |free| ==> free[i].v in cuts
  }

  /** A permanent variable that is not a cut point. */
  predicate Proper(s: Slots, cuts: set<nat>, v: nat)
  {
    Permanent(s, v) && v !in cuts
  }

  predicate Sized(s: Slots)
  {
    |s.nums| == |s.counts| == |s.records| && s.permLb >= 1
  }

  /** Variables in use have a slot. */
  ghost predicate FineSlots(s: Slots, cuts: set<nat>)
  {
    && Sized(s) && OnlyCuts(s.free, cuts)
    && forall v: nat :: Proper(s, cuts, v) && s.records[v].done ==> s.records[v].p > 0
  }

  /** So have the variables recorded for a branch. */
  ghost predicate FineStack(stack: seq<Occurrences>, s: Slots, cuts: set<nat>)
  {
    forall i :: 0 <= i < |stack| ==> AllRecorded(s, cuts, stack[i].hits) && AllRecorded(s, cuts, stack[i].subsumed)
  }

  ghost predicate Fine(w: Walker, cuts: set<nat>)
  {
    FineSlots(w.slots, cuts) && FineStack(w.stack, w.slots, cuts)
  }

  predicate AllRecorded(s: Slots, cuts: set<nat>, vs: set<nat>)
  {
    forall v :: v in vs ==> Recorded(s, cuts, v)
  }

  predicate Recorded(s: Slots, cuts: set<nat>, v: nat)
  {
    Proper(s, cuts, v) && s.records[v].p > 0
  }

  /** The law: of the variables that still occur, those hold their values that occur on the way. */
  ghost predicate Law(s: Slots, cuts: set<nat>, met: set<nat>)
  {
    forall v: nat :: Proper(s, cuts, v) && Counted(s, v) ==> (HoldsValue(s, v) <==> v in met)
  }

  /** The same variables, of the same kinds. */
  ghost predicate Same(s: Slots, s': Slots)
  {
    && s'.nums == s.nums && |s'.counts| == |s.counts| && |s'.records| == |s.records|
    && forall v :: 0 <= v < |s.records| ==> s'.records[v].Perm? == s.records[v].Perm?
  }

  /** `x` are variables met first among `vars`: all of them that still occur. */
  ghost predicate Fresh(s: Slots, cuts: set<nat>, met: set<nat>, vars: set<nat>, x: set<nat>)
  {
    && x !! met && x <= vars
    && forall v :: v in vars && v !in met && Proper(s, cuts, v) && Counted(s, v) ==> v in x
  }

  lemma {:induction false} PopOthers(s: Slots, chunk: nat, cuts: set<nat>)
    requires OnlyCuts(s.free, cuts)
    ensures var popped := PopFreePerm(s, chunk);
            && Same(s, popped.slots) && popped.slots.counts == s.counts && popped.slots.permLb == s.permLb
            && OnlyCuts(popped.slots.free, cuts)
            && (popped.slot.Some? ==> popped.slot.value > 0)
            && forall v :: 0 <= v < |s.records| && v !in cuts ==> popped.slots.records[v] == s.records[v]
    decreases |s.free|
  {
    if s.free != [] && chunk > s.free[0].chunk && !CanTake(s.records, s.free[0].v) {
      PopOthers(s.(free := s.free[1..]), chunk, cuts);
    }
  }

  lemma {:induction false} AllocOthers(s: Slots, v: nat, chunk: nat, cuts: set<nat>)
    requires OnlyCuts(s.free, cuts) && v < |s.records| && s.records[v].Perm? && s.permLb >= 1
    ensures var s' := AllocPermVar(s, v, chunk);
            && Same(s, s') && s'.counts == s.counts && s'.permLb >= 1 && OnlyCuts(s'.free, cuts)
            && s'.records[v].Perm? && s'.records[v].p > 0 && s'.records[v].done
            && forall u :: 0 <= u < |s.records| && u !in cuts && u != v ==> s'.records[u] == s.records[u]
  {
    hide PopFreePerm;
    PopOthers(s, chunk, cuts);
  }

  lemma {:induction false} OccurNone(stack: seq<Occurrences>)
    ensures Occur(stack, {}) == stack
  {
    if stack != [] {
      var top := stack[|stack| - 1];
      assert top.hits + {} == top.hits && top.subsumed + {} == top.subsumed;
    }
  }

  lemma {:induction false} OccurTwice(stack: seq<Occurrences>, x: set<nat>, y: set<nat>)
    ensures Occur(Occur(stack, x), y) == Occur(stack, x + y)
  {
    if stack != [] {
      var top := stack[|stack| - 1];
      assert top.hits + x + y == top.hits + (x + y) && top.subsumed + x + y == top.subsumed + (x + y);
    }
  }

  /** Counters of proper variables go on by the given amounts. */
  ghost predicate Advanced(s: Slots, s': Slots, cuts: set<nat>, amount: nat -> nat)
  {
    Same(s, s') && Sized(s) && Sized(s') &&
    forall v: nat :: Proper(s, cuts, v) ==> s'.counts[v] == s.counts[v] + amount(v)
  }

  /** What marking an occurrence does to the slots. */
  lemma {:induction false} VisitOthers(s: Slots, v: nat, chunk: nat, cuts: set<nat>)
    requires Sized(s) && OnlyCuts(s.free, cuts) && v !in cuts && (Permanent(s, v) ==> Counted(s, v))
    ensures var s' := Apply(s, Visit(v, chunk));
            && Same(s, s') && Sized(s') && OnlyCuts(s'.free, cuts)
                && Advanced(s, s', cuts, u => if u == v then 1 else 0)
            && (Permanent(s, v) ==> HoldsValue(s', v))
            && forall u :: 0 <= u < |s.records| && u !in cuts && u != v ==> s'.records[u] == s.records[u]
  {
    hide AllocPermVar;
    if Permanent(s, v) && s.records[v].p == 0 {
      AllocOthers(s, v, chunk, cuts);
    }
  }

  lemma {:induction false} StackKept(stack: seq<Occurrences>, s: Slots, s': Slots, cuts: set<nat>)
    requires FineStack(stack, s, cuts) && forall v: nat :: Recorded(s, cuts, v) ==> Recorded(s', cuts, v)
    ensures FineStack(stack, s', cuts)
  {
    forall i | 0 <= i < |stack| ensures AllRecorded(s', cuts, stack[i].hits)
        && AllRecorded(s', cuts, stack[i].subsumed) {
      assert AllRecorded(s, cuts, stack[i].hits) && AllRecorded(s, cuts, stack[i].subsumed);
    }
  }

  lemma {:induction false} OccurFine(stack: seq<Occurrences>, s: Slots, cuts: set<nat>, x: set<nat>)
    requires FineStack(stack, s, cuts) && AllRecorded(s, cuts, x)
    ensures FineStack(Occur(stack, x), s, cuts)
  {
    hide Recorded;
  }

  /** One occurrence. */
  lemma {:induction false} UseKeeps(w: Walker, v: nat, chunk: nat, mid: bool, cuts: set<nat>,
                                    met: set<nat>) returns (x: set<nat>)
    requires Fine(w, cuts) && Law(w.slots, cuts, met) && v !in cuts && (Permanent(w.slots, v) ==> Counted(w.slots, v))
    ensures var w' := DoStep(w, Use(v, chunk, mid));
            && Fine(w', cuts) && Law(w'.slots, cuts, met + {v}) && w'.stack == Occur(w.stack, x)
            && Advanced(w.slots, w'.slots, cuts, u => if u == v then 1 else 0)
            && Fresh(w'.slots, cuts, met, {v}, x)
  {
    hide AllRecorded;
    var w' := DoStep(w, Use(v, chunk, mid));
    x := if Permanent(w.slots, v) && !HoldsValue(w.slots, v) then {v} else {};
    OccurNone(w.stack);
    if !(mid && HoldsValue(w.slots, v)) {
      VisitOthers(w.slots, v, chunk, cuts);
    }
    StackKept(w.stack, w.slots, w'.slots, cuts);
    assert AllRecorded(w'.slots, cuts, x) by { OneRecorded(w'.slots, cuts, v, x); }
    OccurFine(w.stack, w'.slots, cuts, x);
  }

  lemma {:induction false} OneRecorded(s: Slots, cuts: set<nat>, v: nat, x: set<nat>)
    requires x <= {v} && (x != {} ==> Recorded(s, cuts, v))
    ensures AllRecorded(s, cuts, x)
  {
  }

  /** A step for a cut point. */
  lemma {:induction false} CutStepKeeps(w: Walker, step: Step, cuts: set<nat>, met: set<nat>)
    requires Fine(w, cuts) && Law(w.slots, cuts, met) && !step.Use? && step.v in cuts
    ensures var w' := DoStep(w, step);
            && Fine(w', cuts) && Law(w'.slots, cuts, met) && w'.stack == w.stack
            && Advanced(w.slots, w'.slots, cuts, u => 0)
  {
    hide AllocPermVar, AllRecorded;
    if step.TakePoint? && Permanent(w.slots, step.v) && w.slots.records[step.v].p == 0 {
      AllocOthers(w.slots, step.v, step.chunk, cuts);
    }
    StackKept(w.stack, w.slots, DoStep(w, step).slots, cuts);
  }

  /** There are enough occurrences left for some more. */
  ghost predicate Room(s: Slots, cuts: set<nat>, amount: nat -> nat)
  {
    Sized(s) && forall v: nat :: Proper(s, cuts, v) ==> s.counts[v] + amount(v) <= s.nums[v]
  }

  /** These are all the occurrences that variables met here have left. */
  ghost predicate NoMore(s: Slots, cuts: set<nat>, vars: set<nat>, met: set<nat>, amount: nat -> nat)
  {
    Sized(s) && forall v: nat :: Proper(s, cuts, v) && v in vars && v !in met ==> s.counts[v] + amount(v) == s.nums[v]
  }

  /** What walking from one state to another keeps, and adds to the way. */
  ghost predicate Went(w: Walker, w': Walker, cuts: set<nat>, met: set<nat>, vars: set<nat>, x: set<nat>)
  {
    && Fine(w', cuts) && Law(w'.slots, cuts, met + vars) && w'.stack == Occur(w.stack, x)
    && Same(w.slots, w'.slots) && Fresh(w'.slots, cuts, met, vars, x)
  }

  lemma {:induction false} WentOn(w: Walker, w1: Walker, w2: Walker, cuts: set<nat>, met: set<nat>, vars1: set<nat>,
                                  vars2: set<nat>, x1: set<nat>, x2: set<nat>, amount1: nat -> nat, amount2: nat -> nat)
    requires Went(w, w1, cuts, met, vars1, x1) && Went(w1, w2, cuts, met + vars1, vars2, x2)
    requires Advanced(w.slots, w1.slots, cuts, amount1) && Advanced(w1.slots, w2.slots, cuts, amount2)
    ensures Went(w, w2, cuts, met, vars1 + vars2, x1 + x2)
    ensures Advanced(w.slots, w2.slots, cuts, v => amount1(v) + amount2(v))
  {
    hide Fine;
    OccurTwice(w.stack, x1, x2);
    assert met + vars1 + vars2 == met + (vars1 + vars2);
  }

  lemma {:induction false} WentNowhere(w: Walker, cuts: set<nat>, met: set<nat>)
    requires Fine(w, cuts) && Law(w.slots, cuts, met)
    ensures Went(w, w, cuts, met, {}, {}) && Advanced(w.slots, w.slots, cuts, v => 0)
  {
    hide FineStack;
    OccurNone(w.stack);
    assert met + {} == met;
  }

  lemma {:induction false} StepWent(w: Walker, step: Step, cuts: set<nat>, met: set<nat>) returns (x: set<nat>)
    requires Fine(w, cuts) && Law(w.slots, cuts, met) && StepApart(step, cuts)
    requires step.Use? && Permanent(w.slots, step.v) ==> Counted(w.slots, step.v)
    ensures Went(w, DoStep(w, step), cuts, met, UsedBy(step), x)
    ensures Advanced(w.slots, DoStep(w, step).slots, cuts, v => if step.Use? && step.v == v then 1 else 0)
  {
    hide Fine, Law, DoStep;
    if step.Use? {
      x := UseKeeps(w, step.v, step.chunk, step.mid, cuts, met);
    } else {
      x := {};
      CutStepKeeps(w, step, cuts, met);
      OccurNone(w.stack);
      assert met + {} == met;
    }
  }

  lemma {:induction false} StepsWent(w: Walker, steps: seq<Step>, cuts: set<nat>, met: set<nat>) returns (x: set<nat>)
    requires Fine(w, cuts) && Law(w.slots, cuts, met) && forall k :: 0 <= k < |steps| ==> StepApart(steps[k], cuts)
    requires Room(w.slots, cuts, v => CountSteps(steps, v))
    ensures Went(w, DoSteps(w, steps), cuts, met, VarsOfSteps(steps), x)
    ensures Advanced(w.slots, DoSteps(w, steps).slots, cuts, v => CountSteps(steps, v))
    decreases |steps|
  {
    hide Fine, Law, DoStep, Went, StepApart, UsedBy;
    if steps == [] {
      x := {};
      WentNowhere(w, cuts, met);
    } else {
      var w1, rest := DoStep(w, steps[0]), steps[1..];
      StepCounted(w, steps, cuts);
      var x1 := StepWent(w, steps[0], cuts, met);
      WentParts(w, w1, cuts, met, UsedBy(steps[0]), x1);
      var x2 := StepsWent(w1, rest, cuts, met + UsedBy(steps[0]));
      WentOn(w, w1, DoSteps(w1, rest), cuts, met, UsedBy(steps[0]), VarsOfSteps(rest), x1, x2,
          v => if steps[0].Use? && steps[0].v == v then 1 else 0, v => CountSteps(rest, v));
      x := x1 + x2;
    }
  }

  lemma {:induction false} WentParts(w: Walker, w': Walker, cuts: set<nat>, met: set<nat>, vars: set<nat>, x: set<nat>)
    requires Went(w, w', cuts, met, vars, x)
    ensures Fine(w', cuts) && Law(w'.slots, cuts, met + vars) && Same(w.slots, w'.slots)
  {
  }

  lemma {:induction false} StepCounted(w: Walker, steps: seq<Step>, cuts: set<nat>)
    requires steps != [] && Room(w.slots, cuts, v => CountSteps(steps, v)) && StepApart(steps[0], cuts)
    ensures steps[0].Use? && Permanent(w.slots, steps[0].v) ==> Counted(w.slots, steps[0].v)
  {
  }

  // ----- branches -----

  /** The variables of the arms before arm `a`, and their occurrences. */
  function VarsBelow(branch: Item, a: nat): set<nat>
    requires branch.Branch? && a <= |branch.arms|
  {
    if a == 0 then {} else VarsBelow(branch, a - 1) + VarsOf(branch.arms[a - 1].items)
  }

  function CountBelow(branch: Item, a: nat, v: nat): nat
    requires branch.Branch? && a <= |branch.arms|
  {
    if a == 0 then 0 else CountBelow(branch, a - 1, v) + CountIn(branch.arms[a - 1].items, v)
  }

  lemma {:induction false} CountSplit(branch: Item, a: nat, v: nat)
    requires branch.Branch? && a <= |branch.arms|
    ensures CountArms(branch, 0, v) == CountBelow(branch, a, v) + CountArms(branch, a, v)
  {
    if a > 0 {
      CountSplit(branch, a - 1, v);
    }
  }

  lemma {:induction false} VarsSplit(branch: Item, a: nat)
    requires branch.Branch? && a <= |branch.arms|
    ensures VarsOfArms(branch, 0) == VarsBelow(branch, a) + VarsOfArms(branch, a)
  {
    if a > 0 {
      VarsSplit(branch, a - 1);
    }
  }

  lemma {:induction false} NoSteps(steps: seq<Step>, v: nat)
    requires v !in VarsOfSteps(steps)
    ensures CountSteps(steps, v) == 0
    decreases |steps|
  {
    if steps != [] {
      NoSteps(steps[1..], v);
    }
  }

  /** A variable that does not occur is not counted. */
  lemma {:induction false} NoneIn(items: seq<Item>, v: nat)
    requires v !in VarsOf(items)
    ensures CountIn(items, v) == 0
    decreases items
  {
    if items != [] {
      NoneInItem(items[0], v);
      NoneIn(items[1..], v);
    }
  }

  lemma {:induction false} NoneInItem(item: Item, v: nat)
    requires v !in VarsOfItem(item)
    ensures CountItem(item, v) == 0
    decreases item
  {
    match item
    case Chunk(steps) => NoSteps(steps, v);
    case Branch(_) => NoneInArms(item, 0, v);
  }

  lemma {:induction false} NoneInArms(branch: Item, from: nat, v: nat)
    requires branch.Branch? && from <= |branch.arms| && v !in VarsOfArms(branch, from)
    ensures CountArms(branch, from, v) == 0
    decreases branch, |branch.arms| - from
  {
    if from < |branch.arms| {
      NoneIn(branch.arms[from].items, v);
      NoneInArms(branch, from + 1, v);
    }
  }

  lemma {:induction false} ArmOwn(branch: Item, a: nat, cuts: set<nat>, tail: bool, met: set<nat>, from: nat)
    requires branch.Branch? && from <= a < |branch.arms| && CutsOwnArms(branch, from, cuts)
    requires FromArmApart(branch, from, tail, met)
    ensures CutsOwn(branch.arms[a].items, cuts) && ArmsApart(branch.arms[a].items, tail, met)
    ensures tail ==> VarsOf(branch.arms[a].items) * VarsOfArms(branch, a + 1) <= met
    decreases a - from
  {
    if from < a {
      ArmOwn(branch, a, cuts, tail, met, from + 1);
    }
  }

  /** An item is about to be walked. */
  ghost predicate Ready(w: Walker, item: Item, tail: bool, cuts: set<nat>, met: set<nat>)
  {
    && Fine(w, cuts) && Law(w.slots, cuts, met) && CutsOwnItem(item, cuts) && ItemApart(item, tail, met)
    && Room(w.slots, cuts, v => CountItem(item, v))
    && (tail ==> NoMore(w.slots, cuts, VarsOfItem(item), met, v => CountItem(item, v)))
  }

  /** Items are about to be walked. */
  ghost predicate ReadyAll(w: Walker, items: seq<Item>, tail: bool, cuts: set<nat>, met: set<nat>)
  {
    && Fine(w, cuts) && Law(w.slots, cuts, met) && CutsOwn(items, cuts) && ArmsApart(items, tail, met)
    && Room(w.slots, cuts, v => CountIn(items, v))
    && (tail ==> NoMore(w.slots, cuts, VarsOf(items), met, v => CountIn(items, v)))
  }

  /** Arm `a` is entered; `h` are the variables met first in the arms before. */
  ghost predicate InBranch(w: Walker, w1: Walker, branch: Item, a: nat, cuts: set<nat>, met: set<nat>, h: set<nat>)
    requires branch.Branch? && a <= |branch.arms|
  {
    && Fine(w1, cuts) && Law(w1.slots, cuts, met) && w1.stack == w.stack + [Occurrences(h, {})]
    && Same(w.slots, w1.slots) && Fresh(w1.slots, cuts, met, VarsBelow(branch, a), h)
    && Advanced(w.slots, w1.slots, cuts, v => CountBelow(branch, a, v))
  }

  lemma {:induction false} ArmReady(w: Walker, w1: Walker, branch: Item, a: nat, tail: bool, cuts: set<nat>,
                                    met: set<nat>, h: set<nat>)
    requires branch.Branch? && a < |branch.arms| && Ready(w, branch, tail, cuts, met)
    requires InBranch(w, w1, branch, a, cuts, met, h)
    ensures ReadyAll(w1, branch.arms[a].items, tail, cuts, met)
  {
    hide Fine, Law, Fresh, CountIn, CountBelow, VarsOf, Counted;
    ArmOwn(branch, a, cuts, tail, met, 0);
    VarsSplit(branch, a);
    forall v: nat | Proper(w.slots, cuts, v)
      ensures w1.slots.counts[v] + CountIn(branch.arms[a].items, v) + CountArms(branch, a + 1, v)
              == w.slots.counts[v] + CountItem(branch, v)
      ensures v !in VarsOfArms(branch, a + 1) ==> CountArms(branch, a + 1, v) == 0
    {
      CountSplit(branch, a, v);
      if v !in VarsOfArms(branch, a + 1) {
        NoneInArms(branch, a + 1, v);
      }
    }
  }

  lemma {:induction false} BranchEntered(w: Walker, branch: Item, tail: bool, cuts: set<nat>, met: set<nat>)
    requires branch.Branch? && Ready(w, branch, tail, cuts, met)
    ensures InBranch(w, EnterBranch(w), branch, 0, cuts, met, {})
  {
    hide CountItem, CutsOwnItem, ItemApart, VarsOfItem, Room, NoMore, Law;
    assert SetDone(w.slots.records, {}, false) == w.slots.records;
    assert EnterBranch(w).slots == w.slots;
  }

  lemma {:induction false} DoneLaw(s: Slots, s': Slots, cuts: set<nat>, met: set<nat>, vars: set<nat>, x: set<nat>)
    requires Law(s, cuts, met + vars) && Fresh(s, cuts, met, vars, x) && Sized(s)
    requires s' == s.(records := SetDone(s.records, x, false))
    ensures Law(s', cuts, met)
  {
    forall v: nat | Proper(s', cuts, v) && Counted(s', v) ensures HoldsValue(s', v) <==> v in met {
      assert Proper(s, cuts, v) && Counted(s, v);
    }
  }

  lemma {:induction false} SetDoneFine(s: Slots, s': Slots, x: set<nat>, done: bool, cuts: set<nat>)
    requires FineSlots(s, cuts) && AllRecorded(s, cuts, x) && s' == s.(records := SetDone(s.records, x, done))
    ensures FineSlots(s', cuts) && Same(s, s')
    ensures forall v: nat :: Recorded(s, cuts, v) ==> Recorded(s', cuts, v)
  {
    forall v: nat | Proper(s', cuts, v) && s'.records[v].done ensures s'.records[v].p > 0 {
      assert v in x ==> Recorded(s, cuts, v);
      assert Proper(s, cuts, v);
    }
  }

  /** From one arm to the next. */
  lemma {:induction false} ArmLeft(w: Walker, w1: Walker, w2: Walker, branch: Item, a: nat, cuts: set<nat>,
                                   met: set<nat>, h: set<nat>, x: set<nat>)
    requires branch.Branch? && a < |branch.arms| && InBranch(w, w1, branch, a, cuts, met, h)
    requires Went(w1, w2, cuts, met, VarsOf(branch.arms[a].items), x)
    requires Advanced(w1.slots, w2.slots, cuts, v => CountIn(branch.arms[a].items, v))
    ensures InBranch(w, NextArm(w2), branch, a + 1, cuts, met, h + x)
  {
    hide AllRecorded, Law, CountIn, VarsOf, SetDone, OnlyCuts, Counted, HoldsValue;
    var vars, w3, depth := VarsOf(branch.arms[a].items), NextArm(w2), |w.stack|;
    assert w2.stack == w.stack + [Occurrences(h + x, {} + x)];
    assert {} + x == x && w2.stack[depth] == Occurrences(h + x, x);
    assert AllRecorded(w2.slots, cuts, w2.stack[depth].subsumed);
    SetDoneFine(w2.slots, w3.slots, x, false, cuts);
    DoneLaw(w2.slots, w3.slots, cuts, met, vars, x);
    StackKept(w2.stack, w2.slots, w3.slots, cuts);
    NothingRecorded(w3.slots, cuts);
    assert w3.stack == w.stack + [Occurrences(h + x, {})];
    MoreFresh(w1.slots, w2.slots, w3.slots, cuts, met, VarsBelow(branch, a), vars, h, x);
  }

  lemma {:induction false} NothingRecorded(s: Slots, cuts: set<nat>)
    ensures AllRecorded(s, cuts, {})
  {
  }

  lemma {:induction false} MoreFresh(s1: Slots, s2: Slots, s3: Slots, cuts: set<nat>, met: set<nat>, below: set<nat>,
                                     vars: set<nat>, h: set<nat>, x: set<nat>)
    requires Fresh(s1, cuts, met, below, h) && Fresh(s2, cuts, met, vars, x) && Same(s1, s2) && Same(s2, s3)
    requires s3.counts == s2.counts && Sized(s1) && Sized(s2)
    requires forall v :: 0 <= v < |s1.records| && Proper(s1, cuts, v) ==> s2.counts[v] >= s1.counts[v]
    ensures Fresh(s3, cuts, met, below + vars, h + x)
  {
  }

  /** Past a branch in tail position none of its new variables occurs. */
  lemma {:induction false} TailLeft(s0: Slots, s: Slots, cuts: set<nat>, met: set<nat>, vars: set<nat>, whole: set<nat>,
                                    amount: nat -> nat)
    requires Law(s, cuts, met + vars) && vars <= whole && Sized(s)
    requires NoMore(s0, cuts, whole, met, amount) && Advanced(s0, s, cuts, amount)
    ensures Law(s, cuts, met + whole) && Fresh(s, cuts, met, whole, {})
  {
    hide HoldsValue;
    forall v: nat | Proper(s, cuts, v) && Counted(s, v) ensures v in whole ==> v in met {
      assert Proper(s0, cuts, v);
    }
  }

  /** Past any other branch all of its variables hold their values that still occur. */
  lemma {:induction false} JoinLaw(s: Slots, s': Slots, cuts: set<nat>, met: set<nat>, vars: set<nat>, whole: set<nat>,
                                   x: set<nat>)
    requires Law(s, cuts, met + vars) && vars <= whole && Fresh(s, cuts, met, whole, x) && Sized(s)
            && AllRecorded(s, cuts, x)
    requires s' == s.(records := SetDone(s.records, StillCounted(s, x), true))
    ensures Law(s', cuts, met + whole) && Fresh(s', cuts, met, whole, StillCounted(s, x))
  {
    forall v: nat | Proper(s', cuts, v) && Counted(s', v) ensures HoldsValue(s', v) <==> v in met + whole {
      assert Proper(s, cuts, v) && Counted(s, v);
      assert v in x ==> Recorded(s, cuts, v);
    }
  }

  lemma {:induction false} WholeBranch(branch: Item)
    requires branch.Branch? && branch.arms != []
    ensures var last := |branch.arms| - 1;
            && VarsOfItem(branch) == VarsBelow(branch, last) + VarsOf(branch.arms[last].items)
            && forall v :: CountItem(branch, v) == CountBelow(branch, last, v) + CountIn(branch.arms[last].items, v)
  {
    var n := |branch.arms|;
    VarsSplit(branch, n);
    forall v ensures CountItem(branch, v) == CountBelow(branch, n - 1, v) + CountIn(branch.arms[n - 1].items, v) {
      CountSplit(branch, n, v);
    }
  }

  /** The branch is left. */
  lemma {:induction false} BranchLeft(w: Walker, w1: Walker, w2: Walker, branch: Item, tail: bool, cuts: set<nat>,
                                      met: set<nat>, h: set<nat>, x: set<nat>) returns (y: set<nat>)
    requires branch.Branch? && branch.arms != [] && Ready(w, branch, tail, cuts, met)
    requires InBranch(w, w1, branch, |branch.arms| - 1, cuts, met, h)
    requires Went(w1, w2, cuts, met, VarsOf(branch.arms[|branch.arms| - 1].items), x)
    requires Advanced(w1.slots, w2.slots, cuts, v => CountIn(branch.arms[|branch.arms| - 1].items, v))
    ensures Went(w, LeaveBranch(w2, tail), cuts, met, VarsOfItem(branch), y)
    ensures Advanced(w.slots, LeaveBranch(w2, tail).slots, cuts, v => CountItem(branch, v))
  {
    hide AllRecorded, Law, CountIn, VarsOf, SetDone, OnlyCuts, Counted, HoldsValue, CutsOwnItem, ItemApart, Room,
        NoMore,
      VarsOfItem, CountItem, StillCounted, CountBelow, VarsBelow;
    var last, depth := |branch.arms| - 1, |w.stack|;
    var vars, whole, w3 := VarsOf(branch.arms[last].items), VarsOfItem(branch), LeaveBranch(w2, tail);
    WholeBranch(branch);
    assert {} + x == x && w2.stack == w.stack + [Occurrences(h + x, x)];
    assert w2.stack[..depth] == w.stack && w2.stack[depth] == Occurrences(h + x, x);
    assert Advanced(w.slots, w2.slots, cuts, v => CountItem(branch, v));
    MoreFresh(w1.slots, w2.slots, w2.slots, cuts, met, VarsBelow(branch, last), vars, h, x);
    BelowFine(w2.stack, w2.slots, cuts);
    if tail {
      y := {};
      OccurNone(w.stack);
      TailLeft(w.slots, w2.slots, cuts, met, vars, whole, v => CountItem(branch, v));
    } else {
      y := StillCounted(w2.slots, h + x);
      SameStill(w2.slots, h + x);
      assert AllRecorded(w2.slots, cuts, w2.stack[depth].hits);
      JoinLaw(w2.slots, w3.slots, cuts, met, vars, whole, h + x);
      StillRecorded(w2.slots, cuts, h + x);
      SetDoneFine(w2.slots, w3.slots, y, true, cuts);
      StackKept(w.stack, w2.slots, w3.slots, cuts);
      assert AllRecorded(w3.slots, cuts, y) by { RecordedKept(w2.slots, w3.slots, cuts, y); }
      OccurFine(w.stack, w3.slots, cuts, y);
    }
  }

  lemma {:induction false} BelowFine(stack: seq<Occurrences>, s: Slots, cuts: set<nat>)
    requires FineStack(stack, s, cuts) && stack != []
    ensures FineStack(stack[..|stack| - 1], s, cuts)
  {
    hide AllRecorded;
  }

  lemma {:induction false} SameStill(s: Slots, vs: set<nat>)
    ensures (set v | v in StillCounted(s, vs) && Counted(s, v)) == StillCounted(s, vs)
  {
  }

  lemma {:induction false} StillRecorded(s: Slots, cuts: set<nat>, vs: set<nat>)
    requires AllRecorded(s, cuts, vs)
    ensures AllRecorded(s, cuts, StillCounted(s, vs))
  {
  }

  lemma {:induction false} RecordedKept(s: Slots, s': Slots, cuts: set<nat>, vs: set<nat>)
    requires AllRecorded(s, cuts, vs) && forall v: nat :: Recorded(s, cuts, v) ==> Recorded(s', cuts, v)
    ensures AllRecorded(s', cuts, vs)
  {
  }

  // ----- whole walks -----

  lemma {:induction false} HeadReady(w: Walker, items: seq<Item>, tail: bool, cuts: set<nat>, met: set<nat>)
    requires ReadyAll(w, items, tail, cuts, met) && items != []
    ensures Ready(w, items[0], tail && |items| == 1, cuts, met)
  {
    hide Fine, Law;
    if tail && |items| == 1 {
      assert items[1..] == [];
      forall v ensures CountIn(items, v) == CountItem(items[0], v) {
        assert CountIn(items[1..], v) == 0;
      }
      assert VarsOf(items) == VarsOfItem(items[0]) + {};
    }
  }

  lemma {:induction false} RestReady(w: Walker, w1: Walker, items: seq<Item>, tail: bool, cuts: set<nat>, met: set<nat>,
                                     x: set<nat>)
    requires ReadyAll(w, items, tail, cuts, met) && items != []
    requires Went(w, w1, cuts, met, VarsOfItem(items[0]), x)
    requires Advanced(w.slots, w1.slots, cuts, v => CountItem(items[0], v))
    ensures ReadyAll(w1, items[1..], tail, cuts, met + VarsOfItem(items[0]))
  {
    hide Fine, Law, VarsOfItem, CountItem, ItemApart, CutsOwnItem;
  }

  lemma {:induction false} ItemsWent(w: Walker, items: seq<Item>, tail: bool, cuts: set<nat>, met: set<nat>)
    returns (x: set<nat>)
    requires ReadyAll(w, items, tail, cuts, met)
    ensures Went(w, WalkItems(w, items, tail), cuts, met, VarsOf(items), x)
    ensures Advanced(w.slots, WalkItems(w, items, tail).slots, cuts, v => CountIn(items, v))
    decreases items
  {
    hide Ready, ReadyAll, Went, WalkItem, VarsOfItem, CountItem;
    if items == [] {
      x := {};
      ReadyParts(w, items, tail, cuts, met);
      WentNowhere(w, cuts, met);
    } else {
      var head, rest := items[0], items[1..];
      var w1 := WalkItem(w, head, tail && |items| == 1);
      HeadReady(w, items, tail, cuts, met);
      var x1 := ItemWent(w, head, tail && |items| == 1, cuts, met);
      RestReady(w, w1, items, tail, cuts, met, x1);
      var x2 := ItemsWent(w1, rest, tail, cuts, met + VarsOfItem(head));
      WentOn(w, w1, WalkItems(w1, rest, tail), cuts, met, VarsOfItem(head), VarsOf(rest), x1, x2,
          v => CountItem(head, v), v => CountIn(rest, v));
      x := x1 + x2;
    }
  }

  lemma {:induction false} ReadyParts(w: Walker, items: seq<Item>, tail: bool, cuts: set<nat>, met: set<nat>)
    requires ReadyAll(w, items, tail, cuts, met)
    ensures Fine(w, cuts) && Law(w.slots, cuts, met)
  {
  }

  lemma {:induction false} ItemWent(w: Walker, item: Item, tail: bool, cuts: set<nat>, met: set<nat>)
    returns (x: set<nat>)
    requires Ready(w, item, tail, cuts, met)
    ensures Went(w, WalkItem(w, item, tail), cuts, met, VarsOfItem(item), x)
    ensures Advanced(w.slots, WalkItem(w, item, tail).slots, cuts, v => CountItem(item, v))
    decreases item
  {
    hide Went, Law, Fine, LeaveBranch, VarsOf, CountIn, WalkItems, AtArm;
    match item
    case Chunk(steps) =>
      x := StepsWent(w, steps, cuts, met);
      assert forall v :: CountItem(item, v) == CountSteps(steps, v);
    case Branch(arms) =>
      if arms == [] {
        x := {};
        assert forall v :: CountItem(item, v) == 0;
        WentNowhere(w, cuts, met);
      } else {
        var last := |arms| - 1;
        var w1 := AtArm(w, item, last, tail);
        var h := AtArmWent(w, item, last, tail, cuts, met);
        ArmReady(w, w1, item, last, tail, cuts, met, h);
        var y := ItemsWent(w1, arms[last].items, tail, cuts, met);
        x := BranchLeft(w, w1, WalkItems(w1, arms[last].items, tail), item, tail, cuts, met, h, y);
      }
  }

  lemma {:induction false} AtArmWent(w: Walker, branch: Item, a: nat, tail: bool, cuts: set<nat>, met: set<nat>)
    returns (h: set<nat>)
    requires branch.Branch? && a < |branch.arms| && Ready(w, branch, tail, cuts, met)
    ensures InBranch(w, AtArm(w, branch, a, tail), branch, a, cuts, met, h)
    decreases branch, a
  {
    hide Ready, ReadyAll, InBranch, Went, WalkItems, CountIn, NextArm;
    if a == 0 {
      h := {};
      BranchEntered(w, branch, tail, cuts, met);
    } else {
      var w1, arm := AtArm(w, branch, a - 1, tail), branch.arms[a - 1].items;
      var h1 := AtArmWent(w, branch, a - 1, tail, cuts, met);
      ArmReady(w, w1, branch, a - 1, tail, cuts, met, h1);
      var x := ItemsWent(w1, arm, tail, cuts, met);
      ArmLeft(w, w1, WalkItems(w1, arm, tail), branch, a - 1, cuts, met, h1, x);
      h := h1 + x;
    }
  }

  // ----- the law -----

  /** The law at every place: after what is on the way. */
  lemma {:induction false} PlaceLaw(w: Walker, items: seq<Item>, tail: bool, place: Place, cuts: set<nat>,
                                    met: set<nat>)
    requires IsPlace(items, place) && ReadyAll(w, items, tail, cuts, met)
    ensures Law(WalkTo(w, items, tail, place).slots, cuts, met + OnTheWay(items, place))
    ensures Same(w.slots, WalkTo(w, items, tail, place).slots)
    decreases place
  {
    hide ReadyAll, Ready, Law, WalkItem, AtArm, DoSteps;
    match place
    case Before =>
      ReadyParts(w, items, tail, cuts, met);
      assert met + {} == met;
    case AtStep(k) =>
      HeadReady(w, items, tail, cuts, met);
      StepsReady(w, items[0], tail && |items| == 1, k, cuts, met);
      var x := StepsWent(w, items[0].steps[..k], cuts, met);
    case InArm(a, inner) =>
      var inTail := tail && |items| == 1;
      HeadReady(w, items, tail, cuts, met);
      var h := AtArmWent(w, items[0], a, inTail, cuts, met);
      var w1 := AtArm(w, items[0], a, inTail);
      ArmReady(w, w1, items[0], a, inTail, cuts, met, h);
      PlaceLaw(w1, items[0].arms[a].items, inTail, inner, cuts, met);
    case Past(later) =>
      var head := items[0];
      var w1 := WalkItem(w, head, tail && |items| == 1);
      HeadReady(w, items, tail, cuts, met);
      var x := ItemWent(w, head, tail && |items| == 1, cuts, met);
      RestReady(w, w1, items, tail, cuts, met, x);
      PlaceLaw(w1, items[1..], tail, later, cuts, met + VarsOfItem(head));
      assert met + VarsOfItem(head) + OnTheWay(items[1..], later) == met
              + (VarsOfItem(head) + OnTheWay(items[1..], later));
  }

  lemma {:induction false} StepsReady(w: Walker, item: Item, tail: bool, k: nat, cuts: set<nat>, met: set<nat>)
    requires item.Chunk? && k <= |item.steps| && Ready(w, item, tail, cuts, met)
    ensures Fine(w, cuts) && Law(w.slots, cuts, met)
    ensures forall j :: 0 <= j < k ==> StepApart(item.steps[..k][j], cuts)
    ensures Room(w.slots, cuts, v => CountSteps(item.steps[..k], v))
  {
    hide Fine, Law, StepApart;
    forall v ensures CountSteps(item.steps[..k], v) <= CountSteps(item.steps, v) { CountPrefix(item.steps, k, v); }
  }

  lemma {:induction false} CountPrefix(steps: seq<Step>, k: nat, v: nat)
    requires k <= |steps|
    ensures CountSteps(steps[..k], v) <= CountSteps(steps, v)
    decreases |steps|
  {
    if k > 0 {
      assert steps[..k][1..] == steps[1..][..k - 1];
      CountPrefix(steps[1..], k - 1, v);
    }
  }

  /** A clause with its head as the classifier leaves it: cut points are apart, the recorded number of occurrences of a
      variable is how often it occurs, and one that occurs in two arms of a branch in tail position
      occurs before the branch. */
  ghost predicate Classified(s: Slots, items: seq<Item>, cuts: set<nat>)
  {
    && Start(s) && CutsOwn(items, cuts) && ArmsApart(items, true, {})
    && forall v: nat :: Proper(s, cuts, v) ==> s.nums[v] == CountIn(items, v)
  }

  lemma {:induction false} StartReady(s: Slots, items: seq<Item>, cuts: set<nat>)
    requires Classified(s, items, cuts)
    ensures ReadyAll(Walker(s, []), items, true, cuts, {})
  {
    hide CutsOwn, ArmsApart, CountIn, VarsOf;
  }

  /** The counter of a variable, and its occurrences from a place on. */
  lemma {:induction false} PlaceCounts(w: Walker, items: seq<Item>, tail: bool, place: Place, cuts: set<nat>,
                                       met: set<nat>)
    requires IsPlace(items, place) && ReadyAll(w, items, tail, cuts, met)
    ensures var now := WalkTo(w, items, tail, place).slots;
            && Same(w.slots, now) && Sized(w.slots) && Sized(now)
            && forall v: nat :: Proper(w.slots, cuts, v) ==>
                 now.counts[v] + CountFrom(items, place, v) == w.slots.counts[v] + CountIn(items, v)
    decreases place
  {
    hide ReadyAll, Ready, Law, WalkItem, AtArm, DoSteps;
    match place
    case Before =>
      ReadyParts(w, items, tail, cuts, met);
    case AtStep(k) =>
      HeadReady(w, items, tail, cuts, met);
      StepsReady(w, items[0], tail && |items| == 1, k, cuts, met);
      var x := StepsWent(w, items[0].steps[..k], cuts, met);
      forall v ensures CountSteps(items[0].steps, v) ==
                       CountSteps(items[0].steps[..k], v) + CountSteps(items[0].steps[k..], v) {
        StepsSplit(items[0].steps, k, v);
      }
    case InArm(a, inner) =>
      var inTail := tail && |items| == 1;
      HeadReady(w, items, tail, cuts, met);
      var h := AtArmWent(w, items[0], a, inTail, cuts, met);
      var w1 := AtArm(w, items[0], a, inTail);
      ArmReady(w, w1, items[0], a, inTail, cuts, met, h);
      PlaceCounts(w1, items[0].arms[a].items, inTail, inner, cuts, met);
      forall v ensures CountItem(items[0], v) == CountBelow(items[0], a, v) + CountArms(items[0], a, v) {
        CountSplit(items[0], a, v);
      }
    case Past(later) =>
      var head := items[0];
      var w1 := WalkItem(w, head, tail && |items| == 1);
      HeadReady(w, items, tail, cuts, met);
      var x := ItemWent(w, head, tail && |items| == 1, cuts, met);
      RestReady(w, w1, items, tail, cuts, met, x);
      PlaceCounts(w1, items[1..], tail, later, cuts, met + VarsOfItem(head));
  }

  lemma {:induction false} StepsSplit(steps: seq<Step>, k: nat, v: nat)
    requires k <= |steps|
    ensures CountSteps(steps, v) == CountSteps(steps[..k], v) + CountSteps(steps[k..], v)
    decreases |steps|
  {
    if k == 0 {
      assert steps[0..] == steps;
    } else {
      assert steps[..k][1..] == steps[1..][..k - 1] && steps[1..][k - 1..] == steps[k..];
      StepsSplit(steps[1..], k - 1, v);
    }
  }

  /** At every place of every clause, the slot of a permanent variable that occurs from there on is marked as holding
      its value if and only if the variable occurs on the way to the place. */
  lemma {:induction false} MarkedExactly(s: Slots, items: seq<Item>, cuts: set<nat>, place: Place, v: nat)
    requires Classified(s, items, cuts) && IsPlace(items, place)
    requires Proper(s, cuts, v) && CountFrom(items, place, v) > 0
    ensures HoldsValue(WalkTo(Walker(s, []), items, true, place).slots, v) <==> v in OnTheWay(items, place)
  {
    hide ReadyAll, WalkTo, HoldsValue, CutsOwn, ArmsApart;
    StartReady(s, items, cuts);
    PlaceLaw(Walker(s, []), items, true, place, cuts, {});
    PlaceCounts(Walker(s, []), items, true, place, cuts, {});
    assert {} + OnTheWay(items, place) == OnTheWay(items, place);
  }

  // ----- slots along the way -----

  lemma {:induction false} StepsDistinct(w: Walker, steps: seq<Step>)
    requires Distinct(w.slots)
    ensures Distinct(DoSteps(w, steps).slots)
    decreases |steps|
  {
    hide Distinct, Apply, Occur;
    if steps != [] {
      StepDistinct(w, steps[0]);
      StepsDistinct(DoStep(w, steps[0]), steps[1..]);
    }
  }

  lemma {:induction false} StepDistinct(w: Walker, step: Step)
    requires Distinct(w.slots)
    ensures Distinct(DoStep(w, step).slots)
  {
    hide Distinct, Apply, Occur;
    match step
    case Use(v, chunk, _) =>
      ApplyKeeps(w.slots, Count(v));
      ApplyKeeps(w.slots, Visit(v, chunk));
    case TakePoint(v, chunk) => ApplyKeeps(w.slots, MarkCut(v, chunk));
    case CutThrough(v, chunk) => ApplyKeeps(w.slots, LocalCut(v, chunk));
  }

  lemma {:induction false} BranchDistinct(w: Walker, tail: bool)
    requires Distinct(w.slots)
    ensures Distinct(EnterBranch(w).slots) && Distinct(NextArm(w).slots) && Distinct(LeaveBranch(w, tail).slots)
  {
    hide Distinct, Apply, Occur, StillCounted;
    ApplyKeeps(w.slots, AddBranch({}));
    if w.stack != [] {
      ApplyKeeps(w.slots, AddBranch(w.stack[|w.stack| - 1].subsumed));
      ApplyKeeps(w.slots, PopBranch(StillCounted(w.slots, w.stack[|w.stack| - 1].hits)));
    }
  }

  lemma {:induction false} ItemsDistinct(w: Walker, items: seq<Item>, tail: bool)
    requires Distinct(w.slots)
    ensures Distinct(WalkItems(w, items, tail).slots)
    decreases items
  {
    hide Distinct;
    if items != [] {
      ItemDistinct(w, items[0], tail && |items| == 1);
      ItemsDistinct(WalkItem(w, items[0], tail && |items| == 1), items[1..], tail);
    }
  }

  lemma {:induction false} ItemDistinct(w: Walker, item: Item, tail: bool)
    requires Distinct(w.slots)
    ensures Distinct(WalkItem(w, item, tail).slots)
    decreases item
  {
    hide Distinct, LeaveBranch;
    match item
    case Chunk(steps) => StepsDistinct(w, steps);
    case Branch(arms) =>
      if arms != [] {
        var last := |arms| - 1;
        var w1 := AtArm(w, item, last, tail);
        ArmDistinct(w, item, last, tail);
        ItemsDistinct(w1, arms[last].items, tail);
        BranchDistinct(WalkItems(w1, arms[last].items, tail), tail);
      }
  }

  lemma {:induction false} ArmDistinct(w: Walker, branch: Item, a: nat, tail: bool)
    requires branch.Branch? && a < |branch.arms| && Distinct(w.slots)
    ensures Distinct(AtArm(w, branch, a, tail).slots)
    decreases branch, a
  {
    hide Distinct, EnterBranch, NextArm;
    if a == 0 {
      BranchDistinct(w, tail);
    } else {
      var w1 := AtArm(w, branch, a - 1, tail);
      ArmDistinct(w, branch, a - 1, tail);
      ItemsDistinct(w1, branch.arms[a - 1].items, tail);
      BranchDistinct(WalkItems(w1, branch.arms[a - 1].items, tail), tail);
    }
  }

  lemma {:induction false} PlaceDistinct(w: Walker, items: seq<Item>, tail: bool, place: Place)
    requires IsPlace(items, place) && Distinct(w.slots)
    ensures Distinct(WalkTo(w, items, tail, place).slots)
    decreases place
  {
    hide Distinct, WalkItem, AtArm;
    match place
    case Before =>
    case AtStep(k) => StepsDistinct(w, items[0].steps[..k]);
    case InArm(a, inner) =>
      var inTail := tail && |items| == 1;
      ArmDistinct(w, items[0], a, inTail);
      PlaceDistinct(AtArm(w, items[0], a, inTail), items[0].arms[a].items, inTail, inner);
    case Past(later) =>
      ItemDistinct(w, items[0], tail && |items| == 1);
      PlaceDistinct(WalkItem(w, items[0], tail && |items| == 1), items[1..], tail, later);
  }

  /** At no place of any clause do two permanent variables have the same slot. */
  lemma {:induction false} PlacesShareNone(s: Slots, items: seq<Item>, place: Place, v: nat, w: nat, p: nat)
    requires Start(s) && IsPlace(items, place) && p > 0
    ensures var now := WalkTo(Walker(s, []), items, true, place).slots;
            HoldsSlot(now.records, v, p) && HoldsSlot(now.records, w, p) ==> v == w
  {
    hide WalkTo;
    StartDistinct(s);
    PlaceDistinct(Walker(s, []), items, true, place);
  }

  // ----- why the classifier keeps the arms apart -----

  /** One arm with the variable in the last arm of a branch of its own, and another arm with it. Nothing follows. */
  const LeakingInner := Branch([Arm([Chunk([])]), Arm([Chunk([Use(0, 1, false)])])])

  const Leaking := Branch([Arm([LeakingInner]), Arm([Chunk([Use(0, 2, false)])])])

  /** If such occurrences were one variable, it would count as holding its value in the second arm, where it never got
      one: a branch in tail position forgets what its arms met first. */
  lemma {:induction false} LeaksIfShared()
    ensures var s := Slots([Perm(0, false)], [2], [0], 1, [], map[]);
            var now := WalkTo(Walker(s, []), [Leaking], true, InArm(1, Before)).slots;
            && Start(s) && CutsOwn([Leaking], {}) && !ArmsApart([Leaking], true, {})
            && HoldsValue(now, 0) && 0 !in OnTheWay([Leaking], InArm(1, Before))
  {
    var s, none := Slots([Perm(0, false)], [2], [0], 1, [], map[]), Occurrences({}, {});
    var w0, w1 := Walker(s, []), AtArm(Walker(s, []), Leaking, 0, true);
    EntersAsIs(w0);
    var w2 := AtArm(w1, LeakingInner, 1, true);
    EntersAsIs(w1);
    OneItem(EnterBranch(w1), Chunk([]), true);
    NextAsIs(EnterBranch(w1));
    assert w2 == Walker(s, [none, none]);
    OneItem(w2, Chunk([Use(0, 1, false)]), true);
    LeakVisit(w2);
    OneItem(w1, LeakingInner, true);
    LeakApart();
    NextAsIs(LeaveBranch(DoSteps(w2, [Use(0, 1, false)]), true));
    assert Leaking.arms[0].items == [LeakingInner];
  }

  /** The variable gets its slot in the inner branch, which is left in tail position. */
  lemma {:induction false} LeakVisit(w: Walker)
    requires w == Walker(Slots([Perm(0, false)], [2], [0], 1, [], map[]), [Occurrences({}, {}), Occurrences({}, {})])
    ensures LeaveBranch(DoSteps(w, [Use(0, 1, false)]), true) ==
            Walker(Slots([Perm(1, true)], [2], [1], 2, [], map[]), [Occurrences({}, {})])
  {
    assert DoSteps(w, [Use(0, 1, false)]) == DoStep(w, Use(0, 1, false)) by {
      assert [Use(0, 1, false)][1..] == [];
    }
    assert AllocPermVar(w.slots, 0, 1) == Slots([Perm(1, true)], [2], [0], 2, [], map[]);
  }

  lemma {:induction false} EntersAsIs(w: Walker)
    ensures EnterBranch(w) == Walker(w.slots, w.stack + [Occurrences({}, {})])
  {
    assert SetDone(w.slots.records, {}, false) == w.slots.records;
  }

  lemma {:induction false} NextAsIs(w: Walker)
    requires w.stack != [] && w.stack[|w.stack| - 1] == Occurrences({}, {})
    ensures NextArm(w) == w
  {
    assert SetDone(w.slots.records, {}, false) == w.slots.records;
    assert w.stack[|w.stack| - 1 := Occurrences({}, {})] == w.stack;
  }

  lemma {:induction false} OneItem(w: Walker, item: Item, tail: bool)
    ensures WalkItems(w, [item], tail) == WalkItem(w, item, tail)
  {
    assert [item][1..] == [];
  }

  lemma {:induction false} LeakApart()
    ensures CutsOwn([Leaking], {}) && !ArmsApart([Leaking], true, {})
  {
    var empty, first, second := Chunk([]), Chunk([Use(0, 1, false)]), Chunk([Use(0, 2, false)]);
    OneOnly(empty);
    OneOnly(first);
    OneOnly(second);
    TwoArms([empty], [first]);
    OneOnly(LeakingInner);
    TwoArms([LeakingInner], [second]);
    OneOnly(Leaking);
    OneVar(Use(0, 1, false));
    OneVar(Use(0, 2, false));
    assert 0 in VarsOf([LeakingInner]) * VarsOf([second]);
  }

  lemma {:induction false} OneOnly(item: Item)
    ensures CutsOwn([item], {}) == CutsOwnItem(item, {}) && VarsOf([item]) == VarsOfItem(item)
    ensures ArmsApart([item], true, {}) ==> ItemApart(item, true, {})
  {
    assert [item][1..] == [];
  }

  lemma {:induction false} TwoArms(a: seq<Item>, b: seq<Item>)
    ensures var branch := Branch([Arm(a), Arm(b)]);
            && CutsOwnItem(branch, {}) == (CutsOwn(a, {}) && CutsOwn(b, {}))
                && VarsOfItem(branch) == VarsOf(a) + VarsOf(b)
            && (ItemApart(branch, true, {}) ==> VarsOf(a) * VarsOf(b) <= {})
  {
    var branch := Branch([Arm(a), Arm(b)]);
    assert VarsOfArms(branch, 2) == {};
    assert VarsOfArms(branch, 1) == VarsOf(b);
    assert branch.arms[0].items == a && branch.arms[1].items == b;
    assert CutsOwnArms(branch, 2, {});
    assert CutsOwnArms(branch, 1, {}) == CutsOwn(b, {});
    assert CutsOwnArms(branch, 0, {}) == (CutsOwn(a, {}) && CutsOwnArms(branch, 1, {}));
    assert FromArmApart(branch, 0, true, {}) ==> VarsOf(a) * VarsOfArms(branch, 1) <= {};
  }

  lemma {:induction false} OneVar(step: Step)
    ensures VarsOfSteps([step]) == UsedBy(step)
  {
    assert [step][1..] == [];
  }

  // ----- the items as the code generator meets them -----

  /** What the clause iterator hands out: several branches that end together are closed at once. */
  datatype Event = Do(steps: seq<Step>) | First | Next | End(depth: nat, tail: bool)

  function LeaveMany(w: Walker, depth: nat, tail: bool): Walker
    decreases depth
  {
    if depth == 0 then w else LeaveMany(LeaveBranch(w, tail), depth - 1, tail)
  }

  function OnEvent(w: Walker, event: Event): Walker
  {
    match event
    case Do(steps) => DoSteps(w, steps)
    case First => EnterBranch(w)
    case Next => NextArm(w)
    case End(depth, tail) => LeaveMany(w, depth, tail)
  }

  function Run(w: Walker, events: seq<Event>): Walker
    decreases |events|
  {
    if events == [] then w else Run(OnEvent(w, events[0]), events[1..])
  }

  function Linear(items: seq<Item>, tail: bool): seq<Event>
    decreases items
  {
    if items == [] then [] else LinearItem(items[0], tail && |items| == 1) + Linear(items[1..], tail)
  }

  function LinearItem(item: Item, tail: bool): seq<Event>
    decreases item
  {
    match item
    case Chunk(steps) => [Do(steps)]
    case Branch(arms) => if arms == [] then [] else LinearArms(item, |arms|, tail) + [End(1, tail)]
  }

  /** The arms before arm `a`. */
  function LinearArms(branch: Item, a: nat, tail: bool): seq<Event>
    requires branch.Branch? && a <= |branch.arms|
    decreases branch, a
  {
    if a == 0 then []
    else LinearArms(branch, a - 1, tail) + [if a == 1 then First else Next] + Linear(branch.arms[a - 1].items, tail)
  }

  lemma {:induction false} RunSum(w: Walker, a: seq<Event>, b: seq<Event>)
    ensures Run(w, a + b) == Run(Run(w, a), b)
    decreases |a|
  {
    hide OnEvent;
    if a == [] {
      assert a + b == b;
    } else {
      assert (a + b)[1..] == a[1..] + b;
      RunSum(OnEvent(w, a[0]), a[1..], b);
    }
  }

  lemma {:induction false} RunOne(w: Walker, event: Event)
    ensures Run(w, [event]) == OnEvent(w, event)
  {
    assert [event][1..] == [];
  }

  /** Closing several branches at once is closing them one by one. */
  lemma {:induction false} EndsMerge(w: Walker, a: nat, b: nat, tail: bool)
    ensures Run(w, [End(a + b, tail)]) == Run(w, [End(a, tail)] + [End(b, tail)])
  {
    RunSum(w, [End(a, tail)], [End(b, tail)]);
    RunOne(w, End(a + b, tail));
    RunOne(w, End(a, tail));
    RunOne(Run(w, [End(a, tail)]), End(b, tail));
    LeaveSum(w, a, b, tail);
  }

  lemma {:induction false} LeaveSum(w: Walker, a: nat, b: nat, tail: bool)
    ensures LeaveMany(w, a + b, tail) == LeaveMany(LeaveMany(w, a, tail), b, tail)
    decreases a
  {
    if a > 0 {
      LeaveSum(LeaveBranch(w, tail), a - 1, b, tail);
    }
  }

  /** The events of a clause take the allocator the way of its items. */
  lemma {:induction false} LinearRuns(w: Walker, items: seq<Item>, tail: bool)
    ensures Run(w, Linear(items, tail)) == WalkItems(w, items, tail)
    decreases items
  {
    hide Run, WalkItem, LinearItem;
    if items == [] {
      RunNone(w);
    } else {
      LinearItemRuns(w, items[0], tail && |items| == 1);
      LinearRuns(WalkItem(w, items[0], tail && |items| == 1), items[1..], tail);
      RunSum(w, LinearItem(items[0], tail && |items| == 1), Linear(items[1..], tail));
    }
  }

  lemma {:induction false} RunNone(w: Walker)
    ensures Run(w, []) == w
  {
  }

  lemma {:induction false} LinearItemRuns(w: Walker, item: Item, tail: bool)
    ensures Run(w, LinearItem(item, tail)) == WalkItem(w, item, tail)
    decreases item
  {
    hide Run, DoSteps, WalkItems, LeaveBranch, AtArm, LinearArms;
    match item
    case Chunk(steps) => RunOne(w, Do(steps));
    case Branch(arms) =>
      if arms == [] {
        RunNone(w);
      } else {
        var before := LinearArms(item, |arms|, tail);
        RunSum(w, before, [End(1, tail)]);
        RunOne(Run(w, before), End(1, tail));
        LinearArmsRun(w, item, |arms|, tail);
        LeaveOne(Run(w, before), tail);
      }
  }

  lemma {:induction false} LeaveOne(w: Walker, tail: bool)
    ensures LeaveMany(w, 1, tail) == LeaveBranch(w, tail)
  {
    assert LeaveMany(LeaveBranch(w, tail), 0, tail) == LeaveBranch(w, tail);
  }

  lemma {:induction false} LinearArmsRun(w: Walker, branch: Item, a: nat, tail: bool)
    requires branch.Branch? && 0 < a <= |branch.arms|
    ensures Run(w, LinearArms(branch, a, tail)) ==
            WalkItems(AtArm(w, branch, a - 1, tail), branch.arms[a - 1].items, tail)
    decreases branch, a
  {
    hide Run, WalkItems, EnterBranch, NextArm, Linear;
    var event, arm := if a == 1 then First else Next, branch.arms[a - 1].items;
    var before := LinearArms(branch, a - 1, tail);
    RunSum(w, before + [event], Linear(arm, tail));
    RunSum(w, before, [event]);
    RunOne(Run(w, before), event);
    LinearRuns(AtArm(w, branch, a - 1, tail), arm, tail);
    if a == 1 {
      RunNone(w);
    } else {
      LinearArmsRun(w, branch, a - 1, tail);
    }
  }

  /** Next arms and ends are those of open branches. */
  predicate Balanced(n: nat, events: seq<Event>)
    decreases |events|
  {
    events == [] ||
    match events[0]
      case Do(_) => Balanced(n, events[1..])
      case First => Balanced(n + 1, events[1..])
      case Next => n > 0 && Balanced(n, events[1..])
      case End(depth, _) => 0 < depth <= n && Balanced(n - depth, events[1..])
  }

  // ----- several branches left at once -----

  /** The variables of the last `depth` branches that still occur after them. */
  function HitsOf(s: Slots, stack: seq<Occurrences>, depth: nat): set<nat>
    requires depth <= |stack|
  {
    if depth == 0 then {} else HitsOf(s, stack, depth - 1) + StillCounted(s, stack[|stack| - depth].hits)
  }

  lemma {:induction false} HitsStill(s: Slots, stack: seq<Occurrences>, depth: nat)
    requires depth <= |stack|
    ensures forall v :: v in HitsOf(s, stack, depth) ==> Counted(s, v)
  {
    if depth > 0 {
      HitsStill(s, stack, depth - 1);
    }
  }

  /** Leaving several branches at once: what still occurs of all of them holds its value, and is recorded below them. */
  lemma {:induction false} LeaveAll(w: Walker, depth: nat)
    requires depth <= |w.stack|
    ensures var below, hits := w.stack[..|w.stack| - depth], HitsOf(w.slots, w.stack, depth);
            && LeaveMany(w, depth, true) == Walker(w.slots, below)
            && LeaveMany(w, depth, false) ==
               Walker(w.slots.(records := SetDone(w.slots.records, hits, true)), Occur(below, hits))
  {
    hide SetDone, Occur, StillCounted;
    var n := |w.stack|;
    if depth == 0 {
      LeaveNone(w);
    } else {
      LeaveAll(w, depth - 1);
      LeaveSum(w, depth - 1, 1, true);
      LeaveSum(w, depth - 1, 1, false);
      LeaveOne(LeaveMany(w, depth - 1, true), true);
      LeaveOne(LeaveMany(w, depth - 1, false), false);
      assert w.stack[..n - depth + 1][..n - depth] == w.stack[..n - depth];
      LeaveNext(w, depth);
    }
  }

  lemma {:induction false} LeaveNone(w: Walker)
    ensures w.stack[..|w.stack|] == w.stack && HitsOf(w.slots, w.stack, 0) == {} && Occur(w.stack, {}) == w.stack
    ensures SetDone(w.slots.records, {}, true) == w.slots.records
  {
    OccurNone(w.stack);
    assert SetDone(w.slots.records, {}, true) == w.slots.records;
  }

  lemma {:induction false} LeaveNext(w: Walker, depth: nat)
    requires 0 < depth <= |w.stack|
    ensures var n, s := |w.stack|, w.slots;
            var inner, outer := HitsOf(s, w.stack, depth - 1), HitsOf(s, w.stack, depth);
            var w1 := Walker(s.(records := SetDone(s.records, inner, true)), Occur(w.stack[..n - depth + 1], inner));
            LeaveBranch(w1, false) ==
            Walker(s.(records := SetDone(s.records, outer, true)), Occur(w.stack[..n - depth], outer))
  {
    var n, s := |w.stack|, w.slots;
    var inner, outer := HitsOf(s, w.stack, depth - 1), HitsOf(s, w.stack, depth);
    var stack := w.stack[..n - depth + 1];
    var w1 := Walker(s.(records := SetDone(s.records, inner, true)), Occur(stack, inner));
    HitsStill(s, w.stack, depth - 1);
    assert stack[n - depth] == w.stack[n - depth];
    assert w1.stack[..n - depth] == w.stack[..n - depth];
    assert StillCounted(w1.slots, w.stack[n - depth].hits + inner) == outer;
    assert (set v | v in outer && Counted(w1.slots, v)) == outer;
    assert SetDone(w1.slots.records, outer, true) == SetDone(s.records, outer, true);
  }

  // ----- the allocator -----

  class DebrayAllocator {
    const nums: seq<nat>
    var records: seq<VarAlloc>
    var counts: seq<nat>
    var permLb: nat
    var permFreeList: seq<Freed>
    var branchStack: seq<Occurrences>
    ghost var freedAt: map<nat, nat>

    ghost function State(): Slots
      reads this
    {
      Slots(records, nums, counts, permLb, permFreeList, freedAt)
    }

    ghost function View(): Walker
      reads this
    {
      Walker(State(), branchStack)
    }

    ghost predicate Valid()
      reads this
    {
      |nums| == |counts| == |records|
    }

    constructor (records: seq<VarAlloc>, nums: seq<nat>)
      requires |nums| == |records| && forall v :: 0 <= v < |records| ==> records[v].Perm? ==>
              records[v] == Perm(0, false)
      ensures Valid() && Start(State()) && branchStack == [] && this.records == records && this.nums == nums
    {
      this.records, this.nums, permLb, permFreeList, freedAt := records, nums, 1, [], map[];
      counts := seq(|records|, i => 0);
      branchStack := [];
    }

    method PopFree(chunk: nat) returns (slot: Option<nat>)
      modifies this`records, this`permFreeList
      ensures Popped(slot, State()) == PopFreePerm(old(State()), chunk)
    {
      ghost var s := State();
      while permFreeList != []
        invariant PopFreePerm(State(), chunk) == PopFreePerm(s, chunk)
        decreases |permFreeList|
      {
        var front := permFreeList[0];
        if chunk <= front.chunk {
          return None;
        }
        permFreeList := permFreeList[1..];
        if CanTake(records, front.v) {
          slot := Some(records[front.v].p);
          records := records[front.v := records[front.v].(p := 0)];
          return;
        }
      }
      slot := None;
    }

    method Alloc(v: nat, chunk: nat) returns (p: nat)
      requires v < |records|
      modifies this`records, this`permFreeList, this`permLb
      ensures State() == AllocPermVar(old(State()), v, chunk) && v < |records| && records[v] == Perm(p, true)
    {
      var slot := PopFree(chunk);
      if slot.Some? {
        p := slot.value;
      } else {
        p := permLb;
        permLb := permLb + 1;
      }
      records := records[v := Perm(p, true)];
    }

    /** mark_var and mark_reserved_var: the variable gets a slot if it has none, and its occurrence is counted; beyond
        the last occurrence it is freed. A new one is recorded for the innermost branch. */
    method VisitPermVar(v: nat, chunk: nat)
      requires Valid() && v < |records|
      modifies this
      ensures Valid() && State() == Apply(old(State()), Visit(v, chunk))
      ensures branchStack == if Permanent(old(State()), v) && !HoldsValue(old(State()), v) then
                Occur(old(branchStack), {v}) else old(branchStack)
    {
      ghost var op := Visit(v, chunk);
      ApplyCounts(State(), op);
      AllocCounts(State(), v, chunk);
      var isNew := false;
      if records[v].Perm? {
        if records[v].p == 0 {
          var p := Alloc(v, chunk);
          isNew := true;
        } else {
          isNew := !records[v].done;
          records := records[v := records[v].(done := true)];
        }
      }
      assert State() == MarkVar(old(State()), v, chunk);
      if isNew {
        branchStack := Occur(branchStack, {v});
      }
      if counts[v] < nums[v] {
        counts := counts[v := counts[v] + 1];
      } else {
        FreePermVar(chunk, v);
      }
    }

    /** free_var. */
    method FreePermVar(chunk: nat, v: nat)
      requires v < |records|
      modifies this`records, this`permFreeList, this`freedAt
      ensures State() == Apply(old(State()), LocalCut(v, chunk))
    {
      if records[v].Perm? {
        if records[v].p > 0 {
          freedAt := freedAt[records[v].p := chunk];
        }
        records := records[v := records[v].(done := false)];
        permFreeList := permFreeList + [Freed(chunk, v)];
      }
    }

    /** The given variables start over, or hold their values from now on. */
    method SetAll(vars: set<nat>, done: bool)
      modifies this`records
      ensures records == SetDone(old(records), vars, done)
    {
      ghost var before := records;
      var remaining := vars;
      while remaining != {}
        invariant remaining <= vars && |records| == |before|
        invariant forall i :: 0 <= i < |records| ==>
                    records[i] == if i in vars - remaining && before[i].Perm? then before[i].(done := done)
                        else before[i]
        decreases remaining
      {
        var v :| v in remaining;
        remaining := remaining - {v};
        if v < |records| && records[v].Perm? {
          records := records[v := records[v].(done := done)];
        }
      }
      assert records == SetDone(before, vars, done);
    }

    /** add_branch_stack, for the first arm. */
    method AddBranchStack()
      modifies this`branchStack
      ensures View() == EnterBranch(old(View()))
    {
      EntersAsIs(View());
      branchStack := branchStack + [Occurrences({}, {})];
    }

    /** add_branch: the variables met first in the last arm start over in the next one, in the same slots. */
    method AddArm()
      requires branchStack != []
      modifies this`records, this`branchStack
      ensures View() == NextArm(old(View())) && |records| == |old(records)|
    {
      var top := branchStack[|branchStack| - 1];
      branchStack := branchStack[|branchStack| - 1 := Occurrences(top.hits, {})];
      SetAll(top.subsumed, false);
    }

    /** push_missing_vars and pop_branch, for several branches that end together. */
    method PopBranches(depth: nat)
      requires Valid() && 0 < depth <= |branchStack|
      modifies this`records, this`branchStack
      ensures View() == LeaveMany(old(View()), depth, false) && |records| == |old(records)|
    {
      hide LeaveMany, SetDone, Occur, StillCounted;
      LeaveAll(View(), depth);
      var subsumed: set<nat> := {};
      for k := 0 to depth
        invariant subsumed == HitsOf(State(), branchStack, k)
      {
        var hits := branchStack[|branchStack| - (k + 1)].hits;
        var still := set v | v in hits && v < |counts| && counts[v] < nums[v];
        assert still == StillCounted(State(), hits) by { StillIs(State(), hits, still); }
        subsumed := subsumed + still;
      }
      branchStack := Occur(branchStack[..|branchStack| - depth], subsumed);
      SetAll(subsumed, true);
    }

    /** The steps of a chunk. */
    method CompileChunk(steps: seq<Step>)
      requires Valid() && forall k :: 0 <= k < |steps| ==> steps[k].v < |records|
      modifies this
      ensures Valid() && View() == DoSteps(old(View()), steps) && |records| == |old(records)|
    {
      ghost var before := View();
      for k := 0 to |steps|
        invariant Valid() && |records| == |before.slots.records|
        invariant View() == DoSteps(before, steps[..k])
      {
        var step := steps[k];
        StepsOneMore(before, steps, k);
        match step {
          case Use(v, chunk, mid) =>
            if mid && records[v].Perm? && records[v].p > 0 && records[v].done {
              counts := counts[v := counts[v] + 1];
            } else {
              VisitPermVar(v, chunk);
            }
          case TakePoint(v, chunk) =>
            AllocCounts(State(), v, chunk);
            if records[v].Perm? && records[v].p == 0 {
              var p := Alloc(v, chunk);
            }
          case CutThrough(v, chunk) =>
            FreePermVar(chunk, v);
        }
      }
      assert steps[..|steps|] == steps;
    }

    /** The part of compile_seq that concerns permanent variables: one turn for each item of the clause iterator. */
    method CompileSeq(events: seq<Event>)
      requires Valid() && Balanced(|branchStack|, events)
      requires forall i :: 0 <= i < |events| ==> InRange(events[i], |records|)
      modifies this
      ensures View() == Run(old(View()), events)
    {
      hide Balanced, DoSteps, EnterBranch, NextArm, LeaveMany;
      ghost var before := View();
      for i := 0 to |events|
        invariant Valid() && |records| == |before.slots.records|
        invariant View() == Run(before, events[..i]) && Balanced(|branchStack|, events[i..])
      {
        RunOneMore(before, events, i);
        BalancedStep(|branchStack|, events, i);
        OnEventDepth(View(), events[i]);
        match events[i] {
          case Do(steps) => CompileChunk(steps);
          case First => AddBranchStack();
          case Next => AddArm();
          case End(depth, tail) =>
            if tail {
              LeaveAll(View(), depth);
              branchStack := branchStack[..|branchStack| - depth];
            } else {
              PopBranches(depth);
            }
        }
      }
      assert events[..|events|] == events;
    }
  }

  /** The variables of a chunk have records. */
  predicate InRange(event: Event, n: nat)
  {
    event.Do? ==> forall k :: 0 <= k < |event.steps| ==> event.steps[k].v < n
  }

  lemma {:induction false} RunOneMore(w: Walker, events: seq<Event>, i: nat)
    requires i < |events|
    ensures Run(w, events[..i + 1]) == OnEvent(Run(w, events[..i]), events[i])
  {
    hide OnEvent;
    assert events[..i + 1] == events[..i] + [events[i]];
    RunSum(w, events[..i], [events[i]]);
    RunOne(Run(w, events[..i]), events[i]);
  }

  /** How many branches are open after an event. */
  function Open(n: nat, event: Event): int
  {
    match event
    case First => n + 1
    case End(depth, _) => n - depth
    case _ => n
  }

  lemma {:induction false} BalancedStep(n: nat, events: seq<Event>, i: nat)
    requires i < |events| && Balanced(n, events[i..])
    ensures Open(n, events[i]) >= 0 && Balanced(Open(n, events[i]), events[i + 1..])
    ensures (events[i].Next? ==> n > 0) && (events[i].End? ==> 0 < events[i].depth <= n)
  {
    assert events[i..][1..] == events[i + 1..];
  }

  lemma {:induction false} StepsDepth(w: Walker, steps: seq<Step>)
    ensures |DoSteps(w, steps).stack| == |w.stack|
    decreases |steps|
  {
    if steps != [] {
      StepsDepth(DoStep(w, steps[0]), steps[1..]);
    }
  }

  lemma {:induction false} OnEventDepth(w: Walker, event: Event)
    requires (event.Next? ==> w.stack != []) && (event.End? ==> 0 < event.depth <= |w.stack|)
    ensures |OnEvent(w, event).stack| == Open(|w.stack|, event)
  {
    match event
    case Do(steps) => StepsDepth(w, steps);
    case First =>
    case Next =>
    case End(depth, tail) => LeaveAll(w, depth);
  }

  lemma {:induction false} StillIs(s: Slots, hits: set<nat>, still: set<nat>)
    requires |s.nums| == |s.counts| && still == set v | v in hits && v < |s.counts| && s.counts[v] < s.nums[v]
    ensures still == StillCounted(s, hits)
  {
  }

  lemma {:induction false} StepsOneMore(w: Walker, steps: seq<Step>, k: nat)
    requires k < |steps|
    ensures DoSteps(w, steps[..k + 1]) == DoStep(DoSteps(w, steps[..k]), steps[k])
    decreases k
  {
    if k == 0 {
      assert steps[..1] == [steps[0]] && [steps[0]][1..] == [];
    } else {
      assert steps[..k + 1][1..] == steps[1..][..k] && steps[..k][1..] == steps[1..][..k - 1];
      StepsOneMore(DoStep(w, steps[0]), steps[1..], k - 1);
    }
  }
}
