/**
 Numbering the branches of a clause body by intervals: the arms of a disjunction get disjoint
 parts of the upper half of the current interval, and the lower half is kept for what follows.
 */
module BranchNumbers {

  /** The interval from `num` up to but not including `num + delta`. */
  datatype BranchNumber = BranchNumber(num: real, delta: real)
  {
    predicate HasAsSubbranch(other: BranchNumber)
    {
      other.delta <= delta && num <= other.num < num + delta
    }

    function Split(): BranchNumber
    {
      BranchNumber(num + delta / 2.0, delta / 4.0)
    }

    function IncrByDelta(): BranchNumber
    {
      BranchNumber(num + delta, delta)
    }

    function HalveDelta(): BranchNumber
    {
      BranchNumber(num, delta / 2.0)
    }

    function End(): real
    {
      num + delta
    }
  }

  const Default := BranchNumber(0.0, 2147483648.0)

  // ----- one disjunction -----

  /** The interval from which arm `i` is cut; it ends where the whole interval ends. */
  function Room(current: BranchNumber, i: nat): BranchNumber
  {
    if i == 0 then current else Room(current, i - 1).Split().IncrByDelta()
  }

  /** The number of arm `i` of `n`: all but the last leave room for later arms. */
  function ArmNumber(current: BranchNumber, i: nat, n: nat): BranchNumber
    requires i < n && n >= 2
  {
    if i + 1 < n then Room(current, i).Split() else Room(current, i)
  }

  method NumberArms(current: BranchNumber, n: nat) returns (nums: seq<BranchNumber>)
    requires n >= 2
    ensures |nums| == n && forall i :: 0 <= i < n ==> nums[i] == ArmNumber(current, i, n)
  {
    nums := [current.Split()];
    for idx := 1 to n
      invariant |nums| == idx && forall i :: 0 <= i < idx ==> nums[i] == ArmNumber(current, i, n)
    {
      var succ := nums[idx - 1].IncrByDelta();
      nums := nums + [if idx + 1 < n then succ.Split() else succ];
    }
  }

  /** All rooms end together, each starts in the upper half of the one before. */
  lemma {:induction false} Rooms(current: BranchNumber, i: nat)
    requires current.delta > 0.0
    ensures Room(current, i).End() == current.End() && 0.0 < Room(current, i).delta <= current.delta
    ensures i > 0 ==>
              var room := Room(current, i);
              room.num >= current.num + 0.75 * current.delta && room.delta <= current.delta / 4.0
  {
    if i > 0 {
      Rooms(current, i - 1);
    }
  }

  /** An arm lies in the upper half of the current interval. */
  lemma {:induction false} ArmInside(current: BranchNumber, i: nat, n: nat)
    requires current.delta > 0.0 && i < n && n >= 2
    ensures var arm := ArmNumber(current, i, n);
            && 0.0 < arm.delta <= current.delta / 4.0
            && current.num + current.delta / 2.0 <= arm.num && arm.End() <= current.End()
  {
    Rooms(current, i);
  }

  /** An earlier arm ends before a later one begins. */
  lemma {:induction false} ArmsApart(current: BranchNumber, i: nat, k: nat, n: nat)
    requires current.delta > 0.0 && i < k < n
    ensures ArmNumber(current, i, n).End() <= ArmNumber(current, k, n).num
  {
    Rooms(current, k);
    Rooms(current, i);
    if i + 1 < k {
      Rooms(current, k - 1);
      ArmsApart(current, i, k - 1, n);
    }
  }

  // ----- the tree of branches -----

  /** One turn on the way down: arm `arm` of the `arms` of the branch's disjunction `disjunct`. */
  datatype Turn = Turn(disjunct: nat, arm: nat, arms: nat)

  type Path = seq<Turn>

  predicate GoodPath(p: Path)
  {
    forall i :: 0 <= i < |p| ==> p[i].arm < p[i].arms && p[i].arms >= 2
  }

  /** The number of a branch once `k` of its disjunctions are done. */
  function Halved(b: BranchNumber, k: nat): BranchNumber
  {
    if k == 0 then b else Halved(b, k - 1).HalveDelta()
  }

  /** The number a branch starts with, below branch `b`. */
  function Below(b: BranchNumber, p: Path): BranchNumber
    requires GoodPath(p)
    decreases |p|
  {
    if p == [] then b
    else Below(ArmNumber(Halved(b, p[0].disjunct), p[0].arm, p[0].arms), p[1..])
  }

  function Number(p: Path): BranchNumber
    requires GoodPath(p)
  {
    Below(Default, p)
  }

  /** Two paths of the same tree: a disjunction has one number of arms. */
  predicate SameTree(p: Path, q: Path)
  {
    if p == [] || q == [] then true
    else if p[0] == q[0] then SameTree(p[1..], q[1..])
    else p[0].disjunct == q[0].disjunct ==> p[0].arms == q[0].arms
  }

  lemma {:induction false} HalvedSmaller(b: BranchNumber, j: nat, k: nat)
    requires b.delta > 0.0 && j <= k
    ensures 0.0 < Halved(b, k).delta <= Halved(b, j).delta <= b.delta && Halved(b, k).num == Halved(b, j).num == b.num
    ensures j < k ==> Halved(b, k).delta <= Halved(b, j).delta / 2.0
  {
    if j < k {
      HalvedSmaller(b, j, k - 1);
    } else if k > 0 {
      HalvedSmaller(b, k - 1, k - 1);
    }
  }

  /** The first turn of a path. */
  function First(b: BranchNumber, turn: Turn): BranchNumber
    requires turn.arm < turn.arms && turn.arms >= 2
  {
    ArmNumber(Halved(b, turn.disjunct), turn.arm, turn.arms)
  }

  lemma {:induction false} FirstInside(b: BranchNumber, turn: Turn)
    requires b.delta > 0.0 && turn.arm < turn.arms && turn.arms >= 2
    ensures var first := First(b, turn);
            && 0.0 < first.delta <= b.delta / 4.0 && b.num < first.num && first.End() <= b.End()
            && b.num + Halved(b, turn.disjunct).delta / 2.0 <= first.num
                && first.End() <= b.num + Halved(b, turn.disjunct).delta
  {
    HalvedSmaller(b, 0, turn.disjunct);
    ArmInside(Halved(b, turn.disjunct), turn.arm, turn.arms);
  }

  /** Everything below a branch lies inside its interval, and properly so. */
  lemma {:induction false} BelowInside(b: BranchNumber, p: Path)
    requires b.delta > 0.0 && GoodPath(p)
    ensures var r := Below(b, p);
            && 0.0 < r.delta <= b.delta && b.num <= r.num && r.End() <= b.End()
            && (p != [] ==> b.num < r.num && r.delta < b.delta)
    decreases |p|
  {
    if p != [] {
      FirstInside(b, p[0]);
      BelowInside(First(b, p[0]), p[1..]);
    }
  }

  /** Intervals that do not meet. */
  predicate Apart(a: BranchNumber, b: BranchNumber)
  {
    a.End() <= b.num || b.End() <= a.num
  }

  lemma {:induction false} FirstsApart(b: BranchNumber, s: Turn, t: Turn)
    requires b.delta > 0.0 && s.arm < s.arms && s.arms >= 2 && t.arm < t.arms && t.arms >= 2
    requires s != t && (s.disjunct == t.disjunct ==> s.arms == t.arms)
    ensures Apart(First(b, s), First(b, t))
  {
    FirstInside(b, s);
    FirstInside(b, t);
    if s.disjunct < t.disjunct {
      HalvedSmaller(b, s.disjunct, t.disjunct);
    } else if t.disjunct < s.disjunct {
      HalvedSmaller(b, t.disjunct, s.disjunct);
    } else {
      HalvedSmaller(b, 0, s.disjunct);
      var current := Halved(b, s.disjunct);
      if s.arm < t.arm {
        ArmsApart(current, s.arm, t.arm, s.arms);
      } else {
        ArmsApart(current, t.arm, s.arm, s.arms);
      }
    }
  }

  predicate Prefix(p: Path, q: Path)
  {
    p <= q
  }

  /** Branches of which neither encloses the other have intervals that do not meet. */
  lemma {:induction false} StrangersApart(b: BranchNumber, p: Path, q: Path)
    requires b.delta > 0.0 && GoodPath(p) && GoodPath(q) && SameTree(p, q) && !Prefix(p, q) && !Prefix(q, p)
    ensures Apart(Below(b, p), Below(b, q))
    decreases |p|
  {
    if p[0] == q[0] {
      assert p == [p[0]] + p[1..] && q == [q[0]] + q[1..];
      FirstInside(b, p[0]);
      StrangersApart(First(b, p[0]), p[1..], q[1..]);
    } else {
      FirstInside(b, p[0]);
      FirstInside(b, q[0]);
      FirstsApart(b, p[0], q[0]);
      BelowInside(First(b, p[0]), p[1..]);
      BelowInside(First(b, q[0]), q[1..]);
    }
  }

  lemma {:induction false} BelowSplits(b: BranchNumber, p: Path, q: Path)
    requires GoodPath(p) && GoodPath(q)
    ensures GoodPath(p + q) && Below(b, p + q) == Below(Below(b, p), q)
    decreases |p|
  {
    if p == [] {
      assert p + q == q;
    } else {
      assert (p + q)[1..] == p[1..] + q;
      BelowSplits(First(b, p[0]), p[1..], q);
    }
  }

  lemma {:induction false} BelowPrefix(b: BranchNumber, p: Path, q: Path)
    requires b.delta > 0.0 && GoodPath(p) && GoodPath(q) && Prefix(p, q)
    ensures var x, y := Below(b, p), Below(b, q);
            && 0.0 < y.delta <= x.delta && x.num <= y.num && y.End() <= x.End()
            && (p != q ==> x.num < y.num && y.delta < x.delta)
  {
    BelowSplits(b, p, q[|p|..]);
    assert p + q[|p|..] == q;
    BelowInside(b, p);
    BelowInside(Below(b, p), q[|p|..]);
  }

  /** In the numbering of any tree of disjunctions, a branch has another as subbranch exactly if it is that
      branch or encloses it. */
  lemma {:induction false} SubbranchIsPrefix(p: Path, q: Path)
    requires GoodPath(p) && GoodPath(q) && SameTree(p, q)
    ensures Number(p).HasAsSubbranch(Number(q)) <==> Prefix(p, q)
  {
    if Prefix(p, q) {
      BelowPrefix(Default, p, q);
    } else if Prefix(q, p) {
      BelowPrefix(Default, q, p);
    } else {
      StrangersApart(Default, p, q);
      BelowInside(Default, p);
      BelowInside(Default, q);
    }
  }

  // ----- the numbers that are recorded -----

  /** The number recorded with an arm, as a path that is not empty leads to one: the one it has left after all `k`
      disjunctions in it. */
  function Recorded(p: Path, k: nat): BranchNumber
    requires GoodPath(p)
  {
    Halved(Number(p), k)
  }

  /** Branch `p` has `k` disjunctions in it, one of which leads to `q` if `q` is below `p`. */
  predicate Counts(p: Path, k: nat, q: Path)
  {
    Prefix(p, q) && p != q ==> q[|p|].disjunct < k
  }

  /** The numbers recorded with arms are accepted only from the arm itself: once a branch has a disjunction in it,
      its recorded interval no longer covers the arms of that disjunction. */
  lemma {:induction false} RecordedOnlySelf(p: Path, k: nat, q: Path, m: nat)
    requires GoodPath(p) && GoodPath(q) && SameTree(p, q) && Counts(p, k, q) && Counts(q, m, p) && (p == q ==> k == m)
    requires p != [] && q != []
    ensures Recorded(p, k).HasAsSubbranch(Recorded(q, m)) <==> p == q
  {
    BelowInside(Default, p);
    BelowInside(Default, q);
    HalvedSmaller(Number(p), 0, k);
    HalvedSmaller(Number(q), 0, m);
    if p != q {
      if Prefix(p, q) {
        RecordedMisses(p, k, q);
      } else if Prefix(q, p) {
        BelowPrefix(Default, q, p);
      } else {
        StrangersApart(Default, p, q);
      }
    }
  }

  lemma {:induction false} RecordedMisses(p: Path, k: nat, q: Path)
    requires GoodPath(p) && GoodPath(q) && Prefix(p, q) && p != q && q[|p|].disjunct < k
    ensures Recorded(p, k).End() <= Number(q).num
  {
    var b, rest := Number(p), q[|p|..];
    BelowInside(Default, p);
    BelowSplits(Default, p, rest);
    assert p + rest == q && rest[0] == q[|p|];
    FirstInside(b, rest[0]);
    BelowInside(First(b, rest[0]), rest[1..]);
    HalvedSmaller(b, rest[0].disjunct, k);
  }

  /** A disjunction inside an arm: the arm encloses the inner arm, and the recorded numbers do not show it. */
  lemma {:induction false} RecordedLosesNesting()
    ensures var outer, inner: Path := [Turn(0, 0, 2)], [Turn(0, 0, 2), Turn(0, 0, 2)];
            && GoodPath(outer) && GoodPath(inner) && Prefix(outer, inner)
            && Number(outer).HasAsSubbranch(Number(inner))
            && !Recorded(outer, 1).HasAsSubbranch(Recorded(inner, 0))
  {
    var outer, inner: Path := [Turn(0, 0, 2)], [Turn(0, 0, 2), Turn(0, 0, 2)];
    assert inner[1..] == [Turn(0, 0, 2)] && outer <= inner;
    SubbranchIsPrefix(outer, inner);
    RecordedOnlySelf(outer, 1, inner, 0);
  }

  // ----- safety of variables -----

  datatype VarSafetyStatus = Needed | LocallyUnneeded(planter: BranchNumber) | GloballyUnneeded

  function SafetyUnneededInBranch(safety: VarSafetyStatus, branch: BranchNumber): bool
  {
    match safety
    case Needed => false
    case LocallyUnneeded(planter) => planter.HasAsSubbranch(branch)
    case GloballyUnneeded => true
  }

  /** The number of the current branch: outside all disjunctions it is the default one, and in an arm the recorded
      one. */
  function Designator(p: Path, k: nat): BranchNumber
    requires GoodPath(p)
  {
    if p == [] then Default else Recorded(p, k)
  }

  /** What is noted for a variable that is made safe in a branch. */
  function Unneeded(current: BranchNumber): VarSafetyStatus
  {
    if current.num > 0.0 then LocallyUnneeded(current) else GloballyUnneeded
  }

  /** A variable made safe in one branch is taken as safe in another if and only if the first is the clause body
      itself or the two are the same branch. */
  lemma {:induction false} SafetyAccepted(p: Path, k: nat, q: Path, m: nat)
    requires GoodPath(p) && GoodPath(q) && SameTree(p, q) && Counts(p, k, q) && Counts(q, m, p) && (p == q ==> k == m)
    ensures SafetyUnneededInBranch(Unneeded(Designator(p, k)), Designator(q, m)) <==> p == [] || p == q
  {
    BelowInside(Default, p);
    HalvedSmaller(Number(p), 0, k);
    if p != [] {
      assert Designator(p, k).num > 0.0;
      if q == [] {
        assert !Recorded(p, k).HasAsSubbranch(Default);
      } else {
        RecordedOnlySelf(p, k, q, m);
      }
    }
  }

  /** A guard planted in one branch is accepted only in a branch that it encloses; under the numbers of the branches
      themselves, it would be accepted in all of those. */
  lemma {:induction false} GuardsEnclose(p: Path, k: nat, q: Path, m: nat)
    requires GoodPath(p) && GoodPath(q) && SameTree(p, q) && Counts(p, k, q) && Counts(q, m, p) && (p == q ==> k == m)
    ensures SafetyUnneededInBranch(Unneeded(Designator(p, k)), Designator(q, m)) ==> Prefix(p, q)
    ensures SafetyUnneededInBranch(Unneeded(Number(p)), Number(q)) <==> Prefix(p, q)
  {
    SafetyAccepted(p, k, q, m);
    SubbranchIsPrefix(p, q);
    BelowInside(Default, p);
  }
}
