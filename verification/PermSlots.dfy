/**
 Permanent variables: handing out stack slots, giving them back, and taking them over.
 */
module PermSlots {
  import opened Options

  /** How a variable is allocated. Slot 0 means that it has none; `done` that its slot holds its value. */
  datatype VarAlloc = Temp | Perm(p: nat, done: bool)

  datatype Freed = Freed(chunk: nat, v: nat)

  /** The allocator: how each variable is allocated, how often it occurs and how often it was counted so far, the
      next new slot and the free list; and for each slot the chunk in which it was last given back. */
  datatype Slots = Slots(records: seq<VarAlloc>, nums: seq<nat>, counts: seq<nat>, permLb: nat, free: seq<Freed>,
      freedAt: map<nat, nat>)

  predicate CanTake(records: seq<VarAlloc>, v: nat)
  {
    v < |records| && records[v].Perm? && records[v].p > 0 && !records[v].done
  }

  datatype Popped = Popped(slot: Option<nat>, slots: Slots)

  /** pop_free_perm: the slot of the first variable given back in an earlier chunk that has one and is not in use. */
  function PopFreePerm(s: Slots, chunk: nat): (r: Popped)
    ensures |r.slots.records| == |s.records|
    decreases |s.free|
  {
    if s.free == [] || chunk <= s.free[0].chunk then Popped(None, s)
    else
      var v, rest := s.free[0].v, s.(free := s.free[1..]);
      if CanTake(s.records, v) then Popped(Some(s.records[v].p),
          rest.(records := s.records[v := s.records[v].(p := 0)]))
      else PopFreePerm(rest, chunk)
  }

  /** alloc_perm_var. */
  function AllocPermVar(s: Slots, v: nat, chunk: nat): Slots
    requires v < |s.records|
  {
    var popped := PopFreePerm(s, chunk);
    if popped.slot.Some? then popped.slots.(records := popped.slots.records[v := Perm(popped.slot.value, true)])
    else popped.slots.(records := popped.slots.records[v := Perm(popped.slots.permLb, true)],
        permLb := popped.slots.permLb + 1)
  }

  /** The part of mark_var that concerns permanent variables. */
  function MarkVar(s: Slots, v: nat, chunk: nat): Slots
    requires v < |s.records|
  {
    match s.records[v]
    case Temp => s
    case Perm(p, _) => if p == 0 then AllocPermVar(s, v, chunk) else s.(records := s.records[v := Perm(p, true)])
  }

  function MarkCutVar(s: Slots, v: nat, chunk: nat): Slots
    requires v < |s.records|
  {
    if s.records[v].Perm? && s.records[v].p == 0 then AllocPermVar(s, v, chunk) else s
  }

  function FreeVar(s: Slots, chunk: nat, v: nat): Slots
    requires v < |s.records|
  {
    if s.records[v].Temp? then s
    else
      s.(records := s.records[v := s.records[v].(done := false)], free := s.free + [Freed(chunk, v)],
         freedAt := if s.records[v].p > 0 then s.freedAt[s.records[v].p := chunk] else s.freedAt)
  }

  /** Entering the next arm, or leaving a branch: the given variables start over, or keep what they have. */
  function SetDone(records: seq<VarAlloc>, vars: set<nat>, done: bool): (r: seq<VarAlloc>)
    ensures |r| == |records|
    ensures forall i :: 0 <= i < |records| ==>
              r[i] == if i in vars && records[i].Perm? then records[i].(done := done) else records[i]
  {
    seq(|records|, i requires 0 <= i < |records| => if i in vars && records[i].Perm? then records[i].(done := done)
        else records[i])
  }

  predicate Counted(s: Slots, v: nat)
  {
    v < |s.nums| && v < |s.counts| && s.counts[v] < s.nums[v]
  }

  function CountUp(s: Slots, v: nat): Slots
  {
    if v < |s.counts| then s.(counts := s.counts[v := s.counts[v] + 1]) else s
  }

  /** mark_var with the end of mark_reserved_var: the occurrence is counted, or the variable is freed if all of its
      occurrences were counted before. */
  function VisitVar(s: Slots, v: nat, chunk: nat): Slots
    requires v < |s.records|
  {
    var marked := MarkVar(s, v, chunk);
    if Counted(s, v) then CountUp(marked, v) else if v < |marked.records| then FreeVar(marked, chunk, v) else marked
  }

  /** What the code generator does: it visits an occurrence, or only counts it; it takes and uses cut points, and
      frees the variable of a cut that is not in tail position; it enters the next arm and leaves branches. */
  datatype Op =
    | Visit(v: nat, chunk: nat)
    | Count(v: nat)
    | MarkCut(v: nat, chunk: nat)
    | LocalCut(v: nat, chunk: nat)
    | AddBranch(hits: set<nat>)
    | PopBranch(hits: set<nat>)

  function Apply(s: Slots, op: Op): Slots
  {
    match op
    case Visit(v, chunk) => if v < |s.records| then VisitVar(s, v, chunk) else s
    case Count(v) => CountUp(s, v)
    case MarkCut(v, chunk) => if v < |s.records| then MarkCutVar(s, v, chunk) else s
    case LocalCut(v, chunk) => if v < |s.records| then FreeVar(s, chunk, v) else s
    case AddBranch(hits) => s.(records := SetDone(s.records, hits, false))
    case PopBranch(hits) => s.(records := SetDone(s.records, set v | v in hits && Counted(s, v), true))
  }

  function ApplyAll(s: Slots, ops: seq<Op>): Slots
    decreases |ops|
  {
    if ops == [] then s else ApplyAll(Apply(s, ops[0]), ops[1..])
  }

  /** The allocator at the start of a clause. */
  predicate Start(s: Slots)
  {
    && s.permLb == 1 && s.free == [] && s.freedAt == map[] && |s.nums| == |s.counts| == |s.records|
    && (forall v :: 0 <= v < |s.counts| ==> s.counts[v] == 0)
    && forall v :: 0 <= v < |s.records| ==> s.records[v].Perm? ==> s.records[v] == Perm(0, false)
  }

  // ----- no two variables share a slot -----

  predicate HoldsSlot(records: seq<VarAlloc>, v: nat, p: nat)
  {
    v < |records| && records[v].Perm? && records[v].p == p
  }

  /** Slots are distinct, and below the next new one. */
  ghost predicate Distinct(s: Slots)
  {
    && s.permLb >= 1
    && (forall v: nat, p: nat :: HoldsSlot(s.records, v, p) ==> p < s.permLb)
    && (forall v: nat, w: nat, p: nat :: HoldsSlot(s.records, v, p) && HoldsSlot(s.records, w, p) && p > 0 ==> v == w)
  }

  /** A slot that nobody holds any more. */
  ghost predicate Unheld(s: Slots, p: nat)
  {
    0 < p < s.permLb && forall v: nat :: !HoldsSlot(s.records, v, p)
  }

  lemma {:induction false} PopKeeps(s: Slots, chunk: nat)
    requires Distinct(s)
    ensures var popped := PopFreePerm(s, chunk);
            && Distinct(popped.slots) && |popped.slots.records| == |s.records| && popped.slots.permLb == s.permLb
            && (popped.slot.Some? ==> Unheld(popped.slots, popped.slot.value))
            && popped.slots.freedAt == s.freedAt
            && (forall v :: 0 <= v < |s.records| && (s.records[v].Temp? || s.records[v].p == 0) ==>
                popped.slots.records[v] == s.records[v])
    decreases |s.free|
  {
    if s.free != [] && chunk > s.free[0].chunk {
      var v, rest := s.free[0].v, s.(free := s.free[1..]);
      if CanTake(s.records, v) {
        TakeKeeps(rest, v);
      } else {
        assert Distinct(rest) by { SameRecords(s, rest); }
        PopKeeps(rest, chunk);
      }
    }
  }

  lemma {:induction false} SameRecords(s: Slots, s': Slots)
    requires Distinct(s) && s'.records == s.records && s'.permLb == s.permLb
    ensures Distinct(s')
  {
  }

  lemma {:induction false} TakeKeeps(s: Slots, v: nat)
    requires Distinct(s) && CanTake(s.records, v)
    ensures var s' := s.(records := s.records[v := s.records[v].(p := 0)]);
            Distinct(s') && Unheld(s', s.records[v].p)
  {
    var p := s.records[v].p;
    var s' := s.(records := s.records[v := s.records[v].(p := 0)]);
    assert HoldsSlot(s.records, v, p);
    forall w: nat, q: nat | HoldsSlot(s'.records, w, q) && q > 0 ensures HoldsSlot(s.records, w, q) && q != p {
      assert HoldsSlot(s.records, w, q);
    }
    forall w: nat, q: nat | HoldsSlot(s'.records, w, q) ensures q < s'.permLb {
      if q > 0 { assert HoldsSlot(s.records, w, q); }
    }
  }

  /** Giving a variable without a slot one that nobody holds. */
  lemma {:induction false} GiveKeeps(s: Slots, v: nat, p: nat, lb: nat)
    requires Distinct(s) && v < |s.records| && 0 < p < lb && s.permLb <= lb
    requires forall w: nat :: !HoldsSlot(s.records, w, p)
    ensures Distinct(s.(records := s.records[v := Perm(p, true)], permLb := lb))
  {
    var s' := s.(records := s.records[v := Perm(p, true)], permLb := lb);
    forall w: nat, q: nat | HoldsSlot(s'.records, w, q) ensures q < lb && (w != v ==> HoldsSlot(s.records, w, q)) {
      if w != v { assert HoldsSlot(s.records, w, q); }
    }
  }

  lemma {:induction false} AllocKeeps(s: Slots, v: nat, chunk: nat)
    requires Distinct(s) && v < |s.records| && HoldsSlot(s.records, v, 0)
    ensures Distinct(AllocPermVar(s, v, chunk)) && AllocPermVar(s, v, chunk).permLb >= s.permLb
  {
    hide PopFreePerm;
    PopKeeps(s, chunk);
    var popped := PopFreePerm(s, chunk);
    if popped.slot.Some? {
      GiveKeeps(popped.slots, v, popped.slot.value, popped.slots.permLb);
    } else {
      NewSlot(popped.slots);
      GiveKeeps(popped.slots, v, popped.slots.permLb, popped.slots.permLb + 1);
    }
  }

  lemma {:induction false} NewSlot(s: Slots)
    requires Distinct(s)
    ensures forall w: nat :: !HoldsSlot(s.records, w, s.permLb)
  {
  }

  lemma {:induction false} SameSlots(s: Slots, s': Slots)
    requires Distinct(s) && s'.permLb == s.permLb && |s'.records| == |s.records|
    requires forall v :: 0 <= v < |s.records| ==>
               s'.records[v].Perm? == s.records[v].Perm? && (s.records[v].Perm? ==> s'.records[v].p == s.records[v].p)
    ensures Distinct(s')
  {
    forall v: nat, p: nat | HoldsSlot(s'.records, v, p) ensures HoldsSlot(s.records, v, p) {
    }
  }

  lemma {:induction false} MarkKeeps(s: Slots, v: nat, chunk: nat)
    requires Distinct(s) && v < |s.records|
    ensures Distinct(MarkVar(s, v, chunk)) && MarkVar(s, v, chunk).permLb >= s.permLb
  {
    hide AllocPermVar, Distinct;
    if s.records[v].Perm? && s.records[v].p == 0 {
      AllocKeeps(s, v, chunk);
    } else {
      SameSlots(s, MarkVar(s, v, chunk));
    }
  }

  lemma {:induction false} ApplyKeeps(s: Slots, op: Op)
    requires Distinct(s)
    ensures Distinct(Apply(s, op)) && Apply(s, op).permLb >= s.permLb
  {
    hide AllocPermVar, Distinct, MarkVar;
    if op.Visit? && op.v < |s.records| {
      MarkKeeps(s, op.v, op.chunk);
      SameSlots(MarkVar(s, op.v, op.chunk), Apply(s, op));
    } else if op.MarkCut? && op.v < |s.records| && s.records[op.v].Perm? && s.records[op.v].p == 0 {
      AllocKeeps(s, op.v, op.chunk);
    } else {
      SameSlots(s, Apply(s, op));
    }
  }

  lemma {:induction false} StartDistinct(s: Slots)
    requires Start(s)
    ensures Distinct(s)
  {
  }

  lemma {:induction false} ApplyAllKeeps(s: Slots, ops: seq<Op>)
    requires Distinct(s)
    ensures Distinct(ApplyAll(s, ops)) && ApplyAll(s, ops).permLb >= s.permLb
    decreases |ops|
  {
    hide Distinct, Apply;
    if ops != [] {
      ApplyKeeps(s, ops[0]);
      ApplyAllKeeps(Apply(s, ops[0]), ops[1..]);
    }
  }

  lemma {:induction false} ApplyAllConcat(s: Slots, a: seq<Op>, b: seq<Op>)
    ensures ApplyAll(s, a + b) == ApplyAll(ApplyAll(s, a), b)
    decreases |a|
  {
    if a == [] {
      assert a + b == b;
    } else {
      assert (a + b)[1..] == a[1..] + b;
      ApplyAllConcat(Apply(s, a[0]), a[1..], b);
    }
  }

  /** num_perm_vars. */
  function NumPermVars(s: Slots): int
  {
    s.permLb - 1
  }

  /** In every state of a clause, whatever is marked, freed and branched, no two variables hold the same slot, and
      every slot handed out so far is counted at the end of the clause. */
  lemma {:induction false} SlotsNeverShared(s: Slots, ops: seq<Op>, later: seq<Op>, v: nat, w: nat, p: nat)
    requires Start(s) && p > 0
    ensures var now := ApplyAll(s, ops);
            && (HoldsSlot(now.records, v, p) && HoldsSlot(now.records, w, p) ==> v == w)
            && (HoldsSlot(now.records, v, p) ==> p <= NumPermVars(ApplyAll(s, ops + later)))
  {
    StartDistinct(s);
    ApplyAllKeeps(s, ops);
    ApplyAllConcat(s, ops, later);
    ApplyAllKeeps(ApplyAll(s, ops), later);
  }

  // ----- what the code generator does in one clause -----

  /** How often a variable is visited or counted. */
  function Visits(ops: seq<Op>, v: nat): nat
    decreases |ops|
  {
    if ops == [] then 0
    else (if ops[0] == Count(v) || (ops[0].Visit? && ops[0].v == v) then 1 else 0) + Visits(ops[1..], v)
  }

  /** How often a cut goes through a variable outside tail position. */
  function Cuts(ops: seq<Op>, v: nat): nat
    decreases |ops|
  {
    if ops == [] then 0 else (if ops[0].LocalCut? && ops[0].v == v then 1 else 0) + Cuts(ops[1..], v)
  }

  /** The variables of cut points are their own: they do not occur in terms, get their cut point once, and are not
      recorded as occurring in an arm. */
  predicate CutsApart(cuts: set<nat>, marked: set<nat>, op: Op)
  {
    match op
    case Visit(v, _) => v !in cuts
    case Count(v) => v !in cuts
    case MarkCut(v, _) => v in cuts && v !in marked
    case LocalCut(v, _) => v in cuts && v in marked
    case AddBranch(hits) => hits !! cuts
    case PopBranch(hits) => hits !! cuts
  }

  function Marked(marked: set<nat>, op: Op): set<nat>
  {
    if op.MarkCut? then marked + {op.v} else marked
  }

  predicate AllCutsApart(cuts: set<nat>, marked: set<nat>, ops: seq<Op>)
    decreases |ops|
  {
    ops == [] || (CutsApart(cuts, marked, ops[0]) && AllCutsApart(cuts, Marked(marked, ops[0]), ops[1..]))
  }

  /** No variable is visited or counted more often than it still occurs. */
  ghost predicate OnceEach(s: Slots, ops: seq<Op>)
  {
    forall v: nat :: v < |s.nums| && v < |s.counts| ==> s.counts[v] + Visits(ops, v) <= s.nums[v]
  }

  /** The steps of compiling a clause: each occurrence of a variable is visited or counted at most once. */
  ghost predicate FromCode(s: Slots, cuts: set<nat>, ops: seq<Op>)
  {
    Start(s) && AllCutsApart(cuts, {}, ops) && OnceEach(s, ops)
  }

  // ----- which slots are taken over, and when -----

  predicate InFreeList(free: seq<Freed>, v: nat)
  {
    exists i :: 0 <= i < |free| && free[i].v == v
  }

  /** The chunk of the last entry of a variable. */
  function LastChunk(free: seq<Freed>, v: nat): Option<nat>
  {
    if free == [] then None
    else if free[|free| - 1].v == v then Some(free[|free| - 1].chunk)
    else LastChunk(free[..|free| - 1], v)
  }

  /** The variable whose slot is taken over. */
  function TakenVar(s: Slots, chunk: nat): Option<nat>
    decreases |s.free|
  {
    if s.free == [] || chunk <= s.free[0].chunk then None
    else if CanTake(s.records, s.free[0].v) then Some(s.free[0].v)
    else TakenVar(s.(free := s.free[1..]), chunk)
  }

  lemma {:induction false} TakenFrom(s: Slots, chunk: nat)
    ensures PopFreePerm(s, chunk).slot.Some? <==> TakenVar(s, chunk).Some?
    ensures TakenVar(s, chunk).Some? ==>
              var v := TakenVar(s, chunk).value;
              CanTake(s.records, v) && InFreeList(s.free, v) && PopFreePerm(s, chunk).slot.value == s.records[v].p
    decreases |s.free|
  {
    if s.free != [] && chunk > s.free[0].chunk && !CanTake(s.records, s.free[0].v) {
      var rest := s.(free := s.free[1..]);
      TakenFrom(rest, chunk);
      if TakenVar(rest, chunk).Some? {
        var i :| 0 <= i < |rest.free| && rest.free[i].v == TakenVar(rest, chunk).value;
        assert s.free[i + 1].v == TakenVar(rest, chunk).value;
      }
    }
  }

  lemma {:induction false} LastChunkNext(free: seq<Freed>, f: Freed, v: nat)
    ensures LastChunk(free + [f], v) == if f.v == v then Some(f.chunk) else LastChunk(free, v)
  {
    assert (free + [f])[..|free|] == free;
  }

  lemma {:induction false} LastChunkRest(free: seq<Freed>, v: nat)
    requires free != []
    ensures InFreeList(free[1..], v) ==> LastChunk(free[1..], v) == LastChunk(free, v)
  {
    if |free| > 1 && free[|free| - 1].v != v {
      var front := free[..|free| - 1];
      LastChunkRest(front, v);
      assert front[1..] == free[1..][..|free| - 2];
      assert free[1..][|free| - 2] == free[|free| - 1];
      if InFreeList(free[1..], v) {
        var i :| 0 <= i < |free[1..]| && free[1..][i].v == v;
        assert front[1..][i] == free[1..][i];
      }
    }
  }

  /** A cut variable on the list with a slot: it is not in use, and its slot was last given back in the chunk of
      its last entry. */
  predicate CutOk(s: Slots, v: nat)
    requires v < |s.records|
  {
    s.records[v].Perm? && s.records[v].p > 0 && InFreeList(s.free, v) ==>
      !s.records[v].done && s.records[v].p in s.freedAt && LastChunk(s.free, v) == Some(s.freedAt[s.records[v].p])
  }

  /** Only cut variables are on the list. */
  ghost predicate CutInv(s: Slots, cuts: set<nat>, marked: set<nat>)
  {
    && (forall i :: 0 <= i < |s.free| ==> s.free[i].v in cuts && s.free[i].v in marked && s.free[i].v < |s.records|)
    && (forall v :: v in cuts && v < |s.records| ==> CutOk(s, v))
    && (forall v :: v in cuts && v !in marked && v < |s.records| ==> s.records[v].Perm? ==> s.records[v].p == 0)
  }

  /** Changes that concern no cut variable with a slot. */
  lemma {:induction false} CutsUntouched(s: Slots, s': Slots, cuts: set<nat>, marked: set<nat>)
    requires CutInv(s, cuts, marked) && s'.free == s.free && s'.freedAt == s.freedAt && |s'.records| == |s.records|
    requires forall v :: v in cuts && v < |s.records| ==> s'.records[v] == s.records[v]
    ensures CutInv(s', cuts, marked)
  {
    forall v | v in cuts && v < |s'.records| ensures CutOk(s', v) {
      assert CutOk(s, v);
    }
  }

  lemma {:induction false} PopKeepsCuts(s: Slots, chunk: nat, cuts: set<nat>, marked: set<nat>)
    requires CutInv(s, cuts, marked)
    ensures var s' := PopFreePerm(s, chunk).slots;
            && CutInv(s', cuts, marked) && s'.freedAt == s.freedAt && s'.nums == s.nums && s'.counts == s.counts
            && (forall v :: InFreeList(s'.free, v) ==> InFreeList(s.free, v))
    decreases |s.free|
  {
    if s.free != [] && chunk > s.free[0].chunk {
      hide LastChunk;
      var v := s.free[0].v;
      var rest := s.(free := s.free[1..]);
      forall w | InFreeList(rest.free, w) ensures InFreeList(s.free, w) {
        var i :| 0 <= i < |rest.free| && rest.free[i].v == w;
        assert s.free[i + 1].v == w;
      }
      DropKeepsCuts(s, cuts, marked);
      if CanTake(s.records, v) {
        TakeKeepsCuts(rest, v, cuts, marked);
      } else {
        PopKeepsCuts(rest, chunk, cuts, marked);
      }
    }
  }

  lemma {:induction false} DropKeepsCuts(s: Slots, cuts: set<nat>, marked: set<nat>)
    requires CutInv(s, cuts, marked) && s.free != []
    ensures CutInv(s.(free := s.free[1..]), cuts, marked)
  {
    hide LastChunk;
    var rest := s.(free := s.free[1..]);
    forall v | v in cuts && v < |s.records| ensures CutOk(rest, v) {
      assert CutOk(s, v);
      LastChunkRest(s.free, v);
      if InFreeList(rest.free, v) {
        var i :| 0 <= i < |rest.free| && rest.free[i].v == v;
        assert s.free[i + 1].v == v;
      }
    }
  }

  lemma {:induction false} TakeKeepsCuts(s: Slots, v: nat, cuts: set<nat>, marked: set<nat>)
    requires CutInv(s, cuts, marked) && v < |s.records| && s.records[v].Perm?
    ensures CutInv(s.(records := s.records[v := s.records[v].(p := 0)]), cuts, marked)
  {
    hide LastChunk;
    var s' := s.(records := s.records[v := s.records[v].(p := 0)]);
    forall w | w in cuts && w < |s'.records| ensures CutOk(s', w) {
      assert CutOk(s, w);
    }
  }

  lemma {:induction false} AllocKeepsCuts(s: Slots, v: nat, chunk: nat, cuts: set<nat>, marked: set<nat>)
    requires CutInv(s, cuts, marked) && v < |s.records| && !(v in cuts && v in marked)
    ensures CutInv(AllocPermVar(s, v, chunk), cuts, marked + if v in cuts then {v} else {})
    ensures var s' := AllocPermVar(s, v, chunk); s'.nums == s.nums && s'.counts == s.counts
  {
    hide PopFreePerm, LastChunk;
    PopKeepsCuts(s, chunk, cuts, marked);
    var popped, s' := PopFreePerm(s, chunk).slots, AllocPermVar(s, v, chunk);
    forall w | w in cuts && w < |s'.records| ensures CutOk(s', w) {
      assert CutOk(popped, w);
      assert w == v ==> !InFreeList(popped.free, v);
    }
  }

  lemma {:induction false} CutKeepsCuts(s: Slots, v: nat, chunk: nat, cuts: set<nat>, marked: set<nat>)
    requires Distinct(s) && CutInv(s, cuts, marked) && v < |s.records| && v in cuts && v in marked
    ensures CutInv(FreeVar(s, chunk, v), cuts, marked)
  {
    hide LastChunk;
    var s' := FreeVar(s, chunk, v);
    if s.records[v].Perm? {
      forall w | w in cuts && w < |s'.records| ensures CutOk(s', w) {
        assert CutOk(s, w);
        LastChunkNext(s.free, Freed(chunk, v), w);
        if w != v && s.records[w].Perm? && s.records[w].p > 0 {
          assert HoldsSlot(s.records, w, s.records[w].p);
          assert s.records[v].p == s.records[w].p ==> HoldsSlot(s.records, v, s.records[w].p);
          if InFreeList(s'.free, w) {
            var i :| 0 <= i < |s'.free| && s'.free[i].v == w;
            assert s.free[i].v == w;
          }
        }
      }
    }
  }

  lemma {:induction false} VisitKeepsCuts(s: Slots, v: nat, chunk: nat, cuts: set<nat>, marked: set<nat>)
    requires CutInv(s, cuts, marked) && v < |s.records| && v !in cuts && Counted(s, v)
    ensures CutInv(VisitVar(s, v, chunk), cuts, marked)
  {
    hide AllocPermVar, LastChunk;
    if s.records[v].Perm? && s.records[v].p == 0 {
      AllocKeepsCuts(s, v, chunk, cuts, marked);
      CutsUntouched(AllocPermVar(s, v, chunk), VisitVar(s, v, chunk), cuts, marked);
    } else {
      CutsUntouched(s, VisitVar(s, v, chunk), cuts, marked);
    }
  }

  lemma {:induction false} CodeStep(s: Slots, op: Op, cuts: set<nat>, marked: set<nat>)
    requires Distinct(s) && CutInv(s, cuts, marked) && CutsApart(cuts, marked, op)
    requires op.Visit? && op.v < |s.records| ==> Counted(s, op.v)
    ensures CutInv(Apply(s, op), cuts, Marked(marked, op))
  {
    hide AllocPermVar, VisitVar, Distinct;
    match op
    case Visit(v, chunk) => if v < |s.records| { VisitKeepsCuts(s, v, chunk, cuts, marked); }
    case Count(v) => CutsUntouched(s, Apply(s, op), cuts, marked);
    case MarkCut(v, chunk) => if v < |s.records| { MarkCutKeeps(s, v, chunk, cuts, marked); }
        else { MoreMarked(s, cuts, marked, v); }
    case LocalCut(v, chunk) => if v < |s.records| { CutKeepsCuts(s, v, chunk, cuts, marked); }
    case AddBranch(hits) => CutsUntouched(s, Apply(s, op), cuts, marked);
    case PopBranch(hits) => CutsUntouched(s, Apply(s, op), cuts, marked);
  }

  lemma {:induction false} MoreMarked(s: Slots, cuts: set<nat>, marked: set<nat>, v: nat)
    requires CutInv(s, cuts, marked)
    ensures CutInv(s, cuts, marked + {v})
  {
    hide CutOk;
  }

  lemma {:induction false} MarkCutKeeps(s: Slots, v: nat, chunk: nat, cuts: set<nat>, marked: set<nat>)
    requires CutInv(s, cuts, marked) && v < |s.records| && v in cuts && v !in marked
    ensures CutInv(MarkCutVar(s, v, chunk), cuts, marked + {v})
  {
    hide AllocPermVar, CutOk;
    if s.records[v].Perm? {
      AllocKeepsCuts(s, v, chunk, cuts, marked);
    } else {
      MoreMarked(s, cuts, marked, v);
    }
  }

  /** The counters go on as the steps say. */
  lemma {:induction false} OnceEachStep(s: Slots, ops: seq<Op>)
    requires ops != [] && OnceEach(s, ops) && |s.nums| == |s.counts| == |s.records|
    ensures OnceEach(Apply(s, ops[0]), ops[1..])
    ensures var s' := Apply(s, ops[0]); |s'.nums| == |s'.counts| == |s'.records|
    ensures ops[0].Visit? && ops[0].v < |s.records| ==> Counted(s, ops[0].v)
  {
    var op := ops[0];
    var s' := Apply(s, op);
    ApplyCounts(s, op);
    forall v: nat | v < |s.nums| ensures s'.counts[v] + Visits(ops[1..], v) <= s'.nums[v] {
      assert s.counts[v] + Visits(ops, v) <= s.nums[v];
    }
    if op.Visit? && op.v < |s.records| {
      assert s.counts[op.v] + Visits(ops, op.v) <= s.nums[op.v];
    }
  }

  /** What a step does to the counters. */
  lemma {:induction false} ApplyCounts(s: Slots, op: Op)
    requires |s.nums| == |s.counts| == |s.records|
    ensures var s' := Apply(s, op);
            && s'.nums == s.nums && |s'.counts| == |s.counts| && |s'.records| == |s.records|
            && forall v :: 0 <= v < |s.counts| ==>
                 s'.counts[v] == s.counts[v] + if op == Count(v) || (op.Visit? && op.v == v && Counted(s, v)) then 1
                     else 0
  {
    if (op.Visit? || op.MarkCut?) && op.v < |s.records| {
      AllocCounts(s, op.v, op.chunk);
    }
  }

  lemma {:induction false} AllocCounts(s: Slots, v: nat, chunk: nat)
    requires v < |s.records|
    ensures var s' := AllocPermVar(s, v, chunk);
            s'.nums == s.nums && s'.counts == s.counts && |s'.records| == |s.records|
  {
    PopCounts(s, chunk);
  }

  lemma {:induction false} PopCounts(s: Slots, chunk: nat)
    ensures var s' := PopFreePerm(s, chunk).slots; s'.nums == s.nums && s'.counts == s.counts
    decreases |s.free|
  {
    if s.free != [] && chunk > s.free[0].chunk && !CanTake(s.records, s.free[0].v) {
      PopCounts(s.(free := s.free[1..]), chunk);
    }
  }

  function AllMarked(marked: set<nat>, ops: seq<Op>): set<nat>
    decreases |ops|
  {
    if ops == [] then marked else AllMarked(Marked(marked, ops[0]), ops[1..])
  }

  lemma {:induction false} CodeRun(s: Slots, ops: seq<Op>, cuts: set<nat>, marked: set<nat>)
    requires Distinct(s) && CutInv(s, cuts, marked) && AllCutsApart(cuts, marked, ops) && OnceEach(s, ops)
    requires |s.nums| == |s.counts| == |s.records|
    ensures CutInv(ApplyAll(s, ops), cuts, AllMarked(marked, ops))
    decreases |ops|
  {
    hide Distinct, CutInv, Apply, CutsApart, OnceEach, Marked;
    if ops != [] {
      OnceEachStep(s, ops);
      ApplyKeeps(s, ops[0]);
      CodeStep(s, ops[0], cuts, marked);
      CodeRun(Apply(s, ops[0]), ops[1..], cuts, Marked(marked, ops[0]));
    }
  }

  lemma {:induction false} StartCuts(s: Slots, cuts: set<nat>)
    requires Start(s)
    ensures CutInv(s, cuts, {})
  {
  }

  /** In every state that compiling a clause can reach, a slot is taken over in a chunk no later than the one in
      which it was last given back if and only if the variable it is taken from was cut through again in such a
      chunk. */
  lemma {:induction false} TakenEarlyExactly(s: Slots, cuts: set<nat>, ops: seq<Op>, chunk: nat)
    requires FromCode(s, cuts, ops)
    ensures var now := ApplyAll(s, ops);
            var popped := PopFreePerm(now, chunk);
            popped.slot.Some? ==>
              && TakenVar(now, chunk).Some? && LastChunk(now.free, TakenVar(now, chunk).value).Some?
                  && popped.slot.value in now.freedAt
              && (now.freedAt[popped.slot.value] >= chunk <==>
                  LastChunk(now.free, TakenVar(now, chunk).value).value >= chunk)
  {
    hide CutInv, LastChunk, PopFreePerm, TakenVar, Distinct;
    StartDistinct(s);
    StartCuts(s, cuts);
    CodeRun(s, ops, cuts, {});
    var now := ApplyAll(s, ops);
    TakenFrom(now, chunk);
    if TakenVar(now, chunk).Some? {
      ListedOk(now, cuts, AllMarked({}, ops), TakenVar(now, chunk).value);
    }
  }

  lemma {:induction false} ListedOk(s: Slots, cuts: set<nat>, marked: set<nat>, v: nat)
    requires CutInv(s, cuts, marked) && InFreeList(s.free, v)
    ensures v < |s.records| && CutOk(s, v)
  {
    hide CutOk;
    var i :| 0 <= i < |s.free| && s.free[i].v == v;
    assert s.free[i].v in cuts;
  }

  // ----- clauses that cut through a variable once -----

  function Entries(free: seq<Freed>, v: nat): nat
  {
    if free == [] then 0 else (if free[0].v == v then 1 else 0) + Entries(free[1..], v)
  }

  lemma {:induction false} EntriesNext(free: seq<Freed>, f: Freed, v: nat)
    ensures Entries(free + [f], v) == Entries(free, v) + if f.v == v then 1 else 0
  {
    if free == [] {
      assert [f][1..] == [];
    } else {
      assert (free + [f])[1..] == free[1..] + [f];
      EntriesNext(free[1..], f, v);
    }
  }

  lemma {:induction false} PopEntries(s: Slots, chunk: nat, v: nat)
    ensures Entries(PopFreePerm(s, chunk).slots.free, v) <= Entries(s.free, v)
    decreases |s.free|
  {
    if s.free != [] && chunk > s.free[0].chunk && !CanTake(s.records, s.free[0].v) {
      PopEntries(s.(free := s.free[1..]), chunk, v);
    }
  }

  lemma {:induction false} StepEntries(s: Slots, op: Op, v: nat)
    requires op.Visit? && op.v < |s.records| ==> Counted(s, op.v)
    ensures Entries(Apply(s, op).free, v) <= Entries(s.free, v) + if op.LocalCut? && op.v == v then 1 else 0
  {
    hide Entries, PopFreePerm;
    if (op.Visit? || op.MarkCut?) && op.v < |s.records| {
      PopEntries(s, op.chunk, v);
    } else if op.LocalCut? && op.v < |s.records| {
      EntriesNext(s.free, Freed(op.chunk, op.v), v);
    }
  }

  lemma {:induction false} RunEntries(s: Slots, ops: seq<Op>, v: nat)
    requires OnceEach(s, ops) && |s.nums| == |s.counts| == |s.records|
    ensures Entries(ApplyAll(s, ops).free, v) <= Entries(s.free, v) + Cuts(ops, v)
    decreases |ops|
  {
    hide Apply, Entries, OnceEach;
    if ops != [] {
      OnceEachStep(s, ops);
      StepEntries(s, ops[0], v);
      RunEntries(Apply(s, ops[0]), ops[1..], v);
    }
  }

  lemma {:induction false} OnlyEntry(free: seq<Freed>, v: nat, i: nat)
    requires i < |free| && free[i].v == v && Entries(free, v) <= 1
    ensures LastChunk(free, v) == Some(free[i].chunk)
  {
    var last := |free| - 1;
    if i < last {
      EntriesNext(free[..last], free[last], v);
      assert free[..last] + [free[last]] == free;
      EntriesPositive(free[..last], v, i);
      OnlyEntry(free[..last], v, i);
    }
  }

  lemma {:induction false} EntriesPositive(free: seq<Freed>, v: nat, i: nat)
    requires i < |free| && free[i].v == v
    ensures Entries(free, v) >= 1
  {
    if i > 0 {
      EntriesPositive(free[1..], v, i - 1);
    }
  }

  /** The entry through which a slot is taken is of an earlier chunk. */
  lemma {:induction false} TakenEntry(s: Slots, chunk: nat) returns (i: nat)
    requires TakenVar(s, chunk).Some?
    ensures i < |s.free| && s.free[i].v == TakenVar(s, chunk).value && s.free[i].chunk < chunk
    decreases |s.free|
  {
    if CanTake(s.records, s.free[0].v) {
      i := 0;
    } else {
      i := TakenEntry(s.(free := s.free[1..]), chunk);
      i := i + 1;
    }
  }

  /** If no cut variable is cut through twice outside tail position, slots are taken over only in a later chunk than the
      one in which they were given back. */
  lemma {:induction false} ReusedLater(s: Slots, cuts: set<nat>, ops: seq<Op>, chunk: nat)
    requires FromCode(s, cuts, ops) && forall v: nat :: Cuts(ops, v) <= 1
    ensures var now := ApplyAll(s, ops);
            var popped := PopFreePerm(now, chunk);
            popped.slot.Some? ==> popped.slot.value in now.freedAt && now.freedAt[popped.slot.value] < chunk
  {
    hide PopFreePerm, LastChunk, TakenVar, CutInv;
    TakenEarlyExactly(s, cuts, ops, chunk);
    var now := ApplyAll(s, ops);
    TakenFrom(now, chunk);
    if TakenVar(now, chunk).Some? {
      var i := TakenEntry(now, chunk);
      RunEntries(s, ops, now.free[i].v);
      OnlyEntry(now.free, now.free[i].v, i);
    }
  }

  // ----- cut points that lose their slot -----

  /** The step gives a slot to a variable that has none. */
  predicate Allocates(s: Slots, op: Op)
  {
    (op.Visit? || op.MarkCut?) && HoldsSlot(s.records, op.v, 0)
  }

  /** The step gives the slot of `v` to another variable. */
  predicate TakesFrom(s: Slots, op: Op, v: nat)
  {
    Allocates(s, op) && TakenVar(s, op.chunk) == Some(v)
  }

  predicate TakesLater(s: Slots, ops: seq<Op>, v: nat)
    decreases |ops|
  {
    ops != [] && (TakesFrom(s, ops[0], v) || TakesLater(Apply(s, ops[0]), ops[1..], v))
  }

  /** The slot of a variable changes by popping only if it is taken. */
  lemma {:induction false} PopSlots(s: Slots, chunk: nat, v: nat)
    requires v < |s.records|
    ensures TakenVar(s, chunk) == Some(v) ==> s.records[v].Perm? && s.records[v].p > 0
    ensures PopFreePerm(s, chunk).slots.records[v] ==
            if TakenVar(s, chunk) == Some(v) && s.records[v].Perm? then s.records[v].(p := 0) else s.records[v]
    decreases |s.free|
  {
    if s.free != [] && chunk > s.free[0].chunk && !CanTake(s.records, s.free[0].v) {
      PopSlots(s.(free := s.free[1..]), chunk, v);
    }
  }

  predicate HasNone(s: Slots, v: nat)
  {
    HoldsSlot(s.records, v, 0)
  }

  /** A variable gets its slot when it is marked first, and loses it when it is taken. */
  lemma {:induction false} SlotStep(s: Slots, op: Op, cuts: set<nat>, marked: set<nat>, v: nat)
    requires Distinct(s) && CutInv(s, cuts, marked) && CutsApart(cuts, marked, op) && v in cuts && v < |s.records|
            && s.records[v].Perm?
    requires op.Visit? && op.v < |s.records| ==> Counted(s, op.v)
    ensures var s' := Apply(s, op);
            && v < |s'.records| && s'.records[v].Perm?
            && (HasNone(s', v) <==> TakesFrom(s, op, v) || (HasNone(s, v) && !(op.MarkCut? && op.v == v)))
            && (TakesFrom(s, op, v) ==> v in marked)
  {
    hide PopFreePerm, TakenVar, CutInv;
    WithSlotMarked(s, cuts, marked, v);
    if (op.Visit? || op.MarkCut?) && op.v < |s.records| {
      PopSlots(s, op.chunk, v);
      PopKeeps(s, op.chunk);
    }
  }

  lemma {:induction false} WithSlotMarked(s: Slots, cuts: set<nat>, marked: set<nat>, v: nat)
    requires CutInv(s, cuts, marked) && v in cuts && v < |s.records| && s.records[v].Perm?
    ensures v in marked || HasNone(s, v)
  {
  }

  predicate MarksLater(ops: seq<Op>, v: nat)
  {
    exists i :: 0 <= i < |ops| && ops[i].MarkCut? && ops[i].v == v
  }

  lemma {:induction false} MarksStep(ops: seq<Op>, v: nat)
    requires ops != []
    ensures MarksLater(ops, v) <==> (ops[0].MarkCut? && ops[0].v == v) || MarksLater(ops[1..], v)
  {
    if MarksLater(ops, v) && !(ops[0].MarkCut? && ops[0].v == v) {
      var i :| 0 <= i < |ops| && ops[i].MarkCut? && ops[i].v == v;
      assert ops[1..][i - 1] == ops[i];
    }
  }

  /** A cut variable ends without a slot exactly if its slot is taken, or it has none and does not get one. */
  lemma {:induction false} SlotRun(s: Slots, ops: seq<Op>, cuts: set<nat>, marked: set<nat>, v: nat)
    requires Distinct(s) && CutInv(s, cuts, marked) && AllCutsApart(cuts, marked, ops) && OnceEach(s, ops)
    requires |s.nums| == |s.counts| == |s.records| && v in cuts && v < |s.records| && s.records[v].Perm?
    ensures var end := ApplyAll(s, ops);
            && v < |end.records| && end.records[v].Perm?
            && (HasNone(end, v) <==> TakesLater(s, ops, v) || (HasNone(s, v) && !MarksLater(ops, v)))
    ensures v in marked ==> !MarksLater(ops, v)
    decreases |ops|
  {
    hide Distinct, CutInv, Apply, CutsApart, OnceEach, Marked, TakesFrom, MarksLater, HasNone;
    if ops == [] {
      NoMarks(v);
    } else {
      OnceEachStep(s, ops);
      ApplyKeeps(s, ops[0]);
      CodeStep(s, ops[0], cuts, marked);
      SlotStep(s, ops[0], cuts, marked, v);
      MarkedStep(cuts, marked, ops[0], v);
      MarksStep(ops, v);
      SlotRun(Apply(s, ops[0]), ops[1..], cuts, Marked(marked, ops[0]), v);
    }
  }

  lemma {:induction false} NoMarks(v: nat)
    ensures !MarksLater([], v)
  {
  }

  lemma {:induction false} MarkedStep(cuts: set<nat>, marked: set<nat>, op: Op, v: nat)
    requires CutsApart(cuts, marked, op)
    ensures marked <= Marked(marked, op) && (op.MarkCut? && op.v == v ==> v !in marked && v in Marked(marked, op))
  {
  }

  /** Variables come onto the free list only at cuts. */
  lemma {:induction false} FreedAtCut(s: Slots, ops: seq<Op>, f: Freed)
    requires OnceEach(s, ops) && |s.nums| == |s.counts| == |s.records| && f in ApplyAll(s, ops).free
    ensures f in s.free || LocalCut(f.v, f.chunk) in ops
    decreases |ops|
  {
    hide Apply, OnceEach;
    if ops != [] {
      OnceEachStep(s, ops);
      FreedAtCut(Apply(s, ops[0]), ops[1..], f);
      FreedStep(s, ops[0], f);
    }
  }

  lemma {:induction false} FreedStep(s: Slots, op: Op, f: Freed)
    requires op.Visit? && op.v < |s.records| ==> Counted(s, op.v)
    ensures f in Apply(s, op).free ==> f in s.free || op == LocalCut(f.v, f.chunk)
  {
    hide PopFreePerm;
    if (op.Visit? || op.MarkCut?) && op.v < |s.records| {
      PopFreed(s, op.chunk, f);
    }
  }

  lemma {:induction false} PopFreed(s: Slots, chunk: nat, f: Freed)
    ensures f in PopFreePerm(s, chunk).slots.free ==> f in s.free
    decreases |s.free|
  {
    if s.free != [] && chunk > s.free[0].chunk && !CanTake(s.records, s.free[0].v) {
      PopFreed(s.(free := s.free[1..]), chunk, f);
    }
  }

  lemma {:induction false} TakenAt(s: Slots, ops: seq<Op>, v: nat) returns (j: nat)
    requires TakesLater(s, ops, v)
    ensures j < |ops| && TakesFrom(ApplyAll(s, ops[..j]), ops[j], v)
    decreases |ops|
  {
    hide Apply, TakesFrom;
    if TakesFrom(s, ops[0], v) {
      j := 0;
    } else {
      j := TakenAt(Apply(s, ops[0]), ops[1..], v);
      assert ops[..j + 1][1..] == ops[1..][..j];
      j := j + 1;
    }
  }

  lemma {:induction false} TakenWithin(s: Slots, ops: seq<Op>, v: nat, j: nat)
    requires j < |ops| && TakesFrom(ApplyAll(s, ops[..j]), ops[j], v)
    ensures TakesLater(s, ops, v)
    decreases |ops|
  {
    hide Apply, TakesFrom;
    if j > 0 {
      assert ops[..j][1..] == ops[1..][..j - 1];
      TakenWithin(Apply(s, ops[0]), ops[1..], v, j - 1);
    }
  }

  lemma {:induction false} VisitsOfPrefix(ops: seq<Op>, j: nat, v: nat)
    requires j <= |ops|
    ensures Visits(ops[..j], v) <= Visits(ops, v)
    decreases |ops|
  {
    if j > 0 {
      assert ops[..j][1..] == ops[1..][..j - 1];
      VisitsOfPrefix(ops[1..], j - 1, v);
    }
  }

  /** Step `j` takes the slot of `v` after a cut through `v` in an earlier chunk. */
  ghost predicate LostAt(s: Slots, ops: seq<Op>, v: nat, j: nat, chunk: nat)
  {
    && j < |ops| && TakesFrom(ApplyAll(s, ops[..j]), ops[j], v)
    && LocalCut(v, chunk) in ops[..j] && chunk < ops[j].chunk
  }

  /** A cut point that was taken is without a slot, for the cuts still to come, if and only if after one of the cuts
      through it another variable got its slot in a later chunk. */
  lemma {:induction false} CutPointLostExactly(s: Slots, cuts: set<nat>, ops: seq<Op>, v: nat)
    requires FromCode(s, cuts, ops) && v in cuts && v < |s.records| && s.records[v].Perm? && MarksLater(ops, v)
    ensures HasNone(ApplyAll(s, ops), v) <==> exists j: nat, chunk: nat :: LostAt(s, ops, v, j, chunk)
  {
    hide ApplyAll, TakesFrom, MarksLater, CutInv, TakenVar, HasNone, Visits;
    StartDistinct(s);
    StartCuts(s, cuts);
    SlotRun(s, ops, cuts, {}, v);
    if TakesLater(s, ops, v) {
      var j := TakenAt(s, ops, v);
      var chunk := EarlierCut(s, ops, v, j);
      assert LostAt(s, ops, v, j, chunk);
    }
    if j: nat, chunk: nat :| LostAt(s, ops, v, j, chunk) {
      TakenWithin(s, ops, v, j);
    }
  }

  lemma {:induction false} EarlierCut(s: Slots, ops: seq<Op>, v: nat, j: nat) returns (chunk: nat)
    requires Start(s) && OnceEach(s, ops) && j < |ops| && TakesFrom(ApplyAll(s, ops[..j]), ops[j], v)
    ensures LocalCut(v, chunk) in ops[..j] && chunk < ops[j].chunk
  {
    hide ApplyAll, TakenVar, Visits;
    var now := ApplyAll(s, ops[..j]);
    var i := TakenEntry(now, ops[j].chunk);
    chunk := now.free[i].chunk;
    forall w: nat | w < |s.nums| && w < |s.counts| ensures s.counts[w] + Visits(ops[..j], w) <= s.nums[w] {
      VisitsOfPrefix(ops, j, w);
    }
    FreedAtCut(s, ops[..j], now.free[i]);
  }

  // ----- clauses with one cut point -----

  /** The first occurrence of a permanent variable after the chunk of the first cut, as far as the steps tell:
      `first` is the chunk of the first cut through `v` so far, and `seen` the variables visited so far. */
  predicate LosesByFirstVisit(perm: set<nat>, ops: seq<Op>, v: nat, first: Option<nat>, seen: set<nat>)
    decreases |ops|
  {
    ops != [] &&
    var op := ops[0];
    || (op.Visit? && op.v in perm - seen && first.Some? && first.value < op.chunk)
    || LosesByFirstVisit(perm, ops[1..], v, FirstCut(first, op, v), Seen(seen, op))
  }

  function FirstCut(first: Option<nat>, op: Op, v: nat): Option<nat>
  {
    if first.None? && op.LocalCut? && op.v == v then Some(op.chunk) else first
  }

  function Seen(seen: set<nat>, op: Op): set<nat>
  {
    if op.Visit? then seen + {op.v} else seen
  }

  function PermVars(s: Slots): set<nat>
  {
    set w | 0 <= w < |s.records| && s.records[w].Perm?
  }

  /** While the only cut point `v` has its slot, its first cut is at the front of the list, and exactly the other
      permanent variables that were not visited are without a slot. */
  ghost predicate OnePoint(s: Slots, v: nat, first: Option<nat>, seen: set<nat>)
  {
    && v < |s.records| && s.records[v].Perm?
    && (first.None? ==> s.free == [])
    && (first.Some? ==> s.free != [] && s.free[0] == Freed(first.value, v) && CanTake(s.records, v))
    && forall w: nat :: w < |s.records| && w != v && s.records[w].Perm? ==> (s.records[w].p == 0 <==> w !in seen)
  }

  lemma {:induction false} OnePointStep(s: Slots, op: Op, v: nat, marked: set<nat>, first: Option<nat>, seen: set<nat>)
    requires OnePoint(s, v, first, seen) && CutsApart({v}, marked, op) && s.permLb >= 1
    requires first.Some? ==> v in marked
    requires op.LocalCut? ==> s.records[v].p > 0
    requires op.Visit? && op.v < |s.records| ==> Counted(s, op.v)
    ensures TakesFrom(s, op, v) <==> op.Visit? && op.v in PermVars(s) - seen && first.Some? && first.value < op.chunk
    ensures !TakesFrom(s, op, v) ==> OnePoint(Apply(s, op), v, FirstCut(first, op, v), Seen(seen, op))
    ensures PermVars(Apply(s, op)) == PermVars(s)
  {
    hide LastChunk;
    assert v in {v};
    if (op.Visit? || op.MarkCut?) && op.v < |s.records| && HoldsSlot(s.records, op.v, 0) {
      FrontTaken(s, op.chunk, v, first);
    }
  }

  /** What is taken when the cut point is all there is on the list. */
  lemma {:induction false} FrontTaken(s: Slots, chunk: nat, v: nat, first: Option<nat>)
    requires v < |s.records| && (first.None? ==> s.free == [])
    requires first.Some? ==> s.free != [] && s.free[0] == Freed(first.value, v) && CanTake(s.records, v)
    ensures TakenVar(s, chunk) == if first.Some? && first.value < chunk then Some(v) else None
    ensures TakenVar(s, chunk).None? ==> PopFreePerm(s, chunk) == Popped(None, s)
    ensures TakenVar(s, chunk).Some? ==>
              && PopFreePerm(s, chunk).slot == Some(s.records[v].p)
              && PopFreePerm(s, chunk).slots.records == s.records[v := s.records[v].(p := 0)]
  {
  }

  lemma {:induction false} LosesInRun(s: Slots, ops: seq<Op>, v: nat, marked: set<nat>, first: Option<nat>,
                                      seen: set<nat>)
    requires Distinct(s) && CutInv(s, {v}, marked) && AllCutsApart({v}, marked, ops) && OnceEach(s, ops)
    requires |s.nums| == |s.counts| == |s.records| && OnePoint(s, v, first, seen) && (first.Some? ==> v in marked)
    requires v in marked ==> s.records[v].p > 0
    ensures TakesLater(s, ops, v) <==> LosesByFirstVisit(PermVars(s), ops, v, first, seen)
    decreases |ops|
  {
    hide CutInv, Apply, OnceEach, TakesFrom, OnePoint, PermVars;
    if ops != [] {
      var op, s' := ops[0], Apply(s, ops[0]);
      OnceEachStep(s, ops);
      ApplyKeeps(s, op);
      CodeStep(s, op, {v}, marked);
      HasPoint(s, v, first, seen);
      OnePointStep(s, op, v, marked, first, seen);
      if !TakesFrom(s, op, v) {
        SlotStep(s, op, {v}, marked, v);
        LosesInRun(s', ops[1..], v, Marked(marked, op), FirstCut(first, op, v), Seen(seen, op));
      }
    }
  }

  lemma {:induction false} HasPoint(s: Slots, v: nat, first: Option<nat>, seen: set<nat>)
    requires OnePoint(s, v, first, seen)
    ensures v < |s.records| && s.records[v].Perm?
  {
  }

  /** With one cut point, it is without a slot, for the cuts still to come, if and only if some other permanent
      variable first occurs in a chunk later than that of the first cut. */
  lemma {:induction false} OneCutPointLostExactly(s: Slots, ops: seq<Op>, v: nat)
    requires FromCode(s, {v}, ops) && v < |s.records| && s.records[v].Perm? && MarksLater(ops, v)
    ensures HasNone(ApplyAll(s, ops), v) <==> LosesByFirstVisit(PermVars(s), ops, v, None, {})
  {
    hide ApplyAll, TakesLater, LosesByFirstVisit, MarksLater, CutInv, OnceEach, PermVars, HasNone;
    StartDistinct(s);
    StartCuts(s, {v});
    SlotRun(s, ops, {v}, {}, v);
    LosesInRun(s, ops, v, {}, None, {});
  }

  // ----- clauses in which it happens -----

  /** The body \+ (a, !, q(X), r(X, Y), s(Y)): one cut in the negation is enough. The cut point is variable 0, X is
      variable 1 and Y is variable 2. X gets a new slot in the chunk of the cut, and Y the slot of the cut point in
      the next, before the cut that ends the negation. */
  lemma {:induction false} OneCutLosesCutPoint()
    ensures var none := Perm(0, false);
            var s := Slots([none, none, none], [4, 2, 2], [0, 0, 0], 1, [], map[]);
            var ops := [MarkCut(0, 0), LocalCut(0, 1), Visit(1, 1)] + [Visit(1, 2), Visit(2, 2), Visit(2, 3)];
            FromCode(s, {0}, ops) && ApplyAll(s, ops).records == [none, Perm(2, true), Perm(1, true)]
  {
    var none := Perm(0, false);
    var s0 := Slots([none, none, none], [4, 2, 2], [0, 0, 0], 1, [], map[]);
    var a, b, c, d, e, f := MarkCut(0, 0), LocalCut(0, 1), Visit(1, 1), Visit(1, 2), Visit(2, 2), Visit(2, 3);
    var s1 := Apply(s0, a);
    assert s1 == Slots([Perm(1, true), none, none], [4, 2, 2], [0, 0, 0], 2, [], map[]);
    var s2 := Apply(s1, b);
    assert s2 == Slots([Perm(1, false), none, none], [4, 2, 2], [0, 0, 0], 2, [Freed(1, 0)], map[1 := 1]);
    var s3 := Apply(s2, c);
    assert s3 == Slots([Perm(1, false), Perm(2, true), none], [4, 2, 2], [0, 1, 0], 3, [Freed(1, 0)], map[1 := 1]);
    Three(s0, a, b, c);
    OneCutTail(s3);
    ApplyAllConcat(s0, [a, b, c], [d, e, f]);
    OneCutFromCode(s0);
  }

  lemma {:induction false} OneCutTail(s: Slots)
    requires s == Slots([Perm(1, false), Perm(2, true), Perm(0, false)], [4, 2, 2], [0, 1, 0], 3, [Freed(1, 0)],
            map[1 := 1])
    ensures ApplyAll(s, [Visit(1, 2), Visit(2, 2), Visit(2, 3)]).records
            == [Perm(0, false), Perm(2, true), Perm(1, true)]
  {
    var d, e, f := Visit(1, 2), Visit(2, 2), Visit(2, 3);
    Three(s, d, e, f);
    var s4 := Apply(s, d);
    assert s4 == Slots([Perm(1, false), Perm(2, true), Perm(0, false)], [4, 2, 2], [0, 2, 0], 3, [Freed(1, 0)],
            map[1 := 1]);
    TakeOver(s4);
    var s5 := Apply(s4, e);
    assert s5 == Slots([Perm(0, false), Perm(2, true), Perm(1, true)], [4, 2, 2], [0, 2, 1], 3, [], map[1 := 1]);
  }

  lemma {:induction false} TakeOver(s: Slots)
    requires s == Slots([Perm(1, false), Perm(2, true), Perm(0, false)], [4, 2, 2], [0, 2, 0], 3, [Freed(1, 0)],
            map[1 := 1])
    ensures Apply(s, Visit(2, 2)) == Slots([Perm(0, false), Perm(2, true), Perm(1, true)], [4, 2, 2], [0, 2, 1], 3,
            [], map[1 := 1])
  {
    var taken := Slots([Perm(0, false), Perm(2, true), Perm(0, false)], [4, 2, 2], [0, 2, 0], 3, [], map[1 := 1]);
    assert PopFreePerm(s, 2) == Popped(Some(1), taken);
  }

  lemma {:induction false} OneCutFromCode(s: Slots)
    requires s == Slots([Perm(0, false), Perm(0, false), Perm(0, false)], [4, 2, 2], [0, 0, 0], 1, [], map[])
    ensures FromCode(s, {0}, [MarkCut(0, 0), LocalCut(0, 1), Visit(1, 1)] + [Visit(1, 2), Visit(2, 2), Visit(2, 3)])
  {
    var a, b, c, d, e, f := MarkCut(0, 0), LocalCut(0, 1), Visit(1, 1), Visit(1, 2), Visit(2, 2), Visit(2, 3);
    assert [a, b, c] + [d, e, f] == [a, b, c, d, e, f];
    SixApart(a, b, c, d, e, f);
    forall v: nat ensures Visits([a, b, c, d, e, f], v) <= if v == 1 || v == 2 then 2 else 0 {
      SixVisits(a, b, c, d, e, f, v);
    }
  }

  /** A negation with two cuts in it, outside tail position, before the first occurrence of a permanent variable. */
  const NegationOps := [MarkCut(0, 0), LocalCut(0, 1), LocalCut(0, 2)]

  /** The body \+ (a, !, b, !, q(X), r(X)): the cut point of the negation is variable 0 and X is variable 1. Every
      step is one the code generator takes; X takes over the slot of the cut point in the chunk in which the second
      cut gave it back, and the cut that ends the negation finds its cut point without a slot. */
  lemma {:induction false} NegationLosesCutPoint()
    ensures var s := Slots([Perm(0, false), Perm(0, false)], [6, 2], [0, 0], 1, [], map[]);
            var now := ApplyAll(s, NegationOps);
            var end := ApplyAll(s, NegationOps + [Visit(1, 2), Visit(1, 3)]);
            && FromCode(s, {0}, NegationOps + [Visit(1, 2), Visit(1, 3), LocalCut(0, 4)])
            && PopFreePerm(now, 2).slot == Some(1) && 1 in now.freedAt && now.freedAt[1] == 2
            && end.records == [Perm(0, false), Perm(1, true)]
  {
    var s0 := Slots([Perm(0, false), Perm(0, false)], [6, 2], [0, 0], 1, [], map[]);
    var a, b, c, d, e, f := MarkCut(0, 0), LocalCut(0, 1), LocalCut(0, 2), Visit(1, 2), Visit(1, 3), LocalCut(0, 4);
    var s1, s2, s3 := Apply(s0, a), Apply(Apply(s0, a), b), Apply(Apply(Apply(s0, a), b), c);
    assert s1 == Slots([Perm(1, true), Perm(0, false)], [6, 2], [0, 0], 2, [], map[]);
    assert s2 == Slots([Perm(1, false), Perm(0, false)], [6, 2], [0, 0], 2, [Freed(1, 0)], map[1 := 1]);
    assert s3 == Slots([Perm(1, false), Perm(0, false)], [6, 2], [0, 0], 2, [Freed(1, 0), Freed(2, 0)], map[1 := 2]);
    Three(s0, a, b, c);
    var s4, s5 := Apply(s3, d), Apply(Apply(s3, d), e);
    assert PopFreePerm(s3, 2) == Popped(Some(1),
            Slots([Perm(0, false), Perm(0, false)], [6, 2], [0, 0], 2, [Freed(2, 0)], map[1 := 2]));
    assert s4 == Slots([Perm(0, false), Perm(1, true)], [6, 2], [0, 1], 2, [Freed(2, 0)], map[1 := 2]);
    assert s5 == Slots([Perm(0, false), Perm(1, true)], [6, 2], [0, 2], 2, [Freed(2, 0)], map[1 := 2]);
    ApplyAllConcat(s0, NegationOps, [d, e]);
    Two(s3, d, e);
    NegationFromCode(s0);
  }

  lemma {:induction false} Two(s: Slots, a: Op, b: Op)
    ensures ApplyAll(s, [a, b]) == Apply(Apply(s, a), b)
  {
    assert [a, b][1..] == [b] && [b][1..] == [];
    assert ApplyAll(Apply(s, a), [b]) == ApplyAll(Apply(Apply(s, a), b), []);
  }

  lemma {:induction false} Three(s: Slots, a: Op, b: Op, c: Op)
    ensures ApplyAll(s, [a, b, c]) == Apply(Apply(Apply(s, a), b), c)
  {
    assert [a, b, c][1..] == [b, c];
    Two(Apply(s, a), b, c);
  }

  lemma {:induction false} NegationFromCode(s: Slots)
    requires s == Slots([Perm(0, false), Perm(0, false)], [6, 2], [0, 0], 1, [], map[])
    ensures FromCode(s, {0}, NegationOps + [Visit(1, 2), Visit(1, 3), LocalCut(0, 4)])
  {
    var a, b, c, d, e, f := MarkCut(0, 0), LocalCut(0, 1), LocalCut(0, 2), Visit(1, 2), Visit(1, 3), LocalCut(0, 4);
    assert NegationOps + [d, e, f] == [a, b, c, d, e, f];
    SixApart(a, b, c, d, e, f);
    forall v: nat ensures Visits([a, b, c, d, e, f], v) <= if v == 1 then 2 else 0 {
      SixVisits(a, b, c, d, e, f, v);
    }
  }

  /** Steps of a clause with one cut point, which is taken first. */
  lemma {:induction false} SixApart(a: Op, b: Op, c: Op, d: Op, e: Op, f: Op)
    requires a.MarkCut? && a.v == 0
    requires forall op :: op in {b, c, d, e, f} ==> CutsApart({0}, {0}, op) && Marked({0}, op) == {0}
    ensures AllCutsApart({0}, {}, [a, b, c, d, e, f])
  {
    hide CutsApart;
    Next([], f);
    Next([f], e);
    Next([e, f], d);
    Next([d, e, f], c);
    Next([c, d, e, f], b);
    assert [a, b, c, d, e, f][1..] == [b] + [c, d, e, f];
    assert Marked({}, a) == {0};
    assert CutsApart({0}, {}, a) by { First(a); }
  }

  lemma {:induction false} First(a: Op)
    requires a.MarkCut? && a.v == 0
    ensures CutsApart({0}, {}, a)
  {
  }

  lemma {:induction false} Next(ops: seq<Op>, op: Op)
    requires AllCutsApart({0}, {0}, ops) && CutsApart({0}, {0}, op) && Marked({0}, op) == {0}
    ensures AllCutsApart({0}, {0}, [op] + ops)
  {
    assert ([op] + ops)[1..] == ops;
  }

  predicate VisitOf(op: Op, v: nat)
  {
    op == Count(v) || (op.Visit? && op.v == v)
  }

  function One(b: bool): nat
  {
    if b then 1 else 0
  }

  lemma {:induction false} SixVisits(a: Op, b: Op, c: Op, d: Op, e: Op, f: Op, v: nat)
    ensures Visits([a, b, c, d, e, f], v) ==
            One(VisitOf(a, v)) + One(VisitOf(b, v)) + One(VisitOf(c, v)) + One(VisitOf(d, v)) + One(VisitOf(e, v))
                + One(VisitOf(f, v))
  {
    hide VisitOf, One, Visits;
    VisitNone(v);
    VisitNext([f], v);
    VisitNext([e, f], v);
    VisitNext([d, e, f], v);
    VisitNext([c, d, e, f], v);
    VisitNext([b, c, d, e, f], v);
    VisitNext([a, b, c, d, e, f], v);
    assert [f][1..] == [] && [e, f][1..] == [f] && [d, e, f][1..] == [e, f] && [c, d, e, f][1..] == [d, e, f];
    assert [b, c, d, e, f][1..] == [c, d, e, f] && [a, b, c, d, e, f][1..] == [b, c, d, e, f];
  }

  lemma {:induction false} VisitNone(v: nat)
    ensures Visits([], v) == 0
  {
  }

  lemma {:induction false} VisitNext(ops: seq<Op>, v: nat)
    requires ops != []
    ensures Visits(ops, v) == One(VisitOf(ops[0], v)) + Visits(ops[1..], v)
  {
  }
}
