/**
 The clauses a call of a compiled predicate reaches: in source order, each at most once,
 exactly those the index leads to; and which clauses that could match are missed.
 */
module PredicateRun {
  import opened IndexingLines
  import opened Options
  import opened IndexingCompile
  import opened IndexingDispatch
  import opened PredicateCode
  import opened PredicateReach
  import opened Slices
  import opened HeadMatching

  function At(p: nat, offsets: seq<nat>): (r: seq<nat>)
    ensures |r| == |offsets| && forall i :: 0 <= i < |r| ==> r[i] == p + offsets[i]
  {
    seq(|offsets|, i requires 0 <= i < |offsets| => p + offsets[i])
  }

  /** The positions of the clauses tried when execution enters the code at `p`: a choice instruction
      tries what follows it and then its next alternative, an indexing block tries what the argument
      selects. */
  function Reach(code: seq<Instr>, args: seq<Arg>, p: nat): seq<nat>
    decreases |code| - p
  {
    if p >= |code| then []
    else match code[p]
      case Body(_) => [p]
      case IndexingCode(lines) =>
        if !Rooted(lines) || !(1 <= lines[0].arg <= |args|) then []
        else
          var arg := args[lines[0].arg - 1];
          if !arg.Unbound? then At(p, Reached(lines, arg))
          else if lines[0].v.Fail? || lines[0].v.o == 0 then []
          else Reach(code, args, p + lines[0].v.o)
      case _ =>
        var next := NextAlternative(code[p]);
        Reach(code, args, p + 1) + if next > 0 then Reach(code, args, p + next) else []
  }

  // ----- one run -----

  /** Where clause `i` of a chain that starts at `b` stands. */
  function InChain(run: seq<Clause>, b: nat, i: nat): nat
    requires i < |run|
  {
    b + Room(run, i) + 1
  }

  /** The positions of the clauses of a chain, from clause `i` on. */
  function BodyList(run: seq<Clause>, b: nat, i: nat): (r: seq<nat>)
    requires i <= |run|
    ensures |r| == |run| - i
    ensures forall j :: 0 <= j < |r| ==> r[j] == InChain(run, b, i + j)
    decreases |run| - i
  {
    if i == |run| then [] else [InChain(run, b, i)] + BodyList(run, b, i + 1)
  }

  lemma {:induction false} ChainInstr(code: seq<Instr>, run: seq<Clause>, settings: Settings, b: nat, i: nat)
    requires PlainBodies(run) && i < |run| && StandsAt(code, Chained(run, |run|, settings), b)
    ensures var p := b + Room(run, i);
            && p + 1 < |code| && code[p] == InnerChoice(run, i, settings) && code[p + 1].Body?
            && Room(run, i + 1) == Room(run, i) + 1 + |run[i].body|
  {
    var chain, p := Chained(run, |run|, settings), Room(run, i);
    ChainedAt(run, i, |run|, settings);
    assert chain[p + 1] == run[i].body[0] by {
      assert chain[p + 1..p + 1 + |run[i].body|][0] == chain[p + 1];
    }
    Within(code, chain, b, p, 1);
    Within(code, chain, b, p + 1, 1);
  }

  lemma {:induction false} InnerNext(run: seq<Clause>, settings: Settings, i: nat)
    requires i < |run|
    ensures NextAlternative(InnerChoice(run, i, settings)) == if i + 1 < |run| then |run[i].body| + 1 else 0
  {
  }

  /** One step along a chain: the clause, then the rest. */
  lemma {:induction false} ChainStep(code: seq<Instr>, args: seq<Arg>, run: seq<Clause>, settings: Settings, b: nat,
                                     i: nat)
    requires PlainBodies(run) && i < |run| && StandsAt(code, Chained(run, |run|, settings), b)
    ensures Reach(code, args, b + Room(run, i)) ==
            [InChain(run, b, i)] + if i + 1 < |run| then Reach(code, args, b + Room(run, i + 1)) else []
  {
    hide Reach;
    hide Chained;
    ChainInstr(code, run, settings, b, i);
    InnerNext(run, settings, i);
    StepReach(code, args, b + Room(run, i));
  }

  /** A choice instruction in front of a clause. */
  lemma {:induction false} StepReach(code: seq<Instr>, args: seq<Arg>, p: nat)
    requires p + 1 < |code| && IsChoice(code[p]) && code[p + 1].Body?
    ensures var next := NextAlternative(code[p]);
            Reach(code, args, p) == [p + 1] + if next > 0 then Reach(code, args, p + next) else []
  {
    assert Reach(code, args, p + 1) == [p + 1];
  }

  /** Following a chain reaches all its clauses in order. */
  lemma {:induction false} ChainReach(code: seq<Instr>, args: seq<Arg>, run: seq<Clause>, settings: Settings, b: nat,
                                      i: nat)
    requires PlainBodies(run) && i < |run| && StandsAt(code, Chained(run, |run|, settings), b)
    ensures Reach(code, args, b + Room(run, i)) == BodyList(run, b, i)
    decreases |run| - i
  {
    hide Reach, Chained, Room;
    ChainStep(code, args, run, settings, b, i);
    if i + 1 < |run| {
      ChainReach(code, args, run, settings, b, i + 1);
    }
  }

  lemma {:induction false} RoomAscends(run: seq<Clause>, i: nat, j: nat)
    requires i < j <= |run|
    ensures Room(run, i) + 1 + |run[i].body| <= Room(run, j)
  {
    if i + 1 < j { RoomAscends(run, i, j - 1); }
  }

  /** The indexed argument of the clause's head accepts the call's argument. */
  predicate CanMatch(run: seq<Clause>, i: nat, arg: nat, args: seq<Arg>)
    requires i < |run|
  {
    arg >= |run[i].args| || arg >= |args| || HeadMatches(run[i].args[arg], args[arg])
  }

  /** The call is led to clause `i`: there is no indexing block, its argument is unbound, or the block leads there. */
  ghost predicate Led(run: seq<Clause>, lines: seq<Line>, arg: nat, args: seq<Arg>, i: nat)
    requires i < |run|
  {
    || lines == [] || arg >= |args| || args[arg].Unbound?
    || LeadsTo(RunEntries(run, |run|, arg), RunEntry(run, i, arg), args[arg])
  }

  /** Exactly the clauses the call is led to are among the positions. */
  ghost predicate ReachesLed(run: seq<Clause>, lines: seq<Line>, arg: nat, settings: Settings, args: seq<Arg>, b: nat,
                             reached: seq<nat>)
  {
    forall i :: 0 <= i < |run| ==> (b + BodyPos(run, lines, settings, i) in reached <==> Led(run, lines, arg, args, i))
  }

  predicate IsClause(run: seq<Clause>, lines: seq<Line>, settings: Settings, b: nat, p: nat, i: nat)
  {
    i < |run| && p == b + BodyPos(run, lines, settings, i)
  }

  ghost predicate OnlyClauses(run: seq<Clause>, lines: seq<Line>, settings: Settings, b: nat, reached: seq<nat>)
  {
    forall p :: p in reached ==> exists i: nat :: IsClause(run, lines, settings, b, p, i)
  }

  /** What is reached of a run that starts at `b`: in order, the clauses the call is led to and nothing else. */
  ghost predicate RunReached(run: seq<Clause>, lines: seq<Line>, arg: nat, settings: Settings, args: seq<Arg>, b: nat,
                             reached: seq<nat>)
  {
    && Ascending(reached)
    && ReachesLed(run, lines, arg, settings, args, b, reached)
    && OnlyClauses(run, lines, settings, b, reached)
  }

  lemma {:induction false} BodyListAscends(run: seq<Clause>, b: nat)
    ensures Ascending(BodyList(run, b, 0))
  {
    hide Room;
    var r := BodyList(run, b, 0);
    forall i, j | 0 <= i < j < |r| ensures r[i] < r[j] {
      RoomAscends(run, i, j);
      assert r[i] == InChain(run, b, i) && r[j] == InChain(run, b, j);
    }
  }

  lemma {:induction false} AllReached(run: seq<Clause>, lines: seq<Line>, arg: nat, settings: Settings,
                                      args: seq<Arg>, b: nat)
    requires !Bare(run, lines, settings) && arg < |args| && args[arg].Unbound?
    ensures RunReached(run, lines, arg, settings, args, b, BodyList(run, b + 1, 0))
  {
    hide Room, BodyList, RunEntries, RunEntry, Ascending;
    var reached := BodyList(run, b + 1, 0);
    BodyListAscends(run, b + 1);
    forall i | 0 <= i < |run| ensures b + BodyPos(run, lines, settings, i) in reached {
      assert reached[i] == InChain(run, b + 1, i);
    }
    forall p | p in reached ensures exists i: nat :: IsClause(run, lines, settings, b, p, i) {
      var i :| 0 <= i < |reached| && reached[i] == p;
      assert reached[i] == InChain(run, b + 1, i);
      assert IsClause(run, lines, settings, b, p, i);
    }
  }

  /** Entries of a run ascend. */
  lemma {:induction false} EntriesAscend(run: seq<Clause>, arg: nat)
    ensures AscendingOffsets(RunEntries(run, |run|, arg))
  {
    var s := RunEntries(run, |run|, arg);
    forall i, j | 0 <= i < j < |s| ensures s[i].offset < s[j].offset {
      RoomAscends(run, i, j);
    }
  }

  lemma {:induction false} AtMember(b: nat, offsets: seq<nat>, o: nat)
    ensures o in offsets <==> b + o in At(b, offsets)
  {
    if o in offsets {
      var j :| 0 <= j < |offsets| && offsets[j] == o;
      assert At(b, offsets)[j] == b + o;
    }
    if b + o in At(b, offsets) {
      var j :| 0 <= j < |offsets| && At(b, offsets)[j] == b + o;
      assert offsets[j] == o;
    }
  }

  lemma {:induction false} ReachedFiled(run: seq<Clause>, lines: seq<Line>, arg: nat, settings: Settings, b: nat,
                                        key: Key, p: nat) returns (i: nat)
    requires !Bare(run, lines, settings) && p in At(b, Scan(RunEntries(run, |run|, arg), key))
    ensures IsClause(run, lines, settings, b, p, i)
  {
    var s := RunEntries(run, |run|, arg);
    ScanBounded(s, key);
    var j :| 0 <= j < |Scan(s, key)| && At(b, Scan(s, key))[j] == p;
    assert Scan(s, key)[j] in Scan(s, key);
    i :| 0 <= i < |s| && key in s[i].keys && s[i].offset == Scan(s, key)[j];
    assert s[i] == RunEntry(run, i, arg);
  }

  /** A clause is among what the scan for a key reaches exactly if it is filed under it. */
  lemma {:induction false} FiledReached(run: seq<Clause>, lines: seq<Line>, arg: nat, settings: Settings, b: nat,
                                        key: Key, i: nat)
    requires !Bare(run, lines, settings) && i < |run|
    ensures b + BodyPos(run, lines, settings, i) in At(b, Scan(RunEntries(run, |run|, arg), key)) <==>
            key in RunEntry(run, i, arg).keys
  {
    hide Scan, Room, At;
    var s := RunEntries(run, |run|, arg);
    EntriesAscend(run, arg);
    FiledExactly(s, key, i);
    assert s[i] == RunEntry(run, i, arg);
    AtMember(b, Scan(s, key), s[i].offset);
  }

  /** The scan for the key by which the call is led is what a run should give. */
  lemma {:induction false} ScanReached(run: seq<Clause>, lines: seq<Line>, arg: nat, settings: Settings,
                                       args: seq<Arg>, b: nat, key: Key)
    requires !Bare(run, lines, settings) && lines != [] && arg < |args| && !args[arg].Unbound?
    requires forall i :: 0 <= i < |run| ==>
               (LeadsTo(RunEntries(run, |run|, arg), RunEntry(run, i, arg), args[arg]) <==>
                   key in RunEntry(run, i, arg).keys)
    ensures RunReached(run, lines, arg, settings, args, b, At(b, Scan(RunEntries(run, |run|, arg), key)))
  {
    hide Room, LeadsTo, RunEntries, Scan, BodyPos, RunEntry, Bare;
    var reached := At(b, Scan(RunEntries(run, |run|, arg), key));
    EntriesAscend(run, arg);
    ScanAscending(RunEntries(run, |run|, arg), key);
    forall i | 0 <= i < |run| ensures b + BodyPos(run, lines, settings, i) in reached <==>
        Led(run, lines, arg, args, i) {
      FiledReached(run, lines, arg, settings, b, key, i);
    }
    forall p | p in reached ensures exists i: nat :: IsClause(run, lines, settings, b, p, i) {
      var i := ReachedFiled(run, lines, arg, settings, b, key, p);
    }
  }

  lemma {:induction false} NothingReached(run: seq<Clause>, lines: seq<Line>, arg: nat, settings: Settings,
                                          args: seq<Arg>, b: nat)
    requires lines != [] && arg < |args| && !args[arg].Unbound?
    requires forall i :: 0 <= i < |run| ==> !LeadsTo(RunEntries(run, |run|, arg), RunEntry(run, i, arg), args[arg])
    ensures RunReached(run, lines, arg, settings, args, b, At(b, []))
  {
    hide LeadsTo, RunEntries, RunEntry;
  }

  // ----- a run, run -----

  lemma {:induction false} BareReached(run: seq<Clause>, lines: seq<Line>, arg: nat, settings: Settings,
                                       args: seq<Arg>, b: nat)
    requires Bare(run, lines, settings) && lines == []
    ensures RunReached(run, lines, arg, settings, args, b, [b])
  {
    assert IsClause(run, lines, settings, b, b, 0);
  }

  lemma {:induction false} AtBody(code: seq<Instr>, args: seq<Arg>, p: nat)
    requires p < |code| && code[p].Body?
    ensures Reach(code, args, p) == [p]
  {
  }

  lemma {:induction false} UnboundStep(code: seq<Instr>, args: seq<Arg>, lines: seq<Line>, arg: nat, b: nat)
    requires StandsAt(code, [IndexingCode(lines)], b)
    requires Rooted(lines) && lines[0].arg == arg + 1 && arg < |args| && args[arg].Unbound?
    requires !lines[0].v.Fail? && lines[0].v.o > 0
    ensures Reach(code, args, b) == Reach(code, args, b + lines[0].v.o)
  {
    Within(code, [IndexingCode(lines)], b, 0, 1);
  }

  /** An unbound argument is sent down the chain of all clauses. */
  lemma {:induction false} UnboundReach(code: seq<Instr>, args: seq<Arg>, run: seq<Clause>, lines: seq<Line>,
                                        arg: nat, settings: Settings, b: nat)
    requires PlainBodies(run) && run != [] && lines != [] && !Bare(run, lines, settings)
    requires StandsAt(code, RunCode(run, lines, settings), b)
    requires Rooted(lines) && lines[0].arg == arg + 1 && arg < |args| && args[arg].Unbound?
    requires !lines[0].v.Fail? && lines[0].v.o == if |run| == 1 && !settings.Dynamic() then 2 else 1
    ensures Reach(code, args, b) == BodyList(run, b + 1, 0)
  {
    hide Reach, Chained, StandsAt;
    var chain := Chained(run, |run|, settings);
    assert RunCode(run, lines, settings) == [IndexingCode(lines)] + chain;
    Joined(code, [IndexingCode(lines)], chain, b);
    UnboundStep(code, args, lines, arg, b);
    if lines[0].v.o == 2 {
      ChainInstr(code, run, settings, b + 1, 0);
      assert BodyList(run, b + 1, 1) == [];
      AtBody(code, args, b + 2);
    } else {
      ChainReach(code, args, run, settings, b + 1, 0);
    }
  }

  lemma {:induction false} BoundReach(code: seq<Instr>, args: seq<Arg>, run: seq<Clause>, lines: seq<Line>, arg: nat,
                                      settings: Settings, b: nat)
    requires run != [] && lines != [] && !Bare(run, lines, settings) && StandsAt(code, RunCode(run, lines, settings), b)
    requires Rooted(lines) && lines[0].arg == arg + 1 && arg < |args| && !args[arg].Unbound?
    ensures Reach(code, args, b) == At(b, Reached(lines, args[arg]))
  {
    var segment := RunCode(run, lines, settings);
    Within(code, segment, b, 0, 1);
  }

  lemma {:induction false} BoundReached(run: seq<Clause>, lines: seq<Line>, arg: nat, settings: Settings,
                                        args: seq<Arg>, b: nat)
    requires lines != [] && !Bare(run, lines, settings) && arg < |args| && !args[arg].Unbound?
    requires var s := RunEntries(run, |run|, arg);
             Rooted(lines) && Represents(lines, s) && forall kind :: Lean(lines, s, kind)
    ensures RunReached(run, lines, arg, settings, args, b, At(b, Reached(lines, args[arg])))
  {
    hide LeadsTo, Represents, RunReached, Lean, Reached, Scan, Bare, RunEntries;
    var s := RunEntries(run, |run|, arg);
    var key := LedByKey(lines, s, args[arg]);
    forall i | 0 <= i < |run|
      ensures LeadsTo(s, RunEntry(run, i, arg), args[arg]) <==> key.Some? && key.value in RunEntry(run, i, arg).keys
    {
      assert s[i] == RunEntry(run, i, arg);
    }
    if key.Some? {
      ScanReached(run, lines, arg, settings, args, b, key.value);
    } else {
      NothingReached(run, lines, arg, settings, args, b);
    }
  }

  /** Entering a run reaches what it should. */
  lemma {:induction false} RunReaches(code: seq<Instr>, args: seq<Arg>, run: seq<Clause>, lines: seq<Line>, arg: nat,
                                      settings: Settings, b: nat)
    requires PlainBodies(run) && run != [] && StandsAt(code, RunCode(run, lines, settings), b)
    requires RunForm(run, arg, lines, settings) && RunLines(run, lines, arg, settings) && (lines != [] ==> arg < |args|)
    ensures RunReached(run, lines, arg, settings, args, b, Reach(code, args, b))
  {
    hide Reach, RunReached, Represents, RunEntries;
    if Bare(run, lines, settings) {
      BareReached(run, lines, arg, settings, args, b);
      EnterBody(code, args, run, b);
    } else if args[arg].Unbound? {
      UnboundReach(code, args, run, lines, arg, settings, b);
      AllReached(run, lines, arg, settings, args, b);
    } else {
      BoundReach(code, args, run, lines, arg, settings, b);
      BoundReached(run, lines, arg, settings, args, b);
    }
  }

  lemma {:induction false} EnterBody(code: seq<Instr>, args: seq<Arg>, run: seq<Clause>, b: nat)
    requires PlainBodies(run) && run != [] && StandsAt(code, run[0].body, b)
    ensures Reach(code, args, b) == [b]
  {
    Within(code, run[0].body, b, 0, 1);
  }

  // ----- the whole predicate -----

  /** Where run `k`'s outer choice instruction stands, and where the run itself does. */
  function PieceStart(placed: seq<Placed>, k: nat): nat
    requires k <= |placed|
  {
    |Flatten(Codes(placed)[..k])|
  }

  function RunBase(spans: seq<ClauseSpan>, placed: seq<Placed>, settings: Settings, k: nat): nat
    requires k <= |placed|
  {
    PieceStart(placed, k) + if |spans| > 1 || settings.extensible then 1 else 0
  }

  lemma {:induction false} PieceAt(clauses: seq<Clause>, spans: seq<ClauseSpan>, placed: seq<Placed>,
                                   settings: Settings, k: nat)
    requires |placed| == |spans| && k < |spans| && spans[k].left < spans[k].right <= |clauses|
    requires RunPlaced(clauses, spans, placed, settings, k)
    ensures var code := Flatten(Codes(placed));
            var run := RunCode(Run(clauses, spans[k]), placed[k].lines, settings);
            var choice := OuterChoice(clauses, spans, k, |run|, settings);
            && StandsAt(code, choice, PieceStart(placed, k))
            && StandsAt(code, run, RunBase(spans, placed, settings, k))
            && PieceStart(placed, k + 1) == RunBase(spans, placed, settings, k) + |run| <= |code|
  {
    hide RunCode, RunInfos, Flatten;
    FlattenAt(Codes(placed), k);
    var run := RunCode(Run(clauses, spans[k]), placed[k].lines, settings);
    var choice := OuterChoice(clauses, spans, k, |run|, settings);
    assert StandsAt(Flatten(Codes(placed)), choice + run, PieceStart(placed, k));
    Joined(Flatten(Codes(placed)), choice, run, PieceStart(placed, k));
  }

  /** What is reached of run `k`. */
  ghost predicate SpanReached(clauses: seq<Clause>, spans: seq<ClauseSpan>, placed: seq<Placed>, settings: Settings,
                              args: seq<Arg>, k: nat, reached: seq<nat>)
    requires k < |spans| && k < |placed| && spans[k].left < spans[k].right <= |clauses|
  {
    RunReached(Run(clauses, spans[k]), placed[k].lines, spans[k].arg, settings, args,
        RunBase(spans, placed, settings, k), reached)
  }

  predicate ArityFits(clauses: seq<Clause>, args: seq<Arg>)
  {
    forall i :: 0 <= i < |clauses| ==> |clauses[i].args| == |args|
  }

  lemma {:induction false} SpanReaches(clauses: seq<Clause>, spans: seq<ClauseSpan>, placed: seq<Placed>,
                                       settings: Settings, args: seq<Arg>, k: nat)
    requires Compiled(clauses, spans, placed, settings) && k < |spans| && PlainBodies(clauses)
            && ArityFits(clauses, args)
    ensures SpanReached(clauses, spans, placed, settings, args, k,
                        Reach(Flatten(Codes(placed)), args, RunBase(spans, placed, settings, k)))
  {
    hide Reach, RunReached, GoodSpans, RunLines, RunPlaced, Flatten;
    assert RunPlaced(clauses, spans, placed, settings, k);
    PieceAt(clauses, spans, placed, settings, k);
    RunForms(clauses, spans, placed, settings, k);
    assert RunIndexed(clauses, spans, placed, settings, k);
    var run := Run(clauses, spans[k]);
    assert placed[k].lines != [] ==> spans[k].arg < |args| by {
      if placed[k].lines != [] { assert run[0] == clauses[spans[k].left]; }
    }
    RunReaches(Flatten(Codes(placed)), args, run, placed[k].lines, spans[k].arg, settings,
        RunBase(spans, placed, settings, k));
  }

  /** Everything reached of a run lies inside it. */
  lemma {:induction false} SpanInside(clauses: seq<Clause>, spans: seq<ClauseSpan>, placed: seq<Placed>,
                                      settings: Settings, args: seq<Arg>, k: nat, reached: seq<nat>, p: nat)
    requires Compiled(clauses, spans, placed, settings) && k < |spans| && PlainBodies(clauses)
    requires SpanReached(clauses, spans, placed, settings, args, k, reached) && p in reached
    ensures PieceStart(placed, k) <= p < PieceStart(placed, k + 1)
  {
    hide Reach, GoodSpans, Flatten, RunPlaced, RunIndexed, ReachesLed, Ascending, RunCode, BodyPos, OuterChoice;
    assert RunPlaced(clauses, spans, placed, settings, k);
    PieceAt(clauses, spans, placed, settings, k);
    RunForms(clauses, spans, placed, settings, k);
    var run, lines := Run(clauses, spans[k]), placed[k].lines;
    var b := RunBase(spans, placed, settings, k);
    var i: nat :| IsClause(run, lines, settings, b, p, i);
    BodyInside(run, lines, settings, i);
  }

  lemma {:induction false} BodyInside(run: seq<Clause>, lines: seq<Line>, settings: Settings, i: nat)
    requires i < |run| && PlainBodies(run) && (lines == [] ==> Bare(run, lines, settings))
    ensures BodyPos(run, lines, settings, i) < |RunCode(run, lines, settings)|
  {
    if !Bare(run, lines, settings) {
      RunAt(run, lines, settings, i);
    }
  }

  // ----- chaining the runs -----

  /** Where clause `i` of run `k` stands. */
  function ClausePos(clauses: seq<Clause>, spans: seq<ClauseSpan>, placed: seq<Placed>, settings: Settings, k: nat,
                     i: nat): nat
    requires |placed| == |spans| && InRange(clauses, spans) && k < |spans| && i < spans[k].right - spans[k].left
  {
    RunBase(spans, placed, settings, k) + BodyPos(Run(clauses, spans[k]), placed[k].lines, settings, i)
  }

  predicate ClauseCanMatch(clauses: seq<Clause>, spans: seq<ClauseSpan>, args: seq<Arg>, k: nat, i: nat)
    requires InRange(clauses, spans) && k < |spans| && i < spans[k].right - spans[k].left
  {
    CanMatch(Run(clauses, spans[k]), i, spans[k].arg, args)
  }

  /** The call is led to clause `i` of run `k`. */
  ghost predicate ClauseLed(clauses: seq<Clause>, spans: seq<ClauseSpan>, placed: seq<Placed>, args: seq<Arg>, k: nat,
                            i: nat)
    requires |placed| == |spans| && InRange(clauses, spans) && k < |spans| && i < spans[k].right - spans[k].left
  {
    Led(Run(clauses, spans[k]), placed[k].lines, spans[k].arg, args, i)
  }

  predicate IsClauseOf(clauses: seq<Clause>, spans: seq<ClauseSpan>, placed: seq<Placed>, settings: Settings, p: nat,
                       k: nat, i: nat)
    requires |placed| == |spans| && InRange(clauses, spans)
  {
    k < |spans| && i < spans[k].right - spans[k].left && p == ClausePos(clauses, spans, placed, settings, k, i)
  }

  /** From run `from` on, exactly the clauses the call is led to are among the positions. */
  ghost predicate ReachesAllLed(clauses: seq<Clause>, spans: seq<ClauseSpan>, placed: seq<Placed>, settings: Settings,
                                args: seq<Arg>, from: nat, reached: seq<nat>)
    requires |placed| == |spans| && InRange(clauses, spans)
  {
    forall k: nat, i: nat :: (from <= k < |spans| && i < spans[k].right - spans[k].left) ==>
      (ClausePos(clauses, spans, placed, settings, k, i) in reached <==> ClauseLed(clauses, spans, placed, args, k, i))
  }

  ghost predicate OnlyLater(clauses: seq<Clause>, spans: seq<ClauseSpan>, placed: seq<Placed>, settings: Settings,
                            from: nat, reached: seq<nat>)
    requires |placed| == |spans| && InRange(clauses, spans)
  {
    forall p :: p in reached ==>
      exists k: nat, i: nat :: from <= k && IsClauseOf(clauses, spans, placed, settings, p, k, i)
  }

  /** What is reached from run `from` on: in order, the clauses the call is led to and nothing else. */
  ghost predicate CallReached(clauses: seq<Clause>, spans: seq<ClauseSpan>, placed: seq<Placed>, settings: Settings,
                              args: seq<Arg>, from: nat, reached: seq<nat>)
    requires |placed| == |spans| && InRange(clauses, spans)
  {
    && Ascending(reached)
    && ReachesAllLed(clauses, spans, placed, settings, args, from, reached)
    && OnlyLater(clauses, spans, placed, settings, from, reached)
  }

  /** The outer choice instruction of a run says how far away the next run is. */
  lemma {:induction false} OuterNext(clauses: seq<Clause>, spans: seq<ClauseSpan>, settings: Settings, k: nat,
                                     size: nat)
    requires Tiles(spans, 0, |clauses|) && k < |spans| && (|spans| > 1 || settings.extensible)
    ensures var choice := OuterChoice(clauses, spans, k, size, settings);
            && |choice| == 1 && IsChoice(choice[0])
            && NextAlternative(choice[0]) == if k + 1 < |spans| then size + 1 else 0
  {
    LastSpan(spans, |clauses|, k);
  }

  lemma {:induction false} ChoiceReach(code: seq<Instr>, args: seq<Arg>, p: nat)
    requires p < |code| && IsChoice(code[p])
    ensures var next := NextAlternative(code[p]);
            Reach(code, args, p) == Reach(code, args, p + 1) + if next > 0 then Reach(code, args, p + next) else []
  {
  }

  /** Between runs, the outer choice instruction leads from one to the next. */
  lemma {:induction false} OuterStep(clauses: seq<Clause>, spans: seq<ClauseSpan>, placed: seq<Placed>,
                                     settings: Settings, args: seq<Arg>, k: nat)
    requires Tiles(spans, 0, |clauses|) && |placed| == |spans| && k < |spans|
    requires spans[k].left < spans[k].right <= |clauses| && RunPlaced(clauses, spans, placed, settings, k)
    ensures var code := Flatten(Codes(placed));
            Reach(code, args, PieceStart(placed, k)) ==
              Reach(code, args, RunBase(spans, placed, settings, k)) +
              if k + 1 < |spans| then Reach(code, args, PieceStart(placed, k + 1)) else []
  {
    hide Reach, RunCode, Flatten, RunPlaced, OuterChoice, NextAlternative, Tiles;
    PieceAt(clauses, spans, placed, settings, k);
    if |spans| > 1 || settings.extensible {
      var code, p := Flatten(Codes(placed)), PieceStart(placed, k);
      var run := RunCode(Run(clauses, spans[k]), placed[k].lines, settings);
      OuterNext(clauses, spans, settings, k, |run|);
      Within(code, OuterChoice(clauses, spans, k, |run|, settings), p, 0, 1);
      ChoiceReach(code, args, p);
    }
  }

  // ----- the main result -----

  /** What is reached before and after the end of run `k`. */
  ghost predicate SplitBy(placed: seq<Placed>, k: nat, here: seq<nat>, later: seq<nat>)
    requires k < |placed|
  {
    (forall p :: p in here ==> p < PieceStart(placed, k + 1)) && forall p :: p in later ==>
        PieceStart(placed, k + 1) <= p
  }

  /** Joining what is reached of run `k` and of the later runs. */
  lemma {:induction false} JoinReached(clauses: seq<Clause>, spans: seq<ClauseSpan>, placed: seq<Placed>,
                                       settings: Settings, args: seq<Arg>, k: nat, here: seq<nat>, later: seq<nat>)
    requires Compiled(clauses, spans, placed, settings) && PlainBodies(clauses) && k < |spans|
    requires SpanReached(clauses, spans, placed, settings, args, k, here)
    requires CallReached(clauses, spans, placed, settings, args, k + 1, later)
    requires Ascending(here + later) && SplitBy(placed, k, here, later)
    ensures CallReached(clauses, spans, placed, settings, args, k, here + later)
  {
    hide Ascending, Run, RunBase, BodyPos, SpanReached, Compiled, ClausePos, ClauseLed, SplitBy, IsClauseOf,
        ReachesAllLed;
    CompiledRange(clauses, spans, placed, settings);
    assert ReachesAllLed(clauses, spans, placed, settings, args, k, here + later) by {
      JoinLed(clauses, spans, placed, settings, args, k, here, later);
    }
    forall p | p in here + later
      ensures exists m: nat, i: nat :: k <= m && IsClauseOf(clauses, spans, placed, settings, p, m, i)
    {
      if p in here {
        HereIsClause(clauses, spans, placed, settings, args, k, here, p);
      } else {
        var m: nat, i: nat :| k + 1 <= m && IsClauseOf(clauses, spans, placed, settings, p, m, i);
        assert k <= m;
      }
    }
  }

  lemma {:induction false} CompiledRange(clauses: seq<Clause>, spans: seq<ClauseSpan>, placed: seq<Placed>,
                                         settings: Settings)
    requires Compiled(clauses, spans, placed, settings)
    ensures |placed| == |spans| && InRange(clauses, spans)
  {
  }

  lemma {:induction false} JoinLed(clauses: seq<Clause>, spans: seq<ClauseSpan>, placed: seq<Placed>,
                                   settings: Settings, args: seq<Arg>, k: nat, here: seq<nat>, later: seq<nat>)
    requires Compiled(clauses, spans, placed, settings) && PlainBodies(clauses) && k < |spans|
    requires SpanReached(clauses, spans, placed, settings, args, k, here)
    requires ReachesAllLed(clauses, spans, placed, settings, args, k + 1, later) && SplitBy(placed, k, here, later)
    ensures ReachesAllLed(clauses, spans, placed, settings, args, k, here + later)
  {
    hide RunBase, BodyPos, SpanReached, Compiled, ClausePos, ClauseLed, SplitBy;
    CompiledRange(clauses, spans, placed, settings);
    forall m: nat, i: nat | k <= m < |spans| && i < spans[m].right - spans[m].left
      ensures ClausePos(clauses, spans, placed, settings, m, i) in here + later <==>
              ClauseLed(clauses, spans, placed, args, m, i)
    {
      LedHereOrLater(clauses, spans, placed, settings, args, k, here, later, m, i);
    }
  }

  lemma {:induction false} LedHereOrLater(clauses: seq<Clause>, spans: seq<ClauseSpan>, placed: seq<Placed>,
                                          settings: Settings,
                                          args: seq<Arg>, k: nat, here: seq<nat>, later: seq<nat>, m: nat, i: nat)
    requires Compiled(clauses, spans, placed, settings) && PlainBodies(clauses) && k <= m < |spans|
    requires SpanReached(clauses, spans, placed, settings, args, k, here)
    requires ReachesAllLed(clauses, spans, placed, settings, args, k + 1, later) && SplitBy(placed, k, here, later)
    requires i < spans[m].right - spans[m].left
    ensures ClausePos(clauses, spans, placed, settings, m, i) in here + later <==>
            ClauseLed(clauses, spans, placed, args, m, i)
  {
    hide RunBase, BodyPos, Compiled, Ascending, OnlyClauses, Led, PieceStart;
    CompiledRange(clauses, spans, placed, settings);
    ClauseInside(clauses, spans, placed, settings, m, i);
    StartsAscend(placed, k + 1, if m > k then m else k + 1);
  }

  lemma {:induction false} HereIsClause(clauses: seq<Clause>, spans: seq<ClauseSpan>, placed: seq<Placed>,
                                        settings: Settings, args: seq<Arg>, k: nat, here: seq<nat>, p: nat)
    requires |placed| == |spans| && InRange(clauses, spans) && k < |spans| && p in here
    requires SpanReached(clauses, spans, placed, settings, args, k, here)
    ensures exists m: nat, i: nat :: k <= m && IsClauseOf(clauses, spans, placed, settings, p, m, i)
  {
    hide Ascending, RunBase, BodyPos, ReachesLed;
    var run, b := Run(clauses, spans[k]), RunBase(spans, placed, settings, k);
    var i: nat :| IsClause(run, placed[k].lines, settings, b, p, i);
    assert IsClauseOf(clauses, spans, placed, settings, p, k, i);
  }

  lemma {:induction false} AscendingJoin(a: seq<nat>, b: seq<nat>, at: nat)
    requires Ascending(a) && Ascending(b) && (forall p :: p in a ==> p < at) && (forall p :: p in b ==> at <= p)
    ensures Ascending(a + b)
  {
    assert forall i :: 0 <= i < |a| ==> a[i] in a;
    assert forall i :: 0 <= i < |b| ==> b[i] in b;
  }

  lemma {:induction false} StartsAscend(placed: seq<Placed>, k: nat, m: nat)
    requires k <= m <= |placed|
    ensures PieceStart(placed, k) <= PieceStart(placed, m)
  {
    FlattenPrefix(Codes(placed)[..m], k);
    assert Codes(placed)[..m][..k] == Codes(placed)[..k];
  }

  /** A clause lies in its run's piece. */
  lemma {:induction false} ClauseInside(clauses: seq<Clause>, spans: seq<ClauseSpan>, placed: seq<Placed>,
                                        settings: Settings, k: nat, i: nat)
    requires Compiled(clauses, spans, placed, settings) && PlainBodies(clauses) && k < |spans|
            && i < spans[k].right - spans[k].left
    ensures PieceStart(placed, k) <= ClausePos(clauses, spans, placed, settings, k, i) < PieceStart(placed, k + 1)
  {
    hide GoodSpans, Flatten, RunPlaced, RunIndexed, RunCode, BodyPos, OuterChoice;
    assert RunPlaced(clauses, spans, placed, settings, k);
    PieceAt(clauses, spans, placed, settings, k);
    RunForms(clauses, spans, placed, settings, k);
    BodyInside(Run(clauses, spans[k]), placed[k].lines, settings, i);
  }

  lemma {:induction false} ReachedFrom(clauses: seq<Clause>, spans: seq<ClauseSpan>, placed: seq<Placed>,
                                       settings: Settings, args: seq<Arg>, k: nat)
    requires Compiled(clauses, spans, placed, settings) && k < |spans| && PlainBodies(clauses)
            && ArityFits(clauses, args)
    ensures CallReached(clauses, spans, placed, settings, args, k,
            Reach(Flatten(Codes(placed)), args, PieceStart(placed, k)))
    decreases |spans| - k
  {
    hide Reach, CallReached, SpanReached, RunPlaced, RunIndexed, Flatten, Uniform, ArityFits, Tiles, PieceStart,
        RunBase;
    var code := Flatten(Codes(placed));
    assert RunPlaced(clauses, spans, placed, settings, k);
    OuterStep(clauses, spans, placed, settings, args, k);
    SpanReaches(clauses, spans, placed, settings, args, k);
    var here := Reach(code, args, RunBase(spans, placed, settings, k));
    var later := if k + 1 < |spans| then Reach(code, args, PieceStart(placed, k + 1)) else [];
    if k + 1 < |spans| {
      ReachedFrom(clauses, spans, placed, settings, args, k + 1);
    } else {
      NothingLeft(clauses, spans, placed, settings, args, k + 1);
    }
    HereAndLater(clauses, spans, placed, settings, args, k, here, later);
    JoinReached(clauses, spans, placed, settings, args, k, here, later);
  }

  lemma {:induction false} NothingLeft(clauses: seq<Clause>, spans: seq<ClauseSpan>, placed: seq<Placed>,
                                       settings: Settings, args: seq<Arg>, k: nat)
    requires |placed| == |spans| <= k && InRange(clauses, spans)
    ensures CallReached(clauses, spans, placed, settings, args, k, [])
  {
  }

  /** What is reached of a run comes before what is reached of the later ones. */
  lemma {:induction false} HereAndLater(clauses: seq<Clause>, spans: seq<ClauseSpan>, placed: seq<Placed>,
                                        settings: Settings, args: seq<Arg>, k: nat, here: seq<nat>, later: seq<nat>)
    requires Compiled(clauses, spans, placed, settings) && k < |spans| && PlainBodies(clauses)
    requires SpanReached(clauses, spans, placed, settings, args, k, here)
    requires CallReached(clauses, spans, placed, settings, args, k + 1, later)
    ensures Ascending(here + later) && SplitBy(placed, k, here, later)
  {
    hide RunPlaced, RunIndexed, Flatten, Uniform, Tiles, PieceStart, RunBase, ClausePos, ReachesAllLed, ReachesLed,
        OnlyClauses;
    var at := PieceStart(placed, k + 1);
    forall p | p in here ensures p < at {
      SpanInside(clauses, spans, placed, settings, args, k, here, p);
    }
    forall p | p in later ensures at <= p {
      var m: nat, i: nat :| k + 1 <= m && IsClauseOf(clauses, spans, placed, settings, p, m, i);
      ClauseInside(clauses, spans, placed, settings, m, i);
      StartsAscend(placed, k + 1, m);
    }
    AscendingJoin(here, later, at);
  }

  /** For every compiled predicate and every call, the clauses reached from the first instruction on
      are in source order and without repeats, and are exactly those the call is led to. */
  lemma {:induction false} CallReaches(clauses: seq<Clause>, spans: seq<ClauseSpan>, placed: seq<Placed>,
                                       settings: Settings, args: seq<Arg>)
    requires Compiled(clauses, spans, placed, settings) && PlainBodies(clauses) && ArityFits(clauses, args)
    ensures CallReached(clauses, spans, placed, settings, args, 0, Reach(Flatten(Codes(placed)), args, 0))
  {
    hide CallReached, Reach, RunPlaced, RunIndexed, GoodSpans, ArityFits;
    if spans == [] {
      assert Codes(placed) == [];
      NothingLeft(clauses, spans, placed, settings, args, 0);
      EndOfCode([], args, 0);
    } else {
      ReachedFrom(clauses, spans, placed, settings, args, 0);
      assert PieceStart(placed, 0) == 0;
    }
  }

  // ----- clauses that could match -----

  /** No clause whose head accepts the call is missed. */
  ghost predicate NoneMissed(clauses: seq<Clause>, spans: seq<ClauseSpan>, placed: seq<Placed>, settings: Settings,
                             args: seq<Arg>, reached: seq<nat>)
    requires |placed| == |spans| && InRange(clauses, spans)
  {
    forall k: nat, i: nat :: (k < |spans| && i < spans[k].right - spans[k].left
        && ClauseCanMatch(clauses, spans, args, k, i)) ==>
      ClausePos(clauses, spans, placed, settings, k, i) in reached
  }

  /** Each clause whose head accepts the call is in a run without an indexing block, or the argument is unbound, or the
      clause is filed under the argument's own key or under the only key in use. */
  ghost predicate AllFiled(clauses: seq<Clause>, spans: seq<ClauseSpan>, placed: seq<Placed>, args: seq<Arg>)
    requires |placed| == |spans| && InRange(clauses, spans)
  {
    forall k: nat, i: nat :: (k < |spans| && i < spans[k].right - spans[k].left
        && ClauseCanMatch(clauses, spans, args, k, i)) ==>
      ClauseLed(clauses, spans, placed, args, k, i)
  }

  /** A call misses no clause that could match if and only if all of them are filed where the call is led. */
  lemma {:induction false} CallComplete(clauses: seq<Clause>, spans: seq<ClauseSpan>, placed: seq<Placed>,
                                        settings: Settings, args: seq<Arg>)
    requires Compiled(clauses, spans, placed, settings) && PlainBodies(clauses) && ArityFits(clauses, args)
    ensures NoneMissed(clauses, spans, placed, settings, args, Reach(Flatten(Codes(placed)), args, 0)) <==>
            AllFiled(clauses, spans, placed, args)
  {
    hide Reach, Compiled, ClausePos, ClauseLed, ClauseCanMatch, ArityFits, PlainBodies, Ascending, OnlyLater;
    CompiledRange(clauses, spans, placed, settings);
    CallReaches(clauses, spans, placed, settings, args);
    var reached := Reach(Flatten(Codes(placed)), args, 0);
    assert ReachesAllLed(clauses, spans, placed, settings, args, 0, reached);
    if NoneMissed(clauses, spans, placed, settings, args, reached) {
      forall k: nat, i: nat | k < |spans| && i < spans[k].right - spans[k].left
          && ClauseCanMatch(clauses, spans, args, k, i)
        ensures ClauseLed(clauses, spans, placed, args, k, i)
      {
        assert ClausePos(clauses, spans, placed, settings, k, i) in reached;
      }
    }
  }

  /** The clause's head accepts the call, and its run is indexed on a bound argument for which it has no key: the
      argument is a big number stored elsewhere than the clause's, a cut point, or a structure without arguments. */
  ghost predicate OffKey(run: seq<Clause>, lines: seq<Line>, arg: nat, args: seq<Arg>, i: nat)
    requires i < |run|
  {
    && lines != [] && arg < |args| && arg < |run[i].args| && !args[arg].Unbound?
    && HeadMatches(run[i].args[arg], args[arg]) && Unkeyed(run[i].args[arg], args[arg])
  }

  ghost predicate NormalArgs(run: seq<Clause>, arg: nat, args: seq<Arg>)
  {
    && (arg < |args| && args[arg].ConstantArg? ==> Normal(args[arg].lit))
    && forall i :: 0 <= i < |run| && arg < |run[i].args| && run[i].args[arg].Constant? ==> Normal(run[i].args[arg].lit)
  }

  /** A clause of a run that could match is missed exactly if it is off key and not filed under the only key in use. */
  lemma {:induction false} MissedExactly(run: seq<Clause>, lines: seq<Line>, arg: nat, settings: Settings,
                                         args: seq<Arg>, i: nat)
    requires RunForm(run, arg, lines, settings) && (lines != [] ==> arg < |args|) && NormalArgs(run, arg, args)
    requires i < |run| && CanMatch(run, i, arg, args)
    ensures Led(run, lines, arg, args, i) <==>
            !OffKey(run, lines, arg, args, i) || OnlyKey(RunEntries(run, |run|, arg), RunEntry(run, i, arg), args[arg])
  {
    hide OnlyKey, RunEntries, Room;
    if lines != [] && !args[arg].Unbound? {
      KeyedExactly(run[i].args[arg], args[arg], Room(run, i) + 1);
    }
  }

  /** The indexed argument accepts the call, has no key for it, and is not filed under the only key in use. */
  ghost predicate MissedOffKey(clauses: seq<Clause>, spans: seq<ClauseSpan>, placed: seq<Placed>, args: seq<Arg>,
                               k: nat, i: nat)
    requires |placed| == |spans| && InRange(clauses, spans) && k < |spans| && i < spans[k].right - spans[k].left
  {
    var run, arg := Run(clauses, spans[k]), spans[k].arg;
    OffKey(run, placed[k].lines, arg, args, i)
        && !OnlyKey(RunEntries(run, |run|, arg), RunEntry(run, i, arg), args[arg])
  }

  ghost predicate AllNormal(clauses: seq<Clause>, args: seq<Arg>)
  {
    && (forall j :: 0 <= j < |args| && args[j].ConstantArg? ==> Normal(args[j].lit))
    && forall i, j :: 0 <= i < |clauses| && 0 <= j < |clauses[i].args| && clauses[i].args[j].Constant? ==>
        Normal(clauses[i].args[j].lit)
  }

  /** A call misses no clause that could match if and only if no clause that accepts it is both off key and not filed
      under the only key in use. */
  lemma {:induction false} CallCompleteExactly(clauses: seq<Clause>, spans: seq<ClauseSpan>, placed: seq<Placed>,
                                               settings: Settings, args: seq<Arg>)
    requires Compiled(clauses, spans, placed, settings) && PlainBodies(clauses) && ArityFits(clauses, args)
            && AllNormal(clauses, args)
    ensures NoneMissed(clauses, spans, placed, settings, args, Reach(Flatten(Codes(placed)), args, 0)) <==>
            forall k: nat, i: nat :: (k < |spans| && i < spans[k].right - spans[k].left) ==>
                !MissedOffKey(clauses, spans, placed, args, k, i)
  {
    hide Reach, ClausePos, PlainBodies, GoodSpans, RunPlaced, RunIndexed, MissedOffKey, ClauseLed, ClauseCanMatch;
    CompiledRange(clauses, spans, placed, settings);
    CallComplete(clauses, spans, placed, settings, args);
    forall k: nat, i: nat | k < |spans| && i < spans[k].right - spans[k].left
      ensures MissedOffKey(clauses, spans, placed, args, k, i) <==>
              ClauseCanMatch(clauses, spans, args, k, i) && !ClauseLed(clauses, spans, placed, args, k, i)
    {
      ClauseMissedExactly(clauses, spans, placed, settings, args, k, i);
    }
  }

  lemma {:induction false} ClauseMissedExactly(clauses: seq<Clause>, spans: seq<ClauseSpan>, placed: seq<Placed>,
                                               settings: Settings, args: seq<Arg>, k: nat, i: nat)
    requires Compiled(clauses, spans, placed, settings) && ArityFits(clauses, args) && AllNormal(clauses, args)
    requires |placed| == |spans| && InRange(clauses, spans) && k < |spans| && i < spans[k].right - spans[k].left
    ensures MissedOffKey(clauses, spans, placed, args, k, i) <==>
            ClauseCanMatch(clauses, spans, args, k, i) && !ClauseLed(clauses, spans, placed, args, k, i)
  {
    hide GoodSpans, RunPlaced, RunIndexed, OnlyKey, Normal, Led, HeadMatches, Unkeyed;
    RunForms(clauses, spans, placed, settings, k);
    var run, arg := Run(clauses, spans[k]), spans[k].arg;
    assert NormalArgs(run, arg, args);
    if ClauseCanMatch(clauses, spans, args, k, i) {
      assert placed[k].lines != [] ==> arg < |args| by {
        if placed[k].lines != [] { assert run[0] == clauses[spans[k].left]; }
      }
      MissedExactly(run, placed[k].lines, arg, settings, args, i);
    }
  }

  /** Two clauses with big integers, and a call with a number equal to the first one that is stored elsewhere: the
      first clause could match, and nothing is reached. */
  lemma {:induction false} BigNumberMissed(code: seq<Instr>, run: seq<Clause>, lines: seq<Line>, settings: Settings,
                                           b: nat)
    requires PlainBodies(run) && |run| == 2 && StandsAt(code, RunCode(run, lines, settings), b)
    requires run[0].args == [Constant(Integer(1, 100000000000000000000))]
            && run[1].args == [Constant(Integer(2, 200000000000000000000))]
    requires RunForm(run, 0, lines, settings) && RunLines(run, lines, 0, settings)
    ensures var args := [ConstantArg(Integer(3, 100000000000000000000))];
            CanMatch(run, 0, 0, args) && Reach(code, args, b) == []
  {
    hide Reach, RunLines, PlainBodies, RunCode, Ascending, Room, Scan, SoleKey;
    var args := [ConstantArg(Integer(3, 100000000000000000000))];
    var s := RunEntries(run, 2, 0);
    RunReaches(code, args, run, lines, 0, settings, b);
    var first, second := LitKey(Integer(1, 100000000000000000000)), LitKey(Integer(2, 200000000000000000000));
    assert s[0].keys == {first} && s[1].keys == {second};
    ScanInUse(s, first, 0);
    ScanInUse(s, second, 1);
    NoSole(s, first, second);
    forall i | 0 <= i < 2 ensures !Led(run, lines, 0, args, i) {
      assert s[i] == RunEntry(run, i, 0);
    }
    NothingLed(run, lines, 0, settings, args, b, Reach(code, args, b));
  }

  lemma {:induction false} NothingLed(run: seq<Clause>, lines: seq<Line>, arg: nat, settings: Settings,
                                      args: seq<Arg>, b: nat, reached: seq<nat>)
    requires RunReached(run, lines, arg, settings, args, b, reached) && forall i :: 0 <= i < |run| ==>
            !Led(run, lines, arg, args, i)
    ensures reached == []
  {
    hide RunReached, Led;
    if reached != [] {
      var i := LedClause(run, lines, arg, settings, args, b, reached, reached[0]);
    }
  }

  lemma {:induction false} LedClause(run: seq<Clause>, lines: seq<Line>, arg: nat, settings: Settings, args: seq<Arg>,
                                     b: nat, reached: seq<nat>, p: nat) returns (i: nat)
    requires RunReached(run, lines, arg, settings, args, b, reached) && p in reached
    ensures i < |run| && Led(run, lines, arg, args, i)
  {
    hide Led, BodyPos, Ascending;
    i :| IsClause(run, lines, settings, b, p, i);
  }

  lemma {:induction false} NoSole(s: seq<Entry>, a: Key, b: Key)
    requires a.LitKey? && b.LitKey? && a != b && Scan(s, a) != [] && Scan(s, b) != []
    ensures forall key :: !SoleKey(s, Constants, key)
  {
    forall key ensures !SoleKey(s, Constants, key) {
      assert Scan(s, if key == a then b else a) != [];
    }
  }

  lemma {:induction false} EndOfCode(code: seq<Instr>, args: seq<Arg>, p: nat)
    requires p >= |code|
    ensures Reach(code, args, p) == []
  {
  }

  /** Only the last run ends at the last clause. */
  lemma {:induction false} LastSpan(spans: seq<ClauseSpan>, to: nat, k: nat)
    requires Tiles(spans, 0, to) && k < |spans|
    ensures spans[k].right == to <==> k + 1 == |spans|
    ensures spans[k].left == 0 <==> k == 0
  {
    TilesBounds(spans, 0, to);
    TilesNext(spans, 0, to, |spans|);
    TilesNext(spans, 0, to, k);
    if k + 1 < |spans| {
      TilesNext(spans, 0, to, k + 1);
    }
  }
}
