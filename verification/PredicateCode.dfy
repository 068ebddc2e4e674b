/**
 Compiling a predicate: cutting its clauses into runs, chaining and indexing each run,
 and chaining the runs.
 */
module PredicateCode {
  import opened IndexingLines
  import opened Options
  import opened IndexingCompile
  import opened IndexingDispatch

  // ----- cutting a predicate into runs -----

  predicate Instantiated(t: Term)
  {
    !t.Var? && !t.AnonVar?
  }

  /** The first instantiated argument, or |args|. */
  function FirstInstantiated(args: seq<Term>): (r: nat)
    ensures r <= |args|
    ensures r < |args| ==> Instantiated(args[r])
    ensures forall i :: 0 <= i < r ==> !Instantiated(args[i])
  {
    if args == [] then 0
    else if Instantiated(args[0]) then 0
    else 1 + FirstInstantiated(args[1..])
  }

  /** Choice instructions, the indexing block, and any instruction of a clause's own code. */
  datatype Instr =
    | TryMeElse(o: nat)
    | RetryMeElse(o: nat)
    | DefaultRetryMeElse(o: nat)
    | TrustMe
    | DefaultTrustMe
    | DynamicElse(birth: nat, next: NextOrFail)
    | DynamicInternalElse(birth: nat, next: NextOrFail)
    | IndexingCode(lines: seq<Line>)
    | Body(id: nat)

  datatype NextOrFail = Next(o: nat) | Fail(o: nat)

  /** A clause: the arguments of its head and its compiled code. */
  datatype Clause = Clause(args: seq<Term>, body: seq<Instr>)

  datatype ClauseSpan = ClauseSpan(left: nat, right: nat, arg: nat)

  /** A run is a single clause without instantiated arguments, or clauses that all have the
      same first instantiated argument. */
  predicate Uniform(clauses: seq<Clause>, span: ClauseSpan)
    requires span.left < span.right <= |clauses|
  {
    || (&& span.right == span.left + 1 && span.arg == 0
        && FirstInstantiated(clauses[span.left].args) == |clauses[span.left].args|)
    || (forall i :: span.left <= i < span.right ==>
          FirstInstantiated(clauses[i].args) == span.arg < |clauses[i].args|)
  }

  /** The runs cover the clauses from `from` to `to`, in order and without gaps. */
  predicate Tiles(spans: seq<ClauseSpan>, from: nat, to: nat)
  {
    if spans == [] then from == to
    else spans[0].left == from < spans[0].right <= to && Tiles(spans[1..], spans[0].right, to)
  }

  lemma {:induction false} TilesSnoc(spans: seq<ClauseSpan>, from: nat, mid: nat, span: ClauseSpan)
    requires Tiles(spans, from, mid) && span.left == mid < span.right
    ensures Tiles(spans + [span], from, span.right)
  {
    if spans == [] {
      assert (spans + [span])[1..] == [];
    } else {
      assert (spans + [span])[1..] == spans[1..] + [span];
      TilesBounds(spans, from, mid);
      TilesSnoc(spans[1..], spans[0].right, mid, span);
    }
  }

  lemma {:induction false} TilesBounds(spans: seq<ClauseSpan>, from: nat, to: nat)
    requires Tiles(spans, from, to)
    ensures from <= to
    ensures forall i :: 0 <= i < |spans| ==> from <= spans[i].left < spans[i].right <= to
  {
    if spans != [] {
      TilesBounds(spans[1..], spans[0].right, to);
      forall i | 0 <= i < |spans| ensures from <= spans[i].left < spans[i].right <= to {
        if i > 0 { assert spans[i] == spans[1..][i - 1]; }
      }
    }
  }

  predicate HasArg(clauses: seq<Clause>, span: ClauseSpan)
  {
    span.left < |clauses| && FirstInstantiated(clauses[span.left].args) < |clauses[span.left].args|
  }

  /** Two runs that could not be one. */
  predicate Apart(clauses: seq<Clause>, a: ClauseSpan, b: ClauseSpan)
  {
    HasArg(clauses, a) && HasArg(clauses, b) ==> a.arg != b.arg
  }

  /** The runs are uniform, as long as possible, and tile the first `to` clauses. */
  ghost predicate GoodSpans(clauses: seq<Clause>, spans: seq<ClauseSpan>, to: nat)
  {
    && to <= |clauses| && Tiles(spans, 0, to)
    && (forall i :: 0 <= i < |spans| ==> spans[i].left < spans[i].right <= |clauses| && Uniform(clauses, spans[i]))
    && (forall i :: 0 < i < |spans| ==> SplitAt(clauses, spans, i))
  }

  predicate SplitAt(clauses: seq<Clause>, spans: seq<ClauseSpan>, i: nat)
    requires 0 < i < |spans|
  {
    Apart(clauses, spans[i - 1], spans[i])
  }

  predicate Follows(clauses: seq<Clause>, spans: seq<ClauseSpan>, span: ClauseSpan)
  {
    spans == [] || Apart(clauses, spans[|spans| - 1], span)
  }

  lemma {:induction false} GoodSpansSnoc(clauses: seq<Clause>, spans: seq<ClauseSpan>, span: ClauseSpan)
    requires GoodSpans(clauses, spans, span.left) && Follows(clauses, spans, span)
    requires span.left < span.right <= |clauses| && Uniform(clauses, span)
    ensures GoodSpans(clauses, spans + [span], span.right)
  {
    TilesSnoc(spans, 0, span.left, span);
    forall i | 0 < i < |spans + [span]| ensures SplitAt(clauses, spans + [span], i) {
      assert i < |spans| ==> SplitAt(clauses, spans, i);
    }
  }

  /** The clauses from `left` to `right` all have first instantiated argument `arg`. */
  predicate Alike(clauses: seq<Clause>, left: nat, right: nat, arg: nat)
    requires right <= |clauses|
  {
    forall i :: left <= i < right ==> FirstInstantiated(clauses[i].args) == arg < |clauses[i].args|
  }

  /** A run in progress is closed. */
  method CloseRun(clauses: seq<Clause>, spans: seq<ClauseSpan>, left: nat, right: nat, arg: nat)
    returns (spans': seq<ClauseSpan>)
    requires left <= right <= |clauses| && GoodSpans(clauses, spans, left) && Alike(clauses, left, right, arg)
    requires left < right ==> Follows(clauses, spans, ClauseSpan(left, right, arg))
    ensures GoodSpans(clauses, spans', right)
    ensures spans' == if left < right then spans + [ClauseSpan(left, right, arg)] else spans
  {
    if left < right {
      GoodSpansSnoc(clauses, spans, ClauseSpan(left, right, arg));
      spans' := spans + [ClauseSpan(left, right, arg)];
    } else {
      spans' := spans;
    }
  }

  lemma {:induction false} NoSpans(clauses: seq<Clause>)
    ensures GoodSpans(clauses, [], 0)
  {
  }

  method SplitPredicate(clauses: seq<Clause>) returns (spans: seq<ClauseSpan>)
    ensures GoodSpans(clauses, spans, |clauses|)
  {
    hide GoodSpans, FirstInstantiated;
    NoSpans(clauses);
    spans := [];
    var left: nat, optimalIndex: nat := 0, 0;
    for right := 0 to |clauses|
      invariant left <= right && GoodSpans(clauses, spans, left) && Alike(clauses, left, right, optimalIndex)
      invariant spans == [] || (if HasArg(clauses, spans[|spans| - 1]) then
                  left < right && spans[|spans| - 1].arg != optimalIndex else true)
    {
      var args := clauses[right].args;
      var instantiated := ScanArgs(args);
      if instantiated < |args| {
        if optimalIndex != instantiated {
          spans := CloseRun(clauses, spans, left, right, optimalIndex);
          left, optimalIndex := right, instantiated;
        }
      } else {
        spans := CloseRun(clauses, spans, left, right, optimalIndex);
        optimalIndex := 0;
        var span := ClauseSpan(right, right + 1, optimalIndex);
        GoodSpansSnoc(clauses, spans, span);
        spans := spans + [span];
        left := right + 1;
      }
    }
    spans := CloseRun(clauses, spans, left, |clauses|, optimalIndex);
  }

  method ScanArgs(args: seq<Term>) returns (r: nat)
    ensures r == FirstInstantiated(args)
  {
    r := 0;
    while r < |args|
      invariant r <= |args|
      invariant forall i :: 0 <= i < r ==> !Instantiated(args[i])
    {
      if Instantiated(args[r]) {
        FirstUnique(args, r);
        return;
      }
      r := r + 1;
    }
    FirstUnique(args, r);
  }

  lemma {:induction false} FirstUnique(args: seq<Term>, r: nat)
    requires r <= |args| && (r < |args| ==> Instantiated(args[r]))
    requires forall i :: 0 <= i < r ==> !Instantiated(args[i])
    ensures r == FirstInstantiated(args)
  {
    var f := FirstInstantiated(args);
  }

  // ----- choice instructions -----

  datatype Settings = Settings(clock: Option<nat>, extensible: bool, nonCountedBt: bool)
  {
    predicate Dynamic() { clock.Some? }

    function InternalTryMeElse(o: nat): Instr
    {
      if clock.Some? then DynamicInternalElse(clock.value, Next(o)) else TryMeElse(o)
    }

    function InternalRetryMeElse(o: nat): Instr
    {
      if clock.Some? then DynamicInternalElse(clock.value, Next(o)) else RetryMeElse(o)
    }

    function InternalTrustMe(): Instr
    {
      if clock.Some? then DynamicInternalElse(clock.value, NextOrFail.Fail(0))
      else if nonCountedBt then DefaultTrustMe else TrustMe
    }

    function OuterTryMeElse(o: nat): Instr
    {
      if clock.Some? then DynamicElse(clock.value, Next(o)) else TryMeElse(o)
    }

    function OuterRetryMeElse(o: nat): Instr
    {
      if clock.Some? then DynamicElse(clock.value, Next(o))
      else if nonCountedBt then DefaultRetryMeElse(o) else RetryMeElse(o)
    }

    function OuterTrustMe(): Instr
    {
      if clock.Some? then DynamicElse(clock.value, NextOrFail.Fail(0))
      else if nonCountedBt then DefaultTrustMe else TrustMe
    }
  }

  predicate IsChoice(instr: Instr)
  {
    !instr.IndexingCode? && !instr.Body?
  }

  /** How far ahead the next alternative is; 0 when there is none. */
  function NextAlternative(instr: Instr): nat
    requires IsChoice(instr)
  {
    match instr
    case TryMeElse(o) => o
    case RetryMeElse(o) => o
    case DefaultRetryMeElse(o) => o
    case DynamicElse(_, Next(o)) => o
    case DynamicInternalElse(_, Next(o)) => o
    case _ => 0
  }

  // ----- the layout of a run -----

  /** Room taken by the first `i` clauses of a run, each behind its choice instruction. */
  function Room(clauses: seq<Clause>, i: nat): nat
    requires i <= |clauses|
  {
    if i == 0 then 0 else Room(clauses, i - 1) + 1 + |clauses[i - 1].body|
  }

  function InnerChoice(clauses: seq<Clause>, i: nat, settings: Settings): (r: Instr)
    requires i < |clauses|
    ensures IsChoice(r)
  {
    if |clauses| == 1 then settings.InternalTryMeElse(0)
    else if i == 0 then settings.InternalTryMeElse(|clauses[i].body| + 1)
    else if i + 1 == |clauses| then settings.InternalTrustMe()
    else settings.InternalRetryMeElse(|clauses[i].body| + 1)
  }

  function Chained(clauses: seq<Clause>, i: nat, settings: Settings): (r: seq<Instr>)
    requires i <= |clauses|
    ensures |r| == Room(clauses, i)
  {
    if i == 0 then []
    else Chained(clauses, i - 1, settings) + [InnerChoice(clauses, i - 1, settings)] + clauses[i - 1].body
  }

  /** The indexed argument of a clause, as an entry of the run's indexing block. */
  function RunEntry(clauses: seq<Clause>, i: nat, arg: nat): Entry
    requires i < |clauses|
  {
    if arg < |clauses[i].args| then EntryOf(clauses[i].args[arg], Room(clauses, i) + 1)
    else Entry({}, Room(clauses, i) + 2)
  }

  function RunEntries(clauses: seq<Clause>, i: nat, arg: nat): (r: seq<Entry>)
    requires i <= |clauses|
    ensures |r| == i && forall j :: 0 <= j < i ==> r[j] == RunEntry(clauses, j, arg)
  {
    if i == 0 then [] else RunEntries(clauses, i - 1, arg) + [RunEntry(clauses, i - 1, arg)]
  }

  /** What the skeleton records of clause `i` of a run before the run is placed. */
  function RunInfo(clauses: seq<Clause>, i: nat, arg: nat, indexed: bool): ClauseIndexInfo
    requires i < |clauses|
  {
    ClauseIndexInfo(if indexed then Room(clauses, i) else 0,
                    if indexed && arg < |clauses[i].args| then IndexKeyOf(clauses[i].args[arg], arg + 1) else NoArg)
  }

  /** The code of a run, given the lines of its indexing block. */
  function RunCode(clauses: seq<Clause>, lines: seq<Line>, settings: Settings): seq<Instr>
    requires clauses != []
  {
    if |clauses| == 1 && (lines == [] || !settings.extensible) then clauses[0].body
    else (if lines == [] then [] else [IndexingCode(lines)]) + Chained(clauses, |clauses|, settings)
  }

  ghost predicate RunLines(clauses: seq<Clause>, lines: seq<Line>, arg: nat, settings: Settings)
  {
    var s := RunEntries(clauses, |clauses|, arg);
    if |clauses| == 1 && !settings.extensible then lines == []
    else
      && (lines == [] <==> forall key :: Scan(s, key) == [])
      && (lines != [] ==>
            && WellFormed(lines, settings.Dynamic()) && Represents(lines, s) && (forall kind :: Lean(lines, s, kind))
                && lines[0].arg == arg + 1
            && lines[0].v.o == if |clauses| == 1 && !settings.Dynamic() then 2 else 1)
  }

  /** One turn of the loop: a choice instruction, the clause's index entry, its code. */
  method ChainClause(clauses: seq<Clause>, i: nat, arg: nat, settings: Settings, offsets: CodeOffsets, code: seq<Instr>)
    returns (code': seq<Instr>, info: ClauseIndexInfo)
    requires i < |clauses| && (|clauses| > 1 || settings.extensible)
    requires code == Chained(clauses, i, settings) && offsets.Files(RunEntries(clauses, i, arg))
    requires offsets.optimalIndex == arg + 1
    modifies offsets
    ensures code' == Chained(clauses, i + 1, settings) && offsets.Files(RunEntries(clauses, i + 1, arg))
    ensures info == RunInfo(clauses, i, arg, true)
  {
    info := ClauseIndexInfo(|code|, NoArg);
    var body := clauses[i].body;
    var choice := if |clauses| == 1 then settings.InternalTryMeElse(0)
                  else if i == 0 then settings.InternalTryMeElse(|body| + 1)
                  else if i + 1 == |clauses| then settings.InternalTrustMe()
                  else settings.InternalRetryMeElse(|body| + 1);
    code' := code + [choice];
    if arg < |clauses[i].args| {
      var key := offsets.IndexTerm(clauses[i].args[arg], |code'|, RunEntries(clauses, i, arg));
      info := info.(key := key);
    } else {
      offsets.FileNowhere(|code'|, RunEntries(clauses, i, arg));
    }
    code' := code' + body;
  }

  /** The code is that of the run behind a block that represents its clauses. */
  ghost predicate IsRun(clauses: seq<Clause>, code: seq<Instr>, arg: nat, settings: Settings)
    requires clauses != []
  {
    exists lines :: RunLines(clauses, lines, arg, settings) && code == RunCode(clauses, lines, settings)
  }

  lemma {:induction false} ItIsRun(clauses: seq<Clause>, code: seq<Instr>, arg: nat, settings: Settings,
                                   lines: seq<Line>)
    requires clauses != [] && RunLines(clauses, lines, arg, settings) && code == RunCode(clauses, lines, settings)
    ensures IsRun(clauses, code, arg, settings)
  {
  }

  /** compile_pred_subseq: chain the clauses of a run and index them on argument `arg`. */
  method CompilePredSubseq(clauses: seq<Clause>, arg: nat, settings: Settings)
    returns (code: seq<Instr>, infos: seq<ClauseIndexInfo>, ghost lines: seq<Line>)
    requires clauses != []
    ensures IsRun(clauses, code, arg, settings)
    ensures RunLines(clauses, lines, arg, settings)
    ensures code == RunCode(clauses, lines, settings)
    ensures |infos| == |clauses|
    ensures forall i :: 0 <= i < |clauses| ==>
              infos[i] == RunInfo(clauses, i, arg, |clauses| > 1 || settings.extensible)
  {
    hide RunLines, RunCode, RunInfo;
    code, infos, lines := ChainAndIndex(clauses, arg, settings);
    ItIsRun(clauses, code, arg, settings, lines);
  }

  method ChainAndIndex(clauses: seq<Clause>, arg: nat, settings: Settings)
    returns (code: seq<Instr>, infos: seq<ClauseIndexInfo>, ghost lines: seq<Line>)
    requires clauses != []
    ensures RunLines(clauses, lines, arg, settings)
    ensures code == RunCode(clauses, lines, settings)
    ensures |infos| == |clauses|
    ensures forall i :: 0 <= i < |clauses| ==>
              infos[i] == RunInfo(clauses, i, arg, |clauses| > 1 || settings.extensible)
  {
    if |clauses| == 1 && !settings.extensible {
      return clauses[0].body, [ClauseIndexInfo(0, NoArg)], [];
    }
    var offsets := new CodeOffsets(arg + 1, settings.nonCountedBt, settings.Dynamic());
    code, infos := ChainRun(clauses, arg, settings, offsets);
    var skip := |clauses| == 1 && !settings.Dynamic();
    var index := ComputeIndices(offsets, skip, RunEntries(clauses, |clauses|, arg));
    lines := index;
    if index != [] {
      code := [IndexingCode(index)] + code;
    } else if |clauses| == 1 {
      assert Chained(clauses, 0, settings) == [];
      code := code[1..];
    }
  }

  /** The loop over the clauses of a run that is going to be indexed. */
  method ChainRun(clauses: seq<Clause>, arg: nat, settings: Settings, offsets: CodeOffsets)
    returns (code: seq<Instr>, infos: seq<ClauseIndexInfo>)
    requires |clauses| > 1 || (|clauses| == 1 && settings.extensible)
    requires offsets.Files([]) && offsets.optimalIndex == arg + 1
    modifies offsets
    ensures code == Chained(clauses, |clauses|, settings)
    ensures offsets.Files(RunEntries(clauses, |clauses|, arg))
    ensures |infos| == |clauses| && forall i :: 0 <= i < |clauses| ==> infos[i] == RunInfo(clauses, i, arg, true)
  {
    code, infos := [], [];
    for i := 0 to |clauses|
      invariant |infos| == i && forall j :: 0 <= j < i ==> infos[j] == RunInfo(clauses, j, arg, true)
      invariant code == Chained(clauses, i, settings)
      invariant offsets.Files(RunEntries(clauses, i, arg))
    {
      var info;
      code, info := ChainClause(clauses, i, arg, settings, offsets, code);
      infos := infos + [info];
    }
  }

  // ----- the layout of a predicate -----

  function Run(clauses: seq<Clause>, span: ClauseSpan): seq<Clause>
    requires span.left < span.right <= |clauses|
  {
    clauses[span.left..span.right]
  }

  predicate InRange(clauses: seq<Clause>, spans: seq<ClauseSpan>)
  {
    forall k :: 0 <= k < |spans| ==> spans[k].left < spans[k].right <= |clauses|
  }

  function OuterChoice(clauses: seq<Clause>, spans: seq<ClauseSpan>, k: nat, size: nat, settings: Settings): seq<Instr>
    requires k < |spans|
  {
    if |spans| > 1 then
      [if spans[k].left == 0 then settings.OuterTryMeElse(size + 1)
       else if spans[k].right == |clauses| then settings.OuterTrustMe()
       else settings.OuterRetryMeElse(size + 1)]
    else if settings.extensible then [settings.OuterTryMeElse(0)]
    else []
  }

  /** A run behind its outer choice instruction. */
  function Piece(clauses: seq<Clause>, spans: seq<ClauseSpan>, k: nat, lines: seq<Line>, settings: Settings): seq<Instr>
    requires k < |spans| && spans[k].left < spans[k].right <= |clauses|
  {
    var run := RunCode(Run(clauses, spans[k]), lines, settings);
    OuterChoice(clauses, spans, k, |run|, settings) + run
  }

  function Flatten<T>(pieces: seq<seq<T>>): seq<T>
  {
    if pieces == [] then [] else Flatten(pieces[..|pieces| - 1]) + pieces[|pieces| - 1]
  }

  /** Shift the locations a skeleton entry records, once its run is placed at `offset`. */
  function PlacedInfo(info: ClauseIndexInfo, offset: nat, indexed: bool): ClauseIndexInfo
  {
    ClauseIndexInfo(info.start + offset + (if indexed then 2 else 0),
                    match info.key
                    case NoArg => NoArg
                    case LiteralArg(a, loc, lit, alt) => LiteralArg(a, loc + offset + 1, lit, alt)
                    case ListArg(a, loc) => ListArg(a, loc + offset + 1)
                    case StructureArg(a, loc, name, arity) => StructureArg(a, loc + offset + 1, name, arity))
  }

  /** The skeleton entry of clause `i` of a run that is placed at `offset`. */
  function PlacedRunInfo(run: seq<Clause>, i: nat, arg: nat, settings: Settings, offset: nat,
                         indexed: bool): ClauseIndexInfo
    requires i < |run|
  {
    var info := RunInfo(run, i, arg, |run| > 1 || settings.extensible);
    if settings.extensible then PlacedInfo(info, offset, indexed) else info
  }

  function RunInfos(run: seq<Clause>, arg: nat, settings: Settings, offset: nat,
                    indexed: bool): (r: seq<ClauseIndexInfo>)
    ensures |r| == |run|
    ensures forall i :: 0 <= i < |run| ==> r[i] == PlacedRunInfo(run, i, arg, settings, offset, indexed)
  {
    seq(|run|, i requires 0 <= i < |run| => PlacedRunInfo(run, i, arg, settings, offset, indexed))
  }

  /** How a predicate was compiled: run by run, the indexing block, the code, the skeleton entries. */
  datatype Placed = Placed(lines: seq<Line>, code: seq<Instr>, infos: seq<ClauseIndexInfo>)

  function Codes(placed: seq<Placed>): (r: seq<seq<Instr>>)
    ensures |r| == |placed| && forall k :: 0 <= k < |r| ==> r[k] == placed[k].code
  {
    seq(|placed|, k requires 0 <= k < |placed| => placed[k].code)
  }

  function Infos(placed: seq<Placed>): (r: seq<seq<ClauseIndexInfo>>)
    ensures |r| == |placed| && forall k :: 0 <= k < |r| ==> r[k] == placed[k].infos
  {
    seq(|placed|, k requires 0 <= k < |placed| => placed[k].infos)
  }

  /** Run `k` was laid out as it should, behind the earlier ones. */
  ghost predicate RunPlaced(clauses: seq<Clause>, spans: seq<ClauseSpan>, placed: seq<Placed>, settings: Settings,
                            k: nat)
    requires k < |placed| && k < |spans| && spans[k].left < spans[k].right <= |clauses|
  {
    && placed[k].code == Piece(clauses, spans, k, placed[k].lines, settings)
    && placed[k].infos == RunInfos(Run(clauses, spans[k]), spans[k].arg, settings, |Flatten(Codes(placed)[..k])|,
                                   placed[k].lines != [])
  }

  /** Run `k` was indexed as it should. */
  ghost predicate RunIndexed(clauses: seq<Clause>, spans: seq<ClauseSpan>, placed: seq<Placed>, settings: Settings,
                             k: nat)
    requires k < |placed| && k < |spans| && spans[k].left < spans[k].right <= |clauses|
  {
    RunLines(Run(clauses, spans[k]), placed[k].lines, spans[k].arg, settings)
  }

  ghost predicate Compiled(clauses: seq<Clause>, spans: seq<ClauseSpan>, placed: seq<Placed>, settings: Settings)
  {
    GoodSpans(clauses, spans, |clauses|) && |placed| == |spans| && AllPlaced(clauses, spans, placed, settings)
  }

  /** Clause code is never empty and does not start with a choice or indexing instruction. */
  predicate PlainBodies(clauses: seq<Clause>)
  {
    forall i :: 0 <= i < |clauses| ==> clauses[i].body != [] && clauses[i].body[0].Body?
  }

  lemma {:induction false} FirstInstr(run: seq<Clause>, lines: seq<Line>, settings: Settings)
    requires run != [] && PlainBodies(run) && settings.extensible
    ensures RunCode(run, lines, settings) != []
    ensures RunCode(run, lines, settings)[0].IndexingCode? <==> lines != []
  {
    if lines == [] && |run| > 1 {
      ChainedAt(run, 0, |run|, settings);
    }
  }

  /** Where the choice instruction and the code of clause `i` stand in a chain. */
  lemma {:induction false} ChainedAt(run: seq<Clause>, i: nat, n: nat, settings: Settings)
    requires i < n <= |run|
    ensures Room(run, i) + 1 + |run[i].body| == Room(run, i + 1) <= Room(run, n)
    ensures var c := Chained(run, n, settings);
            && c[Room(run, i)] == InnerChoice(run, i, settings)
            && c[Room(run, i) + 1..Room(run, i + 1)] == run[i].body
  {
    var c := Chained(run, n, settings);
    if i + 1 < n {
      ChainedAt(run, i, n - 1, settings);
      assert c[..Room(run, n - 1)] == Chained(run, n - 1, settings);
      assert c[Room(run, i) + 1..Room(run, i + 1)] == Chained(run, n - 1, settings)[Room(run, i) + 1..Room(run, i + 1)];
    }
  }

  /** Placing one more run leaves the earlier ones where they are. */
  lemma {:induction false} PlaceNext(placed: seq<Placed>, next: Placed)
    ensures Codes(placed + [next])[..|placed|] == Codes(placed)
    ensures Flatten(Codes(placed + [next])) == Flatten(Codes(placed)) + next.code
    ensures Flatten(Infos(placed + [next])) == Flatten(Infos(placed)) + next.infos
    ensures forall k :: 0 <= k < |placed| ==> Codes(placed + [next])[..k] == Codes(placed)[..k]
  {
    assert Codes(placed + [next])[..|placed|] == Codes(placed);
    assert Infos(placed + [next])[..|placed|] == Infos(placed);
  }

  /** One more run, compiled to stand at position `offset`. */
  method CompileRun(clauses: seq<Clause>, spans: seq<ClauseSpan>, k: nat, settings: Settings, offset: nat)
    returns (choice: seq<Instr>, segment: seq<Instr>, infos: seq<ClauseIndexInfo>, ghost lines: seq<Line>)
    requires k < |spans| && spans[k].left < spans[k].right <= |clauses| && PlainBodies(clauses)
    ensures RunLines(Run(clauses, spans[k]), lines, spans[k].arg, settings)
    ensures choice + segment == Piece(clauses, spans, k, lines, settings)
    ensures infos == RunInfos(Run(clauses, spans[k]), spans[k].arg, settings, offset, lines != [])
  {
    var span := spans[k];
    segment, infos, lines := CompilePredSubseq(clauses[span.left..span.right], span.arg, settings);
    infos := PlaceInfos(infos, offset, segment, settings, Run(clauses, span), span.arg, lines);
    if |spans| > 1 {
      choice := [if span.left == 0 then settings.OuterTryMeElse(|segment| + 1)
                 else if span.right == |clauses| then settings.OuterTrustMe()
                 else settings.OuterRetryMeElse(|segment| + 1)];
    } else if settings.extensible {
      choice := [settings.OuterTryMeElse(0)];
    } else {
      choice := [];
    }
  }

  /** Every run placed so far is laid out and indexed as it should. */
  ghost predicate AllPlaced(clauses: seq<Clause>, spans: seq<ClauseSpan>, placed: seq<Placed>, settings: Settings)
  {
    && |placed| <= |spans| && InRange(clauses, spans)
    && (forall k :: 0 <= k < |placed| ==> RunPlaced(clauses, spans, placed, settings, k))
    && (forall k :: 0 <= k < |placed| ==> RunIndexed(clauses, spans, placed, settings, k))
  }

  lemma {:induction false} PlacedNext(clauses: seq<Clause>, spans: seq<ClauseSpan>, placed: seq<Placed>, next: Placed,
                                      settings: Settings)
    requires AllPlaced(clauses, spans, placed, settings) && |placed| < |spans|
    requires var k := |placed|;
             && RunLines(Run(clauses, spans[k]), next.lines, spans[k].arg, settings)
             && next.code == Piece(clauses, spans, k, next.lines, settings)
             && next.infos == RunInfos(Run(clauses, spans[k]), spans[k].arg, settings, |Flatten(Codes(placed))|,
                 next.lines != [])
    ensures AllPlaced(clauses, spans, placed + [next], settings)
  {
    hide RunLines, Piece, RunInfos;
    PlaceNext(placed, next);
    var placed' := placed + [next];
    forall j | 0 <= j < |placed'|
      ensures RunPlaced(clauses, spans, placed', settings, j)
      ensures RunIndexed(clauses, spans, placed', settings, j)
    {
      if j < |placed| {
        assert RunPlaced(clauses, spans, placed, settings, j) && RunIndexed(clauses, spans, placed, settings, j);
      }
    }
  }

  /** Code and skeleton are laid out run by run, as they should. */
  ghost predicate IsPredicate(clauses: seq<Clause>, settings: Settings, code: seq<Instr>,
                              skeleton: seq<ClauseIndexInfo>)
  {
    exists spans, placed :: Compiled(clauses, spans, placed, settings) && code == Flatten(Codes(placed))
        && skeleton == Flatten(Infos(placed))
  }

  /** compile_predicate: chain the runs, and record where every clause went. */
  method CompilePredicate(clauses: seq<Clause>, settings: Settings)
    returns (code: seq<Instr>, skeleton: seq<ClauseIndexInfo>, ghost spans: seq<ClauseSpan>, ghost placed: seq<Placed>)
    requires PlainBodies(clauses)
    ensures IsPredicate(clauses, settings, code, skeleton)
    ensures Compiled(clauses, spans, placed, settings)
    ensures code == Flatten(Codes(placed)) && skeleton == Flatten(Infos(placed))
  {
    hide RunLines, Piece, RunInfos, RunPlaced, RunIndexed, Flatten;
    code, skeleton, placed := [], [], [];
    var split := SplitPredicate(clauses);
    spans := split;
    NothingPlaced();
    for k := 0 to |split|
      invariant |placed| == k && AllPlaced(clauses, split, placed, settings)
      invariant code == Flatten(Codes(placed)) && skeleton == Flatten(Infos(placed))
    {
      var choice, segment, infos;
      ghost var lines;
      choice, segment, infos, lines := CompileRun(clauses, split, k, settings, |code|);
      ghost var next := Placed(lines, choice + segment, infos);
      PlaceNext(placed, next);
      PlacedNext(clauses, split, placed, next, settings);
      skeleton := skeleton + infos;
      code := code + (choice + segment);
      placed := placed + [next];
    }
    ItIsPredicate(clauses, settings, code, skeleton, spans, placed);
  }

  lemma {:induction false} ItIsPredicate(clauses: seq<Clause>, settings: Settings, code: seq<Instr>,
                                         skeleton: seq<ClauseIndexInfo>, spans: seq<ClauseSpan>, placed: seq<Placed>)
    requires Compiled(clauses, spans, placed, settings) && code == Flatten(Codes(placed))
            && skeleton == Flatten(Infos(placed))
    ensures IsPredicate(clauses, settings, code, skeleton)
  {
    hide Compiled, Flatten;
  }

  lemma {:induction false} NothingPlaced()
    ensures Flatten(Codes([])) == [] && Flatten(Infos([])) == []
  {
  }

  /** In an extensible predicate, the entries of a run are shifted to where the run is placed. */
  method PlaceInfos(infos: seq<ClauseIndexInfo>, offset: nat, segment: seq<Instr>, settings: Settings,
                    ghost run: seq<Clause>, ghost arg: nat, ghost lines: seq<Line>)
    returns (placed: seq<ClauseIndexInfo>)
    requires run != [] && PlainBodies(run) && segment == RunCode(run, lines, settings)
    requires |infos| == |run|
    requires forall i :: 0 <= i < |run| ==> infos[i] == RunInfo(run, i, arg, |run| > 1 || settings.extensible)
    ensures placed == RunInfos(run, arg, settings, offset, lines != [])
  {
    placed := infos;
    if settings.extensible {
      FirstInstr(run, lines, settings);
      var indexed := segment[0].IndexingCode?;
      for i := 0 to |infos|
        invariant |placed| == |infos|
        invariant forall j :: 0 <= j < i ==> placed[j] == PlacedInfo(infos[j], offset, lines != [])
        invariant forall j :: i <= j < |infos| ==> placed[j] == infos[j]
      {
        placed := placed[i := PlacedInfo(placed[i], offset, indexed)];
      }
    }
  }
}
