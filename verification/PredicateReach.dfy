/**
 What running a compiled predicate reaches, and what its skeleton says about it.
 */
module PredicateReach {
  import opened IndexingLines
  import opened Options
  import opened IndexingCompile
  import opened IndexingDispatch
  import opened PredicateCode
  import opened Slices

  // ----- where runs stand -----

  lemma {:induction false} TilesNext(spans: seq<ClauseSpan>, from: nat, to: nat, k: nat)
    requires Tiles(spans, from, to) && k <= |spans|
    ensures k < |spans| ==> spans[k].left == if k == 0 then from else spans[k - 1].right
    ensures k == |spans| ==> to == if k == 0 then from else spans[k - 1].right
  {
    if k > 0 {
      TilesNext(spans[1..], spans[0].right, to, k - 1);
    }
  }

  lemma {:induction false} FlattenPrefix<T>(pieces: seq<seq<T>>, k: nat)
    requires k <= |pieces|
    ensures Flatten(pieces[..k]) <= Flatten(pieces)
  {
    if k < |pieces| {
      FlattenPrefix(pieces[..|pieces| - 1], k);
      assert pieces[..|pieces| - 1][..k] == pieces[..k];
    } else {
      assert pieces[..k] == pieces;
    }
  }

  /** Piece `k` stands where the earlier pieces end. */
  lemma {:induction false} FlattenAt<T>(pieces: seq<seq<T>>, k: nat)
    requires k < |pieces|
    ensures var at := |Flatten(pieces[..k])|;
            && at + |pieces[k]| <= |Flatten(pieces)|
            && Flatten(pieces)[at..at + |pieces[k]|] == pieces[k]
            && |Flatten(pieces[..k + 1])| == at + |pieces[k]|
  {
    FlattenPrefix(pieces, k + 1);
    assert pieces[..k + 1][..k] == pieces[..k];
    assert Flatten(pieces[..k + 1]) == Flatten(pieces[..k]) + pieces[k];
  }

  lemma {:induction false} FlattenNone<T>(pieces: seq<seq<T>>)
    requires pieces == []
    ensures Flatten(pieces) == []
  {
  }

  /** The skeleton holds one entry for each clause, in source order. */
  lemma {:induction false} SkeletonSize(clauses: seq<Clause>, spans: seq<ClauseSpan>, placed: seq<Placed>,
                                        settings: Settings, k: nat)
    requires Compiled(clauses, spans, placed, settings) && k <= |spans|
    ensures |Flatten(Infos(placed)[..k])| == if k == 0 then 0 else spans[k - 1].right
  {
    hide Flatten, Piece, Uniform, RunIndexed, RunInfos;
    if k == 0 {
      FlattenNone(Infos(placed)[..k]);
    } else {
      SkeletonSize(clauses, spans, placed, settings, k - 1);
      TilesNext(spans, 0, |clauses|, k - 1);
      FlattenAt(Infos(placed), k - 1);
      assert RunPlaced(clauses, spans, placed, settings, k - 1);
    }
  }

  // ----- positions inside a run -----

  /** A run is laid out as a bare clause, or behind its indexing block. */
  predicate Bare(run: seq<Clause>, lines: seq<Line>, settings: Settings)
  {
    |run| == 1 && (lines == [] || !settings.extensible)
  }

  function BodyPos(run: seq<Clause>, lines: seq<Line>, settings: Settings, i: nat): nat
    requires i < |run|
  {
    if Bare(run, lines, settings) then 0 else Room(run, i) + 2
  }

  /** At `p` stands a choice instruction, and the clause right behind it. */
  predicate Behind(code: seq<Instr>, p: nat, body: seq<Instr>)
  {
    p + 1 + |body| <= |code| && IsChoice(code[p]) && code[p + 1..p + 1 + |body|] == body
  }

  lemma {:induction false} BehindWithin(whole: seq<Instr>, part: seq<Instr>, at: nat, p: nat, body: seq<Instr>)
    requires StandsAt(whole, part, at) && Behind(part, p, body)
    ensures Behind(whole, at + p, body)
  {
    Within(whole, part, at, p, 1);
    Within(whole, part, at, p + 1, |body|);
  }

  /** In a run with an indexing block, every clause stands right behind its choice instruction. */
  lemma {:induction false} RunAt(run: seq<Clause>, lines: seq<Line>, settings: Settings, i: nat)
    requires i < |run| && lines != [] && !Bare(run, lines, settings)
    ensures var code := RunCode(run, lines, settings);
            code != [] && code[0] == IndexingCode(lines) && Behind(code, Room(run, i) + 1, run[i].body)
  {
    ChainedAt(run, i, |run|, settings);
    var code, chain := RunCode(run, lines, settings), Chained(run, |run|, settings);
    assert StandsAt(code, [IndexingCode(lines)] + chain, 0);
    Joined(code, [IndexingCode(lines)], chain, 0);
    assert Behind(chain, Room(run, i), run[i].body);
    BehindWithin(code, chain, 1, Room(run, i), run[i].body);
  }

  /** A uniform run of several clauses is always indexed. */
  lemma {:induction false} UniformIndexed(clauses: seq<Clause>, span: ClauseSpan, lines: seq<Line>, settings: Settings)
    requires span.left < span.right <= |clauses| && Uniform(clauses, span)
    requires RunLines(Run(clauses, span), lines, span.arg, settings)
    ensures lines == [] <==> Bare(Run(clauses, span), lines, settings)
  {
    var run := Run(clauses, span);
    if |run| > 1 {
      var e := RunEntry(run, 0, span.arg);
      assert run[0] == clauses[span.left];
      assert FirstInstantiated(clauses[span.left].args) == span.arg;
      var key := MainKey(IndexKeyOf(run[0].args[span.arg], 1));
      assert key in e.keys;
      ScanBounded(RunEntries(run, |run|, span.arg), key);
      assert RunEntries(run, |run|, span.arg)[0] == e;
      assert e.offset in Scan(RunEntries(run, |run|, span.arg), key);
    }
  }

  /** A run is a bare clause, or all its clauses have the indexed argument. */
  predicate RunForm(run: seq<Clause>, arg: nat, lines: seq<Line>, settings: Settings)
  {
    && (lines == [] <==> Bare(run, lines, settings))
    && (lines != [] ==> forall i :: 0 <= i < |run| ==> arg < |run[i].args| && Instantiated(run[i].args[arg]))
  }

  lemma {:induction false} RunForms(clauses: seq<Clause>, spans: seq<ClauseSpan>, placed: seq<Placed>,
                                    settings: Settings, k: nat)
    requires Compiled(clauses, spans, placed, settings) && k < |spans|
    ensures RunForm(Run(clauses, spans[k]), spans[k].arg, placed[k].lines, settings)
  {
    assert RunIndexed(clauses, spans, placed, settings, k);
    UniformIndexed(clauses, spans[k], placed[k].lines, settings);
    if placed[k].lines != [] {
      forall i | 0 <= i < spans[k].right - spans[k].left
        ensures var c := Run(clauses, spans[k])[i]; spans[k].arg < |c.args| && Instantiated(c.args[spans[k].arg])
      {
        IndexedArg(clauses, spans[k], placed[k].lines, settings, i);
      }
    }
  }

  /** A skeleton entry records the position of a choice instruction that is followed by its clause's code,
      its key records the position of the run's indexing block, and that position plus the clause's offset
      in the block is the position of the clause's code. */
  predicate Located(code: seq<Instr>, info: ClauseIndexInfo, run: seq<Clause>, i: nat, arg: nat, lines: seq<Line>)
    requires i < |run|
  {
    && Behind(code, info.start, run[i].body)
    && (lines != [] ==>
          && !info.key.NoArg?
          && info.key.loc < |code| && code[info.key.loc] == IndexingCode(lines)
          && info.key.loc + RunEntry(run, i, arg).offset == info.start + 1)
  }

  /** For every extensible predicate, the skeleton locates every clause. */
  lemma {:induction false} SkeletonLocates(clauses: seq<Clause>, spans: seq<ClauseSpan>, placed: seq<Placed>,
                                           settings: Settings, k: nat, i: nat)
    requires Compiled(clauses, spans, placed, settings) && settings.extensible
    requires k < |spans| && i < spans[k].right - spans[k].left
    ensures |Flatten(Infos(placed))| == |clauses|
    ensures Located(Flatten(Codes(placed)), Flatten(Infos(placed))[spans[k].left + i], Run(clauses, spans[k]), i,
                    spans[k].arg, placed[k].lines)
  {
    hide Flatten, GoodSpans, Piece, RunForm, Located, Behind, RunIndexed;
    InfoAt(clauses, spans, placed, settings, k, i);
    RunForms(clauses, spans, placed, settings, k);
    assert RunPlaced(clauses, spans, placed, settings, k);
    FlattenAt(Codes(placed), k);
    PieceLocates(clauses, spans, k, placed[k].lines, settings, i);
    LocatedAt(Flatten(Codes(placed)), placed[k].code, |Flatten(Codes(placed)[..k])|, Run(clauses, spans[k]),
        spans[k].arg,
              placed[k].lines, settings, i);
  }

  lemma {:induction false} LocatedAt(code: seq<Instr>, piece: seq<Instr>, at: nat, run: seq<Clause>, arg: nat,
                                     lines: seq<Line>,
                  settings: Settings, i: nat)
    requires i < |run| && settings.extensible && StandsAt(code, piece, at)
    requires Behind(piece, Room(run, i) + (if lines != [] then 2 else 0), run[i].body)
    requires RunForm(run, arg, lines, settings) && (lines != [] ==> piece[1] == IndexingCode(lines))
    ensures Located(code, RunInfos(run, arg, settings, at, lines != [])[i], run, i, arg, lines)
  {
    PlacedInfoValue(run, arg, settings, at, lines != [], i);
    BehindWithin(code, piece, at, Room(run, i) + if lines != [] then 2 else 0, run[i].body);
    if lines != [] {
      Within(code, piece, at, 1, 1);
    }
  }

  lemma {:induction false} PlacedInfoValue(run: seq<Clause>, arg: nat, settings: Settings, at: nat, indexed: bool,
                                           i: nat)
    requires i < |run| && settings.extensible
    requires indexed ==> arg < |run[i].args| && Instantiated(run[i].args[arg])
    ensures var info := RunInfos(run, arg, settings, at, indexed)[i];
            && info.start == at + Room(run, i) + (if indexed then 2 else 0)
            && (indexed ==> !info.key.NoArg? && info.key.loc == at + 1 &&
                            info.key.loc + RunEntry(run, i, arg).offset == info.start + 1)
  {
  }

  lemma {:induction false} BareCode(run: seq<Clause>, lines: seq<Line>, settings: Settings)
    requires Bare(run, lines, settings)
    ensures RunCode(run, lines, settings) == run[0].body && Room(run, 0) == 0
  {
  }

  /** The same inside the code of one run. */
  lemma {:induction false} PieceLocates(clauses: seq<Clause>, spans: seq<ClauseSpan>, k: nat, lines: seq<Line>,
                                        settings: Settings, i: nat)
    requires k < |spans| && spans[k].left < spans[k].right <= |clauses| && i < spans[k].right - spans[k].left
    requires settings.extensible && RunForm(Run(clauses, spans[k]), spans[k].arg, lines, settings)
    ensures var piece, run := Piece(clauses, spans, k, lines, settings), Run(clauses, spans[k]);
            && Behind(piece, Room(run, i) + (if lines != [] then 2 else 0), run[i].body)
            && (lines != [] ==> piece[1] == IndexingCode(lines))
  {
    hide Room, RunCode;
    var run := Run(clauses, spans[k]);
    var segment, piece := RunCode(run, lines, settings), Piece(clauses, spans, k, lines, settings);
    var choice := OuterChoice(clauses, spans, k, |segment|, settings);
    assert piece == choice + segment && StandsAt(piece, choice + segment, 0);
    Joined(piece, choice, segment, 0);
    if lines == [] {
      BareCode(run, lines, settings);
    } else {
      RunAt(run, lines, settings, i);
      BehindWithin(piece, segment, 1, Room(run, i) + 1, run[i].body);
    }
  }

  lemma {:induction false} InfoAt(clauses: seq<Clause>, spans: seq<ClauseSpan>, placed: seq<Placed>,
                                  settings: Settings, k: nat, i: nat)
    requires Compiled(clauses, spans, placed, settings)
    requires k < |spans| && i < spans[k].right - spans[k].left
    ensures var skeleton := Flatten(Infos(placed));
            && |skeleton| == |clauses| && spans[k].left + i < |skeleton| && i < |placed[k].infos|
            && skeleton[spans[k].left + i] == placed[k].infos[i]
  {
    hide Flatten, Piece, Uniform, RunIndexed;
    assert RunPlaced(clauses, spans, placed, settings, k);
    SkeletonSize(clauses, spans, placed, settings, |spans|);
    SkeletonSize(clauses, spans, placed, settings, k);
    assert Infos(placed)[..|spans|] == Infos(placed);
    TilesNext(spans, 0, |clauses|, |spans|);
    TilesNext(spans, 0, |clauses|, k);
    FlattenAt(Infos(placed), k);
    Within(Flatten(Infos(placed)), placed[k].infos, spans[k].left, i, 1);
  }

  /** In an indexed run, every clause has an indexed argument. */
  lemma {:induction false} IndexedArg(clauses: seq<Clause>, span: ClauseSpan, lines: seq<Line>, settings: Settings,
                                      i: nat)
    requires span.left < span.right <= |clauses| && Uniform(clauses, span) && i < span.right - span.left
    requires RunLines(Run(clauses, span), lines, span.arg, settings) && lines != []
    ensures var c := clauses[span.left + i]; span.arg < |c.args| && Instantiated(c.args[span.arg])
  {
    var run := Run(clauses, span);
    var c := clauses[span.left + i];
    if FirstInstantiated(c.args) == |c.args| {
      var s := RunEntries(run, |run|, span.arg);
      assert s == [RunEntry(run, 0, span.arg)];
      assert run[0] == c;
      forall key ensures Scan(s, key) == [] {
        assert s[0].keys == {};
        assert s[1..] == [];
      }
    }
  }
}
