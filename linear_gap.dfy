/** The aligner with a constant gap value delta: every insertion and every
    deletion adds delta, every match column adds the substitution score of
    its two symbols, and the engine maximises the total. */
module LinearGap {
  import opened Alignment

  /** The three candidates of a cell: each predecessor's score plus what its
      last column adds, settled by the shared table rule. */
  function Combine(delta: real, sub: real, del: Scored, ins: Scored, mat: Scored): (r: Scored)
    ensures |r.actions| > 0
    ensures
      var d, i, m := del.score + delta, ins.score + delta, mat.score + sub;
      var last := r.actions[|r.actions| - 1];
      && d <= r.score && i <= r.score && m <= r.score
      && (last == Match <==> m >= i && m >= d)
      && (last == Insertion <==> i > m && i >= d)
      && (last == Deletion <==> d > m && d > i)
      && (last == Match ==> r == Scored(m, mat.actions + [Match]))
      && (last == Insertion ==> r == Scored(i, ins.actions + [Insertion]))
      && (last == Deletion ==> r == Scored(d, del.actions + [Deletion]))
  {
    Settle(
      Candidate(Deletion, del.score + delta, del.actions),
      Candidate(Insertion, ins.score + delta, ins.actions),
      Candidate(Match, mat.score + sub, mat.actions))
  }

  /** The best score for aligning s1 with s2 and the trace reaching it: a
      run of gap actions when either sequence is empty, the best of the three
      predecessors otherwise. */
  function ScoreAndActions(sigma: Matrix, delta: real, s1: string, s2: string): (r: Result<Scored>)
    ensures r.Ok? ==> Consumed1(r.value.actions) == |s1| && Consumed2(r.value.actions) == |s2|
    ensures Known(s1) && Known(s2) ==> r.Ok?
    ensures r.Err? ==> r.error == UnknownSymbol
    decreases |s1| + |s2|, 1
  {
    if |s1| == 0 || |s2| == 0 then
      if |s1| != 0 then Ok(Scored(Scale(delta, |s1|), Repeat(Deletion, |s1|)))
      else if |s2| != 0 then Ok(Scored(Scale(delta, |s2|), Repeat(Insertion, |s2|)))
      else Ok(Scored(0.0, []))
    else
      FromPredecessors(sigma, delta, s1, s2)
  }

  /** Both sequences non-empty: solve the three shorter problems (first
      without the last symbol of s1, then without the last of s2, then
      without both), look up the substitution score of the two last symbols
      and keep the best. */
  function FromPredecessors(sigma: Matrix, delta: real, s1: string, s2: string): (r: Result<Scored>)
    requires |s1| > 0 && |s2| > 0
    ensures r.Ok? ==> Consumed1(r.value.actions) == |s1| && Consumed2(r.value.actions) == |s2|
    ensures Known(s1) && Known(s2) ==> r.Ok?
    ensures r.Err? ==> r.error == UnknownSymbol
    decreases |s1| + |s2|, 0
  {
    var del :- ScoreAndActions(sigma, delta, DropLast(s1), s2);
    var ins :- ScoreAndActions(sigma, delta, s1, DropLast(s2));
    var mat :- ScoreAndActions(sigma, delta, DropLast(s1), DropLast(s2));
    var sub :- ComputeSigma(sigma, s1[|s1| - 1], s2[|s2| - 1]);
    CombineConsumes(delta, sub, del, ins, mat, |s1|, |s2|);
    Ok(Combine(delta, sub, del, ins, mat))
  }

  /** When each predecessor's trace consumes what its shorter problem
      holds, the combination consumes both sequences. */
  lemma CombineConsumes(delta: real, sub: real, del: Scored, ins: Scored, mat: Scored, n1: nat, n2: nat)
    requires Consumed1(del.actions) + 1 == n1 && Consumed2(del.actions) == n2
    requires Consumed1(ins.actions) == n1 && Consumed2(ins.actions) + 1 == n2
    requires Consumed1(mat.actions) + 1 == n1 && Consumed2(mat.actions) + 1 == n2
    ensures Consumed1(Combine(delta, sub, del, ins, mat).actions) == n1
    ensures Consumed2(Combine(delta, sub, del, ins, mat).actions) == n2
  {
    ConsumedAppend(del.actions, Deletion);
    ConsumedAppend(ins.actions, Insertion);
    ConsumedAppend(mat.actions, Match);
  }

  /** Two empty sequences: score 0 and no actions. */
  lemma BothEmpty(sigma: Matrix, delta: real)
    ensures ScoreAndActions(sigma, delta, [], []) == Ok(Scored(0.0, []))
  {
  }

  /** A lone first sequence of n symbols: n deletions worth delta each. */
  lemma OnlyFirst(sigma: Matrix, delta: real, s: string)
    requires |s| > 0
    ensures ScoreAndActions(sigma, delta, s, []).Ok?
    ensures ScoreAndActions(sigma, delta, s, []).value.score == delta * |s| as real
    ensures ScoreAndActions(sigma, delta, s, []).value.actions == Repeat(Deletion, |s|)
  {
    LoneRun(sigma, delta, s, []);
    ScaleIsProduct(delta, |s|);
  }

  /** A lone second sequence of n symbols: n insertions worth delta each. */
  lemma OnlySecond(sigma: Matrix, delta: real, s: string)
    requires |s| > 0
    ensures ScoreAndActions(sigma, delta, [], s).Ok?
    ensures ScoreAndActions(sigma, delta, [], s).value.score == delta * |s| as real
    ensures ScoreAndActions(sigma, delta, [], s).value.actions == Repeat(Insertion, |s|)
  {
    LoneRun(sigma, delta, [], s);
    ScaleIsProduct(delta, |s|);
  }

  /** With one sequence empty the engine returns the gap run over the
      other, worth delta added up once per symbol. */
  lemma LoneRun(sigma: Matrix, delta: real, s1: string, s2: string)
    requires |s1| == 0 || |s2| == 0
    ensures |s1| > 0 ==> ScoreAndActions(sigma, delta, s1, s2) == Ok(Scored(Scale(delta, |s1|), Repeat(Deletion, |s1|)))
    ensures |s2| > 0 ==> ScoreAndActions(sigma, delta, s1, s2) == Ok(Scored(Scale(delta, |s2|), Repeat(Insertion, |s2|)))
  {
  }

  /** The recurrence: with both sequences non-empty and the engine
      succeeding, the three shorter problems succeed, the two last symbols
      are in the alphabet, and the result is their combination. */
  lemma Predecessors(sigma: Matrix, delta: real, s1: string, s2: string, r: Scored) returns (del: Scored, ins: Scored, mat: Scored)
    requires |s1| > 0 && |s2| > 0
    requires ScoreAndActions(sigma, delta, s1, s2) == Ok(r)
    ensures ScoreAndActions(sigma, delta, DropLast(s1), s2) == Ok(del)
    ensures ScoreAndActions(sigma, delta, s1, DropLast(s2)) == Ok(ins)
    ensures ScoreAndActions(sigma, delta, DropLast(s1), DropLast(s2)) == Ok(mat)
    ensures s1[|s1| - 1] in Alphabet && s2[|s2| - 1] in Alphabet
    ensures r == Combine(delta, Sigma(sigma, s1[|s1| - 1], s2[|s2| - 1]), del, ins, mat)
  {
    assert ScoreAndActions(sigma, delta, s1, s2) == FromPredecessors(sigma, delta, s1, s2);
    del := ScoreAndActions(sigma, delta, DropLast(s1), s2).value;
    ins := ScoreAndActions(sigma, delta, s1, DropLast(s2)).value;
    mat := ScoreAndActions(sigma, delta, DropLast(s1), DropLast(s2)).value;
    SigmaOk(sigma, s1[|s1| - 1], s2[|s2| - 1]);
  }

  /** With both sequences non-empty the score is the best of the three
      predecessor values, and ties go to the match, then to the insertion:
      the last action is a deletion only when the deletion is strictly
      best. */
  lemma TieBreak(sigma: Matrix, delta: real, s1: string, s2: string, r: Scored, del: Scored, ins: Scored, mat: Scored)
    requires |s1| > 0 && |s2| > 0
    requires ScoreAndActions(sigma, delta, s1, s2) == Ok(r)
    requires ScoreAndActions(sigma, delta, DropLast(s1), s2) == Ok(del)
    requires ScoreAndActions(sigma, delta, s1, DropLast(s2)) == Ok(ins)
    requires ScoreAndActions(sigma, delta, DropLast(s1), DropLast(s2)) == Ok(mat)
    ensures
      var d, i := del.score + delta, ins.score + delta;
      var m := mat.score + Sigma(sigma, s1[|s1| - 1], s2[|s2| - 1]);
      var last := r.actions[|r.actions| - 1];
      && d <= r.score && i <= r.score && m <= r.score
      && (r.score == d || r.score == i || r.score == m)
      && (last == Match <==> m >= i && m >= d)
      && (last == Insertion <==> i > m && i >= d)
      && (last == Deletion <==> d > m && d > i)
  {
    var del', ins', mat' := Predecessors(sigma, delta, s1, s2, r);
  }

  /** The score is the linear-gap score of the trace: delta per gap action
      plus the substitution score of every match column. */
  lemma {:induction false} ScoreIsTraceScore(sigma: Matrix, delta: real, s1: string, s2: string, r: Scored)
    requires ScoreAndActions(sigma, delta, s1, s2) == Ok(r)
    ensures r.score == StepScore(sigma, delta, delta, s1, s2, r.actions)
    decreases |s1| + |s2|, 1
  {
    if |s1| == 0 || |s2| == 0 {
      LoneTraceWorth(sigma, delta, s1, s2, r);
    } else {
      var a, p := Extends(sigma, delta, s1, s2, r);
      match a
      case Match => TraceWorthMatch(sigma, delta, s1, s2, r, p);
      case Insertion => TraceWorthInsertion(sigma, delta, s1, s2, r, p);
      case Deletion => TraceWorthDeletion(sigma, delta, s1, s2, r, p);
    }
  }

  /** With both sequences non-empty the result extends the trace of the
      predecessor its last action comes from by that action, and its score
      by what the action adds. */
  lemma Extends(sigma: Matrix, delta: real, s1: string, s2: string, r: Scored) returns (a: Action, p: Scored)
    requires |s1| > 0 && |s2| > 0
    requires ScoreAndActions(sigma, delta, s1, s2) == Ok(r)
    ensures a == Match ==>
      && ScoreAndActions(sigma, delta, DropLast(s1), DropLast(s2)) == Ok(p)
      && r == Scored(p.score + Sigma(sigma, s1[|s1| - 1], s2[|s2| - 1]), p.actions + [Match])
    ensures a == Insertion ==>
      && ScoreAndActions(sigma, delta, s1, DropLast(s2)) == Ok(p)
      && r == Scored(p.score + delta, p.actions + [Insertion])
    ensures a == Deletion ==>
      && ScoreAndActions(sigma, delta, DropLast(s1), s2) == Ok(p)
      && r == Scored(p.score + delta, p.actions + [Deletion])
  {
    var del, ins, mat := Predecessors(sigma, delta, s1, s2, r);
    a, p := CombineLast(delta, Sigma(sigma, s1[|s1| - 1], s2[|s2| - 1]), del, ins, mat);
  }

  /** The last action of a combination names the predecessor whose trace it
      extends and what the action adds to that predecessor's score. */
  lemma CombineLast(delta: real, sub: real, del: Scored, ins: Scored, mat: Scored) returns (a: Action, p: Scored)
    ensures
      var r := Combine(delta, sub, del, ins, mat);
      && a == r.actions[|r.actions| - 1]
      && (a == Match ==> p == mat && r == Scored(p.score + sub, p.actions + [Match]))
      && (a == Insertion ==> p == ins && r == Scored(p.score + delta, p.actions + [Insertion]))
      && (a == Deletion ==> p == del && r == Scored(p.score + delta, p.actions + [Deletion]))
  {
    var r := Combine(delta, sub, del, ins, mat);
    a := r.actions[|r.actions| - 1];
    p := if a == Match then mat else if a == Insertion then ins else del;
  }

  /** With one sequence empty the result, a single run of gaps, is worth
      its trace. */
  lemma LoneTraceWorth(sigma: Matrix, delta: real, s1: string, s2: string, r: Scored)
    requires |s1| == 0 || |s2| == 0
    requires ScoreAndActions(sigma, delta, s1, s2) == Ok(r)
    ensures r.score == StepScore(sigma, delta, delta, s1, s2, r.actions)
  {
    OneSidedScore(sigma, delta, delta, s1, s2, r.actions);
  }

  /** A result that extends the match predecessor's trace by a match is
      worth its trace. */
  lemma {:induction false} TraceWorthMatch(sigma: Matrix, delta: real, s1: string, s2: string, r: Scored, mat: Scored)
    requires |s1| > 0 && |s2| > 0
    requires ScoreAndActions(sigma, delta, DropLast(s1), DropLast(s2)) == Ok(mat)
    requires r == Scored(mat.score + Sigma(sigma, s1[|s1| - 1], s2[|s2| - 1]), mat.actions + [Match])
    ensures r.score == StepScore(sigma, delta, delta, s1, s2, r.actions)
    decreases |s1| + |s2|, 0
  {
    ScoreIsTraceScore(sigma, delta, DropLast(s1), DropLast(s2), mat);
    assert r.actions[..|r.actions| - 1] == mat.actions;
  }

  /** A result that extends the insertion predecessor's trace by an
      insertion is worth its trace. */
  lemma {:induction false} TraceWorthInsertion(sigma: Matrix, delta: real, s1: string, s2: string, r: Scored, ins: Scored)
    requires |s2| > 0
    requires ScoreAndActions(sigma, delta, s1, DropLast(s2)) == Ok(ins)
    requires r == Scored(ins.score + delta, ins.actions + [Insertion])
    ensures r.score == StepScore(sigma, delta, delta, s1, s2, r.actions)
    decreases |s1| + |s2|, 0
  {
    ScoreIsTraceScore(sigma, delta, s1, DropLast(s2), ins);
    assert r.actions[..|r.actions| - 1] == ins.actions;
  }

  /** A result that extends the deletion predecessor's trace by a deletion
      is worth its trace. */
  lemma {:induction false} TraceWorthDeletion(sigma: Matrix, delta: real, s1: string, s2: string, r: Scored, del: Scored)
    requires |s1| > 0
    requires ScoreAndActions(sigma, delta, DropLast(s1), s2) == Ok(del)
    requires r == Scored(del.score + delta, del.actions + [Deletion])
    ensures r.score == StepScore(sigma, delta, delta, s1, s2, r.actions)
    decreases |s1| + |s2|, 0
  {
    ScoreIsTraceScore(sigma, delta, DropLast(s1), s2, del);
    assert r.actions[..|r.actions| - 1] == del.actions;
  }

  /** No trace that consumes both sequences exactly scores more than the
      engine's result. */
  lemma {:induction false} Optimal(sigma: Matrix, delta: real, s1: string, s2: string, r: Scored, t: seq<Action>)
    requires ScoreAndActions(sigma, delta, s1, s2) == Ok(r)
    requires Consumed1(t) == |s1| && Consumed2(t) == |s2|
    ensures StepScore(sigma, delta, delta, s1, s2, t) <= r.score
    decreases |t|, 1
  {
    if |s1| == 0 || |s2| == 0 {
      OneSidedScore(sigma, delta, delta, s1, s2, t);
    } else {
      assert t != [];
      FinalStep(t);
      var before := t[..|t| - 1];
      match t[|t| - 1]
      case Match =>
        MatchBound(sigma, delta, s1, s2, r);
        Optimal(sigma, delta, DropLast(s1), DropLast(s2), ScoreAndActions(sigma, delta, DropLast(s1), DropLast(s2)).value, before);
      case Insertion =>
        InsertionBound(sigma, delta, s1, s2, r);
        Optimal(sigma, delta, s1, DropLast(s2), ScoreAndActions(sigma, delta, s1, DropLast(s2)).value, before);
      case Deletion =>
        DeletionBound(sigma, delta, s1, s2, r);
        Optimal(sigma, delta, DropLast(s1), s2, ScoreAndActions(sigma, delta, DropLast(s1), s2).value, before);
    }
  }

  /** The match predecessor succeeds, and with the substitution score of the
      two last symbols it reaches at most the result. */
  lemma MatchBound(sigma: Matrix, delta: real, s1: string, s2: string, r: Scored)
    requires |s1| > 0 && |s2| > 0
    requires ScoreAndActions(sigma, delta, s1, s2) == Ok(r)
    ensures ScoreAndActions(sigma, delta, DropLast(s1), DropLast(s2)).Ok?
    ensures ScoreAndActions(sigma, delta, DropLast(s1), DropLast(s2)).value.score + Sigma(sigma, LastOf(s1), LastOf(s2)) <= r.score
  {
    var del, ins, mat := Predecessors(sigma, delta, s1, s2, r);
  }

  /** The insertion predecessor succeeds, and with delta it reaches at most
      the result. */
  lemma InsertionBound(sigma: Matrix, delta: real, s1: string, s2: string, r: Scored)
    requires |s1| > 0 && |s2| > 0
    requires ScoreAndActions(sigma, delta, s1, s2) == Ok(r)
    ensures ScoreAndActions(sigma, delta, s1, DropLast(s2)).Ok?
    ensures ScoreAndActions(sigma, delta, s1, DropLast(s2)).value.score + delta <= r.score
  {
    var del, ins, mat := Predecessors(sigma, delta, s1, s2, r);
  }

  /** The deletion predecessor succeeds, and with delta it reaches at most
      the result. */
  lemma DeletionBound(sigma: Matrix, delta: real, s1: string, s2: string, r: Scored)
    requires |s1| > 0 && |s2| > 0
    requires ScoreAndActions(sigma, delta, s1, s2) == Ok(r)
    ensures ScoreAndActions(sigma, delta, DropLast(s1), s2).Ok?
    ensures ScoreAndActions(sigma, delta, DropLast(s1), s2).value.score + delta <= r.score
  {
    var del, ins, mat := Predecessors(sigma, delta, s1, s2, r);
  }

  /** A symbol outside A, C, G, T anywhere in either sequence makes the
      engine fail once both sequences are non-empty: the symbol reaches the
      substitution lookup against some symbol of the other sequence. */
  lemma {:induction false} FailsOnUnknown(sigma: Matrix, delta: real, s1: string, s2: string, r: Result<Scored>)
    requires |s1| > 0 && |s2| > 0 && !(Known(s1) && Known(s2))
    requires ScoreAndActions(sigma, delta, s1, s2) == r
    ensures r == Err(UnknownSymbol)
    decreases |s1| + |s2|
  {
    var s1', s2' := DropLast(s1), DropLast(s2);
    if !Known(s1) {
      UnknownSplit(s1);
    } else {
      UnknownSplit(s2);
    }
    if |s1| > 1 && !Known(s1') {
      FailsOnUnknown(sigma, delta, s1', s2, ScoreAndActions(sigma, delta, s1', s2));
    } else if |s2| > 1 && !Known(s2') {
      FailsOnUnknown(sigma, delta, s1, s2', ScoreAndActions(sigma, delta, s1, s2'));
    }
  }

  /** The engine fails exactly when both sequences are non-empty and one of
      them holds a symbol outside A, C, G, T, and then with the lookup's
      error. */
  lemma FailsIff(sigma: Matrix, delta: real, s1: string, s2: string)
    ensures ScoreAndActions(sigma, delta, s1, s2).Err? <==> |s1| > 0 && |s2| > 0 && !(Known(s1) && Known(s2))
    ensures ScoreAndActions(sigma, delta, s1, s2).Err? ==> ScoreAndActions(sigma, delta, s1, s2).error == UnknownSymbol
  {
    if |s1| > 0 && |s2| > 0 && !(Known(s1) && Known(s2)) {
      FailsOnUnknown(sigma, delta, s1, s2, ScoreAndActions(sigma, delta, s1, s2));
    }
  }

  /** The aligner object: the substitution table, the gap value and private
      copies of both sequences. */
  class Aligner {
    const sigma: Matrix
    const delta: real
    const seq1: string
    const seq2: string

    /** Stores the table and the gap value and copies both sequences symbol
        by symbol into fresh lists. */
    constructor (sigma: Matrix, delta: real, dna1: string, dna2: string)
      ensures this.sigma == sigma && this.delta == delta
      ensures seq1 == dna1 && seq2 == dna2
    {
      this.sigma := sigma;
      this.delta := delta;
      var copy1 := CopyToList(dna1);
      var copy2 := CopyToList(dna2);
      seq1 := copy1;
      seq2 := copy2;
    }

    /** Runs the dynamic program on the stored sequences and renders its
        trace. On sequences over A, C, G, T it succeeds, displays both
        sequences, and reports the score of its trace, which no other trace
        consuming both sequences beats. */
    method PairwiseAlignment() returns (r: Result<Report>)
      ensures r == Rendered(seq1, seq2, ScoreAndActions(sigma, delta, seq1, seq2))
      ensures Known(seq1) && Known(seq2) ==>
        && r.Ok?
        && Displays(seq1, seq2, r.value)
        && r.value.score == StepScore(sigma, delta, delta, seq1, seq2, r.value.actions)
        && Consumed1(r.value.actions) == |seq1| && Consumed2(r.value.actions) == |seq2|
        && (forall t :: Consumed1(t) == |seq1| && Consumed2(t) == |seq2| ==>
              StepScore(sigma, delta, delta, seq1, seq2, t) <= r.value.score)
    {
      var dp := ScoreAndActions(sigma, delta, seq1, seq2);
      var sa :- dp;
      var lines :- RenderLines(seq1, seq2, sa.actions);
      r := Ok(Report(lines.0 + "\n" + lines.1, sa.score, sa.actions));
      if Known(seq1) && Known(seq2) {
        KnownHasNoGaps(seq1);
        KnownHasNoGaps(seq2);
        RenderedExact(seq1, seq2, sa);
        ScoreIsTraceScore(sigma, delta, seq1, seq2, sa);
        forall t | Consumed1(t) == |seq1| && Consumed2(t) == |seq2|
          ensures StepScore(sigma, delta, delta, seq1, seq2, t) <= r.value.score
        {
          Optimal(sigma, delta, seq1, seq2, sa, t);
        }
      }
    }
  }
}
