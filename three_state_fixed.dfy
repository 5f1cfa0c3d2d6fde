/** The three-state aligner with the guards it evidently intends: a state
    consults state `b` of its shorter problem exactly when that problem
    leaves `b` something to consume, and it is a base case exactly when
    nothing is left in front of its last column. With these guards every
    state's trace consumes both sequences exactly, scores what the affine
    gap values (alpha to open a run, beta to extend it) give it, and no
    trace ending in the same action scores more. */
module ThreeStateFixed {
  import opened Alignment

  /** The match state: the substitution score of the two last symbols on
      top of the best state of the problem without both of them. */
  function MatchState(sigma: Matrix, alpha: real, beta: real, s1: string, s2: string): Result<Scored>
    requires |s1| > 0 && |s2| > 0
    decreases |s1| + |s2|
  {
    var p1, p2 := DropLast(s1), DropLast(s2);
    var v :- ComputeSigma(sigma, s1[|s1| - 1], s2[|s2| - 1]);
    if |p1| == 0 && |p2| == 0 then Ok(Scored(v, [Match]))
    else
      var d :- if |p1| != 0 then Slot(Deletion, DeletionState(sigma, alpha, beta, p1, p2), v) else Ok(None);
      var i :- if |p2| != 0 then Slot(Insertion, InsertionState(sigma, alpha, beta, p1, p2), v) else Ok(None);
      var m :- if |p1| != 0 && |p2| != 0 then Slot(Match, MatchState(sigma, alpha, beta, p1, p2), v) else Ok(None);
      Ok(Extend(Choose(d, i, m), Match))
  }

  /** The insertion state: the last symbol of s2 against a gap, after the
      best state of the problem (s1, s2 without its last symbol). */
  function InsertionState(sigma: Matrix, alpha: real, beta: real, s1: string, s2: string): Result<Scored>
    requires |s2| > 0
    decreases |s1| + |s2|
  {
    var p2 := DropLast(s2);
    if |s1| == 0 && |p2| == 0 then Ok(Scored(alpha, [Insertion]))
    else
      var d :- if |s1| != 0 then Slot(Deletion, DeletionState(sigma, alpha, beta, s1, p2), alpha) else Ok(None);
      var i :- if |p2| != 0 then Slot(Insertion, InsertionState(sigma, alpha, beta, s1, p2), beta) else Ok(None);
      var m :- if |s1| != 0 && |p2| != 0 then Slot(Match, MatchState(sigma, alpha, beta, s1, p2), alpha) else Ok(None);
      Ok(Extend(Choose(d, i, m), Insertion))
  }

  /** The deletion state: the last symbol of s1 against a gap, after the
      best state of the problem (s1 without its last symbol, s2). */
  function DeletionState(sigma: Matrix, alpha: real, beta: real, s1: string, s2: string): Result<Scored>
    requires |s1| > 0
    decreases |s1| + |s2|
  {
    var p1 := DropLast(s1);
    if |p1| == 0 && |s2| == 0 then Ok(Scored(alpha, [Deletion]))
    else
      var d :- if |p1| != 0 then Slot(Deletion, DeletionState(sigma, alpha, beta, p1, s2), beta) else Ok(None);
      var i :- if |s2| != 0 then Slot(Insertion, InsertionState(sigma, alpha, beta, p1, s2), alpha) else Ok(None);
      var m :- if |p1| != 0 && |s2| != 0 then Slot(Match, MatchState(sigma, alpha, beta, p1, s2), alpha) else Ok(None);
      Ok(Extend(Choose(d, i, m), Deletion))
  }

  /** The state whose last column is of action `a`. */
  function State(sigma: Matrix, alpha: real, beta: real, a: Action, s1: string, s2: string): Result<Scored>
    requires Fits(a, s1, s2)
  {
    match a
    case Match => MatchState(sigma, alpha, beta, s1, s2)
    case Insertion => InsertionState(sigma, alpha, beta, s1, s2)
    case Deletion => DeletionState(sigma, alpha, beta, s1, s2)
  }

  /** The best of the three states on the whole sequences, as the aligner
      settles them: an empty sequence fails, ties go to the match, then to
      the insertion. */
  function ScoreAndActions(sigma: Matrix, alpha: real, beta: real, s1: string, s2: string): Result<Scored> {
    if |s1| == 0 || |s2| == 0 then Err(EmptySequence)
    else
      var m :- MatchState(sigma, alpha, beta, s1, s2);
      var i :- InsertionState(sigma, alpha, beta, s1, s2);
      var d :- DeletionState(sigma, alpha, beta, s1, s2);
      var c := Choose(Some(Candidate(Deletion, d.score, d.actions)), Some(Candidate(Insertion, i.score, i.actions)),
        Some(Candidate(Match, m.score, m.actions)));
      Ok(Scored(c.value, c.trace))
  }

  /** Whether state `a` consults state `b` of its shorter problem: when
      that problem leaves `b` a symbol to consume. */
  predicate Guard(a: Action, b: Action, s1: string, s2: string) {
    Fits(b, Rest1(a, s1), Rest2(a, s2))
  }

  /** Whether nothing is left in front of a last column of action `a`. */
  predicate Start(a: Action, s1: string, s2: string) {
    |Rest1(a, s1)| == 0 && |Rest2(a, s2)| == 0
  }

  /** Slot `b` of the table of state `a`. */
  function Consult(sigma: Matrix, alpha: real, beta: real, a: Action, b: Action, s1: string, s2: string): Result<Option<Candidate>>
    requires Fits(a, s1, s2)
  {
    if Guard(a, b, s1, s2) then Slot(b, State(sigma, alpha, beta, b, Rest1(a, s1), Rest2(a, s2)), StepValue(sigma, alpha, beta, a, b, s1, s2))
    else Ok(None)
  }

  /** Away from the base case a successful state settles its table of
      consulted states and appends its own action. */
  lemma Unfold(sigma: Matrix, alpha: real, beta: real, a: Action, s1: string, s2: string, r: Scored)
    returns (d: Option<Candidate>, i: Option<Candidate>, m: Option<Candidate>)
    requires Fits(a, s1, s2) && State(sigma, alpha, beta, a, s1, s2) == Ok(r)
    requires !Start(a, s1, s2)
    ensures Consult(sigma, alpha, beta, a, Deletion, s1, s2) == Ok(d)
    ensures Consult(sigma, alpha, beta, a, Insertion, s1, s2) == Ok(i)
    ensures Consult(sigma, alpha, beta, a, Match, s1, s2) == Ok(m)
    ensures d.Some? || i.Some? || m.Some?
    ensures r == Extend(Choose(d, i, m), a)
  {
    d := Consult(sigma, alpha, beta, a, Deletion, s1, s2).value;
    i := Consult(sigma, alpha, beta, a, Insertion, s1, s2).value;
    m := Consult(sigma, alpha, beta, a, Match, s1, s2).value;
  }

  /** Away from the base case a state's result extends the result of one
      consulted state of the shorter problem by its own action and scores
      what that state scores plus what the column adds; a consulted state
      later in table order scores strictly less. */
  lemma Origin(sigma: Matrix, alpha: real, beta: real, a: Action, s1: string, s2: string, r: Scored) returns (b: Action, p: Scored)
    requires Fits(a, s1, s2) && State(sigma, alpha, beta, a, s1, s2) == Ok(r)
    requires !Start(a, s1, s2)
    ensures Guard(a, b, s1, s2)
    ensures State(sigma, alpha, beta, b, Rest1(a, s1), Rest2(a, s2)) == Ok(p)
    ensures r == Scored(p.score + StepValue(sigma, alpha, beta, a, b, s1, s2), p.actions + [a])
    ensures b != Match && Guard(a, Match, s1, s2) ==>
      && State(sigma, alpha, beta, Match, Rest1(a, s1), Rest2(a, s2)).Ok?
      && State(sigma, alpha, beta, Match, Rest1(a, s1), Rest2(a, s2)).value.score + StepValue(sigma, alpha, beta, a, Match, s1, s2) < r.score
    ensures b == Deletion && Guard(a, Insertion, s1, s2) ==>
      && State(sigma, alpha, beta, Insertion, Rest1(a, s1), Rest2(a, s2)).Ok?
      && State(sigma, alpha, beta, Insertion, Rest1(a, s1), Rest2(a, s2)).value.score + StepValue(sigma, alpha, beta, a, Insertion, s1, s2) < r.score
  {
    var d, i, m := Unfold(sigma, alpha, beta, a, s1, s2, r);
    var c := Choose(d, i, m);
    b := c.action;
    p := State(sigma, alpha, beta, b, Rest1(a, s1), Rest2(a, s2)).value;
  }

  /** Every state consulted by a successful state succeeds and, with what
      the column adds, reaches at most the state's score. */
  lemma Bound(sigma: Matrix, alpha: real, beta: real, a: Action, b: Action, s1: string, s2: string, r: Scored)
    requires Fits(a, s1, s2) && State(sigma, alpha, beta, a, s1, s2) == Ok(r)
    requires !Start(a, s1, s2) && Guard(a, b, s1, s2)
    ensures State(sigma, alpha, beta, b, Rest1(a, s1), Rest2(a, s2)).Ok?
    ensures State(sigma, alpha, beta, b, Rest1(a, s1), Rest2(a, s2)).value.score + StepValue(sigma, alpha, beta, a, b, s1, s2) <= r.score
  {
    var d, i, m := Unfold(sigma, alpha, beta, a, s1, s2, r);
  }

  /** With nothing left in front of the last column a state is that one
      column: a match worth the substitution score of its two symbols, or a
      gap worth alpha. */
  lemma BaseCase(sigma: Matrix, alpha: real, beta: real, a: Action, s1: string, s2: string, r: Scored)
    requires Fits(a, s1, s2) && State(sigma, alpha, beta, a, s1, s2) == Ok(r)
    requires Start(a, s1, s2)
    ensures r == Scored(if a == Match then Sigma(sigma, LastOf(s1), LastOf(s2)) else alpha, [a])
  {
  }

  /** A successful state's trace ends with the state's own action. */
  lemma EndsWithOwnAction(sigma: Matrix, alpha: real, beta: real, a: Action, s1: string, s2: string, r: Scored)
    requires Fits(a, s1, s2) && State(sigma, alpha, beta, a, s1, s2) == Ok(r)
    ensures |r.actions| > 0 && r.actions[|r.actions| - 1] == a
  {
    if !Start(a, s1, s2) {
      var b, p := Origin(sigma, alpha, beta, a, s1, s2, r);
    }
  }

  /** A state whose lookup succeeds and whose consulted states all succeed
      succeeds. */
  lemma Assemble(sigma: Matrix, alpha: real, beta: real, a: Action, s1: string, s2: string)
    requires Fits(a, s1, s2)
    requires a == Match ==> s1[|s1| - 1] in Alphabet && s2[|s2| - 1] in Alphabet
    requires Guard(a, Deletion, s1, s2) ==> State(sigma, alpha, beta, Deletion, Rest1(a, s1), Rest2(a, s2)).Ok?
    requires Guard(a, Insertion, s1, s2) ==> State(sigma, alpha, beta, Insertion, Rest1(a, s1), Rest2(a, s2)).Ok?
    requires Guard(a, Match, s1, s2) ==> State(sigma, alpha, beta, Match, Rest1(a, s1), Rest2(a, s2)).Ok?
    ensures State(sigma, alpha, beta, a, s1, s2).Ok?
  {
  }

  /** On sequences over A, C, G, T every state succeeds. */
  lemma {:induction false} KnownSucceeds(sigma: Matrix, alpha: real, beta: real, a: Action, s1: string, s2: string)
    requires Fits(a, s1, s2) && Known(s1) && Known(s2)
    ensures State(sigma, alpha, beta, a, s1, s2).Ok?
    decreases |s1| + |s2|
  {
    KnownRest(a, s1, s2);
    if Guard(a, Deletion, s1, s2) {
      KnownSucceeds(sigma, alpha, beta, Deletion, Rest1(a, s1), Rest2(a, s2));
    }
    if Guard(a, Insertion, s1, s2) {
      KnownSucceeds(sigma, alpha, beta, Insertion, Rest1(a, s1), Rest2(a, s2));
    }
    if Guard(a, Match, s1, s2) {
      KnownSucceeds(sigma, alpha, beta, Match, Rest1(a, s1), Rest2(a, s2));
    }
    if a == Match {
      assert s1[|s1| - 1] in Alphabet && s2[|s2| - 1] in Alphabet;
    }
    Assemble(sigma, alpha, beta, a, s1, s2);
  }

  /** A successful state's trace consumes both sequences exactly. */
  lemma {:induction false} Consumes(sigma: Matrix, alpha: real, beta: real, a: Action, s1: string, s2: string, r: Scored)
    requires Fits(a, s1, s2) && State(sigma, alpha, beta, a, s1, s2) == Ok(r)
    ensures Consumed1(r.actions) == |s1| && Consumed2(r.actions) == |s2|
    decreases |s1| + |s2|
  {
    if Start(a, s1, s2) {
      BaseCase(sigma, alpha, beta, a, s1, s2, r);
      assert r.actions == [] + [a];
      ConsumedAppend([], a);
    } else {
      var b, p := Origin(sigma, alpha, beta, a, s1, s2, r);
      Consumes(sigma, alpha, beta, b, Rest1(a, s1), Rest2(a, s2), p);
      ConsumedAppend(p.actions, a);
    }
  }

  /** A successful state's score is the affine score of its own trace:
      alpha to open a gap run, beta to extend one, and the substitution
      score of every match column. */
  lemma {:induction false} TraceScore(sigma: Matrix, alpha: real, beta: real, a: Action, s1: string, s2: string, r: Scored)
    requires Fits(a, s1, s2) && State(sigma, alpha, beta, a, s1, s2) == Ok(r)
    ensures r.score == StepScore(sigma, alpha, beta, s1, s2, r.actions)
    decreases |s1| + |s2|
  {
    if Start(a, s1, s2) {
      BaseCase(sigma, alpha, beta, a, s1, s2, r);
      StepAlone(sigma, alpha, beta, s1, s2, a);
    } else {
      var b, p := Origin(sigma, alpha, beta, a, s1, s2, r);
      TraceScore(sigma, alpha, beta, b, Rest1(a, s1), Rest2(a, s2), p);
      EndsWithOwnAction(sigma, alpha, beta, b, Rest1(a, s1), Rest2(a, s2), p);
      StepOnto(sigma, alpha, beta, s1, s2, p.actions, a, b);
    }
  }

  /** No trace that consumes both sequences exactly and ends with action
      `a` scores more than state `a`. */
  lemma {:induction false} Optimal(sigma: Matrix, alpha: real, beta: real, a: Action, s1: string, s2: string, r: Scored, t: seq<Action>)
    requires Fits(a, s1, s2) && State(sigma, alpha, beta, a, s1, s2) == Ok(r)
    requires t != [] && t[|t| - 1] == a
    requires Consumed1(t) == |s1| && Consumed2(t) == |s2|
    ensures StepScore(sigma, alpha, beta, s1, s2, t) <= r.score
    decreases |t|
  {
    Behind(t, a, s1, s2);
    if |t| == 1 {
      BaseCase(sigma, alpha, beta, a, s1, s2, r);
      StepAlone(sigma, alpha, beta, s1, s2, a);
    } else {
      var b, before := t[|t| - 2], t[..|t| - 1];
      Bound(sigma, alpha, beta, a, b, s1, s2, r);
      var p := State(sigma, alpha, beta, b, Rest1(a, s1), Rest2(a, s2)).value;
      Optimal(sigma, alpha, beta, b, Rest1(a, s1), Rest2(a, s2), p, before);
      StepBack(sigma, alpha, beta, s1, s2, t);
    }
  }

  /** Peel read in terms of the states: a one-column trace leaves nothing
      in front of its column, and a longer one leaves a trace whose last
      action names a state that state `a` consults. */
  lemma Behind(t: seq<Action>, a: Action, s1: string, s2: string)
    requires Fits(a, s1, s2)
    requires t != [] && t[|t| - 1] == a
    requires Consumed1(t) == |s1| && Consumed2(t) == |s2|
    ensures |t| == 1 ==> t == [a] && Start(a, s1, s2)
    ensures |t| > 1 ==>
      && !Start(a, s1, s2) && Guard(a, t[|t| - 2], s1, s2)
      && t[..|t| - 1][|t| - 2] == t[|t| - 2]
      && Consumed1(t[..|t| - 1]) == |Rest1(a, s1)| && Consumed2(t[..|t| - 1]) == |Rest2(a, s2)|
  {
    Peel(t, a, s1, s2);
  }

  /** A successful top-level result is one of the three states on the whole
      sequences and reaches each of their scores; on a tie the match wins,
      then the insertion. */
  lemma TopChoice(sigma: Matrix, alpha: real, beta: real, s1: string, s2: string, r: Scored)
    requires ScoreAndActions(sigma, alpha, beta, s1, s2) == Ok(r)
    ensures |s1| > 0 && |s2| > 0
    ensures MatchState(sigma, alpha, beta, s1, s2).Ok?
    ensures InsertionState(sigma, alpha, beta, s1, s2).Ok?
    ensures DeletionState(sigma, alpha, beta, s1, s2).Ok?
    ensures
      var m, i, d := MatchState(sigma, alpha, beta, s1, s2).value,
        InsertionState(sigma, alpha, beta, s1, s2).value, DeletionState(sigma, alpha, beta, s1, s2).value;
      && m.score <= r.score && i.score <= r.score && d.score <= r.score
      && (r == m || r == i || r == d)
      && (m.score == r.score ==> r == m)
      && (i.score == r.score && m.score < r.score ==> r == i)
  {
  }

  /** An empty sequence makes the aligner fail; two non-empty sequences
      over A, C, G, T make it succeed. */
  lemma Outcome(sigma: Matrix, alpha: real, beta: real, s1: string, s2: string)
    ensures |s1| == 0 || |s2| == 0 ==> ScoreAndActions(sigma, alpha, beta, s1, s2) == Err(EmptySequence)
    ensures |s1| > 0 && |s2| > 0 && Known(s1) && Known(s2) ==> ScoreAndActions(sigma, alpha, beta, s1, s2).Ok?
  {
    if |s1| > 0 && |s2| > 0 && Known(s1) && Known(s2) {
      KnownSucceeds(sigma, alpha, beta, Match, s1, s2);
      KnownSucceeds(sigma, alpha, beta, Insertion, s1, s2);
      KnownSucceeds(sigma, alpha, beta, Deletion, s1, s2);
    }
  }

  /** No trace that consumes both sequences exactly scores more than the
      top-level result. */
  lemma TopOptimal(sigma: Matrix, alpha: real, beta: real, s1: string, s2: string, r: Scored, t: seq<Action>)
    requires ScoreAndActions(sigma, alpha, beta, s1, s2) == Ok(r)
    requires Consumed1(t) == |s1| && Consumed2(t) == |s2|
    ensures StepScore(sigma, alpha, beta, s1, s2, t) <= r.score
  {
    TopChoice(sigma, alpha, beta, s1, s2, r);
    var a := t[|t| - 1];
    Optimal(sigma, alpha, beta, a, s1, s2, State(sigma, alpha, beta, a, s1, s2).value, t);
  }

  /** A successful top-level result consumes both sequences exactly, scores
      what its own trace is worth, and no trace consuming both scores more:
      it is an optimal global alignment under the affine gap values. */
  lemma Reported(sigma: Matrix, alpha: real, beta: real, s1: string, s2: string, sa: Scored)
    requires ScoreAndActions(sigma, alpha, beta, s1, s2) == Ok(sa)
    ensures Consumed1(sa.actions) == |s1| && Consumed2(sa.actions) == |s2|
    ensures sa.score == StepScore(sigma, alpha, beta, s1, s2, sa.actions)
    ensures forall t :: Consumed1(t) == |s1| && Consumed2(t) == |s2| ==>
      StepScore(sigma, alpha, beta, s1, s2, t) <= sa.score
  {
    TopChoice(sigma, alpha, beta, s1, s2, sa);
    var a := if sa == MatchState(sigma, alpha, beta, s1, s2).value then Match
      else if sa == InsertionState(sigma, alpha, beta, s1, s2).value then Insertion
      else Deletion;
    assert State(sigma, alpha, beta, a, s1, s2) == Ok(sa);
    Consumes(sigma, alpha, beta, a, s1, s2, sa);
    TraceScore(sigma, alpha, beta, a, s1, s2, sa);
    forall t | Consumed1(t) == |s1| && Consumed2(t) == |s2|
      ensures StepScore(sigma, alpha, beta, s1, s2, t) <= sa.score
    {
      TopOptimal(sigma, alpha, beta, s1, s2, sa, t);
    }
  }

  /** The aligner object: the substitution table, the gap-opening and
      gap-extending values and the two sequences, kept as given. */
  class Aligner {
    const sigma: Matrix
    const alpha: real
    const beta: real
    const seq1: string
    const seq2: string

    /** Stores the table, both gap values and both sequences as given. */
    constructor (sigma: Matrix, alpha: real, beta: real, dna1: string, dna2: string)
      ensures this.sigma == sigma && this.alpha == alpha && this.beta == beta
      ensures seq1 == dna1 && seq2 == dna2
    {
      this.sigma := sigma;
      this.alpha := alpha;
      this.beta := beta;
      seq1 := dna1;
      seq2 := dna2;
    }

    /** Runs the three-state recursion on the stored sequences and renders
        its trace. An empty sequence fails; on non-empty sequences over A,
        C, G, T it succeeds, displays both sequences, consumes them exactly,
        reports its own trace's affine score, and no trace consuming both
        scores more. */
    method PairwiseAlignment() returns (r: Result<Report>)
      ensures r == Rendered(seq1, seq2, ScoreAndActions(sigma, alpha, beta, seq1, seq2))
      ensures |seq1| == 0 || |seq2| == 0 ==> r == Err(EmptySequence)
      ensures |seq1| > 0 && |seq2| > 0 && Known(seq1) && Known(seq2) ==>
        && r.Ok?
        && Displays(seq1, seq2, r.value)
        && Consumed1(r.value.actions) == |seq1| && Consumed2(r.value.actions) == |seq2|
        && r.value.score == StepScore(sigma, alpha, beta, seq1, seq2, r.value.actions)
        && (forall t :: Consumed1(t) == |seq1| && Consumed2(t) == |seq2| ==>
              StepScore(sigma, alpha, beta, seq1, seq2, t) <= r.value.score)
    {
      var dp := ScoreAndActions(sigma, alpha, beta, seq1, seq2);
      Outcome(sigma, alpha, beta, seq1, seq2);
      var sa :- dp;
      if Known(seq1) && Known(seq2) {
        KnownHasNoGaps(seq1);
        KnownHasNoGaps(seq2);
        Reported(sigma, alpha, beta, seq1, seq2, sa);
        RenderedExact(seq1, seq2, sa);
      }
      var lines :- RenderLines(seq1, seq2, sa.actions);
      r := Ok(Report(lines.0 + "\n" + lines.1, sa.score, sa.actions));
    }
  }
}
