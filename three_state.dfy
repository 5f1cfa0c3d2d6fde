/** The three-state aligner as its source is written. The match state, the
    insertion state and the deletion state each give the best alignment of
    the two sequences whose last column is of their own kind; a gap column
    adds beta after a column of the same kind and alpha after any other.
    Every state decides which states of the shorter problem to consult by
    the lengths of both sequences without their last symbols, whichever
    symbol the state itself consumes (see Guard and the lemmas at the end). */
module ThreeState {
  import opened Alignment
  import ThreeStateFixed


  /** The match state: the substitution score of the two last symbols on
      top of the best state of the problem without both of them, or just
      that score when nothing is left. */
  function MatchState(sigma: Matrix, alpha: real, beta: real, s1: string, s2: string): Result<Scored>
    requires |s1| > 0 && |s2| > 0
    decreases |s1| + |s2|
  {
    var p1, p2 := DropLast(s1), DropLast(s2);
    var v :- ComputeSigma(sigma, s1[|s1| - 1], s2[|s2| - 1]);
    if |p1| == 0 && |p2| == 0 then Ok(Scored(v, [Match]))
    else
      var d :- if |p1| != 0 then Slot(Deletion, DeletionState(sigma, alpha, beta, p1, p2), v) else Ok(None);
      var i :- if |p2| != 0 then Slot(Insertion, InsertionState(sigma, alpha, beta, p1, p2), v) else Ok(None);
      var m :- if |p1| != 0 && |p2| != 0 then Slot(Match, MatchState(sigma, alpha, beta, p1, p2), v) else Ok(None);
      Ok(Extend(Choose(d, i, m), Match))
  }

  /** The insertion state: the last symbol of s2 against a gap, after the
      best state of the problem without it. Its guards test the first
      sequence without its last symbol, although that symbol stays. */
  function InsertionState(sigma: Matrix, alpha: real, beta: real, s1: string, s2: string): Result<Scored>
    requires |s2| > 0
    decreases |s1| + |s2|
  {
    var p1, p2 := DropLast(s1), DropLast(s2);
    if |p1| == 0 && |p2| == 0 then Ok(Scored(alpha, [Insertion]))
    else
      var d :- if |p1| != 0 then Slot(Deletion, DeletionState(sigma, alpha, beta, s1, p2), alpha) else Ok(None);
      var i :- if |p2| != 0 then Slot(Insertion, InsertionState(sigma, alpha, beta, s1, p2), beta) else Ok(None);
      var m :- if |p1| != 0 && |p2| != 0 then Slot(Match, MatchState(sigma, alpha, beta, s1, p2), alpha) else Ok(None);
      Ok(Extend(Choose(d, i, m), Insertion))
  }

  /** The deletion state: the last symbol of s1 against a gap, after the
      best state of the problem without it. Its guards test the second
      sequence without its last symbol, although that symbol stays. */
  function DeletionState(sigma: Matrix, alpha: real, beta: real, s1: string, s2: string): Result<Scored>
    requires |s1| > 0
    decreases |s1| + |s2|
  {
    var p1, p2 := DropLast(s1), DropLast(s2);
    if |p1| == 0 && |p2| == 0 then Ok(Scored(alpha, [Deletion]))
    else
      var d :- if |p1| != 0 then Slot(Deletion, DeletionState(sigma, alpha, beta, p1, s2), beta) else Ok(None);
      var i :- if |p2| != 0 then Slot(Insertion, InsertionState(sigma, alpha, beta, p1, s2), alpha) else Ok(None);
      var m :- if |p1| != 0 && |p2| != 0 then Slot(Match, MatchState(sigma, alpha, beta, p1, s2), alpha) else Ok(None);
      Ok(Extend(Choose(d, i, m), Deletion))
  }

  /** The state whose last column is of action `a`. */
  function State(sigma: Matrix, alpha: real, beta: real, a: Action, s1: string, s2: string): Result<Scored>
    requires Fits(a, s1, s2)
  {
    match a
    case Match => MatchState(sigma, alpha, beta, s1, s2)
    case Insertion => InsertionState(sigma, alpha, beta, s1, s2)
    case Deletion => DeletionState(sigma, alpha, beta, s1, s2)
  }

  /** The best of the three states on the whole sequences (the match state
      first, so an empty sequence fails at its last symbol), ties going to
      the match, then to the insertion. */
  function ScoreAndActions(sigma: Matrix, alpha: real, beta: real, s1: string, s2: string): Result<Scored> {
    if |s1| == 0 || |s2| == 0 then Err(EmptySequence)
    else
      var m :- MatchState(sigma, alpha, beta, s1, s2);
      var i :- InsertionState(sigma, alpha, beta, s1, s2);
      var d :- DeletionState(sigma, alpha, beta, s1, s2);
      var c := Choose(Some(Candidate(Deletion, d.score, d.actions)), Some(Candidate(Insertion, i.score, i.actions)),
        Some(Candidate(Match, m.score, m.actions)));
      Ok(Scored(c.value, c.trace))
  }

  /** Whether a state consults state `b` of its shorter problem: every
      state tests the lengths of both sequences without their last
      symbols. */
  predicate Guard(b: Action, s1: string, s2: string) {
    Fits(b, DropLast(s1), DropLast(s2))
  }

  /** Slot `b` of the table of state `a`: present exactly when the guard
      lets the state consult state `b` of its shorter problem. */
  function Consult(sigma: Matrix, alpha: real, beta: real, a: Action, b: Action, s1: string, s2: string): Result<Option<Candidate>>
    requires Fits(a, s1, s2)
  {
    if Guard(b, s1, s2) then Slot(b, State(sigma, alpha, beta, b, Rest1(a, s1), Rest2(a, s2)), StepValue(sigma, alpha, beta, a, b, s1, s2))
    else Ok(None)
  }

  /** Away from the base case a successful state settles its table of
      consulted states and appends its own action. */
  lemma Unfold(sigma: Matrix, alpha: real, beta: real, a: Action, s1: string, s2: string, r: Scored)
    returns (d: Option<Candidate>, i: Option<Candidate>, m: Option<Candidate>)
    requires Fits(a, s1, s2) && State(sigma, alpha, beta, a, s1, s2) == Ok(r)
    requires |s1| > 1 || |s2| > 1
    ensures Consult(sigma, alpha, beta, a, Deletion, s1, s2) == Ok(d)
    ensures Consult(sigma, alpha, beta, a, Insertion, s1, s2) == Ok(i)
    ensures Consult(sigma, alpha, beta, a, Match, s1, s2) == Ok(m)
    ensures d.Some? || i.Some? || m.Some?
    ensures r == Extend(Choose(d, i, m), a)
  {
    d := Consult(sigma, alpha, beta, a, Deletion, s1, s2).value;
    i := Consult(sigma, alpha, beta, a, Insertion, s1, s2).value;
    m := Consult(sigma, alpha, beta, a, Match, s1, s2).value;
  }

  /** Away from the base case a state's result extends the result of one
      consulted state of the shorter problem by its own action, and scores
      what that state scores plus what the column adds; a consulted state
      later in table order (deletion, insertion, match) scores strictly
      less, so ties go to the match, then to the insertion. */
  lemma Origin(sigma: Matrix, alpha: real, beta: real, a: Action, s1: string, s2: string, r: Scored) returns (b: Action, p: Scored)
    requires Fits(a, s1, s2) && State(sigma, alpha, beta, a, s1, s2) == Ok(r)
    requires |s1| > 1 || |s2| > 1
    ensures Guard(b, s1, s2) && Fits(b, Rest1(a, s1), Rest2(a, s2))
    ensures State(sigma, alpha, beta, b, Rest1(a, s1), Rest2(a, s2)) == Ok(p)
    ensures r == Scored(p.score + StepValue(sigma, alpha, beta, a, b, s1, s2), p.actions + [a])
    ensures b != Match && Guard(Match, s1, s2) ==>
      && State(sigma, alpha, beta, Match, Rest1(a, s1), Rest2(a, s2)).Ok?
      && State(sigma, alpha, beta, Match, Rest1(a, s1), Rest2(a, s2)).value.score + StepValue(sigma, alpha, beta, a, Match, s1, s2) < r.score
    ensures b == Deletion && Guard(Insertion, s1, s2) ==>
      && State(sigma, alpha, beta, Insertion, Rest1(a, s1), Rest2(a, s2)).Ok?
      && State(sigma, alpha, beta, Insertion, Rest1(a, s1), Rest2(a, s2)).value.score + StepValue(sigma, alpha, beta, a, Insertion, s1, s2) < r.score
  {
    var d, i, m := Unfold(sigma, alpha, beta, a, s1, s2, r);
    var c := Choose(d, i, m);
    b := c.action;
    p := State(sigma, alpha, beta, b, Rest1(a, s1), Rest2(a, s2)).value;
  }

  /** Every state consulted by a successful state succeeds and, with what
      the column adds, reaches at most the state's score. */
  lemma Bound(sigma: Matrix, alpha: real, beta: real, a: Action, b: Action, s1: string, s2: string, r: Scored)
    requires Fits(a, s1, s2) && State(sigma, alpha, beta, a, s1, s2) == Ok(r)
    requires |s1| > 1 || |s2| > 1
    requires Guard(b, s1, s2)
    ensures Fits(b, Rest1(a, s1), Rest2(a, s2))
    ensures State(sigma, alpha, beta, b, Rest1(a, s1), Rest2(a, s2)).Ok?
    ensures State(sigma, alpha, beta, b, Rest1(a, s1), Rest2(a, s2)).value.score + StepValue(sigma, alpha, beta, a, b, s1, s2) <= r.score
  {
    var d, i, m := Unfold(sigma, alpha, beta, a, s1, s2, r);
  }

  /** With both sequences of length at most one the insertion and deletion
      states return alpha and their own action, whatever the symbols and
      even when the other sequence still holds one; the match state returns
      the substitution score of the two symbols. */
  lemma BaseCase(sigma: Matrix, alpha: real, beta: real, a: Action, s1: string, s2: string)
    requires Fits(a, s1, s2) && |s1| <= 1 && |s2| <= 1
    ensures a != Match ==> State(sigma, alpha, beta, a, s1, s2) == Ok(Scored(alpha, [a]))
    ensures a == Match ==>
      State(sigma, alpha, beta, a, s1, s2) ==
        if s1[0] in Alphabet && s2[0] in Alphabet then Ok(Scored(Sigma(sigma, s1[0], s2[0]), [Match]))
        else Err(UnknownSymbol)
  {
  }

  /** A successful state's trace ends with the state's own action. */
  lemma EndsWithOwnAction(sigma: Matrix, alpha: real, beta: real, a: Action, s1: string, s2: string, r: Scored)
    requires Fits(a, s1, s2) && State(sigma, alpha, beta, a, s1, s2) == Ok(r)
    ensures |r.actions| > 0 && r.actions[|r.actions| - 1] == a
  {
    if |s1| > 1 || |s2| > 1 {
      var b, p := Origin(sigma, alpha, beta, a, s1, s2, r);
    }
  }

  /** A state whose lookup succeeds and whose consulted states all succeed
      succeeds. */
  lemma Assemble(sigma: Matrix, alpha: real, beta: real, a: Action, s1: string, s2: string)
    requires Fits(a, s1, s2) && (|s1| > 1 || |s2| > 1)
    requires a == Match ==> s1[|s1| - 1] in Alphabet && s2[|s2| - 1] in Alphabet
    requires Guard(Deletion, s1, s2) ==> State(sigma, alpha, beta, Deletion, Rest1(a, s1), Rest2(a, s2)).Ok?
    requires Guard(Insertion, s1, s2) ==> State(sigma, alpha, beta, Insertion, Rest1(a, s1), Rest2(a, s2)).Ok?
    requires Guard(Match, s1, s2) ==> State(sigma, alpha, beta, Match, Rest1(a, s1), Rest2(a, s2)).Ok?
    ensures State(sigma, alpha, beta, a, s1, s2).Ok?
  {
  }

  /** On sequences over A, C, G, T every state succeeds. */
  lemma {:induction false} KnownSucceeds(sigma: Matrix, alpha: real, beta: real, a: Action, s1: string, s2: string)
    requires Fits(a, s1, s2) && Known(s1) && Known(s2)
    ensures State(sigma, alpha, beta, a, s1, s2).Ok?
    decreases |s1| + |s2|
  {
    if |s1| > 1 || |s2| > 1 {
      KnownRest(a, s1, s2);
      if Guard(Deletion, s1, s2) {
        KnownSucceeds(sigma, alpha, beta, Deletion, Rest1(a, s1), Rest2(a, s2));
      }
      if Guard(Insertion, s1, s2) {
        KnownSucceeds(sigma, alpha, beta, Insertion, Rest1(a, s1), Rest2(a, s2));
      }
      if Guard(Match, s1, s2) {
        KnownSucceeds(sigma, alpha, beta, Match, Rest1(a, s1), Rest2(a, s2));
      }
      if a == Match {
        assert s1[|s1| - 1] in Alphabet && s2[|s2| - 1] in Alphabet;
      }
      Assemble(sigma, alpha, beta, a, s1, s2);
    } else {
      BaseCase(sigma, alpha, beta, a, s1, s2);
    }
  }

  /** The result is the best of the three states on the whole sequences:
      it reaches every one of their scores, it is one of them, and ties go
      to the match, then to the insertion. */
  lemma TopChoice(sigma: Matrix, alpha: real, beta: real, s1: string, s2: string, r: Scored)
    requires ScoreAndActions(sigma, alpha, beta, s1, s2) == Ok(r)
    ensures |s1| > 0 && |s2| > 0
    ensures MatchState(sigma, alpha, beta, s1, s2).Ok?
    ensures InsertionState(sigma, alpha, beta, s1, s2).Ok?
    ensures DeletionState(sigma, alpha, beta, s1, s2).Ok?
    ensures
      var m, i, d := MatchState(sigma, alpha, beta, s1, s2).value,
        InsertionState(sigma, alpha, beta, s1, s2).value, DeletionState(sigma, alpha, beta, s1, s2).value;
      && m.score <= r.score && i.score <= r.score && d.score <= r.score
      && (r == m || r == i || r == d)
      && (m.score == r.score ==> r == m)
      && (i.score == r.score && m.score < r.score ==> r == i)
  {
  }

  /** An empty sequence makes the engine fail at the match state's lookup
      of its last symbol; two non-empty sequences over A, C, G, T make it
      succeed. */
  lemma Outcome(sigma: Matrix, alpha: real, beta: real, s1: string, s2: string)
    ensures |s1| == 0 || |s2| == 0 ==> ScoreAndActions(sigma, alpha, beta, s1, s2) == Err(EmptySequence)
    ensures |s1| > 0 && |s2| > 0 && Known(s1) && Known(s2) ==> ScoreAndActions(sigma, alpha, beta, s1, s2).Ok?
  {
    if |s1| > 0 && |s2| > 0 && Known(s1) && Known(s2) {
      KnownSucceeds(sigma, alpha, beta, Match, s1, s2);
      KnownSucceeds(sigma, alpha, beta, Insertion, s1, s2);
      KnownSucceeds(sigma, alpha, beta, Deletion, s1, s2);
    }
  }

  /** The guards let a gap state skip the other sequence's last symbol. On
      "A" against "G" the insertion state is a base case, because both
      sequences are empty once their last symbols are dropped, although the
      A is still there. When alpha is negative and the substitution score of
      A against G is below alpha, that lone insertion is the aligner's
      answer: its trace never consumes the A, its rendering does not display
      the A, and its score is above what every alignment consuming both
      sequences can reach (the corrected aligner's best). */
  lemma SkipsFirstSymbol(sigma: Matrix, alpha: real, beta: real)
    requires alpha < 0.0 && sigma[0][2] < alpha
    ensures ScoreAndActions(sigma, alpha, beta, "A", "G") == Ok(Scored(alpha, [Insertion]))
    ensures Consumed1([Insertion]) == 0
    ensures Rendered("A", "G", ScoreAndActions(sigma, alpha, beta, "A", "G")) == Ok(Report("_\nG", alpha, [Insertion]))
    ensures !Displays("A", "G", Report("_\nG", alpha, [Insertion]))
    ensures forall t :: Consumed1(t) == 1 && Consumed2(t) == 1 ==> StepScore(sigma, alpha, beta, "A", "G", t) < alpha
  {
    var s1, s2 := "A", "G";
    assert DropLast(s1) == [] && DropLast(s2) == [];
    assert ComputeSigma(sigma, 'A', 'G') == Ok(sigma[0][2]);
    assert MatchState(sigma, alpha, beta, s1, s2) == Ok(Scored(sigma[0][2], [Match]));
    assert InsertionState(sigma, alpha, beta, s1, s2) == Ok(Scored(alpha, [Insertion]));
    assert DeletionState(sigma, alpha, beta, s1, s2) == Ok(Scored(alpha, [Deletion]));
    assert [Insertion][1..] == [] && s2[1..] == [];
    assert Columns(s1, s2[1..], []) == Ok(([], []));
    assert Columns(s1, s2, [Insertion]) == Ok(([Gap] + [], [s2[0]] + []));
    assert [Gap] + [] == "_" && [s2[0]] + [] == "G";
    assert "_" + "\n" + "G" == "_\nG";
    assert Strip("_") == [];
    var best := ThreeStateFixed.ScoreAndActions(sigma, alpha, beta, s1, s2);
    assert ThreeStateFixed.MatchState(sigma, alpha, beta, s1, s2) == Ok(Scored(sigma[0][2], [Match]));
    assert ThreeStateFixed.DeletionState(sigma, alpha, beta, s1, []) == Ok(Scored(alpha, [Deletion]));
    assert ThreeStateFixed.InsertionState(sigma, alpha, beta, [], s2) == Ok(Scored(alpha, [Insertion]));
    assert ThreeStateFixed.InsertionState(sigma, alpha, beta, s1, s2).value.score == alpha + alpha;
    assert ThreeStateFixed.DeletionState(sigma, alpha, beta, s1, s2).value.score == alpha + alpha;
    ThreeStateFixed.Reported(sigma, alpha, beta, s1, s2, best.value);
  }
  /** The guards decide which symbols are ever looked up. On "XA" against
      "G" no state of this engine consults a match on the X, so the unknown
      symbol goes unread and the run succeeds; the corrected engine matches
      the X against the G on the way and fails with UnknownSymbol. */
  lemma UnreadSymbol(sigma: Matrix, alpha: real, beta: real)
    ensures ScoreAndActions(sigma, alpha, beta, "XA", "G").Ok?
    ensures ThreeStateFixed.ScoreAndActions(sigma, alpha, beta, "XA", "G") == Err(UnknownSymbol)
  {
    var s1, s2 := "XA", "G";
    assert DropLast(s1) == "X" && DropLast(s2) == [] && DropLast("X") == [];
    assert ComputeSigma(sigma, 'A', 'G') == Ok(sigma[0][2]);
    assert DeletionState(sigma, alpha, beta, "X", []).Ok?;
    assert DeletionState(sigma, alpha, beta, "X", s2).Ok?;
    assert DeletionState(sigma, alpha, beta, s1, []).Ok?;
    assert MatchState(sigma, alpha, beta, s1, s2).Ok?;
    assert InsertionState(sigma, alpha, beta, s1, s2).Ok?;
    assert DeletionState(sigma, alpha, beta, s1, s2).Ok?;
    assert ComputeSigma(sigma, 'X', 'G') == Err(UnknownSymbol);
    assert ThreeStateFixed.DeletionState(sigma, alpha, beta, "X", []).Ok?;
    assert ThreeStateFixed.DeletionState(sigma, alpha, beta, s1, []).Ok?;
    assert ThreeStateFixed.MatchState(sigma, alpha, beta, s1, s2).Ok?;
    assert ThreeStateFixed.InsertionState(sigma, alpha, beta, s1, s2).Ok?;
    assert ThreeStateFixed.MatchState(sigma, alpha, beta, "X", s2) == Err(UnknownSymbol);
    assert ThreeStateFixed.DeletionState(sigma, alpha, beta, s1, s2) == Err(UnknownSymbol);
  }


  /** A state's trace never takes more symbols from either sequence than
      it holds: every column consumes a symbol its state is sure to have. */
  lemma {:induction false} WithinBounds(sigma: Matrix, alpha: real, beta: real, a: Action, s1: string, s2: string, r: Scored)
    requires Fits(a, s1, s2) && State(sigma, alpha, beta, a, s1, s2) == Ok(r)
    ensures Consumed1(r.actions) <= |s1| && Consumed2(r.actions) <= |s2|
    decreases |s1| + |s2|
  {
    if |s1| <= 1 && |s2| <= 1 {
      BaseCase(sigma, alpha, beta, a, s1, s2);
      assert r.actions == [] + [a];
      ConsumedAppend([], a);
    } else {
      var b, p := Origin(sigma, alpha, beta, a, s1, s2, r);
      WithinBounds(sigma, alpha, beta, b, Rest1(a, s1), Rest2(a, s2), p);
      ConsumedAppend(p.actions, a);
    }
  }

  /** The answer's trace stays within both sequences as well. */
  lemma TopWithinBounds(sigma: Matrix, alpha: real, beta: real, s1: string, s2: string, r: Scored)
    requires ScoreAndActions(sigma, alpha, beta, s1, s2) == Ok(r)
    ensures Consumed1(r.actions) <= |s1| && Consumed2(r.actions) <= |s2|
  {
    TopChoice(sigma, alpha, beta, s1, s2, r);
    var a := if r == MatchState(sigma, alpha, beta, s1, s2).value then Match
      else if r == InsertionState(sigma, alpha, beta, s1, s2).value then Insertion
      else Deletion;
    WithinBounds(sigma, alpha, beta, a, s1, s2, r);
  }

  /** The aligner object as written: the substitution table, the
      gap-opening and gap-extending values and the two sequences, kept as
      given. */
  class Aligner {
    const sigma: Matrix
    const alpha: real
    const beta: real
    const seq1: string
    const seq2: string

    /** Stores the table, both gap values and both sequences as given. */
    constructor (sigma: Matrix, alpha: real, beta: real, dna1: string, dna2: string)
      ensures this.sigma == sigma && this.alpha == alpha && this.beta == beta
      ensures seq1 == dna1 && seq2 == dna2
    {
      this.sigma := sigma;
      this.alpha := alpha;
      this.beta := beta;
      seq1 := dna1;
      seq2 := dna2;
    }

    /** Runs the three-state recursion as written and renders its trace. An
        empty sequence fails, and rendering never runs out of symbols; on
        non-empty sequences over A, C, G, T it succeeds, but its lines may
        show only a prefix of each sequence. */
    method PairwiseAlignment() returns (r: Result<Report>)
      ensures r == Rendered(seq1, seq2, ScoreAndActions(sigma, alpha, beta, seq1, seq2))
      ensures |seq1| == 0 || |seq2| == 0 ==> r == Err(EmptySequence)
      ensures ScoreAndActions(sigma, alpha, beta, seq1, seq2).Ok? ==> r.Ok?
      ensures |seq1| > 0 && |seq2| > 0 && Known(seq1) && Known(seq2) ==>
        && r.Ok?
        && Consumed1(r.value.actions) <= |seq1| && Consumed2(r.value.actions) <= |seq2|
        && Columns(seq1, seq2, r.value.actions).Ok?
        && Strip(Columns(seq1, seq2, r.value.actions).value.0) == seq1[..Consumed1(r.value.actions)]
        && Strip(Columns(seq1, seq2, r.value.actions).value.1) == seq2[..Consumed2(r.value.actions)]
    {
      var dp := ScoreAndActions(sigma, alpha, beta, seq1, seq2);
      Outcome(sigma, alpha, beta, seq1, seq2);
      var sa :- dp;
      TopWithinBounds(sigma, alpha, beta, seq1, seq2, sa);
      ColumnsOk(seq1, seq2, sa.actions);
      if Known(seq1) && Known(seq2) {
        KnownHasNoGaps(seq1);
        KnownHasNoGaps(seq2);
        ColumnsStrip(seq1, seq2, sa.actions);
      }
      var lines := RenderLines(seq1, seq2, sa.actions);
      r := Ok(Report(lines.value.0 + "\n" + lines.value.1, sa.score, sa.actions));
    }
  }
}
