/** The aligner with an affine gap value: a run of k + 1 consecutive gap
    symbols of one kind is worth alpha + beta * k. At every cell the engine
    tries each possible length of the final run of insertions and of
    deletions, keeps the best length of each kind (the shortest among equal
    values), and settles between them and the match. */
module AffineRuns {
  import opened Alignment

  /** How long a final run of gap action `a` can be: the length of the
      sequence it takes from. */
  function Room(s1: string, s2: string, a: Action): nat {
    if a == Insertion then |s2| else |s1|
  }

  /** The position of the best run candidate: the highest value, and among
      equal values the first, that is the shortest run. */
  function BestIndex(cs: seq<Candidate>): (j: nat)
    requires |cs| > 0
    ensures j < |cs|
    ensures forall k :: 0 <= k < |cs| ==> cs[k].value <= cs[j].value
    ensures forall k :: 0 <= k < j ==> cs[k].value < cs[j].value
    decreases |cs|
  {
    if |cs| == 1 then 0
    else
      var b := BestIndex(cs[..|cs| - 1]);
      if cs[|cs| - 1].value > cs[b].value then |cs| - 1 else b
  }

  /** The best of a list of run candidates. */
  function Best(cs: seq<Candidate>): Candidate
    requires |cs| > 0
  {
    cs[BestIndex(cs)]
  }

  /** The best score for aligning s1 with s2 and the trace reaching it: a
      single gap run when either sequence is empty, the best of the match
      and the final runs otherwise. */
  function ScoreAndActions(sigma: Matrix, alpha: real, beta: real, s1: string, s2: string): Result<Scored>
    decreases |s1| + |s2|, 2, 0
  {
    if |s1| == 0 || |s2| == 0 then
      if |s1| != 0 then Ok(Scored(alpha + Scale(beta, |s1| - 1), Repeat(Deletion, |s1|)))
      else if |s2| != 0 then Ok(Scored(alpha + Scale(beta, |s2| - 1), Repeat(Insertion, |s2|)))
      else Ok(Scored(0.0, []))
    else
      FromPredecessors(sigma, alpha, beta, s1, s2)
  }

  /** Both sequences non-empty: the match candidate (the shorter problem
      without both last symbols plus their substitution score), then the
      best run of insertions and the best run of deletions, settled by the
      table rule. */
  function FromPredecessors(sigma: Matrix, alpha: real, beta: real, s1: string, s2: string): Result<Scored>
    requires |s1| > 0 && |s2| > 0
    decreases |s1| + |s2|, 1, 0
  {
    Gather(ScoreAndActions(sigma, alpha, beta, DropLast(s1), DropLast(s2)),
      ComputeSigma(sigma, s1[|s1| - 1], s2[|s2| - 1]),
      Runs(sigma, alpha, beta, s1, s2, Insertion, |s2|),
      Runs(sigma, alpha, beta, s1, s2, Deletion, |s1|))
  }

  /** A cell from its four ingredients, failing with the first that
      fails, in the order the engine computes them: the match's shorter
      problem, the lookup, the insertion runs, the deletion runs. */
  function Gather(mat: Result<Scored>, sub: Result<real>, ins: Result<seq<Candidate>>, del: Result<seq<Candidate>>): Result<Scored>
    requires ins.Ok? ==> |ins.value| > 0
    requires del.Ok? ==> |del.value| > 0
  {
    var m :- mat;
    var v :- sub;
    var i :- ins;
    var d :- del;
    Ok(Settle(Best(d), Best(i), Candidate(Match, m.score + v, m.actions)))
  }

  /** The shorter problem in front of a final run of k + 1 gap actions `a`:
      the sequence `a` takes from loses its last k + 1 symbols. */
  function RunStart(sigma: Matrix, alpha: real, beta: real, s1: string, s2: string, a: Action, k: nat): Result<Scored>
    requires a != Match && k < Room(s1, s2, a)
    decreases |s1| + |s2|, 0, 0
  {
    if a == Insertion then ScoreAndActions(sigma, alpha, beta, s1, s2[..|s2| - (k + 1)])
    else ScoreAndActions(sigma, alpha, beta, s1[..|s1| - (k + 1)], s2)
  }

  /** The candidate whose trace ends in a run of k + 1 gap actions `a`: the
      shorter problem's score plus alpha + beta * k, and its trace followed
      by k of the run's actions (the last one is appended when the
      candidate wins). */
  function RunFrom(sigma: Matrix, alpha: real, beta: real, s1: string, s2: string, a: Action, k: nat): Result<Candidate>
    requires a != Match && k < Room(s1, s2, a)
    decreases |s1| + |s2|, 0, 1
  {
    var prev :- RunStart(sigma, alpha, beta, s1, s2, a, k);
    Ok(Candidate(a, prev.score + alpha + Scale(beta, k), prev.actions + Repeat(a, k)))
  }

  /** The candidates for the final run of gap actions `a`, one per run
      length 1 to `count`, in order of length. */
  function Runs(sigma: Matrix, alpha: real, beta: real, s1: string, s2: string, a: Action, count: nat): (r: Result<seq<Candidate>>)
    requires a != Match && count <= Room(s1, s2, a)
    ensures r.Ok? ==> |r.value| == count
    decreases |s1| + |s2|, 0, count + 1
  {
    if count == 0 then Ok([])
    else
      var shorter :- Runs(sigma, alpha, beta, s1, s2, a, count - 1);
      var c :- RunFrom(sigma, alpha, beta, s1, s2, a, count - 1);
      Ok(shorter + [c])
  }

  /** Two empty sequences: score 0 and no actions. */
  lemma BothEmpty(sigma: Matrix, alpha: real, beta: real)
    ensures ScoreAndActions(sigma, alpha, beta, [], []) == Ok(Scored(0.0, []))
  {
  }

  /** A lone first sequence of n symbols: one run of n deletions, worth
      the cost of a run of n gap symbols, alpha + beta * (n - 1) by
      RunCostClosedForm. */
  lemma OnlyFirst(sigma: Matrix, alpha: real, beta: real, s: string)
    requires |s| > 0
    ensures ScoreAndActions(sigma, alpha, beta, s, []).Ok?
    ensures ScoreAndActions(sigma, alpha, beta, s, []).value.score == RunCost(alpha, beta, |s|)
    ensures ScoreAndActions(sigma, alpha, beta, s, []).value.actions == Repeat(Deletion, |s|)
  {
    LoneRun(sigma, alpha, beta, s, []);
    RunCostScale(alpha, beta, |s|);
  }

  /** A lone second sequence of n symbols: one run of n insertions, worth
      the cost of a run of n gap symbols, alpha + beta * (n - 1) by
      RunCostClosedForm. */
  lemma OnlySecond(sigma: Matrix, alpha: real, beta: real, s: string)
    requires |s| > 0
    ensures ScoreAndActions(sigma, alpha, beta, [], s).Ok?
    ensures ScoreAndActions(sigma, alpha, beta, [], s).value.score == RunCost(alpha, beta, |s|)
    ensures ScoreAndActions(sigma, alpha, beta, [], s).value.actions == Repeat(Insertion, |s|)
  {
    LoneRun(sigma, alpha, beta, [], s);
    RunCostScale(alpha, beta, |s|);
  }

  /** With one sequence empty the engine returns one gap run over the
      other, worth alpha plus beta added up once per further symbol. */
  lemma LoneRun(sigma: Matrix, alpha: real, beta: real, s1: string, s2: string)
    requires |s1| == 0 || |s2| == 0
    ensures |s1| > 0 ==>
      ScoreAndActions(sigma, alpha, beta, s1, s2) == Ok(Scored(alpha + Scale(beta, |s1| - 1), Repeat(Deletion, |s1|)))
    ensures |s2| > 0 ==>
      ScoreAndActions(sigma, alpha, beta, s1, s2) == Ok(Scored(alpha + Scale(beta, |s2| - 1), Repeat(Insertion, |s2|)))
  {
  }

  /** A successful cell is the settlement of the best deletion run, the best
      insertion run and the match, every one of them from a successful
      shorter problem. */
  lemma Predecessors(sigma: Matrix, alpha: real, beta: real, s1: string, s2: string, r: Scored)
    returns (mat: Scored, ins: seq<Candidate>, del: seq<Candidate>)
    requires |s1| > 0 && |s2| > 0
    requires ScoreAndActions(sigma, alpha, beta, s1, s2) == Ok(r)
    ensures ScoreAndActions(sigma, alpha, beta, DropLast(s1), DropLast(s2)) == Ok(mat)
    ensures s1[|s1| - 1] in Alphabet && s2[|s2| - 1] in Alphabet
    ensures Runs(sigma, alpha, beta, s1, s2, Insertion, |s2|) == Ok(ins)
    ensures Runs(sigma, alpha, beta, s1, s2, Deletion, |s1|) == Ok(del)
    ensures |ins| == |s2| && |del| == |s1|
    ensures r == Settle(Best(del), Best(ins), Candidate(Match, mat.score + Sigma(sigma, s1[|s1| - 1], s2[|s2| - 1]), mat.actions))
  {
    GatherOf(sigma, alpha, beta, s1, s2);
    GatherOk(ScoreAndActions(sigma, alpha, beta, DropLast(s1), DropLast(s2)), ComputeSigma(sigma, s1[|s1| - 1], s2[|s2| - 1]),
      Runs(sigma, alpha, beta, s1, s2, Insertion, |s2|),
      Runs(sigma, alpha, beta, s1, s2, Deletion, |s1|));
    mat := ScoreAndActions(sigma, alpha, beta, DropLast(s1), DropLast(s2)).value;
    ins := Runs(sigma, alpha, beta, s1, s2, Insertion, |s2|).value;
    del := Runs(sigma, alpha, beta, s1, s2, Deletion, |s1|).value;
    SigmaOk(sigma, s1[|s1| - 1], s2[|s2| - 1]);
    GatherValue(mat, Sigma(sigma, s1[|s1| - 1], s2[|s2| - 1]), ins, del);
  }

  /** With both sequences non-empty the engine combines its four
      ingredients. */
  lemma GatherOf(sigma: Matrix, alpha: real, beta: real, s1: string, s2: string)
    requires |s1| > 0 && |s2| > 0
    ensures ScoreAndActions(sigma, alpha, beta, s1, s2) == Gather(ScoreAndActions(sigma, alpha, beta, DropLast(s1), DropLast(s2)),
      ComputeSigma(sigma, s1[|s1| - 1], s2[|s2| - 1]),
      Runs(sigma, alpha, beta, s1, s2, Insertion, |s2|),
      Runs(sigma, alpha, beta, s1, s2, Deletion, |s1|))
  {
  }

  /** A cell succeeds only when its four ingredients do. */
  lemma GatherOk(mat: Result<Scored>, sub: Result<real>, ins: Result<seq<Candidate>>, del: Result<seq<Candidate>>)
    requires ins.Ok? ==> |ins.value| > 0
    requires del.Ok? ==> |del.value| > 0
    requires Gather(mat, sub, ins, del).Ok?
    ensures mat.Ok? && sub.Ok? && ins.Ok? && del.Ok?
  {
  }

  /** A cell of four successful ingredients settles them. */
  lemma GatherValue(mat: Scored, sub: real, ins: seq<Candidate>, del: seq<Candidate>)
    requires |ins| > 0 && |del| > 0
    ensures Gather(Ok(mat), Ok(sub), Ok(ins), Ok(del))
      == Ok(Settle(Best(del), Best(ins), Candidate(Match, mat.score + sub, mat.actions)))
  {
  }

  /** A run candidate is worth its shorter problem's score plus the cost of
      a run of k + 1 gap symbols, and once its action is appended its trace
      is that problem's trace followed by k + 1 gap actions. */
  lemma RunValue(sigma: Matrix, alpha: real, beta: real, s1: string, s2: string, a: Action, k: nat, c: Candidate)
    requires a != Match && k < Room(s1, s2, a)
    requires RunFrom(sigma, alpha, beta, s1, s2, a, k) == Ok(c)
    ensures RunStart(sigma, alpha, beta, s1, s2, a, k).Ok?
    ensures
      var prev := RunStart(sigma, alpha, beta, s1, s2, a, k).value;
      && c.value == prev.score + RunCost(alpha, beta, k + 1)
      && c.trace + [a] == prev.actions + Repeat(a, k + 1)
  {
    RunCostScale(alpha, beta, k + 1);
  }

  /** The problem a final run of k + 1 gap actions starts from. */
  lemma RunStartIs(sigma: Matrix, alpha: real, beta: real, s1: string, s2: string, a: Action, k: nat)
    requires a != Match && k < Room(s1, s2, a)
    ensures a == Insertion ==> RunStart(sigma, alpha, beta, s1, s2, a, k) == ScoreAndActions(sigma, alpha, beta, s1, s2[..|s2| - (k + 1)])
    ensures a == Deletion ==> RunStart(sigma, alpha, beta, s1, s2, a, k) == ScoreAndActions(sigma, alpha, beta, s1[..|s1| - (k + 1)], s2)
  {
  }

  /** Entry k of a successful run list is the candidate of the run of
      k + 1 gap actions. */
  lemma {:induction false} RunsEntry(sigma: Matrix, alpha: real, beta: real, s1: string, s2: string, a: Action, count: nat, cs: seq<Candidate>, k: nat)
    requires a != Match && count <= Room(s1, s2, a) && k < count
    requires Runs(sigma, alpha, beta, s1, s2, a, count) == Ok(cs)
    ensures RunFrom(sigma, alpha, beta, s1, s2, a, k) == Ok(cs[k])
    decreases count
  {
    var shorter := Runs(sigma, alpha, beta, s1, s2, a, count - 1).value;
    assert cs == shorter + [RunFrom(sigma, alpha, beta, s1, s2, a, count - 1).value];
    if k < count - 1 {
      RunsEntry(sigma, alpha, beta, s1, s2, a, count - 1, shorter, k);
    }
  }

  /** One failing run makes the run list fail. */
  lemma {:induction false} RunsFail(sigma: Matrix, alpha: real, beta: real, s1: string, s2: string, a: Action, count: nat, k: nat)
    requires a != Match && count <= Room(s1, s2, a) && k < count
    requires RunFrom(sigma, alpha, beta, s1, s2, a, k).Err?
    ensures Runs(sigma, alpha, beta, s1, s2, a, count).Err?
    decreases count
  {
    if k < count - 1 {
      RunsFail(sigma, alpha, beta, s1, s2, a, count - 1, k);
    } else {
      assert RunFrom(sigma, alpha, beta, s1, s2, a, count - 1).Err?;
    }
  }

  /** With both sequences non-empty the score is the best of the match and
      the two best runs, and ties go to the match, then to the insertions:
      the last action is a deletion only when the deletion run is strictly
      best. */
  lemma TieBreak(sigma: Matrix, alpha: real, beta: real, s1: string, s2: string, r: Scored, dels: seq<Candidate>, inss: seq<Candidate>, mat: Scored)
    requires |s1| > 0 && |s2| > 0
    requires ScoreAndActions(sigma, alpha, beta, s1, s2) == Ok(r)
    requires Runs(sigma, alpha, beta, s1, s2, Deletion, |s1|) == Ok(dels)
    requires Runs(sigma, alpha, beta, s1, s2, Insertion, |s2|) == Ok(inss)
    requires ScoreAndActions(sigma, alpha, beta, DropLast(s1), DropLast(s2)) == Ok(mat)
    ensures
      var d, i := Best(dels).value, Best(inss).value;
      var m := mat.score + Sigma(sigma, s1[|s1| - 1], s2[|s2| - 1]);
      && |r.actions| > 0
      && var last := r.actions[|r.actions| - 1];
      && d <= r.score && i <= r.score && m <= r.score
      && (r.score == d || r.score == i || r.score == m)
      && (last == Match <==> m >= i && m >= d)
      && (last == Insertion <==> i > m && i >= d)
      && (last == Deletion <==> d > m && d > i)
  {
    var mat', ins, del := Predecessors(sigma, alpha, beta, s1, s2, r);
  }

  /** When the engine's trace ends in a gap action, it ends in the winning
      run of that action: the trace of the shorter problem in front of the
      run followed by k + 1 gap actions, scored the shorter problem's score
      plus the run's cost. */
  lemma WinningRun(sigma: Matrix, alpha: real, beta: real, s1: string, s2: string, r: Scored, a: Action)
    returns (k: nat)
    requires |s1| > 0 && |s2| > 0 && a != Match
    requires ScoreAndActions(sigma, alpha, beta, s1, s2) == Ok(r)
    requires |r.actions| > 0 && r.actions[|r.actions| - 1] == a
    ensures k < Room(s1, s2, a)
    ensures RunStart(sigma, alpha, beta, s1, s2, a, k).Ok?
    ensures r.actions == RunStart(sigma, alpha, beta, s1, s2, a, k).value.actions + Repeat(a, k + 1)
    ensures r.score == RunStart(sigma, alpha, beta, s1, s2, a, k).value.score + RunCost(alpha, beta, k + 1)
  {
    var mat, ins, del := Predecessors(sigma, alpha, beta, s1, s2, r);
    var cs := if a == Insertion then ins else del;
    k := BestIndex(cs);
    assert r == Scored(cs[k].value, cs[k].trace + [a]);
    RunsEntry(sigma, alpha, beta, s1, s2, a, Room(s1, s2, a), cs, k);
    RunValue(sigma, alpha, beta, s1, s2, a, k, cs[k]);
  }

  /** The trace of a successful run consumes both sequences exactly. */
  lemma {:induction false} Consumes(sigma: Matrix, alpha: real, beta: real, s1: string, s2: string, r: Scored)
    requires ScoreAndActions(sigma, alpha, beta, s1, s2) == Ok(r)
    ensures Consumed1(r.actions) == |s1| && Consumed2(r.actions) == |s2|
    decreases |s1| + |s2|, 1
  {
    if |s1| > 0 && |s2| > 0 {
      var mat, ins, del := Predecessors(sigma, alpha, beta, s1, s2, r);
      var last := r.actions[|r.actions| - 1];
      if last == Match {
        ConsumesMatch(sigma, alpha, beta, s1, s2, r);
      } else {
        ConsumesRun(sigma, alpha, beta, s1, s2, r, last);
      }
    } else if |s1| > 0 {
      assert r.actions == Repeat(Deletion, |s1|);
    } else if |s2| > 0 {
      assert r.actions == Repeat(Insertion, |s2|);
    } else {
      assert r.actions == [];
    }
  }

  /** A successful trace ending in a match consumes both sequences exactly
      when the trace in front of the match does. */
  lemma {:induction false} ConsumesMatch(sigma: Matrix, alpha: real, beta: real, s1: string, s2: string, r: Scored)
    requires |s1| > 0 && |s2| > 0
    requires ScoreAndActions(sigma, alpha, beta, s1, s2) == Ok(r)
    requires |r.actions| > 0 && r.actions[|r.actions| - 1] == Match
    ensures Consumed1(r.actions) == |s1| && Consumed2(r.actions) == |s2|
    decreases |s1| + |s2|, 0
  {
    var mat, ins, del := Predecessors(sigma, alpha, beta, s1, s2, r);
    assert r.actions == mat.actions + [Match];
    ConsumesThen(sigma, alpha, beta, DropLast(s1), DropLast(s2), mat, [Match]);
  }

  /** A successful trace ending in a gap run consumes both sequences
      exactly when the trace in front of the run does. */
  lemma {:induction false} ConsumesRun(sigma: Matrix, alpha: real, beta: real, s1: string, s2: string, r: Scored, a: Action)
    requires |s1| > 0 && |s2| > 0 && a != Match
    requires ScoreAndActions(sigma, alpha, beta, s1, s2) == Ok(r)
    requires |r.actions| > 0 && r.actions[|r.actions| - 1] == a
    ensures Consumed1(r.actions) == |s1| && Consumed2(r.actions) == |s2|
    decreases |s1| + |s2|, 0
  {
    var k := WinningRun(sigma, alpha, beta, s1, s2, r, a);
    RunStartIs(sigma, alpha, beta, s1, s2, a, k);
    var prev := RunStart(sigma, alpha, beta, s1, s2, a, k).value;
    if a == Insertion {
      ConsumesThen(sigma, alpha, beta, s1, s2[..|s2| - (k + 1)], prev, Repeat(a, k + 1));
    } else {
      ConsumesThen(sigma, alpha, beta, s1[..|s1| - (k + 1)], s2, prev, Repeat(a, k + 1));
    }
  }

  /** A successful trace followed by more actions consumes its own
      sequences and then what the added actions take. */
  lemma {:induction false} ConsumesThen(sigma: Matrix, alpha: real, beta: real, s1: string, s2: string, r: Scored, more: seq<Action>)
    requires ScoreAndActions(sigma, alpha, beta, s1, s2) == Ok(r)
    ensures Consumed1(r.actions + more) == |s1| + Consumed1(more)
    ensures Consumed2(r.actions + more) == |s2| + Consumed2(more)
    decreases |s1| + |s2|, 2
  {
    Consumes(sigma, alpha, beta, s1, s2, r);
    ConsumedConcat(r.actions, more);
  }

  /** A failing cell fails with the error of the match's shorter problem,
      of the lookup, or of one of the best runs. */
  lemma FailureSource(sigma: Matrix, alpha: real, beta: real, s1: string, s2: string)
    requires |s1| > 0 && |s2| > 0
    requires ScoreAndActions(sigma, alpha, beta, s1, s2).Err?
    ensures
      var e := ScoreAndActions(sigma, alpha, beta, s1, s2).error;
      || ScoreAndActions(sigma, alpha, beta, DropLast(s1), DropLast(s2)) == Err(e)
      || ComputeSigma(sigma, s1[|s1| - 1], s2[|s2| - 1]) == Err(e)
      || Runs(sigma, alpha, beta, s1, s2, Insertion, |s2|) == Err(e)
      || Runs(sigma, alpha, beta, s1, s2, Deletion, |s1|) == Err(e)
  {
  }

  /** A failing run list fails with the error of one of its runs. */
  lemma RunsFailureSource(sigma: Matrix, alpha: real, beta: real, s1: string, s2: string, a: Action, count: nat)
    requires a != Match && count <= Room(s1, s2, a)
    requires Runs(sigma, alpha, beta, s1, s2, a, count).Err?
    ensures count > 0
    ensures
      var e := Runs(sigma, alpha, beta, s1, s2, a, count).error;
      || RunStart(sigma, alpha, beta, s1, s2, a, count - 1) == Err(e)
      || Runs(sigma, alpha, beta, s1, s2, a, count - 1) == Err(e)
  {
  }

  /** On sequences over A, C, G, T the engine succeeds. */
  lemma {:induction false} KnownSucceeds(sigma: Matrix, alpha: real, beta: real, s1: string, s2: string)
    requires Known(s1) && Known(s2)
    ensures ScoreAndActions(sigma, alpha, beta, s1, s2).Ok?
    decreases |s1| + |s2|, 1, 0
  {
    if |s1| > 0 && |s2| > 0 {
      KnownPrefix(s1, |s1| - 1);
      KnownPrefix(s2, |s2| - 1);
      KnownSucceeds(sigma, alpha, beta, DropLast(s1), DropLast(s2));
      KnownRunsSucceed(sigma, alpha, beta, s1, s2, Insertion, |s2|);
      KnownRunsSucceed(sigma, alpha, beta, s1, s2, Deletion, |s1|);
      assert s1[|s1| - 1] in Alphabet && s2[|s2| - 1] in Alphabet;
      if ScoreAndActions(sigma, alpha, beta, s1, s2).Err? {
        FailureSource(sigma, alpha, beta, s1, s2);
      }
    }
  }

  /** On sequences over A, C, G, T the list of the first `count` runs succeeds. */
  lemma {:induction false} KnownRunsSucceed(sigma: Matrix, alpha: real, beta: real, s1: string, s2: string, a: Action, count: nat)
    requires Known(s1) && Known(s2)
    requires a != Match && count <= Room(s1, s2, a)
    ensures Runs(sigma, alpha, beta, s1, s2, a, count).Ok?
    decreases |s1| + |s2|, 0, count + 1
  {
    if count > 0 {
      KnownRunSucceeds(sigma, alpha, beta, s1, s2, a, count - 1);
      KnownRunsSucceed(sigma, alpha, beta, s1, s2, a, count - 1);
      if Runs(sigma, alpha, beta, s1, s2, a, count).Err? {
        RunsFailureSource(sigma, alpha, beta, s1, s2, a, count);
      }
    }
  }

  /** On sequences over A, C, G, T the problem in front of every final run
      succeeds. */
  lemma {:induction false} KnownRunSucceeds(sigma: Matrix, alpha: real, beta: real, s1: string, s2: string, a: Action, k: nat)
    requires Known(s1) && Known(s2)
    requires a != Match && k < Room(s1, s2, a)
    ensures RunStart(sigma, alpha, beta, s1, s2, a, k).Ok?
    decreases |s1| + |s2|, 0, 0
  {
    RunStartIs(sigma, alpha, beta, s1, s2, a, k);
    if a == Insertion {
      KnownPrefix(s2, |s2| - (k + 1));
      KnownSucceeds(sigma, alpha, beta, s1, s2[..|s2| - (k + 1)]);
    } else {
      KnownPrefix(s1, |s1| - (k + 1));
      KnownSucceeds(sigma, alpha, beta, s1[..|s1| - (k + 1)], s2);
    }
  }

  /** The engine fails only with the lookup's error. */
  lemma {:induction false} OnlyLookupFails(sigma: Matrix, alpha: real, beta: real, s1: string, s2: string, e: Error)
    requires ScoreAndActions(sigma, alpha, beta, s1, s2) == Err(e)
    ensures e == UnknownSymbol
    decreases |s1| + |s2|, 1, 0
  {
    if |s1| > 0 && |s2| > 0 {
      FailureSource(sigma, alpha, beta, s1, s2);
      if ScoreAndActions(sigma, alpha, beta, DropLast(s1), DropLast(s2)) == Err(e) {
        OnlyLookupFails(sigma, alpha, beta, DropLast(s1), DropLast(s2), e);
      } else if Runs(sigma, alpha, beta, s1, s2, Insertion, |s2|) == Err(e) {
        RunsOnlyLookupFails(sigma, alpha, beta, s1, s2, Insertion, |s2|, e);
      } else if Runs(sigma, alpha, beta, s1, s2, Deletion, |s1|) == Err(e) {
        RunsOnlyLookupFails(sigma, alpha, beta, s1, s2, Deletion, |s1|, e);
      }
    }
  }

  /** The list of the first `count` runs fails only with the lookup's error. */
  lemma {:induction false} RunsOnlyLookupFails(sigma: Matrix, alpha: real, beta: real, s1: string, s2: string, a: Action, count: nat, e: Error)
    requires a != Match && count <= Room(s1, s2, a)
    requires Runs(sigma, alpha, beta, s1, s2, a, count) == Err(e)
    ensures e == UnknownSymbol
    decreases |s1| + |s2|, 0, count
  {
    RunsFailureSource(sigma, alpha, beta, s1, s2, a, count);
    var k := count - 1;
    if RunStart(sigma, alpha, beta, s1, s2, a, k) == Err(e) {
      RunStartIs(sigma, alpha, beta, s1, s2, a, k);
      if a == Insertion {
        OnlyLookupFails(sigma, alpha, beta, s1, s2[..|s2| - (k + 1)], e);
      } else {
        OnlyLookupFails(sigma, alpha, beta, s1[..|s1| - (k + 1)], s2, e);
      }
    } else {
      RunsOnlyLookupFails(sigma, alpha, beta, s1, s2, a, k, e);
    }
  }

  /** A symbol outside A, C, G, T anywhere in either sequence makes the
      engine fail once both sequences are non-empty: the run that takes
      every other symbol away brings it to the lookup. */
  lemma {:induction false} FailsOnUnknown(sigma: Matrix, alpha: real, beta: real, s1: string, s2: string)
    requires |s1| > 0 && |s2| > 0 && !(Known(s1) && Known(s2))
    ensures ScoreAndActions(sigma, alpha, beta, s1, s2).Err?
    decreases |s1| + |s2|
  {
    var s1', s2' := DropLast(s1), DropLast(s2);
    if !Known(s1) {
      UnknownSplit(s1);
    } else {
      UnknownSplit(s2);
    }
    if |s1| > 1 && !Known(s1') {
      FailsOnUnknown(sigma, alpha, beta, s1', s2);
      assert s1[..|s1| - 1] == s1';
      RunsFail(sigma, alpha, beta, s1, s2, Deletion, |s1|, 0);
    } else if |s2| > 1 && !Known(s2') {
      FailsOnUnknown(sigma, alpha, beta, s1, s2');
      assert s2[..|s2| - 1] == s2';
      RunsFail(sigma, alpha, beta, s1, s2, Insertion, |s2|, 0);
    }
  }

  /** The engine fails exactly when both sequences are non-empty and one of
      them holds a symbol outside A, C, G, T, and then with the lookup's
      error. */
  lemma FailsIff(sigma: Matrix, alpha: real, beta: real, s1: string, s2: string)
    ensures ScoreAndActions(sigma, alpha, beta, s1, s2).Err? <==> |s1| > 0 && |s2| > 0 && !(Known(s1) && Known(s2))
    ensures ScoreAndActions(sigma, alpha, beta, s1, s2).Err? ==> ScoreAndActions(sigma, alpha, beta, s1, s2).error == UnknownSymbol
  {
    if ScoreAndActions(sigma, alpha, beta, s1, s2).Err? {
      OnlyLookupFails(sigma, alpha, beta, s1, s2, ScoreAndActions(sigma, alpha, beta, s1, s2).error);
    }
    if |s1| > 0 && |s2| > 0 && !(Known(s1) && Known(s2)) {
      FailsOnUnknown(sigma, alpha, beta, s1, s2);
    } else if Known(s1) && Known(s2) {
      KnownSucceeds(sigma, alpha, beta, s1, s2);
    }
  }

  /** The match the engine weighs is worth no more than its score. */
  lemma MatchBound(sigma: Matrix, alpha: real, beta: real, s1: string, s2: string, r: Scored)
    requires |s1| > 0 && |s2| > 0
    requires ScoreAndActions(sigma, alpha, beta, s1, s2) == Ok(r)
    ensures ScoreAndActions(sigma, alpha, beta, DropLast(s1), DropLast(s2)).Ok?
    ensures ScoreAndActions(sigma, alpha, beta, DropLast(s1), DropLast(s2)).value.score + Sigma(sigma, LastOf(s1), LastOf(s2)) <= r.score
  {
    var mat, ins, del := Predecessors(sigma, alpha, beta, s1, s2, r);
  }

  /** Every final run the engine weighs is worth no more than its score. */
  lemma RunBound(sigma: Matrix, alpha: real, beta: real, s1: string, s2: string, r: Scored, a: Action, k: nat)
    requires |s1| > 0 && |s2| > 0 && a != Match && k < Room(s1, s2, a)
    requires ScoreAndActions(sigma, alpha, beta, s1, s2) == Ok(r)
    ensures RunStart(sigma, alpha, beta, s1, s2, a, k).Ok?
    ensures RunStart(sigma, alpha, beta, s1, s2, a, k).value.score + RunCost(alpha, beta, k + 1) <= r.score
  {
    var mat, ins, del := Predecessors(sigma, alpha, beta, s1, s2, r);
    var count := Room(s1, s2, a);
    var cs := if a == Insertion then ins else del;
    RunsEntry(sigma, alpha, beta, s1, s2, a, count, cs, k);
    RunValue(sigma, alpha, beta, s1, s2, a, k, cs[k]);
  }

  /** No trace that consumes both sequences exactly has an affine score
      (alpha to open a run, beta to extend it) above the engine's score. */
  lemma {:induction false} Optimal(sigma: Matrix, alpha: real, beta: real, s1: string, s2: string, r: Scored, t: seq<Action>)
    requires ScoreAndActions(sigma, alpha, beta, s1, s2) == Ok(r)
    requires Consumed1(t) == |s1| && Consumed2(t) == |s2|
    ensures StepScore(sigma, alpha, beta, s1, s2, t) <= r.score
    decreases |t|, 2
  {
    if |s1| == 0 || |s2| == 0 {
      OneSidedScore(sigma, alpha, beta, s1, s2, t);
    } else if t[|t| - 1] == Match {
      OptimalMatch(sigma, alpha, beta, s1, s2, r, t);
    } else if t[|t| - 1] == Insertion {
      OptimalInsertionRun(sigma, alpha, beta, s1, s2, r, t);
    } else {
      OptimalDeletionRun(sigma, alpha, beta, s1, s2, r, t);
    }
  }

  /** A trace ending in insertions scores at most the problem in front of
      its final run plus the run's cost, which is at most the engine's
      score. */
  lemma {:induction false} OptimalInsertionRun(sigma: Matrix, alpha: real, beta: real, s1: string, s2: string, r: Scored, t: seq<Action>)
    requires |s1| > 0 && |s2| > 0 && t != [] && t[|t| - 1] == Insertion
    requires ScoreAndActions(sigma, alpha, beta, s1, s2) == Ok(r)
    requires Consumed1(t) == |s1| && Consumed2(t) == |s2|
    ensures StepScore(sigma, alpha, beta, s1, s2, t) <= r.score
    decreases |t|, 1
  {
    var k := FinalRun(t, Insertion);
    RunBound(sigma, alpha, beta, s1, s2, r, Insertion, k);
    RunStartIs(sigma, alpha, beta, s1, s2, Insertion, k);
    var prev := RunStart(sigma, alpha, beta, s1, s2, Insertion, k).value;
    Optimal(sigma, alpha, beta, s1, s2[..|s2| - (k + 1)], prev, t[..|t| - (k + 1)]);
    OptimalInsertions(sigma, alpha, beta, s1, s2, t, k, prev.score, r.score);
  }

  /** A trace ending in deletions scores at most the problem in front of
      its final run plus the run's cost, which is at most the engine's
      score. */
  lemma {:induction false} OptimalDeletionRun(sigma: Matrix, alpha: real, beta: real, s1: string, s2: string, r: Scored, t: seq<Action>)
    requires |s1| > 0 && |s2| > 0 && t != [] && t[|t| - 1] == Deletion
    requires ScoreAndActions(sigma, alpha, beta, s1, s2) == Ok(r)
    requires Consumed1(t) == |s1| && Consumed2(t) == |s2|
    ensures StepScore(sigma, alpha, beta, s1, s2, t) <= r.score
    decreases |t|, 1
  {
    var k := FinalRun(t, Deletion);
    RunBound(sigma, alpha, beta, s1, s2, r, Deletion, k);
    RunStartIs(sigma, alpha, beta, s1, s2, Deletion, k);
    var prev := RunStart(sigma, alpha, beta, s1, s2, Deletion, k).value;
    Optimal(sigma, alpha, beta, s1[..|s1| - (k + 1)], s2, prev, t[..|t| - (k + 1)]);
    OptimalDeletions(sigma, alpha, beta, s1, s2, t, k, prev.score, r.score);
  }

  /** A trace ending in a match scores at most the match candidate. */
  lemma {:induction false} OptimalMatch(sigma: Matrix, alpha: real, beta: real, s1: string, s2: string, r: Scored, t: seq<Action>)
    requires |s1| > 0 && |s2| > 0 && t != [] && t[|t| - 1] == Match
    requires ScoreAndActions(sigma, alpha, beta, s1, s2) == Ok(r)
    requires Consumed1(t) == |s1| && Consumed2(t) == |s2|
    ensures StepScore(sigma, alpha, beta, s1, s2, t) <= r.score
    decreases |t|, 0
  {
    FinalStep(t);
    MatchBound(sigma, alpha, beta, s1, s2, r);
    var mat := ScoreAndActions(sigma, alpha, beta, DropLast(s1), DropLast(s2)).value;
    Optimal(sigma, alpha, beta, DropLast(s1), DropLast(s2), mat, t[..|t| - 1]);
  }

  /** A trace ending in a run of exactly k + 1 insertions scores at most
      what the trace in front of the run scores plus the run's cost. */
  lemma OptimalInsertions(sigma: Matrix, alpha: real, beta: real, s1: string, s2: string, t: seq<Action>,
                          k: nat, before: real, bound: real)
    requires k < |t| && k < |s2|
    requires forall j :: |t| - (k + 1) <= j < |t| ==> t[j] == Insertion
    requires k + 1 < |t| ==> t[|t| - (k + 1) - 1] != Insertion
    requires StepScore(sigma, alpha, beta, s1, s2[..|s2| - (k + 1)], t[..|t| - (k + 1)]) <= before
    requires before + RunCost(alpha, beta, k + 1) <= bound
    ensures StepScore(sigma, alpha, beta, s1, s2, t) <= bound
  {
    TrailingInsertionScore(sigma, alpha, beta, s1, s2, t, k + 1);
  }

  /** A trace ending in a run of exactly k + 1 deletions scores at most
      what the trace in front of the run scores plus the run's cost. */
  lemma OptimalDeletions(sigma: Matrix, alpha: real, beta: real, s1: string, s2: string, t: seq<Action>,
                         k: nat, before: real, bound: real)
    requires k < |t| && k < |s1|
    requires forall j :: |t| - (k + 1) <= j < |t| ==> t[j] == Deletion
    requires k + 1 < |t| ==> t[|t| - (k + 1) - 1] != Deletion
    requires StepScore(sigma, alpha, beta, s1[..|s1| - (k + 1)], s2, t[..|t| - (k + 1)]) <= before
    requires before + RunCost(alpha, beta, k + 1) <= bound
    ensures StepScore(sigma, alpha, beta, s1, s2, t) <= bound
  {
    TrailingDeletionScore(sigma, alpha, beta, s1, s2, t, k + 1);
  }

  /** When opening a run is worth no more than extending one, the engine's
      trace is worth at least its score: no run it builds is better split
      in two. */
  lemma {:induction false} TraceWorthScore(sigma: Matrix, alpha: real, beta: real, s1: string, s2: string, r: Scored)
    requires alpha <= beta
    requires ScoreAndActions(sigma, alpha, beta, s1, s2) == Ok(r)
    ensures r.score <= StepScore(sigma, alpha, beta, s1, s2, r.actions)
    decreases |s1| + |s2|, 1
  {
    if |s1| == 0 || |s2| == 0 {
      Consumes(sigma, alpha, beta, s1, s2, r);
      OneSidedScore(sigma, alpha, beta, s1, s2, r.actions);
    } else {
      var mat, ins, del := Predecessors(sigma, alpha, beta, s1, s2, r);
      var a := r.actions[|r.actions| - 1];
      if a == Match {
        TraceWorthMatch(sigma, alpha, beta, s1, s2, r);
      } else {
        var k := WinningRun(sigma, alpha, beta, s1, s2, r, a);
        var prev := RunStart(sigma, alpha, beta, s1, s2, a, k).value;
        RunStartIs(sigma, alpha, beta, s1, s2, a, k);
        if a == Insertion {
          TraceWorthInsertions(sigma, alpha, beta, s1, s2, r, k, prev);
        } else {
          TraceWorthDeletions(sigma, alpha, beta, s1, s2, r, k, prev);
        }
      }
    }
  }

  /** The engine's trace ending in a match is worth its score when the
      shorter trace before it is. */
  lemma {:induction false} TraceWorthMatch(sigma: Matrix, alpha: real, beta: real, s1: string, s2: string, r: Scored)
    requires alpha <= beta && |s1| > 0 && |s2| > 0
    requires ScoreAndActions(sigma, alpha, beta, s1, s2) == Ok(r)
    requires |r.actions| > 0 && r.actions[|r.actions| - 1] == Match
    ensures r.score <= StepScore(sigma, alpha, beta, s1, s2, r.actions)
    decreases |s1| + |s2|, 0
  {
    var mat, ins, del := Predecessors(sigma, alpha, beta, s1, s2, r);
    assert r.actions == mat.actions + [Match];
    assert r.score == mat.score + Sigma(sigma, LastOf(s1), LastOf(s2));
    StepScoreAppend(sigma, alpha, beta, s1, s2, mat.actions, Match);
    TraceWorthScore(sigma, alpha, beta, DropLast(s1), DropLast(s2), mat);
  }

  /** The engine's trace ending in a run of k + 1 insertions is worth its
      score when the trace before the run is. */
  lemma {:induction false} TraceWorthInsertions(sigma: Matrix, alpha: real, beta: real, s1: string, s2: string, r: Scored, k: nat, prev: Scored)
    requires alpha <= beta && k < |s2|
    requires ScoreAndActions(sigma, alpha, beta, s1, s2[..|s2| - (k + 1)]) == Ok(prev)
    requires r.actions == prev.actions + Repeat(Insertion, k + 1)
    requires r.score == prev.score + RunCost(alpha, beta, k + 1)
    ensures r.score <= StepScore(sigma, alpha, beta, s1, s2, r.actions)
    decreases |s1| + |s2|, 0
  {
    TraceWorthScore(sigma, alpha, beta, s1, s2[..|s2| - (k + 1)], prev);
    RunWorthInsertions(sigma, alpha, beta, s1, s2, prev.actions, prev.score, k + 1);
  }

  /** The engine's trace ending in a run of k + 1 deletions is worth its
      score when the trace before the run is. */
  lemma {:induction false} TraceWorthDeletions(sigma: Matrix, alpha: real, beta: real, s1: string, s2: string, r: Scored, k: nat, prev: Scored)
    requires alpha <= beta && k < |s1|
    requires ScoreAndActions(sigma, alpha, beta, s1[..|s1| - (k + 1)], s2) == Ok(prev)
    requires r.actions == prev.actions + Repeat(Deletion, k + 1)
    requires r.score == prev.score + RunCost(alpha, beta, k + 1)
    ensures r.score <= StepScore(sigma, alpha, beta, s1, s2, r.actions)
    decreases |s1| + |s2|, 0
  {
    TraceWorthScore(sigma, alpha, beta, s1[..|s1| - (k + 1)], s2, prev);
    RunWorthDeletions(sigma, alpha, beta, s1, s2, prev.actions, prev.score, k + 1);
  }

  /** A run of n insertions appended to a trace p adds at least its run
      cost to p's value when opening is worth no more than extending: the
      run's first insertion is worth alpha or beta depending on what p ends
      with. */
  lemma RunWorthInsertions(sigma: Matrix, alpha: real, beta: real, s1: string, s2: string, p: seq<Action>, pscore: real, n: nat)
    requires alpha <= beta && 1 <= n <= |s2|
    requires pscore <= StepScore(sigma, alpha, beta, s1, s2[..|s2| - n], p)
    ensures pscore + RunCost(alpha, beta, n) <= StepScore(sigma, alpha, beta, s1, s2, p + Repeat(Insertion, n))
  {
    var t := p + Repeat(Insertion, n);
    RunSuffix(t, p, Insertion, n);
    RunCostScale(alpha, beta, n);
    assert alpha <= GapValue(alpha, beta, p, Insertion);
    EndingInsertionsScore(sigma, alpha, beta, s1, s2, t, n);
  }

  /** RunWorthInsertions for a run of n deletions. */
  lemma RunWorthDeletions(sigma: Matrix, alpha: real, beta: real, s1: string, s2: string, p: seq<Action>, pscore: real, n: nat)
    requires alpha <= beta && 1 <= n <= |s1|
    requires pscore <= StepScore(sigma, alpha, beta, s1[..|s1| - n], s2, p)
    ensures pscore + RunCost(alpha, beta, n) <= StepScore(sigma, alpha, beta, s1, s2, p + Repeat(Deletion, n))
  {
    var t := p + Repeat(Deletion, n);
    RunSuffix(t, p, Deletion, n);
    RunCostScale(alpha, beta, n);
    assert alpha <= GapValue(alpha, beta, p, Deletion);
    EndingDeletionsScore(sigma, alpha, beta, s1, s2, t, n);
  }

  /** With alpha above beta the engine can put two runs of one gap kind
      side by side and charge each its own opening. On "A" against "CC",
      with alpha = 10, beta = 0 and an A/C score below 20 (the scores of
      the program's own configuration qualify), it reports 30 for the trace
      deletion, insertion, insertion, whose two insertions form one run:
      that trace is worth 20. */
  lemma StackedRuns(sigma: Matrix)
    requires sigma[0][1] < 20.0
    ensures ScoreAndActions(sigma, 10.0, 0.0, "A", "CC") == Ok(Scored(30.0, [Deletion, Insertion, Insertion]))
    ensures StepScore(sigma, 10.0, 0.0, "A", "CC", [Deletion, Insertion, Insertion]) == 20.0
  {
    StackedSecond(sigma, "A", "CC");
    StackedTrace(sigma);
  }

  /** The trace of StackedRuns read by the reference score: two gap
      openings at 10 and one extension at 0. */
  lemma StackedTrace(sigma: Matrix)
    ensures StepScore(sigma, 10.0, 0.0, "A", "CC", [Deletion, Insertion, Insertion]) == 20.0
  {
    var t := [Deletion, Insertion, Insertion];
    assert t[..2] == [Deletion, Insertion];
    assert t[..2][..1] == [Deletion];
    assert [Deletion][..0] == [];
    assert DropLast("CC") == "C" && DropLast("C") == [] && DropLast("A") == [];
    assert StepScore(sigma, 10.0, 0.0, [], [], []) == 0.0;
    assert StepScore(sigma, 10.0, 0.0, "A", [], [Deletion]) == 10.0;
    assert StepScore(sigma, 10.0, 0.0, "A", "C", [Deletion, Insertion]) == 20.0;
  }

  /** A run candidate from the problem its run starts from. */
  lemma RunFromOf(sigma: Matrix, alpha: real, beta: real, s1: string, s2: string, a: Action, k: nat, prev: Scored)
    requires a != Match && k < Room(s1, s2, a)
    requires RunStart(sigma, alpha, beta, s1, s2, a, k) == Ok(prev)
    ensures RunFrom(sigma, alpha, beta, s1, s2, a, k) == Ok(Candidate(a, prev.score + alpha + Scale(beta, k), prev.actions + Repeat(a, k)))
  {
  }

  /** One more run length: the run list grows by that run's candidate. */
  lemma RunsSnoc(sigma: Matrix, alpha: real, beta: real, s1: string, s2: string, a: Action, count: nat, cs: seq<Candidate>, c: Candidate)
    requires a != Match && 0 < count <= Room(s1, s2, a)
    requires Runs(sigma, alpha, beta, s1, s2, a, count - 1) == Ok(cs)
    requires RunFrom(sigma, alpha, beta, s1, s2, a, count - 1) == Ok(c)
    ensures Runs(sigma, alpha, beta, s1, s2, a, count) == Ok(cs + [c])
  {
  }

  /** A cell whose four ingredients succeed is the settlement of the best
      runs and the match. */
  lemma CellOf(sigma: Matrix, alpha: real, beta: real, s1: string, s2: string, mat: Scored, v: real, ins: seq<Candidate>, del: seq<Candidate>)
    requires |s1| > 0 && |s2| > 0
    requires ScoreAndActions(sigma, alpha, beta, DropLast(s1), DropLast(s2)) == Ok(mat)
    requires ComputeSigma(sigma, s1[|s1| - 1], s2[|s2| - 1]) == Ok(v)
    requires Runs(sigma, alpha, beta, s1, s2, Insertion, |s2|) == Ok(ins)
    requires Runs(sigma, alpha, beta, s1, s2, Deletion, |s1|) == Ok(del)
    ensures |ins| > 0 && |del| > 0
    ensures ScoreAndActions(sigma, alpha, beta, s1, s2) == Ok(Settle(Best(del), Best(ins), Candidate(Match, mat.score + v, mat.actions)))
  {
    GatherOf(sigma, alpha, beta, s1, s2);
    GatherValue(mat, v, ins, del);
  }

  /** Sequences ending in A and in C look up row 0, column 1 of the table. */
  lemma LastAC(sigma: Matrix, s1: string, s2: string)
    requires |s1| > 0 && |s2| > 0 && s1[|s1| - 1] == 'A' && s2[|s2| - 1] == 'C'
    ensures ComputeSigma(sigma, s1[|s1| - 1], s2[|s2| - 1]) == Ok(sigma[0][1])
  {
    assert Index('A') == Ok(0) && Index('C') == Ok(1);
  }


  /** An insertion run above the match and no worse than the deletion run
      wins the cell. */
  lemma InsertionWins(d: Candidate, i: Candidate, m: Candidate)
    requires i.value > m.value && i.value >= d.value
    ensures Settle(d, i, m) == Scored(i.value, i.trace + [Insertion])
  {
  }

  /** The borders StackedRuns reads: lone gap runs, each opened once at 10
      and extended at 0. */
  lemma StackedBorder(sigma: Matrix)
    ensures ScoreAndActions(sigma, 10.0, 0.0, [], "C") == Ok(Scored(10.0, [Insertion]))
    ensures ScoreAndActions(sigma, 10.0, 0.0, [], "CC") == Ok(Scored(10.0, [Insertion, Insertion]))
    ensures ScoreAndActions(sigma, 10.0, 0.0, "A", []) == Ok(Scored(10.0, [Deletion]))
  {
    LoneRun(sigma, 10.0, 0.0, [], "C");
    LoneRun(sigma, 10.0, 0.0, [], "CC");
    LoneRun(sigma, 10.0, 0.0, "A", []);
    assert Scale(0.0, 0) == 0.0 && Scale(0.0, 1) == 0.0;
    assert Repeat(Insertion, 1) == [Insertion];
    assert Repeat(Insertion, 2) == [Insertion, Insertion];
    assert Repeat(Deletion, 1) == [Deletion];
  }

  /** The run list of length one: the run of a single gap action after
      the problem it starts from. */
  lemma RunsOne(sigma: Matrix, alpha: real, beta: real, s1: string, s2: string, a: Action, p0: Scored)
    requires a != Match && 0 < Room(s1, s2, a)
    requires RunStart(sigma, alpha, beta, s1, s2, a, 0) == Ok(p0)
    ensures Runs(sigma, alpha, beta, s1, s2, a, 1) == Ok([Candidate(a, p0.score + alpha, p0.actions)])
  {
    RunFromOf(sigma, alpha, beta, s1, s2, a, 0, p0);
    assert Repeat(a, 0) == [] && p0.actions + [] == p0.actions;
    var c := Candidate(a, p0.score + alpha, p0.actions);
    assert [] + [c] == [c];
    RunsSnoc(sigma, alpha, beta, s1, s2, a, 1, [], c);
  }

  /** The run list of length two: runs of one and of two gap actions. */
  lemma RunsTwo(sigma: Matrix, alpha: real, beta: real, s1: string, s2: string, a: Action, p0: Scored, p1: Scored)
    requires a != Match && 1 < Room(s1, s2, a)
    requires RunStart(sigma, alpha, beta, s1, s2, a, 0) == Ok(p0)
    requires RunStart(sigma, alpha, beta, s1, s2, a, 1) == Ok(p1)
    ensures Runs(sigma, alpha, beta, s1, s2, a, 2)
      == Ok([Candidate(a, p0.score + alpha, p0.actions), Candidate(a, p1.score + alpha + beta, p1.actions + [a])])
  {
    RunsOne(sigma, alpha, beta, s1, s2, a, p0);
    RunFromOf(sigma, alpha, beta, s1, s2, a, 1, p1);
    assert Scale(beta, 1) == beta && Repeat(a, 1) == [a];
    var c0, c1 := Candidate(a, p0.score + alpha, p0.actions), Candidate(a, p1.score + alpha + beta, p1.actions + [a]);
    RunsSnoc(sigma, alpha, beta, s1, s2, a, 2, [c0], c1);
    assert [c0] + [c1] == [c0, c1];
  }

  /** The run lists of the first cell of StackedRuns. */
  lemma StackedFirstRuns(sigma: Matrix, s1: string, s2: string)
    requires s1 == "A" && s2 == "C"
    ensures Runs(sigma, 10.0, 0.0, s1, s2, Insertion, 1) == Ok([Candidate(Insertion, 20.0, [Deletion])])
    ensures Runs(sigma, 10.0, 0.0, s1, s2, Deletion, 1) == Ok([Candidate(Deletion, 20.0, [Insertion])])
  {
    StackedBorder(sigma);
    assert s1[..0] == [] && s2[..0] == [];
    RunStartIs(sigma, 10.0, 0.0, s1, s2, Insertion, 0);
    RunStartIs(sigma, 10.0, 0.0, s1, s2, Deletion, 0);
    RunsOne(sigma, 10.0, 0.0, s1, s2, Insertion, Scored(10.0, [Deletion]));
    RunsOne(sigma, 10.0, 0.0, s1, s2, Deletion, Scored(10.0, [Insertion]));
  }

  /** The first cell of StackedRuns: "A" against "C" is a deletion and an
      insertion, worth 20; the insertion wins its tie with the deletion. */
  lemma StackedFirst(sigma: Matrix, s1: string, s2: string)
    requires sigma[0][1] < 20.0 && s1 == "A" && s2 == "C"
    ensures ScoreAndActions(sigma, 10.0, 0.0, s1, s2) == Ok(Scored(20.0, [Deletion, Insertion]))
  {
    StackedFirstRuns(sigma, s1, s2);
    var ins := [Candidate(Insertion, 20.0, [Deletion])];
    var del := [Candidate(Deletion, 20.0, [Insertion])];
    assert DropLast(s1) == [] && DropLast(s2) == [];
    LastAC(sigma, s1, s2);
    CellOf(sigma, 10.0, 0.0, s1, s2, Scored(0.0, []), sigma[0][1], ins, del);
    assert Best(ins) == ins[0] && Best(del) == del[0];
    InsertionWins(del[0], ins[0], Candidate(Match, 0.0 + sigma[0][1], []));
    assert [Deletion] + [Insertion] == [Deletion, Insertion];
  }

  /** The run lists of the second cell of StackedRuns. */
  lemma StackedSecondRuns(sigma: Matrix, s1: string, s2: string)
    requires sigma[0][1] < 20.0 && s1 == "A" && s2 == "CC"
    ensures Runs(sigma, 10.0, 0.0, s1, s2, Insertion, 2)
      == Ok([Candidate(Insertion, 30.0, [Deletion, Insertion]), Candidate(Insertion, 20.0, [Deletion, Insertion])])
    ensures Runs(sigma, 10.0, 0.0, s1, s2, Deletion, 1) == Ok([Candidate(Deletion, 20.0, [Insertion, Insertion])])
  {
    StackedBorder(sigma);
    StackedFirst(sigma, "A", "C");
    assert s2[..1] == "C" && s2[..0] == [] && s1[..0] == [];
    RunStartIs(sigma, 10.0, 0.0, s1, s2, Insertion, 0);
    RunStartIs(sigma, 10.0, 0.0, s1, s2, Insertion, 1);
    RunStartIs(sigma, 10.0, 0.0, s1, s2, Deletion, 0);
    RunsTwo(sigma, 10.0, 0.0, s1, s2, Insertion, Scored(20.0, [Deletion, Insertion]), Scored(10.0, [Deletion]));
    RunsOne(sigma, 10.0, 0.0, s1, s2, Deletion, Scored(10.0, [Insertion, Insertion]));
    assert [Deletion] + [Insertion] == [Deletion, Insertion];
  }

  /** The second cell of StackedRuns: "A" against "CC" extends the first
      cell, which already ends in an insertion, by an insertion run of
      length one with a fresh opening: 30. */
  lemma StackedSecond(sigma: Matrix, s1: string, s2: string)
    requires sigma[0][1] < 20.0 && s1 == "A" && s2 == "CC"
    ensures ScoreAndActions(sigma, 10.0, 0.0, s1, s2) == Ok(Scored(30.0, [Deletion, Insertion, Insertion]))
  {
    StackedBorder(sigma);
    StackedSecondRuns(sigma, s1, s2);
    var ins := [Candidate(Insertion, 30.0, [Deletion, Insertion]), Candidate(Insertion, 20.0, [Deletion, Insertion])];
    var del := [Candidate(Deletion, 20.0, [Insertion, Insertion])];
    var mat := Scored(10.0, [Insertion]);
    assert DropLast(s1) == [] && DropLast(s2) == "C";
    var m := Candidate(Match, mat.score + sigma[0][1], mat.actions);
    LastAC(sigma, s1, s2);
    CellOf(sigma, 10.0, 0.0, s1, s2, mat, sigma[0][1], ins, del);
    assert ins[..1] == [ins[0]] && BestIndex(ins) == 0;
    assert Best(ins) == ins[0] && Best(del) == del[0];
    InsertionWins(del[0], ins[0], m);
    assert [Deletion, Insertion] + [Insertion] == [Deletion, Insertion, Insertion];
    assert ScoreAndActions(sigma, 10.0, 0.0, s1, s2) == Ok(Settle(del[0], ins[0], m));
  }


  /** When opening a run is worth no more than extending one, the score is
      exactly the affine score of the engine's own trace, so the engine
      returns an optimal alignment. */
  lemma ScoreIsTraceScore(sigma: Matrix, alpha: real, beta: real, s1: string, s2: string, r: Scored)
    requires alpha <= beta
    requires ScoreAndActions(sigma, alpha, beta, s1, s2) == Ok(r)
    ensures r.score == StepScore(sigma, alpha, beta, s1, s2, r.actions)
  {
    Consumes(sigma, alpha, beta, s1, s2, r);
    Optimal(sigma, alpha, beta, s1, s2, r, r.actions);
    TraceWorthScore(sigma, alpha, beta, s1, s2, r);
  }

  /** What the aligner reports about a successful run: its trace consumes
      both sequences exactly, no trace consuming both scores more, and when
      opening a run is worth no more than extending one the score is its
      own trace's. */
  lemma Reported(sigma: Matrix, alpha: real, beta: real, s1: string, s2: string, sa: Scored)
    requires ScoreAndActions(sigma, alpha, beta, s1, s2) == Ok(sa)
    ensures Consumed1(sa.actions) == |s1| && Consumed2(sa.actions) == |s2|
    ensures forall t :: Consumed1(t) == |s1| && Consumed2(t) == |s2| ==>
      StepScore(sigma, alpha, beta, s1, s2, t) <= sa.score
    ensures alpha <= beta ==> sa.score == StepScore(sigma, alpha, beta, s1, s2, sa.actions)
  {
    Consumes(sigma, alpha, beta, s1, s2, sa);
    if alpha <= beta {
      ScoreIsTraceScore(sigma, alpha, beta, s1, s2, sa);
    }
    forall t | Consumed1(t) == |s1| && Consumed2(t) == |s2|
      ensures StepScore(sigma, alpha, beta, s1, s2, t) <= sa.score
    {
      Optimal(sigma, alpha, beta, s1, s2, sa, t);
    }
  }

  /** The aligner object: the substitution table, the run-opening and
      run-extending values and private copies of both sequences. */
  class Aligner {
    const sigma: Matrix
    const alpha: real
    const beta: real
    const seq1: string
    const seq2: string

    /** Stores the table and both gap values and copies both sequences
        symbol by symbol into fresh lists. */
    constructor (sigma: Matrix, alpha: real, beta: real, dna1: string, dna2: string)
      ensures this.sigma == sigma && this.alpha == alpha && this.beta == beta
      ensures seq1 == dna1 && seq2 == dna2
    {
      this.sigma := sigma;
      this.alpha := alpha;
      this.beta := beta;
      var copy1 := CopyToList(dna1);
      var copy2 := CopyToList(dna2);
      seq1 := copy1;
      seq2 := copy2;
    }

    /** Runs the dynamic program on the stored sequences and renders its
        trace. On sequences over A, C, G, T it succeeds, displays both
        sequences, consumes them exactly, and no trace consuming both scores
        more under the affine gap values; when opening a run is worth no
        more than extending one, the reported score is its own trace's. */
    method PairwiseAlignment() returns (r: Result<Report>)
      ensures r == Rendered(seq1, seq2, ScoreAndActions(sigma, alpha, beta, seq1, seq2))
      ensures Known(seq1) && Known(seq2) ==>
        && r.Ok?
        && Displays(seq1, seq2, r.value)
        && Consumed1(r.value.actions) == |seq1| && Consumed2(r.value.actions) == |seq2|
        && (forall t :: Consumed1(t) == |seq1| && Consumed2(t) == |seq2| ==>
              StepScore(sigma, alpha, beta, seq1, seq2, t) <= r.value.score)
        && (alpha <= beta ==> r.value.score == StepScore(sigma, alpha, beta, seq1, seq2, r.value.actions))
    {
      var dp := ScoreAndActions(sigma, alpha, beta, seq1, seq2);
      if Known(seq1) && Known(seq2) {
        KnownSucceeds(sigma, alpha, beta, seq1, seq2);
      }
      var sa :- dp;
      if Known(seq1) && Known(seq2) {
        KnownHasNoGaps(seq1);
        KnownHasNoGaps(seq2);
        Reported(sigma, alpha, beta, seq1, seq2, sa);
        RenderedExact(seq1, seq2, sa);
      }
      var lines :- RenderLines(seq1, seq2, sa.actions);
      r := Ok(Report(lines.0 + "\n" + lines.1, sa.score, sa.actions));
    }
  }
}
