/** Values and operations shared by the three variants of the pairwise DNA
    alignment engine: actions, the substitution lookup, the tie-breaking
    choice among scored candidates, the affine scoring of a trace, and the
    renderer that turns a trace into two gapped lines. */
module Alignment {

  /** The ways a run of the engine stops early. */
  datatype Error =
    | UnknownSymbol   // a symbol other than A, C, G, T reached the substitution lookup
    | EmptySequence   // the last symbol of an empty sequence was asked for
    | PopFromEmpty    // the renderer took a symbol from an exhausted sequence

  datatype Result<+T> = Ok(value: T) | Err(error: Error) {
    predicate IsFailure() { Err? }
    function PropagateFailure<U>(): Result<U> requires Err? { Err(error) }
    function Extract(): T requires Ok? { value }
  }

  /** One alignment column: a deletion takes a symbol of the first sequence
      against a gap, an insertion a symbol of the second against a gap, and
      a match one symbol of each. */
  datatype Action = Deletion | Insertion | Match

  /** An optimal score with the trace that reaches it, in left-to-right order. */
  datatype Scored = Scored(score: real, actions: seq<Action>)

  /** What the aligner hands back: both gapped lines joined by a newline,
      the score and the trace. */
  datatype Report = Report(alignment: string, score: real, actions: seq<Action>)

  datatype Option<T> = None | Some(value: T)

  /** One entry of the table of competing last actions: the action, the
      score it reaches and the trace leading up to it. */
  datatype Candidate = Candidate(action: Action, value: real, trace: seq<Action>)

  const Alphabet: string := "ACGT"
  const Gap: char := '_'

  /** A 4x4 substitution table, rows and columns in the order of Alphabet. */
  type Matrix = m: seq<seq<real>> | |m| == 4 && forall i :: 0 <= i < 4 ==> |m[i]| == 4
    witness [[0.0, 0.0, 0.0, 0.0], [0.0, 0.0, 0.0, 0.0], [0.0, 0.0, 0.0, 0.0], [0.0, 0.0, 0.0, 0.0]]

  predicate Known(s: seq<char>) {
    forall k :: 0 <= k < |s| ==> s[k] in Alphabet
  }

  /** A prefix of a sequence over the alphabet is over the alphabet. */
  lemma KnownPrefix(s: seq<char>, n: nat)
    requires Known(s) && n <= |s|
    ensures Known(s[..n])
  {
    forall k | 0 <= k < n
      ensures s[..n][k] in Alphabet
    {
      assert s[..n][k] == s[k];
    }
  }

  predicate NoGaps(s: seq<char>) {
    Gap !in s
  }

  /** A sequence holding a symbol outside the alphabet holds one in its
      prefix without the last symbol, or has it as its last symbol. */
  lemma UnknownSplit(s: seq<char>)
    requires |s| > 0 && !Known(s)
    ensures !Known(DropLast(s)) || s[|s| - 1] !in Alphabet
  {
    var k :| 0 <= k < |s| && s[k] !in Alphabet;
    if k < |s| - 1 {
      assert DropLast(s)[k] == s[k];
    }
  }

  /** The position of a symbol in the table's index dictionary. */
  function Index(c: char): (r: Result<nat>)
    ensures r.Ok? <==> c in Alphabet
    ensures r.Ok? ==> r.value < 4 && Alphabet[r.value] == c
    ensures r.Err? ==> r.error == UnknownSymbol
  {
    if c == 'A' then Ok(0)
    else if c == 'C' then Ok(1)
    else if c == 'G' then Ok(2)
    else if c == 'T' then Ok(3)
    else Err(UnknownSymbol)
  }

  /** The substitution score of the pair (a, b). */
  function ComputeSigma(sigma: Matrix, a: char, b: char): (r: Result<real>)
    ensures r.Ok? <==> a in Alphabet && b in Alphabet
    ensures r.Err? ==> r.error == UnknownSymbol
    ensures forall i, j :: 0 <= i < 4 && 0 <= j < 4 && Alphabet[i] == a && Alphabet[j] == b ==> r == Ok(sigma[i][j])
  {
    var i :- Index(a);
    var j :- Index(b);
    Ok(sigma[i][j])
  }

  /** The lookup as a plain number, for reference definitions that are only
      applied to symbols of the alphabet (0 elsewhere). */
  function Sigma(sigma: Matrix, a: char, b: char): real {
    match ComputeSigma(sigma, a, b)
    case Ok(v) => v
    case Err(_) => 0.0
  }

  /** A successful lookup yields Sigma. */
  lemma SigmaOk(sigma: Matrix, a: char, b: char)
    requires ComputeSigma(sigma, a, b).Ok?
    ensures ComputeSigma(sigma, a, b) == Ok(Sigma(sigma, a, b))
  {
  }

  /** `s[:-1]`: all but the last element (nothing left of an empty list). */
  function DropLast<T>(s: seq<T>): (r: seq<T>)
    ensures |s| > 0 ==> r == s[..|s| - 1]
    ensures |s| == 0 ==> r == []
  {
    if s == [] then [] else s[..|s| - 1]
  }

  /** The last symbol of a sequence, or the gap marker for an empty one. */
  function LastOf(s: seq<char>): char {
    if s == [] then Gap else s[|s| - 1]
  }

  /** How many symbols of the first sequence a trace consumes. */
  function Consumed1(t: seq<Action>): nat {
    multiset(t)[Deletion] + multiset(t)[Match]
  }

  /** How many symbols of the second sequence a trace consumes. */
  function Consumed2(t: seq<Action>): nat {
    multiset(t)[Insertion] + multiset(t)[Match]
  }

  /** n copies of one action, built by appending one at a time. */
  function Repeat(a: Action, n: nat): (r: seq<Action>)
    ensures |r| == n && forall k :: 0 <= k < n ==> r[k] == a
    ensures Consumed1(r) == (if a == Insertion then 0 else n)
    ensures Consumed2(r) == (if a == Deletion then 0 else n)
  {
    if n == 0 then [] else Repeat(a, n - 1) + [a]
  }

  /** The candidate the engine keeps: it reaches the maximum value (what
      `max` returns), and among the candidates reaching it it is the last in
      table order (what `[...][-1]` of the maximisers returns). */
  function Pick(cands: seq<Candidate>): (k: nat)
    requires |cands| > 0
    ensures k < |cands|
    ensures forall j :: 0 <= j < |cands| ==> cands[j].value <= cands[k].value
    ensures forall j :: k < j < |cands| ==> cands[j].value < cands[k].value
  {
    if |cands| == 1 then 0
    else
      var k := Pick(cands[..|cands| - 1]);
      if cands[|cands| - 1].value >= cands[k].value then |cands| - 1 else k
  }

  /** The entries of a table whose deletion, insertion and match slots may
      each be absent, in table order. */
  function Present(d: Option<Candidate>, i: Option<Candidate>, m: Option<Candidate>): (cands: seq<Candidate>)
    ensures |cands| <= 3
  {
    (if d.Some? then [d.value] else []) + (if i.Some? then [i.value] else []) + (if m.Some? then [m.value] else [])
  }

  /** The engine's choice among the deletion, insertion and match slots of a
      table: the best value wins, and among equal values the later slot. */
  function Choose(d: Option<Candidate>, i: Option<Candidate>, m: Option<Candidate>): (c: Candidate)
    requires d.Some? || i.Some? || m.Some?
    ensures (d.Some? && c == d.value) || (i.Some? && c == i.value) || (m.Some? && c == m.value)
    ensures d.Some? ==> d.value.value <= c.value
    ensures i.Some? ==> i.value.value <= c.value
    ensures m.Some? ==> m.value.value <= c.value
    ensures m.Some? && m.value.value == c.value ==> c == m.value
    ensures i.Some? && i.value.value == c.value && !(m.Some? && m.value.value == c.value) ==> c == i.value
  {
    if m.Some? && (d.None? || m.value.value >= d.value.value) && (i.None? || m.value.value >= i.value.value) then m.value
    else if i.Some? && (d.None? || i.value.value >= d.value.value) then i.value
    else d.value
  }

  /** Choose is the table rule of the source: take the maximum of the
      present values, then the last present entry reaching it. */
  lemma ChooseIsPick(d: Option<Candidate>, i: Option<Candidate>, m: Option<Candidate>)
    requires d.Some? || i.Some? || m.Some?
    ensures |Present(d, i, m)| > 0
    ensures Choose(d, i, m) == Present(d, i, m)[Pick(Present(d, i, m))]
  {
    var cands := Present(d, i, m);
    var k := Pick(cands);
    var c := Choose(d, i, m);
    assert cands[k] in cands;
    forall x | x in cands
      ensures x.value <= c.value
    {
    }
    if k < |cands| - 1 {
      assert cands[|cands| - 1].value < cands[k].value;
    }
  }

  /** One slot of a three-state table: the candidate of state `b` of a
      shorter problem, worth that problem's score plus what the column
      adds, or that problem's failure. */
  function Slot(b: Action, sub: Result<Scored>, add: real): (r: Result<Option<Candidate>>)
    ensures r.Ok? <==> sub.Ok?
    ensures r.Ok? ==> r.value == Some(Candidate(b, sub.value.score + add, sub.value.actions))
  {
    var p :- sub;
    Ok(Some(Candidate(b, p.score + add, p.actions)))
  }

  /** The engine's choice when all three slots of the table are present:
      the best value wins, and among equal values the later slot (deletion,
      insertion, match). The winner's trace gets its action appended. */
  function Settle(d: Candidate, i: Candidate, m: Candidate): (r: Scored)
    ensures |r.actions| > 0
    ensures
      var last := r.actions[|r.actions| - 1];
      && d.value <= r.score && i.value <= r.score && m.value <= r.score
      && (last == Match <==> m.value >= i.value && m.value >= d.value)
      && (last == Insertion <==> i.value > m.value && i.value >= d.value)
      && (last == Deletion <==> d.value > m.value && d.value > i.value)
      && (last == Match ==> r == Scored(m.value, m.trace + [Match]))
      && (last == Insertion ==> r == Scored(i.value, i.trace + [Insertion]))
      && (last == Deletion ==> r == Scored(d.value, d.trace + [Deletion]))
  {
    if m.value >= i.value && m.value >= d.value then Scored(m.value, m.trace + [Match])
    else if i.value >= d.value then Scored(i.value, i.trace + [Insertion])
    else Scored(d.value, d.trace + [Deletion])
  }

  /** Settle is the general table rule with every slot present, followed by
      appending the winner's action. */
  lemma SettleIsChoose(d: Candidate, i: Candidate, m: Candidate)
    requires d.action == Deletion && i.action == Insertion && m.action == Match
    ensures var c := Choose(Some(d), Some(i), Some(m)); Settle(d, i, m) == Extend(c, c.action)
  {
  }

  /** Extends the kept candidate's trace with an action and scores it. */
  function Extend(c: Candidate, a: Action): (r: Scored)
    ensures r.score == c.value && |r.actions| == |c.trace| + 1
    ensures r.actions[..|c.trace|] == c.trace && r.actions[|c.trace|] == a
  {
    Scored(c.value, c.trace + [a])
  }

  /** The marginal value of a gap action placed after `before`: `extend`
      when it continues a run of the same action, `open` otherwise. */
  function GapValue(open: real, extend: real, before: seq<Action>, a: Action): real {
    if before != [] && before[|before| - 1] == a then extend else open
  }

  /** The lengths at which a state of the three-state recursion may be
      asked: a match needs a symbol of each sequence, an insertion one of
      the second and a deletion one of the first. */
  predicate Fits(a: Action, s1: seq<char>, s2: seq<char>) {
    match a
    case Match => |s1| > 0 && |s2| > 0
    case Insertion => |s2| > 0
    case Deletion => |s1| > 0
  }

  /** What is left of the first sequence in front of a last column of
      action `a`. */
  function Rest1(a: Action, s1: seq<char>): seq<char> {
    if a == Insertion then s1 else DropLast(s1)
  }

  /** What is left of the second sequence in front of a last column of
      action `a`. */
  function Rest2(a: Action, s2: seq<char>): seq<char> {
    if a == Deletion then s2 else DropLast(s2)
  }

  /** What is left in front of a last column of sequences over A, C, G, T
      is over A, C, G, T. */
  lemma KnownRest(a: Action, s1: seq<char>, s2: seq<char>)
    requires Known(s1) && Known(s2)
    ensures Known(Rest1(a, s1)) && Known(Rest2(a, s2))
  {
    if |s1| > 0 {
      KnownPrefix(s1, |s1| - 1);
    }
    if |s2| > 0 {
      KnownPrefix(s2, |s2| - 1);
    }
  }

  /** What a last column of action `a` adds after a column of action `b`:
      the substitution score of the two last symbols for a match, `extend`
      for a gap continuing a run of its own kind and `open` for any other
      gap. */
  function StepValue(sigma: Matrix, open: real, extend: real, a: Action, b: Action, s1: seq<char>, s2: seq<char>): real {
    if a == Match then Sigma(sigma, LastOf(s1), LastOf(s2))
    else if a == b then extend
    else open
  }

  /** The affine score of a trace, read right to left over the prefixes it
      consumes: a match adds the substitution score of the two last symbols
      and a gap action adds its GapValue. With open == extend this is the
      linear gap score. Only meaningful when the trace consumes no more than
      the sequences hold (the lemmas about it say so). */
  function StepScore(sigma: Matrix, open: real, extend: real, s1: seq<char>, s2: seq<char>, t: seq<Action>): real
    decreases |t|
  {
    if t == [] then 0.0
    else
      var last, before := t[|t| - 1], t[..|t| - 1];
      match last
      case Match =>
        StepScore(sigma, open, extend, DropLast(s1), DropLast(s2), before) + Sigma(sigma, LastOf(s1), LastOf(s2))
      case Insertion =>
        StepScore(sigma, open, extend, s1, DropLast(s2), before) + GapValue(open, extend, before, last)
      case Deletion =>
        StepScore(sigma, open, extend, DropLast(s1), s2, before) + GapValue(open, extend, before, last)
  }

  /** Appending action `a` to a trace that ends with `b` adds what the
      column is worth after `b` to the score of the shorter problem. */
  lemma StepOnto(sigma: Matrix, open: real, extend: real, s1: seq<char>, s2: seq<char>, before: seq<Action>, a: Action, b: Action)
    requires before != [] && before[|before| - 1] == b
    ensures StepScore(sigma, open, extend, s1, s2, before + [a])
      == StepScore(sigma, open, extend, Rest1(a, s1), Rest2(a, s2), before) + StepValue(sigma, open, extend, a, b, s1, s2)
  {
    StepScoreAppend(sigma, open, extend, s1, s2, before, a);
  }

  /** StepOnto read on the whole trace: its score is the score of the
      trace in front of its last column on the shorter problem plus what
      that column is worth after the action before it. */
  lemma StepBack(sigma: Matrix, open: real, extend: real, s1: seq<char>, s2: seq<char>, t: seq<Action>)
    requires |t| > 1
    ensures StepScore(sigma, open, extend, s1, s2, t)
      == StepScore(sigma, open, extend, Rest1(t[|t| - 1], s1), Rest2(t[|t| - 1], s2), t[..|t| - 1])
        + StepValue(sigma, open, extend, t[|t| - 1], t[|t| - 2], s1, s2)
  {
    var before := t[..|t| - 1];
    assert t == before + [t[|t| - 1]];
    StepOnto(sigma, open, extend, s1, s2, before, t[|t| - 1], t[|t| - 2]);
  }

  /** A one-column trace is worth the substitution score of the two last
      symbols when it is a match, and an opened gap otherwise. */
  lemma StepAlone(sigma: Matrix, open: real, extend: real, s1: seq<char>, s2: seq<char>, a: Action)
    ensures StepScore(sigma, open, extend, s1, s2, [a]) == if a == Match then Sigma(sigma, LastOf(s1), LastOf(s2)) else open
  {
    assert [a] == [] + [a];
    StepScoreAppend(sigma, open, extend, s1, s2, [], a);
  }

  /** One more action at the end of a trace consumes one symbol of each
      sequence it takes from. */
  lemma ConsumedAppend(before: seq<Action>, a: Action)
    ensures Consumed1(before + [a]) == Consumed1(before) + (if a == Insertion then 0 else 1)
    ensures Consumed2(before + [a]) == Consumed2(before) + (if a == Deletion then 0 else 1)
  {
    assert multiset(before + [a]) == multiset(before) + multiset{a};
  }

  /** Two traces one after the other consume what each consumes. */
  lemma ConsumedConcat(p: seq<Action>, q: seq<Action>)
    ensures Consumed1(p + q) == Consumed1(p) + Consumed1(q)
    ensures Consumed2(p + q) == Consumed2(p) + Consumed2(q)
  {
    assert multiset(p + q) == multiset(p) + multiset(q);
  }

  /** What one more action at the end of a trace adds to its score. */
  lemma StepScoreAppend(sigma: Matrix, open: real, extend: real, s1: seq<char>, s2: seq<char>, before: seq<Action>, a: Action)
    ensures a == Match ==>
      StepScore(sigma, open, extend, s1, s2, before + [a])
      == StepScore(sigma, open, extend, DropLast(s1), DropLast(s2), before) + Sigma(sigma, LastOf(s1), LastOf(s2))
    ensures a == Insertion ==>
      StepScore(sigma, open, extend, s1, s2, before + [a])
      == StepScore(sigma, open, extend, s1, DropLast(s2), before) + GapValue(open, extend, before, a)
    ensures a == Deletion ==>
      StepScore(sigma, open, extend, s1, s2, before + [a])
      == StepScore(sigma, open, extend, DropLast(s1), s2, before) + GapValue(open, extend, before, a)
  {
    var t := before + [a];
    assert t[..|t| - 1] == before && t[|t| - 1] == a;
  }

  /** The length of the run of `a` at the end of a trace. */
  function TrailingRun(t: seq<Action>, a: Action): (n: nat)
    ensures n <= |t|
    ensures forall k :: |t| - n <= k < |t| ==> t[k] == a
    ensures n < |t| ==> t[|t| - n - 1] != a
  {
    if t == [] || t[|t| - 1] != a then 0 else TrailingRun(t[..|t| - 1], a) + 1
  }

  /** The cost of a run of n gap symbols as the sum of its marginal costs:
      `open` for the first symbol, `extend` for each further one. */
  function RunCost(open: real, extend: real, n: nat): real
    requires n >= 1
  {
    if n == 1 then open else RunCost(open, extend, n - 1) + extend
  }

  /** The summed marginal costs agree with the closed form open + extend * (n - 1). */
  lemma {:induction false} RunCostClosedForm(open: real, extend: real, n: nat)
    requires n >= 1
    ensures RunCost(open, extend, n) == open + extend * (n - 1) as real
  {
    if n > 1 {
      RunCostClosedForm(open, extend, n - 1);
      assert extend * (n - 1) as real == extend * (n - 2) as real + extend;
    }
  }

  /** A run costs its opening value plus its extension value once for every
      symbol after the first. */
  lemma {:induction false} RunCostScale(open: real, extend: real, n: nat)
    requires n >= 1
    ensures RunCost(open, extend, n) == open + Scale(extend, n - 1)
  {
    if n > 1 {
      RunCostScale(open, extend, n - 1);
    }
  }

  /** x added up n times: the linear gap value of n gap symbols. */
  function Scale(x: real, n: nat): real {
    if n == 0 then 0.0 else Scale(x, n - 1) + x
  }

  /** Scale is the product x * n. */
  lemma {:induction false} ScaleIsProduct(x: real, n: nat)
    ensures Scale(x, n) == x * n as real
  {
    if n > 0 {
      ScaleIsProduct(x, n - 1);
      assert x * n as real == x * (n - 1) as real + x;
    }
  }

  /** A run whose opening and extension values agree costs that value per symbol. */
  lemma {:induction false} RunCostLinear(x: real, n: nat)
    requires n >= 1
    ensures RunCost(x, x, n) == Scale(x, n)
  {
    if n > 1 {
      RunCostLinear(x, n - 1);
    }
  }

  /** A trailing run of n copies of `a` consumes n symbols of the sequences
      `a` takes from, on top of the trace before it. */
  lemma TrailingRunConsumes(t: seq<Action>, a: Action, n: nat)
    requires n <= |t|
    requires forall k :: |t| - n <= k < |t| ==> t[k] == a
    ensures Consumed1(t) == Consumed1(t[..|t| - n]) + Consumed1(Repeat(a, n))
    ensures Consumed2(t) == Consumed2(t[..|t| - n]) + Consumed2(Repeat(a, n))
  {
    assert t[|t| - n..] == Repeat(a, n);
    assert t == t[..|t| - n] + Repeat(a, n);
    assert multiset(t) == multiset(t[..|t| - n]) + multiset(Repeat(a, n));
  }

  /** The last action of a trace consumes one symbol of each sequence it
      takes from; the trace in front of it consumes the rest. */
  lemma FinalStep(t: seq<Action>)
    requires t != []
    ensures Consumed1(t[..|t| - 1]) == Consumed1(t) - (if t[|t| - 1] == Insertion then 0 else 1)
    ensures Consumed2(t[..|t| - 1]) == Consumed2(t) - (if t[|t| - 1] == Deletion then 0 else 1)
  {
    assert t == t[..|t| - 1] + [t[|t| - 1]];
    ConsumedAppend(t[..|t| - 1], t[|t| - 1]);
  }

  /** A trace that consumes both sequences exactly and ends with `a`
      leaves, in front of its last column, a trace that consumes exactly
      what is left in front of that column; when that trace is empty nothing
      is left, and otherwise its own last action fits what is left. */
  lemma Peel(t: seq<Action>, a: Action, s1: seq<char>, s2: seq<char>)
    requires Fits(a, s1, s2)
    requires t != [] && t[|t| - 1] == a
    requires Consumed1(t) == |s1| && Consumed2(t) == |s2|
    ensures Consumed1(t[..|t| - 1]) == |Rest1(a, s1)| && Consumed2(t[..|t| - 1]) == |Rest2(a, s2)|
    ensures t[..|t| - 1] == [] ==> |Rest1(a, s1)| == 0 && |Rest2(a, s2)| == 0
    ensures t[..|t| - 1] != [] ==> Fits(t[|t| - 2], Rest1(a, s1), Rest2(a, s2))
  {
    var before := t[..|t| - 1];
    FinalStep(t);
    if before != [] {
      FinalStep(before);
      assert before[|before| - 1] == t[|t| - 2];
    }
  }

  /** A trace ending in gap action `a` splits into its final run of k + 1
      actions `a` and the trace in front of it, which consumes k + 1 fewer
      symbols of the sequence `a` takes from. */
  lemma FinalRun(t: seq<Action>, a: Action) returns (k: nat)
    requires t != [] && t[|t| - 1] == a && a != Match
    ensures k < |t|
    ensures forall j :: |t| - (k + 1) <= j < |t| ==> t[j] == a
    ensures k + 1 < |t| ==> t[|t| - (k + 1) - 1] != a
    ensures a == Insertion ==>
      Consumed1(t[..|t| - (k + 1)]) == Consumed1(t) && Consumed2(t[..|t| - (k + 1)]) == Consumed2(t) - (k + 1)
    ensures a == Deletion ==>
      Consumed1(t[..|t| - (k + 1)]) == Consumed1(t) - (k + 1) && Consumed2(t[..|t| - (k + 1)]) == Consumed2(t)
  {
    var n := TrailingRun(t, a);
    k := n - 1;
    TrailingRunConsumes(t, a, k + 1);
  }

  /** A trailing run of n insertions scores RunCost(open, extend, n) on top
      of the trace before it. */
  lemma TrailingInsertionScore(sigma: Matrix, open: real, extend: real, s1: seq<char>, s2: seq<char>, t: seq<Action>, n: nat)
    requires 1 <= n <= |t| && n <= |s2|
    requires forall k :: |t| - n <= k < |t| ==> t[k] == Insertion
    requires n < |t| ==> t[|t| - n - 1] != Insertion
    ensures StepScore(sigma, open, extend, s1, s2, t)
      == StepScore(sigma, open, extend, s1, s2[..|s2| - n], t[..|t| - n]) + RunCost(open, extend, n)
  {
    EndingInsertionsScore(sigma, open, extend, s1, s2, t, n);
    RunCostScale(open, extend, n);
  }

  /** A trailing run of n deletions scores RunCost(open, extend, n) on top
      of the trace before it. */
  lemma TrailingDeletionScore(sigma: Matrix, open: real, extend: real, s1: seq<char>, s2: seq<char>, t: seq<Action>, n: nat)
    requires 1 <= n <= |t| && n <= |s1|
    requires forall k :: |t| - n <= k < |t| ==> t[k] == Deletion
    requires n < |t| ==> t[|t| - n - 1] != Deletion
    ensures StepScore(sigma, open, extend, s1, s2, t)
      == StepScore(sigma, open, extend, s1[..|s1| - n], s2, t[..|t| - n]) + RunCost(open, extend, n)
  {
    EndingDeletionsScore(sigma, open, extend, s1, s2, t, n);
    RunCostScale(open, extend, n);
  }

  /** A trace ending in n insertions: the first of them adds its
      GapValue after the trace before them, each further one adds `extend`. */
  lemma {:induction false} EndingInsertionsScore(sigma: Matrix, open: real, extend: real, s1: seq<char>, s2: seq<char>, t: seq<Action>, n: nat)
    requires 1 <= n <= |t| && n <= |s2|
    requires forall k :: |t| - n <= k < |t| ==> t[k] == Insertion
    ensures StepScore(sigma, open, extend, s1, s2, t)
      == StepScore(sigma, open, extend, s1, s2[..|s2| - n], t[..|t| - n]) + GapValue(open, extend, t[..|t| - n], Insertion) + Scale(extend, n - 1)
    decreases n
  {
    var before := t[..|t| - 1];
    assert t == before + [Insertion];
    var s2' := DropLast(s2);
    StepScoreAppend(sigma, open, extend, s1, s2, before, Insertion);
    assert StepScore(sigma, open, extend, s1, s2, t) == StepScore(sigma, open, extend, s1, s2', before) + GapValue(open, extend, before, Insertion);
    if n == 1 {
      assert before == t[..|t| - n] && s2' == s2[..|s2| - n];
      assert Scale(extend, 0) == 0.0;
    } else {
      assert before[..|before| - (n - 1)] == t[..|t| - n];
      assert before[|before| - 1] == Insertion;
      assert GapValue(open, extend, before, Insertion) == extend;
      EndingInsertionsScore(sigma, open, extend, s1, s2', before, n - 1);
      assert s2'[..|s2'| - (n - 1)] == s2[..|s2| - n];
      assert StepScore(sigma, open, extend, s1, s2', before) == StepScore(sigma, open, extend, s1, s2[..|s2| - n], t[..|t| - n]) + GapValue(open, extend, t[..|t| - n], Insertion) + Scale(extend, n - 2);
    }
  }

  /** A trace ending in n deletions: the first of them adds its
      GapValue after the trace before them, each further one adds `extend`. */
  lemma {:induction false} EndingDeletionsScore(sigma: Matrix, open: real, extend: real, s1: seq<char>, s2: seq<char>, t: seq<Action>, n: nat)
    requires 1 <= n <= |t| && n <= |s1|
    requires forall k :: |t| - n <= k < |t| ==> t[k] == Deletion
    ensures StepScore(sigma, open, extend, s1, s2, t)
      == StepScore(sigma, open, extend, s1[..|s1| - n], s2, t[..|t| - n]) + GapValue(open, extend, t[..|t| - n], Deletion) + Scale(extend, n - 1)
    decreases n
  {
    var before := t[..|t| - 1];
    assert t == before + [Deletion];
    var s1' := DropLast(s1);
    StepScoreAppend(sigma, open, extend, s1, s2, before, Deletion);
    assert StepScore(sigma, open, extend, s1, s2, t) == StepScore(sigma, open, extend, s1', s2, before) + GapValue(open, extend, before, Deletion);
    if n == 1 {
      assert before == t[..|t| - n] && s1' == s1[..|s1| - n];
      assert Scale(extend, 0) == 0.0;
    } else {
      assert before[..|before| - (n - 1)] == t[..|t| - n];
      assert before[|before| - 1] == Deletion;
      assert GapValue(open, extend, before, Deletion) == extend;
      EndingDeletionsScore(sigma, open, extend, s1', s2, before, n - 1);
      assert s1'[..|s1'| - (n - 1)] == s1[..|s1| - n];
      assert StepScore(sigma, open, extend, s1', s2, before) == StepScore(sigma, open, extend, s1[..|s1| - n], s2, t[..|t| - n]) + GapValue(open, extend, t[..|t| - n], Deletion) + Scale(extend, n - 2);
    }
  }

  /** A trace made of one run of n gap actions scores RunCost(open, extend, n). */
  lemma LoneRunScore(sigma: Matrix, open: real, extend: real, s1: seq<char>, s2: seq<char>, a: Action, n: nat)
    requires a != Match && n >= 1
    requires a == Deletion ==> n <= |s1|
    requires a == Insertion ==> n <= |s2|
    ensures StepScore(sigma, open, extend, s1, s2, Repeat(a, n)) == RunCost(open, extend, n)
  {
    var t := Repeat(a, n);
    assert t[..|t| - n] == [];
    if a == Deletion {
      TrailingDeletionScore(sigma, open, extend, s1, s2, t, n);
    } else {
      TrailingInsertionScore(sigma, open, extend, s1, s2, t, n);
    }
  }

  /** A trace that takes nothing from one sequence is a run of the gap
      action that takes from the other. */
  lemma OneSided(t: seq<Action>)
    ensures Consumed1(t) == 0 ==> t == Repeat(Insertion, |t|) && Consumed2(t) == |t|
    ensures Consumed2(t) == 0 ==> t == Repeat(Deletion, |t|) && Consumed1(t) == |t|
  {
    if Consumed1(t) == 0 {
      forall k | 0 <= k < |t|
        ensures t[k] == Insertion
      {
        assert t[k] in multiset(t);
      }
      assert t == Repeat(Insertion, |t|);
    }
    if Consumed2(t) == 0 {
      forall k | 0 <= k < |t|
        ensures t[k] == Deletion
      {
        assert t[k] in multiset(t);
      }
      assert t == Repeat(Deletion, |t|);
    }
  }

  /** With one sequence empty, a trace consuming both exactly is a single
      run over the other, worth one opening and an extension per further
      symbol; with both empty it is the empty trace. */
  lemma OneSidedScore(sigma: Matrix, open: real, extend: real, s1: seq<char>, s2: seq<char>, t: seq<Action>)
    requires |s1| == 0 || |s2| == 0
    requires Consumed1(t) == |s1| && Consumed2(t) == |s2|
    ensures |s1| > 0 ==> StepScore(sigma, open, extend, s1, s2, t) == open + Scale(extend, |s1| - 1)
    ensures |s2| > 0 ==> StepScore(sigma, open, extend, s1, s2, t) == open + Scale(extend, |s2| - 1)
    ensures |s1| == 0 && |s2| == 0 ==> t == []
  {
    OneSided(t);
    if |s1| > 0 {
      LoneRunScore(sigma, open, extend, s1, s2, Deletion, |s1|);
      RunCostScale(open, extend, |s1|);
    } else if |s2| > 0 {
      LoneRunScore(sigma, open, extend, s1, s2, Insertion, |s2|);
      RunCostScale(open, extend, |s2|);
    }
  }

  /** A trace built as p followed by a run of n copies of `a` ends in that
      run, and what comes before the run is p. */
  lemma RunSuffix(t: seq<Action>, p: seq<Action>, a: Action, n: nat)
    requires t == p + Repeat(a, n)
    ensures n <= |t| && t[..|t| - n] == p
    ensures forall j :: |t| - n <= j < |t| ==> t[j] == a
  {
    forall j | |t| - n <= j < |t|
      ensures t[j] == a
    {
      assert t[j] == Repeat(a, n)[j - |p|];
    }
  }

  /** The two gapped lines a trace renders to, consuming both sequences from
      the front; taking a symbol past the end of either sequence fails. */
  function Columns(s1: seq<char>, s2: seq<char>, t: seq<Action>): (r: Result<(string, string)>)
    ensures r.Ok? ==> |r.value.0| == |t| && |r.value.1| == |t|
    decreases |t|
  {
    if t == [] then Ok(([], []))
    else
      match t[0]
      case Deletion =>
        if |s1| == 0 then Err(PopFromEmpty)
        else
          var rest :- Columns(s1[1..], s2, t[1..]);
          Ok(([s1[0]] + rest.0, [Gap] + rest.1))
      case Insertion =>
        if |s2| == 0 then Err(PopFromEmpty)
        else
          var rest :- Columns(s1, s2[1..], t[1..]);
          Ok(([Gap] + rest.0, [s2[0]] + rest.1))
      case Match =>
        if |s1| == 0 || |s2| == 0 then Err(PopFromEmpty)
        else
          var rest :- Columns(s1[1..], s2[1..], t[1..]);
          Ok(([s1[0]] + rest.0, [s2[0]] + rest.1))
  }

  /** The first action of a trace consumes one symbol of each sequence it
      takes from; the rest consume the remainder. */
  lemma ConsumedFront(t: seq<Action>)
    requires t != []
    ensures Consumed1(t) == Consumed1(t[1..]) + (if t[0] == Insertion then 0 else 1)
    ensures Consumed2(t) == Consumed2(t[1..]) + (if t[0] == Deletion then 0 else 1)
  {
    assert t == [t[0]] + t[1..];
    assert multiset(t) == multiset{t[0]} + multiset(t[1..]);
  }

  /** Rendering succeeds exactly when the trace takes no more symbols from
      either sequence than it holds. */
  lemma {:induction false} ColumnsOk(s1: seq<char>, s2: seq<char>, t: seq<Action>)
    ensures Columns(s1, s2, t).Ok? <==> Consumed1(t) <= |s1| && Consumed2(t) <= |s2|
    decreases |t|
  {
    if t != [] {
      ConsumedFront(t);
      match t[0]
      case Deletion =>
        if |s1| > 0 {
          ColumnsOk(s1[1..], s2, t[1..]);
        }
      case Insertion =>
        if |s2| > 0 {
          ColumnsOk(s1, s2[1..], t[1..]);
        }
      case Match =>
        if |s1| > 0 && |s2| > 0 {
          ColumnsOk(s1[1..], s2[1..], t[1..]);
        }
    }
  }

  /** A line with its gap markers removed. */
  function Strip(line: string): (r: string)
    ensures |r| <= |line|
  {
    if line == [] then []
    else (if line[0] == Gap then [] else [line[0]]) + Strip(line[1..])
  }

  /** Stripping a line one symbol at a time from the front. */
  lemma StripFront(c: char, line: string)
    ensures Strip([c] + line) == (if c == Gap then [] else [c]) + Strip(line)
  {
    assert ([c] + line)[1..] == line;
  }

  /** A kept symbol in front of a line that strips to n symbols of the rest
      of s strips, with it, to n + 1 symbols of s. */
  lemma StripKept(line: string, s: seq<char>, n: nat)
    requires n < |s| && s[0] != Gap
    requires Strip(line) == s[1..][..n]
    ensures Strip([s[0]] + line) == s[..n + 1]
  {
    StripFront(s[0], line);
    assert s[..n + 1] == [s[0]] + s[1..][..n];
  }

  /** What is left of a sequence after a column that takes its first
      symbol, or does not. */
  function After(takes: bool, s: seq<char>): (r: seq<char>)
    ensures takes && |s| > 0 ==> r == s[1..]
    ensures !takes ==> r == s
  {
    if takes && s != [] then s[1..] else s
  }

  /** The cell a column shows for one sequence: its first symbol when the
      column takes it, a gap marker otherwise. */
  function Cell(takes: bool, s: seq<char>): (r: string)
    ensures takes && |s| > 0 ==> r == [s[0]]
    ensures !takes ==> r == [Gap]
  {
    if takes && s != [] then [s[0]] else [Gap]
  }

  /** Stripping one rendered line with one more cell in front: a taken
      symbol adds itself to the front of what the rest strips to, a gap
      marker adds nothing. */
  lemma StripLine(rest: string, s: seq<char>, takes: bool, n: nat)
    requires NoGaps(s) && (takes ==> |s| > 0)
    requires n <= |After(takes, s)| && Strip(rest) == After(takes, s)[..n]
    ensures n + (if takes then 1 else 0) <= |s|
    ensures Strip(Cell(takes, s) + rest) == s[..n + (if takes then 1 else 0)]
  {
    if takes {
      assert s[0] in s;
      StripKept(rest, s, n);
    } else {
      StripFront(Gap, rest);
    }
  }

  /** One column of a successful rendering: the first action puts its
      symbols, or a gap marker, in front of the rendering of the rest. */
  lemma ColumnsCons(s1: seq<char>, s2: seq<char>, t: seq<Action>)
    requires t != [] && Columns(s1, s2, t).Ok?
    ensures t[0] != Insertion ==> |s1| > 0
    ensures t[0] != Deletion ==> |s2| > 0
    ensures Columns(After(t[0] != Insertion, s1), After(t[0] != Deletion, s2), t[1..]).Ok?
    ensures
      var rest := Columns(After(t[0] != Insertion, s1), After(t[0] != Deletion, s2), t[1..]).value;
      Columns(s1, s2, t).value == (Cell(t[0] != Insertion, s1) + rest.0, Cell(t[0] != Deletion, s2) + rest.1)
  {
  }

  /** On sequences without gap markers, removing the markers from the
      rendered lines gives back the consumed part of each sequence. */
  lemma {:induction false} ColumnsStrip(s1: seq<char>, s2: seq<char>, t: seq<Action>)
    requires NoGaps(s1) && NoGaps(s2)
    requires Columns(s1, s2, t).Ok?
    ensures Consumed1(t) <= |s1| && Consumed2(t) <= |s2|
    ensures Strip(Columns(s1, s2, t).value.0) == s1[..Consumed1(t)]
    ensures Strip(Columns(s1, s2, t).value.1) == s2[..Consumed2(t)]
    decreases |t|
  {
    ColumnsOk(s1, s2, t);
    if t != [] {
      ConsumedFront(t);
      ColumnsCons(s1, s2, t);
      var a := t[0];
      ColumnsStrip(After(a != Insertion, s1), After(a != Deletion, s2), t[1..]);
      var rest := Columns(After(a != Insertion, s1), After(a != Deletion, s2), t[1..]).value;
      StripLine(rest.0, s1, a != Insertion, Consumed1(t[1..]));
      StripLine(rest.1, s2, a != Deletion, Consumed2(t[1..]));
    }
  }

  /** On sequences without gap markers, the top line shows a gap marker
      exactly where the trace inserts and the bottom line exactly where it
      deletes. */
  lemma {:induction false} ColumnsGaps(s1: seq<char>, s2: seq<char>, t: seq<Action>, k: nat)
    requires NoGaps(s1) && NoGaps(s2)
    requires Columns(s1, s2, t).Ok? && k < |t|
    ensures Columns(s1, s2, t).value.0[k] == Gap <==> t[k] == Insertion
    ensures Columns(s1, s2, t).value.1[k] == Gap <==> t[k] == Deletion
    decreases |t|
  {
    match t[0]
    case Deletion =>
      assert s1[0] in s1;
      if k > 0 {
        ColumnsGaps(s1[1..], s2, t[1..], k - 1);
      }
    case Insertion =>
      assert s2[0] in s2;
      if k > 0 {
        ColumnsGaps(s1, s2[1..], t[1..], k - 1);
      }
    case Match =>
      assert s1[0] in s1 && s2[0] in s2;
      if k > 0 {
        ColumnsGaps(s1[1..], s2[1..], t[1..], k - 1);
      }
  }

  /** Lines already rendered, put in front of the lines still to come. */
  function Prefixed(top: string, bottom: string, r: Result<(string, string)>): Result<(string, string)> {
    var lines :- r;
    Ok((top + lines.0, bottom + lines.1))
  }

  /** Rendering one more column moves it from the lines still to come onto
      the lines already rendered. */
  lemma PrefixedStep(top: string, bottom: string, x: char, y: char, r: Result<(string, string)>)
    ensures Prefixed(top, bottom, Prefixed([x], [y], r)) == Prefixed(top + [x], bottom + [y], r)
  {
    if r.Ok? {
      assert top + ([x] + r.value.0) == top + [x] + r.value.0;
      assert bottom + ([y] + r.value.1) == bottom + [y] + r.value.1;
    }
  }

  /** The renderer's loop: walks the trace, popping the front symbol of a
      private copy of each sequence and growing the two lines. */
  method RenderLines(s1: seq<char>, s2: seq<char>, actions: seq<Action>) returns (r: Result<(string, string)>)
    ensures r == Columns(s1, s2, actions)
  {
    var top, bottom := "", "";
    var rest1, rest2 := s1, s2;
    assert actions[0..] == actions;
    if Columns(s1, s2, actions).Ok? {
      var lines := Columns(s1, s2, actions).value;
      assert top + lines.0 == lines.0 && bottom + lines.1 == lines.1;
    }
    for i := 0 to |actions|
      invariant Columns(s1, s2, actions) == Prefixed(top, bottom, Columns(rest1, rest2, actions[i..]))
    {
      var t := actions[i..];
      assert t[0] == actions[i] && t[1..] == actions[i + 1..];
      match actions[i]
      case Deletion =>
        if |rest1| == 0 {
          return Err(PopFromEmpty);
        }
        PrefixedStep(top, bottom, rest1[0], Gap, Columns(rest1[1..], rest2, t[1..]));
        top, bottom := top + [rest1[0]], bottom + [Gap];
        rest1 := rest1[1..];
      case Insertion =>
        if |rest2| == 0 {
          return Err(PopFromEmpty);
        }
        PrefixedStep(top, bottom, Gap, rest2[0], Columns(rest1, rest2[1..], t[1..]));
        top, bottom := top + [Gap], bottom + [rest2[0]];
        rest2 := rest2[1..];
      case Match =>
        if |rest1| == 0 || |rest2| == 0 {
          return Err(PopFromEmpty);
        }
        PrefixedStep(top, bottom, rest1[0], rest2[0], Columns(rest1[1..], rest2[1..], t[1..]));
        top, bottom := top + [rest1[0]], bottom + [rest2[0]];
        rest1, rest2 := rest1[1..], rest2[1..];
    }
    assert actions[|actions|..] == [];
    assert top + [] == top && bottom + [] == bottom;
    r := Ok((top, bottom));
  }

  /** What the aligner reports for a result of its dynamic program: the
      rendered lines joined by a newline, the score and the trace. */
  function Rendered(s1: seq<char>, s2: seq<char>, dp: Result<Scored>): (r: Result<Report>)
    ensures dp.Err? ==> r == Err(dp.error)
    ensures dp.Ok? && Consumed1(dp.value.actions) <= |s1| && Consumed2(dp.value.actions) <= |s2| ==>
      r.Ok? && r.value.score == dp.value.score && r.value.actions == dp.value.actions
  {
    var sa :- dp;
    ColumnsOk(s1, s2, sa.actions);
    var lines :- Columns(s1, s2, sa.actions);
    Ok(Report(lines.0 + "\n" + lines.1, sa.score, sa.actions))
  }

  /** A report shows both sequences: its alignment is the two rendered
      lines of its trace joined by a newline, removing the gap markers from
      them gives back the sequences, and the markers sit exactly at the gap
      actions. */
  predicate Displays(s1: seq<char>, s2: seq<char>, rep: Report) {
    && Columns(s1, s2, rep.actions).Ok?
    && var top, bottom := Columns(s1, s2, rep.actions).value.0, Columns(s1, s2, rep.actions).value.1;
    && rep.alignment == top + "\n" + bottom
    && Strip(top) == s1 && Strip(bottom) == s2
    && forall k :: 0 <= k < |rep.actions| ==>
         (top[k] == Gap <==> rep.actions[k] == Insertion) && (bottom[k] == Gap <==> rep.actions[k] == Deletion)
  }

  /** Symbols of the alphabet are never the gap marker. */
  lemma KnownHasNoGaps(s: seq<char>)
    requires Known(s)
    ensures NoGaps(s)
  {
  }

  /** A trace that consumes both gap-free sequences exactly renders, and the
      report displays both sequences. */
  lemma RenderedExact(s1: seq<char>, s2: seq<char>, sa: Scored)
    requires NoGaps(s1) && NoGaps(s2)
    requires Consumed1(sa.actions) == |s1| && Consumed2(sa.actions) == |s2|
    ensures Rendered(s1, s2, Ok(sa)).Ok?
    ensures Rendered(s1, s2, Ok(sa)).value.score == sa.score
    ensures Rendered(s1, s2, Ok(sa)).value.actions == sa.actions
    ensures Displays(s1, s2, Rendered(s1, s2, Ok(sa)).value)
  {
    ColumnsOk(s1, s2, sa.actions);
    ColumnsStrip(s1, s2, sa.actions);
    assert s1[..|s1|] == s1 && s2[..|s2|] == s2;
    forall k | 0 <= k < |sa.actions|
      ensures Columns(s1, s2, sa.actions).value.0[k] == Gap <==> sa.actions[k] == Insertion
      ensures Columns(s1, s2, sa.actions).value.1[k] == Gap <==> sa.actions[k] == Deletion
    {
      ColumnsGaps(s1, s2, sa.actions, k);
    }
  }

  /** The constructor's copy of a sequence into a fresh list, one element
      appended at a time. */
  method CopyToList(s: seq<char>) returns (list: seq<char>)
    ensures list == s
  {
    list := [];
    for k := 0 to |s|
      invariant list == s[..k]
    {
      list := list + [s[k]];
    }
  }
}
