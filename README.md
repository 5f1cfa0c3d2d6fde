# Global pairwise DNA alignment, three ways

This project models the scoring engine of a small DNA alignment program.
The program aligns two DNA sequences end to end.
It returns the best score, an ordered trace of `match`, `insertion` and `deletion` actions, and the trace rendered as two gapped lines.
The scores come from a 4x4 substitution table over A, C, G, T and a gap value.
Three variants of the engine are modelled, one Dafny module each:

- `LinearGap` (`dp.py`): every gap symbol is worth the constant `delta`.
  Every cell takes the best of three predecessors.
- `AffineRuns` (`dp_bonus_1.py`): a run of `k + 1` gap symbols is worth `alpha + beta * k`.
  Every cell tries every length of the final insertion run and of the final deletion run.
  It keeps the best run of each kind, the shortest one among equal values, and settles between the two runs and the match.
- `ThreeState` (`dp_bonus_2.py`, as written): three mutually recursive states (match, insertion, deletion).
  A gap column adds `beta` after a column of its own kind and `alpha` after any other.
  `ThreeStateFixed` is the same recursion with the guards it evidently intends (see "## Findings").

The module `Alignment` holds the parts the three files share:
- the symbol lookup `compute_sigma`;
- the tie-breaking choice among candidates: the maximum wins, and among equal values the match, then the insertion, then the deletion;
- the renderer `pairwise_alignment`;
- the constructor's copy of the input lists.

It also holds `StepScore`, the reference score of an arbitrary trace:
- a match adds the substitution score of the two symbols it aligns;
- a gap action adds `open` when it starts a run and `extend` when it continues one;
- with `open == extend == delta` this is the linear score.

Each engine is a recursive function returning `Result<Scored>`, and lemmas tie it to `StepScore`:
- `LinearGap` and `ThreeStateFixed`: the trace consumes both sequences exactly, the score is that trace's score, and no other trace consuming both sequences scores more.
- `AffineRuns`: the trace consumes both sequences exactly and no other exact trace scores more; the score is the trace's own score when `alpha <= beta` (with `alpha > beta` it can be higher, see `AffineRuns.StackedRuns`).
- `ThreeState` as written: none of the three holds in general. A trace may skip a symbol, and its score may beat every exact trace (`ThreeState.SkipsFirstSymbol`, "## Findings"). What is proved is that a trace never takes more than either sequence holds.

Scores are `real`.
The source mixes integers and values like `2.5` and compares them with `==`; the model does the same arithmetic exactly.
Three errors can stop a run:
- `UnknownSymbol`, the lookup's `KeyError`, for a symbol outside A, C, G, T. It is raised only when the engine looks that symbol up.
  - `dp.py` and `dp_bonus_1.py` look symbols up only when both sequences are non-empty. With one sequence empty they return the gap run over the other, whatever its symbols: `["X"]` against `[]` gives one deletion (`LinearGap.OnlyFirst`, `AffineRuns.OnlyFirst`).
  - `dp_bonus_2.py` as written looks a symbol up only when some match state reaches it. On "XA" against "G" the X is never read and the run succeeds; the corrected guards do read it and fail (`ThreeState.UnreadSymbol`).
- `EmptySequence`, an `IndexError`, for the last symbol of an empty list. Only `dp_bonus_2.py` asks for one: with either sequence empty, its first lookup (dp_bonus_2.py:133) fails at `dna_sequence_1[-1]` when the first is empty and at `dna_sequence_2[-1]` when only the second is. It never returns an empty alignment.
- `PopFromEmpty`, when the renderer pops from an exhausted list.

The program has no other error: there is no separate error for an invalid gap model or for an inconsistent result.
It recurses without memoisation, and the model is that recursion.

## Model

| member | source | states |
|---|---|---|
| Alignment.Index | dp.py:178-182 | a symbol has an index exactly when it is one of A, C, G, T; the index is its position in that order, below 4; any other symbol fails with UnknownSymbol |
| Alignment.ComputeSigma | dp.py:175-187 | the lookup succeeds exactly when both symbols are in the alphabet, and then yields the table entry at their two positions; otherwise it fails with UnknownSymbol |
| Alignment.SigmaOk | dp_bonus_1.py:232-244 | a successful lookup yields the plain substitution score used by the reference scoring |
| Alignment.Repeat | dp.py:117-134 | the base-case action list holds n copies of one gap action and consumes n symbols of the sequence that action takes from, none of the other |
| Alignment.Pick | dp.py:156-165 | the kept entry reaches the maximum of the table, and every later entry is strictly below it (the last maximiser wins) |
| Alignment.Choose | dp_bonus_2.py:176-186 | the choice over the present slots is one of them and at least every other; a tying match wins, then a tying insertion |
| Alignment.ChooseIsPick | dp_bonus_2.py:177-183 | that choice is exactly "take the maximum, then the last present entry reaching it" in deletion, insertion, match order |
| Alignment.Settle | dp_bonus_1.py:213-226 | with all three entries present, the result is at least each of them; it ends in Match exactly when the match is not below either gap, in Insertion exactly when the insertion beats the match and is not below the deletion, and in Deletion otherwise; it is the winner's trace plus its action |
| Alignment.SettleIsChoose | dp_bonus_1.py:213-226 | settling all three entries is the general table rule followed by appending the winner's action |
| Alignment.StepAlone | dp_bonus_2.py:133-138 | a one-column trace scores the substitution value for a match and an opening gap value otherwise, as the base cases return |
| Alignment.StepOnto | dp_bonus_2.py:221-241 | a column appended after an action `b` adds the substitution score for a match, `extend` after a gap of its own kind and `open` after any other |
| Alignment.StepBack | dp_bonus_2.py:289-309 | the score of a trace is the score of the trace in front of its last column on the shorter problem plus what that column adds after the action before it |
| Alignment.TrailingInsertionScore | dp_bonus_1.py:159-176 | a trace ending in a maximal run of n insertions scores the trace before the run plus `open + extend * (n - 1)` |
| Alignment.TrailingDeletionScore | dp_bonus_1.py:188-205 | the same for a maximal final run of n deletions |
| Alignment.RunCostClosedForm | dp_bonus_1.py:168 | the summed marginal values of a run of n gap symbols equal `alpha + beta * (n - 1)` |
| Alignment.ScaleIsProduct | dp.py:120 | delta added once per gap symbol is `delta * n` |
| Alignment.RunCostLinear | dp.py:151-152 | with equal opening and extension values a run of n gap symbols is worth that value n times |
| Alignment.LoneRunScore | dp_bonus_1.py:120-137 | a trace made of one run of n gap actions scores `alpha + beta * (n - 1)` |
| Alignment.OneSidedScore | dp_bonus_1.py:111-139 | with one sequence empty every exact trace is the single run, worth one opening plus an extension per further symbol; with both empty it is the empty trace |
| Alignment.Columns | dp.py:72-93 | both rendered lines hold exactly one cell per action |
| Alignment.ColumnsOk | dp.py:72-93 | rendering succeeds exactly when the trace takes no more symbols from either sequence than it holds (`pop(0)` on an empty list fails otherwise) |
| Alignment.ColumnsStrip | dp.py:76-93 | on gap-free sequences, removing `_` from the top and bottom lines gives back the part of each sequence the trace consumes |
| Alignment.ColumnsGaps | dp.py:76-93 | on gap-free sequences, `_` appears in the top line exactly at insertions and in the bottom line exactly at deletions |
| Alignment.RenderLines | dp.py:61-93 | the loop popping from private copies and growing two strings computes exactly the rendering, including its failure |
| Alignment.Rendered | dp.py:58-98 | a failed engine run is passed on unchanged; a trace within both sequences renders, and the report carries the engine's score and trace |
| Alignment.RenderedExact | dp.py:58-98 | a trace consuming both gap-free sequences exactly renders to a report that displays both sequences, with the `_` markers at the gap actions |
| Alignment.CopyToList | dp.py:50-55 | appending the symbols one by one to an empty list yields the sequence itself, in order |
| LinearGap.Combine | dp.py:151-171 | the cell's result is at least each of the three predecessor values; it ends in Match exactly when the match is not below either gap, in Insertion exactly when the insertion beats the match and is not below the deletion, in Deletion otherwise, and is the winner's trace plus its action |
| LinearGap.ScoreAndActions | dp.py:102-171 | a successful result's trace consumes both sequences exactly; sequences over A, C, G, T always succeed; the only failure is UnknownSymbol |
| LinearGap.FromPredecessors | dp.py:142-171 | the same three facts for the recursive case |
| LinearGap.CombineConsumes | dp.py:166-169 | appending the winner's action to predecessors that consume exactly their shorter problems consumes exactly the whole problem |
| LinearGap.BothEmpty | dp.py:109-114 | two empty sequences give score 0 and no actions |
| LinearGap.OnlyFirst | dp.py:117-124 | an empty second sequence gives `delta * n` and n deletions |
| LinearGap.OnlySecond | dp.py:127-134 | an empty first sequence gives `delta * m` and m insertions |
| LinearGap.LoneRun | dp.py:117-136 | the base case as the sum of delta over the run |
| LinearGap.Predecessors | dp.py:142-171 | a successful cell has three successful shorter problems and known last symbols, and is their combination |
| LinearGap.TieBreak | dp.py:156-171 | the score is the maximum of the deletion, insertion and match values and equals one of them; the last action is Match on a tie with the match, Insertion on a tie between insertion and deletion only |
| LinearGap.Extends | dp.py:166-171 | the result is one predecessor's result with the winning action appended and its value added |
| LinearGap.CombineLast | dp.py:165-169 | the combination's last action names the predecessor whose trace and value it extends |
| LinearGap.ScoreIsTraceScore | dp.py:101-171 | the reported score equals the linear score of the reported trace |
| LinearGap.Optimal | dp.py:101-171 | no trace consuming both sequences exactly scores more than the reported score |
| LinearGap.MatchBound | dp.py:148-156 | the match predecessor plus the substitution score is at most the cell's score |
| LinearGap.InsertionBound | dp.py:147-156 | the insertion predecessor plus delta is at most the cell's score |
| LinearGap.DeletionBound | dp.py:146-156 | the deletion predecessor plus delta is at most the cell's score |
| LinearGap.FailsOnUnknown | dp.py:153 | non-empty sequences holding a symbol outside A, C, G, T fail with UnknownSymbol |
| LinearGap.FailsIff | dp.py:102-187 | the engine fails exactly when both sequences are non-empty and one holds an unknown symbol, and then with UnknownSymbol |
| LinearGap.Aligner.constructor | dp.py:46-55 | the object keeps the table, delta and copies of both sequences in order |
| LinearGap.Aligner.PairwiseAlignment | dp.py:58-98 | the report is the rendering of the engine's result; on sequences over A, C, G, T it succeeds, displays both sequences, consumes them exactly, scores its own trace, and no exact trace scores more |
| AffineRuns.ScoreAndActions | dp_bonus_1.py:105-228 | the run-length engine: a single gap run at `alpha + beta * (n - 1)` when one sequence is empty, otherwise the settled best of the match and the final runs. Its behaviour is stated by `AffineRuns.Consumes` (exact consumption), `AffineRuns.Optimal` (no exact trace scores more), `AffineRuns.FailsIff` (fails exactly on an unknown symbol with both sequences non-empty) and `AffineRuns.Reported` |
| AffineRuns.BestIndex | dp_bonus_1.py:178-181 | the chosen run is one of the candidates, reaches their maximum, and every shorter run is strictly below it (`list.index` finds the first maximiser) |
| AffineRuns.Runs | dp_bonus_1.py:159-176 | a successful run table holds one candidate per possible run length |
| AffineRuns.BothEmpty | dp_bonus_1.py:112-117 | two empty sequences give score 0 and no actions |
| AffineRuns.OnlyFirst | dp_bonus_1.py:120-127 | an empty second sequence gives the cost of one run of n deletions, with n deletions |
| AffineRuns.OnlySecond | dp_bonus_1.py:130-137 | an empty first sequence gives the cost of one run of m insertions, with m insertions |
| AffineRuns.LoneRun | dp_bonus_1.py:111-139 | the base case as `alpha + beta * (n - 1)` with the run of actions |
| AffineRuns.Predecessors | dp_bonus_1.py:142-228 | a successful cell has a successful match problem, known last symbols and full run tables, and settles the best deletion run, the best insertion run and the match |
| AffineRuns.RunValue | dp_bonus_1.py:162-176 | the candidate for a run of k + 1 gaps is worth its shorter problem's score plus the run's cost, and with the final action appended its trace is that problem's trace followed by k + 1 gap actions |
| AffineRuns.RunStartIs | dp_bonus_1.py:162-165 | the shorter problem in front of a run of k + 1 gaps drops the last k + 1 symbols of the sequence the gap takes from |
| AffineRuns.RunsEntry | dp_bonus_1.py:159-176 | entry k of a successful run table is the candidate for a run of k + 1 gaps |
| AffineRuns.RunsFail | dp_bonus_1.py:159-176 | a failing candidate makes the whole run table fail |
| AffineRuns.TieBreak | dp_bonus_1.py:213-228 | the score is the maximum of the best deletion run, the best insertion run and the match, and equals one of them; ties go to the match, then the insertion |
| AffineRuns.WinningRun | dp_bonus_1.py:178-226 | a result ending in a gap is a shorter problem's result followed by a run of k + 1 gaps, scoring that result plus the run's cost |
| AffineRuns.Consumes | dp_bonus_1.py:145-226 | the trace consumes both sequences exactly |
| AffineRuns.ConsumesMatch | dp_bonus_1.py:145-152 | the same for a result ending in a match |
| AffineRuns.ConsumesRun | dp_bonus_1.py:159-210 | the same for a result ending in a gap run |
| AffineRuns.ConsumesThen | dp_bonus_1.py:170-176 | the trace followed by more actions consumes both sequences plus what the extra actions take |
| AffineRuns.FailureSource | dp_bonus_1.py:149-210 | a failing cell fails with the error of its match problem, its lookup or one of its run tables |
| AffineRuns.RunsFailureSource | dp_bonus_1.py:159-176 | a failing run table fails with the error of one of its shorter problems |
| AffineRuns.KnownSucceeds | dp_bonus_1.py:105-228 | sequences over A, C, G, T always succeed |
| AffineRuns.KnownRunsSucceed | dp_bonus_1.py:159-205 | their run tables always succeed |
| AffineRuns.KnownRunSucceeds | dp_bonus_1.py:162-165 | their run candidates always succeed |
| AffineRuns.OnlyLookupFails | dp_bonus_1.py:232-244 | the only error the engine raises is UnknownSymbol |
| AffineRuns.RunsOnlyLookupFails | dp_bonus_1.py:159-205 | the only error a run table raises is UnknownSymbol |
| AffineRuns.FailsOnUnknown | dp_bonus_1.py:152 | non-empty sequences holding an unknown symbol fail |
| AffineRuns.FailsIff | dp_bonus_1.py:105-244 | the engine fails exactly when both sequences are non-empty and one holds an unknown symbol, and then with UnknownSymbol |
| AffineRuns.MatchBound | dp_bonus_1.py:149-152 | the match problem plus the substitution score is at most the cell's score |
| AffineRuns.RunBound | dp_bonus_1.py:159-213 | every run candidate, of every length and either kind, is at most the cell's score |
| AffineRuns.Optimal | dp_bonus_1.py:105-228 | no trace consuming both sequences exactly has a higher affine score than the reported score |
| AffineRuns.OptimalInsertionRun | dp_bonus_1.py:159-181 | the same for traces ending in insertions |
| AffineRuns.OptimalDeletionRun | dp_bonus_1.py:188-210 | the same for traces ending in deletions |
| AffineRuns.OptimalMatch | dp_bonus_1.py:149-152 | the same for traces ending in a match |
| AffineRuns.TraceWorthScore | dp_bonus_1.py:105-228 | when `alpha <= beta`, the reported score is at most the affine score of the reported trace |
| AffineRuns.ScoreIsTraceScore | dp_bonus_1.py:105-228 | when `alpha <= beta`, the reported score is the affine score of the reported trace |
| AffineRuns.StackedRuns | dp_bonus_1.py:159-226 | every run candidate adds `alpha` whatever action its shorter problem's trace ends with: with `alpha = 10`, `beta = 0` and an A/C score below 20, "A" against "CC" reports 30 for deletion, insertion, insertion, a trace whose affine score is 20 |
| AffineRuns.Reported | dp_bonus_1.py:105-228 | the trace consumes both sequences exactly, no exact trace scores more, and the score is the trace's own score when `alpha <= beta` |
| AffineRuns.Aligner.constructor | dp_bonus_1.py:48-58 | the object keeps the table, both gap values and copies of both sequences in order |
| AffineRuns.Aligner.PairwiseAlignment | dp_bonus_1.py:61-101 | the report is the rendering of the engine's result; on sequences over A, C, G, T it succeeds, displays both sequences, consumes them exactly and no exact trace scores more |
| ThreeState.MatchState | dp_bonus_2.py:122-189 | the as-written match state; `ThreeState.Unfold`, `ThreeState.Origin`, `ThreeState.Bound` and `ThreeState.BaseCase` state its one-step behaviour, `ThreeState.EndsWithOwnAction` that its trace ends in a match, `ThreeState.WithinBounds` that its trace stays within both sequences |
| ThreeState.InsertionState | dp_bonus_2.py:193-257 | the as-written insertion state, whose guards test the first sequence without its last symbol; stated by the same lemmas, with `ThreeState.SkipsFirstSymbol` showing the skipped symbol |
| ThreeState.DeletionState | dp_bonus_2.py:261-325 | the as-written deletion state, the mirror of the insertion state; stated by the same lemmas |
| ThreeState.ScoreAndActions | dp_bonus_2.py:99-118 | the as-written answer: `ThreeState.TopChoice` (last maximiser among the three states), `ThreeState.Outcome` (EmptySequence on empty input, success over A, C, G, T), `ThreeState.TopWithinBounds` and `ThreeState.SkipsFirstSymbol` |
| ThreeState.Unfold | dp_bonus_2.py:209-257 | away from the base case a successful state consulted at least one state of the shorter problem and extends the choice among them by its own action |
| ThreeState.Origin | dp_bonus_2.py:212-257 | away from the base case a state's result is one consulted state's result plus its own action and what the column adds; consulted states later in table order score strictly less |
| ThreeState.Bound | dp_bonus_2.py:244-245 | every consulted state plus what its column adds is at most the state's score |
| ThreeState.BaseCase | dp_bonus_2.py:204-206 | once both sequences have at most one symbol, a gap state returns `alpha` and its own action, and the match state the substitution score and a match, or UnknownSymbol |
| ThreeState.EndsWithOwnAction | dp_bonus_2.py:187 | every state's trace ends with the state's own action |
| ThreeState.Assemble | dp_bonus_2.py:212-257 | a state succeeds when the states it consults do and its own lookup does |
| ThreeState.KnownSucceeds | dp_bonus_2.py:122-325 | on sequences over A, C, G, T every state succeeds |
| ThreeState.WithinBounds | dp_bonus_2.py:193-257 | a state's trace never takes more symbols from either sequence than it holds |
| ThreeState.TopWithinBounds | dp_bonus_2.py:99-118 | the same for the answer's trace |
| ThreeState.TopChoice | dp_bonus_2.py:99-118 | the answer is one of the three states on the full sequences, at least each of them; a tying match wins, then a tying insertion |
| ThreeState.Outcome | dp_bonus_2.py:99-133 | an empty sequence fails with EmptySequence; non-empty sequences over A, C, G, T succeed |
| ThreeState.SkipsFirstSymbol | dp_bonus_2.py:204-215 | on "A" against "G", with `alpha < 0` and the A/G score below `alpha`, the answer is a lone insertion that never consumes the A, its rendering does not display the A, and it scores more than every trace consuming both sequences |
| ThreeState.UnreadSymbol | dp_bonus_2.py:122-328 | only symbols some match state reaches are looked up: "XA" against "G" succeeds as written, while the corrected guards reach the X and fail with UnknownSymbol |
| ThreeState.Aligner.constructor | dp_bonus_2.py:46-52 | the object keeps the table, both gap values and both sequences as given |
| ThreeState.Aligner.PairwiseAlignment | dp_bonus_2.py:55-95 | the report is the rendering of the engine's result; an empty sequence fails with EmptySequence; rendering never fails after a successful engine run; on sequences over A, C, G, T the lines show a prefix of each sequence, which may be shorter than the whole |
| ThreeStateFixed.MatchState | dp_bonus_2.py:122-189 | the match state under the corrected guards; `ThreeStateFixed.Consumes`, `ThreeStateFixed.TraceScore` and `ThreeStateFixed.Optimal` state that its trace is exact, scores its own affine score and is the best trace ending in a match |
| ThreeStateFixed.InsertionState | dp_bonus_2.py:193-257 | the insertion state under the corrected guards; the same three lemmas state exactness, trace score and optimality among traces ending in an insertion |
| ThreeStateFixed.DeletionState | dp_bonus_2.py:261-325 | the deletion state under the corrected guards; the same three lemmas for traces ending in a deletion |
| ThreeStateFixed.ScoreAndActions | dp_bonus_2.py:99-118 | the corrected answer: `ThreeStateFixed.Reported` (exact, scores its own trace, optimal), `ThreeStateFixed.TopChoice` and `ThreeStateFixed.Outcome` |
| ThreeStateFixed.Unfold | dp_bonus_2.py:209-257 | with the corrected guards, away from the base case a successful state extends the choice among its consulted states by its own action |
| ThreeStateFixed.Origin | dp_bonus_2.py:212-257 | the same one-step decomposition and tie rule as the as-written states, with the corrected guards |
| ThreeStateFixed.Bound | dp_bonus_2.py:244-245 | every consulted state plus what its column adds is at most the state's score |
| ThreeStateFixed.BaseCase | dp_bonus_2.py:204-206 | when nothing is left in front of the last column, a gap state returns `alpha` and the match state the substitution score, with its own action |
| ThreeStateFixed.EndsWithOwnAction | dp_bonus_2.py:255 | every state's trace ends with the state's own action |
| ThreeStateFixed.Assemble | dp_bonus_2.py:212-257 | a state succeeds when the states it consults and its lookup do |
| ThreeStateFixed.KnownSucceeds | dp_bonus_2.py:122-325 | on sequences over A, C, G, T every state succeeds |
| ThreeStateFixed.Consumes | dp_bonus_2.py:193-257 | every state's trace consumes both sequences exactly |
| ThreeStateFixed.TraceScore | dp_bonus_2.py:212-242 | every state's score is the affine score of its own trace |
| ThreeStateFixed.Optimal | dp_bonus_2.py:193-257 | no trace ending in the state's action and consuming both sequences exactly scores more than the state |
| ThreeStateFixed.Behind | dp_bonus_2.py:215 | a one-column exact trace means nothing is left in front of it; otherwise its previous action is one the corrected guard consults, and the trace in front is exact for the shorter problem |
| ThreeStateFixed.TopChoice | dp_bonus_2.py:99-118 | the answer is one of the three states, at least each of them; a tying match wins, then a tying insertion |
| ThreeStateFixed.Outcome | dp_bonus_2.py:99-133 | an empty sequence fails with EmptySequence; non-empty sequences over A, C, G, T succeed |
| ThreeStateFixed.TopOptimal | dp_bonus_2.py:99-118 | no trace consuming both sequences exactly scores more than the answer |
| ThreeStateFixed.Reported | dp_bonus_2.py:99-118 | the answer's trace consumes both sequences exactly, its score is that trace's affine score, and no exact trace scores more |
| ThreeStateFixed.Aligner.constructor | dp_bonus_2.py:46-52 | the object keeps the table, both gap values and both sequences as given |
| ThreeStateFixed.Aligner.PairwiseAlignment | dp_bonus_2.py:55-95 | with the corrected guards, on non-empty sequences over A, C, G, T the report succeeds, displays both sequences, consumes them exactly, scores its own trace, and no exact trace scores more; an empty sequence fails with EmptySequence |

## Left out

- The `main` functions of the three files are left out: example inputs, ANSI colour printing and table formatting.
- numpy: the substitution table is a 4x4 `seq<seq<real>>`, and a table of another shape cannot be given.
- Symbols are single characters. The program takes lists of one-character strings (dp_bonus_2.py:17-18); an element of another length, such as `"AC"`, cannot be represented. The program would fail on it in the lookup with `KeyError`, or, on one-sided input to `dp.py`, render it as two characters.
- Floating point is left out: scores are exact reals, so rounding and NaN in `max` and `==` are not modelled.
- The exponential running time of the unmemoised recursion is left out. The model is the recursion itself; no tabulated version is given.
- List aliasing is left out. Each recursive call builds fresh lists, so traces are immutable sequences. The `dp_bonus_2.py` constructor stores the caller's lists without copying; the model keeps values, so later changes by the caller are not modelled.
- Which of two possible failures is raised first is not observable in the model, because errors carry no payload. The order of the steps is still kept: in `dp.py` the lookup (line 153) follows all three recursive calls (lines 146-148); in `dp_bonus_1.py` it (line 152) follows the match recursion (line 149) and precedes the run recursions (lines 159-210), as `AffineRuns.Gather` orders them.
- AffineRuns.ScoreIsTraceScore: holds only when `alpha <= beta`. With `alpha > beta` the engine may put two runs of the same gap kind next to each other and charge each its own opening, so its score can exceed the affine score of its own trace (AffineRuns.StackedRuns shows it on "A" against "CC"). It is still at least that of every trace (AffineRuns.Optimal).
- AffineRuns.TraceWorthScore: stated under `alpha <= beta` for the same reason.
- AffineRuns.Reported: its equality with the trace's score is stated only when `alpha <= beta`, for the same reason.
- AffineRuns.Aligner.PairwiseAlignment: states the trace's own score only when `alpha <= beta`, for the same reason.
- ThreeState.Aligner.PairwiseAlignment: does not state exact consumption or optimality, which the as-written guards break (see "## Findings").
- ThreeState.Outcome: does not characterise every failure of the as-written recursion, only the empty-input error and success over A, C, G, T.

## Findings

| source | as written | input that shows it | evidently intended | confidence | as-written member | corrected member |
|---|---|---|---|---|---|---|
| dp_bonus_2.py:204-206, 215, 272-274, 283 | `insertion_dp` and `deletion_dp` test the lengths of both sequences without their last symbols. A gap state is therefore a base case as soon as both sequences have at most one symbol, and it consults states as if the symbol it does not consume were gone. | "A" against "G" with `alpha < 0` and the A/G substitution score below `alpha`: the answer is score `alpha` with the single action `insertion`. The A is never aligned, the rendering is `_` over `G`, and the score exceeds every alignment that uses both symbols. | A gap state is a base case only when nothing is left in front of its column. It consults a state of the shorter problem exactly when that problem leaves the state a symbol to consume. Every answer then consumes both sequences and is optimal for the affine score. | not executed | ThreeState.SkipsFirstSymbol | ThreeStateFixed.Reported |
