# Reliability calculator — Dafny model

This project models the bookkeeping of a reliability calculator for an
assembly of electronic components, as implemented by the composable
`useReliabilityCalc` of the calculator's web front end. The calculator holds a
list of components (kind, quantity, per-unit failure rate, description), an
environment factor and a mission time. From these it computes:

- the system failure rate λ: the sum over the components of
  `failureRate × environmentFactor × quantity`, taken as a left fold from 0;
- the point reliability `exp(-λ × missionTime)`;
- the MTBF `1/λ`;
- a reliability curve sampled at `t = 0, 10, 20, …` while `t ≤ 500`.

It also edits the component list (append a default component of a kind,
remove one by index). It keeps a most-recent-first list of saved analyses
(save a snapshot, delete by id).

The reactive fields of the `useReliabilityCalc` composable become one
immutable `Calculator` value
(`reliability.dfy`); each operation is a pure function from the old value to
the new one. The modules follow the parts of the composable:

- `components.dfy` (`Components`): the component record, the default
  failure-rate table, `AddComponent` and `RemoveComponent`.
- `failure_rate.dfy` (`FailureRate`): the aggregation fold and a
  right-recursive reference sum it is proved equal to.
- `curve.dfy` (`Curve`): the curve sampling grid.
- `reliability.dfy` (`Reliability`): the result record, the calculator state
  and `CalculateReliability`.
- `analyses.dfy` (`Analyses`): the saved-analysis list.

The exponential function is a parameter `exp: real -> real` of every
operation that uses it. Nothing is assumed about it, except in
`Curve.CurveDecreasing`, which states its hypotheses (`exp` strictly
increasing, `exp(0) == 1`) as preconditions. Numbers are Dafny `real`s;
quantities and curve times are `int`s. The field the source calls `type` is
named `kind`, because `type` is a Dafny keyword.

Modelling choices:

- `calculateReliability` (lines 70-85 of `src/composables/useReliabilityCalc.js`)
  has no guards, so `CalculateReliability` has no precondition and always sets
  `hasResults`.
- A new component's description is the kind followed by `组件` (line 168).
- The curve samples `t` while `t ≤ timeRange` (line 60). The last sample is the
  largest multiple of 10 that is at most `timeRange`.
- The code does not check that quantities and failure rates are positive.
  `Components.Valid` states that invariant. The lemmas that need it take it as
  a precondition; the operations do not.

## Model

| member | source | states |
|---|---|---|
| Components.DefaultRate | src/composables/useReliabilityCalc.js:151-167 | the rate is the table entry when the kind has a non-zero entry and 0.000001 when it has none; it is always positive |
| Components.AddComponent | src/composables/useReliabilityCalc.js:164-169 | exactly one record is appended at the end, with the given kind, quantity 1, the table rate or 0.000001, and description kind + "组件"; every earlier component is unchanged; the new record is valid |
| Components.AddDefaultComponent | src/composables/useReliabilityCalc.js:150 | with no kind given, the appended record is a resistor: quantity 1, rate 0.000001, description "电阻组件" |
| Components.RemoveComponent | src/composables/useReliabilityCalc.js:173-175 | for an index in range, the length drops by one; elements before the index stay in place and those after shift down by one; the multiset loses exactly the removed element |
| Components.OptionsMatchTable | src/composables/useReliabilityCalc.js:19-22 | a kind is offered for selection exactly when it has an entry in the default-rate table |
| Components.RemoveUndoesAdd | src/composables/useReliabilityCalc.js:164-175 | removing the component just appended restores the original list |
| Components.AddPreservesValid | src/composables/useReliabilityCalc.js:164-169 | appending keeps every component's quantity and rate positive |
| Components.RemovePreservesValid | src/composables/useReliabilityCalc.js:173-175 | removing keeps every component's quantity and rate positive |
| FailureRate.Contribution | src/composables/useReliabilityCalc.js:52-53 | one component's contribution is non-negative when its rate, quantity and the factor are, and zero when any of them is zero |
| FailureRate.FoldRates | src/composables/useReliabilityCalc.js:51-54 | the fold returns its start value on an empty list and never goes below it when the factor and every rate and quantity are non-negative |
| FailureRate.TotalFailureRate | src/composables/useReliabilityCalc.js:50-55 | the total is 0 for an empty list and at least 0 for non-negative inputs; it equals the independent right-recursive sum of contributions |
| FailureRate.FoldIsSum | src/composables/useReliabilityCalc.js:51-54 | a left fold from any start value equals that value plus the reference sum |
| FailureRate.FoldAppend | src/composables/useReliabilityCalc.js:51-54 | folding over a + b equals folding over b starting from the fold over a |
| FailureRate.SumAppend | src/composables/useReliabilityCalc.js:51-54 | the reference sum over a + b is the sum over a plus the sum over b |
| FailureRate.TotalAppend | src/composables/useReliabilityCalc.js:50-55 | the total over a + b is the total over a plus the total over b |
| FailureRate.SumRemoveAt | src/composables/useReliabilityCalc.js:51-54 | the sum over a list is the contribution of any one element plus the sum over the rest |
| FailureRate.MultisetRemoveAt | src/composables/useReliabilityCalc.js:174 | cutting element i out of a list removes one copy of it from the list's multiset |
| FailureRate.PermutationTail | src/composables/useReliabilityCalc.js:51-54 | removing the first element of one list and a matching element of a permutation of it leaves two permutations of each other |
| FailureRate.SumPermutation | src/composables/useReliabilityCalc.js:51-54 | two lists with the same multiset of components have the same reference sum |
| FailureRate.TotalPermutation | src/composables/useReliabilityCalc.js:50-55 | any reordering of the component list leaves the total failure rate unchanged |
| FailureRate.TotalAfterAdd | src/composables/useReliabilityCalc.js:164-169 | adding a component raises the total by its default rate times the factor |
| FailureRate.TotalAfterRemove | src/composables/useReliabilityCalc.js:173-175 | removing component i lowers the total by exactly its contribution |
| FailureRate.ValidTotalPositive | src/composables/useReliabilityCalc.js:50-55 | a non-empty list of valid components under a positive factor has a strictly positive total |
| Curve.SamplesFrom | src/composables/useReliabilityCalc.js:60-65 | the loop from time t yields (timeRange - t)/10 + 1 samples (none past the range); sample i is at time t + 10i and carries exp(-λ × time) |
| Curve.GenerateCurveData | src/composables/useReliabilityCalc.js:58-67 | empty for a negative range; otherwise timeRange/10 + 1 samples starting at 0; times are 10i, strictly increasing and within [0, timeRange]; the next step would pass the range; each reliability is exp(-λ × time) for the λ passed in |
| Curve.CurveCoversGrid | src/composables/useReliabilityCalc.js:60 | a time is sampled if and only if it is a multiple of 10 between 0 and the range |
| Curve.DefaultCurveShape | src/composables/useReliabilityCalc.js:58 | the default range 500 gives 51 samples, the last at time 500 |
| Curve.CurveDecreasing | src/composables/useReliabilityCalc.js:63 | for λ > 0 and a strictly increasing exp with exp(0) = 1, the first sample is 1 and the reliabilities strictly decrease |
| Reliability.Mtbf | src/composables/useReliabilityCalc.js:73 | the MTBF is undefined exactly when λ is zero; otherwise it times λ is 1 |
| Reliability.CalculateReliability | src/composables/useReliabilityCalc.js:70-85 | the result record is replaced wholesale: hasResults is true, the total equals the reference sum, the reliability is exp(-λ × missionTime), the MTBF is 1/λ (undefined at 0), and the curve has 51 samples at 10i with exp(-λ × t); name, mission time, factor and components are unchanged |
| Reliability.CalculationIgnoresPreviousResults | src/composables/useReliabilityCalc.js:76-82 | the new state does not depend on the previous result record |
| Reliability.CalculationIdempotent | src/composables/useReliabilityCalc.js:70-85 | recalculating without changing the inputs gives the same state |
| Reliability.ValidInputsGiveFiniteMtbf | src/composables/useReliabilityCalc.js:71-73 | valid components, a non-empty list and a positive factor give a positive total, so the MTBF is defined and positive |
| Reliability.FindLabel | src/composables/useReliabilityCalc.js:99 | returns nothing exactly when no option has the factor; otherwise the label of the first option with that factor |
| Reliability.EnvironmentLabel | src/composables/useReliabilityCalc.js:99 | a factor that no option has gets the label 未知 |
| Reliability.FindLabelOfDistinct | src/composables/useReliabilityCalc.js:99 | when option factors are pairwise distinct, looking up an option's factor finds that option's label |
| Reliability.EnvironmentLabelOfOption | src/composables/useReliabilityCalc.js:10-16 | each selectable environment's factor is labelled with that environment's own name |
| Analyses.SaveAnalysis | src/composables/useReliabilityCalc.js:88-112 | saving succeeds exactly when there are results; on failure the list is unchanged; on success the snapshot (given id and timestamp, current inputs, label and results) is at index 0, followed by the old list |
| Analyses.DeleteAnalysis | src/composables/useReliabilityCalc.js:137-141 | an entry survives exactly when it was saved and its id differs; the list never grows; a list without that id is returned unchanged |
| Analyses.DeleteAppend | src/composables/useReliabilityCalc.js:140 | deleting from a + b is deleting from a followed by deleting from b, so survivors keep their order |
| Analyses.DeleteIdempotent | src/composables/useReliabilityCalc.js:140 | deleting the same id twice equals deleting it once |
| Analyses.DeleteCommutes | src/composables/useReliabilityCalc.js:140 | deleting two ids in either order gives the same list |
| Analyses.DeleteUndoesSave | src/composables/useReliabilityCalc.js:88-141 | deleting the id of an analysis just saved, when no older entry has that id, restores the list from before the save |
| Analyses.SaveNeedsCalculation | src/composables/useReliabilityCalc.js:41-92 | saving from the initial state is refused and leaves the list unchanged; after one calculation it succeeds |

## Left out

- Storage: reading and writing the saved list in `localStorage` and the JSON
  deep copy are not modelled. The saved list is an explicit input and output.
  The storage failure paths (the `catch` branches that return false) are left
  out with it. For the same reason `DeleteAnalysis` returns the new list, not
  the source's `true`.
- `getSavedAnalyses` only reads storage, so it has no model.
- Clock values: `Date.now()` ids and `toLocaleString` timestamps are
  parameters of `SaveAnalysis`.
- User-interface side effects are not modelled: `alert`, `console` logging
  and Vue `ref` reactivity.
- Floating point: all arithmetic is on exact reals. IEEE rounding is not
  modelled, so results agree with the source only up to rounding. `Math.exp`
  is the parameter `exp`.
- Reliability.Mtbf: the source's `1 / 0` yields `Infinity`; the model returns
  `None` instead. A negative total (possible only with negative inputs) gives
  a negative MTBF in both.
- Components.RemoveComponent: requires an index within the list. The model
  leaves out `splice` with a negative or out-of-range index.
- Components.DefaultRate: the source's lookup
  `defaultFailureRates[type]` also finds inherited object properties
  (`"toString"`, `"constructor"`). With such a kind it would store a function
  as the failure rate. The model treats every kind outside the table as
  absent.
- Components.Component: quantity is an integer; a fractional quantity typed
  into the form is not modelled.
- Curve.GenerateCurveData: `timeRange` is an integer. The source only calls
  it with the default 500; a fractional range is not modelled.
- The router (`src/router/index.js`) is page navigation only and is not part
  of this model.
- The tabular (spreadsheet) import of component lists is not part of this
  model.
