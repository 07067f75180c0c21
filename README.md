# genkey layout search, in Dafny

A model of the layout-mutation and search-control code of genkey's
keyboard-layout generator (`generate.go`), with proofs of what it promises.
A layout is a 3x10 grid of symbols (`Keys`), its reverse index `Keymap`
(symbol -> position) and the summed corpus frequency `Total`. The model covers:

- the swap primitive `Swap`;
- `randomLayout`, which deals the 30 symbols `abcdefghijklmnopqrstuvwxyz,./'`
  onto the grid from a shrinking pool;
- `greedyImprove`, a single-swap hill climber that stops after more than
  500 failed swaps in a row;
- `fullImprove`, a tiered multi-swap search with a rollback buffer of seven pairs;
- the row-normalisation pass at the end of `Populate`.

The score is a parameter `score: Grid -> real`. It can be any deterministic
function of the grid. The random choices are supplied as sequences:
- `picks` holds the values `rand.Intn` returns while dealing;
- `draws` holds the positions `RandPos` returns during the searches.

Files:

- `keyboard.dfy` (module `Keyboard`): the layout as a value.
  - `State(keys, keymap)`; the grid is read in row-major order.
  - `Consistent` says the keymap inverts the grid, in both directions.
  - The swap as a function `SwapState`.
  - Sequences of swaps: `ApplyPairs`.
  - `GenKeymap`.
  - Lemmas: a swap changes at most two cells and is its own inverse, and undoing swaps in reverse order restores a state exactly.
- `dealing.dfy` (module `Dealing`): the dealing of `randomLayout` as a function `Deal` of the pool and the picks.
- `search.dfy` (module `Search`): the two searches as step functions and run functions.
  - `GreedyStep`/`GreedyRun`, and `FullStep`/`Rejected`/`FullRun` over the loop state `Tiered`.
  - Lemmas: a run never makes the layout worse, keeps it consistent and only rearranges symbols.
  - Each run is compared with plain iterations of its loop body that have no stop test (`Climbs`, `Steps`). The stopping-rule lemmas pick out the iteration where the run ends.
  - The tier schedule.
- `normalize.dfy` (module `Normalize`): the normalisation pass as `NormalizeFrom`.
  - The final symbol in every cell is given by `Source`.
  - Outer columns end with the more frequent symbol on top, and everything else is untouched.
  - The pass is idempotent and only swaps.
- `generate_layout.dfy` (module `Generate`): the layout as a class `Layout`.
  - Fields: an `array2<char>` grid, a `map<char, Pos>` keymap and an integer total.
  - Methods `Swap`, `GreedyImprove`, `FullImprove` (with `Perturb`, `Undo`, `Iterate`, `Reject`) and `NormalizeRows`.
  - The module-level `RandomLayout` with its loops `DealGrid`/`DealRow`/`DealCell`.
  - Each method's postcondition equates its new state with the corresponding function of `Search`, `Normalize` or `Dealing` applied to the old state. The properties proved about those functions carry over.

`Pos` is declared in a file outside this model. The normalisation pass writes
it as the unkeyed literal `Pos{col, 0}`. The model reads its first field as the
column: under that reading the pass stays inside the grid.

Points where the code is easy to misread; the model follows the code in each case:

- `fullImprove` starts with patience `max = 600` (generate.go:219). It is not
  `900 * tier * tier` = 3600. Only later tier changes use `900 * tier * tier` (`Search.INITIAL_MAX`, `Search.Patience`).
- The perturbation writes its pairs to `Swaps[tier-1]` down to `Swaps[0]`, and the
  undo replays `Swaps[0]` up. So the swaps are undone in reverse order of application. That is
  what makes the rollback exact (`Keyboard.Rollback`). Undoing in the order of
  application need not restore the grid: two swaps sharing one cell
  are a case where it does not (`Keyboard.UndoInApplyOrderFails`).
- The tier is checked only on the reject path. When the new tier exceeds 3,
  the loop breaks before `i` is reset (`Search.Rejected`, `Search.FullStepTierRule`).

## Model

| member | source | states |
|---|---|---|
| Keyboard.SwapGridCells | generate.go:277 | the two cells exchange their symbols and every other cell keeps its symbol |
| Keyboard.SwapGridPermutes | generate.go:277 | a swap only rearranges the symbols on the grid (multiset preserved) |
| Keyboard.SwapStateKeymap | generate.go:278-279 | after a swap the keymap sends the symbol now at `b` to `b`, the one now at `a` to `a`, and leaves every other entry unchanged |
| Keyboard.SwapKeepsConsistent | generate.go:274-283 | a swap keeps a consistent keymap consistent with the grid, in both directions |
| Keyboard.SwapSameIsNoop | generate.go:277-279 | swapping a cell with itself leaves a consistent layout unchanged |
| Keyboard.SwapInvolution | generate.go:194-202 | applying the same swap twice restores grid and keymap exactly (the undo of `greedyImprove`) |
| Keyboard.ApplyPairsKeepsConsistent | generate.go:225-230 | any sequence of swaps keeps the layout consistent |
| Keyboard.ApplyPairsPermutes | generate.go:225-230 | any sequence of swaps only rearranges the symbols |
| Keyboard.Rollback | generate.go:225-241 | undoing the applied pairs in reverse order restores grid and keymap exactly |
| Keyboard.UndoInApplyOrderFails | generate.go:239-241 | on a concrete layout, undoing two overlapping swaps in application order leaves three symbols rotated, so the reverse order is needed |
| Keyboard.ConsistentIsPermutation | generate.go:79-80 | a consistent layout places no symbol twice, and its placed symbols are exactly the keymap's keys |
| Keyboard.GenKeymapConsistent | generate.go:80 | the reverse index built from a grid of distinct symbols is consistent with it and indexes exactly its symbols |
| Dealing.RemoveFirst | generate.go:75 | removing drops exactly one copy of a present symbol and leaves the pool alone otherwise |
| Dealing.RemoveFirstAt | generate.go:75 | the copy removed is the first occurrence: the pool loses exactly that position |
| Dealing.AlphabetDistinct | generate.go:65 | the pool holds 30 different symbols |
| Dealing.DealDistinct | generate.go:69-77 | dealing from a pool of distinct symbols places no symbol twice |
| Dealing.DealIsPermutation | generate.go:69-77 | dealing the whole pool places each of its symbols exactly once |
| Dealing.DealTotal | generate.go:74 | the accumulated total is the sum of the frequencies of the whole pool |
| Generate.DealGrid | generate.go:66-77 | the nested loops leave the array holding `Deal(pool, picks)` row by row and the total equal to the pool's frequency sum |
| Generate.DealtLayout | generate.go:64-85 | a grid dealt from 30 distinct symbols is a permutation of them and its `GenKeymap` is consistent with it, over exactly those symbols |
| Generate.DealtAlphabet | generate.go:64-85 | the same for the 30-symbol alphabet of `randomLayout` |
| Generate.RandomLayout | generate.go:64-85 | a fresh layout whose grid is the deal, whose keymap is consistent and covers all 30 symbols, each placed exactly once, and whose total is the alphabet's frequency sum |
| Generate.Layout.Swap | generate.go:274-283 | the in-place swap of two array cells and the two keymap updates produce exactly `SwapState` of the old layout |
| Search.GreedyStepAcceptsOnlyImprovement | generate.go:190-204 | a step keeps its swap and resets `stuck` exactly when the score strictly drops; otherwise the layout is restored exactly and `stuck` grows by one |
| Search.GreedyStepNoWorse | generate.go:190-204 | a step leaves a consistent layout unchanged or strictly better, and consistent |
| Search.GreedyRunKeepsConsistent | generate.go:187-211 | a greedy run keeps the keymap consistent with the grid |
| Search.GreedyRunKeepsSymbols | generate.go:187-211 | a greedy run only rearranges the symbols |
| Search.GreedyRunNeverWorse | generate.go:187-211 | over a greedy run the layout stays as it was or ends with a strictly lower score |
| Search.GreedyRunStopsOnStagnation | generate.go:188-208 | the run returns with `stuck` just past 500, after at least that many failed swaps in a row, or only when the positions run out |
| Search.GreedyRunStopsAtFirstStagnation | generate.go:189-210 | the greedy run ends after the first iteration that takes `stuck` past 500 (no earlier iteration does), or, if none does, after the last iteration the positions allow; its result is that many iterations of the loop body |
| Generate.Layout.GreedyImprove | generate.go:187-211 | the loop over the array leaves the layout equal to `GreedyRun` of the old one |
| Search.StartSchedule | generate.go:214-260 | the start state (tier 2, patience 600) is within the schedule, so the whole run from it keeps the tier in 1..3 and `i` within the patience until it breaks off at tier 4 |
| Search.Rejected | generate.go:243-261 | a rejected perturbation keeps the layout, counts one rejection and no change (its tier rule is stated by `Search.FullStepTierRule`) |
| Search.FullStepTierRule | generate.go:233-261 | an accepted step sets `changed`, resets `i` and keeps tier and patience; a rejection adds one to `i` and keeps tier, patience and `changed` unless `i` passes the patience; only then the tier becomes 1 after a change or rises by one, the patience becomes `900 * tier * tier`, `changed` is cleared and `i` restarts at 0 unless the tier exceeds 3 |
| Search.FullStepRollsBack | generate.go:223-243 | a perturbation is kept with a strictly lower score (counted as a change, `i` reset) or rolled back to exactly the prior layout (counted as a rejection); the layout stays consistent |
| Search.FullStepSchedule | generate.go:241-260 | while running the tier stays in 1..3 and `i` within the patience; the search ends exactly when a rejection at tier 3 without a change exceeds the patience; the tier drops only to 1 after a change and rises only by one without |
| Search.FullRunNeverWorse | generate.go:213-266 | over a tiered run the layout stays as it was or ends with a strictly lower score, and stays consistent |
| Search.FullRunKeepsSymbols | generate.go:213-266 | a tiered run only rearranges the symbols |
| Search.FullRunSchedule | generate.go:213-266 | a tiered run keeps the tier schedule invariant and ends at tier 4 at most |
| Search.FullRunBreaksAtFirstTierFour | generate.go:221-264 | the tiered run is some number of iterations of the loop body, the tier is at most 3 before each of them, and the run ends after the first one that takes the tier past 3, or when the positions left are fewer than the next perturbation needs |
| Generate.Layout.Perturb | generate.go:225-230 | the drawing loop applies the pairs in drawing order, leaves them in the first `tier` buffer slots in reverse order, and leaves the other slots as they were |
| Generate.Layout.DrawOne | generate.go:226-229 | one draw swaps the pair and records it in one buffer slot, changing no other slot |
| Generate.Layout.Undo | generate.go:239-241 | the undo loop applies the buffered pairs from slot 0 up |
| Generate.Layout.Reject | generate.go:239-261 | the reject path undoes the buffer and updates the counters and tier as `Rejected` does |
| Generate.Layout.Iterate | generate.go:222-262 | one loop pass changes layout and counters exactly as `FullStep` |
| Generate.Layout.FullImprove | generate.go:213-266 | the loop over the array leaves the layout equal to `FullRun` from the start state |
| Normalize.NormalizeCells | generate.go:161-168 | after the pass every cell holds the symbol of its `Source`: top and bottom trade places in an outer column whose top symbol is strictly rarer |
| Normalize.NormalizeOrders | generate.go:161-168 | afterwards every column outside 3..6 has a top symbol at least as frequent as its bottom one |
| Normalize.NormalizeKeepsRest | generate.go:161-168 | columns 3..6 and the middle row are untouched |
| Normalize.NormalizeIdempotent | generate.go:161-168 | normalising a normalised layout changes nothing |
| Normalize.NormalizeFromApplies | generate.go:161-168 | the pass is exactly a sequence of swaps (the ones `FlipPairs` lists) |
| Normalize.NormalizeKeepsConsistent | generate.go:161-168 | the pass keeps the layout consistent and only rearranges its symbols |
| Generate.Layout.NormalizeColumn | generate.go:162-167 | one column of the pass advances the layout by one step of `NormalizeFrom` |
| Generate.Layout.NormalizeRows | generate.go:161-168 | the loop over the array leaves the layout equal to `NormalizeFrom` of the old one |

## Left out

- `Score` (generate.go:30-62) is a parameter. Its collaborators are not part of this model, and neither is its increment of the shared counter `Analyzed`. The model treats it as a deterministic function of the grid.
- `sortLayouts` (generate.go:92-111) is not modelled: it only wraps the library sort.
- The orchestration in `Populate` is not modelled: seeding, the goroutines and their polling, the progress output, the truncation to 100 layouts, and the reports after the pass. The model covers only its normalisation loop (generate.go:161-168), on one layout.
- `RandPos` (generate.go:180-185) is replaced by supplied positions, all inside the grid as its `rand.Intn(3)`/`rand.Intn(10)` guarantee.
- The calls `rand.Intn(len(chars))` in `randomLayout` are replaced by supplied picks, each within the pool as it is when drawn (`Dealing.ValidPicks`).
- The source of `GenKeymap` is not available; it is modelled as a pass over the cells in row-major order that records each symbol's position.
- Generate.RandomLayout: `Fingermap` and `Fingermatrix` are read-only metadata and are left out.
- Generate.RandomLayout: `Total` is modelled as an integer sum of the integer frequencies. The float64 conversion and its rounding are not modelled.
- Generate.Layout.GreedyImprove: also returns when fewer than two supplied positions are left. With true randomness the loop runs until `stuck` exceeds 500, and its termination is not proved.
- Generate.Layout.FullImprove: also returns when fewer than `2 * tier` supplied positions are left. Its termination beyond the tier rule is not proved.
- Generate.Layout.Swap: the Go `Layout` shares its `Keys` rows and `Keymap` with every copy of the struct. The class owns its array and keeps the keymap as a value, so aliasing between copies is not modelled.
- Keyboard.SwapSameIsNoop, Keyboard.SwapInvolution: stated for consistent layouts only. On an inconsistent keymap the source's two map writes need not restore the old entries.
