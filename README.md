# Kana quiz engine — a Dafny model

This project models the quiz engine inside the `Game` React component of a
hiragana/katakana trainer (`src/Game.js`). The component shows one kana symbol
at a time. The learner types its romanized label, and the component scores the
answer. It keeps a per-symbol tally of wrong answers that have not yet been
paid back, and stores that tally in `localStorage` under one key per quiz
mode. It draws the next prompt either from the error tally (with probability
10% per error key) or from the whole table.

The model has five modules:

- `Entries` — a JavaScript plain object as an ordered list of (key, value)
  pairs. It covers property reads (`Find`), property writes (`Put`) and
  `Object.keys` (`Keys`). The engine's keys are kana characters, never array
  indices, so enumeration follows insertion order.
- `Tally` — the error tally and `updateFailedSymbols`' filter-and-sort. The
  filter keeps entries whose count is `!== 0`. The sort is a stable sort by
  non-increasing count, written as an insertion sort. The module proves the
  sort a permutation, sorted and stable, and gives a reference
  characterisation of the normalised tally as the one sorted tally holding
  each non-zero count's entries in input order.
- `Selection` — `getRandomSymbol`. Each `Math.random()` result is a real
  parameter in [0, 1).
- `Accuracy` — `calculateAccuracy`. `toFixed()` rounds the percentage half
  up, and the decimal text reads back as that number.
- `Quiz` — the component.
  - The class `Game` has the React state hooks and `localStorage` as fields.
    Its methods are the handlers: the mount effect (`Activate`), `reset`,
    `updateFailedSymbols`, `checkUserInput` with its two branches, the
    input's `onChange`, and `calculateAccuracy`.
  - `GameState` gathers the fields as a value.
  - Each handler method is proved to leave `State()` equal to a function of
    the state before it (`Updated`, `AfterReset`, `CorrectAnswer`,
    `WrongAnswer`, `Checked`, `Mounted`).
  - The handlers' properties are lemmas about those functions.
  - The invariant `Valid()`/`Consistent` is preserved by every event handler
    (`onChange`, `reset`, `checkUserInput`) and established by the mount
    effect. It says:
    - the tally is an object that normalising leaves unchanged;
    - `0 <= correctCount <= |symbols|`;
    - the store holds the tally under the mode's key.
  - Three further invariants are proved separately, because the source keeps
    them only under conditions:
    - `Counted`: `wrongCount` is the tally's size;
    - `Positive`: every count is positive;
    - `InTable`: the tally and the prompt use only symbols of the table.

React applies all the setter calls of one handler together, after the handler
returns. So each handler reads the state as it was before it ran. This is why
`checkUserInput` draws the next prompt from the tally before the answer
(line 76), and why the mount effect draws from the tally as loaded (line 23).

Points where the code's behaviour is easy to misread; the model follows the
code:

- The wrong count is the number of entries whose count is non-zero, not
  positive (`value !== 0`, line 98).
- The tally stays all-positive only when the stored tally has no negative
  count. The filter keeps negative counts, so positivity is proved as "kept
  when it held before" and "holds after loading a tally without negative
  counts" (`Positive`, `MountedKeeps`).
- Only a missing storage key falls back to the empty tally
  (`JSON.parse(null) || {}`, line 19). Malformed stored text would make
  `JSON.parse` throw; it is not recovered from.
- The code never refuses an empty symbol table. The model requires a
  non-empty table: with no symbols, `getRandomSymbol` would return
  `undefined` and the accuracy would read `NaN%`.

## Model

| member | source | states |
|---|---|---|
| Entries.Find | src/Game.js:36 | property read `o[k]`, None for `undefined`; its contract is stated by `FindKeys`, `FindMember` and `FindIn` |
| Entries.Keys | src/Game.js:29 | `Object.keys` lists one key per entry, in entry order |
| Entries.FindKeys | src/Game.js:41 | a property read finds a value exactly when the key is one of the object's keys |
| Entries.FindMember | src/Game.js:41 | a value found by a read is stored in an entry under that key |
| Entries.FindIn | src/Game.js:36 | in an object with distinct keys, an entry is present exactly when reading its key gives its value |
| Entries.Put | src/Game.js:59-60 | after a write, the key reads as the written value and every other key reads as before |
| Entries.PutKeys | src/Game.js:59-60 | a write keeps the key order: an existing key keeps its place, a new key is appended, and no other entry appears |
| Entries.PutDistinct | src/Game.js:42-43 | writing into an object never creates a second entry for a key |
| Tally.CountOf | src/Game.js:41 | `errors[k]` with a missing key read as 0, as `> 0` and `\|\| 0` read it (lines 41, 60); stated through `PositiveCount`, `NormalizeCount`, `NormalizePut` |
| Tally.NonZero | src/Game.js:98 | the `value !== 0` filter; its contract is `NonZeroMembers`, `NonZeroOfCount`, `NonZeroDistinct`, `NonZeroIdentity` |
| Tally.Insert | src/Game.js:101 | one step of the stable sort; its contract is `InsertMultiset`, `InsertSorted`, `InsertOfCount`, `InsertKeys` |
| Tally.SortByCount | src/Game.js:101 | the stable sort by non-increasing count; its contract is `SortMultiset`, `SortSorted`, `SortOfCount`, `SortDistinct` |
| Tally.Normalize | src/Game.js:98-102 | filter then sort; its contract is `NormalizeSpec`, `NormalizeStable`, `NormalizeCharacterized`, `NormalizeCount` |
| Tally.NonZeroMembers | src/Game.js:98 | the filter keeps exactly the entries whose count is not zero, negative ones included |
| Tally.NonZeroOfCount | src/Game.js:98 | for each non-zero count, the filter keeps that count's entries in their order |
| Tally.NonZeroDistinct | src/Game.js:98 | the filter keeps a subset of the keys, so its result is an object |
| Tally.NonZeroIdentity | src/Game.js:98 | filtering a tally without zero counts changes nothing |
| Tally.SortMultiset | src/Game.js:101 | the sort is a permutation of its input |
| Tally.SortSorted | src/Game.js:101 | the sort orders the counts non-increasingly |
| Tally.SortOfCount | src/Game.js:101 | the sort is stable: entries with equal counts keep their relative order |
| Tally.SortDistinct | src/Game.js:101-102 | the sort keeps the set of keys, so `Object.fromEntries` of it is the same object |
| Tally.SortIdentity | src/Game.js:101 | sorting an already sorted tally changes nothing |
| Tally.SortedUnique | src/Game.js:101 | two sorted tallies that agree, for every count, on that count's entries in order are equal |
| Tally.NormalizeSpec | src/Game.js:97-104 | the stored tally is sorted, has no zero count, and is a permutation of exactly the input's non-zero entries |
| Tally.NormalizeStable | src/Game.js:97-104 | restricted to any one count, the stored tally is the input restricted to that count, in input order |
| Tally.NormalizeCharacterized | src/Game.js:97-104 | the stored tally is the unique sorted tally holding each non-zero count's entries in input order (reference definition, both directions) |
| Tally.NormalizeDistinct | src/Game.js:97-104 | normalising an object gives an object on a subset of its keys |
| Tally.NormalizeCount | src/Game.js:97-104 | normalising changes no count as the engine reads it, and a key survives exactly when its count is non-zero |
| Tally.NormalizeFixpoint | src/Game.js:97-104 | normalising leaves a tally unchanged exactly when it is already sorted without zero counts |
| Tally.NormalizeIdempotent | src/Game.js:97-104 | normalising twice gives the same result as normalising once |
| Tally.PutNonNegative | src/Game.js:42-43 | writing a non-negative count into an all-positive tally leaves no negative count |
| Tally.PositiveCount | src/Game.js:41 | a count read from an all-positive tally is never negative |
| Tally.NormalizePositive | src/Game.js:97-104 | with no negative input counts, every stored count is positive |
| Tally.NormalizePut | src/Game.js:59-61 | write then normalise: the written key reads as the new count and is kept exactly when the count is non-zero; other counts are unchanged; no new key appears except the written one; all-positive stays all-positive under a non-negative write |
| Selection.Scale | src/Game.js:30-31 | `Math.floor(Math.random() * n)` lies in 0 .. n-1 |
| Selection.Pick | src/Game.js:31-32 | the drawn element is an element of the pool |
| Selection.UsesErrorPool | src/Game.js:30 | the error-pool condition of line 30; characterised by `ErrorPoolChance` and `TenErrorsAlwaysUseErrorPool` |
| Selection.RandomSymbol | src/Game.js:28-33 | the prompt is an error key when the error pool is selected, and a table key otherwise |
| Selection.ErrorPoolChance | src/Game.js:30 | the error pool is used exactly for draws u1 with 10·u1 < number of error keys, i.e. with probability min(10k, 100)% |
| Selection.TenErrorsAlwaysUseErrorPool | src/Game.js:30 | with ten or more error keys the error pool is always used |
| Selection.NoErrorsUsesTable | src/Game.js:30 | with an empty tally the prompt is a table key |
| Selection.RandomSymbolInTable | src/Game.js:28-33 | when every error key is a table key, the prompt is always a table key |
| Selection.PickUniform | src/Game.js:31 | index i is chosen for exactly the draws in [i/n, (i+1)/n), so the choice is uniform |
| Selection.PickReaches | src/Game.js:31-32 | every element of a pool is chosen for some draw |
| Accuracy.Percent | src/Game.js:93-94 | the figure p satisfies p - 1/2 <= 100·correct/total < p + 1/2 (rounding half up) |
| Accuracy.PercentUnique | src/Game.js:94 | only one integer satisfies that bracket |
| Accuracy.PercentRange | src/Game.js:92-95 | 0 correct reads 0, all correct reads 100, and the figure stays within 0..100 while correct <= total |
| Accuracy.PercentMonotone | src/Game.js:93-94 | more correct answers never lower the figure |
| Accuracy.Decimal | src/Game.js:94 | the numeral is a non-empty digit string without a leading zero |
| Accuracy.DecimalRoundTrip | src/Game.js:94 | reading the numeral back gives the number |
| Accuracy.LeadingDigitPositive | src/Game.js:94 | a numeral that does not start with 0 denotes at least 1 |
| Accuracy.DecimalUnique | src/Game.js:94 | the numeral without leading zeros is unique: any such digit string denoting x is the one `toFixed()` prints |
| Accuracy.AccuracyText | src/Game.js:92-95 | the text is digits without a leading zero then '%', and the digits read as the rounded percentage, at most 100 |
| Accuracy.AccuracyTextUnique | src/Game.js:92-95 | the contract of `AccuracyText` fixes the text: every string meeting it is the accuracy text |
| Accuracy.AccuracyExamples | src/Game.js:92-95 | 0, 23 and 46 of 46 read "0%", "50%", "100%"; 1 of 8 reads "13%"; 1 of 1 reads "100%" |
| Quiz.StorageKey | src/Game.js:5 | the per-mode storage key; `StorageKeyInjective` states that modes never share one |
| Quiz.IsCorrect | src/Game.js:36 | the verdict `userInput === symbols[currentSymbol]`; `CheckedScore` ties the shown answer to it |
| Quiz.Updated | src/Game.js:97-107 | the state `updateFailedSymbols` leaves; its contract is `UpdatedNormal`, `UpdatedOtherModes`, `StoreThenLoad` |
| Quiz.AfterReset | src/Game.js:109-119 | the state `reset` leaves; its contract is `ResetKeeps` and `StoreThenLoad` |
| Quiz.CorrectAnswer | src/Game.js:36-53 | the correct branch; its contract is `CorrectCounts`, `CorrectScore`, `CorrectKeeps` |
| Quiz.WrongAnswer | src/Game.js:54-66 | the wrong branch; its contract is `WrongCounts`, `WrongScore`, `WrongKeeps` |
| Quiz.Checked | src/Game.js:35-78 | the state `checkUserInput` leaves; its contract is `CheckedCounts`, `CheckedScore`, `CheckedKeeps` |
| Quiz.Mounted | src/Game.js:16-26 | the state the mount effect leaves; its contract is `MountedKeeps` and `RemountKeepsTally` |
| Quiz.Load | src/Game.js:19 | a missing key reads as `{}`; its contract is `StoreThenLoad`, `MountedKeeps`, `RemountKeepsTally` |
| Quiz.StorageKeyInjective | src/Game.js:5 | distinct quiz modes use distinct storage keys |
| Quiz.StoreThenLoad | src/Game.js:19 | a load after `updateFailedSymbols` reads back the normalised tally it stored, and a load after `reset(true)` reads the empty tally |
| Quiz.UpdatedNormal | src/Game.js:97-107 | `updateFailedSymbols` leaves a normal object tally, a wrong count equal to its size, and the same tally stored under the mode's key; every count reads as in its argument; no new key appears |
| Quiz.UpdatedOtherModes | src/Game.js:106 | `updateFailedSymbols` leaves every other mode's stored tally as it was |
| Quiz.CorrectCounts | src/Game.js:41-44 | a correct answer lowers a positive count by one, dropping the entry when it reaches zero, and changes no other count |
| Quiz.WrongCounts | src/Game.js:59-61 | a wrong answer raises the prompt's count by one (an absent symbol gets 1) and changes no other count |
| Quiz.CheckedCounts | src/Game.js:35-66 | over both branches: the prompt's count goes +1 on a wrong answer, -1 on a correct answer while positive, otherwise stays; the entry is present exactly when its new count is non-zero; other counts stay |
| Quiz.CorrectScore | src/Game.js:36-53 | a correct answer shows as right, raises the correct count only when the prompt has no errors and the count is below the table's size, and adds the prompt to the learned set |
| Quiz.WrongScore | src/Game.js:54-65 | a wrong answer shows as wrong, keeps the correct count, and removes the prompt from the learned set |
| Quiz.CheckedScore | src/Game.js:35-78 | the verdict is exactly `userInput === symbols[currentSymbol]`; the correct-count rule; the prompt joins or leaves the learned set and no other symbol moves; the prompt becomes the last symbol; the input is cleared; the next prompt comes from the error keys or the table, as the tally was before the answer |
| Quiz.CorrectKeeps | src/Game.js:36-53 | a correct answer keeps the state consistent, keeps the wrong count equal to the tally's size, keeps the tally all-positive, and adds no key |
| Quiz.WrongKeeps | src/Game.js:54-66 | a wrong answer keeps the state consistent and all-positive, makes the wrong count the tally's size, and adds no key except the prompt |
| Quiz.CheckedKeeps | src/Game.js:35-78 | an answer preserves `Consistent`, `Counted`, `Positive` and `InTable` |
| Quiz.ResetKeeps | src/Game.js:109-119 | reset clears the session fields and keeps the prompt; it keeps consistency, positivity and table membership; clearing empties the tally in state and store and makes it counted; without clearing, tally and store stay; a second reset changes nothing |
| Quiz.MountedKeeps | src/Game.js:16-26 | the mount effect leaves a consistent, counted, fresh session whose tally is the stored one normalised, with every count as stored and no change when it was already normal; it is all-positive when no stored count is negative and within the table when every stored key is a symbol; the first prompt is drawn from the raw stored tally when line 30 picks the error pool and from the table otherwise; the other modes' stored tallies are untouched |
| Quiz.RemountKeepsTally | src/Game.js:16-26 | activating the same mode again loads back exactly the tally it stored |
| Quiz.ScenarioMount | src/Game.js:16-24 | on a one-symbol table with nothing stored, the first prompt is that symbol and the tally is empty |
| Quiz.ScenarioAnswer | src/Game.js:35-78 | on a one-symbol table, a correct answer with no errors scores, a wrong one records the count 1, and a correct one on count 1 empties the tally without scoring |
| Quiz.SingleSymbolScenario | src/Game.js:16-78 | table {あ: a}: "a" scores 1 and reads "100%", "x" gives the tally {あ: 1} and wrong count 1, "a" again empties the tally with the correct count still 1 |
| Quiz.Game.constructor | src/Game.js:7-14 | the state hooks start at their initial values, with the given store |
| Quiz.Game.SetUserInput | src/Game.js:129 | `onChange` changes only the input and keeps `Valid()` |
| Quiz.Game.UpdateFailedSymbols | src/Game.js:97-107 | the new state is `Updated` of the old one, which `UpdatedNormal` and `UpdatedOtherModes` characterise |
| Quiz.Game.Reset | src/Game.js:109-119 | the new state is `AfterReset` of the old one, the props are unchanged, and `Valid()` is preserved |
| Quiz.Game.Activate | src/Game.js:16-26 | the new state is `Mounted` of the old one for the new mode, and `Valid()` holds afterwards |
| Quiz.Game.RecordCorrect | src/Game.js:36-53 | the new state is `CorrectAnswer` of the old one |
| Quiz.Game.RecordWrong | src/Game.js:54-66 | the new state is `WrongAnswer` of the old one |
| Quiz.Game.CheckUserInput | src/Game.js:35-78 | the new state is `Checked` of the old one; a valid state stays valid; the pronounced label is the last symbol's |
| Quiz.Game.CalculateAccuracy | src/Game.js:92-95 | on any state with a non-empty table, the text is digits without a leading zero then '%', reading as the correct count's percentage of the table size rounded half up, and at most 100 while the count is within the table size |

## Left out

- Rendering is not modelled: the JSX (lines 121-171) and `handleKeyPress` (lines 86-90), which only calls `checkUserInput` on Enter.
- `playAudio` (lines 80-84) is browser I/O. The model keeps only the label it would play, as the ghost result `played` of `CheckUserInput`.
- `localStorage` and JSON are abstracted as a map from storage keys to tallies that are already decoded. The model assumes `JSON.stringify` and `JSON.parse` of the tally round-trip its keys, values and order. Malformed stored text, on which `JSON.parse` throws, is not modelled.
- `Math.random` is not modelled: each draw is a real parameter in [0, 1). The model contains no probabilities, only which draws give which choice. With an empty tally the source short-circuits line 30 and calls `Math.random()` once, for the index of line 31; the model still takes two draws and uses only the second one there.
- Floating point is replaced by exact arithmetic:
  - `Math.floor(u * n)` is the floor of an exact real product.
  - `correctCount * 100 / numberOfSymbols` followed by `toFixed()` is exact rounding half up. With counts this small, the double quotient lands on the same integer.
  - Counts are unbounded integers; the source's counts never approach 2^53.
- Object keys that are array indices, which JavaScript enumerates first, are not modelled. Keys inherited from `Object.prototype`, which a read of a key such as `constructor` would find, are not modelled either.
- React scheduling is not modelled: re-renders, effects running after paint, and interleaving. Each handler is one atomic step that reads the state as it was before the step.
- The `learnedSymbols` Set is a set value. Mutating it in place, and calling `setLearnedSymbols` with the same object (lines 50-52, 62-64), are folded into a set union or difference. Aliasing of that object is not modelled.
- `src/App.js`, with the router and the 46-entry hiragana and katakana tables, is not part of this model. `Quiz.SingleSymbolScenario` uses a one-symbol table instead.
- Quiz.Game.Activate: requires the new table and the stored tally to have distinct keys, which every JavaScript object and every `JSON.parse` result of an object has. It also requires a non-empty table, which the source does not check.
- Quiz.Game.CheckUserInput: requires a non-empty table, which the source does not check. It promises `Valid()` afterwards only when `Valid()` held before.
- Quiz.Game.CalculateAccuracy: requires a non-empty table and a non-negative correct count. The source divides by any table size and reads `NaN%` for an empty table; its correct count never goes below 0.
