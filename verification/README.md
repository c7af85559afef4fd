# Resort job income comparison — a Dafny model of its calculator core

The page lets a worker compare up to three short-term (resort) job offers,
one card each. For every card it turns the hourly wage and the monthly or
detailed costs of the dorm, utilities, food and commuting into one figure, the
effective hourly wage, and a sort button ranks the cards by that figure. This
project models that core of `script.js` in Dafny 4.11 and proves properties of
it:

- `coercion.dfy` (module `Coercion`): the `parseFloat(..) || fallback` and
  `parseInt(..) || fallback` coercions, and `Math.round`.
- `normalizer.dfy` (module `Normalizer`): `calculate` as a pure function of an
  input record. It covers the transport deduction and display figure, the dorm
  fee and food cost with their two-condition mode tests and 30-day projection,
  gross and net monthly income, the effective wage floored at 0, and the
  rounded figures written onto the card.
- `ranking.dfy` (module `Ranking`): `Array.prototype.sort` with the comparator
  `wageB - wageA`. ECMA-262 requires that sort to be stable (2019 edition
  onward). It is modelled as a stable descending insertion sort on sequences.
  The proofs show the result is a permutation, is ordered, and keeps tied
  elements in input order (`WithKey` is the per-key subsequence). They also
  show that these three facts determine the result uniquely.
- `session.dfy` (module `Session`): the page as a state machine over at most
  three cards. Events are the add button, the sort button, field input, the
  two details-panel toggles and the food unit toggle. An invariant holds in
  every reachable state: at most three cards, the add button disabled at three,
  and every card shows what its current fields compute to or, on a card nothing
  has been typed into, the template's placeholder, which ranks as 0. So the
  ranking is always by the rounded effective wage of the current inputs.

All arithmetic is exact (`real`). Fields arrive already parsed: `None` is an
empty or unparseable field (the NaN of `parseFloat`), `Some(v)` a number.
`Math.round(x)` is `floor(x + 1/2)`.

A few behaviours differ from what a reader might expect; the model follows the
code in each:

- With wage 1200, utilities 5000, dorm 20000, food 30000 and no commuting, one
  might expect a displayed effective wage of 887. The net income is 156200 and
  the effective wage is exactly 887.5, which `Math.round` shows as 888
  (`Normalizer.EndToEndExample`).
- One might expect a non-positive food unit value or a day count below 1 to
  fall back to 1. The code (`|| 1`) replaces only 0 and NaN; negative values
  pass through.
- One might expect the monthly and detailed modes to be exclusive, with
  switching clearing the other mode's fields. The code tests "panel visible AND
  detailed amount > 0". It clears only the panel's own inputs, and only when
  the panel is hidden. It never clears the monthly field.

Recomputation is idempotent by construction, because `Calculate` is a function
of the input record.

## Model

| member | source | states |
|---|---|---|
| `Coercion.OrDefault` | script.js:141-146 | `parseFloat(..) \|\| d`: a missing/NaN or zero field yields the fallback; any other number, negative ones included, passes through |
| `Coercion.IntOrDefault` | script.js:158 | `parseInt(..) \|\| d` on the day count: only a missing/NaN or zero value is replaced |
| `Coercion.Round` | script.js:188-190 | `Math.round` returns the integer within half a unit, halves going up |
| `Coercion.RoundMonotone` | script.js:189 | rounding never reverses the order of two wages |
| `Normalizer.TransportOf` | script.js:145-149 | the deduction is the least non-negative amount covering paid − provided; the display figure is ≤ 0 and is exactly the negated deduction |
| `Normalizer.TransportDeductedIffShortfall` | script.js:147-149 | something is deducted, and a negative figure shown, exactly when more is paid than provided |
| `Normalizer.DormDetailed` | script.js:157 | the dorm mode test holds exactly when the panel is visible and a positive daily rate has been entered (an empty, unparseable or zero field never switches it on) |
| `Normalizer.DormDays` | script.js:158 | the coerced day count is never zero, so it is a safe divisor, and a given non-zero count is kept |
| `Normalizer.DormFee` | script.js:151-162 | panel visible and daily rate > 0: fee × days = rate × 30; otherwise the monthly field (0 if missing) |
| `Normalizer.DormDaysDefaultIsOne` | script.js:158-159 | a missing or zero day count behaves as one day |
| `Normalizer.DormFeeExample` | script.js:157-159 | 1000 over 10 days projects to 3000 a month |
| `Normalizer.FoodDetailed` | script.js:170 | the food mode test holds exactly when the panel is visible and a positive amount has been entered |
| `Normalizer.FoodUnitValue` | script.js:171 | the coerced unit value is never zero and keeps a given non-zero value |
| `Normalizer.FoodCost` | script.js:164-180 | panel visible and amount > 0: per day, cost × unit value = amount × 30; per visit, cost = amount × visits; otherwise the monthly field |
| `Normalizer.FoodUnitDefaultIsOne` | script.js:171-177 | a missing or zero unit value behaves as 1 in both units |
| `Normalizer.FoodCostExamples` | script.js:170-177 | 300 every 3 days gives 3000; 500 per visit for 20 visits gives 10000 |
| `Normalizer.MonthlyIncome` | script.js:183 | gross monthly income is the wage times 176 hours |
| `Normalizer.MonthlyIncomeLinear` | script.js:183 | gross income is additive and homogeneous in the wage (doubling the wage doubles it) |
| `Normalizer.EffectiveWage` | script.js:185-186 | the effective wage is never negative, is 0 exactly when net income ≤ 0, and otherwise times 176 gives back the net income |
| `Normalizer.Calculate` | script.js:140-186 | every field coerced as the card does; total deduction is dorm + utilities + food + transport deduction and nothing else; net = gross − total; effective wage as above |
| `Normalizer.Render` | script.js:188-190 | each figure written onto the card is within half a unit of the exact one |
| `Normalizer.ShownSigns` | script.js:186-190 | a card never shows a negative effective wage or a positive commuting figure |
| `Normalizer.ShownWageMonotone` | script.js:186-189 | a higher net income never shows a lower effective wage |
| `Normalizer.EndToEndExample` | script.js:141-189 | wage 1200, utilities 5000, dorm 20000, food 30000, no commuting: income 211200, deductions 55000, net 156200, wage 887.5 shown as 888 |
| `Ranking.SortDesc` | script.js:208-217 | the ranked cards are a permutation of the cards on the page (same length, same multiset); order and stability are stated by the lemmas below |
| `Ranking.Insert` | script.js:210-214 | inserting adds exactly the one element to the multiset |
| `Ranking.SortDescSorted` | script.js:210-214 | the ranked cards are non-increasing in the key |
| `Ranking.InsertSorted` | script.js:210-214 | inserting into a ranked list keeps it non-increasing in the key |
| `Ranking.WithKeyInsert` | script.js:210-214 | an inserted element goes in front of the elements of its own key; every other key's elements are untouched |
| `Ranking.SortDescStable` | script.js:210-214 | for every key, the cards with that key keep their input order |
| `Ranking.SortDescIsStableDescending` | script.js:210-214 | the insertion sort meets the stable comparator sort's whole contract |
| `Ranking.StableDescendingIsSortDesc` | script.js:210-214 | every permutation that is ordered and stable is the insertion sort's result, so the stable comparator sort's output is determined |
| `Ranking.SortDescIdempotent` | script.js:207-218 | sorting a ranked list again leaves it unchanged |
| `Session.ApplyEdit` | script.js:70-75 | an input event changes exactly the edited field, and typing a job title changes none; panels, unit and all other fields stay |
| `Session.Recalculate` | script.js:140-191 | after `calculate` a card with clean panels is consistent again, and its sort key is the rounded effective wage of its fields |
| `Session.EditCard` | script.js:70-75 | an input event recalculates, so the card shows what its new fields compute to |
| `Session.ToggleDormCard` | script.js:78-87 | closing the dorm panel blanks its rate and day count, makes the fee the monthly field and redraws; opening redraws nothing; nothing outside the dorm changes |
| `Session.ToggleFoodCard` | script.js:89-98 | closing the food panel blanks amount and unit value (unit kept), makes the cost the monthly field and redraws; opening redraws nothing |
| `Session.PickUnitCard` | script.js:101-112 | choosing a food unit sets it and recalculates |
| `Session.CloseThenReopenDorm` | script.js:79-87 | after closing and reopening the dorm panel the fee is still the monthly field and the display is current |
| `Session.CloseThenReopenFood` | script.js:90-98 | after closing and reopening the food panel the cost is still the monthly field and the display is current |
| `Session.UntouchedIsZero` | script.js:141-186 | a card with no number entered computes to zero income, wage and commuting figure |
| `Session.CardKey` | script.js:211-212 | `parseFloat(text) \|\| 0` on the card's wage text: the rounded wage it shows, or 0 for the placeholder |
| `Session.CardKeyIsCurrentWage` | script.js:211-212 | on a consistent card the sort key read from its text is the rounded effective wage of its current fields, and never negative |
| `Session.InitialValid` | script.js:239-240 | the page after loading, one blank card with the add button enabled, satisfies the session invariant |
| `Session.AddJob` | script.js:13-20 | a card is appended only below 3 cards; the count never passes 3; reaching 3 disables the button |
| `Session.SortCards` | script.js:207-218 | the sort button leaves the cards a stable descending ordering by displayed wage (permutation, ordered, ties in input order) and keeps the session invariant |
| `Session.SortExample` | script.js:210-214 | A = 1000, B = 1000, C = 1200 in that order rank as C, A, B |
| `Session.UpdateCard` | script.js:70-75 | replacing one valid card keeps the session invariant and leaves the others in place |
| `Session.Step` | script.js:13-113 | every event keeps the session invariant, never removes a card, and sorting keeps the multiset of cards |
| `Session.RunValid` | script.js:13-113 | any sequence of events from a valid state ends in a valid state |
| `Session.Reachable` | script.js:10-22 | in every reachable state there are at most 3 cards, the add button is disabled at 3, and each card's sort key is its current rounded effective wage |

## Left out

- DOM querying, template cloning and text rendering (script.js:60-67). A card is a record; the text written is the rounded number.
- Parsing text into numbers. Fields arrive as `Option` values, and `parseInt`'s truncation of fractional day counts is taken as done.
- index.html is not part of this model. The card template is assumed to start with empty numeric fields, hidden panels, the per-day unit active, and placeholder text that reads as 0 for the sort.
- The details panels' contents are assumed from the class names: the dorm panel holds the daily rate and the day-count selector, the food panel holds the amount and unit value. The monthly fields are assumed to be outside the panels.
- A missing active unit option, where `querySelector` returns null and `calculate` throws (script.js:172), is not modelled. The unit toggle always has one choice.
- Geolocation and the reverse-geocoding fetch (script.js:28-57): network I/O and asynchronous callbacks.
- Map-link construction and map-button state (script.js:24-26, 115-137, 193-205): UI plumbing that depends on the browser's string encoding.
- Ad-layout toggling, the mutation observer and the resize listener (script.js:221-237): these depend on screen width and are UI-only.
- IEEE-754 floating point. All arithmetic is exact; `Math.round` is `floor(x + 1/2)`.
- Card removal. The script has no removal, so the model has none and the card count never drops.
- Input on a field inside a hidden panel is treated as never dispatched, because a hidden input takes no input. Events for a card index not on the page are no-ops.
- Ranking.SortDesc: its own contract states length and permutation only. Order and stability are proved about it separately (`Ranking.SortDescSorted`, `Ranking.SortDescStable`, together in `Ranking.SortDescIsStableDescending`), so that each proof stays small.
