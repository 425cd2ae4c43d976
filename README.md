# Weighted fare split, view history and LINE message: a Dafny model

This project models three parts of the hododasu web application:

- **The weighted fare split** (`calculateShareAmounts`). A total in yen is divided among participants in proportion to their weights. Each base amount `total * weight / Σ weight` is rounded on its own, up, down or half up, at the 0.1-, 1-, 10- or 100-yen digit. When the rounded shares miss the total, the difference goes to a synthetic organiser row named "幹事" with weight 0. The rows are then rebuilt in input order by looking each participant up by name.
  - `calculation.dfy`, module `Calculation`.
  - The base amounts are exact fractions `(total * w) / W`, never floating point.
  - `Math.floor`, `Math.ceil` and `Math.round` of `amount / step` are written as integer divisions on that fraction.
  - The loop-based `CalculateShareAmounts` method mirrors the source's reduce / map / forEach / find / push steps. It is proved equal to the specification function `ShareAmounts`, and the properties are proved about that function.
- **The recently-viewed list** (`history.ts`). It is a most-recently-used list of pages, keyed by (type, id), capped at 50 entries and kept in one browser storage slot.
  - `history.dfy`, module `History`.
  - The storage slot is a class `ViewHistoryStore` whose field `slot` holds either nothing (the key is absent) or the saved list.
- **The LINE message** (`line.ts`). This is the filled-in notification template, the amount line and an optional link to the explanation page, joined by newlines, plus the LINE share URL carrying it.
  - `line.dfy`, module `Line`.
  - Number formatting (`toLocaleString`) and URL encoding (`encodeURIComponent`) are function parameters the model does not interpret.

`wrappers.dfy` holds the `Option` and `Result` types shared by the three modules.

Where the program's own texts and its code disagree, and in the edge cases below, the model follows the code:

- **No largest-remainder step.** The comment above `calculateShareAmounts` (`apps/api/src/utils/calculation.ts:37`) and the explanation page (`apps/web/src/routes/how.tsx:39-45`) describe flooring every share and handing out the remainder one yen at a time, largest fractional part first. The code has no such step. A missing method or unit defaults to rounding half up at the 0.1-yen digit, a step of 1 yen (`calculation.ts:69-70`), and `DefaultRounding` states this.
- **Empty list.** With no participants the result is the empty list for any total (`calculation.ts:46-48`), so an empty list with a positive total is not conserved.
- **Unique names are not enforced.** The rows are rebuilt by name (`calculation.ts:102`), but nothing rejects repeated names: the request schema only asks for non-empty names (`packages/shared/src/schemas.ts:8`). With repeated names the as-written split loses or invents money; see "## Findings".
- **Monotonicity.** The explanation page says a larger weight means a larger share (`apps/web/src/routes/how.tsx:80`). Under one method and unit a larger weight never gets a smaller share, as `WeightMonotone` proves. Equal shares for different weights remain possible after rounding.

## Model

| member | source | states |
|---|---|---|
| Calculation.DigitToStep | apps/api/src/utils/calculation.ts:9-12 | the step is at least 1 and equals ten times the rounding unit (0.1→1, 1→10, 10→100, 100→1000) |
| Calculation.RoundUpAt | apps/api/src/utils/calculation.ts:14-17 | the result is a multiple of the step, not below the amount, and less than one step above it (the smallest such multiple) |
| Calculation.RoundDownAt | apps/api/src/utils/calculation.ts:22-25 | the result is a multiple of the step, not above the amount, and less than one step below it (the largest such multiple) |
| Calculation.RoundHalfUpAt | apps/api/src/utils/calculation.ts:30-33 | the result is a multiple of the step with -step/2 < result - amount <= step/2: the nearest multiple, a tie going up as Math.round does |
| Calculation.RoundAt | apps/api/src/utils/calculation.ts:74-82 | whichever method is chosen, the share is a multiple of the step and within one step of the exact base amount |
| Calculation.RoundAtMonotone | apps/api/src/utils/calculation.ts:14-33 | each of the three roundings is monotone in the amount |
| Calculation.ShareOf | apps/api/src/utils/calculation.ts:57-82 | a participant's share is a multiple of the step and lies within one step of the exact base amount total·w/W |
| Calculation.Rounded | apps/api/src/utils/calculation.ts:57-82 | the entries after the rounding pass keep the participants' order, names and weights, and each share is a multiple of the step within one step of that participant's exact base amount |
| Calculation.WeightSumZero | apps/api/src/utils/calculation.ts:51-54 | the weight sum is zero exactly when every weight is zero |
| Calculation.Settled | apps/api/src/utils/calculation.ts:84-97 | after settlement the entries add up to the total; the rounded entries are kept as a prefix; an organiser row (幹事, weight 0, total - Σ rounded) is appended exactly when the rounded total misses |
| Calculation.FindByName | apps/api/src/utils/calculation.ts:102 | absent exactly when no entry has the name; otherwise it is an entry with the name and no earlier entry has it (first match) |
| Calculation.ShareAmounts | apps/api/src/utils/calculation.ts:40-121 | the as-written split: an empty participant list gives an empty result, and the call fails exactly when the list is non-empty and every weight is zero |
| Calculation.ShareAmountsByIndex | apps/api/src/utils/calculation.ts:40-121 | the corrected split fails exactly when the as-written one does, and on success its rows add up to the total for every non-empty participant list |
| Calculation.AsWrittenMatchesByIndex | apps/api/src/utils/calculation.ts:100-118 | with pairwise distinct names, none of them "幹事", the as-written split equals the split by position |
| Calculation.ReassociateOwnRows | apps/api/src/utils/calculation.ts:101-108 | with unambiguous names, rebuilding the rows by name gives back the rounded entries in input order |
| Calculation.OrganizerLast | apps/api/src/utils/calculation.ts:111 | with no participant named "幹事", the organiser lookup finds the appended row |
| Calculation.OrganizerAbsent | apps/api/src/utils/calculation.ts:111-112 | with no participant named "幹事" and nothing appended, the organiser lookup finds nothing |
| Calculation.Conservation | apps/api/src/utils/calculation.ts:84-118 | with unambiguous names and a non-empty list, the returned rows, organiser included, add up to the total exactly |
| Calculation.Layout | apps/api/src/utils/calculation.ts:100-118 | whatever the names, row i carries participant i's name and weight, and at most one more row follows: 幹事 with weight 0 |
| Calculation.LayoutUnambiguous | apps/api/src/utils/calculation.ts:57-118 | with unambiguous names, row i holds participant i's own rounded share, and the organiser row holds total - Σ rounded and is present exactly when that is non-zero |
| Calculation.WeightMonotone | apps/api/src/utils/calculation.ts:57-82 | under one method and unit, a larger weight never gets a smaller share |
| Calculation.ShareMonotoneInWeight | apps/api/src/utils/calculation.ts:40-121 | within one split with unambiguous names, a participant with a weight at least another's pays at least as much |
| Calculation.DefaultRounding | apps/api/src/utils/calculation.ts:69-70 | a missing method and unit mean rounding half up at the 0.1-yen digit |
| Calculation.RoundUpExampleByIndex | apps/api/src/utils/calculation.ts:40-121 | 1000 yen over weights 1, 2, 3, rounded up at the 1-yen digit, gives 170, 340, 500 and an organiser row of -10 |
| Calculation.RoundUpExample | apps/api/src/utils/calculation.ts:40-121 | the as-written split gives the same rows on that input |
| Calculation.ScaledErrorSum | apps/api/src/utils/calculation.ts:85-86 | the per-row rounding errors, scaled by Σ weight, add up to W·Σ shares - total·Σ weights |
| Calculation.DifferenceFromErrors | apps/api/src/utils/calculation.ts:85-86 | Σ weight times the organiser amount is minus the sum of the scaled rounding errors |
| Calculation.OrganizerRoundingDown | apps/api/src/utils/calculation.ts:77-97 | rounding down, the organiser amount is at least 0 and below one step per participant |
| Calculation.OrganizerRoundingUp | apps/api/src/utils/calculation.ts:75-97 | rounding up, the organiser amount is at most 0 and above minus one step per participant |
| Calculation.OrganizerRoundingHalfUp | apps/api/src/utils/calculation.ts:79-97 | rounding half up, the organiser amount is within half a step per participant either way |
| Calculation.DuplicateNamesLoseAmount | apps/api/src/utils/calculation.ts:101-108 | as written, 1000 yen over [A:1, A:3] returns two rows of 250: the rows add up to 500, not 1000, where the split by position gives 250 and 750 |
| Calculation.OrganizerNameShadowed | apps/api/src/utils/calculation.ts:110-118 | as written, 1000 yen over [幹事:1, B:3] returns a spurious organiser row: the rows add up to 1250, not 1000 |
| Calculation.SumWeights | apps/api/src/utils/calculation.ts:51 | the reduce loop returns `WeightSum`, Σ weight over the participants |
| Calculation.SumShares | apps/api/src/utils/calculation.ts:85 | the reduce loop returns `Total`, Σ shareAmount over the rounded entries |
| Calculation.FindEntry | apps/api/src/utils/calculation.ts:102 | the find loop returns the first entry with the name, or nothing |
| Calculation.RoundBaseAmounts | apps/api/src/utils/calculation.ts:57-82 | the floor-initialised entries, overwritten one by one by the forEach, end up as `Rounded`: each participant's `ShareOf` share, in input order |
| Calculation.MapByName | apps/api/src/utils/calculation.ts:101-108 | the map returns `Reassociate`: each participant's name and weight with the share of the first entry carrying its name, 0 when there is none |
| Calculation.SettleBaseAmounts | apps/api/src/utils/calculation.ts:72-98 | the rounding pass followed by the organiser push yields the settled entries |
| Calculation.CalculateShareAmounts | apps/api/src/utils/calculation.ts:40-121 | the step-by-step computation returns exactly the as-written split, including the empty and the zero-weight cases |
| History.Without | apps/web/src/lib/history.ts:48-50 | the filter keeps exactly the entries of other pages and never lengthens the list |
| History.WithoutCounts | apps/web/src/lib/history.ts:48-50 | each entry of another page is kept as often as it occurred, and none of the filtered page remains |
| History.WithoutIsSubsequence | apps/web/src/lib/history.ts:48-50 | filtering keeps the remaining entries in their order |
| History.WithoutIdempotent | apps/web/src/lib/history.ts:63-65 | filtering a page out twice equals filtering it out once |
| History.WithoutAbsent | apps/web/src/lib/history.ts:63-65 | filtering a page that is not in the list changes nothing |
| History.SubsequenceKeepsDistinct | apps/web/src/lib/history.ts:48-50 | dropping entries from a list of distinct pages leaves distinct pages |
| History.Limited | apps/web/src/lib/history.ts:34 | the cut list has at most 50 entries and is a prefix of the list (the newest ones); a short list is kept whole and a long one is cut to exactly 50 |
| History.Added | apps/web/src/lib/history.ts:44-56 | the saved list starts with the new entry, no later entry is the same page, the rest is a prefix of the previous list without that page, and its length is that list's length plus one, capped at 50: every other entry is kept up to the cap |
| History.AddedKeepsDistinct | apps/web/src/lib/history.ts:44-56 | adding to a list of distinct pages keeps the pages distinct |
| History.RemoveIdempotent | apps/web/src/lib/history.ts:61-67 | removing the same page twice saves what removing it once saved |
| History.ViewHistoryStore.GetViewHistory | apps/web/src/lib/history.ts:17-26 | an empty slot reads as the empty list; otherwise the saved list is returned |
| History.ViewHistoryStore.SaveViewHistory | apps/web/src/lib/history.ts:31-39 | the slot holds the list cut to its first 50 entries |
| History.ViewHistoryStore.AddViewHistory | apps/web/src/lib/history.ts:44-56 | the slot holds the added list: the page first, no older copy of it, every other previous entry in previous order up to the cap of 50, and distinct pages stay distinct |
| History.ViewHistoryStore.RemoveViewHistory | apps/web/src/lib/history.ts:61-67 | the slot holds the list without the page, cut to 50; no entry of the page remains; a list of at most 50 loses only that page |
| History.ViewHistoryStore.ClearViewHistory | apps/web/src/lib/history.ts:72-78 | the slot is emptied and reads back as the empty list |
| Line.ReplaceAll | apps/web/src/lib/line.ts:17-21 | a global replace leaves a string without the pattern unchanged, and replacing the pattern by itself changes nothing; `ReplaceFirst` gives the result when the pattern occurs |
| Line.ReplaceFirst | apps/web/src/lib/line.ts:17-21 | when the first occurrence of the pattern follows a prefix, the prefix is kept, that occurrence becomes the replacement and the rest is replaced in turn; with the unchanged-when-absent clause this determines every result |
| Line.MatchesZero | apps/web/src/lib/line.ts:17-21 | the replace scan finds a match exactly when the pattern occurs in the string |
| Line.ReplaceAllLength | apps/web/src/lib/line.ts:17-21 | each replacement changes the length by the replacement's length minus the pattern's |
| Line.Substitute | apps/web/src/lib/line.ts:16-23 | a template without any of the four placeholders is used unchanged |
| Line.Join | apps/web/src/lib/line.ts:34 | a single line joins to itself; the joined length is the lines' lengths plus one separator between each two |
| Line.MessageLines | apps/web/src/lib/line.ts:13-32 | one line more for a template that is present and non-empty (`HasTemplate`, JavaScript truthiness) and one for the link; the filled-in template comes first when present, then `AmountLine` ("\n" name さんの負担額: amount 円); the last line is `DetailsLine` ("\n計算方法: " base URL "/how") exactly when the link was asked for |
| Line.LastChar | apps/web/src/lib/line.ts:26-31 | the amount line ends in 円 and the details line in w, so they never coincide |
| Line.JoinedLines | apps/web/src/lib/line.ts:13-34 | the joined message is the template text and a newline (when present), the amount line, then a newline and the details line (when asked for) |
| Line.BuildLineMessage | apps/web/src/lib/line.ts:4-35 | the message built step by step equals the newline-join of the message lines, spelled out as above |
| Line.GenerateLineUrl | apps/web/src/lib/line.ts:40-43 | the URL is the LINE share prefix followed by the encoded message |
| Line.LineUrlRoundTrip | apps/web/src/lib/line.ts:40-43 | given a decoding that undoes the encoding, the URL gives back its message |

## Left out

- Floating point: base amounts are exact fractions. The source's `(total * w) / W` in doubles, and its rounding of `amount / step`, can differ from the exact result when a quotient lies within rounding error of an integer or of a half.
- Rounding units other than 0.1, 1, 10 and 100 are not modelled. The parameter's type admits any number (`calculation.ts:44`) and nothing validates it; the only caller (`apps/api/src/routes/sessions.ts:171-177`) passes no method and no unit, so the defaults, half up at 0.1, always apply. In the source a unit of 0 falls back to 0.1, and a negative unit would skip the rounding pass (`calculation.ts:72`).
- The `baseAmount` and `decimalPart` fields of the intermediate entries: `decimalPart` is never read, and `baseAmount` is recomputed from the entry's weight.
- Fractional or negative weights and totals are not modelled (weights are `nat`, the total is `nat`), following the request schema (`packages/shared/src/schemas.ts:9,14`).
- Calculation.ShareAmounts: conservation is proved only for pairwise distinct names none of which is "幹事"; without that the source does not conserve (see "## Findings").
- The session routes, database, HTTP API and UI that call these functions (`apps/api/src/routes/sessions.ts` and the web routes) are not part of this model.
- History.ViewHistoryStore.GetViewHistory: JSON parsing, a stored empty string and storage exceptions (the `catch` branches that log and return `[]` or skip the write) are not modelled; the slot holds an already-parsed list or nothing.
- History.ViewHistoryStore.SaveViewHistory: a failing `setItem` (quota, private mode) is not modelled; the write always succeeds.
- Line.ReplaceAll: the replacement is inserted literally; the `$` substitution patterns of `String.prototype.replace` are not interpreted, and the callers below exclude `$` from every replacement.
- Line.Substitute: requires that the participant name, title and formatted amounts contain no `$`, for the same reason.
- Line.MessageLines: the same no-`$` requirement, but only when a template is present; without one no replace runs and any name is accepted.
- Line.BuildLineMessage: the same no-`$` requirement, again only when a template is present; `toLocaleString` is the parameter `formatAmount`, whose output is not interpreted.
- Line.GenerateLineUrl: `encodeURIComponent` is the parameter `encode`; its escaping rules are not modelled.

## Findings

| source | as written | input that shows it | evidently intended | confidence | as-written member | corrected member |
|---|---|---|---|---|---|---|
| apps/api/src/utils/calculation.ts:101-108 | each output row takes the share of the first rounded entry with the same name | 1000 yen, participants [A:1, A:3], default rounding: both rows get 250 and the rows add up to 500 | each participant keeps the share rounded for its own position, so the rows add up to 1000 (250 and 750) | not executed | Calculation.DuplicateNamesLoseAmount | Calculation.ShareAmountsByIndex |
| apps/api/src/utils/calculation.ts:110-118 | the organiser row is whatever entry is named "幹事", including a real participant | 1000 yen, participants [幹事:1, B:3], default rounding: rows 250, 750 and an extra organiser row of 250, adding up to 1250 | an organiser row only when the rounding leaves a difference, so the rows add up to 1000 | not executed | Calculation.OrganizerNameShadowed | Calculation.ShareAmountsByIndex |
