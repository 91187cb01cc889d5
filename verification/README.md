# Owner calculations of the fleet dashboard, modelled in Dafny

The dashboard lets a dispatcher settle a trucking owner's week. It has five parts:

- **Draft builder.** A hook (`src/hooks/useOwner.js`) and a drawer (`src/CreateOwnerDrawer.jsx`)
  build a draft calculation. The user picks an owner and a period and adds directory trucks. Each
  truck's driver statement is looked up and fills the unit's amount, company and note. The draft is
  validated and sent as a create payload; the drawer first looks up a stored calculation and merges
  into it.
- **View drawer.** `src/ViewOwnerCalculationDrawer.jsx` shows one calculation, or a period that
  groups several. It works out which deductions (units with no linked statement) belong to the viewed
  week, reconciles them with the stored units, groups the units by truck and deletes units optimistically.
- **Deduction drawer.** `src/DeductionDrawer.jsx` adds or edits one deduction. It preselects a truck,
  loads that truck's driver statement and builds the calculation-unit body for a PUT or a POST.
- **Owners page.** `src/pages/owners.jsx` narrows the search results to the selected owner. It then
  keeps the calculations that carry data, drops repeated ids, groups them by period, sorts the
  periods newest first and paginates them.

Each part is a module:

| file | module | what |
|---|---|---|
| `js.dfy` | `Js` | The JavaScript semantics the code relies on: `trim`, `split(c)[0]`, `includes`, `join`, ASCII `toLowerCase`, `slice`, `replace(/[^0-9.-]/g, '')`, `parseFloat`, `String(n)`, truthiness and `||`. |
| `records.dfy` | `Records` | Directory trucks, driver statements, calculation units, owner calculations and wire units. Also the helpers the hook and the drawer share word for word: the truck lookup, `extractDriverInfo`, `fetchExistingCalculation` and `formatExistingUnits`. |
| `draft.dfy` | `Draft` | The draft state both builders keep and its invariant. Removing and editing units, the common submit checks and the per-unit payload. |
| `use_owner.dfy` | `UseOwner` | The hook: adding a truck with all its drivers, summing their statements, validating, submitting, and the truck options. |
| `create_owner.dfy` | `CreateOwner` | The drawer: adding a truck with its first driver, the statement lookup, and the submit with its merge into a stored calculation. |
| `view_calculation.dfy` | `ViewCalculation` | Date normalisation, the deduction-to-week map, `fetchDeductions`, the displayed units, truck grouping and the optimistic delete. |
| `deduction.dfy` | `Deduction` | Statement ids, statement loading, truck selection, the edit form and the create/update body. |
| `owners_page.dfy` | `OwnersPage` | The owner filter, the validity filter, de-duplication by id, period grouping, sorting and pagination. |

Network replies are parameters: a `Reply` for a statement lookup and a `ListReply` for a list
endpoint. Each covers an array, a page object, null, another value and a thrown error. For the
drawer's submit, an `Env` gives the answers to the lookups and writes in the order they are asked.
React state updates are pure functions from the old state to the new one. `null`, `undefined` and
`''` are all `""` where the code only tests truthiness. An id is `Option<int>`, and it is truthy
when present and non-zero. An amount field is a `Value` (absent, number or string) or a `NumText`
(the typed text, or the rendering of a number).

## Model

| member | source | states |
|---|---|---|
| Js.Trim | src/hooks/useOwner.js:563-564 | The result is free of surrounding whitespace. It is the input with its leading run of whitespace and a trailing run of whitespace cut off, and nothing in between is removed. |
| Js.TrimIdempotent | src/hooks/useOwner.js:563-564 | Trimming a trimmed name changes nothing. |
| Js.TrimEmptyIffAllSpace | src/hooks/useOwner.js:563 | `s.trim()` is empty exactly when every character of `s` is whitespace, so the `trim()` guard rejects blank names and keeps everything else. |
| Js.IndexOf | src/ViewOwnerCalculationDrawer.jsx:43-47 | -1 exactly when the character is absent; otherwise the position of its first occurrence. |
| Js.SplitHead | src/ViewOwnerCalculationDrawer.jsx:44 | `s.split(c)[0]` is the prefix of `s` before the first `c`, holds no `c`, and is all of `s` when `c` does not occur. |
| Js.SplitHeadAt | src/ViewOwnerCalculationDrawer.jsx:44 | When the first `c` is at position k, `split(c)[0]` is exactly the first k characters. |
| Js.IncludesIff | src/CreateOwnerDrawer.jsx:466-468 | `includes(sub)` holds exactly when `sub` occurs at some position. |
| Js.NonEmpty | src/hooks/useOwner.js:344 | `filter(name => name)` keeps exactly the non-empty strings and never more strings than it is given. |
| Js.NonEmptyAppend | src/hooks/useOwner.js:344 | The filter keeps order: filtering two lists in sequence is filtering each and concatenating. |
| Js.JoinNonEmptyIsEmptyIff | src/hooks/useOwner.js:649-651 | The joined non-empty names are empty exactly when every name is empty, which is when the option reads "No Driver". |
| Js.ToLower | src/pages/owners.jsx:164 | Maps each character through ASCII lower-casing, keeps the length and leaves no upper-case letter. |
| Js.ToLowerIdempotent | src/pages/owners.jsx:164 | Lower-casing twice is lower-casing once. |
| Js.TrimToLower | src/pages/owners.jsx:161-165 | Trimming and lower-casing commute, so the owner comparison does not depend on their order. |
| Js.Slice | src/pages/owners.jsx:617 | `slice(start, end)` with clamped bounds: the in-range window; empty when `end <= start` or `start` is past the end; the suffix when `end` is past the end. |
| Js.Clean | src/hooks/useOwner.js:501 | `replace(/[^0-9.-]/g, '')` keeps only digits, '.' and '-': a string of such characters is unchanged, and a string with none becomes empty. |
| Js.CleanAppend | src/hooks/useOwner.js:501 | Cleaning distributes over concatenation. |
| Js.CleanIdempotent | src/hooks/useOwner.js:501 | Cleaning a cleaned amount changes nothing. |
| Js.ParseDigits | src/hooks/useOwner.js:502 | `parseFloat` of a non-empty run of digits is the decimal value of the digits. |
| Js.ParseNoDigit | src/hooks/useOwner.js:502 | `parseFloat` of text without a digit is NaN, which the caller's fallback turns into 0. |
| Js.CleanedIgnoresFormatting | src/hooks/useOwner.js:501-502 | Currency signs, commas, letters and spaces in front of an amount do not change the value that cleaning and parsing produce. |
| Js.IntToString | src/hooks/useOwner.js:298 | `String(n)` is non-empty. For n >= 0 it is a digit string whose value is n; a negative n starts with '-'. |
| Js.IntToStringInjective | src/hooks/useOwner.js:296-299 | Two integer keys with the same rendering are equal, so the `String(tId) === String(truckId)` lookup compares keys. |
| Records.IdOrNull | src/hooks/useOwner.js:65 | A truthy id is kept; 0 or a missing id becomes null. |
| Records.FindTruck | src/hooks/useOwner.js:296-299 | The first directory truck with the key, or none exactly when no truck has it. |
| Records.FindTruckByString | src/hooks/useOwner.js:298 | A truck whose key renders like the wanted key is found. |
| Records.Unselected | src/CreateOwnerDrawer.jsx:547-550 | The trucks offered are exactly the directory trucks whose key is not selected. |
| Records.UnselectedAppend | src/CreateOwnerDrawer.jsx:547-550 | The offered trucks keep directory order: the filter distributes over concatenation of the directory. |
| Records.UnselectedAfterSelect | src/CreateOwnerDrawer.jsx:90-93 | Selecting a truck removes exactly that key from the offered list and keeps the other offers in order. |
| Records.RecordOf | src/hooks/useOwner.js:187-196 | A statement is found exactly for a non-empty array (its head) or an object (itself); null, other values and errors give none. |
| Records.ExtractDriverInfo | src/hooks/useOwner.js:35-67 | The amount is the first truthy of `total_amount` and `amount`, else 0. The pdf is the first non-empty of `pdf` and `pdf_url`, and is absent only when both are empty. The statement id is the truthy record id. A non-empty name string is kept, an object gives its `name`, any other present value gives "", and an absent or empty field falls back to `driver_name` (for the company, to `company_name`, then `carrier_company`). The note is kept. |
| Records.ListOf | src/hooks/useOwner.js:451-453 | The list in a reply is the array itself, else the page's `results`, else empty. |
| Records.FindCalculation | src/hooks/useOwner.js:455-462 | The first calculation with the same owner (by name or by owner id) and both dates equal; none exactly when no calculation matches. |
| Records.FetchExistingCalculation | src/hooks/useOwner.js:438-466 | Null on a failed request or a null reply; otherwise the first matching calculation of the listed ones, or null exactly when none matches. |
| Records.TruckKeyOf | src/hooks/useOwner.js:404 | The first truthy of the truck object's id, the truck field and `truck_id`: the object's truthy id; an id-less object; a truthy bare id; otherwise `truck_id`. |
| Records.StatementOf | src/hooks/useOwner.js:405-406 | The statement sent for a stored unit is never a numeric 0. A statement object is always sent, because it is truthy. With no statement, `statement_id` is sent exactly when truthy. |
| Records.ExistingAmount | src/hooks/useOwner.js:407-414 | A string amount is kept verbatim; a falsy non-string becomes "0.00"; a rendered number is the non-zero stored number. |
| Records.FormatUnit | src/hooks/useOwner.js:416-432 | The wire truck is numeric exactly when the stored unit has a numeric truck key. The driver is sent trimmed exactly when its trim is non-empty. The note is trimmed. No `driver_id` is sent. The amounts follow `ExistingAmount`. |
| Records.FormatExistingUnits | src/hooks/useOwner.js:402-436 | One wire unit per stored unit, position by position. |
| Records.FormatKeepsTruckKey | src/hooks/useOwner.js:417 | A formatted unit names a numeric truck exactly when its stored unit has one. |
| Draft.Reset | src/hooks/useOwner.js:625-633 | After a reset, the draft is consistent, has no pending lookup, no owner and no dates. |
| Draft.ClearDraft | src/hooks/useOwner.js:29-33 | Changing the owner empties the selection and the draft, keeps owner and dates, and leaves nothing pending. |
| Draft.AppendKeepsConsistent | src/hooks/useOwner.js:311-369 | Appending a unit for an unselected truck, and selecting it, keeps selection and draft in step with one unit per truck. |
| Draft.RemoveUnits | src/hooks/useOwner.js:391 | Keeps exactly the units of other trucks. The truck set loses just that id. Distinct trucks stay distinct. |
| Draft.RemoveTruck | src/hooks/useOwner.js:387-392 | The id leaves the selection and the draft, every other unit stays, and the builder invariant is preserved. |
| Draft.RemoveAt | src/hooks/useOwner.js:391 | In a consistent draft, removing a drafted truck deletes exactly its one unit and keeps the rest in order. |
| Draft.RemoveAbsent | src/hooks/useOwner.js:391 | Removing a truck that is not drafted leaves the draft unchanged. |
| Draft.Apply | src/hooks/useOwner.js:397 | `{ ...item, [field]: value }` sets the named field to the value and leaves every other field as it was. |
| Draft.UpdateUnits | src/hooks/useOwner.js:395-399 | Units of other trucks are unchanged; the matching unit gets the edit; the length is kept. |
| Draft.UpdateTruckData | src/hooks/useOwner.js:394-400 | Only the named field of the matching unit changes. Selection, dates and lookups are untouched, and consistency is preserved. |
| Draft.SetStatus | src/hooks/useOwner.js:374-380 | Only the matching unit's status changes. |
| Draft.MapTruck | src/hooks/useOwner.js:250-269 | Replaces the matching unit and keeps every other unit and the set of trucks. |
| Draft.UnitOf | src/hooks/useOwner.js:252 | A drafted truck's unit is found; none exactly when the truck is not drafted. |
| Draft.CommonChecks | src/hooks/useOwner.js:468-490 | Checks in order: an owner, both dates, at least one unit, nothing loading. Each refusal names the first failing check, and it passes exactly when all four hold. |
| Draft.AmountValue | src/hooks/useOwner.js:532-541 | An empty amount field counts as 0; a rendered total is its number. |
| Draft.EscrowValue | src/hooks/useOwner.js:543-555 | An empty escrow counts as 0; a rendered escrow is its number. |
| Draft.UnitPayload | src/hooks/useOwner.js:519-581 | A unit gets an entry exactly when its truck is in the directory. The entry has that truck, the cleaned amount and escrow, a trimmed driver exactly when the name is not blank, `driver_id` exactly when it is truthy, a statement exactly when its id is truthy, and a trimmed note. |
| Draft.BuildPayload | src/hooks/useOwner.js:519-583 | The payload has at most one entry per drafted unit. |
| Draft.PayloadAppend | src/hooks/useOwner.js:519-583 | The payload keeps draft order: the payload of two drafts in sequence is the first payload followed by the second. |
| Draft.PayloadSingle | src/hooks/useOwner.js:519-583 | One unit contributes its entry when its truck is in the directory, and nothing otherwise. |
| Draft.PayloadSound | src/hooks/useOwner.js:519-583 | Every entry is the entry of some drafted unit. |
| Draft.PayloadTrucksIn | src/hooks/useOwner.js:519-583 | Every entry names a drafted truck. |
| Draft.PayloadComplete | src/hooks/useOwner.js:519-583 | Every unit whose truck is in the directory contributes its entry. |
| Draft.PayloadEmpty | src/hooks/useOwner.js:519-583 | The payload is empty exactly when no drafted truck is in the directory. |
| Draft.PayloadTrucksDistinct | src/hooks/useOwner.js:519-583 | A draft with distinct trucks gives a payload with distinct trucks. |
| UseOwner.DriversOf | src/hooks/useOwner.js:319-342 | A non-empty driver list gives all its drivers. Otherwise there is at most one driver, from the object, the number or `driver_id`, and none exactly when no source is truthy. No driver starts with an amount or a statement. |
| UseOwner.EntryDrivers | src/hooks/useOwner.js:325-328 | One draft driver per listed driver, keeping id and full name. |
| UseOwner.NewItem | src/hooks/useOwner.js:344-367 | The appended unit is loading and blank. It carries the truck's drivers, their non-empty names joined by " / ", the first driver's id, and non-empty unit number and VIN. |
| UseOwner.AddTruck | src/hooks/useOwner.js:287-369 | Nothing changes without a pick, without both dates, for an unknown truck or for a selected one. Otherwise the truck is selected and its new unit is appended. Consistency is preserved. |
| UseOwner.ResultOf | src/hooks/useOwner.js:175-241 | A driver's result keeps id and name. Without a statement it carries amount 0, no statement, empty company and note and no pdf. With one it carries the statement's extracted fields. |
| UseOwner.Results | src/hooks/useOwner.js:175-244 | One result per driver, in driver order; a missing reply counts as a failed one. |
| UseOwner.SumAppend | src/hooks/useOwner.js:245 | The total of the amounts splits over any cut of the results. |
| UseOwner.FailedAddsNothing | src/hooks/useOwner.js:230-245 | A failed lookup adds nothing to the total. |
| UseOwner.AllFailedSumZero | src/hooks/useOwner.js:220-245 | When every lookup fails the total is 0. |
| UseOwner.FirstPdf | src/hooks/useOwner.js:248 | Some driver's pdf, none exactly when no driver has a non-empty one. |
| UseOwner.Kept | src/hooks/useOwner.js:256-261 | The stored drivers keep each result's id, name, rendered amount and statement id. |
| UseOwner.Aggregate | src/hooks/useOwner.js:250-266 | The settled unit is fetched. Its total is the sum of the drivers' amounts, companies are joined by ", " and notes by "; ", and the pdf is the first one. Truck, driver, escrow and statement id are untouched. |
| UseOwner.Settle | src/hooks/useOwner.js:371-381 | Only the added truck's unit changes. With drivers and dates it becomes the aggregate of that truck's driver lookups and its lookup flag is cleared; otherwise it turns manual. Consistency is preserved. |
| UseOwner.AggregateAll | src/hooks/useOwner.js:250-269 | Only the matching unit is aggregated; trucks and their distinctness are kept. |
| UseOwner.AddTruckAndSettle | src/hooks/useOwner.js:287-385 | A whole add keeps the builder invariant. |
| UseOwner.AddedUnitStatus | src/hooks/useOwner.js:369-381 | After a successful add the new unit is last, fetched when the truck has a driver and manual otherwise, never loading. When every lookup fails it is still fetched, with total 0. |
| UseOwner.FirstBadAmount | src/hooks/useOwner.js:492-511 | The first unit whose amount fails the check, or none exactly when every unit passes. |
| UseOwner.Validate | src/hooks/useOwner.js:468-511 | It passes exactly when the common checks pass and every unit has a non-zero amount. The common checks' refusal comes first, and an amount refusal names the first bad unit. |
| UseOwner.HandleSubmit | src/hooks/useOwner.js:468-611 | A rejection is either a failed validation or "no valid units". The latter happens exactly when validation passes and no drafted truck is in the directory. Otherwise one create request is sent, with owner, dates and the payload, and every unit in it has a non-zero amount. |
| UseOwner.SentTrucksDistinct | src/hooks/useOwner.js:519-595 | The create request of a consistent draft never names a truck twice. |
| UseOwner.NonBlank | src/hooks/useOwner.js:645 | Keeps exactly the names whose trim is non-empty, untrimmed, and never more names than it is given. |
| UseOwner.NonBlankAppend | src/hooks/useOwner.js:645 | The filter keeps order, which fixes the " / " label: filtering two lists in sequence is filtering each and concatenating. |
| UseOwner.OptionNames | src/hooks/useOwner.js:641-648 | A driver list shows its non-blank full names. A driver object shows its full name when that is set. A truck without a driver or with a bare driver id shows none. Every name shown is non-empty. |
| UseOwner.OptionOf | src/hooks/useOwner.js:640-655 | The value is the rendered truck key. The unit number is the truck's or "N/A". The driver name is the shown names joined by " / ", empty exactly when there are none. The label is "Unit u - names" or "Unit u - No Driver". |
| UseOwner.Options | src/hooks/useOwner.js:635-658 | One option per unselected truck, each the option of the truck at the same position. |
| UseOwner.OptionsAppend | src/hooks/useOwner.js:635-658 | The options keep directory order: they distribute over concatenation of the directory. |
| UseOwner.OptionValuesDistinct | src/hooks/useOwner.js:652 | Two options with the same value are for the same truck key. |
| UseOwner.SelectedNotOffered | src/hooks/useOwner.js:639 | No option offers a selected truck. |
| CreateOwner.DeriveDriverId | src/CreateOwnerDrawer.jsx:98-107 | The driver id is the list head's id, else the object's truthy id, else a non-zero number, else `driver_id`. |
| CreateOwner.NewItem | src/CreateOwnerDrawer.jsx:109-121 | The appended unit is loading, with the derived driver id and empty name, amount, escrow, note and company. |
| CreateOwner.AddTruck | src/CreateOwnerDrawer.jsx:64-123 | The checks run in order: a pick, an owner, both dates, a known truck, not already added. Each failure gives its notice and leaves the state unchanged. Otherwise the truck is selected and its unit appended. Consistency is preserved. |
| CreateOwner.BeginFetch | src/CreateOwnerDrawer.jsx:183 | The truck's lookup is marked in flight, which makes the draft pending. |
| CreateOwner.SubmitWaitsForLookup | src/CreateOwnerDrawer.jsx:328-332 | A submit during a lookup is turned away with "wait for driver data". |
| CreateOwner.WithStatement | src/CreateOwnerDrawer.jsx:201-216 | The fetched unit takes the statement's name, company, note, amount and statement id, and keeps its escrow. |
| CreateOwner.CompleteFetch | src/CreateOwnerDrawer.jsx:173-242 | The lookup flag is cleared. Only the truck's unit changes: fetched with the statement's fields when one came back, manual otherwise. Consistency is preserved. |
| CreateOwner.FetchAll | src/CreateOwnerDrawer.jsx:204-217 | Only the matching unit takes the statement. |
| CreateOwner.Settle | src/CreateOwnerDrawer.jsx:125-134 | Only the added truck's unit changes: every other unit is untouched, and the added one is fetched with the statement's fields when a lookup ran and found one, manual otherwise. Its lookup flag is cleared when one ran, and consistency is preserved. |
| CreateOwner.SameFirstDriver | src/CreateOwnerDrawer.jsx:98-107 | The drawer's driver id is the first of the hook's drivers, so both builders look up the same first driver. |
| CreateOwner.NamesByString | src/CreateOwnerDrawer.jsx:414 | The rendered-key comparison of the merge is key equality. |
| CreateOwner.NewUnits | src/CreateOwnerDrawer.jsx:411-416 | Exactly the payload units whose truck no stored unit names. |
| CreateOwner.MergeUnits | src/CreateOwnerDrawer.jsx:426-432 | Every stored unit in wire form, in order, followed by the new units. |
| CreateOwner.MergeKeepsEveryTruck | src/CreateOwnerDrawer.jsx:411-432 | Every drafted truck is in the merged list. |
| CreateOwner.MergeAddsNoDuplicate | src/CreateOwnerDrawer.jsx:411-432 | A new unit never repeats the truck of a stored one. |
| CreateOwner.MergeExample | src/CreateOwnerDrawer.jsx:411-432 | Trucks 1 and 2 stored and trucks 2 and 3 drafted merge to 1, 2, 3. |
| CreateOwner.ErrorMessage | src/CreateOwnerDrawer.jsx:527-531 | The shown message is never empty: `message`, else `response.error`, else `response.detail`, else the generic text. |
| CreateOwner.AlreadyExistsAnywhere | src/CreateOwnerDrawer.jsx:466-468 | The phrase "already exists" anywhere in the detail marks a conflict. |
| CreateOwner.Recover | src/CreateOwnerDrawer.jsx:465-512 | Anything but a conflict fails with its message and nothing more is sent. A conflict re-runs the lookup: with no stored calculation it fails; otherwise it either has nothing to add or POSTs the merged list. No PATCH is sent, and only a save resets the form. |
| CreateOwner.Dispatch | src/CreateOwnerDrawer.jsx:407-513 | As written, a missing calculation fails on the null read and sends nothing. A found one is POSTed whole. A save resets the form, and no PATCH is ever sent. |
| CreateOwner.HandleSubmit | src/CreateOwnerDrawer.jsx:312-536 | Requests are sent exactly when the common checks pass, and a check failure is reported as such. The first request is the lookup, and "no valid units" comes exactly when no drafted truck is in the directory. Failures carry a message, only a save resets, and no PATCH is sent. |
| CreateOwner.AsWrittenNeverCreates | src/CreateOwnerDrawer.jsx:409-410 | For a valid draft whose period has no stored calculation, the drawer only sends the lookup and fails on the null read, keeping the draft. |
| CreateOwner.SavedOnlyWithStoredCalculation | src/CreateOwnerDrawer.jsx:409-513 | A save needs a stored calculation. A failed POST counts only when it was a conflict. |
| CreateOwner.AsWrittenExample | src/CreateOwnerDrawer.jsx:409-410 | A concrete draft of one directory truck for a new period fails with the null-read message. |
| CreateOwner.HandleSubmitIntended | src/CreateOwnerDrawer.jsx:409-464 | With the dispatch the code evidently meant, a stored calculation is PATCHed with the merged units and a new period is POSTed. The null-read failure is gone. |
| CreateOwner.IntendedCreates | src/CreateOwnerDrawer.jsx:447-463 | A valid draft for a new period is saved by one POST of its payload after the lookup. |
| CreateOwner.DispatchesAgreeOnRejection | src/CreateOwnerDrawer.jsx:312-405 | Both versions agree on every submit the checks or the empty payload stop. |
| ViewCalculation.NormalizeDate | src/ViewOwnerCalculationDrawer.jsx:40-50 | A falsy date gives "". Otherwise the result is the prefix of the trimmed date cut at its first 'T', else at its first space, else the whole trimmed date, and it holds no 'T'. |
| ViewCalculation.NormalizePlainDate | src/ViewOwnerCalculationDrawer.jsx:40-50 | A date without whitespace and without 'T' is unchanged. |
| ViewCalculation.NormalizeIsoDate | src/ViewOwnerCalculationDrawer.jsx:52-53 | A bare `YYYY-MM-DD` date is unchanged. |
| ViewCalculation.NormalizeIdempotentWhenSpaceFree | src/ViewOwnerCalculationDrawer.jsx:40-50 | Normalizing twice equals normalizing once when the first result has no whitespace. |
| ViewCalculation.NormalizeNotIdempotent | src/ViewOwnerCalculationDrawer.jsx:43-48 | Without that condition it is not idempotent: "a bTc" gives "a b", which gives "a". |
| ViewCalculation.NormalizeTimestamp | src/ViewOwnerCalculationDrawer.jsx:43-45 | "2024-01-01T00:00:00Z" normalizes to "2024-01-01". |
| ViewCalculation.FirstWins | src/ViewOwnerCalculationDrawer.jsx:135-141 | The map has a key exactly for each entry's id, and each value is one of that id's entries. |
| ViewCalculation.FirstWinsFirst | src/ViewOwnerCalculationDrawer.jsx:135 | An id is mapped to the week of its first entry. |
| ViewCalculation.FirstWinsKeepsEarlier | src/ViewOwnerCalculationDrawer.jsx:152 | Later entries never change an id that already has a week. |
| ViewCalculation.CalcEntries | src/ViewOwnerCalculationDrawer.jsx:128-145 | A calculation contributes exactly its keyed deductions, each with the calculation's normalized period. |
| ViewCalculation.UnitEntries | src/ViewOwnerCalculationDrawer.jsx:133-143 | Exactly the keyed deductions of the list, each with the given week. |
| ViewCalculation.AllCalcEntries | src/ViewOwnerCalculationDrawer.jsx:128-145 | Exactly the entries of every owner calculation. |
| ViewCalculation.OwnEntries | src/ViewOwnerCalculationDrawer.jsx:147-161 | A fetched keyed deduction with both dates contributes its own normalized period, and every entry comes from such a deduction. |
| ViewCalculation.WeekMap | src/ViewOwnerCalculationDrawer.jsx:126-161 | Every keyed deduction listed by an owner calculation, and every dated keyed fetched deduction, has an entry. The map never has key 0, because a falsy id is skipped. |
| ViewCalculation.FirstWinsIsFirstWeek | src/ViewOwnerCalculationDrawer.jsx:135-141 | The map keeps, for each id, the week of its first entry and holds no other id. |
| ViewCalculation.OwnEntriesFirst | src/ViewOwnerCalculationDrawer.jsx:147-161 | Among the fetched units' entries, the first for a dated keyed deduction's id is its own period when no earlier unit has that id. |
| ViewCalculation.OwnPeriodFallback | src/ViewOwnerCalculationDrawer.jsx:147-161 | A dated keyed deduction that no owner calculation lists, and that no earlier fetched unit shares an id with, is mapped to its own normalized period. |
| ViewCalculation.ParentPeriodWins | src/ViewOwnerCalculationDrawer.jsx:126-161 | A deduction listed in an owner calculation is mapped to that calculation's period, whatever its own dates say. |
| ViewCalculation.WeekOf | src/ViewOwnerCalculationDrawer.jsx:212 | The map's week for the unit's id, present exactly when the id is a key. |
| ViewCalculation.AppendNewIds | src/ViewOwnerCalculationDrawer.jsx:297-302 | The list so far is kept as a prefix, and everything appended comes from the new units. |
| ViewCalculation.AppendedAreNew | src/ViewOwnerCalculationDrawer.jsx:299 | Every appended unit's id was not yet present. |
| ViewCalculation.AppendCoversIds | src/ViewOwnerCalculationDrawer.jsx:297-302 | Each new unit's id is present afterwards. |
| ViewCalculation.DedupDistinct | src/ViewOwnerCalculationDrawer.jsx:272-276 | Starting from nothing, the collected units have distinct ids. |
| ViewCalculation.OwnWeek | src/ViewOwnerCalculationDrawer.jsx:221-227 | A unit without both dates has no period of its own. |
| ViewCalculation.FilteredDeductions | src/ViewOwnerCalculationDrawer.jsx:194-262 | Keeps exactly the fetched units that pass the filter, and never more than were fetched. |
| ViewCalculation.FilteredAppend | src/ViewOwnerCalculationDrawer.jsx:194-262 | The filter keeps the fetched order: it distributes over concatenation. |
| ViewCalculation.KeptIsInViewedWeek | src/ViewOwnerCalculationDrawer.jsx:231-261 | A kept unit is a deduction. Its own period is the viewed week when it has one; otherwise its mapped week is. |
| ViewCalculation.OwnDatesOverrideOwnerCalc | src/ViewOwnerCalculationDrawer.jsx:224-236 | A unit whose own period is another week is dropped, even when an owner calculation lists it. |
| ViewCalculation.KeyedOf | src/ViewOwnerCalculationDrawer.jsx:273 | Exactly the deductions with a truthy id. |
| ViewCalculation.WeekCalcUnits | src/ViewOwnerCalculationDrawer.jsx:264-280 | Exactly the keyed deductions of the period view's calculations whose period is the viewed week: each collected unit is one, and each one is collected. |
| ViewCalculation.EmbeddedDeductions | src/ViewOwnerCalculationDrawer.jsx:264-295 | Keyed deductions with distinct ids, and none when the viewed calculation embeds no units. Every keyed deduction of an in-week calculation of a period view, or of a single calculation, has its id kept. A single calculation's list holds only its own units. |
| ViewCalculation.WeekApiUnits | src/ViewOwnerCalculationDrawer.jsx:304-320 | Exactly the fetched keyed deductions whose mapped week is the viewed one. |
| ViewCalculation.CombineDeductions | src/ViewOwnerCalculationDrawer.jsx:297-320 | The filtered units come first, unchanged; everything after comes from the embedded or the week-matching units. |
| ViewCalculation.CombineCoversIds | src/ViewOwnerCalculationDrawer.jsx:297-320 | No embedded or week-matching deduction is lost by id. |
| ViewCalculation.FetchDeductions | src/ViewOwnerCalculationDrawer.jsx:23-374 | Empty without a calculation, without both dates, without an owner name, on a failed request or with no owner calculations. Otherwise every result is a deduction. |
| ViewCalculation.WeekDeductions | src/ViewOwnerCalculationDrawer.jsx:194-320 | Every combined unit is a deduction. |
| ViewCalculation.WeekDeductionsInWeek | src/ViewOwnerCalculationDrawer.jsx:194-320 | Each unit of the combination passed the filter, is embedded for the viewed week, or is a fetched deduction whose mapped week is the viewed week. |
| ViewCalculation.FetchedInViewedWeek | src/ViewOwnerCalculationDrawer.jsx:194-320 | Every returned deduction belongs to the viewed week: by the filter's date check, as embedded in a calculation of that week, or through its mapped week. |
| ViewCalculation.Visible | src/ViewOwnerCalculationDrawer.jsx:540 | Exactly the units whose id is not deleted. |
| ViewCalculation.StoredUnits | src/ViewOwnerCalculationDrawer.jsx:510-523 | The units of every calculation of a period view, or the single calculation's own units. |
| ViewCalculation.CalcsUnits | src/ViewOwnerCalculationDrawer.jsx:514-523 | Exactly the units of the listed calculations. |
| ViewCalculation.FindIndex | src/ViewOwnerCalculationDrawer.jsx:544 | The position of the first unit with the id, or -1 exactly when none has it. |
| ViewCalculation.Upsert | src/ViewOwnerCalculationDrawer.jsx:542-551 | The deduction is shown afterwards. Other ids are kept, the length is kept when the id was shown, and otherwise the deduction is appended. |
| ViewCalculation.UpsertAll | src/ViewOwnerCalculationDrawer.jsx:542-551 | Every shown unit comes from the list or the deductions. |
| ViewCalculation.UpsertAllCovers | src/ViewOwnerCalculationDrawer.jsx:542-551 | Every upserted deduction's id is shown. |
| ViewCalculation.UpsertKeepsIds | src/ViewOwnerCalculationDrawer.jsx:542-551 | An id already shown stays shown. |
| ViewCalculation.DisplayUnits | src/ViewOwnerCalculationDrawer.jsx:510-551 | No deleted unit is shown, every shown unit comes from a source, and every non-deleted week deduction's id is shown. |
| ViewCalculation.GroupKey | src/ViewOwnerCalculationDrawer.jsx:664 | The truck's unit number, else its truthy id rendered, else `no-truck-<id>`, both for a truck object without either and for a unit without a truck object. |
| ViewCalculation.NoTruckKeysDiffer | src/ViewOwnerCalculationDrawer.jsx:664 | Units without a truck object and with different ids land in different groups. |
| ViewCalculation.WithKeyMembers | src/ViewOwnerCalculationDrawer.jsx:662-669 | A group holds exactly the units with its key. |
| ViewCalculation.GroupByTruck | src/ViewOwnerCalculationDrawer.jsx:662-669 | One non-empty group per distinct key. Each group holds exactly its key's units in order, and every unit is in its group. |
| ViewCalculation.DeleteUnit | src/ViewOwnerCalculationDrawer.jsx:676-725 | A unit without an id changes nothing. A successful delete adds its id to the deleted set, and a failed one takes it out again. A deduction's delete refetches the deductions. |
| ViewCalculation.MarkDeleted | src/ViewOwnerCalculationDrawer.jsx:691-696 | The id is marked deleted, and a deduction leaves the deduction list. |
| ViewCalculation.WithoutId | src/ViewOwnerCalculationDrawer.jsx:695 | Exactly the deductions with another id. |
| ViewCalculation.MarkedUnitHidden | src/ViewOwnerCalculationDrawer.jsx:691-696 | A unit being deleted is off the screen. |
| ViewCalculation.FailedDeleteRestores | src/ViewOwnerCalculationDrawer.jsx:717-721 | A failed delete restores the deleted set. |
| Deduction.ChainSid | src/DeductionDrawer.jsx:144 | `statement?.id ?? statement ?? statement_id ?? null`: null exactly when all are missing. It is an object exactly for an id-less statement object, and otherwise the first present number. |
| Deduction.SidWire | src/DeductionDrawer.jsx:240-242 | `Number(statementId)` is that number for a numeric id, and null for an object. |
| Deduction.FromStatement | src/DeductionDrawer.jsx:129-152 | The name by field shape. The amount is the first truthy of `total_amount` and `amount`, else 0; the escrow the first truthy of `escrow` and `total_escrow`, else 0. The statement id is the record id, else the chain. |
| Deduction.LoadStatement | src/DeductionDrawer.jsx:73-172 | Nothing happens without a driver, a calculation or both dates. A statement fills driver, amount and escrow; no statement or an error clears the loaded data. |
| Deduction.Coalesce | src/DeductionDrawer.jsx:405 | `x ?? y`. |
| Deduction.SelectedDriverId | src/DeductionDrawer.jsx:398-415 | The list head's or the object's `id ?? _id`, falling back to `driver_id` when that is falsy. A truthy `driver_id` always yields a truthy id. |
| Deduction.SelectTruck | src/DeductionDrawer.jsx:390-431 | Clearing the select empties driver, amount, escrow and the loaded data. An unknown truck changes only the selection. A known truck fills the joined driver names, then loads its statement or clears amount and escrow. |
| Deduction.SelectLoadsStatement | src/DeductionDrawer.jsx:420-421 | A truck whose driver has a statement for the period gets that statement's amount. |
| Deduction.EditTruck | src/DeductionDrawer.jsx:53-56 | The preselected truck is a truthy bare id, else the object's truthy `id`, else its truthy `_id`, and none otherwise. It is never 0. |
| Deduction.EditForm | src/DeductionDrawer.jsx:52-61 | The edit form shows the stored truck, driver and note. The amount and escrow are kept when truthy and cleared otherwise. |
| Deduction.FieldAmount | src/DeductionDrawer.jsx:196-207 | An empty field sends 0, a number is sent as it is, and text is cleaned and parsed, with NaN becoming 0. |
| Deduction.FieldAmountNoDigit | src/DeductionDrawer.jsx:197-206 | Typed text without a digit sends 0. |
| Deduction.FieldAmountDigits | src/DeductionDrawer.jsx:199-200 | Currency signs and separators before the digits do not change the amount. |
| Deduction.ResolveSid | src/DeductionDrawer.jsx:239 | The loaded statement's id wins, then the edited deduction's chain, then null. |
| Deduction.Payload | src/DeductionDrawer.jsx:244-263 | The owner is the calculation id. Driver, amounts and dates come from the form and the calculation. The truck is sent when one is selected, the note trimmed when not blank, and the statement exactly when the resolved id is truthy. |
| Deduction.Submit | src/DeductionDrawer.jsx:175-307 | The submit is refused exactly without a calculation, without both dates or without an owner id. Otherwise it sends the payload, as a PUT to the unit exactly when editing a deduction with an id, else as a POST. |
| Deduction.PutAndPostSendSameBody | src/DeductionDrawer.jsx:265-295 | An edit and a creation of the same unit send the same body. |
| Deduction.UnchangedEditResends | src/DeductionDrawer.jsx:52-273 | Saving an opened deduction unchanged resends its amounts, driver and truck. |
| OwnersPage.OwnerText | src/pages/owners.jsx:161 | A missing owner gives "", and a name gives itself. |
| OwnersPage.FilterByOwner | src/pages/owners.jsx:158-173 | Keeps exactly the calculations whose trimmed owner equals the trimmed name, ignoring case. |
| OwnersPage.OwnerMatchIgnoresCase | src/pages/owners.jsx:164-165 | The case in which the owner was selected does not matter. |
| OwnersPage.OwnerCalculations | src/pages/owners.jsx:137-177 | A failed, null or non-list reply gives none; otherwise exactly the listed calculations of that owner. |
| OwnersPage.ExtractTruckNumber | src/pages/owners.jsx:199-211 | The object truck's unit number, else the item's, else "N/A"; never empty. |
| OwnersPage.ValidCalculations | src/pages/owners.jsx:528-534 | Exactly the calculations with units, a positive total or a non-zero escrow. |
| OwnersPage.UnparsableEscrowIsData | src/pages/owners.jsx:531 | An escrow of "n/a" counts as data, because NaN differs from 0. |
| OwnersPage.NothingToShow | src/pages/owners.jsx:528-534 | No units, a total of at most 0 and no escrow is not data. |
| OwnersPage.UniqueById | src/pages/owners.jsx:558-567 | Reference definition: a calculation stays when its id is falsy or not yet seen. |
| OwnersPage.DedupById | src/pages/owners.jsx:558-567 | The seen-set loop computes exactly the reference definition. |
| OwnersPage.UniqueIdsDistinct | src/pages/owners.jsx:561-563 | No two kept calculations share a truthy id. |
| OwnersPage.UniqueKeepsEveryId | src/pages/owners.jsx:560-567 | Calculations with a falsy id all stay, and every id keeps one calculation. |
| OwnersPage.PeriodKeyInjective | src/pages/owners.jsx:571 | Dates without '_' and other than "N/A" share a key only when they are the same dates. |
| OwnersPage.PeriodKeys | src/pages/owners.jsx:569-581 | Exactly the period keys of the calculations, each once. |
| OwnersPage.PeriodGroup | src/pages/owners.jsx:569-579 | A period's calculations, with distinct ids, and non-empty when any calculation has that period. |
| OwnersPage.PeriodOf | src/pages/owners.jsx:598-606 | A row carries its group's key. |
| OwnersPage.PeriodRows | src/pages/owners.jsx:581-607 | At most one row per key, each for a non-empty group, built from the group's first calculation. |
| OwnersPage.ValidRowsPerKey | src/pages/owners.jsx:582-597 | When every calculation is valid, every key gets its row. |
| OwnersPage.StrLessTotal | src/pages/owners.jsx:610 | The date order is total. |
| OwnersPage.StrLessTrans | src/pages/owners.jsx:610 | The date order is transitive. |
| OwnersPage.Insert | src/pages/owners.jsx:608-613 | Inserting adds exactly one row and loses none. |
| OwnersPage.SortPeriods | src/pages/owners.jsx:608-613 | The sort is a permutation of the rows. |
| OwnersPage.InsertNewestFirst | src/pages/owners.jsx:608-613 | Inserting a dated row into rows sorted newest first keeps them sorted. |
| OwnersPage.SortNewestFirst | src/pages/owners.jsx:608-613 | Rows that all have a start date come out newest first. |
| OwnersPage.NewestFirstAllPairs | src/pages/owners.jsx:608-613 | In sorted rows no later row starts after an earlier one. |
| OwnersPage.Page | src/pages/owners.jsx:615-617 | A page holds only rows of the list and is never longer than it. |
| OwnersPage.PageBounds | src/pages/owners.jsx:615-617 | A page holds at most `size` rows, starting at `(page - 1) * size`. |
| OwnersPage.PagesConcat | src/pages/owners.jsx:615-617 | The first n pages concatenate to the first n times `size` rows. |
| OwnersPage.AllPagesCover | src/pages/owners.jsx:615-617 | Enough pages show every row exactly once, in order. |
| OwnersPage.PeriodPage | src/pages/owners.jsx:528-617 | The page shows the requested window of the period table sorted newest first. Every row is for a period of some valid calculation. No period appears twice. The rows are newest first when every valid calculation has a start date. A page of size n holds at most n rows, and there are never more rows than calculations. |
| OwnersPage.RowsFromValid | src/pages/owners.jsx:528-607 | Every period row comes from a valid calculation. |
| OwnersPage.KeysBound | src/pages/owners.jsx:569-581 | There are no more periods than calculations. |

## Left out

- The API client (`apiRequest`), authentication, toasts, logging, scrolling, loading spinners, query-cache invalidation and React rendering are not modelled. Replies are parameters instead.
- Concurrency is not modelled. Each asynchronous flow runs to completion with its replies given, and interleavings of two adds, or of an add and a submit, are not explored.
- Dates are strings. `dayjs` parsing and formatting and the date pickers are not modelled; a picked date is its `YYYY-MM-DD` text.
- Draft.UnitPayload: amounts are exact reals. Binary floating point and the rounding of `toFixed(2)` are not modelled, so the payload carries the unrounded value.
- Js.ParseFloat: exponents and `Infinity` are not parsed. The model skips leading whitespace and reads a sign, digits, a point and digits.
- UseOwner.ResultOf: `total_gross` is read but never used, so it is not carried.
- `useOwner.fetchDriverData` (the single-driver lookup) is never called by the hook, so it is not modelled.
- The view drawer's diagnostic block before the result is stored reads an undefined variable only when the result is already empty. It is not modelled; the result is empty either way.
- The view drawer's render-time `normalizeDate` is defined but never called, so it is not modelled.
- `fetchUpdatedCalculation` and `onRefresh` in the view drawer reload data the model receives as parameters. They are not modelled.
- ViewCalculation.GroupByTruck: keys come back in order of first appearance. JavaScript's `Object.entries` lists integer-like keys (a bare truck id) first in numeric order; that reordering is not modelled.
- OwnersPage.SortPeriods: `localeCompare` is modelled as code-unit order, which agrees on `YYYY-MM-DD` dates. Rows without a start date make the source comparator inconsistent, so the browser's order is unspecified. The model's stable insertion sort is one possible outcome, and sortedness is proved only for rows that all have a start date.
- Js.ToLower: only ASCII letters are lower-cased; Unicode case mapping is not modelled.
- A non-numeric truck `_id` becomes NaN through `Number`; truck keys are integers in the model.
- `null` entries inside reply arrays are not modelled, except where the code skips them anyway.
- `truck_id: null` and a missing `truck_id` are the same in the model.
- The deduction drawer's `pdfUrl` and the owners page's display-only `ownerName`, `globalOwnerId` and `extractDriverInfo` are not modelled, because nothing downstream uses them.
- Catch branches around code that cannot throw are not modelled.

## Findings

| source | as written | input that shows it | evidently intended | confidence | as-written member | corrected member |
|---|---|---|---|---|---|---|
| src/CreateOwnerDrawer.jsx:409-410 | `if (!existingCalculation)` enters the merge branch exactly when no calculation was found, and then reads `existingCalculation.calculation_units` of null | A valid draft of one directory truck for a period with no stored calculation: the lookup returns null, line 410 throws a TypeError, its message is shown and nothing is created | `if (existingCalculation)`: merge into and PATCH a stored calculation, and POST a new one otherwise | high, not executed | CreateOwner.HandleSubmit (with CreateOwner.AsWrittenNeverCreates and CreateOwner.AsWrittenExample) | CreateOwner.HandleSubmitIntended (with CreateOwner.IntendedCreates) |

Behaviours of the code that may surprise a reader:

- The deduction drawer sends `owner: Number(calculation.id)`, the calculation's id rather than an owner id.
- The owners page counts an unparsable `total_escrow` as data.
- The hook's multi-driver lookup never sets the unit's own `statementId`, so its payload carries no `statement`.
