# Berry and mushroom stock: store, create rule and profit totals

This project models the core of a small collecting-stock application in Dafny. The application records berries and mushrooms that users have collected, with their prices.

- **`Store`** (`DataStore.dfy`): the backend's in-memory `DataStore`.
  - It is a class with two lists, `users` and `stockItems`, that its methods update in place.
  - The store's invariant is that ids are unique in both lists.
  - Each method is proved against specification functions: first-match lookup (`IndexOfId`, `UserIndex`), the user filter (`ItemsOfUser`), the object-spread merge (`Merge`) and `splice` (`RemoveAt`).
- **`StockController`** (`StockController.dfy`): the request handlers in front of the store.
  - The create rule is a pure function (`ResolveCreate`) from a request body to either a tagged error or the record to append. It runs the ordered guard chain, the `||`-based price fallbacks and the trimming of text fields.
  - A method then composes the create rule with the store's append.
  - The get, update and delete handlers map "absent" to a not-found reply.
  - The listing handler chooses between all items and one user's items.
  - JavaScript truthiness is written out: a number field is absent, `null` or a number, and `0` and `""` are falsy.
- **`Text`** (`Text.dfy`): `String.prototype.trim`, over the ECMAScript white-space and line-terminator code points.
- **`ProfitDashboard`** (`ProfitDashboard.dfy`): the arithmetic of the frontend's profit dashboard.
  - The `calculateTotals` reduction over the year-keyed map.
  - The years listed newest first.
  - The two guarded margins.
  - Amounts are exact reals, and the totals are proved independent of the order in which years are visited.
- **`Types`** (`Types.dfy`): the record shapes shared by the modules.

Fresh ids (`uuidv4()`) and the clock (`new Date()`) are parameters of the creating methods. Freshness of an id is a precondition.

## Model

| member | source | states |
|---|---|---|
| Store.UserIndex | backend/src/models/DataStore.ts:20 | -1 exactly when no user has the id, otherwise the index of the first user with it |
| Store.FindUser | backend/src/models/DataStore.ts:19-21 | no user is found exactly when no user has the id; a found user is in the list and has that id |
| Store.IndexOfId | backend/src/models/DataStore.ts:51 | `findIndex`: -1 exactly when no record has the id, otherwise the index of the first record with it |
| Store.FindItem | backend/src/models/DataStore.ts:46-48 | nothing is found exactly when no record has the id; a found record is in the list and has that id |
| Store.ItemsOfUser | backend/src/models/DataStore.ts:38-40 | the filter holds exactly the records of the list that belong to the user, and is no longer than the list |
| Store.Stamp | backend/src/models/DataStore.ts:28-33 | the created record carries the fresh id and the creation time |
| Store.Merge | backend/src/models/DataStore.ts:54 | merging a patch never changes a record's `id`, `userId` or `collectedAt` |
| Store.RemoveAt | backend/src/models/DataStore.ts:62 | `splice(index, 1)`: one element shorter, the same multiset less the removed record, and the others in their old order |
| Store.DataStore.constructor | backend/src/models/DataStore.ts:4-6 | a new store is empty and valid |
| Store.DataStore.CreateUser | backend/src/models/DataStore.ts:9-17 | appends exactly the new user and returns it; stock items are untouched; ids stay unique |
| Store.DataStore.GetUserById | backend/src/models/DataStore.ts:19-21 | the loop returns the first user with the id, or none |
| Store.DataStore.GetAllUsers | backend/src/models/DataStore.ts:23-25 | returns the users in store order |
| Store.DataStore.CreateStockItem | backend/src/models/DataStore.ts:28-36 | appends exactly the stamped record at the end and returns it; users are untouched; ids stay unique |
| Store.DataStore.GetStockItemsByUser | backend/src/models/DataStore.ts:38-40 | the loop returns exactly the user's records in store order |
| Store.DataStore.GetAllStockItems | backend/src/models/DataStore.ts:42-44 | returns the records in store order |
| Store.DataStore.IndexOf | backend/src/models/DataStore.ts:51 | the loop finds the index of the first record with the id, or -1 |
| Store.DataStore.GetStockItemById | backend/src/models/DataStore.ts:46-48 | returns the first record with the id, or none |
| Store.DataStore.UpdateStockItem | backend/src/models/DataStore.ts:50-56 | absent id: returns none and nothing changes; found: only that index changes, to the merged record, which is returned; the length is kept and ids stay unique |
| Store.DataStore.DeleteStockItem | backend/src/models/DataStore.ts:58-64 | returns whether the id was present; absent: nothing changes; present: the first match is spliced out |
| Store.ItemsOfUserAppend | backend/src/models/DataStore.ts:39 | filtering distributes over concatenation, so store order is kept |
| Store.ItemsOfUserAfterCreate | backend/src/models/DataStore.ts:34-39 | after a create, the new record comes last in its owner's list and other users' lists are unchanged |
| Store.CreatedUserIsFound | backend/src/models/DataStore.ts:9-21 | a user appended with a fresh id is what a lookup of that id returns |
| Store.CreatedItemIsFound | backend/src/models/DataStore.ts:28-48 | a record appended with a fresh id is what a lookup of that id returns |
| Store.CreateKeepsIdsUnique | backend/src/models/DataStore.ts:29-34 | appending a fresh id keeps ids unique and adds exactly that id |
| Store.MergeKeepsIds | backend/src/models/DataStore.ts:54 | patching one index keeps the set of ids, and keeps them unique |
| Store.MergeChangesOnlyCarriedFields | backend/src/models/DataStore.ts:54 | the merged record takes every field the patch carries, every field the patch does not carry keeps its old value, and the merge is a no-op exactly when the patch agrees with the record |
| Store.MergeEmptyPatch | backend/src/models/DataStore.ts:54 | an empty patch leaves the record as it is |
| Store.MergeThen | backend/src/models/DataStore.ts:54 | two merges in turn equal one merge of the combined patch, where later fields win |
| Store.MergeIdempotent | backend/src/models/DataStore.ts:54 | re-applying a patch changes nothing |
| Store.StampRoundTrip | backend/src/models/DataStore.ts:28-33 | the caller's data is recovered from a created record, and a record is the stamp of its own data |
| Store.DeleteRemovesOnlyThatId | backend/src/models/DataStore.ts:58-64 | with unique ids, a delete removes exactly that id and the rest stay unique |
| Store.RemovedIds | backend/src/models/DataStore.ts:62 | the ids left after a splice are the old ids less the removed one |
| Store.RemovedStayUnique | backend/src/models/DataStore.ts:62 | a splice keeps ids unique |
| Store.DeleteRemovesFirstMatch | backend/src/models/DataStore.ts:59-62 | only the first match is removed: the id remains exactly when a later record has it |
| Store.RemovedFirstMatch | backend/src/models/DataStore.ts:59-62 | the same, for any index that is the first match |
| Text.TextStart | backend/src/controllers/stockController.ts:78 | the start of the text: only white space before it, and a non-blank character at it |
| Text.TextEnd | backend/src/controllers/stockController.ts:78 | the end of the text: only white space after it, and a non-blank character before it |
| Text.Trim | backend/src/controllers/stockController.ts:78 | the result is a middle piece of the input, with only white space cut on each side and none left at either end |
| Text.TrimEmptyIffBlank | backend/src/controllers/stockController.ts:78 | a string trims to "" exactly when it is all white space |
| Text.TrimKeepsTrimmed | backend/src/controllers/stockController.ts:78 | a string with no white space at either end is unchanged |
| Text.TrimIdempotent | backend/src/controllers/stockController.ts:78 | trimming twice is trimming once |
| StockController.StatusCode | backend/src/controllers/stockController.ts:10-68 | an unknown user is answered 404 and every other refusal 400 |
| StockController.ParseType | backend/src/controllers/stockController.ts:25 | a type is accepted exactly when it is "berry" or "mushroom", and the accepted type names the input |
| StockController.TypeNameRoundTrip | backend/src/types/index.ts:11 | every item type's name parses back to that type |
| StockController.FirstNonzero | backend/src/controllers/stockController.ts:71-73 | a chain of fallbacks (`a`, else `b`, else 0) yields the value of the first truthy field, and 0 when no field is truthy |
| StockController.OrElse | backend/src/controllers/stockController.ts:71-73 | the fallback operator: the number wins exactly when it is a nonzero number, otherwise the fallback |
| StockController.ResolvePrices | backend/src/controllers/stockController.ts:71-73 | the sell price is 0 exactly when neither sellPrice nor unitPrice is truthy, the stored unit price is 0 exactly when the sell price is, and once the sign guards have passed no price is negative |
| StockController.ResolvedPricesAreFirstNonzero | backend/src/controllers/stockController.ts:71-73 | buy is the first nonzero of buyPrice, then 0; sell the first nonzero of sellPrice, unitPrice, then 0; the stored unit price the first nonzero of unitPrice, sellPrice, then 0 |
| StockController.UnitPriceFollowsSellPrice | backend/src/controllers/stockController.ts:72-73 | the stored unit price differs from the sell price exactly when both a legacy and a different sell price are given |
| StockController.LegacyPriceExamples | backend/src/controllers/stockController.ts:71-73 | a legacy body with unitPrice 5 buys at 0 and sells at 5; a zero sell price falls back to the unit price |
| StockController.ResolveCreate | backend/src/controllers/stockController.ts:10-85 | on success: quantity > 0, the three stored prices are the resolved fallbacks and ≥ 0, the user exists, userId, type and quantity pass through, and species, location and notes are stored trimmed |
| StockController.Guards | backend/src/controllers/stockController.ts:10-68 | eight checks in source order; only the last looks the user up and answers 404, every earlier one answers 400 |
| StockController.ValidationIgnoresUsers | backend/src/controllers/stockController.ts:10-59 | the first seven checks and their errors do not depend on which users exist |
| StockController.FirstFailure | backend/src/controllers/stockController.ts:10-68 | no error exactly when no check fails; an error comes from a failing check |
| StockController.FirstFailingGuardWins | backend/src/controllers/stockController.ts:10-68 | the create rule refuses with the error of the first failing guard, in source order, and succeeds exactly when all guards pass |
| StockController.FirstFailureAt | backend/src/controllers/stockController.ts:10-68 | the guard search stops at the first failing check |
| StockController.ZeroQuantityIsMissingField | backend/src/controllers/stockController.ts:10 | a quantity of 0 is refused as a missing field, not by the quantity guard |
| StockController.NoPriceIsRefused | backend/src/controllers/stockController.ts:18-23 | with the required fields present but neither unitPrice nor sellPrice given, the body is refused for the missing price |
| StockController.CreateStockItem | backend/src/controllers/stockController.ts:5-98 | a refusal leaves the store unchanged and returns the rule's error; acceptance appends exactly the stamped resolved record |
| StockController.GetStockItemById | backend/src/controllers/stockController.ts:124-146 | not found exactly when no record has the id; otherwise the first record with it |
| StockController.MergeBodyAsWritten | backend/src/controllers/stockController.ts:151-153 | an `id`, `userId` or `collectedAt` in the update body replaces the record's own, and apart from those three fields the result is the plain merge of the patch |
| StockController.AsWrittenUpdateDuplicatesIds | backend/src/controllers/stockController.ts:151-153 | updating record "a" with the body `{ id: "b" }` leaves two records with id "b" |
| StockController.UpdateStockItem | backend/src/controllers/stockController.ts:148-173 | not found exactly when the id is absent, leaving the store unchanged; otherwise the merged record, which keeps its id and owner, replaces the first match |
| StockController.DeleteStockItem | backend/src/controllers/stockController.ts:175-197 | not found exactly when the id is absent, leaving the store unchanged; otherwise the first match is spliced out |
| StockController.ChooseListing | backend/src/controllers/stockController.ts:102-110 | all items exactly when the userId query is falsy; otherwise that user, with the year only when it is truthy |
| StockController.GetStockItems | backend/src/controllers/stockController.ts:104-110 | without a truthy userId the handler lists every record in store order |
| StockController.BlankTextIsStoredEmpty | backend/src/controllers/stockController.ts:10-85 | an accepted body stores an empty species exactly when the given species is all white space, and likewise for the location, because the required-field guard tests the text before trimming |
| StockController.CreatedRecordIsFound | backend/src/controllers/stockController.ts:75-85 | a record created from an accepted body is found again by its id |
| ProfitDashboard.AddYear | frontend/src/components/ProfitDashboard.tsx:52-57 | the reducer adds one year's summary to the totals, and keeps profit = revenue − cost when the year has it |
| ProfitDashboard.Fold | frontend/src/components/ProfitDashboard.tsx:51-59 | the reduction of no summaries is the zero initial value, and of one summary that summary |
| ProfitDashboard.CalculateTotals | frontend/src/components/ProfitDashboard.tsx:50-60 | `calculateTotals`: all-zero totals for an empty map, and no negative revenue, cost or item count when no year has one |
| ProfitDashboard.FoldNonNegative | frontend/src/components/ProfitDashboard.tsx:51-59 | summaries without negative amounts reduce to totals without negative amounts |
| ProfitDashboard.ValuesAt | frontend/src/components/ProfitDashboard.tsx:51 | the values visited are summaries of the map, and there are at most as many as years |
| ProfitDashboard.YearsDescending | frontend/src/components/ProfitDashboard.tsx:94 | every key once, strictly newest first |
| ProfitDashboard.MaxYear | frontend/src/components/ProfitDashboard.tsx:94 | the largest year of a non-empty set |
| ProfitDashboard.PrependMax | frontend/src/components/ProfitDashboard.tsx:94 | the largest year in front of a descending listing of the rest lists all years in descending order |
| ProfitDashboard.Reverse | frontend/src/components/ProfitDashboard.tsx:51 | element i of the reversal is element n-1-i of the input |
| ProfitDashboard.ReverseEnumerates | frontend/src/components/ProfitDashboard.tsx:51 | reversing a listing of the years still lists each once |
| ProfitDashboard.YearsAscending | frontend/src/components/ProfitDashboard.tsx:51 | `Object.values` visits every year once, in strictly ascending order |
| ProfitDashboard.YearMargin | frontend/src/components/ProfitDashboard.tsx:166 | 0 when revenue ≤ 0; otherwise margin × revenue = profit × 100 |
| ProfitDashboard.OverallMargin | frontend/src/components/ProfitDashboard.tsx:150-154 | shown exactly when total revenue > 0, and then margin × revenue = profit × 100 |
| ProfitDashboard.FoldAppend | frontend/src/components/ProfitDashboard.tsx:51-59 | reducing a concatenation adds the two reductions |
| ProfitDashboard.RemoveFromListing | frontend/src/components/ProfitDashboard.tsx:94 | dropping one year from a listing lists the set without it |
| ProfitDashboard.FoldAround | frontend/src/components/ProfitDashboard.tsx:51-59 | one summary inside a sequence contributes the same as one in front |
| ProfitDashboard.ValuesAtAppend | frontend/src/components/ProfitDashboard.tsx:51 | the values at concatenated year lists are the concatenated values |
| ProfitDashboard.ValuesAtSplit | frontend/src/components/ProfitDashboard.tsx:51 | the values at a listing split around one year |
| ProfitDashboard.FoldWithout | frontend/src/components/ProfitDashboard.tsx:51-59 | the reduction is that year's summary plus the reduction without it |
| ProfitDashboard.FoldPermutation | frontend/src/components/ProfitDashboard.tsx:51-59 | any two listings of the same years give the same totals |
| ProfitDashboard.FoldFront | frontend/src/components/ProfitDashboard.tsx:51-59 | the reduction of a listing is its first year's summary plus the reduction of the rest |
| ProfitDashboard.FoldPermutationStep | frontend/src/components/ProfitDashboard.tsx:51-59 | moving one year to the front does not change the totals |
| ProfitDashboard.TotalsIgnoreOrder | frontend/src/components/ProfitDashboard.tsx:51-59 | `calculateTotals` equals the reduction over any order of the years |
| ProfitDashboard.FoldIsColumnSums | frontend/src/components/ProfitDashboard.tsx:52-57 | each total is the sum of its per-year field |
| ProfitDashboard.TotalsAreSums | frontend/src/components/ProfitDashboard.tsx:50-60 | totalRevenue, totalCost, totalProfit and totalItems are the sums of the per-year fields over all years |
| ProfitDashboard.FoldKeepsProfitIdentity | frontend/src/components/ProfitDashboard.tsx:53-55 | if every summary has profit = revenue − cost, so do the totals |
| ProfitDashboard.TotalProfitIsRevenueLessCost | frontend/src/components/ProfitDashboard.tsx:53-55 | the same for `calculateTotals` over a year map |
| ProfitDashboard.DisplayedYears | frontend/src/components/ProfitDashboard.tsx:94-97 | the displayed years are exactly the map's keys, strictly descending, as many as the keys, and none for an empty map |
| ProfitDashboard.ListingSize | frontend/src/components/ProfitDashboard.tsx:94 | a listing of a set is as long as the set is large |
| ProfitDashboard.MarginBounds | frontend/src/components/ProfitDashboard.tsx:166 | with a nonnegative cost, the margin is at most 100 and negative exactly when the year lost money |

## Left out

- The HTTP layer is not modelled: Express `req`/`res`, the JSON reply bodies, the `try`/`catch` that answers 500, and the router. Replies are the `Result`/`Reply` datatypes, and `StatusCode` gives the status of a refusal.
- `uuidv4()` and `new Date()` are parameters. An id is assumed fresh by precondition, because a uuid is. Dates are integer timestamps.
- JSON bodies are modelled only as the numbers, strings, `null` and absent values the handlers branch on. A string, array or object in a numeric field is not modelled, and neither are the JavaScript coercions in `quantity <= 0` or `unitPrice < 0` for such values.
- The user branch of `getStockItems` is not modelled.
  - It calls `getStockItemsByUserAndYear`, and the store has no such method. `getUserProfitByYear` and `getAllYears` (stockController.ts:200-241) call store methods that do not exist either.
  - `ChooseListing` models only the branch taken, and the `year` query is kept as text; `parseInt` is not modelled.
  - ChooseListing: a query value is modelled as a string or absent. A repeated `userId` parameter arrives as an array, which is truthy but not a string, so the handler lists every item; `Option<string>` cannot express that case.
  - StockController.GetStockItems returns no list for a truthy userId, because the store has no operation to call for it.
- The derived amounts `totalPrice`, revenue, cost and profit are never computed by the store. The stored record carries `unitPrice`, `buyPrice` and `sellPrice` as the controller writes them. The interface's `totalPrice` (types/index.ts:15) is not a field of the model.
- A user is stored with `name`, as `createUser` writes it, not with the interface's `aliasName` and `revenue` (types/index.ts:3-5).
- Floating point and `toFixed` formatting are not modelled. Amounts are exact reals, so the order-independence of the totals holds for the model, not for IEEE doubles.
- `Object.values` and `Object.keys` order is modelled for integer years, which are visited in ascending order. Negative years are not array-index keys in JavaScript and would be visited in insertion order.
- `CalculateTotals` takes the year map as a parameter. Fetching it (`stockApi.getProfitByYear`) and the React component state, loading and error rendering are not modelled.
- `Text.Trim` covers the code points ECMAScript lists as white space and line terminators, including the Zs space separators.
- The update handler stores the patch as given. Like the code, it does not check quantity and prices again and does not trim text. A patched type is always berry or mushroom in the model, because the patch holds an `ItemType`.
- MergeBodyAsWritten: an update body can carry only `id`, `userId`, `collectedAt` and the patchable fields. `null` values, a `type` string outside berry and mushroom, and keys the record does not have are not representable, so the model does not show them being stored.
- StockController.UpdateStockItem: models the corrected handler, which passes only the patchable fields to the store. The handler as written is `MergeBodyAsWritten` (see Findings).

## Findings

| source | as written | input that shows it | evidently intended | confidence | as-written member | corrected member |
|---|---|---|---|---|---|---|
| backend/src/controllers/stockController.ts:151-153 | the whole request body is spread over the stored record, so an `id` or `userId` in the body replaces the record's own, although the store's update type (DataStore.ts:50, a partial record without `id`, `userId` and `collectedAt`) excludes them | store `[a, b]` with ids "a" and "b"; `PUT /a` with body `{ "id": "b" }` leaves two records with id "b" | only the patchable fields reach the store, so a record keeps its id and owner and ids stay unique | not executed | StockController.AsWrittenUpdateDuplicatesIds | StockController.UpdateStockItem |
