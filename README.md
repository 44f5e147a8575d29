# Coral Club tent booking: shared-state model

Coral Club is a single-page booking app for beach tents. Every browser holds a
copy of one shared JSON document: tents, reservations, the extras catalog, the
audit log and configuration. Clients change it only through a serverless merge
endpoint, which does three things:
- it combines the stored document with a patch field by field;
- it stamps a revision into the document and writes it;
- it bumps a separate revision counter that the other clients poll.

This project models both halves and proves properties of them in Dafny:
- **the merge endpoint**, `api/kv-merge.js`: the merge, the revision stamp, and the read, write and increment with their failure paths, against an abstract key-value store;
- **the client**, `src/App.jsx`:
  - the document transforms it builds before each merge: grid seeding, holds, confirm and release, the expiry sweep, admin overrides, adding tents, catalog edits, the cart and the bounded log;
  - its sync state machine: merge with local fallback, poll, and first load with seeding.

Files and modules:
- `option.dfy` (`Optional`): the Option type.
- `seqs.dfy` (`Seqs`): `filter`, with the lemmas that fix its order and multiplicity.
- `json.dfy` (`Json`): JSON values with integer numbers. It also holds the JavaScript coercions the code relies on:
  - truthiness and `x || y`;
  - object spread of objects, arrays and strings;
  - `Number(x)`, where NaN is `None`;
  - `String(x)`.
- `kv_merge.dfy` (`KvMerge`):
  - `ShallowMerge` is an imperative method with three loops, proved equal to the per-key specification `MergeSpec`;
  - the revision stamp;
  - a `KvStore` class with `Get`, `Set` and `Incr`;
  - the endpoint `Handle`, proved equal to the function `HandleSpec`.
- `tents.dfy` (`Tents`): tents, the seeding grid, state rewrites, adding a tent.
- `reservations.dfy` (`Reservations`): holds, confirm and release, the expiry sweep, the hold invariant.
- `catalog.dfy` (`Catalog`): slug ids and the category and item edits.
- `cart.dfy` (`Cart`): the customer's cart of extras.
- `auditlog.dfy` (`AuditLog`): the newest-first log capped at 200 rows.
- `client.dfy` (`Client`):
  - the typed client document;
  - the sync rules `AfterMerge`, `AfterPoll` and `AfterLoad` as functions;
  - a `ClientState` class whose step-by-step methods are proved against those functions.

Modelling choices:
- **Network results are parameters.** On the client, `Fetch<T>` is either `Threw` or `Got(v)`. On the server, a `getUp`, `setUp` or `incrUp` flag (`reachable` on `KvStore`) says whether that store call succeeds.
- **Times are integers.** Times are milliseconds, and a hold lasts `15 * 60000`. The code compares same-format ISO strings, which orders them by time, so integer comparison is faithful.
- **Ids and clock reads are parameters.** The reservation id (`crypto.randomUUID`) and the current time are passed in.
- **The client document is typed.** Its four lists are typed records; every other top-level key is JSON in `config`.

How the endpoint stamps and merges:
- **New revision.** It is `(patch.rev || current.rev || 0) + 1` (`api/kv-merge.js:19`). A stale patch revision lowers it: 5 stored and 1 patched stamps 2 (`KvMerge.RevIsNotAMax`).
- **`security`.** It is not an object field (`api/kv-merge.js:2`), so a patch replaces it whole.
- **Catalog prompts.** Every name answer is trimmed before it is tested and slugged, as `prompt(...)?.trim()` does; a cancelled prompt is no name. `Catalog.Apply` computes each catalog button's edit from the current categories.

Behaviours the proofs make explicit:
- **Local fallback is not the store's merge.** When a merge fails, the client overlays the patch at top level, `{ ...data, ...patch }`, without the store's field-aware merge (`Client.OverlayIsNotTheMerge`).
- **The sweep only sends.** It leaves the local tents and reservations unchanged and only adds a log row when the merge returns. A later poll brings the result back only when the counter reads as a number other than the local revision (`Client.PollRule`, `Client.PollIgnoresStringRev`).
- **The sweep frees any tent a due reservation names.** That includes a tent that is occupied by then (`Reservations.SweepFreesOccupiedTent`).
- **Seed revision and counter disagree.** The seed document carries `rev: 0` while the counter is set to 1. After the first merge the stamped revision is 1 and the counter is 2 (`Client.SeedRevIsZero`, `Client.SeedStampLagsCounter`).
- **Item ids may repeat.** Unlike category ids, item ids are not checked for duplicates (`Catalog.AddItemCanDuplicateIds`).
- **Adding a tent numbers from the last tent.** The new id is one more than the last tent's id, not the largest. Increasing ids stay increasing (`Tents.AddTentKeepsIncreasing`); out-of-order ids can repeat (`Tents.AddTentAfterDisorderRepeatsId`).

## Model

| member | source | states |
|---|---|---|
| KvMerge.ShallowMerge | api/kv-merge.js:1-9 | the three-loop merge yields exactly the per-key merged document |
| KvMerge.MergeSpec | api/kv-merge.js:1-9 | the four list fields of the merged document are always arrays, and a key the patch does not name (outside the lists) keeps its current value |
| KvMerge.ObjectFieldOverlay | api/kv-merge.js:5 | an object field present in the patch becomes an object whose sub-keys come from the patch where it has them, else from the current value (missing or falsy sides count as `{}`) |
| KvMerge.ObjectFieldOfObjects | api/kv-merge.js:5 | with objects on both sides the field is the current object overlaid by the patch object |
| KvMerge.ObjectFieldAbsent | api/kv-merge.js:4-5 | an object field absent from the patch keeps its current value, and stays absent if absent |
| KvMerge.ArrayFieldRule | api/kv-merge.js:6 | an array field is the patch array; a non-array patch value falls back to the current array, else `[]` |
| KvMerge.ArrayFieldsAreArrays | api/kv-merge.js:6 | for all inputs the four array fields of the result exist and are arrays |
| KvMerge.OtherKeys | api/kv-merge.js:4-7 | any other patch key (including `security`, `rev`) is copied verbatim; other current keys absent from the patch are retained |
| KvMerge.MergeKeys | api/kv-merge.js:4-7 | the result's keys are the current keys, the patch keys and the four array fields |
| KvMerge.MergeIdempotent | api/kv-merge.js:1-9 | merging the same patch twice equals merging it once |
| KvMerge.EmptyPatch | api/kv-merge.js:1-9 | an empty patch changes no key except normalising the four array fields to arrays |
| KvMerge.SequentialMergesKeepOtherArrays | api/kv-merge.js:6 | a `{categories}` merge after a `{tents}` merge keeps the tents array the first one wrote |
| KvMerge.RevRule | api/kv-merge.js:19-20 | the stamped revision is patch.rev if truthy, else current.rev if truthy, else 0, plus one (NaN stays NaN) |
| KvMerge.NextRev | api/kv-merge.js:19 | no truthy revision on either side gives 1; a non-zero numeric revision n in the merged document gives n + 1 |
| KvMerge.Stamp | api/kv-merge.js:20 | the stamp adds or replaces only `rev`, as a number or `null` |
| KvMerge.RevWithoutPatchRev | api/kv-merge.js:19-20 | with no patch revision and a numeric current revision n, the new revision is exactly n + 1 |
| KvMerge.RevOfDecimalString | api/kv-merge.js:19 | a current revision held as the decimal string of n (and none in the patch) stamps n + 1 |
| KvMerge.RevIsNotAMax | api/kv-merge.js:19 | a stored revision 5 with a patch revision 1 stamps 2: the rule is not a maximum |
| KvMerge.KvStore.constructor | api/kv-merge.js:15-17 | a store starts with the given entries |
| KvMerge.KvStore.Get | api/kv-merge.js:15-17 | a reachable store answers the value under the key or none; an unreachable one fails |
| KvMerge.KvStore.Set | api/kv-merge.js:21-22 | a successful unconditional write replaces the key's value; a failed one changes nothing |
| KvMerge.KvStore.Incr | api/kv-merge.js:23-25 | increment creates the counter at 1 or adds one to an integer; a non-integer value or an unreachable store fails and changes nothing |
| KvMerge.Handle | api/kv-merge.js:10-27 | the endpoint's answer and the store afterwards are exactly `HandleSpec`: 405 for non-POST, a crash for a primitive patch, the read failure read as `{}`, early return on a failed write |
| KvMerge.HandleSpec | api/kv-merge.js:10-27 | only the state and counter keys can change; every failure answer leaves the store as it was; a merged answer needs a POST, a non-primitive or falsy patch and a successful write, and, with distinct keys, its document is what the store then holds |
| KvMerge.WriteFailureTouchesNothing | api/kv-merge.js:21-22 | a failed write is answered as a failure and leaves the store, counter included, unchanged |
| KvMerge.WriteThenIncrement | api/kv-merge.js:21-26 | after a write and an increment the store holds the stamped document, the counter n + 1, and the answer carries n + 1 (the stamped revision when that is 0) |
| KvMerge.FirstIncrementCreatesCounter | api/kv-merge.js:23-25 | with no counter yet, the increment creates it at 1 and the answer carries 1 |
| KvMerge.IncrementFailureFallsBack | api/kv-merge.js:23-25 | a failed increment still answers the written document, with the stamped revision, and leaves the counter |
| KvMerge.ReadFailureStartsFromEmpty | api/kv-merge.js:15-18 | after a failed read, an array field the patch omits is written as `[]` |
| Json.NumberOfString | api/kv-merge.js:19 | `Number(String(n)) == n` for every integer n |
| Seqs.Filter | src/App.jsx:226 | the kept elements are exactly those that pass, never more than there were |
| Seqs.FilterAppend | src/App.jsx:226 | filtering a concatenation filters each part and keeps them in order |
| Seqs.FilterOne | src/App.jsx:297 | one element is kept exactly when it passes |
| Seqs.FilterMultiset | src/App.jsx:296 | each element that passes occurs as often as before, every other one never |
| Seqs.FilterAll | src/App.jsx:650 | when every element passes, nothing is dropped |
| Seqs.FilterNone | src/App.jsx:226 | when no element passes, nothing is kept |
| Tents.CeilSqrt | src/App.jsx:54 | the grid's column count is the least c with c * c >= n |
| Tents.MakeGrid | src/App.jsx:53-66 | max(n, 0) tents, tent i has id i + 1, state `av`, row i / cols and column i % cols, inside a rows by cols grid |
| Tents.GridShape | src/App.jsx:54-55 | the grid has no more rows than columns, holds all n tents, and its last row is used |
| Tents.GridCellsDistinct | src/App.jsx:59-61 | two seeded tents in the same cell are the same tent |
| Tents.GridIncreasing | src/App.jsx:53-66 | seeded ids are strictly increasing |
| Tents.SeedGrid | src/App.jsx:188 | the seed has 20 available tents with ids 1..20 on a grid of 5 columns and 4 rows |
| Tents.WithTentState | src/App.jsx:813-815 | every tent with the id takes the state; all others are unchanged, order and length kept |
| Tents.WithTentStateIdempotent | src/App.jsx:813-815 | repeating a state override yields the same array |
| Tents.WithTentStateKeepsIds | src/App.jsx:813-815 | a state override leaves the sequence of ids unchanged |
| Tents.FindTent | src/App.jsx:314 | finds the first tent with the id, and finds one exactly when one exists |
| Tents.NextTentId | src/App.jsx:731-732 | with increasing ids, the next id exceeds every id |
| Tents.AddTent | src/App.jsx:729-733 | appends one tent, keeping the earlier ones: id `(last?.id || 0) + 1` (1 for no tent or a last id of 0), state `av`, at the map centre |
| Tents.AddTentKeepsIncreasing | src/App.jsx:731-732 | with increasing ids the new id is fresh: ids stay increasing and unique |
| Tents.AddTentAfterDisorderRepeatsId | src/App.jsx:731-732 | after ids [2, 1] the added tent gets id 2 again |
| Reservations.WithResStatus | src/App.jsx:324 | every reservation with the id takes the status; all others unchanged |
| Reservations.Reserve | src/App.jsx:301-318 | refused with nothing selected, or when the document's tent with that id is missing or not `av`; otherwise only that tent becomes `pr` and the new pending reservation (tent id, expiry now + 15 min) is put in front of the old list |
| Reservations.ReservePreservesHolds | src/App.jsx:314-318 | a successful hold keeps every `pr` tent backed by a pending reservation for it |
| Reservations.ReleaseOnlyThose | src/App.jsx:322-334 | release and confirm rewrite only the tent and reservation with the given ids, with no status check |
| Reservations.Release | src/App.jsx:322-326 | ids, order and lengths stay; every tent with the id takes the state and every reservation with the id the status |
| Reservations.ConfirmPaid | src/App.jsx:329-333 | ids and lengths stay; that tent becomes `oc` and that reservation `paid` |
| Reservations.ReleaseIdempotent | src/App.jsx:322-326 | repeating a release yields the same arrays |
| Reservations.ConfirmPaidIdempotent | src/App.jsx:329-333 | repeating confirmPaid yields the same arrays |
| Reservations.DueOnes | src/App.jsx:226 | exactly the pending reservations whose expiry is set and at or before now, never more than there are; as a `Seqs.Filter` it keeps their order and multiplicity |
| Reservations.DueOnesSplit | src/App.jsx:226 | the due list of two runs is the due list of each, in order, and one reservation counts once when due, so the logged count adds up over runs |
| Reservations.Sweep | src/App.jsx:223-236 | a sent sweep keeps every tent id and every reservation id, in order |
| Reservations.SweepTents | src/App.jsx:228-232 | every tent named by an expired reservation becomes `av`; the others are unchanged |
| Reservations.SweepReservations | src/App.jsx:233 | every reservation whose id is among the expired becomes `expired`; the others are unchanged |
| Reservations.SweepSentIffDue | src/App.jsx:225-227 | a merge is sent exactly when some reservation is due |
| Reservations.SweepMarksExactlyDue | src/App.jsx:223-236 | with unique ids, exactly the due reservations are expired in place and exactly the tents they name are freed |
| Reservations.SweepExpiresNamesakes | src/App.jsx:233 | without unique ids, a paid reservation sharing a due one's id is expired too |
| Reservations.SweepFreesOccupiedTent | src/App.jsx:228-232 | an occupied tent named by a due pending reservation becomes available |
| Reservations.SecondSweepFindsNothing | src/App.jsx:223-236 | once the sweep's patch is applied, a second sweep at the same time sends nothing |
| Reservations.SweepPreservesHolds | src/App.jsx:223-236 | with unique ids, the sweep keeps every hold backed by a pending reservation |
| Catalog.SlugIdempotent | src/App.jsx:631 | a slug is made of `[a-z0-9]` and single dashes, and slugging it again changes nothing |
| Catalog.CollapseIsSlug | src/App.jsx:631 | replacing each run of other characters by one dash never leaves two dashes in a row |
| Catalog.CollapseOfSlug | src/App.jsx:631 | the replacement leaves a slug as it is |
| Catalog.Slug | src/App.jsx:631 | every slug is made of `[a-z0-9]` and single dashes |
| Catalog.AddCategory | src/App.jsx:629-634 | rejected exactly for an empty name (no name) or an existing slug (duplicate); otherwise `{ id: slug, name, items: [] }` is appended, and unique ids stay unique |
| Catalog.RenameCategory | src/App.jsx:643-648 | rejected exactly for an empty name; otherwise only the name of the categories with the id changes |
| Catalog.RenameKeepsIds | src/App.jsx:643-648 | renaming keeps every id and every item list |
| Catalog.DeleteCategory | src/App.jsx:649-652 | exactly the categories with another id stay, never more than before; as a `Seqs.Filter` it keeps their order and multiplicity |
| Catalog.DeleteCategoryRemoves | src/App.jsx:649-652 | after deleting no category has that id, and unique ids stay unique |
| Catalog.SetItemImage | src/App.jsx:666-671 | only the image of that item in that category changes |
| Catalog.EditItem | src/App.jsx:672-677 | rejected exactly for an empty name; otherwise every item with the id in the category with the id takes the name and the parsed price, or the clicked item's price when the price prompt gives NaN or 0; all else is unchanged |
| Catalog.EditItemKeepsIds | src/App.jsx:672-677 | editing keeps every category id and every item id |
| Catalog.EditItemKeepsPriceWithoutAnswer | src/App.jsx:672-676 | with unique category ids, an edit whose price prompt gives nothing keeps the clicked item's price and takes the trimmed name |
| Catalog.DeleteItem | src/App.jsx:678-681 | ids and names stay, other categories are unchanged, and that category keeps exactly its other items |
| Catalog.DeleteItemOnlyThere | src/App.jsx:678-681 | the item goes from that category only; every other category is unchanged |
| Catalog.AddItem | src/App.jsx:688-694 | rejected exactly for an empty name; otherwise each category with the id gets `{ id: slug, name, price, img: "" }` at its end (price 0 when the prompt gives NaN or 0) and every other category is unchanged |
| Catalog.AddItemAppends | src/App.jsx:688-694 | the new item comes last in its category after the old items, and every category with another id is unchanged |
| Catalog.Apply | src/App.jsx:629-694 | deletions always go through; the image edit is refused exactly when its prompt is cancelled; the name edits exactly when the trimmed answer is empty, and the new category also when its slug exists |
| Catalog.TrimmedBeforeSlug | src/App.jsx:630-632 | "  Bebidas " is refused as a duplicate of `bebidas`, and "   " as no name |
| Catalog.AddItemCanDuplicateIds | src/App.jsx:688-694 | adding the same name twice yields two items with the same id |
| Cart.AddOneQty | src/App.jsx:289-295 | adding one raises that item's quantity by one and leaves every other item's |
| Cart.QtyOf | src/App.jsx:289 | an item with no line has quantity 0 |
| Cart.AddOne | src/App.jsx:290-295 | an item with no line gets `{ key: "extra:<id>", name, price, qty: 1 }` at the end; an item with a line has that line's quantity raised by one and every other line kept; the keys become the old keys plus the item's |
| Cart.AddOneKeepsKeysUnique | src/App.jsx:290-295 | adding one never creates a second line for a key |
| Cart.Positive | src/App.jsx:296 | exactly the lines with positive quantity stay, never more than before; as a `Seqs.Filter` it keeps their order and multiplicity |
| Cart.RemoveOnePositive | src/App.jsx:296 | after removing one every line has a positive quantity and comes from the old cart or is the decremented line |
| Cart.RemoveOne | src/App.jsx:296 | the cart never grows, and every line left has a positive quantity |
| Cart.RemoveOneQty | src/App.jsx:296 | with unique keys and positive quantities, removing one lowers that item's quantity by one, not below 0 |
| Cart.FilterKeepsUniqueKeys | src/App.jsx:296-297 | filtering the cart never creates a second line for a key |
| Cart.CartOpsKeepInvariant | src/App.jsx:288-298 | the empty cart has one positive line per key, and adding one, removing one and deleting a line keep that, so every cart the client builds meets the precondition of `Cart.RemoveOneQty` |
| Cart.DelLine | src/App.jsx:297 | exactly the lines with another key stay; as a `Seqs.Filter` it keeps their order and multiplicity |
| Cart.DelLineOnlyThatKey | src/App.jsx:297 | no line with the key remains, and every other line does |
| Cart.LineKeyInjective | src/App.jsx:290-291 | distinct item ids give distinct cart keys |
| AuditLog.LogEvent | src/App.jsx:87-93 | the new row is first, the old rows follow in order, and the length is min(old + 1, 200) |
| AuditLog.LogBounded | src/App.jsx:90 | the log never exceeds 200 rows, and below 200 nothing is dropped |
| AuditLog.LogManyNewestFirst | src/App.jsx:87-93 | rows logged in turn end up newest first in front of the old log |
| Client.TopOverlay | src/App.jsx:254 | the local fallback's keys are both sides' keys, and each patch key wins whole |
| Client.Overlay | src/App.jsx:254 | the lists the patch omits stay, and the other keys are both sides' keys |
| Client.OverlayRule | src/App.jsx:254 | each list in the patch replaces the local one, each omitted list stays, other keys overlay at top level |
| Client.OverlayIsNotTheMerge | src/App.jsx:254 | a brand patch naming only `name` drops `logoUrl` locally, while the store's merge keeps it |
| Client.JsPlusOne | src/App.jsx:256 | `(r || 0) + 1` is a number, or a string ending in "1" |
| Client.JsPlusOneOfNumber | src/App.jsx:255 | a numeric local revision goes up by exactly one |
| Client.JsPlusOneOfString | src/App.jsx:255 | a string revision "7" becomes "71" |
| Client.AfterMerge | src/App.jsx:243-260 | a non-empty message is logged as the newest row, at that time; unless both the document and the revision arrive, the revision is `(rev || 0) + 1` |
| Client.MergeAdoptsStore | src/App.jsx:245-251 | a merge the store answered adopts the store's document (without re-applying the patch) and revision (falsy as 0), logging an `action` row |
| Client.MergeFailureFallsBack | src/App.jsx:252-258 | a failed merge overlays the patch locally, keeps the lists it omits, raises a numeric revision by exactly 1 and logs `action (local)` |
| Client.RevReadFailureAfterMerge | src/App.jsx:245-258 | a revision read that throws after the document arrived overlays the patch on the merged document and increments the old revision |
| Client.AfterPoll | src/App.jsx:208-218 | a poll changes nothing, or takes up a numeric revision other than the local one |
| Client.PollRule | src/App.jsx:208-218 | a poll changes state only for a numeric fetched revision other than the local one; then the revision is adopted, and the document too when one is fetched |
| Client.PollIgnoresStringRev | src/App.jsx:211 | a revision stored as a string is never taken up |
| Client.PollIdempotent | src/App.jsx:208-218 | polling twice with the same answers equals polling once |
| Client.AfterLoad | src/App.jsx:183-205 | the seed is written only for an empty store with a working write; a stored document is adopted; a throwing read changes nothing |
| Client.LoadSeedsEmptyStore | src/App.jsx:186-193 | an empty store is seeded with 20 available tents, no reservations, revision 1 and the one log row "Seed inicial" |
| Client.Coalesce | src/App.jsx:196 | `r ?? 1`: the default for a missing or `null` revision, the stored value otherwise |
| Client.LoadAdoptsStored | src/App.jsx:194-198 | a stored document is adopted whole, with the stored revision, or 1 when it is missing or `null`; a throwing revision read keeps the old one |
| Client.SeedRevIsZero | src/App.jsx:13 | the seed document carries `rev: 0` |
| Client.SeedStampLagsCounter | src/App.jsx:188-190 | with a stored `rev: 0` and the counter set to 1, the first merge stamps revision 1 in the document while the counter becomes 2 |
| Client.RegenDefaultsTo20 | src/App.jsx:385 | a missing or zero layout count regenerates 20 tents |
| Client.LayoutCount | src/App.jsx:385 | reading the count fails exactly for a missing or null layout; a count other than 20 comes from a truthy `count` |
| Client.FindPending | src/App.jsx:878 | the first pending reservation with this client's id, or none when there is none |
| Client.ClientState.constructor | src/App.jsx:96-155 | the client starts with the initial document, revision 0, an empty cart and nothing selected |
| Client.ClientState.Log | src/App.jsx:87-93 | only the local log changes, by one row at the head |
| Client.ClientState.MergeState | src/App.jsx:243-260 | the try-then-catch steps end in the state `AfterMerge` gives, and nothing but data and revision changes |
| Client.ClientState.Poll | src/App.jsx:208-218 | the poll's steps end in the state `AfterPoll` gives |
| Client.ClientState.Load | src/App.jsx:183-205 | the load's steps end in the state `AfterLoad` gives, and `loaded` is always set |
| Client.ClientState.Reservar | src/App.jsx:301-321 | a refused hold changes nothing; a hold merges the new tents and reservations, records the pending id and opens the payment dialog |
| Client.ClientState.ReleaseTent | src/App.jsx:322-328 | merges the release, forgets the pending id if it was that one, and deselects that tent unless put back on hold |
| Client.ClientState.ConfirmPaid | src/App.jsx:329-334 | merges occupied and paid, and forgets the pending id if it was that one |
| Client.ClientState.CancelMyHold | src/App.jsx:877-881 | releases this client's first still-pending reservation to `av` and `expired`, forgetting the pending id and deselecting that tent; else nothing changes; the dialog closes either way |
| Client.ClientState.SweepTick | src/App.jsx:223-239 | sends the sweep's patch, leaves the local lists as they are, and logs the number of due reservations only when the merge returned |
| Client.ClientState.AdminSetState | src/App.jsx:813-815 | merges the selected tent's new state, logged as that button's label "AV", "OC" or "BL" |
| Client.StateLabelsDistinct | src/App.jsx:813-815 | the three state buttons log three different labels |
| Client.ClientState.AddTent | src/App.jsx:729-734 | merges the tents with one new available tent appended |
| Client.ClientState.RegenGrid | src/App.jsx:384-387 | merges a fresh grid of `layout.count || 20` tents; nothing happens when reading the count throws |
| Client.ClientState.EditCatalog | src/App.jsx:629-694 | the button's edit is computed from the current categories; a rejected or cancelled one sends nothing, an accepted one merges the new categories with that button's log message |
| Client.ClientState.ClearLog | src/App.jsx:860 | merges an empty log |
| Client.ClientState.AddToCart | src/App.jsx:290-295 | only the cart changes, as `addOne` |
| Client.ClientState.RemoveFromCart | src/App.jsx:296 | only the cart changes, as `removeOne` |
| Client.ClientState.DeleteCartLine | src/App.jsx:297 | only the cart changes, as `delLine` |
| Client.ClientState.EmptyCart | src/App.jsx:298 | only the cart changes, to empty |

## Left out

- HTTP plumbing is not modelled: the request body, environment variables, headers, status codes and error texts. The store is an abstract map whose calls succeed or fail by a parameter. The `kv-get`, `kv-set` and `kv-incr` proxies and `src/useKV.js` are wrappers over that store.
- Numbers are integers. `Number()` of a string with a fraction, an exponent, a `0x`, `0b` or `0o` prefix, or `Infinity` is read as NaN. Integers are unbounded, while JavaScript numbers lose precision above 2^53. Non-integer prices are reals and stay opaque, and `parseFloat` is left out; its result is a parameter of `Catalog.EditItem` and `Catalog.AddItem`.
- Strings are sequences of code points, while JavaScript spreads a string by UTF-16 code unit (`Json.Indexed`); the two differ only outside the Basic Multilingual Plane.
- Objects are maps. The key `__proto__` is treated as an ordinary key, whereas in JavaScript `next[k] = patch[k]` (`api/kv-merge.js:7`) sends it to the prototype setter, so it is never stored, and a `rev` inside it would then be inherited by `next?.rev`.
- The catalog log messages are written with their intended accented letters (`"Agregar categoría"`); the source file carries them double-encoded.
- Slugs lower-case ASCII letters only; JavaScript's full Unicode case mapping is not modelled.
- Tent coordinates (`x`, `y`, the `toFixed(4)` rounding in `makeGrid`), dragging tents ("Mover toldo") and the drag clamp are floating point. A tent records its integer grid cell, or the map centre for an added tent.
- Timers, throttling, the countdown, `ResizeObserver` and concurrent clients are left out; each tick or click is one sequential step. Lost updates between clients are not modelled.
- The client's own round trip through JSON is not modelled. The merge answer and the fetched document are parameters of the typed document type.
- localStorage persistence, the admin PIN, the configuration editors (brand, logo, background, payments, count, PIN), the WhatsApp message, totals and the `sessionRevParam` cache-buster are presentation or I/O. `src/AdminPanel.jsx` is not part of this model.
- `Client.ClientState.Reservar`: `createdAt` and `expiresAt` come from two reads of the clock; both are modelled as one `now`.
- `Reservations.SweepPreservesHolds`, `Reservations.SweepMarksExactlyDue`: these assume unique reservation ids, as the random UUIDs make them in practice.
