# every-icon: shared bit grid, cell selection and session roles

A model of the live logic of the "every icon" web application, where many
clients look at one shared grid of cells. The grid lives in one stored
document (`state/icon`) that maps cell indices to mutation counters. A
cell's visible bit is its counter's parity. The root component (`AppComponent`):

- projects each snapshot of that document into the visible bit sequence;
- turns a click on a cell into "increment that cell's counter by one";
- writes a fresh random document on request;
- resolves a session code to a role: `admin`, `participant` or `viewer`.

The grid view (`IconGridComponent`) cuts the bit sequence into rows of 32
cells. It forwards a click only for a cell on its `restrictTo` list.

Files, one module each:

- `wrappers.dfy`: `Option` (JavaScript `null`) and `Result` (a thrown error).
- `js.dfy`: JavaScript's truncating `%` and ECMAScript truthiness.
- `ordered_keys.dfy`: the keys of a document in ascending numeric order, and the rank of a key.
- `store.dfy`: the stored document and the effect of one field-increment update.
- `app_component.dfy`: the projection, selection, randomize and role-resolution logic, and the class `App` with the component's fields.
- `icon_grid.dfy`: the class `IconGridComponent` with its inputs, the `grid` loop, `canSelect` and `onSelect`.

How external things are modelled:

- A document is a `map<int, int>`. Its field names are taken as already parsed to integers.
- An absent document is `None`.
- The `sessions` collection is a `map<seq<string>, SessionRecord>` parameter. It maps each document's path segments below `sessions` to its record.
- A session code becomes a document path by the Firestore client's rules. The code is split on `/` and empty segments are dropped. A code containing `//` is rejected, and so is a path whose full segment count is odd.
- Whether the `getDoc` read succeeds, and whether anonymous sign-in succeeds, are `bool` parameters.
- `Math.random` is an oracle `random: nat -> real`. `random(i)` is the value returned by the `i`-th call.
- The subjects `role$` and `state$`, and the output `appSelect`, are modelled as the sequence of values pushed to them.

Behaviour of the code worth knowing:

- If `doc()` throws on the code or `getDoc` rejects, `onStartSession` rejects. No role is published, no alert is shown, and `sessionId` is unchanged.
- If sign-in fails after a valid code, the code publishes no role at all, not `viewer`. `sessionId` has already been set by then.
- `onEndSession` only publishes `viewer`. It does not clear `sessionId`.
- `canSelect` with a `null` or empty `restrictTo` rejects every cell. It is not a "no restriction" mode.
- There is no admin bypass, no interactable check, no partition allocation and no reset operation in the code.
- The control components do declare an `interactable` input and the outputs `appSetInteractable` and `appSetParticipants`. `AppComponent` (app.component.ts:24-144) declares no field or handler for `interactable`, `appSetInteractable` or `appSetParticipants`.
- An `updateDoc` increment on a field that does not exist creates the field with counter 1. So a click on an index the document lacks makes the grid grow by one cell.

## Model

| member | source | states |
|---|---|---|
| Js.Remainder | src/app/app.component.ts:78 | JavaScript `%`: the result lies strictly between -abs(b) and abs(b) and has the dividend's sign |
| Js.Truthy | src/app/app.component.ts:118-121 | a value is falsy exactly when it is `undefined`, `null`, `false`, `0` or `""`; this decides the `isAdmin` fallback to `false` and the choice between `'admin'` and `'participant'` |
| Js.RemainderTwo | src/app/app.component.ts:78 | `x % 2` is 0 exactly for even `x`, equals Dafny's `% 2` for `x >= 0`, lies in -1..1, is idempotent, and always changes when `x` grows by one |
| OrderedKeys.Ascending | src/app/app.component.ts:74-76 | the parsed keys sorted ascending: each key exactly once, strictly increasing, nothing else |
| OrderedKeys.AscendingAtRank | src/app/app.component.ts:74-76 | key `k` sits at position "number of keys smaller than k" of the sorted keys |
| OrderedKeys.AscendingIndices | src/app/app.component.ts:74-76 | sorting the keys `0..n-1` gives `0, 1, ..., n-1` |
| Store.ApplyIncrement | src/app/app.component.ts:131-133 | an increment update on an absent document leaves it absent; otherwise it adds the field if missing, raises that field's counter by the amount (a missing field counts as 0) and leaves every other field unchanged |
| Store.Counter | src/app/app.component.ts:132 | the increment primitive counts a missing field as 0 |
| Store.Pieces | src/app/app.component.ts:103 | splitting the code on `/` gives at least one piece, no piece contains `/`, and joining the pieces with `/` gives back the code |
| Store.NonEmpty | src/app/app.component.ts:103 | the segments kept are exactly the non-empty pieces, and their number is the number of pieces less the empty ones |
| Store.NonEmptyAppend | src/app/app.component.ts:103 | filtering keeps the order: the kept pieces of `a + b` are those of `a` followed by those of `b` |
| Store.DocumentPath | src/app/app.component.ts:103 | `doc(db, 'sessions', code)` fails exactly when the code contains `//` or has an even number of non-empty segments; otherwise the path is the code's non-empty pieces in order, an odd number of segments, none empty and none containing `/` |
| Store.PlainCodePath | src/app/app.component.ts:103 | a non-empty code without `/` names the record whose id is the code |
| Store.PiecesAfterSlash | src/app/app.component.ts:103 | a slash-free prefix followed by `/` splits off as the first piece |
| Store.TrailingSlashPath | src/app/app.component.ts:103 | for every non-empty slash-free `w`, the code `w/` names record `w` |
| Store.NestedPathRejected | src/app/app.component.ts:103 | for non-empty slash-free `w` and `x`, the code `w/x` makes `doc()` throw |
| AppComponent.Project | src/app/app.component.ts:64-82 | an absent document publishes `null` and an existing one publishes a sequence, even when it is empty; there is one entry per key, and entry j is the j-th smallest key's counter `% 2` |
| AppComponent.ProjectAt | src/app/app.component.ts:74-78 | entry `Rank(k)` of the projection is the counter stored under `k`, `% 2` |
| AppComponent.ProjectedBits | src/app/app.component.ts:78 | with non-negative counters every projected entry is 0 or 1 |
| AppComponent.IndexedDocument | src/app/app.component.ts:140 | the `reduce` builds a document whose keys are exactly `0..n-1`, with key `i` holding element `i` |
| AppComponent.ProjectIndexed | src/app/app.component.ts:74-78 | projecting a document keyed `0..n-1` gives its values in index order, `% 2` |
| AppComponent.Reproject | src/app/app.component.ts:74-78 | storing a projected grid under keys `0..n-1` and projecting it again gives the same grid |
| AppComponent.OnSelect | src/app/app.component.ts:130-134 | selecting cell `i` only changes key `i`, raising its counter by 1 (creating it with 1 if missing); an absent document stays absent |
| AppComponent.ProjectionsAgreeOffKey | src/app/app.component.ts:74-78 | two documents with equal keys that differ only at key `i` project to grids of equal length that differ only at `i`'s position |
| AppComponent.SelectFlipsOneCell | src/app/app.component.ts:130-134 | selecting an existing cell keeps the grid length, flips that cell's visible bit (0 to 1 and 1 to 0 for a non-negative counter) and leaves every other visible bit as it was |
| AppComponent.SelectAddsMissingCell | src/app/app.component.ts:130-134 | selecting an index with no field grows the grid by one cell, which shows 1 |
| AppComponent.ApplySelections | src/app/app.component.ts:130-134 | a run of selections leaves an absent document absent and an existing one existing |
| AppComponent.SelectionsCount | src/app/app.component.ts:130-134 | after any run of selections each counter has grown by exactly the number of times its index was selected; the keys are the old keys plus the selected indices |
| AppComponent.SelectionsCommute | src/app/app.component.ts:130-134 | two runs of selections that pick each index equally often, in any order, leave the same document |
| AppComponent.CellBitAfterSelections | src/app/app.component.ts:130-134 | after `k` selections of a cell with counter `c >= 0`, its visible bit is `(c + k) % 2`, whatever the order |
| AppComponent.Coin | src/app/app.component.ts:139 | each drawn cell is 0 or 1, and it is 1 exactly when `Math.random()` returned more than 0.5 |
| AppComponent.Draws | src/app/app.component.ts:137-139 | `n` cells are drawn, cell `i` from the `i`-th random value |
| AppComponent.RandomizedDocument | src/app/app.component.ts:136-142 | `n` defaults to 1024; a negative `n` or one above 2^32-1 throws; otherwise the document has exactly the keys `0..n-1`, each value 0 or 1, and 1 exactly when its random value exceeds 0.5 |
| AppComponent.OnRandomizeState | src/app/app.component.ts:136-143 | on success the stored document is replaced whole; when `new Array(n)` throws it is left untouched |
| AppComponent.RandomizeThenProject | src/app/app.component.ts:136-142 | whatever was stored before, randomizing with `n` and then projecting shows exactly the `n` drawn bits, in order |
| AppComponent.Lookup | src/app/app.component.ts:103-106 | the lookup is rejected exactly when `doc()` throws on the code or the read fails; otherwise it finds a record exactly when the code's path is in the collection, and that record is the one stored there |
| AppComponent.PlainCodeLookup | src/app/app.component.ts:103-106 | a successful lookup of a code without `/` finds the record stored under that code, and reports it missing when there is none |
| AppComponent.SessionRole | src/app/app.component.ts:99-122 | the published role is `viewer` exactly for a missing record; `admin` exactly for a found record with truthy `isAdmin` after sign-in; `participant` exactly for a found record with falsy `isAdmin` after sign-in; nothing when the lookup is rejected or sign-in fails |
| AppComponent.App.constructor | src/app/app.component.ts:29-33 | `sessionId` starts `null` and nothing has been published yet |
| AppComponent.App.OnStateSnapshot | src/app/app.component.ts:64-81 | each snapshot appends exactly its projection to `state$` |
| AppComponent.App.OnStartSession | src/app/app.component.ts:99-122 | `sessionId` becomes the code exactly when a record is found and is otherwise unchanged; `role$` receives the role `SessionRole` gives, or nothing when the lookup is rejected or sign-in fails |
| AppComponent.App.OnEndSession | src/app/app.component.ts:124-126 | `role$` receives `viewer`; `sessionId` is untouched |
| AppComponent.App.ResolveParams | src/app/app.component.ts:88-95 | a present, non-empty `key` parameter starts a session with that code; otherwise nothing changes |
| IconGrid.OrEmpty | src/app/icon-grid/icon-grid.component.ts:33 | the `state` fallback to `[]`: the list itself, or `[]` for `null` (the same fallback is applied to `restrictTo` at line 56) |
| IconGrid.Includes | src/app/icon-grid/icon-grid.component.ts:56 | the linear search of `includes` finds `x` exactly when `x` is an element |
| IconGrid.IconGridComponent.constructor | src/app/icon-grid/icon-grid.component.ts:20-23 | `state` and `restrictTo` start `null`; nothing has been emitted |
| IconGrid.IconGridComponent.Ready | src/app/icon-grid/icon-grid.component.ts:25-27 | ready exactly when `state` is not `null` |
| IconGrid.IconGridComponent.CanSelect | src/app/icon-grid/icon-grid.component.ts:55-57 | a cell may be selected exactly when `restrictTo` is a list that contains it |
| IconGrid.NothingSelectableWithoutList | src/app/icon-grid/icon-grid.component.ts:55-57 | a `null` or empty `restrictTo` rejects every index |
| IconGrid.IconGridComponent.Grid | src/app/icon-grid/icon-grid.component.ts:29-38 | the rows, laid end to end, are exactly the state (no rows for `null`); there are ceil(n/32) rows; every row but the last has 32 cells and the last has 1 to 32; cell (r, c) is state[32r + c] |
| IconGrid.IconGridComponent.OnSelect | src/app/icon-grid/icon-grid.component.ts:46-53 | `appSelect` emits `i` exactly once when `canSelect(i)` holds, and nothing otherwise |

## Left out

- AppComponent.Lookup: the only reasons `doc()` rejects that are modelled are `//` and an odd segment count. The store's other document-id limits are not modelled, such as `.`, `..`, `__…__` names and length limits. A failed read is only a yes/no outcome.
- Network and foreign I/O: `initializeApp`, `getFirestore`, `onSnapshot`, `getDoc`, `updateDoc`, `setDoc`, `signInAnonymously` and `getAuth().signOut`. Documents, the session collection and the read and sign-in outcomes are parameters instead.
- `doc`: only its path parsing is modelled (`Store.DocumentPath`). The reference object it returns is abstracted away.
- `updateDoc` and `setDoc` are modelled as always landing. The one exception is an `updateDoc` on an absent document, which the store rejects. Network and permission failures are not modelled. The code does not handle a rejected write in any case.
- Timing: async interleaving of `onStartSession` with other events, the order in which snapshots arrive, and the sign-out in the constructor that must finish before the subscriptions start.
- rxjs `Subject` semantics: subscribers that miss earlier values. A subject is modelled as the log of everything pushed to it.
- `alert` and `console.log`, which only show or log messages.
- `subscribeToRole`: it registers a callback but is never called.
- `subscribeToRestrictedTo`: its body is empty, so `restrictTo$` never publishes anything.
- `ActivatedRoute` query-parameter parsing. `ResolveParams` receives the `key` parameter as an `Option<string>`.
- Field names are taken as integers already parsed by `parseInt`. Not modelled: names that parse to `NaN`, two names that parse to the same number (such as `"01"` and `"1"`), and the sort comparator's behaviour on `NaN`.
- Counters and indices are unbounded integers. Fractional numbers, `NaN` and float rounding are not modelled.
- Js.Remainder: does not state that `a - r` is a multiple of `b`. It states only the bounds and the sign of the remainder.
- onRandomizeState: only integer arguments are modelled. A fractional `n` also makes `new Array(n)` throw, and that case is not covered.
- The template bindings between `AppComponent` and `IconGridComponent`, and the admin, viewer and participant control components. Those are form configuration and event-emitter wiring.
- The commented-out p5 sketch and the `Icon` class in icon-grid.component.ts: dead code.
- Session partition allocation, any check of the interactable flag, admin bypass, bulk session provisioning and grid reset. None of them has an implementation in the code.
