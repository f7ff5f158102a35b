# Personal finance ledger: component state and store model

This project models the ledger engine inside the single React component
`App.tsx` of a personal finance web app backed by Firestore. The engine has
five parts:

- the **summary**: income, expense and savings totals, and the balance;
- the **mutation gateway**: add a transaction, delete through a two-step
  confirmation, save an edit;
- the **session handler**: on sign-in, load the profile document with
  per-field defaults, then list the record collection newest first; a
  document that still holds a legacy inline transaction array stops the
  handler at the migration step, which throws as written (see Findings);
  seed a document for a first-ever user; reset everything on sign-out;
- the **persistence reflector**: six merge-writes, one per profile group,
  only while a user is signed in;
- the **reset**: overwrite the profile document with `{}` and reload.

Firestore becomes an abstract store (`RemoteStore.Store`). Each user has a
`Space`: an optional profile document and a map from record id to entry
(the `users/{uid}/transactions` collection). Each remote call is a pure
function on that value. Whether an awaited call resolves is a parameter of
the handler (`ok: bool`, or `failure: Option<LoadStep>` for the three calls of
a load). A rejected call ends the handler where it stands, as an uncaught
rejection in an `async` function does. Ids the store generates (`addDoc`, and
the intended `doc(transactionsColRef)` of the corrected migration) are
parameters too, with the freshness the store guarantees as a
precondition.

Modules:

- `Wrappers`: `Option`.
- `Ledger`: entries, profile groups and the default constants.
- `Aggregator`: the summary reduce and its reference definition.
- `LocalLists`: the list transforms given to state setters (filter, map,
  date sort).
- `RemoteStore`: the store and its writes, plus the cache relation between
  the local list and the collection.
- `Session`: loading with defaults, and the migration as its authors
  meant it (staging loop, batch commit), next to the commit as written.
- `AppState`: the component as a class `App`. Its fields are the
  component's state. Its methods are the handlers, each with a field-level
  `modifies` frame, so that every field it does not name is unchanged.
  `App.Valid()` is the invariant that every local transaction agrees with
  the signed-in user's record of the same id, and that no two local
  transactions share an id. Every handler that touches transactions
  preserves it, with the two exceptions listed under "## Left out"
  (`SignIn` and `SaveEdit`).

Where the code does something other than what its own comments or its
callers would expect, the model follows the code.

A caller of `confirmDelete` would expect the confirmation to close once it
is confirmed. In the code, a rejected `deleteDoc` (App.tsx:194) ends the
handler before lines 198-199, so the pending id stays and the dialog stays
open. The code also returns early, with the dialog open, when signed out
(App.tsx:190). `AppState.App.ConfirmDelete` keeps both behaviours.

The comments of the migration promise three things:
- it runs once per user (App.tsx:84);
- each legacy entry gets a reference with a new id (App.tsx:91);
- the legacy field is deleted (App.tsx:94).

In the code, the staging loop asks for `collection(transactionsColRef)` with
no path (App.tsx:91), which throws on the first legacy entry. So the handler
ends after setting the groups and before any write: nothing is migrated,
nothing is listed, and loading never stops, on this and every later
sign-in. `AppState.App.SignIn` follows the code. The migration as those
comments describe it is modelled on its own in `Session`. The Findings
table below records both defects of the migration.

## Model

| member | source | states |
|---|---|---|
| Aggregator.Summarize | App.tsx:227-233 | the reduce gives, per type, the sum of the amounts of entries of exactly that type; entries of other types contribute nothing |
| Aggregator.FoldAddsSums | App.tsx:227-233 | reducing from any accumulator adds the three per-type sums to it |
| Aggregator.TotalBalance | App.tsx:235 | the balance is the income sum minus the expense sum minus the savings sum |
| Aggregator.SumOfPermutation | App.tsx:227-233 | a per-type sum is the same for any two lists with the same elements |
| Aggregator.SummaryIgnoresOrder | App.tsx:227-235 | the summary and the balance do not depend on list order |
| Aggregator.SumOfAppend | App.tsx:227-233 | a per-type sum over a concatenation is the sum of the two parts |
| Aggregator.SumOfRemove | App.tsx:227-233 | removing one entry takes exactly its contribution off the sum |
| Aggregator.SumOfReplace | App.tsx:222 | replacing one entry, as an edit does, changes each sum by the old and new contributions only |
| Aggregator.ApplyEditAt | App.tsx:222 | on a list where the edited id occurs once, the edit's map by id replaces exactly that one entry |
| Aggregator.EditChangesSums | App.tsx:204-235 | saving an edit of an entry whose id occurs once changes each per-type sum by that entry's old and new contributions only |
| Aggregator.EditSummary | App.tsx:204-235 | after an edit of an entry whose id occurs once, the summary is the old one with that entry's contributions exchanged for the edited copy's |
| Aggregator.ExampleEdit | App.tsx:204-235 | editing the 300 expense of the worked example to 450 gives totals 1000, 450, 200 and a balance of 350 |
| Aggregator.ExampleBalance | App.tsx:227-235 | income 1000, expense 300 and savings 200 give a balance of 500 |
| Ledger.SessionUserData | App.tsx:76 | the fallback profile's name is never empty, and the profile differs from the signed-out one (App.tsx:57) only in its name and email |
| LocalLists.FilterCounts | App.tsx:188 | a filter keeps every occurrence of each kept element and no other element |
| LocalLists.FilterAppend | App.tsx:196 | filtering preserves the relative order of the kept elements |
| LocalLists.FilterKeepsAll | App.tsx:196 | filtering with a test every element passes returns the list itself |
| LocalLists.WithoutAcquisition | App.tsx:188 | exactly the acquisitions with the given numeric id are dropped; each other acquisition keeps its count |
| LocalLists.WithoutTransaction | App.tsx:196 | exactly the transactions with the given record id are dropped; each other transaction keeps its count; unique ids stay unique |
| LocalLists.FilterKeepsUniqueIds | App.tsx:196 | filtering a list whose ids are unique leaves them unique |
| LocalLists.CountedIdsUnique | App.tsx:101-103 | a list with as many distinct ids as entries has no id twice |
| LocalLists.EditKeepsUniqueIds | App.tsx:222 | the edit's map, with a copy that keeps the id, keeps ids unique |
| LocalLists.Patch | App.tsx:208-213 | the edited entry takes description, amount and date from the form and keeps type, category and card |
| LocalLists.ApplyEdit | App.tsx:222 | same length; every entry with the id becomes the edited copy; every other entry is unchanged in place |
| LocalLists.Insert | App.tsx:104 | inserting adds exactly one element |
| LocalLists.InsertSorted | App.tsx:104 | inserting into a list sorted newest first keeps it sorted |
| LocalLists.SortByDateDesc | App.tsx:104 | the sort returns a permutation of its input, sorted by date newest first |
| LocalLists.InsertOnDate | App.tsx:104 | an insert does not reorder the entries of any one date |
| LocalLists.SortKeepsOrderWithinDate | App.tsx:104 | the sort is stable: entries of the same date keep their listing order |
| RemoteStore.MergeMonths | App.tsx:144 | merging the month map: every written key takes its new value, every stored key not written keeps its value, no other key appears; an empty map replaces the stored one |
| RemoteStore.MergeField | App.tsx:144 | a merge-write sets its one field (the month map merged key by key with the stored one) and leaves every other field, and the legacy field, as they were |
| RemoteStore.MergeKeepsUnwrittenMonth | App.tsx:144 | for any stored month map and any written one: a stored key the written map lacks keeps its stored value, unless the written map is empty, in which case the stored map becomes empty |
| RemoteStore.MergeWrite | App.tsx:141-145 | a merge-write creates the document if needed, sets one group (merging the month map), leaves the other fields, and never touches the records |
| RemoteStore.PutSpace | App.tsx:143 | a write to one user's space leaves every other user's space unchanged |
| RemoteStore.AddRecord | App.tsx:172 | the collection gains exactly the new id with the draft; every other record is unchanged |
| RemoteStore.RemoveRecord | App.tsx:194 | the collection loses exactly that id; every other record is unchanged |
| RemoteStore.UpdateRecord | App.tsx:216-220 | only the record with the id changes, and only in description, amount and date |
| RemoteStore.AddKeepsCache | App.tsx:169-175 | the prepended list is a cache of the collection after the create |
| RemoteStore.DeleteKeepsCache | App.tsx:193-196 | the filtered list is a cache of the collection after the delete |
| RemoteStore.EditKeepsCache | App.tsx:215-222 | the mapped list is a cache of the collection after the update |
| RemoteStore.AddKeepsUniqueIds | App.tsx:169-175 | the store's fresh id is new to a cached list, so the prepended list keeps its ids unique |
| RemoteStore.MirrorsUnique | App.tsx:101-103 | a listing of the collection holds each id once |
| RemoteStore.MirrorsHold | App.tsx:101-103 | a list that mirrors the collection is a cache of it |
| RemoteStore.ListRecords | App.tsx:101-103 | the listing holds each record of the collection once, with its id, and nothing else |
| Session.LoadProfile | App.tsx:75-81 | each of the six groups is the stored value when present, else its session default |
| Session.LoadSeeded | App.tsx:106-120 | loading the seeded document gives exactly the session defaults |
| Session.LoadEmpty | App.tsx:162 | loading the `{}` document gives the session defaults and migrates nothing |
| Session.LoadAfterMerge | App.tsx:141-152 | after a merge-write of a group, a load returns that value for it (for the month map, the stored map merged with it) and the old values for the others |
| Session.LegacyRecords | App.tsx:89-93 | the staged records are keyed by exactly the fresh ids, legacy entry i under id i |
| Session.LegacyRecordsCount | App.tsx:89-93 | one staged record per legacy entry |
| Session.StageLegacy | App.tsx:90-93 | corrected (reference from `doc(transactionsColRef)`): the `forEach` loop stages exactly those records |
| Session.CommitMigration | App.tsx:94-96 | corrected (field deleted): the batch adds every staged record, keeps every existing one, keeps the profile groups, and leaves nothing to migrate |
| Session.MigrationKeepsCache | App.tsx:85-97 | corrected migration: a list that is a cache before the migration is still one after it |
| Session.CommitMigrationAsWritten | App.tsx:95-96 | as written (once line 91 no longer throws), the batch adds the records but leaves the document, and so its legacy array, as it was |
| Session.AsWrittenMigrationRepeats | App.tsx:83-97 | as written in line 95 (with line 91 corrected), the document still needs migration after the batch, and a second load adds a second copy of every legacy entry |
| Session.MigrationRunsOnce | App.tsx:84-97 | corrected migration: with the field deleted, one batch adds exactly one record per legacy entry and leaves nothing to migrate |
| AppState.LegacyLoadStalls | App.tsx:83-97 | as written, a load of a document with a non-empty legacy array never completes, whatever the calls answer, and leaves the store as it was, so the next load stalls too |
| AppState.SignInSettles | App.tsx:74-121 | with no rejection, a sign-in completes exactly when there is no legacy array; a completed one leaves a document with nothing to seed or migrate, so a second one completes and writes nothing |
| AppState.ResetThenSignIn | App.tsx:159-165 | after the reset, the next sign-in loads only the session defaults, writes nothing, completes, and finds the kept records |
| AppState.SeedThenSignIn | App.tsx:105-121 | a first sign-in sets only profile, categories and cards; a later sign-in loads all six groups as the session defaults |
| AppState.App.constructor | App.tsx:41-63 | a fresh mount starts signed out, loading, with the default groups and no transactions |
| AppState.App.SignIn | App.tsx:67-133 | user set; groups loaded with defaults or seeded; the store changes only by the seed; a completed load stops loading and holds the sorted listing of the collection; a legacy array or a rejected call stops the handler there |
| AppState.App.LoadDocument | App.tsx:74-104 | groups loaded from the existing document; with a legacy array the handler stops there; otherwise the sorted listing replaces the local list and loading stops; the store is not written |
| AppState.App.SetGroups | App.tsx:76-81 | all six groups take the given values |
| AppState.App.LoadTransactions | App.tsx:100-104 | the local list becomes the listing of the collection, sorted newest first |
| AppState.App.ListAndFinish | App.tsx:100-104 | the sorted listing is the local list, loading stops, and the cache invariant holds |
| AppState.App.SeedDocument | App.tsx:105-121 | the seeded document is written, then only profile, categories and cards are set; the records are untouched |
| AppState.App.SignOut | App.tsx:122-133 | signed out, every group at its default, no transactions, loading stopped, and no write to the store |
| AppState.App.SetGroup | App.tsx:57-63 | a setter changes its one group only |
| AppState.App.Reflect | App.tsx:141-152 | while signed in, a resolved merge-write of the group's current value; otherwise the store is unchanged |
| AppState.App.PromptReset | App.tsx:155-157 | the reset dialog opens and nothing else changes |
| AppState.App.ConfirmReset | App.tsx:159-166 | when signed in and the write resolves: the profile document becomes `{}`, the records are kept, and the component is mounted afresh; otherwise nothing changes |
| AppState.App.Remount | App.tsx:163 | the reload: every field back to its initial value over the given store |
| AppState.App.AddTransaction | App.tsx:169-175 | when signed in and the create resolves: the store gains exactly the record and the local list is that record prepended to the old list; otherwise nothing changes |
| AppState.App.PromptDelete | App.tsx:177-182 | the target becomes pending and the dialog opens |
| AppState.App.CancelDelete | App.tsx:398 | the dialog closes and the pending target stays |
| AppState.App.ConfirmDelete | App.tsx:185-201 | no truthy pending id: nothing changes; an acquisition: filtered out locally with no remote call; a transaction: deleted remotely, then filtered out locally; the pending id is cleared only when the branch completes |
| AppState.App.SaveEdit | App.tsx:204-225 | when editing, signed in, and the update resolves: the record changes in three fields, every local entry with its id becomes the edited copy, and the dialog closes; otherwise nothing changes; on a valid state, the summary changes by the edited entry's old and new contributions only |

## Left out

- Rendering, the sidebar and tabs, the modal markup, `LoginScreen` and the
  Firebase Auth calls (App.tsx:237-434) are UI and are not modelled.
- The views, `./types` and `./firebase` are not part of this model. The
  shapes of `Transaction` and `Acquisition` are inferred from their use.
- Firestore is an abstract map-based store. Whether each call resolves is a
  parameter. Generated ids are parameters with a freshness precondition.
  Network, retries and offline caching are not modelled.
- The order in which `getDocs` lists records is left open: `ListRecords`
  picks any order. The stable sort then keeps that order among entries of
  the same date.
- Amounts are integers. `parseFloat` of the edit text, and its `NaN`, are
  not modelled. Dates are integer day ordinals in place of `new Date(...)`
  parsing. `EditForm` carries the already-parsed values.
- Concurrency is not modelled: interleaved reflector writes, a second auth
  event while a load is still awaiting, and handlers that read state
  captured at an earlier render. Each handler runs to completion on the
  current state.
- The reflector's trigger (an effect that fires whenever a group or the user
  changes) is not modelled. `Reflect` is the write that one firing performs.
- `window.location.reload()` is modelled as `Remount`, a fresh mount over
  the same store. The auth event that follows is a separate `SignIn`.
- A stored group that is present but falsy (`null`) is treated like an
  absent one, as `||` does. Such a field is `None` in `ProfileDoc`.
- `User.email` is nullable in Firebase but is a string here: email and
  password accounts always have one.
- The numeric-to-string cast of a pending id (App.tsx:179, 192) is folded
  into `DeleteTarget`. An acquisition target carries a number and a record
  target a string. Truthiness is `0` or `""`.
- Nothing in `App.tsx` sets `transactionToEdit` or opens the edit dialog, and
  the reset dialog is never rendered. `SaveEdit` and `ConfirmReset` are
  modelled as if an unseen view triggers them.
- AppState.App.SignIn: the cache invariant `Valid()` is promised only when
  the previous user was signed out or has the same uid. If a different user
  signs in directly and a later call rejects, the previous user's
  transactions stay in the local list, which the source does too.
- AppState.App.SaveEdit: the cache invariant is promised only when the
  transaction being edited is in the local list, which the unseen view that
  sets it would ensure.
- Session.StageLegacy, Session.CommitMigration, Session.MigrationKeepsCache
  and Session.MigrationRunsOnce model the migration as intended, not as
  written: the component never reaches them, because App.tsx:91 throws
  first (`AppState.LegacyLoadStalls`).
- `promptDelete` is only ever called with `isAcquisition` false
  (App.tsx:247), so the acquisition branch of `confirmDelete`
  (App.tsx:187-188) cannot be reached from `App.tsx`. `ConfirmDelete` still
  models it, as if an unseen view set that flag.
- A month key removed from `paidMonths` locally is not removed remotely,
  unless the local map becomes empty, because the store merges a non-empty
  map key by key and replaces the field with an empty one
  (`RemoteStore.MergeKeepsUnwrittenMonth`). The next load brings such a key
  back.
- The seeded document's `transactions: undefined` (App.tsx:116): the store
  either drops the field or, under its default settings, rejects the whole
  write. `SeedDoc` has no legacy field, and the rejection is the `SeedStep`
  failure.

## Findings

| source | as written | input that shows it | evidently intended | confidence | as-written member | corrected member |
|---|---|---|---|---|---|---|
| App.tsx:91 | each legacy entry's record reference is `doc(collection(transactionsColRef))`, and `collection` given a collection reference with no path throws | a profile document whose legacy array holds one entry: the first iteration throws, so nothing is written, nothing is listed, and loading stays on, on every sign-in | `doc(transactionsColRef)`, a reference with a fresh id in that collection | high, not executed | AppState.LegacyLoadStalls | Session.StageLegacy |
| App.tsx:95 | the batch "clears" the legacy field by updating it to `undefined`, which the store either drops (with undefined properties ignored) or rejects; either way the legacy array is never removed | with line 91 corrected, a profile document whose legacy array holds one entry, loaded twice with undefined properties ignored: the second load migrates the entry again, so the collection holds two copies of it | the field deleted in the same batch (a field-delete sentinel), so that the migration runs once | medium, not executed | Session.AsWrittenMigrationRepeats | Session.MigrationRunsOnce |
