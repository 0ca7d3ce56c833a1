# Thread list sync of the Rocket.Chat React Native thread view

This project models the synchronisation core of the thread list view of the
Rocket.Chat React Native client (`ThreadMessagesView`). The view keeps a local
copy of a room's threads in sync with the server:

- **Reconciler** (`updateThreads`). It diffs a remote batch (`update`, `remove`)
  against the room's stored thread records, using id equality only. It computes
  the records to create, update and destroy, and commits them in one store batch
  that also writes the subscription's `lastThreadSync` watermark. Without a
  subscription it only appends the update items to the in-memory list.
- **Paged loader** (`load`). A guarded state machine over `loading`, `end`,
  `messages` and `mounted`. It fetches pages of 50 threads at offset
  `messages.length`. The list is exhausted when a page count is below 50. An
  exception fails closed.
- **Sync driver** (`init`, `sync`). It chooses a first paged load or a delta sync
  from the subscription's watermark.
- **Badge classifier** (`getBadgeColor`). First match wins over the unread lists.

Modules:

- `Types`: threads, the subscription record, requests and responses.
- `Badges`: the badge classifier.
- `Reconciler`: the diff and the batch commit, as functions over a map from id
  to record.
- `ViewState`: each handler as a step function on the view state, with the
  server's answer and the store's outcome as inputs.
- `Session`: runs of events and what they add up to. Its store lookup is the
  corrected one (see "## Findings"); the lookup as written is stated on its own
  in `Session.MissingRecordDropsPage`.
- `ThreadMessagesView`: the component as a class. Its fields are the view state
  and the room's stored records. Each method is proved equal to its step
  function.

The view's `subscription` state has three values:

- `NoSubscription`: a falsy value.
- `Placeholder`: the empty object the constructor stores. It is truthy but has
  no watermark, no unread lists and no thread relation.
- `Loaded`: the store's record.

`buildMessage` is the class constant `build`. Nothing is assumed about it: the
diff compares the ids of the built items, as the source does.

The store's batch semantics are not in the source files. The model assumes that
a batch applies its creates in order, then its updates, then its destroys:

- A later create of the same id replaces an earlier one.
- A record that is both updated and destroyed ends up destroyed.

The statements about duplicate ids and about ids that are both updated and
removed rest on this assumption: `Reconciler.CreatesLastWins`,
`Reconciler.ReconcileCreated`, `Reconciler.ReconcileIdempotent` and
`Reconciler.ReconcileNotIdempotentOnUpdateAndRemove`. If the store refused to
destroy a record with a pending update, the destroy would throw and, through
the catch, the whole batch would be dropped.

What the source does, line by line, where a reader might expect otherwise
(all lines in `app/views/ThreadMessagesView/index.js`):

- The watermark. `init` builds `new Date()` at line 130, but only passes it to
  `load` (line 134). A delta sync hands `updateThreads` the same `updatedSince`
  it was called with (line 233), so a sync never moves the watermark
  (`Session.SyncWatermark`). Loads do move it. `init`'s first load of a
  subscribed room writes `now` (`Session.FirstLoadRecordsWatermark`). Every
  later end-of-list `load` passes its own argument to `updateThreads`
  (line 210), which writes it in the same batch as the page (line 187). That
  argument is whatever the list component hands the callback at line 335
  (`Session.ScrollLoadOverwritesWatermark`).
- With the store behaviour assumed above, reconciliation is not idempotent when
  a stored id is both in `update` (lines 162-173) and in `remove`
  (lines 176-179). The first pass destroys the record; the second creates it
  again (`Reconciler.ReconcileNotIdempotentOnUpdateAndRemove`). It is
  idempotent when the update ids are disjoint from the removed ids and
  distinct among the items with no stored record
  (`Reconciler.ReconcileIdempotent`).
- Without a subscription, the comment at line 143 says the data is kept in
  `messages`. Line 146 appends every raw update item, not just the items to
  create.
- A page result without `success` skips the `setState` at lines 211-214, so
  `loading` stays set from line 203. Every later `load` then returns at
  line 199 until a sync clears the flag (lines 236-238)
  (`Session.StuckWhileLoading`).
- Each page is handed to `updateThreads` alone (line 210), not the accumulated
  list. In a subscribed room the listed threads are what the live query emits
  (lines 110-117), not the pages appended (`Session.FullPagesRun`).

The model does not establish that every stored record sits under its own id
(`Reconciler.KeyedById`): nothing in the source fixes what the store holds
at the start. If it holds, reconciling keeps it so
(`Reconciler.ReconcileKeyedById`, `ViewState.UpdateThreadsKeyedById`).

## Model

| member | source | states |
|---|---|---|
| `Badges.BadgeColor` | app/views/ThreadMessagesView/index.js:264-276 | The badge is the highest-ranked one (mention of me, then group mention, then unread) whose id list holds the thread id. There is no badge exactly when no list holds it or the subscription is falsy or the placeholder. |
| `Reconciler.FirstIndexOf` | app/views/ThreadMessagesView/index.js:169 | Gives the first position whose item carries the id, or the length of the list when none does. |
| `Reconciler.Find` | app/views/ThreadMessagesView/index.js:169 | `find` by id returns something exactly when some item carries the id. It returns the item at the first such position. |
| `Reconciler.ToCreate` | app/views/ThreadMessagesView/index.js:161 | The ids of the create list are the update ids minus the stored ids. |
| `Reconciler.ToCreateCounts` | app/views/ThreadMessagesView/index.js:161 | The create list is the update list filtered: each item whose id has no stored record is kept exactly as often as it occurs, and no other item is. |
| `Reconciler.ToUpdate` | app/views/ThreadMessagesView/index.js:162-173 | The records updated are exactly the stored ids that some update item carries. Each takes the first update item with its id. |
| `Reconciler.ToDelete` | app/views/ThreadMessagesView/index.js:176-179 | The records destroyed are exactly the stored ids that some remove item carries. |
| `Reconciler.Diff` | app/views/ThreadMessagesView/index.js:154-179 | Create and update split the update ids with no overlap. No created id is destroyed. An empty update list creates and updates nothing. An empty remove list destroys nothing. |
| `Reconciler.ApplyCreates` | app/views/ThreadMessagesView/index.js:163-167 | Applying the creates adds exactly their ids. Records with other ids are untouched. |
| `Reconciler.CommitOrder` | app/views/ThreadMessagesView/index.js:181-190 | The batch leaves the stored ids plus the created and updated ids, minus the destroyed ones. An update wins over a create of the same id, and a destroy over both. Records the batch does not name are untouched. |
| `Reconciler.Reconcile` | app/views/ThreadMessagesView/index.js:181-190 | After the commit the stored ids are the old ids minus the removed ids, plus the new update ids. A record named in neither list is unchanged. A stored record that is updated and not removed holds the first update item with its id. |
| `Reconciler.ReconcileKeyedById` | app/views/ThreadMessagesView/index.js:163-172 | If every stored record sits under its own id, it still does after reconciling: a created record is stored under the id it carries, and an updated one takes an item carrying its id. |
| `Reconciler.ReconcileCreated` | app/views/ThreadMessagesView/index.js:163-167 | Under the assumed in-order creates, a record created by the commit holds the last update item with its id. |
| `Reconciler.CreatesLastWins` | app/views/ThreadMessagesView/index.js:182-185 | Creates applied in batch order leave the last create of an id in the store, whatever the store held before. |
| `Reconciler.ReapplyCreatesNothing` | app/views/ThreadMessagesView/index.js:161 | Re-running the same update list after a commit creates nothing, provided no stored id it updates was also removed. |
| `Reconciler.ReconcileIdempotent` | app/views/ThreadMessagesView/index.js:154-190 | Under the assumed batch order, reconciling the same batch twice gives the same store as once. This holds when no id is both updated and removed, and the update items with no stored record carry distinct ids. |
| `Reconciler.ReconcileNotIdempotentOnUpdateAndRemove` | app/views/ThreadMessagesView/index.js:158-179 | Counterexample under the assumed batch order: a stored id that is both updated and removed is destroyed by the first pass and created again by the second. |
| `ViewState.BuildAll` | app/views/ThreadMessagesView/index.js:159 | `update.map(buildMessage)`: the built list has the same length, and each position holds `build` of the item there. |
| `ViewState.SubscribeDataAsWrittenStep` | app/views/ThreadMessagesView/index.js:92-121 | The lookup as written: a found record becomes the subscription. A missing record is swallowed by the empty catch (lines 118-120), so the subscription is whatever it was, the placeholder at first. Nothing else changes. |
| `ViewState.SubscribeDataStep` | app/views/ThreadMessagesView/index.js:92-121 | The corrected lookup: a found record becomes the subscription. The view is without a subscription exactly when the record is missing. Nothing else changes. |
| `ViewState.UpdateThreadsStep` | app/views/ThreadMessagesView/index.js:141-194 | Without a subscription: messages are extended by the update items and the store is untouched. With the placeholder or a failed batch: nothing changes. With a record: the reconciled records and `lastThreadSync` are written together. `loading`, `end` and `mounted` never change. |
| `ViewState.UpdateThreadsKeyedById` | app/views/ThreadMessagesView/index.js:141-194 | `updateThreads` keeps every stored record under its own id. |
| `ViewState.LoadRequest` | app/views/ThreadMessagesView/index.js:198-208 | `load` sends no request exactly when `end`, `loading` or not mounted. Otherwise it asks for 50 threads at offset `messages.length`. |
| `ViewState.LoadStep` | app/views/ThreadMessagesView/index.js:197-220 | A blocked load changes nothing. After a load, `loading` is set exactly when the result lacks `success`. An exception gives `loading` false and `end` true. A success runs `updateThreads` with no remove list, then sets `end` to `count < 50`. |
| `ViewState.SyncStep` | app/views/ThreadMessagesView/index.js:223-243 | A sync always ends with `loading` false and leaves `end` alone. Only a successful answer with a `threads` object is reconciled, with `updatedSince` as the watermark. Any other outcome changes nothing else. |
| `ViewState.InitChoice` | app/views/ThreadMessagesView/index.js:124-139 | `init` calls `load()` exactly when there is no subscription. It syncs exactly when the record has a watermark, since that watermark. Otherwise it calls `load(now)`. |
| `ViewState.InitStep` | app/views/ThreadMessagesView/index.js:124-139 | `init` leaves `mounted` alone. A room whose record has a watermark gets exactly `SyncStep` since that watermark, so `init` ends idle with `end` unchanged. Without a subscription `init` is `load()`. With the placeholder or a record without a watermark it is `load(now)`. |
| `Session.ExhaustedStaysExhausted` | app/views/ThreadMessagesView/index.js:198-213 | Once `end` holds it stays set, and no later event sends a page request. |
| `Session.StuckWhileLoading` | app/views/ThreadMessagesView/index.js:198-215 | While `loading` is set, events other than `init` send no request and keep it set. |
| `Session.FailedPageBlocksLoads` | app/views/ThreadMessagesView/index.js:203-215 | A page answer without `success` sends its one request, then blocks every later load until the next `init`. |
| `Session.ThreePagesThenExhausted` | app/views/ThreadMessagesView/index.js:145-147 | In the in-memory mode without a subscription, which only the corrected lookup reaches: pages of 50, 50 and 30 send requests at offsets 0, 50 and 100 and exhaust the list after the third. A fourth load sends nothing. The three pages are listed in order. |
| `Session.FullPagesRun` | app/views/ThreadMessagesView/index.js:197-215 | In a subscribed room, any number of full pages, each followed by the live query's emission: each page is requested at the number of threads then listed. The store holds the pages reconciled in order. The listed threads are the last emission, the watermark is `load`'s argument, and the list is never exhausted. |
| `Session.StoredPagesSnoc` | app/views/ThreadMessagesView/index.js:181-190 | Reconciling one more page reconciles it into the store the earlier pages left. |
| `Session.FullPagesThenLast` | app/views/ThreadMessagesView/index.js:197-215 | Full pages and then a last page in a subscribed room: the last page is requested at the number of threads listed and reconciled after the others. It exhausts the list exactly when its count is below 50. |
| `Session.SubscribedPagesThenExhausted` | app/views/ThreadMessagesView/index.js:197-220 | In a subscribed room, pages of 50, 50 and 30, with the live query listing 50 and then 100 threads, are requested at offsets 0, 50 and 100. The list is then exhausted, shows the last emission, and the store holds the three pages reconciled in order. |
| `Session.ScrollLoadOverwritesWatermark` | app/views/ThreadMessagesView/index.js:197-215 | A successful end-of-list load in a subscribed room is requested at `messages.length`. It reconciles its page into the store and replaces the watermark with `load`'s argument; with no argument the watermark is cleared. The listed threads are unchanged. |
| `Session.FirstLoadRecordsWatermark` | app/views/ThreadMessagesView/index.js:124-139 | With a record but no watermark, `init` loads page 0. It commits the reconciled page with watermark `now` in one batch, so the next `init` syncs since `now`. |
| `Session.SyncWatermark` | app/views/ThreadMessagesView/index.js:223-243 | A sync leaves the watermark and the records unchanged unless its answer is committed. If it is committed, the watermark is the `updatedSince` passed in. |
| `Session.NoSubscriptionKeepsPagesInMemory` | app/views/ThreadMessagesView/index.js:145-147 | Without a subscription (corrected lookup), two successful pages accumulate in `messages` at offsets 0 and the first page's length. The store is never written. |
| `Session.MissingRecordDropsPage` | app/views/ThreadMessagesView/index.js:118-120 | As written: with no subscription record, `init` fetches page 0 but the list stays empty and the store is unchanged. |
| `Session.MissingRecordShowsPage` | app/views/ThreadMessagesView/index.js:124-128 | Corrected: with the same events the fetched page is listed, and the store is still unchanged. |
| `ThreadMessagesView.ThreadMessagesView.constructor` | app/views/ThreadMessagesView/index.js:53-66 | The view starts unmounted, idle, not exhausted, with no messages and the placeholder subscription. |
| `ThreadMessagesView.ThreadMessagesView.ComponentDidMount` | app/views/ThreadMessagesView/index.js:68-73 | Mounting only sets `mounted`. |
| `ThreadMessagesView.ThreadMessagesView.SubscribeDataAsWritten` | app/views/ThreadMessagesView/index.js:92-121 | Changes the state as `SubscribeDataAsWrittenStep` does. |
| `ThreadMessagesView.ThreadMessagesView.SubscribeData` | app/views/ThreadMessagesView/index.js:92-121 | Changes the state as the corrected `SubscribeDataStep` does. |
| `ThreadMessagesView.ThreadMessagesView.OnSubscriptionEmitted` | app/views/ThreadMessagesView/index.js:99-102 | An emitted record becomes the subscription; nothing else changes. |
| `ThreadMessagesView.ThreadMessagesView.OnThreadsEmitted` | app/views/ThreadMessagesView/index.js:110-117 | An emitted thread list becomes `messages`, mounted or not; nothing else changes. |
| `ThreadMessagesView.ThreadMessagesView.UpdateThreads` | app/views/ThreadMessagesView/index.js:141-194 | Computes the three lists, then commits them with the watermark in one assignment. The new state is `UpdateThreadsStep` of the old one. |
| `ThreadMessagesView.ThreadMessagesView.Load` | app/views/ThreadMessagesView/index.js:197-220 | Sends `LoadRequest` of the old state. The new state is `LoadStep` of the old one. |
| `ThreadMessagesView.ThreadMessagesView.Sync` | app/views/ThreadMessagesView/index.js:223-243 | Sends a sync request since `updatedSince`. The new state is `SyncStep` of the old one. |
| `ThreadMessagesView.ThreadMessagesView.Init` | app/views/ThreadMessagesView/index.js:124-139 | Sends the request `init`'s choice calls for. The new state is `InitStep` of the old one. |

## Findings

| source | as written | input that shows it | evidently intended | confidence | as-written member | corrected member |
|---|---|---|---|---|---|---|
| app/views/ThreadMessagesView/index.js:118-120 | The state starts with `subscription: {}`, a truthy object. When the store has no subscription record, the lookup's `catch` does nothing, so `{}` stays. `init` then calls `load(now)`. `updateThreads` then calls `{}.threads.fetch()`, which throws and is only logged. The "no subscription" branches (lines 126, 145) can never run. | A room with no subscription record, where the first page returns one thread: the list stays empty. | A missing record leaves the view without a subscription, so fetched pages are kept in `messages` (the comment at line 143 says so). | medium, not executed | `ViewState.SubscribeDataAsWrittenStep`, `Session.MissingRecordDropsPage` | `ViewState.SubscribeDataStep`, `Session.MissingRecordShowsPage` |

## Left out

- `debounce` on `load` (300 ms) and on `onThreadPress`, and `InteractionManager.runAfterInteractions`: their sources are not part of this model. `load` is modelled as its guarded body. The deferred `updateThreads` of a sync runs within the sync step.
- Asynchrony: each handler runs to completion with the server's answer given as an input. The interleaving of `await`s, and React's deferred `setState`, are not modelled.
- The network calls `getThreadsList` and `getSyncThreadsList`, and `Date`: their results are parameters, including the exception case. A page result always carries a `threads` list.
- The store's own failures: the thread-relation fetch and the batch commit are folded into one input, `batchOk`. On failure nothing is written, because the source catches and only logs the error.
- Store behaviour the source does not show: a batch applies creates in order (a later create of the same id replaces an earlier one), then updates, then destroys. A record that is both updated and destroyed ends up destroyed. The model does not cover a store that rejects such a batch.
- The store holds only the room's own thread records. Records of other rooms, the `subscription` relation on a thread, `sanitizedRaw` and the field copying of `Object.assign` are not modelled. A record is replaced by the item it is built from.
- The live query's sort by `tlm` and the store observables: their emissions are the inputs of `OnThreadsEmitted` and `OnSubscriptionEmitted`.
- The list-end callback passes the list component's own event object to `load` as `lastThreadSync`, and a subscribed load writes it as the watermark. The model's load takes an optional timestamp, and the caller's choice stands for that object. How the store converts the object, and what a later `sync` does with the result, are not modelled.
- Without a subscription, an absent `update` makes the source's array spread throw inside React's state updater. The model leaves `messages` unchanged.
- `buildMessage`: an arbitrary function, the class constant `build`.
- The theme colours behind the badges: the badge is returned as a value.
- Rendering, header and empty views, the filter dropdown, navigation (`onThreadPress`), theming, I18n, the redux `connect`, `log`, `console.count`, and the unsubscribe and cancel steps on unmount: these are UI and lifecycle plumbing.
- The avatar container (`app/containers/Avatar/index.js`): store and React plumbing outside the thread list.
