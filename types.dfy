/** Values shared by the thread-list view: thread records, the room's
    subscription record, the requests the view sends and the responses it
    receives from the server. */
module Types {

  datatype Option<T> = None | Some(value: T)

  /** Record ids (`_id` on the wire, `id` on a stored record). */
  type Id = string

  /** A point in time, in milliseconds. */
  type Timestamp = int

  /** One thread. `payload` stands for every field other than the id; the
      view copies it verbatim and never looks inside. */
  datatype Thread = Thread(id: Id, payload: string)

  /** The room's subscription record as far as this view reads or writes it:
      the sync watermark and the three lists of thread ids with unread
      messages (all, mentioning me, mentioning a group). An absent list is the
      empty list here: `includes` on it is falsy either way. */
  datatype Subscription = Subscription(
    rid: Id,
    lastThreadSync: Option<Timestamp>,
    tunread: seq<Id>,
    tunreadUser: seq<Id>,
    tunreadGroup: seq<Id>)

  /** What the view holds in its `subscription` state:
      - NoSubscription: a falsy value, the "no subscription" branches;
      - Placeholder: the empty object the view starts with, which is truthy
        but has no watermark, no unread lists and no `threads` relation;
      - Loaded: the record emitted by the store. */
  datatype SubState = NoSubscription | Placeholder | Loaded(record: Subscription)

  /** Page size of the paged thread list. */
  const API_FETCH_COUNT: nat := 50

  datatype Request =
    | ListRequest(rid: Id, count: nat, offset: nat)
    | SyncRequest(rid: Id, updatedSince: Timestamp)

  /** Outcome of the paged list call: a result object (its `success` flag,
      its `threads` and its `count`), or an exception. */
  datatype ListResponse =
    | ListResult(success: bool, threads: seq<Thread>, count: int)
    | ListThrew

  /** The `threads` object of a delta response; either list may be absent. */
  datatype SyncPayload = SyncPayload(update: Option<seq<Thread>>, remove: Option<seq<Thread>>)

  datatype SyncResponse =
    | SyncResult(success: bool, threads: Option<SyncPayload>)
    | SyncThrew

  /** An absent list reads as the empty list (`update && update.length`). */
  function Items(items: Option<seq<Thread>>): seq<Thread> {
    if items.Some? then items.value else []
  }

  /** The set of ids carried by a list of threads. */
  function IdsOf(items: seq<Thread>): set<Id> {
    set t | t in items :: t.id
  }
}
