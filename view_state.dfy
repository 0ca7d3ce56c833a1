/** The thread-list view as a state machine: the fields it keeps in its
    state (`loading`, `end`, `messages`, `subscription`), its `mounted` flag,
    and the room's stored thread records. Each function below is one of the
    view's handlers with the server's answer and the store's outcome given
    as inputs. */
module ViewState {
  import opened Types
  import opened Reconciler

  datatype State = State(
    mounted: bool,
    loading: bool,
    end: bool,
    messages: seq<Thread>,
    subscription: SubState,
    records: map<Id, Thread>)

  /** The view as its constructor leaves it, over a store holding `records`. */
  function Initial(records: map<Id, Thread>): State {
    State(false, false, false, [], Placeholder, records)
  }

  /** `update.map(buildMessage)`. */
  function BuildAll(build: Thread -> Thread, items: seq<Thread>): (r: seq<Thread>)
    ensures |r| == |items|
    ensures forall i :: 0 <= i < |items| ==> r[i] == build(items[i])
  {
    seq(|items|, i requires 0 <= i < |items| => build(items[i]))
  }

  /** The store lookup of the room's subscription, as written: a missing
      record is caught and ignored, so the placeholder stays. */
  function SubscribeDataAsWrittenStep(s: State, found: Option<Subscription>): (t: State)
    ensures found.Some? ==> t.subscription == Loaded(found.value)
    ensures found.None? ==> t.subscription == s.subscription
    ensures t.(subscription := s.subscription) == s
  {
    if found.Some? then s.(subscription := Loaded(found.value)) else s
  }

  /** The store lookup of the room's subscription, corrected: a missing record
      leaves the view without a subscription, which selects the in-memory
      path of `updateThreads` and `init`. */
  function SubscribeDataStep(s: State, found: Option<Subscription>): (t: State)
    ensures t.subscription.NoSubscription? <==> found.None?
    ensures found.Some? ==> t.subscription == Loaded(found.value)
    ensures t.(subscription := s.subscription) == s
  {
    if found.Some? then s.(subscription := Loaded(found.value)) else s.(subscription := NoSubscription)
  }

  /** `updateThreads`. Without a subscription the update items are appended
      to `messages` and nothing is stored. With the placeholder the lookup of
      its thread relation throws and is caught: nothing changes. With a record
      the reconciled threads and the new watermark are committed in one batch,
      all or nothing. `loading`, `end` and `mounted` are never touched. */
  function UpdateThreadsStep(
    s: State, build: Thread -> Thread,
    update: Option<seq<Thread>>, remove: Option<seq<Thread>>,
    lastThreadSync: Option<Timestamp>, batchOk: bool): (t: State)
    ensures t.mounted == s.mounted && t.loading == s.loading && t.end == s.end
    ensures s.subscription.NoSubscription? ==> t == s.(messages := s.messages + Items(update))
    ensures s.subscription.Placeholder? || (s.subscription.Loaded? && !batchOk) ==> t == s
    ensures s.subscription.Loaded? && batchOk ==>
      && t.messages == s.messages
      && t.subscription == Loaded(s.subscription.record.(lastThreadSync := lastThreadSync))
      && t.records == Reconcile(s.records, BuildAll(build, Items(update)), Items(remove))
  {
    match s.subscription
    case NoSubscription => s.(messages := s.messages + Items(update))
    case Placeholder => s
    case Loaded(sub) =>
      if !batchOk then s
      else
        var batch := Diff(s.records, BuildAll(build, Items(update)), Items(remove));
        s.(records := Commit(s.records, batch), subscription := Loaded(sub.(lastThreadSync := lastThreadSync)))
  }

  /** The guard of `load`. */
  predicate LoadBlocked(s: State) {
    s.end || s.loading || !s.mounted
  }

  /** The request `load` sends: none when blocked, otherwise one page of
      API_FETCH_COUNT threads at the number of threads already listed. */
  function LoadRequest(s: State, rid: Id): (r: Option<Request>)
    ensures r.None? <==> (s.end || s.loading || !s.mounted)
    ensures r.Some? ==> r.value == ListRequest(rid, 50, |s.messages|)
  {
    if LoadBlocked(s) then None else Some(ListRequest(rid, API_FETCH_COUNT, |s.messages|))
  }

  /** The body of `load` given the server's answer. Blocked: no change. A
      successful result is handed to `updateThreads` (no remove list) and the
      list is exhausted exactly when the page count is below the page size.
      An exception fails closed. A result without `success` leaves `loading`
      set. */
  function LoadStep(
    s: State, build: Thread -> Thread, lastThreadSync: Option<Timestamp>,
    response: ListResponse, batchOk: bool): (t: State)
    ensures LoadBlocked(s) ==> t == s
    ensures !LoadBlocked(s) ==> t.mounted
    ensures !LoadBlocked(s) ==> (t.loading <==> response.ListResult? && !response.success)
    ensures !LoadBlocked(s) && response.ListThrew? ==> t == s.(loading := false, end := true)
    ensures !LoadBlocked(s) && response.ListResult? && !response.success ==> t == s.(loading := true)
    ensures !LoadBlocked(s) && response.ListResult? && response.success ==>
      t == UpdateThreadsStep(s, build, Some(response.threads), None, lastThreadSync, batchOk)
             .(loading := false, end := response.count < 50)
  {
    if LoadBlocked(s) then s
    else
      var started := s.(loading := true);
      match response
      case ListThrew => started.(loading := false, end := true)
      case ListResult(success, threads, count) =>
        if success then
          UpdateThreadsStep(started, build, Some(threads), None, lastThreadSync, batchOk)
            .(loading := false, end := count < API_FETCH_COUNT)
        else started
  }

  /** `sync`: one delta fetch since `updatedSince`. A successful answer that
      carries a `threads` object is reconciled with `updatedSince` as the new
      watermark; whatever happens, `loading` ends false, and `end` is never
      touched. */
  function SyncStep(
    s: State, build: Thread -> Thread, updatedSince: Timestamp,
    response: SyncResponse, batchOk: bool): (t: State)
    ensures !t.loading && t.end == s.end && t.mounted == s.mounted
    ensures response.SyncResult? && response.success && response.threads.Some? ==>
      t == UpdateThreadsStep(s, build, response.threads.value.update, response.threads.value.remove,
                             Some(updatedSince), batchOk).(loading := false)
    ensures !(response.SyncResult? && response.success && response.threads.Some?) ==>
      t == s.(loading := false)
  {
    var started := s.(loading := true);
    match response
    case SyncThrew => started.(loading := false)
    case SyncResult(success, threads) =>
      if success && threads.Some? then
        UpdateThreadsStep(started, build, threads.value.update, threads.value.remove, Some(updatedSince), batchOk)
          .(loading := false)
      else started.(loading := false)
  }

  /** The handler `init` calls. */
  datatype InitCall = CallLoad(lastThreadSync: Option<Timestamp>) | CallSync(updatedSince: Timestamp)

  /** `init`'s choice: without a subscription, `load()` with no watermark;
      with a stored watermark, a delta sync since it; otherwise a paged load
      that will record `now` as the watermark. */
  function InitChoice(sub: SubState, now: Timestamp): (c: InitCall)
    ensures c == CallLoad(None) <==> sub.NoSubscription?
    ensures c.CallSync? <==> sub.Loaded? && sub.record.lastThreadSync.Some?
    ensures c.CallSync? ==> c.updatedSince == sub.record.lastThreadSync.value
    ensures c.CallLoad? && !sub.NoSubscription? ==> c.lastThreadSync == Some(now)
  {
    match sub
    case NoSubscription => CallLoad(None)
    case Placeholder => CallLoad(Some(now))
    case Loaded(record) =>
      if record.lastThreadSync.Some? then CallSync(record.lastThreadSync.value) else CallLoad(Some(now))
  }

  function InitRequest(s: State, rid: Id, now: Timestamp): Option<Request> {
    match InitChoice(s.subscription, now)
    case CallLoad(_) => LoadRequest(s, rid)
    case CallSync(since) => Some(SyncRequest(rid, since))
  }

  /** `init`: a room whose record holds a watermark is synced, which always
      ends idle and never changes `end`; any other room gets a paged load,
      with no watermark when there is no subscription and `now` otherwise. */
  function InitStep(
    s: State, build: Thread -> Thread, now: Timestamp,
    listResponse: ListResponse, syncResponse: SyncResponse, batchOk: bool): (t: State)
    ensures t.mounted == s.mounted
    ensures s.subscription.Loaded? && s.subscription.record.lastThreadSync.Some? ==>
      !t.loading && t.end == s.end &&
      t == SyncStep(s, build, s.subscription.record.lastThreadSync.value, syncResponse, batchOk)
    ensures s.subscription.NoSubscription? ==> t == LoadStep(s, build, None, listResponse, batchOk)
    ensures s.subscription.Placeholder? || (s.subscription.Loaded? && s.subscription.record.lastThreadSync.None?) ==>
      t == LoadStep(s, build, Some(now), listResponse, batchOk)
  {
    match InitChoice(s.subscription, now)
    case CallLoad(lastThreadSync) => LoadStep(s, build, lastThreadSync, listResponse, batchOk)
    case CallSync(since) => SyncStep(s, build, since, syncResponse, batchOk)
  }

  /** `updateThreads` keeps every stored record under its own id. */
  lemma UpdateThreadsKeyedById(
    s: State, build: Thread -> Thread,
    update: Option<seq<Thread>>, remove: Option<seq<Thread>>,
    lastThreadSync: Option<Timestamp>, batchOk: bool)
    requires KeyedById(s.records)
    ensures KeyedById(UpdateThreadsStep(s, build, update, remove, lastThreadSync, batchOk).records)
  {
    if s.subscription.Loaded? && batchOk {
      ReconcileKeyedById(s.records, BuildAll(build, Items(update)), Items(remove));
    }
  }
}
