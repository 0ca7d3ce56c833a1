/** The thread-list view component: its state fields, the room's stored
    thread records it writes through, and the handlers that change them.
    Every handler is proved to do exactly what the matching step of
    `ViewState` describes, so the lemmas of `Reconciler`, `ViewState` and
    `Session` apply to it. */
module ThreadMessagesView {
  import opened Types
  import opened Reconciler
  import opened ViewState

  class ThreadMessagesView {
    /** The room whose threads are listed. */
    const rid: Id
    /** `buildMessage`, applied to every update item before the diff. */
    const build: Thread -> Thread

    var mounted: bool
    var loading: bool
    var end: bool
    var messages: seq<Thread>
    var subscription: SubState
    /** The room's thread records in the store, by id. */
    var records: map<Id, Thread>

    function Snapshot(): State
      reads this
    {
      State(mounted, loading, end, messages, subscription, records)
    }

    constructor (rid: Id, build: Thread -> Thread, records: map<Id, Thread>)
      ensures this.rid == rid && this.build == build
      ensures Snapshot() == Initial(records)
    {
      this.rid := rid;
      this.build := build;
      mounted := false;
      loading := false;
      end := false;
      messages := [];
      subscription := Placeholder;
      this.records := records;
    }

    method ComponentDidMount()
      modifies this
      ensures Snapshot() == old(Snapshot()).(mounted := true)
    {
      mounted := true;
    }

    /** The store lookup of the subscription as the source has it: a missing
        record is ignored. */
    method SubscribeDataAsWritten(found: Option<Subscription>)
      modifies this
      ensures Snapshot() == SubscribeDataAsWrittenStep(old(Snapshot()), found)
    {
      if found.Some? {
        subscription := Loaded(found.value);
      }
    }

    /** The store lookup of the subscription, corrected: a missing record
        leaves the view without a subscription. */
    method SubscribeData(found: Option<Subscription>)
      modifies this
      ensures Snapshot() == SubscribeDataStep(old(Snapshot()), found)
    {
      if found.Some? {
        subscription := Loaded(found.value);
      } else {
        subscription := NoSubscription;
      }
    }

    /** The store emits the subscription record. */
    method OnSubscriptionEmitted(record: Subscription)
      modifies this
      ensures Snapshot() == old(Snapshot()).(subscription := Loaded(record))
    {
      subscription := Loaded(record);
    }

    /** The live query emits the room's thread records. */
    method OnThreadsEmitted(threads: seq<Thread>)
      modifies this
      ensures Snapshot() == old(Snapshot()).(messages := threads)
    {
      messages := threads;
    }

    /** `updateThreads`: the three lists are computed first and then written
        with the new watermark in one assignment, which the store applies
        entirely or (`!batchOk`) not at all. */
    method UpdateThreads(
      update: Option<seq<Thread>>, remove: Option<seq<Thread>>,
      lastThreadSync: Option<Timestamp>, batchOk: bool)
      modifies this
      ensures Snapshot() == UpdateThreadsStep(old(Snapshot()), build, update, remove, lastThreadSync, batchOk)
    {
      match subscription
      case NoSubscription =>
        messages := messages + Items(update);
      case Placeholder =>
        // the placeholder has no thread relation: the lookup throws and the
        // error is only logged
      case Loaded(sub) =>
        var threadsToCreate: seq<Thread> := [];
        var threadsToUpdate: map<Id, Thread> := map[];
        var threadsToDelete: set<Id> := {};
        if |Items(update)| > 0 {
          var built := BuildAll(build, Items(update));
          threadsToCreate := ToCreate(records, built);
          threadsToUpdate := ToUpdate(records, built);
        }
        if |Items(remove)| > 0 {
          threadsToDelete := ToDelete(records, Items(remove));
        }
        ghost var expected := Diff(records, BuildAll(build, Items(update)), Items(remove));
        assert threadsToCreate == expected.creates && threadsToUpdate == expected.updates;
        assert threadsToDelete == expected.deletes;
        if batchOk {
          records, subscription :=
            Commit(records, Batch(threadsToCreate, threadsToUpdate, threadsToDelete)),
            Loaded(sub.(lastThreadSync := lastThreadSync));
        }
    }

    /** `load`, the guarded body. */
    method Load(lastThreadSync: Option<Timestamp>, response: ListResponse, batchOk: bool)
      returns (request: Option<Request>)
      modifies this
      ensures request == LoadRequest(old(Snapshot()), rid)
      ensures Snapshot() == LoadStep(old(Snapshot()), build, lastThreadSync, response, batchOk)
    {
      if end || loading || !mounted {
        return None;
      }
      loading := true;
      request := Some(ListRequest(rid, API_FETCH_COUNT, |messages|));
      match response
      case ListThrew =>
        loading, end := false, true;
      case ListResult(success, threads, count) =>
        if success {
          UpdateThreads(Some(threads), None, lastThreadSync, batchOk);
          loading, end := false, count < API_FETCH_COUNT;
        }
    }

    /** `sync`: one delta fetch since `updatedSince`. */
    method Sync(updatedSince: Timestamp, response: SyncResponse, batchOk: bool)
      returns (request: Request)
      modifies this
      ensures request == SyncRequest(rid, updatedSince)
      ensures Snapshot() == SyncStep(old(Snapshot()), build, updatedSince, response, batchOk)
    {
      loading := true;
      request := SyncRequest(rid, updatedSince);
      match response
      case SyncThrew =>
        loading := false;
      case SyncResult(success, threads) =>
        if success && threads.Some? {
          UpdateThreads(threads.value.update, threads.value.remove, Some(updatedSince), batchOk);
        }
        loading := false;
    }

    /** `init`: load or sync, from the subscription state. */
    method Init(now: Timestamp, listResponse: ListResponse, syncResponse: SyncResponse, batchOk: bool)
      returns (request: Option<Request>)
      modifies this
      ensures request == InitRequest(old(Snapshot()), rid, now)
      ensures Snapshot() == InitStep(old(Snapshot()), build, now, listResponse, syncResponse, batchOk)
    {
      if subscription.NoSubscription? {
        request := Load(None, listResponse, batchOk);
        return;
      }
      var watermark := if subscription.Loaded? then subscription.record.lastThreadSync else None;
      if watermark.Some? {
        var sent := Sync(watermark.value, syncResponse, batchOk);
        request := Some(sent);
      } else {
        request := Load(Some(now), listResponse, batchOk);
      }
    }
  }
}
