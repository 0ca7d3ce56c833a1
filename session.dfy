/** Sequences of events reaching one mounted view, and what they add up to:
    the requests sent and the final state. The store lookup of the
    subscription is the corrected one (`SubscribeDataStep`); the lookup as
    written is stated on its own in `MissingRecordDropsPage`. */
module Session {
  import opened Types
  import opened Reconciler
  import opened ViewState

  /** What can happen to the view: it mounts, the store lookup of the
      subscription completes, the store emits the subscription record or the
      room's thread list, `init` runs after mounting, or the list reaches its
      end and calls `load` with `lastThreadSync`. */
  datatype Event =
    | Mount
    | StoreLookup(found: Option<Subscription>)
    | SubscriptionEmitted(record: Subscription)
    | ThreadsEmitted(threads: seq<Thread>)
    | Init(now: Timestamp, listResponse: ListResponse, syncResponse: SyncResponse, batchOk: bool)
    | EndReached(lastThreadSync: Option<Timestamp>, response: ListResponse, batchOk: bool)

  function Step(s: State, rid: Id, build: Thread -> Thread, e: Event): (State, Option<Request>) {
    match e
    case Mount => (s.(mounted := true), None)
    case StoreLookup(found) => (SubscribeDataStep(s, found), None)
    case SubscriptionEmitted(record) => (s.(subscription := Loaded(record)), None)
    case ThreadsEmitted(threads) => (s.(messages := threads), None)
    case Init(now, listResponse, syncResponse, batchOk) =>
      (InitStep(s, build, now, listResponse, syncResponse, batchOk), InitRequest(s, rid, now))
    case EndReached(lastThreadSync, response, batchOk) =>
      (LoadStep(s, build, lastThreadSync, response, batchOk), LoadRequest(s, rid))
  }

  /** The request a step sent, as a list of zero or one request. */
  function Sent(request: Option<Request>): seq<Request> {
    if request.Some? then [request.value] else []
  }

  /** The final state and the requests sent, in order. */
  function Run(s: State, rid: Id, build: Thread -> Thread, events: seq<Event>): (State, seq<Request>)
    decreases |events|
  {
    if events == [] then (s, [])
    else
      var step := Step(s, rid, build, events[0]);
      var rest := Run(step.0, rid, build, events[1..]);
      (rest.0, Sent(step.1) + rest.1)
  }

  lemma RunCons(s: State, rid: Id, build: Thread -> Thread, e: Event, events: seq<Event>)
    ensures Run(s, rid, build, [e] + events).0 == Run(Step(s, rid, build, e).0, rid, build, events).0
    ensures Run(s, rid, build, [e] + events).1
         == Sent(Step(s, rid, build, e).1) + Run(Step(s, rid, build, e).0, rid, build, events).1
  {
    assert ([e] + events)[1..] == events;
  }

  /** A run of `a + b` is a run of `a` followed by a run of `b`. */
  lemma {:induction false} RunAppend(s: State, rid: Id, build: Thread -> Thread, a: seq<Event>, b: seq<Event>)
    ensures Run(s, rid, build, a + b).0 == Run(Run(s, rid, build, a).0, rid, build, b).0
    ensures Run(s, rid, build, a + b).1 == Run(s, rid, build, a).1 + Run(Run(s, rid, build, a).0, rid, build, b).1
    decreases |a|
  {
    if a == [] {
      assert a + b == b;
    } else {
      var step := Step(s, rid, build, a[0]);
      assert (a + b)[0] == a[0] && (a + b)[1..] == a[1..] + b;
      RunAppend(step.0, rid, build, a[1..], b);
      var mid := Run(step.0, rid, build, a[1..]);
      var rest := Run(mid.0, rid, build, b);
      assert Run(s, rid, build, a).1 == Sent(step.1) + mid.1;
      assert Run(s, rid, build, a + b).1 == Sent(step.1) + (mid.1 + rest.1);
      assert Sent(step.1) + (mid.1 + rest.1) == (Sent(step.1) + mid.1) + rest.1;
    }
  }

  predicate NoListRequest(requests: seq<Request>) {
    forall i :: 0 <= i < |requests| ==> !requests[i].ListRequest?
  }

  /** Once the list is exhausted it stays exhausted, and no later event sends
      a page request. */
  lemma {:induction false} ExhaustedStaysExhausted(s: State, rid: Id, build: Thread -> Thread, events: seq<Event>)
    requires s.end
    ensures Run(s, rid, build, events).0.end
    ensures NoListRequest(Run(s, rid, build, events).1)
    decreases |events|
  {
    if events != [] {
      var (t, request) := Step(s, rid, build, events[0]);
      assert t.end;
      assert request.None? || request.value.SyncRequest?;
      ExhaustedStaysExhausted(t, rid, build, events[1..]);
    }
  }

  /** After a page answer without `success`, `loading` stays set: until the
      next `init` (whose sync clears it), no event sends any request. */
  lemma {:induction false} StuckWhileLoading(s: State, rid: Id, build: Thread -> Thread, events: seq<Event>)
    requires s.loading
    requires forall i :: 0 <= i < |events| ==> !events[i].Init?
    ensures Run(s, rid, build, events).0.loading
    ensures Run(s, rid, build, events).1 == []
    decreases |events|
  {
    if events != [] {
      var (t, request) := Step(s, rid, build, events[0]);
      assert t.loading && request.None?;
      StuckWhileLoading(t, rid, build, events[1..]);
    }
  }

  /** A failed page answer is what leaves `loading` set. */
  lemma FailedPageBlocksLoads(s: State, rid: Id, build: Thread -> Thread, lastThreadSync: Option<Timestamp>,
                              threads: seq<Thread>, count: int, batchOk: bool, events: seq<Event>)
    requires !LoadBlocked(s)
    requires forall i :: 0 <= i < |events| ==> !events[i].Init?
    ensures var r := Run(s, rid, build, [EndReached(lastThreadSync, ListResult(false, threads, count), batchOk)] + events);
            r.0.loading && r.1 == [ListRequest(rid, API_FETCH_COUNT, |s.messages|)]
  {
    var e := EndReached(lastThreadSync, ListResult(false, threads, count), batchOk);
    assert ([e] + events)[1..] == events;
    var t := LoadStep(s, build, lastThreadSync, ListResult(false, threads, count), batchOk);
    StuckWhileLoading(t, rid, build, events);
  }

  /** One successful page without a subscription: it is requested at the
      number of threads listed and appended to them. */
  lemma InMemoryPage(
    s: State, rid: Id, build: Thread -> Thread, page: seq<Thread>, count: int, batchOk: bool)
    requires s.subscription.NoSubscription? && !LoadBlocked(s)
    ensures Step(s, rid, build, EndReached(None, ListResult(true, page, count), batchOk))
      == (s.(end := count < 50, messages := s.messages + page), Some(ListRequest(rid, 50, |s.messages|)))
  {
  }

  /** A last page without a subscription exhausts the list; the end-of-list
      event after it sends nothing. */
  lemma LastPageThenSilence(
    s: State, rid: Id, build: Thread -> Thread, page: seq<Thread>, fourth: ListResponse, batchOk: bool)
    requires s.subscription.NoSubscription? && !LoadBlocked(s)
    ensures var r := Run(s, rid, build, [EndReached(None, ListResult(true, page, 30), batchOk),
                                         EndReached(None, fourth, batchOk)]);
            r.0 == s.(end := true, messages := s.messages + page) && r.1 == [ListRequest(rid, 50, |s.messages|)]
  {
    var e3 := EndReached(None, ListResult(true, page, 30), batchOk);
    var e4 := EndReached(None, fourth, batchOk);
    var s3 := s.(end := true, messages := s.messages + page);
    InMemoryPage(s, rid, build, page, 30, batchOk);
    assert Step(s3, rid, build, e4) == (s3, None);
    RunCons(s3, rid, build, e4, []);
    RunCons(s, rid, build, e3, [e4]);
    assert [e3] + [e4] == [e3, e4] && [e4] + [] == [e4];
  }

  /** Pages of 50, 50 and 30 threads without a subscription (the in-memory
      mode, which only the corrected lookup reaches): three requests at
      offsets 0, 50 and 100, the list is exhausted after the third, a fourth
      end-of-list event sends nothing, and the store is untouched. */
  lemma ThreePagesThenExhausted(
    rid: Id, build: Thread -> Thread, records: map<Id, Thread>,
    p1: seq<Thread>, p2: seq<Thread>, p3: seq<Thread>, fourth: ListResponse, batchOk: bool)
    requires |p1| == 50 && |p2| == 50 && |p3| == 30
    ensures var s := State(true, false, false, [], NoSubscription, records);
            var events := [EndReached(None, ListResult(true, p1, 50), batchOk),
                           EndReached(None, ListResult(true, p2, 50), batchOk),
                           EndReached(None, ListResult(true, p3, 30), batchOk),
                           EndReached(None, fourth, batchOk)];
            Run(s, rid, build, events)
              == (s.(end := true, messages := p1 + p2 + p3),
                  [ListRequest(rid, 50, 0), ListRequest(rid, 50, 50), ListRequest(rid, 50, 100)])
  {
    var s := State(true, false, false, [], NoSubscription, records);
    var e1 := EndReached(None, ListResult(true, p1, 50), batchOk);
    var e2 := EndReached(None, ListResult(true, p2, 50), batchOk);
    var tail := [EndReached(None, ListResult(true, p3, 30), batchOk), EndReached(None, fourth, batchOk)];
    var s1 := s.(messages := p1);
    var s2 := s.(messages := p1 + p2);
    assert [] + p1 == p1;
    InMemoryPage(s, rid, build, p1, 50, batchOk);
    InMemoryPage(s1, rid, build, p2, 50, batchOk);
    LastPageThenSilence(s2, rid, build, p3, fourth, batchOk);
    assert s2.(end := true, messages := s2.messages + p3) == s.(end := true, messages := p1 + p2 + p3);
    var s3 := s.(end := true, messages := p1 + p2 + p3);
    var r100 := [ListRequest(rid, 50, 100)];
    RunCons(s1, rid, build, e2, tail);
    assert Run(s1, rid, build, [e2] + tail).0 == s3;
    assert Run(s1, rid, build, [e2] + tail).1 == [ListRequest(rid, 50, 50)] + r100;
    RunCons(s, rid, build, e1, [e2] + tail);
    var events := [e1, e2, EndReached(None, ListResult(true, p3, 30), batchOk), EndReached(None, fourth, batchOk)];
    assert [e1] + ([e2] + tail) == events;
    var requests := [ListRequest(rid, 50, 0), ListRequest(rid, 50, 50), ListRequest(rid, 50, 100)];
    assert [ListRequest(rid, 50, 0)] + ([ListRequest(rid, 50, 50)] + r100) == requests;
    assert Run(s, rid, build, events).0 == s3;
    assert Run(s, rid, build, events).1 == requests;
  }

  /** One successful page in a subscribed room followed by the live query's
      emission: the page is requested at the number of threads listed and
      reconciled into the store, and the listed threads become the emitted
      ones. */
  lemma PageThenEmission(
    s: State, rid: Id, build: Thread -> Thread, ts: Option<Timestamp>, page: seq<Thread>, count: int,
    emitted: seq<Thread>)
    requires s.subscription.Loaded? && !LoadBlocked(s)
    ensures var r := Run(s, rid, build, [EndReached(ts, ListResult(true, page, count), true), ThreadsEmitted(emitted)]);
            && r.1 == [ListRequest(rid, 50, |s.messages|)]
            && r.0.records == Reconcile(s.records, BuildAll(build, page), [])
            && r.0.subscription == Loaded(s.subscription.record.(lastThreadSync := ts))
            && r.0.messages == emitted && r.0.mounted && !r.0.loading && (r.0.end <==> count < 50)
  {
    var e1, e2 := EndReached(ts, ListResult(true, page, count), true), ThreadsEmitted(emitted);
    ScrollLoadOverwritesWatermark(s, rid, build, ts, page, count);
    var t1 := Step(s, rid, build, e1).0;
    RunCons(t1, rid, build, e2, []);
    RunCons(s, rid, build, e1, [e2]);
    assert [e1] + [e2] == [e1, e2] && [e2] + [] == [e2];
  }

  /** A single successful page in a subscribed room, as a run. */
  lemma LastPage(s: State, rid: Id, build: Thread -> Thread, ts: Option<Timestamp>, page: seq<Thread>, count: int)
    requires s.subscription.Loaded? && !LoadBlocked(s)
    ensures var r := Run(s, rid, build, [EndReached(ts, ListResult(true, page, count), true)]);
            && r.1 == [ListRequest(rid, 50, |s.messages|)]
            && r.0.records == Reconcile(s.records, BuildAll(build, page), [])
            && r.0.subscription == Loaded(s.subscription.record.(lastThreadSync := ts))
            && r.0.messages == s.messages && r.0.mounted && !r.0.loading && (r.0.end <==> count < 50)
  {
    var e := EndReached(ts, ListResult(true, page, count), true);
    ScrollLoadOverwritesWatermark(s, rid, build, ts, page, count);
    RunCons(s, rid, build, e, []);
    assert [e] + [] == [e];
  }

  /** A full page of the list in a subscribed room: the threads the server
      returned, and the list the live query emits once they are stored. */
  datatype Page = Page(threads: seq<Thread>, emitted: seq<Thread>)

  /** The events of full pages loaded one after the other, each followed by
      the live query's emission. */
  function FullPages(ts: Option<Timestamp>, pages: seq<Page>): seq<Event>
    decreases |pages|
  {
    if pages == [] then []
    else [EndReached(ts, ListResult(true, pages[0].threads, API_FETCH_COUNT), true), ThreadsEmitted(pages[0].emitted)]
         + FullPages(ts, pages[1..])
  }

  /** The store after pages of threads are reconciled into it, in order. */
  function StoredPages(records: map<Id, Thread>, build: Thread -> Thread, pages: seq<seq<Thread>>): map<Id, Thread>
    decreases |pages|
  {
    if pages == [] then records
    else StoredPages(Reconcile(records, BuildAll(build, pages[0]), []), build, pages[1..])
  }

  function Threads(pages: seq<Page>): seq<seq<Thread>>
    decreases |pages|
  {
    if pages == [] then [] else [pages[0].threads] + Threads(pages[1..])
  }

  /** The page requests of full pages, each at the number of threads listed
      when it is sent. */
  function PageRequests(rid: Id, listed: seq<Thread>, pages: seq<Page>): seq<Request>
    decreases |pages|
  {
    if pages == [] then []
    else [ListRequest(rid, API_FETCH_COUNT, |listed|)] + PageRequests(rid, pages[0].emitted, pages[1..])
  }

  /** The threads listed after the pages' emissions. */
  function ListedAfter(listed: seq<Thread>, pages: seq<Page>): seq<Thread>
    decreases |pages|
  {
    if pages == [] then listed else ListedAfter(pages[0].emitted, pages[1..])
  }

  /** Reconciling one more page reconciles it into the store the earlier
      pages left. */
  lemma {:induction false} StoredPagesSnoc(records: map<Id, Thread>, build: Thread -> Thread,
                                           pages: seq<seq<Thread>>, page: seq<Thread>)
    ensures StoredPages(records, build, pages + [page])
         == Reconcile(StoredPages(records, build, pages), BuildAll(build, page), [])
    decreases |pages|
  {
    if pages == [] {
      assert pages + [page] == [page];
    } else {
      assert (pages + [page])[0] == pages[0] && (pages + [page])[1..] == pages[1..] + [page];
      StoredPagesSnoc(Reconcile(records, BuildAll(build, pages[0]), []), build, pages[1..], page);
    }
  }

  /** Any number of full pages in a subscribed room: each is requested at
      the number of threads listed, the store holds the pages reconciled in
      order, the listed threads are the last emission, the watermark is the
      argument of `load`, and the list is never exhausted. */
  lemma {:induction false} FullPagesRun(s: State, rid: Id, build: Thread -> Thread, ts: Option<Timestamp>, pages: seq<Page>)
    requires s.subscription.Loaded? && !LoadBlocked(s)
    ensures var r := Run(s, rid, build, FullPages(ts, pages));
            && r.1 == PageRequests(rid, s.messages, pages)
            && r.0.records == StoredPages(s.records, build, Threads(pages))
            && r.0.messages == ListedAfter(s.messages, pages)
            && r.0.subscription == (if pages == [] then s.subscription
                                    else Loaded(s.subscription.record.(lastThreadSync := ts)))
            && !LoadBlocked(r.0)
    decreases |pages|
  {
    if pages != [] {
      var page := pages[0];
      var e1 := EndReached(ts, ListResult(true, page.threads, API_FETCH_COUNT), true);
      var e2 := ThreadsEmitted(page.emitted);
      PageThenEmission(s, rid, build, ts, page.threads, API_FETCH_COUNT, page.emitted);
      var u := Run(s, rid, build, [e1, e2]).0;
      FullPagesRun(u, rid, build, ts, pages[1..]);
      RunAppend(s, rid, build, [e1, e2], FullPages(ts, pages[1..]));
    }
  }

  /** The subscribed path to the end of the list: pages of 50, 50 and 30 are
      requested at offsets 0, 50 and 100 (the live query having listed 50
      and then 100 threads), the list is exhausted after the third (so, by
      `ExhaustedStaysExhausted`, no later page request is sent), and the
      store holds the three pages reconciled in order. */
  lemma SubscribedPagesThenExhausted(
    rid: Id, build: Thread -> Thread, records: map<Id, Thread>, record: Subscription,
    ts: Option<Timestamp>, p1: seq<Thread>, p2: seq<Thread>, p3: seq<Thread>,
    q1: seq<Thread>, q2: seq<Thread>)
    requires |q1| == 50 && |q2| == 100
    ensures var s := State(true, false, false, [], Loaded(record), records);
            var events := [EndReached(ts, ListResult(true, p1, 50), true), ThreadsEmitted(q1),
                           EndReached(ts, ListResult(true, p2, 50), true), ThreadsEmitted(q2),
                           EndReached(ts, ListResult(true, p3, 30), true)];
            var r := Run(s, rid, build, events);
            && r.1 == [ListRequest(rid, 50, 0), ListRequest(rid, 50, 50), ListRequest(rid, 50, 100)]
            && r.0.end && !r.0.loading && r.0.messages == q2
            && r.0.subscription == Loaded(record.(lastThreadSync := ts))
            && r.0.records == StoredPages(records, build, [p1, p2, p3])
  {
    var s := State(true, false, false, [], Loaded(record), records);
    var pages := [Page(p1, q1), Page(p2, q2)];
    TwoFullPages(rid, ts, p1, q1, p2, q2, p3, EndReached(ts, ListResult(true, p3, 30), true));
    FullPagesThenLast(s, rid, build, ts, pages, p3, 30);
  }

  /** Full pages and then a last page in a subscribed room: the last page is
      requested at the number of threads listed and reconciled after the
      others, and it exhausts the list exactly when its count is below the
      page size. */
  lemma FullPagesThenLast(s: State, rid: Id, build: Thread -> Thread, ts: Option<Timestamp>,
                          pages: seq<Page>, last: seq<Thread>, count: int)
    requires s.subscription.Loaded? && !LoadBlocked(s)
    ensures var r := Run(s, rid, build, FullPages(ts, pages) + [EndReached(ts, ListResult(true, last, count), true)]);
            && r.1 == PageRequests(rid, s.messages, pages) + [ListRequest(rid, 50, |ListedAfter(s.messages, pages)|)]
            && r.0.records == StoredPages(s.records, build, Threads(pages) + [last])
            && r.0.messages == ListedAfter(s.messages, pages)
            && r.0.subscription == Loaded(s.subscription.record.(lastThreadSync := ts))
            && (r.0.end <==> count < 50) && !r.0.loading
  {
    FullPagesRun(s, rid, build, ts, pages);
    var u := Run(s, rid, build, FullPages(ts, pages)).0;
    LastPage(u, rid, build, ts, last, count);
    RunAppend(s, rid, build, FullPages(ts, pages), [EndReached(ts, ListResult(true, last, count), true)]);
    StoredPagesSnoc(s.records, build, Threads(pages), last);
  }

  /** The pieces of `SubscribedPagesThenExhausted` that only unfold
      definitions. */
  lemma TwoFullPages(rid: Id, ts: Option<Timestamp>, p1: seq<Thread>, q1: seq<Thread>, p2: seq<Thread>, q2: seq<Thread>,
                      p3: seq<Thread>, e5: Event)
    ensures PageRequests(rid, [], [Page(p1, q1), Page(p2, q2)]) == [ListRequest(rid, 50, 0), ListRequest(rid, 50, |q1|)]
    ensures ListedAfter([], [Page(p1, q1), Page(p2, q2)]) == q2
    ensures FullPages(ts, [Page(p1, q1), Page(p2, q2)]) + [e5]
         == [EndReached(ts, ListResult(true, p1, 50), true), ThreadsEmitted(q1),
             EndReached(ts, ListResult(true, p2, 50), true), ThreadsEmitted(q2), e5]
    ensures Threads([Page(p1, q1), Page(p2, q2)]) == [p1, p2]
    ensures [p1, p2] + [p3] == [p1, p2, p3]
  {
    var pages := [Page(p1, q1), Page(p2, q2)];
    assert pages[1..] == [Page(p2, q2)] && pages[1..][1..] == [];
    assert FullPages(ts, pages[1..]) == [EndReached(ts, ListResult(true, p2, 50), true), ThreadsEmitted(q2)];
    assert Threads(pages[1..]) == [p2];
    assert ListedAfter(q1, pages[1..]) == q2;
    assert PageRequests(rid, q1, pages[1..]) == [ListRequest(rid, 50, |q1|)];
  }

  /** A successful page loaded at the end of the list in a subscribed room:
      it is requested at the number of threads listed, reconciled into the
      store, and the argument of `load` replaces the subscription's
      watermark (with no argument the watermark is cleared). The listed
      threads change only when the live query emits. */
  lemma ScrollLoadOverwritesWatermark(
    s: State, rid: Id, build: Thread -> Thread, lastThreadSync: Option<Timestamp>, page: seq<Thread>, count: int)
    requires s.subscription.Loaded? && !LoadBlocked(s)
    ensures var r := Step(s, rid, build, EndReached(lastThreadSync, ListResult(true, page, count), true));
            && r.1 == Some(ListRequest(rid, 50, |s.messages|))
            && r.0.records == Reconcile(s.records, BuildAll(build, page), [])
            && r.0.subscription == Loaded(s.subscription.record.(lastThreadSync := lastThreadSync))
            && r.0.messages == s.messages && r.0.mounted && !r.0.loading && (r.0.end <==> count < 50)
  {
    assert Items(None) == [];
  }

  /** A room that has a subscription record but no watermark yet: `init`
      loads the first page and records `now` as the watermark in the same
      batch as the page, so the next `init` syncs since `now`. */
  lemma FirstLoadRecordsWatermark(
    records: map<Id, Thread>, rid: Id, build: Thread -> Thread, record: Subscription, now: Timestamp,
    page: seq<Thread>, count: int, syncResponse: SyncResponse, later: Timestamp)
    requires record.lastThreadSync.None?
    ensures var s := State(true, false, false, [], Loaded(record), records);
            var t := InitStep(s, build, now, ListResult(true, page, count), syncResponse, true);
            && InitRequest(s, rid, now) == Some(ListRequest(rid, 50, 0))
            && t.subscription == Loaded(record.(lastThreadSync := Some(now)))
            && t.records == Reconcile(records, BuildAll(build, page), [])
            && InitChoice(t.subscription, later) == CallSync(now)
  {
  }

  /** A delta sync leaves the watermark and the records as they were unless
      its answer is reconciled and committed; then the watermark is
      `updatedSince`, the value captured before the call. */
  lemma SyncWatermark(s: State, build: Thread -> Thread, updatedSince: Timestamp,
                      response: SyncResponse, batchOk: bool)
    requires s.subscription.Loaded?
    ensures var t := SyncStep(s, build, updatedSince, response, batchOk);
            if response.SyncResult? && response.success && response.threads.Some? && batchOk
            then t.subscription.Loaded? && t.subscription.record.lastThreadSync == Some(updatedSince)
            else t.subscription == s.subscription && t.records == s.records
  {
  }

  /** Without a subscription record (corrected lookup), two pages whose counts
      do not end the list accumulate in `messages` and nothing reaches the
      store. */
  lemma NoSubscriptionKeepsPagesInMemory(
    rid: Id, build: Thread -> Thread, records: map<Id, Thread>,
    p1: seq<Thread>, n1: int, p2: seq<Thread>, n2: int, ok1: bool, ok2: bool)
    requires n1 >= API_FETCH_COUNT
    ensures var s := State(true, false, false, [], NoSubscription, records);
            var r := Run(s, rid, build, [EndReached(None, ListResult(true, p1, n1), ok1),
                                         EndReached(None, ListResult(true, p2, n2), ok2)]);
            r.0 == s.(messages := p1 + p2, end := n2 < 50)
            && r.1 == [ListRequest(rid, 50, 0), ListRequest(rid, 50, |p1|)]
  {
    var s := State(true, false, false, [], NoSubscription, records);
    var e1 := EndReached(None, ListResult(true, p1, n1), ok1);
    var e2 := EndReached(None, ListResult(true, p2, n2), ok2);
    assert [] + p1 == p1;
    assert Step(s, rid, build, e1) == (s.(messages := p1), Some(ListRequest(rid, 50, 0)));
    RunCons(s.(messages := p1), rid, build, e2, []);
    RunCons(s, rid, build, e1, [e2]);
    assert [e1] + [e2] == [e1, e2] && [e2] + [] == [e2];
  }

  /** The finding, as written: when the room has no subscription record the
      lookup leaves the placeholder, `init` fetches the first page, and
      `updateThreads` drops it (the placeholder has no thread relation), so
      the list stays empty. */
  lemma MissingRecordDropsPage(
    records: map<Id, Thread>, rid: Id, build: Thread -> Thread, now: Timestamp,
    page: seq<Thread>, count: int, syncResponse: SyncResponse, batchOk: bool)
    requires page != []
    ensures var s := SubscribeDataAsWrittenStep(Initial(records), None).(mounted := true);
            var t := InitStep(s, build, now, ListResult(true, page, count), syncResponse, batchOk);
            && InitRequest(s, rid, now) == Some(ListRequest(rid, 50, 0))
            && t.messages == [] && t.records == records
  {
  }

  /** The finding, corrected: the same events with the corrected lookup show
      the fetched page, still without touching the store. */
  lemma MissingRecordShowsPage(
    records: map<Id, Thread>, rid: Id, build: Thread -> Thread, now: Timestamp,
    page: seq<Thread>, count: int, syncResponse: SyncResponse, batchOk: bool)
    ensures var r := Run(Initial(records), rid, build,
                         [StoreLookup(None), Mount, Init(now, ListResult(true, page, count), syncResponse, batchOk)]);
            && r.1 == [ListRequest(rid, 50, 0)]
            && r.0.messages == page && r.0.records == records
  {
    var e1, e2, e3 := StoreLookup(None), Mount, Init(now, ListResult(true, page, count), syncResponse, batchOk);
    var s0 := Initial(records);
    var s1 := SubscribeDataStep(s0, None);
    var s2 := s1.(mounted := true);
    assert [] + page == page;
    RunCons(s2, rid, build, e3, []);
    RunCons(s1, rid, build, e2, [e3]);
    RunCons(s0, rid, build, e1, [e2, e3]);
    assert [e1] + [e2, e3] == [e1, e2, e3] && [e2] + [e3] == [e2, e3] && [e3] + [] == [e3];
  }
}
