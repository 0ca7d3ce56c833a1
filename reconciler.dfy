/** The diff at the heart of `updateThreads`: a remote batch (`update`,
    `remove`) is compared with the room's stored thread records, by id
    equality only, and turned into the records to create, to update and to
    destroy; the three lists are then committed to the store together. */
module Reconciler {
  import opened Types

  /** Position of the first item carrying `id`, or `|items|` when none does. */
  function FirstIndexOf(items: seq<Thread>, id: Id): (k: nat)
    ensures k <= |items|
    ensures k < |items| ==> items[k].id == id
    ensures forall j :: 0 <= j < k ==> items[j].id != id
  {
    if items == [] then 0
    else if items[0].id == id then 0
    else 1 + FirstIndexOf(items[1..], id)
  }

  /** `items[k]` is the last item carrying its id. */
  ghost predicate LastOfId(items: seq<Thread>, k: int)
    requires 0 <= k < |items|
  {
    forall j :: k < j < |items| ==> items[j].id != items[k].id
  }

  /** No two update items carry the same id, except ids of stored records
      (those are updated from the first item both times). */
  ghost predicate NewIdsDistinct(local: map<Id, Thread>, update: seq<Thread>) {
    forall i, j :: 0 <= i < j < |update| && update[i].id !in local ==> update[i].id != update[j].id
  }

  /** Every stored record sits under its own id. */
  ghost predicate KeyedById(m: map<Id, Thread>) {
    forall id :: id in m ==> m[id].id == id
  }

  lemma IdsOfCons(t: Thread, items: seq<Thread>)
    ensures IdsOf([t] + items) == {t.id} + IdsOf(items)
  {
    var s := [t] + items;
    forall x | x in IdsOf(s) ensures x in {t.id} + IdsOf(items) {
      var u :| u in s && u.id == x;
    }
    forall x | x in {t.id} + IdsOf(items) ensures x in IdsOf(s) {
      if x != t.id {
        var u :| u in items && u.id == x;
        assert u in s;
      } else {
        assert t in s;
      }
    }
  }

  lemma IdsOfTail(items: seq<Thread>)
    requires items != []
    ensures IdsOf(items) == {items[0].id} + IdsOf(items[1..])
  {
    assert items == [items[0]] + items[1..];
    IdsOfCons(items[0], items[1..]);
  }

  /** `find` on id: the item at the first position carrying `id`, if any. */
  function Find(items: seq<Thread>, id: Id): (r: Option<Thread>)
    ensures r.Some? <==> id in IdsOf(items)
    ensures r.Some? ==> FirstIndexOf(items, id) < |items| && r.value == items[FirstIndexOf(items, id)]
  {
    if items == [] then None
    else
      IdsOfTail(items);
      if items[0].id == id then Some(items[0]) else Find(items[1..], id)
  }

  /** The records to create: the update items whose id no stored record has,
      in their order (`ToCreateCounts` says each is kept as often as it
      occurs). */
  function ToCreate(local: map<Id, Thread>, update: seq<Thread>): (r: seq<Thread>)
    ensures IdsOf(r) == IdsOf(update) - local.Keys
  {
    if update == [] then []
    else
      assert update == [update[0]] + update[1..];
      IdsOfTail(update);
      var rest := ToCreate(local, update[1..]);
      if update[0].id in local then rest
      else IdsOfCons(update[0], rest); [update[0]] + rest
  }

  /** The create list is the update list filtered: every item whose id has
      no stored record is kept exactly as often as it occurs, and no other
      item is. */
  lemma {:induction false} ToCreateCounts(local: map<Id, Thread>, update: seq<Thread>)
    ensures forall t :: multiset(ToCreate(local, update))[t] == if t.id in local then 0 else multiset(update)[t]
    decreases update
  {
    if update != [] {
      var u, tail := update[0], update[1..];
      assert update == [u] + tail;
      ToCreateCons(local, u, tail);
      ToCreateCounts(local, tail);
    }
  }

  /** The records to update, by id: the stored records whose id some update
      item carries, each paired with the first such item. */
  function ToUpdate(local: map<Id, Thread>, update: seq<Thread>): (r: map<Id, Thread>)
    ensures r.Keys == local.Keys * IdsOf(update)
    ensures forall id :: id in r ==> r[id] == update[FirstIndexOf(update, id)]
  {
    map id | id in local && Find(update, id).Some? :: Find(update, id).value
  }

  /** The ids of the records to destroy: stored records whose id some remove
      item carries. */
  function ToDelete(local: map<Id, Thread>, remove: seq<Thread>): (r: set<Id>)
    ensures r == local.Keys * IdsOf(remove)
  {
    set id | id in local && Find(remove, id).Some?
  }

  /** The operations of one store batch. */
  datatype Batch = Batch(creates: seq<Thread>, updates: map<Id, Thread>, deletes: set<Id>)

  /** The three lists computed from a remote batch. Creation and update split
      the update ids by whether a record is stored; an empty update list
      creates and updates nothing, an empty remove list destroys nothing. */
  function Diff(local: map<Id, Thread>, update: seq<Thread>, remove: seq<Thread>): (b: Batch)
    ensures b.updates.Keys == local.Keys * IdsOf(update)
    ensures b.deletes == local.Keys * IdsOf(remove)
    ensures IdsOf(b.creates) + b.updates.Keys == IdsOf(update)
    ensures IdsOf(b.creates) !! b.updates.Keys && IdsOf(b.creates) !! b.deletes
    ensures update == [] ==> b.creates == [] && b.updates == map[]
    ensures remove == [] ==> b.deletes == {}
  {
    Batch(ToCreate(local, update), ToUpdate(local, update), ToDelete(local, remove))
  }

  /** Creates applied one after the other: a later create of an id replaces
      an earlier one. */
  function ApplyCreates(m: map<Id, Thread>, creates: seq<Thread>): (r: map<Id, Thread>)
    ensures r.Keys == m.Keys + IdsOf(creates)
    ensures forall id :: id in m && id !in IdsOf(creates) ==> r[id] == m[id]
    decreases creates
  {
    if creates == [] then m
    else
      IdsOfTail(creates);
      ApplyCreates(m[creates[0].id := creates[0]], creates[1..])
  }

  /** One batch, applied in the order the source lists it: creates, then
      updates, then destroys. */
  function Commit(local: map<Id, Thread>, b: Batch): map<Id, Thread> {
    (ApplyCreates(local, b.creates) + b.updates) - b.deletes
  }

  /** What a batch does to the store: a destroy wins over an update or a
      create of the same id, an update over a create, and records the batch
      does not name are untouched. */
  lemma CommitOrder(local: map<Id, Thread>, b: Batch)
    ensures Commit(local, b).Keys == (local.Keys + IdsOf(b.creates) + b.updates.Keys) - b.deletes
    ensures forall id :: id in b.updates && id !in b.deletes ==> Commit(local, b)[id] == b.updates[id]
    ensures forall id :: id in local && id !in IdsOf(b.creates) && id !in b.updates && id !in b.deletes ==>
      Commit(local, b)[id] == local[id]
  {
  }

  lemma KeyAlgebra(L: set<Id>, U: set<Id>, R: set<Id>, created: set<Id>, updated: set<Id>, deleted: set<Id>)
    requires created == L + (U - L) && updated <= L && deleted == L * R
    ensures (created + updated) - deleted == (L - R) + (U - L)
  {
  }

  lemma CommitKeys(local: map<Id, Thread>, update: seq<Thread>, remove: seq<Thread>)
    ensures Commit(local, Diff(local, update, remove)).Keys
         == (local.Keys - IdsOf(remove)) + (IdsOf(update) - local.Keys)
  {
    var b := Diff(local, update, remove);
    var created := ApplyCreates(local, b.creates);
    assert Commit(local, b).Keys == (created.Keys + b.updates.Keys) - b.deletes;
    KeyAlgebra(local.Keys, IdsOf(update), IdsOf(remove), created.Keys, b.updates.Keys, b.deletes);
  }

  lemma CommitStored(local: map<Id, Thread>, update: seq<Thread>, remove: seq<Thread>, id: Id)
    requires id in local && id !in IdsOf(remove)
    ensures id in Commit(local, Diff(local, update, remove))
    ensures Commit(local, Diff(local, update, remove))[id]
         == if id in IdsOf(update) then update[FirstIndexOf(update, id)] else local[id]
  {
    var b := Diff(local, update, remove);
    var created := ApplyCreates(local, b.creates);
    assert id !in IdsOf(b.creates);
    assert created[id] == local[id];
  }

  /** The stored records after reconciling a remote batch and committing it.
      A record survives unless removed; an update id with no record is added;
      records named by neither list are untouched; updated records take the
      first update item with their id. */
  function Reconcile(local: map<Id, Thread>, update: seq<Thread>, remove: seq<Thread>): (r: map<Id, Thread>)
    ensures r.Keys == (local.Keys - IdsOf(remove)) + (IdsOf(update) - local.Keys)
    ensures forall id :: id in local && id !in IdsOf(update) && id !in IdsOf(remove) ==> r[id] == local[id]
    ensures forall id :: id in local && id in IdsOf(update) && id !in IdsOf(remove) ==>
      r[id] == update[FirstIndexOf(update, id)]
  {
    CommitKeys(local, update, remove);
    forall id | id in local && id !in IdsOf(remove)
      ensures id in Commit(local, Diff(local, update, remove))
      ensures Commit(local, Diff(local, update, remove))[id]
           == if id in IdsOf(update) then update[FirstIndexOf(update, id)] else local[id]
    {
      CommitStored(local, update, remove, id);
    }
    Commit(local, Diff(local, update, remove))
  }

  lemma ApplyCreatesCons(m: map<Id, Thread>, t: Thread, rest: seq<Thread>)
    ensures ApplyCreates(m, [t] + rest) == ApplyCreates(m[t.id := t], rest)
  {
    assert ([t] + rest)[1..] == rest;
  }

  lemma ToCreateCons(local: map<Id, Thread>, t: Thread, tail: seq<Thread>)
    ensures ToCreate(local, [t] + tail) == if t.id in local then ToCreate(local, tail) else [t] + ToCreate(local, tail)
  {
    assert ([t] + tail)[1..] == tail;
  }

  lemma LastOfIdTail(update: seq<Thread>, k: int)
    requires 0 < k < |update| && LastOfId(update, k)
    ensures LastOfId(update[1..], k - 1)
  {
    var tail := update[1..];
    forall j | k - 1 < j < |tail| ensures tail[j].id != tail[k - 1].id {
      assert tail[j] == update[j + 1];
    }
  }

  lemma LastOfIdHead(update: seq<Thread>)
    requires 0 < |update| && LastOfId(update, 0)
    ensures update[0].id !in IdsOf(update[1..])
  {
    var tail := update[1..];
    forall u | u in tail ensures u.id != update[0].id {
      var j :| 0 <= j < |tail| && tail[j] == u;
      assert update[j + 1] == u;
    }
  }

  /** When one update batch names an id several times and no record has it,
      the record created is the last of those items. */
  lemma {:induction false} CreatesLastWins(m: map<Id, Thread>, local: map<Id, Thread>, update: seq<Thread>, k: int)
    requires 0 <= k < |update| && update[k].id !in local && LastOfId(update, k)
    ensures update[k].id in ApplyCreates(m, ToCreate(local, update))
    ensures ApplyCreates(m, ToCreate(local, update))[update[k].id] == update[k]
    decreases update
  {
    var t, tail := update[0], update[1..];
    assert update == [t] + tail;
    ToCreateCons(local, t, tail);
    var rest := ToCreate(local, tail);
    if k == 0 {
      LastOfIdHead(update);
      ApplyCreatesCons(m, t, rest);
    } else {
      LastOfIdTail(update, k);
      if t.id in local {
        CreatesLastWins(m, local, tail, k - 1);
      } else {
        ApplyCreatesCons(m, t, rest);
        CreatesLastWins(m[t.id := t], local, tail, k - 1);
      }
    }
  }

  /** A record created by reconciliation holds the last update item with its
      id, whether or not the remove list names that id too. */
  lemma ReconcileCreated(local: map<Id, Thread>, update: seq<Thread>, remove: seq<Thread>, k: int)
    requires 0 <= k < |update| && update[k].id !in local && LastOfId(update, k)
    ensures update[k].id in Reconcile(local, update, remove)
    ensures Reconcile(local, update, remove)[update[k].id] == update[k]
  {
    var b := Diff(local, update, remove);
    CreatesLastWins(local, local, update, k);
    assert update[k].id !in b.updates && update[k].id !in b.deletes;
  }

  lemma CreatesNothingWhenStored(local: map<Id, Thread>, update: seq<Thread>)
    requires IdsOf(update) <= local.Keys
    ensures ToCreate(local, update) == []
  {
  }

  /** Re-running the same update list after a commit creates nothing, as long
      as the remove list did not also name the id of a stored record it
      updates. */
  lemma ReapplyCreatesNothing(local: map<Id, Thread>, update: seq<Thread>, remove: seq<Thread>)
    requires forall id :: id in local && id in IdsOf(update) ==> id !in IdsOf(remove)
    ensures ToCreate(Reconcile(local, update, remove), update) == []
  {
    var once := Reconcile(local, update, remove);
    forall id | id in IdsOf(update) ensures id in once {
    }
    CreatesNothingWhenStored(once, update);
  }

  /** With distinct ids among the update items that have no stored record,
      and no id both updated and removed,
      reconciling the same remote batch a second time changes nothing. */
  lemma ReconcileIdempotent(local: map<Id, Thread>, update: seq<Thread>, remove: seq<Thread>)
    requires NewIdsDistinct(local, update) && IdsOf(update) !! IdsOf(remove)
    ensures Reconcile(Reconcile(local, update, remove), update, remove) == Reconcile(local, update, remove)
  {
    var once := Reconcile(local, update, remove);
    var twice := Reconcile(once, update, remove);
    RereconcileKeys(local.Keys, IdsOf(update), IdsOf(remove), once.Keys);
    assert twice.Keys == once.Keys;
    forall id | id in once ensures twice[id] == once[id] {
      RereconcileValue(local, update, remove, id);
    }
  }

  lemma RereconcileKeys(L: set<Id>, U: set<Id>, R: set<Id>, once: set<Id>)
    requires U !! R && once == (L - R) + (U - L)
    ensures (once - R) + (U - once) == once
  {
  }

  lemma RereconcileValue(local: map<Id, Thread>, update: seq<Thread>, remove: seq<Thread>, id: Id)
    requires NewIdsDistinct(local, update) && IdsOf(update) !! IdsOf(remove)
    requires id in Reconcile(local, update, remove)
    ensures id in Reconcile(Reconcile(local, update, remove), update, remove)
    ensures Reconcile(Reconcile(local, update, remove), update, remove)[id] == Reconcile(local, update, remove)[id]
  {
    var once := Reconcile(local, update, remove);
    assert id !in IdsOf(remove);
    if id in IdsOf(update) && id !in local {
      var k := FirstIndexOf(update, id);
      assert LastOfId(update, k);
      ReconcileCreated(local, update, remove, k);
    }
  }

  /** The remote batch is not idempotent when one id is both updated and
      removed: the first pass destroys the stored record, the second creates
      it again from the update item. */
  lemma ReconcileNotIdempotentOnUpdateAndRemove()
    ensures var local := map["a" := Thread("a", "stored")];
            var update := [Thread("a", "fresh")];
            var remove := [Thread("a", "")];
            Reconcile(local, update, remove) == map[] &&
            Reconcile(Reconcile(local, update, remove), update, remove) == map["a" := Thread("a", "fresh")]
  {
    var local := map["a" := Thread("a", "stored")];
    var update := [Thread("a", "fresh")];
    var remove := [Thread("a", "")];
    IdsOfCons(update[0], []);
    IdsOfCons(remove[0], []);
    assert update == [update[0]] + [] && remove == [remove[0]] + [];
    assert IdsOf(update) == {"a"} && IdsOf(remove) == {"a"};
    var once := Reconcile(local, update, remove);
    assert once.Keys == {};
    ReconcileCreated(once, update, remove, 0);
    var twice := Reconcile(once, update, remove);
    assert twice.Keys == {"a"};
  }

  lemma ApplyCreatesKeyedById(m: map<Id, Thread>, creates: seq<Thread>)
    requires KeyedById(m)
    ensures KeyedById(ApplyCreates(m, creates))
    decreases creates
  {
    if creates != [] {
      ApplyCreatesKeyedById(m[creates[0].id := creates[0]], creates[1..]);
    }
  }

  /** Reconciling keeps every record under its own id: a created record is
      stored under the id it carries, an updated one takes an item carrying
      its id. */
  lemma ReconcileKeyedById(local: map<Id, Thread>, update: seq<Thread>, remove: seq<Thread>)
    requires KeyedById(local)
    ensures KeyedById(Reconcile(local, update, remove))
  {
    var b := Diff(local, update, remove);
    ApplyCreatesKeyedById(local, b.creates);
    forall id | id in b.updates ensures b.updates[id].id == id {
      assert Find(update, id).Some?;
    }
  }
}
