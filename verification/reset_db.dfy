/** The administrative purge of reset_db.py: `delete_many` of every task whose
    status is not `completed_packaged`, reporting how many were deleted. */
module ResetDb {
  import opened Tasks

  datatype PurgeResult = PurgeResult(store: Store, deletedCount: nat)

  /** The number of tasks of `store` not in `completed_packaged`. */
  function CountUnpackaged(store: Store): nat {
    if store == [] then 0
    else (if store[0].status != CompletedPackaged then 1 else 0) + CountUnpackaged(store[1..])
  }

  /** `fix_database`: every task that remains is packaged, and the deleted
      count is the number of tasks that were not packaged. */
  function FixDatabase(store: Store): (r: PurgeResult)
    ensures forall i :: 0 <= i < |r.store| ==> r.store[i].status == CompletedPackaged
    ensures r.deletedCount == CountUnpackaged(store)
    ensures |r.store| + r.deletedCount == |store|
  {
    if store == [] then PurgeResult([], 0)
    else
      var rest := FixDatabase(store[1..]);
      if store[0].status == CompletedPackaged then PurgeResult([store[0]] + rest.store, rest.deletedCount)
      else PurgeResult(rest.store, rest.deletedCount + 1)
  }

  /** The purge works task by task and keeps relative order: purging a
      concatenation is concatenating the purges. */
  lemma {:induction false} PurgeDistributes(a: Store, b: Store)
    ensures FixDatabase(a + b).store == FixDatabase(a).store + FixDatabase(b).store
    ensures FixDatabase(a + b).deletedCount == FixDatabase(a).deletedCount + FixDatabase(b).deletedCount
  {
    if a == [] {
      assert a + b == b;
    } else {
      assert (a + b)[0] == a[0];
      assert (a + b)[1..] == a[1..] + b;
      PurgeDistributes(a[1..], b);
    }
  }

  /** The survivors are exactly the packaged tasks: a packaged task is never
      deleted (the purge spares `uploaded` and `failed_qc` no more than
      `pending`) and nothing else survives. */
  lemma {:induction false} PurgeMembers(store: Store, t: Task)
    ensures t in FixDatabase(store).store <==> t in store && t.status == CompletedPackaged
  {
    if store != [] {
      PurgeMembers(store[1..], t);
      assert t in store <==> t == store[0] || t in store[1..];
    }
  }

  /** A second purge deletes nothing and changes nothing. */
  lemma {:induction false} PurgeIdempotent(store: Store)
    ensures FixDatabase(FixDatabase(store).store) == PurgeResult(FixDatabase(store).store, 0)
  {
    if store != [] {
      PurgeIdempotent(store[1..]);
      var rest := FixDatabase(store[1..]).store;
      if store[0].status == CompletedPackaged {
        assert ([store[0]] + rest)[1..] == rest;
      }
    }
  }
}
