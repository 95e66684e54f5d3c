/** The task record, its closed status enum, and the store of tasks with the
    two lookups every stage uses: "any task in status S" (Mongo's natural
    order, modelled as the first match in store order) and "the task in
    status S with the latest creation time". */
module Tasks {
  import opened Common

  /** Every status value a shown module reads or writes. `Completed` is only
      read (by the verifier) and `CompletedPackaged` is written by the
      packaging module, which is not part of this model. */
  datatype Status =
    | Pending
    | Scripted
    | Voiced
    | ReadyToAssemble
    | ReadyToUpload
    | Completed
    | FailedQc
    | CompletedPackaged
    | Uploaded

  /** One narrated segment. Every field is optional: the scripting service
      decides which keys a scene carries, later stages add the rest. */
  datatype Scene = Scene(
    text: Option<string>,
    keywords: Option<seq<string>>,
    imageCount: Option<int>,
    audioPath: Option<string>,
    duration: Option<real>,
    imagePaths: Option<seq<string>>)

  /** A stored task. `createdAt` is seconds since the UTC epoch; `tags` is the
      key the uploader reads, distinct from `aiTags` which scripting writes. */
  datatype Task = Task(
    id: nat,
    title: string,
    content: string,
    source: string,
    status: Status,
    sourceUrl: string,
    niche: string,
    slot: string,
    folderPath: string,
    createdAt: int,
    scriptData: Option<seq<Scene>>,
    aiDescription: Option<string>,
    aiHashtags: Option<string>,
    aiTags: Option<string>,
    tags: Option<string>,
    finalVideoPath: Option<string>,
    qcReason: Option<string>,
    youtubeId: Option<string>,
    uploadedAt: Option<string>)

  type Store = seq<Task>

  /** No two stored tasks share an id. */
  predicate UniqueIds(store: Store) {
    forall i, j :: 0 <= i < |store| && 0 <= j < |store| && i != j ==> store[i].id != store[j].id
  }

  /** The largest id in the store, 0 for an empty store. */
  function MaxId(store: Store): (m: nat)
    ensures forall i :: 0 <= i < |store| ==> store[i].id <= m
  {
    if store == [] then 0 else Max(store[0].id, MaxId(store[1..]))
  }

  /** `find_one({"status": s})`: the first task in store order with status `s`. */
  function FindFirst(store: Store, s: Status): (r: Option<nat>)
    ensures r.None? <==> forall i :: 0 <= i < |store| ==> store[i].status != s
    ensures r.Some? ==> r.value < |store| && store[r.value].status == s
    ensures r.Some? ==> forall i :: 0 <= i < r.value ==> store[i].status != s
  {
    if store == [] then None
    else if store[0].status == s then Some(0)
    else match FindFirst(store[1..], s)
      case None => None
      case Some(k) => Some(k + 1)
  }

  /** `find_one({"status": s}, sort=[("created_at", -1)])`: a task in status
      `s` with the greatest creation time; among equals, the first in store
      order. */
  function FindLatest(store: Store, s: Status): (r: Option<nat>)
    ensures r.None? <==> forall i :: 0 <= i < |store| ==> store[i].status != s
    ensures r.Some? ==> r.value < |store| && store[r.value].status == s
    ensures r.Some? ==> forall i :: 0 <= i < |store| && store[i].status == s ==> store[i].createdAt <= store[r.value].createdAt
    ensures r.Some? ==> forall i :: 0 <= i < r.value && store[i].status == s ==> store[i].createdAt < store[r.value].createdAt
  {
    if store == [] then None
    else match FindLatest(store[1..], s)
      case None => if store[0].status == s then Some(0) else None
      case Some(k) =>
        if store[0].status == s && store[0].createdAt >= store[k + 1].createdAt then Some(0) else Some(k + 1)
  }

  /** Mongo's `update_one({"_id": ...}, {"$set": ...})` on the task at `k`. */
  function Put(store: Store, k: nat, t: Task): (r: Store)
    requires k < |store|
    ensures |r| == |store| && r[k] == t
    ensures forall j :: 0 <= j < |store| && j != k ==> r[j] == store[j]
  {
    store[k := t]
  }

  /** The status changes the shown stages perform. */
  predicate Edge(from: Status, to: Status) {
    || (from == Pending && to == Scripted)
    || (from == Scripted && to == Voiced)
    || (from == Voiced && to == ReadyToAssemble)
    || (from == ReadyToAssemble && to == ReadyToUpload)
    || (from == Completed && to == ReadyToUpload)
    || (from == Completed && to == FailedQc)
    || (from == CompletedPackaged && to == Uploaded)
  }

  /** `r` is `store` with exactly the task at `k` moved from `from` to `to`;
      that task keeps its identity, origin and folder, and every other task is
      untouched. */
  predicate Advances(store: Store, r: Store, k: nat, from: Status, to: Status) {
    && |r| == |store|
    && k < |store|
    && store[k].status == from
    && r[k].status == to
    && r[k].id == store[k].id
    && r[k].createdAt == store[k].createdAt
    && r[k].folderPath == store[k].folderPath
    && r[k].sourceUrl == store[k].sourceUrl
    && r[k].niche == store[k].niche
    && (forall j :: 0 <= j < |store| && j != k ==> r[j] == store[j])
  }

  /** A stage run either changes nothing or performs one `Edge` on one task. */
  ghost predicate LegalStep(store: Store, r: Store) {
    r == store || exists k: nat, from, to :: Edge(from, to) && Advances(store, r, k, from, to)
  }

  /** Performing one `Edge` on one task is a legal step. */
  lemma EdgeIsLegal(store: Store, r: Store, k: nat, from: Status, to: Status)
    requires Edge(from, to) && Advances(store, r, k, from, to)
    ensures LegalStep(store, r)
  {
  }

  /** Advancing one task keeps the ids unique. */
  lemma AdvancesKeepsIds(store: Store, r: Store, k: nat, from: Status, to: Status)
    requires UniqueIds(store) && Advances(store, r, k, from, to)
    ensures UniqueIds(r)
  {
    forall i, j | 0 <= i < |r| && 0 <= j < |r| && i != j
      ensures r[i].id != r[j].id
    {
      assert r[i].id == store[i].id && r[j].id == store[j].id;
    }
  }

  /** A legal step keeps ids unique and never changes the number of tasks. */
  lemma LegalStepKeepsIds(store: Store, r: Store)
    requires UniqueIds(store) && LegalStep(store, r)
    ensures UniqueIds(r) && |r| == |store|
  {
    if r != store {
      var k: nat, from, to :| Edge(from, to) && Advances(store, r, k, from, to);
      AdvancesKeepsIds(store, r, k, from, to);
    }
  }
}
