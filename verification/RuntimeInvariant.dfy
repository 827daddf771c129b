/** What every reachable state of the runtime satisfies. */
module RuntimeInvariant {
  import opened Common
  import opened EmbeddingStore
  import opened RuntimeState
  import opened RuntimeWorld

  predicate BeforeAttach(pc: Pc) {
    pc.Loading? || pc.Loaded? || pc.Attaching?
  }

  /** Generations: the pending intent is the latest one, and work in flight under it is strictly older. */
  ghost predicate GenerationInv(
    pending: map<Path, Work>, inflight: map<Path, nat>, newest: nat, latest: map<Path, nat>, intent: map<Path, Kind>)
  {
    && intent.Keys == latest.Keys
    && (forall p :: p in latest ==> latest[p] <= newest)
    && (forall p :: p in pending ==>
                      && pending[p].path == p
                      && p in latest && pending[p].generation == latest[p]
                      && pending[p].kind == intent[p])
    && (forall p :: p in inflight ==>
                      && p in latest
                      && (if p in pending then inflight[p] < latest[p] else inflight[p] == latest[p]))
  }

  predicate Outstanding(b: Batch, i: int) {
    0 <= i < |b.works| && i < |b.stages| && !b.stages[i].Done?
  }

  predicate HasRead(stage: Stage) {
    stage.ToRemove? || stage.Unreadable? || stage.Prepared?
  }

  predicate Settled(stage: Stage) {
    stage.Done? || stage.Changed?
  }

  /** Where each phase of a batch stands. */
  ghost predicate StagesInv(pc: Pc) {
    match pc
    case Snapshotting(b) => forall j :: 0 <= j < |b.stages| ==> b.stages[j].Taken?
    case Reading(b, i, _) =>
      && i <= |b.stages|
      && (forall j :: 0 <= j < i ==> HasRead(b.stages[j]))
      && (forall j :: i <= j < |b.stages| ==> b.stages[j].Taken?)
    case Settling(b, i) =>
      && i <= |b.stages|
      && (forall j :: 0 <= j < i ==> Settled(b.stages[j]))
      && (forall j :: i <= j < |b.stages| ==> HasRead(b.stages[j]))
    case Embedding(b) => forall j :: 0 <= j < |b.stages| ==> Settled(b.stages[j])
    case Committing(b, i, _, _) =>
      && i <= |b.stages|
      && (forall j :: 0 <= j < i ==> b.stages[j].Done?)
      && (forall j :: i <= j < |b.stages| ==> Settled(b.stages[j]))
    case CommitFailing(b, i, _, _, _) =>
      && i < |b.stages| && b.stages[i].Changed?
      && (forall j :: 0 <= j < i ==> b.stages[j].Done?)
      && (forall j :: i <= j < |b.stages| ==> Settled(b.stages[j]))
    case Requeueing(b, i, _) => i <= |b.stages| && forall j :: 0 <= j < i ==> b.stages[j].Done?
    case _ => true
  }

  /** The batch holds each path once, and exactly its unfinished items are in flight while the runtime lives. */
  ghost predicate WorkInv(
    pc: Pc, pending: map<Path, Work>, inflight: map<Path, nat>, intent: map<Path, Kind>, live: bool)
  {
    if InBatch(pc) then
      && WellShaped(pc.b)
      && DistinctPaths(pc.b.works)
      && (forall i :: Outstanding(pc.b, i) ==> OnItsWay(pc.b.works[i], pending, inflight, intent))
      && (live ==> forall p :: p in inflight ==> exists i :: Outstanding(pc.b, i) && pc.b.works[i].path == p)
    else
      (BeforeAttach(pc) || pc.Taking? || (live && !pc.Stopped?)) ==> inflight == map[]
  }

  predicate OnItsWay(work: Work, pending: map<Path, Work>, inflight: map<Path, nat>, intent: map<Path, Kind>) {
    && work.path in inflight && inflight[work.path] == work.generation
    && (work.path !in pending ==> work.path in intent && work.kind == intent[work.path])
  }

  ghost predicate ReconciliationInv(st: RState, settledOnce: set<Path>, initial: set<Path>, cachePublishable: bool) {
    && st.initialStarted == st.attached
    && (!st.attached ==> st.initialRemaining == {} && !st.reconciliationComplete && !st.storeQueryable)
    && st.initialRemaining <= st.pending.Keys + st.inflight.Keys
    && st.failures.Keys <= st.pending.Keys + st.inflight.Keys
    && initial <= st.initialRemaining + settledOnce
    && (st.reconciliationComplete ==> st.initialRemaining == {})
    && (st.storeQueryable ==> cachePublishable || st.reconciliationComplete)
  }

  predicate AttachInv(pc: Pc, attached: bool) {
    && (BeforeAttach(pc) ==> !attached)
    && (!BeforeAttach(pc) && !pc.Stopped? ==> attached)
  }

  ghost predicate StatusInv(st: RState) {
    var status := st.status;
    && status.pendingNotes == |st.pending.Keys + st.inflight.Keys|
    && (status.phase.Ready? ==> status.lastError.None? && status.pendingNotes == 0 && st.reconciliationComplete)
  }

  function RowsFrom(prm: Params, origin: map<Path, Origin>, p: Path): Entries {
    if p in origin then Fresh(prm, p, origin[p].headings, origin[p].body) else map[]
  }

  /** Every note's rows are a complete recomputation of some version of it, or absent. */
  ghost predicate ComputedFrom(prm: Params, entries: Entries, origin: map<Path, Origin>) {
    && (forall p :: p in origin ==> prm.pieces(origin[p].body) != [])
    && (forall p :: EntriesOf(entries, p) == RowsFrom(prm, origin, p))
  }

  ghost predicate DiskComputedFrom(prm: Params, disk: Option<Store>, diskOrigin: map<Path, Origin>) {
    disk.Some? ==> ComputedFrom(prm, disk.value.entries, diskOrigin)
  }

  /** The stored rows of `p` are what its last intent asks for, up to the headings they were computed under. */
  ghost predicate Agrees(prm: Params, w: World, p: Path) {
    if (p in w.intent && w.intent[p].Remove?) || p !in w.metas then p !in w.origin
    else
      && p in w.files
      && (if prm.pieces(w.files[p]) == [] then p !in w.origin
          else p in w.origin && w.origin[p].body == w.files[p])
  }

  predicate Untouched(pending: map<Path, Work>, unsubmitted: set<Path>, p: Path) {
    p !in pending && p !in unsubmitted
  }

  predicate Quiet(w: World, p: Path) {
    Untouched(w.st.pending, w.unsubmitted, p) && p !in w.st.inflight
  }

  /** What has been read about an item still describes the note unless a newer change is under way. */
  predicate ObservationHolds(
    prm: Params, work: Work, stage: Stage, metas: map<Path, seq<string>>, files: map<Path, string>)
  {
    var p := work.path;
    match stage
    case ToRemove => work.kind.Remove? || p !in metas || (p in files && prm.pieces(files[p]) == [])
    case Prepared(h, body) =>
      work.kind.Upsert? && p in metas && metas[p] == h && p in files && files[p] == body
    case Changed(h, body) =>
      work.kind.Upsert? && p in metas && metas[p] == h && p in files && files[p] == body
    case _ => true
  }

  predicate SameMeta(metas: map<Path, seq<string>>, snap: map<Path, seq<string>>, p: Path) {
    (p in snap <==> p in metas) && (p in snap && p in metas ==> snap[p] == metas[p])
  }

  predicate HasPieces(prm: Params, stage: Stage) {
    (stage.Prepared? || stage.Changed?) ==> prm.pieces(stage.body) != []
  }

  ghost predicate ObservationInv(
    prm: Params, pc: Pc, pending: map<Path, Work>, unsubmitted: set<Path>,
    metas: map<Path, seq<string>>, files: map<Path, string>)
  {
    InBatch(pc) ==>
      && (forall i :: Outstanding(pc.b, i) ==> HasPieces(prm, pc.b.stages[i]))
      && (forall i :: Outstanding(pc.b, i) && Untouched(pending, unsubmitted, pc.b.works[i].path) ==>
                        ObservationHolds(prm, pc.b.works[i], pc.b.stages[i], metas, files))
      && (pc.Reading? ==>
            forall i :: Outstanding(pc.b, i) && Untouched(pending, unsubmitted, pc.b.works[i].path) ==>
                          SameMeta(metas, pc.snap, pc.b.works[i].path))
  }

  ghost predicate QuietInv(prm: Params, w: World) {
    && (w.st.attached ==> forall p :: Quiet(w, p) ==> Agrees(prm, w, p))
    && (BeforeAttach(w.pc) ==> w.latest.Keys == w.st.pending.Keys)
    && ((w.pc.Loaded? || w.pc.Attaching?) ==>
          forall p :: Untouched(w.st.pending, w.unsubmitted, p) ==> (p in w.pc.paths <==> p in w.metas))
    && (w.pc.Attaching? ==> forall p :: p in w.origin ==> p in w.pc.paths)
  }

  /** The vectors not yet handed out are those of the notes not yet committed, in order. */
  ghost predicate VectorInv(prm: Params, pc: Pc) {
    match pc
    case Committing(b, i, cursor, vectors) =>
      WellShaped(b) && cursor <= |vectors| && vectors[cursor..] == EmbedAll(prm, FlatTexts(prm, b, i))
    case CommitFailing(b, i, cursor, vectors, _) =>
      WellShaped(b) && cursor <= |vectors| && vectors[cursor..] == EmbedAll(prm, FlatTexts(prm, b, i + 1))
    case _ => true
  }

  /** When nothing is marked dirty, the cache on disk is the store. */
  predicate CacheInv(prm: Params, synced: bool, dirty: bool, disk: Option<Store>, store: Store) {
    prm.modelDim == prm.storeDim && synced && !dirty ==> disk == Some(store)
  }

  ghost predicate Inv(prm: Params, w: World) {
    && GenerationInv(w.st.pending, w.st.inflight, w.st.nextGeneration, w.latest, w.intent)
    && StagesInv(w.pc)
    && WorkInv(w.pc, w.st.pending, w.st.inflight, w.intent, w.live)
    && ReconciliationInv(w.st, w.settledOnce, w.initial, w.cachePublishable)
    && AttachInv(w.pc, w.st.attached)
    && ComputedFrom(prm, w.store.entries, w.origin)
    && DiskComputedFrom(prm, w.disk, w.diskOrigin)
    && ObservationInv(prm, w.pc, w.st.pending, w.unsubmitted, w.metas, w.files)
    && QuietInv(prm, w)
    && VectorInv(prm, w.pc)
    && CacheInv(prm, w.synced, w.dirty, w.disk, w.store)
  }

  /**
   * The runtime just after it was spawned: an upsert queued for every indexed note, nothing loaded. The cache on
   * disk, if any, was written by an earlier run under the same parameters.
   */
  ghost predicate Init(prm: Params, w: World) {
    var st := w.st;
    && st.pending.Keys == w.metas.Keys
    && (forall p :: p in st.pending ==>
                      && st.pending[p].path == p && st.pending[p].kind.Upsert? && st.pending[p].attempt == 0
                      && 1 <= st.pending[p].generation <= st.nextGeneration)
    && st.inflight == map[] && st.failures == map[] && st.persistenceError.None?
    && st.initialRemaining == {} && !st.initialStarted && !st.reconciliationComplete
    && !st.attached && !st.storeQueryable
    && st.status == Status(Warming, false, 0, |w.metas|, |w.metas|, None)
    && w.store == Store(map[], false) && w.live && !w.dirty && w.pc.Loading?
    && w.unsubmitted == {}
    && w.latest == (map p | p in st.pending :: st.pending[p].generation)
    && w.intent == (map p | p in st.pending :: Upsert)
    && w.settledOnce == {} && w.initial == {} && !w.cachePublishable && !w.synced
    && w.origin == map[]
    && (w.disk.Some? ==> ComputedFrom(prm, w.disk.value.entries, w.diskOrigin))
  }

  lemma InitStatus(prm: Params, w: World)
    requires Init(prm, w)
    ensures StatusInv(w.st)
  {
    assert w.st.pending.Keys + w.st.inflight.Keys == w.metas.Keys;
    assert |w.metas.Keys| == |w.metas|;
  }

  lemma InitGenerations(prm: Params, w: World)
    requires Init(prm, w)
    ensures GenerationInv(w.st.pending, w.st.inflight, w.st.nextGeneration, w.latest, w.intent)
  {
  }

  lemma InitQueue(prm: Params, w: World)
    requires Init(prm, w)
    ensures ReconciliationInv(w.st, w.settledOnce, w.initial, w.cachePublishable)
    ensures QuietInv(prm, w)
  {
    assert w.latest.Keys == w.st.pending.Keys;
  }

  lemma InitStore(prm: Params, w: World)
    requires Init(prm, w)
    ensures ComputedFrom(prm, w.store.entries, w.origin) && DiskComputedFrom(prm, w.disk, w.diskOrigin)
    ensures CacheInv(prm, w.synced, w.dirty, w.disk, w.store)
  {
    forall p ensures EntriesOf(w.store.entries, p) == RowsFrom(prm, w.origin, p) {
      assert EntriesOf(w.store.entries, p) == map[];
    }
  }

  lemma InitInv(prm: Params, w: World)
    requires Init(prm, w)
    ensures Inv(prm, w)
  {
    InitGenerations(prm, w);
    InitQueue(prm, w);
    InitStore(prm, w);
    hide GenerationInv, ReconciliationInv, ComputedFrom, DiskComputedFrom, QuietInv, CacheInv;
  }
}
