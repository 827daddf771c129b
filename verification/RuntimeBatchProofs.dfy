/** Steps inside a batch: taking, reading, settling, committing, requeueing. */
module RuntimeBatchProofs {
  import opened Common
  import opened EmbeddingStore
  import opened RuntimeState
  import opened RuntimeWorld
  import opened RuntimeInvariant

  // ----- taking a batch -----

  lemma InflightOfBatch(batch: seq<Work>)
    requires DistinctPaths(batch)
    ensures InflightOf(batch).Keys == Paths(batch)
    ensures forall i :: 0 <= i < |batch| ==> batch[i].path in Paths(batch) && InflightOf(batch)[batch[i].path] == batch[i].generation
  {
    forall i | 0 <= i < |batch|
      ensures batch[i].path in Paths(batch) && InflightOf(batch)[batch[i].path] == batch[i].generation
    {
      GenerationInAt(batch, i);
    }
  }

  /** Taking moves each item of the batch from pending to in flight under its own generation. */
  ghost predicate Moved(st: RState, st': RState, batch: seq<Work>) {
    && (forall p :: p in st'.pending <==> p in st.pending && p !in Paths(batch))
    && (forall p :: p in st'.pending ==> st'.pending[p] == st.pending[p])
    && (forall p :: p in st'.inflight <==> p in Paths(batch))
    && (forall i :: 0 <= i < |batch| ==> batch[i].path in st'.inflight && st'.inflight[batch[i].path] == batch[i].generation)
    && (forall i :: 0 <= i < |batch| ==> batch[i].path in st.pending && st.pending[batch[i].path] == batch[i])
  }

  lemma TakeMoves(st: RState, now: nat, batch: seq<Work>)
    requires IsBatch(st, now, batch) && st.inflight == map[]
    ensures Moved(st, TakeBatch(st, batch), batch)
  {
    InflightOfBatch(batch);
    assert st.inflight + InflightOf(batch) == InflightOf(batch);
  }

  lemma TakeGenerations(st: RState, st': RState, batch: seq<Work>, latest: map<Path, nat>, intent: map<Path, Kind>)
    requires Moved(st, st', batch) && st'.nextGeneration == st.nextGeneration
    requires GenerationInv(st.pending, st.inflight, st.nextGeneration, latest, intent)
    ensures GenerationInv(st'.pending, st'.inflight, st'.nextGeneration, latest, intent)
  {
    forall p | p in st'.inflight ensures p in latest && st'.inflight[p] == latest[p] {
      var i :| 0 <= i < |batch| && batch[i].path == p;
    }
  }

  lemma TakeWork(
    st: RState, st': RState, batch: seq<Work>, latest: map<Path, nat>, intent: map<Path, Kind>, live: bool, pc: Pc)
    requires Moved(st, st', batch) && DistinctPaths(batch)
    requires GenerationInv(st.pending, st.inflight, st.nextGeneration, latest, intent)
    requires pc == Snapshotting(Batch(batch, seq(|batch|, i => Taken)))
    ensures WorkInv(pc, st'.pending, st'.inflight, intent, live)
  {
    forall i | Outstanding(pc.b, i) ensures OnItsWay(pc.b.works[i], st'.pending, st'.inflight, intent) {
      assert st.pending[batch[i].path] == batch[i];
    }
    forall p | p in st'.inflight ensures exists i :: Outstanding(pc.b, i) && pc.b.works[i].path == p {
      var i :| 0 <= i < |batch| && batch[i].path == p;
      assert Outstanding(pc.b, i);
    }
  }

  lemma TakeReconciles(st: RState, st': RState, batch: seq<Work>, settledOnce: set<Path>, initial: set<Path>,
    publishable: bool)
    requires Moved(st, st', batch) && st.inflight == map[]
    requires st' == st.(pending := st'.pending, inflight := st'.inflight, status := st'.status)
    requires ReconciliationInv(st, settledOnce, initial, publishable)
    ensures ReconciliationInv(st', settledOnce, initial, publishable)
  {
  }

  lemma TakeQuiet(prm: Params, w: World, w': World, batch: seq<Work>)
    requires QuietInv(prm, w) && Moved(w.st, w'.st, batch) && w.st.inflight == map[] && w.st.attached
    requires w' == w.(st := w'.st, pc := w'.pc) && w'.st.attached && !BeforeAttach(w'.pc)
    ensures QuietInv(prm, w')
  {
    forall p | Quiet(w', p) ensures Agrees(prm, w', p) {
      assert Quiet(w, p) && Agrees(prm, w, p);
    }
  }

  lemma TakeObserves(prm: Params, w: World, pc: Pc, batch: seq<Work>)
    requires pc == Snapshotting(Batch(batch, seq(|batch|, i => Taken)))
    ensures ObservationInv(prm, pc, w.st.pending, w.unsubmitted, w.metas, w.files)
    ensures StagesInv(pc) && VectorInv(prm, pc)
  {
  }

  lemma TakingFacts(prm: Params, w: World)
    requires Inv(prm, w) && w.pc.Taking?
    ensures w.st.attached && w.st.inflight == map[]
  {
  }

  lemma KeepsTakenWorld(prm: Params, w: World, w': World, batch: seq<Work>)
    requires Inv(prm, w) && w.pc.Taking? && Moved(w.st, w'.st, batch) && DistinctPaths(batch)
    requires w' == w.(st := w'.st, pc := Snapshotting(Batch(batch, seq(|batch|, i => Taken))))
    requires w'.st == w.st.(pending := w'.st.pending, inflight := w'.st.inflight, status := w'.st.status)
    ensures Inv(prm, w')
  {
    TakingFacts(prm, w);
    TakeGenerations(w.st, w'.st, batch, w.latest, w.intent);
    TakeWork(w.st, w'.st, batch, w.latest, w.intent, w.live, w'.pc);
    TakeReconciles(w.st, w'.st, batch, w.settledOnce, w.initial, w.cachePublishable);
    TakeQuiet(prm, w, w', batch);
    TakeObserves(prm, w', w'.pc, batch);
  }

  // ----- moving on within a batch -----

  lemma WorkSame(pc: Pc, pc': Pc, pending: map<Path, Work>, inflight: map<Path, nat>, intent: map<Path, Kind>,
    live: bool)
    requires WorkInv(pc, pending, inflight, intent, live)
    requires InBatch(pc) && InBatch(pc') && pc'.b.works == pc.b.works && |pc'.b.stages| == |pc.b.stages|
    requires forall i :: Outstanding(pc'.b, i) <==> Outstanding(pc.b, i)
    ensures WorkInv(pc', pending, inflight, intent, live)
  {
    if live {
      forall p | p in inflight ensures exists i :: Outstanding(pc'.b, i) && pc'.b.works[i].path == p {
        var i :| Outstanding(pc.b, i) && pc.b.works[i].path == p;
        assert Outstanding(pc'.b, i);
      }
    }
  }

  lemma QuietMove(prm: Params, w: World, pc: Pc)
    requires QuietInv(prm, w) && !BeforeAttach(pc)
    ensures QuietInv(prm, w.(pc := pc))
  {
    forall p | w.st.attached && Quiet(w.(pc := pc), p) ensures Agrees(prm, w.(pc := pc), p) {
      assert Quiet(w, p) && Agrees(prm, w, p);
    }
  }

  lemma KeepsStep(prm: Params, w: World, pc: Pc)
    requires Inv(prm, w) && InBatch(w.pc) && InBatch(pc)
    requires StagesInv(pc) && VectorInv(prm, pc)
    requires WorkInv(pc, w.st.pending, w.st.inflight, w.intent, w.live)
    requires ObservationInv(prm, pc, w.st.pending, w.unsubmitted, w.metas, w.files)
    ensures Inv(prm, w.(pc := pc))
  {
    QuietMove(prm, w, pc);
  }

  lemma BatchFacts(prm: Params, w: World)
    requires Inv(prm, w) && InBatch(w.pc)
    ensures w.st.attached && WellShaped(w.pc.b) && DistinctPaths(w.pc.b.works)
  {
  }

  lemma SnapshotObserves(prm: Params, w: World, b: Batch)
    requires ObservationInv(prm, Snapshotting(b), w.st.pending, w.unsubmitted, w.metas, w.files)
    ensures ObservationInv(prm, Reading(b, 0, w.metas), w.st.pending, w.unsubmitted, w.metas, w.files)
  {
    forall i | Outstanding(b, i) ensures HasPieces(prm, b.stages[i]) {
      assert Outstanding(Snapshotting(b).b, i);
    }
    forall i | Outstanding(b, i) && Untouched(w.st.pending, w.unsubmitted, b.works[i].path)
      ensures ObservationHolds(prm, b.works[i], b.stages[i], w.metas, w.files)
    {
      assert Outstanding(Snapshotting(b).b, i);
    }
  }

  lemma KeepsReadMetadata(prm: Params, w: World)
    requires Inv(prm, w) && w.pc.Snapshotting?
    ensures Inv(prm, w.(pc := Reading(w.pc.b, 0, w.metas)))
  {
    var pc := Reading(w.pc.b, 0, w.metas);
    BatchFacts(prm, w);
    WorkSame(w.pc, pc, w.st.pending, w.st.inflight, w.intent, w.live);
    SnapshotObserves(prm, w, w.pc.b);
    KeepsStep(prm, w, pc);
  }

  lemma SameBatchObserves(prm: Params, pc: Pc, pc': Pc, w: World)
    requires ObservationInv(prm, pc, w.st.pending, w.unsubmitted, w.metas, w.files)
    requires InBatch(pc) && InBatch(pc') && pc'.b == pc.b && !pc'.Reading?
    ensures ObservationInv(prm, pc', w.st.pending, w.unsubmitted, w.metas, w.files)
  {
    forall i | Outstanding(pc'.b, i) ensures HasPieces(prm, pc'.b.stages[i]) {
      assert Outstanding(pc.b, i);
    }
    forall i | Outstanding(pc'.b, i) && Untouched(w.st.pending, w.unsubmitted, pc'.b.works[i].path)
      ensures ObservationHolds(prm, pc'.b.works[i], pc'.b.stages[i], w.metas, w.files)
    {
      assert Outstanding(pc.b, i);
    }
  }

  /** Moves to another phase over the same items. */
  lemma KeepsPhase(prm: Params, w: World, pc: Pc)
    requires Inv(prm, w) && InBatch(w.pc) && InBatch(pc) && pc.b == w.pc.b && !pc.Reading?
    requires StagesInv(pc) && VectorInv(prm, pc)
    ensures Inv(prm, w.(pc := pc))
  {
    BatchFacts(prm, w);
    WorkSame(w.pc, pc, w.st.pending, w.st.inflight, w.intent, w.live);
    SameBatchObserves(prm, w.pc, pc, w);
    KeepsStep(prm, w, pc);
  }

  lemma ReadObserves(prm: Params, w: World, error: string)
    requires w.pc.Reading? && WellShaped(w.pc.b) && w.pc.i < |w.pc.b.works| && StagesInv(w.pc)
    requires ObservationInv(prm, w.pc, w.st.pending, w.unsubmitted, w.metas, w.files)
    ensures var pc := DoReadFile(prm, w, error).pc;
            && ObservationInv(prm, pc, w.st.pending, w.unsubmitted, w.metas, w.files)
            && StagesInv(pc) && VectorInv(prm, pc)
            && forall i :: Outstanding(pc.b, i) <==> Outstanding(w.pc.b, i)
  {
    var pc := DoReadFile(prm, w, error).pc;
    var b, b' := w.pc.b, pc.b;
    forall i | Outstanding(b', i) ensures HasPieces(prm, b'.stages[i]) {
      assert Outstanding(b, i);
    }
    forall i | Outstanding(b', i) && Untouched(w.st.pending, w.unsubmitted, b'.works[i].path)
      ensures ObservationHolds(prm, b'.works[i], b'.stages[i], w.metas, w.files)
      ensures SameMeta(w.metas, pc.snap, b'.works[i].path)
    {
      assert Outstanding(b, i);
      assert SameMeta(w.metas, w.pc.snap, b.works[i].path);
      assert ObservationHolds(prm, b.works[i], b.stages[i], w.metas, w.files);
    }
  }

  lemma KeepsReadNext(prm: Params, w: World, pc: Pc)
    requires Inv(prm, w) && InBatch(w.pc) && InBatch(pc) && pc.b.works == w.pc.b.works
    requires |pc.b.stages| == |w.pc.b.stages| && forall i :: Outstanding(pc.b, i) <==> Outstanding(w.pc.b, i)
    requires ObservationInv(prm, pc, w.st.pending, w.unsubmitted, w.metas, w.files)
    requires StagesInv(pc) && VectorInv(prm, pc)
    ensures Inv(prm, w.(pc := pc))
  {
    WorkSame(w.pc, pc, w.st.pending, w.st.inflight, w.intent, w.live);
    KeepsStep(prm, w, pc);
  }

  lemma ReadMoves(prm: Params, w: World, error: string)
    requires w.pc.Reading? && WellShaped(w.pc.b) && w.pc.i < |w.pc.b.works|
    ensures var pc := DoReadFile(prm, w, error).pc;
            && DoReadFile(prm, w, error) == w.(pc := pc)
            && InBatch(pc) && pc.b.works == w.pc.b.works && |pc.b.stages| == |w.pc.b.stages|
  {
  }

  lemma KeepsReadFile(prm: Params, w: World, error: string)
    requires Inv(prm, w) && w.pc.Reading? && WellShaped(w.pc.b) && w.pc.i < |w.pc.b.works|
    ensures Inv(prm, DoReadFile(prm, w, error))
  {
    ReadMoves(prm, w, error);
    ReadObserves(prm, w, error);
    KeepsReadNext(prm, w, DoReadFile(prm, w, error).pc);
  }

  // ----- an item leaves the batch -----

  /** An item that is not current any more has a newer intent pending. */
  lemma SupersededIsPending(st: RState, work: Work, intent: map<Path, Kind>)
    requires OnItsWay(work, st.pending, st.inflight, intent) && !IsCurrent(st, work)
    ensures work.path in st.pending
  {
  }

  lemma CurrentIsNotPending(st: RState, work: Work, latest: map<Path, nat>, intent: map<Path, Kind>)
    requires GenerationInv(st.pending, st.inflight, st.nextGeneration, latest, intent)
    requires OnItsWay(work, st.pending, st.inflight, intent) && IsCurrent(st, work)
    ensures work.path !in st.pending && work.path in latest && work.generation == latest[work.path]
    ensures work.path in intent && work.kind == intent[work.path]
  {
  }

  lemma GenerationDrop(
    pending: map<Path, Work>, inflight: map<Path, nat>, newest: nat, latest: map<Path, nat>, intent: map<Path, Kind>,
    p: Path)
    requires GenerationInv(pending, inflight, newest, latest, intent)
    ensures GenerationInv(pending, Drop(inflight, p), newest, latest, intent)
  {
  }

  lemma GenerationRetry(
    pending: map<Path, Work>, inflight: map<Path, nat>, newest: nat, latest: map<Path, nat>, intent: map<Path, Kind>,
    work: Work, now: nat)
    requires GenerationInv(pending, inflight, newest, latest, intent)
    requires work.path in latest && work.generation == latest[work.path] && work.kind == intent[work.path]
    ensures GenerationInv(pending[work.path := Retry(work, now)], Drop(inflight, work.path), newest, latest, intent)
  {
  }

  lemma WorkFinish(
    pc: Pc, pc': Pc, i: nat, pending: map<Path, Work>, pending': map<Path, Work>, inflight: map<Path, nat>,
    intent: map<Path, Kind>, live: bool)
    requires WorkInv(pc, pending, inflight, intent, live) && InBatch(pc) && InBatch(pc')
    requires Outstanding(pc.b, i) && pc'.b == Set(pc.b, i, Done)
    requires pending.Keys <= pending'.Keys
    ensures WorkInv(pc', pending', Drop(inflight, pc.b.works[i].path), intent, live)
    ensures !live ==> WorkInv(pc', pending', inflight, intent, live)
  {
    var b, b' := pc.b, pc'.b;
    forall j | Outstanding(b', j)
      ensures OnItsWay(b'.works[j], pending', Drop(inflight, b.works[i].path), intent)
      ensures OnItsWay(b'.works[j], pending', inflight, intent)
    {
      assert Outstanding(b, j) && j != i;
      assert OnItsWay(b.works[j], pending, inflight, intent);
      assert b.works[j].path != b.works[i].path;
    }
    if live {
      forall p | p in Drop(inflight, b.works[i].path) ensures exists j :: Outstanding(b', j) && b'.works[j].path == p {
        var j :| Outstanding(b, j) && b.works[j].path == p;
        assert Outstanding(b', j);
      }
    }
  }

  lemma ObservationFinish(
    prm: Params, pc: Pc, pc': Pc, i: nat, pending: map<Path, Work>, pending': map<Path, Work>, w: World)
    requires ObservationInv(prm, pc, pending, w.unsubmitted, w.metas, w.files) && InBatch(pc) && InBatch(pc')
    requires WellShaped(pc.b) && i < |pc.b.works| && pc'.b == Set(pc.b, i, Done) && !pc'.Reading?
    requires pending.Keys <= pending'.Keys
    ensures ObservationInv(prm, pc', pending', w.unsubmitted, w.metas, w.files)
  {
    var b, b' := pc.b, pc'.b;
    forall j | Outstanding(b', j) ensures HasPieces(prm, b'.stages[j]) {
      assert Outstanding(b, j);
    }
    forall j | Outstanding(b', j) && Untouched(pending', w.unsubmitted, b'.works[j].path)
      ensures ObservationHolds(prm, b'.works[j], b'.stages[j], w.metas, w.files)
    {
      assert Outstanding(b, j) && Untouched(pending, w.unsubmitted, b.works[j].path);
    }
  }

  lemma QuietFinish(prm: Params, w: World, w': World, p: Path)
    requires QuietInv(prm, w) && w.st.attached && w'.st.attached && !BeforeAttach(w'.pc)
    requires w'.metas == w.metas && w'.files == w.files && w'.intent == w.intent && w'.unsubmitted == w.unsubmitted
    requires forall q :: q != p ==>
      && (q in w'.st.pending <==> q in w.st.pending) && (q in w'.st.inflight <==> q in w.st.inflight)
      && (q in w'.origin <==> q in w.origin) && (q in w.origin && q in w'.origin ==> w'.origin[q] == w.origin[q])
    requires Quiet(w', p) ==> Agrees(prm, w', p)
    ensures QuietInv(prm, w')
  {
    forall q | Quiet(w', q) ensures Agrees(prm, w', q) {
      if q != p {
        assert Quiet(w, q) && Agrees(prm, w, q);
      }
    }
  }

  lemma ReconciliationSupersede(st: RState, p: Path, settledOnce: set<Path>, initial: set<Path>, publishable: bool)
    requires ReconciliationInv(st, settledOnce, initial, publishable) && p in st.pending
    ensures ReconciliationInv(Supersede(st, p), settledOnce, initial, publishable)
  {
  }

  lemma ReconciliationSuccess(st: RState, p: Path, settledOnce: set<Path>, initial: set<Path>, publishable: bool)
    requires ReconciliationInv(st, settledOnce, initial, publishable) && st.attached
    ensures ReconciliationInv(FinishSuccess(st, p), settledOnce + {p}, initial, publishable)
    ensures ReconciliationInv(CommitSuccess(st, p), settledOnce + {p}, initial, publishable)
  {
  }

  lemma ReconciliationRetry(
    st: RState, work: Work, error: string, now: nat, settledOnce: set<Path>, initial: set<Path>, publishable: bool)
    requires ReconciliationInv(st, settledOnce, initial, publishable) && IsCurrent(st, work)
    ensures ReconciliationInv(RequeueFailure(st, work, error, now), settledOnce + {work.path}, initial, publishable)
  {
  }

  /** All parts of the invariant for a state in which item `i` has just left the batch. */
  lemma KeepsFinish(prm: Params, w: World, w': World)
    requires Inv(prm, w) && InBatch(w.pc) && InBatch(w'.pc)
    requires w' == w.(st := w'.st, store := w'.store, dirty := w'.dirty, pc := w'.pc, settledOnce := w'.settledOnce,
                      origin := w'.origin)
    requires w'.st.attached
    requires GenerationInv(w'.st.pending, w'.st.inflight, w'.st.nextGeneration, w'.latest, w'.intent)
    requires ReconciliationInv(w'.st, w'.settledOnce, w'.initial, w'.cachePublishable)
    requires WorkInv(w'.pc, w'.st.pending, w'.st.inflight, w'.intent, w'.live)
    requires ObservationInv(prm, w'.pc, w'.st.pending, w'.unsubmitted, w'.metas, w'.files)
    requires StagesInv(w'.pc) && VectorInv(prm, w'.pc)
    requires ComputedFrom(prm, w'.store.entries, w'.origin) && QuietInv(prm, w') && CacheInv(prm, w'.synced, w'.dirty, w'.disk, w'.store)
    ensures Inv(prm, w')
  {
  }

  // ----- leaving by being superseded, by failing, by shutdown -----

  lemma ItemOnItsWay(prm: Params, w: World, i: nat)
    requires Inv(prm, w) && InBatch(w.pc) && Outstanding(w.pc.b, i)
    ensures OnItsWay(w.pc.b.works[i], w.st.pending, w.st.inflight, w.intent)
  {
  }

  lemma KeepsSupersede(prm: Params, w: World, i: nat, pc: Pc)
    requires Inv(prm, w) && InBatch(w.pc) && InBatch(pc) && Outstanding(w.pc.b, i) && !IsCurrent(w.st, w.pc.b.works[i])
    requires pc.b == Set(w.pc.b, i, Done) && StagesInv(pc) && VectorInv(prm, pc) && !pc.Reading?
    ensures Inv(prm, w.(st := Supersede(w.st, w.pc.b.works[i].path), pc := pc))
  {
    hide GenerationInv, StagesInv, WorkInv, ReconciliationInv, ComputedFrom, DiskComputedFrom, ObservationInv,
      QuietInv, VectorInv, CacheInv;
    var work := w.pc.b.works[i];
    var w' := w.(st := Supersede(w.st, work.path), pc := pc);
    BatchFacts(prm, w);
    ItemOnItsWay(prm, w, i);
    SupersededIsPending(w.st, work, w.intent);
    GenerationDrop(w.st.pending, w.st.inflight, w.st.nextGeneration, w.latest, w.intent, work.path);
    WorkFinish(w.pc, pc, i, w.st.pending, w.st.pending, w.st.inflight, w.intent, w.live);
    ObservationFinish(prm, w.pc, pc, i, w.st.pending, w.st.pending, w);
    ReconciliationSupersede(w.st, work.path, w.settledOnce, w.initial, w.cachePublishable);
    QuietFinish(prm, w, w', work.path);
    KeepsFinish(prm, w, w');
  }

  lemma KeepsDeadItem(prm: Params, w: World, i: nat, pc: Pc)
    requires Inv(prm, w) && InBatch(w.pc) && InBatch(pc) && Outstanding(w.pc.b, i) && !w.live
    requires pc.b == Set(w.pc.b, i, Done) && StagesInv(pc) && VectorInv(prm, pc) && !pc.Reading?
    ensures Inv(prm, w.(pc := pc))
  {
    BatchFacts(prm, w);
    WorkFinish(w.pc, pc, i, w.st.pending, w.st.pending, w.st.inflight, w.intent, w.live);
    ObservationFinish(prm, w.pc, pc, i, w.st.pending, w.st.pending, w);
    KeepsStep(prm, w, pc);
  }

  lemma KeepsRetry(prm: Params, w: World, i: nat, error: string, now: nat, pc: Pc)
    requires Inv(prm, w) && InBatch(w.pc) && InBatch(pc) && Outstanding(w.pc.b, i) && IsCurrent(w.st, w.pc.b.works[i])
    requires pc.b == Set(w.pc.b, i, Done) && StagesInv(pc) && VectorInv(prm, pc) && !pc.Reading?
    ensures Inv(prm, Settle(w.(st := RequeueFailure(w.st, w.pc.b.works[i], error, now)), w.pc.b.works[i].path).(pc := pc))
  {
    hide GenerationInv, StagesInv, WorkInv, ReconciliationInv, ComputedFrom, DiskComputedFrom, ObservationInv,
      QuietInv, VectorInv, CacheInv;
    var work := w.pc.b.works[i];
    var st' := RequeueFailure(w.st, work, error, now);
    var w' := Settle(w.(st := st'), work.path).(pc := pc);
    BatchFacts(prm, w);
    ItemOnItsWay(prm, w, i);
    CurrentIsNotPending(w.st, work, w.latest, w.intent);
    GenerationRetry(w.st.pending, w.st.inflight, w.st.nextGeneration, w.latest, w.intent, work, now);
    WorkFinish(w.pc, pc, i, w.st.pending, st'.pending, w.st.inflight, w.intent, w.live);
    ObservationFinish(prm, w.pc, pc, i, w.st.pending, st'.pending, w);
    ReconciliationRetry(w.st, work, error, now, w.settledOnce, w.initial, w.cachePublishable);
    QuietFinish(prm, w, w', work.path);
    KeepsFinish(prm, w, w');
  }

  lemma RequeueShape(w: World, work: Work, error: string, now: nat, pc: Pc)
    ensures Requeue(w, work, error, now).(pc := pc) ==
            if IsCurrent(w.st, work) then
              Settle(w.(st := RequeueFailure(w.st, work, error, now)), work.path).(pc := pc)
            else w.(st := Supersede(w.st, work.path), pc := pc)
  {
  }

  lemma KeepsRequeue(prm: Params, w: World, i: nat, error: string, now: nat, pc: Pc)
    requires Inv(prm, w) && InBatch(w.pc) && InBatch(pc) && Outstanding(w.pc.b, i)
    requires pc.b == Set(w.pc.b, i, Done) && StagesInv(pc) && VectorInv(prm, pc) && !pc.Reading?
    ensures Inv(prm, Requeue(w, w.pc.b.works[i], error, now).(pc := pc))
  {
    hide Inv;
    RequeueShape(w, w.pc.b.works[i], error, now, pc);
    if IsCurrent(w.st, w.pc.b.works[i]) {
      KeepsRetry(prm, w, i, error, now, pc);
    } else {
      KeepsSupersede(prm, w, i, pc);
    }
  }

  // ----- leaving by success -----

  ghost predicate SameOriginElsewhere(origin: map<Path, Origin>, origin': map<Path, Origin>, p: Path) {
    forall q :: q != p ==>
      (q in origin' <==> q in origin) && (q in origin && q in origin' ==> origin'[q] == origin[q])
  }

  lemma KeepsSuccess(prm: Params, w: World, w': World, i: nat)
    requires Inv(prm, w) && InBatch(w.pc) && InBatch(w'.pc) && Outstanding(w.pc.b, i)
    requires IsCurrent(w.st, w.pc.b.works[i])
    requires w'.st == FinishSuccess(w.st, w.pc.b.works[i].path) || w'.st == CommitSuccess(w.st, w.pc.b.works[i].path)
    requires w' == w.(st := w'.st, store := w'.store, dirty := w'.dirty, pc := w'.pc, origin := w'.origin,
                      settledOnce := w.settledOnce + {w.pc.b.works[i].path})
    requires w'.pc.b == Set(w.pc.b, i, Done) && StagesInv(w'.pc) && VectorInv(prm, w'.pc) && !w'.pc.Reading?
    requires SameOriginElsewhere(w.origin, w'.origin, w.pc.b.works[i].path)
    requires ComputedFrom(prm, w'.store.entries, w'.origin) && CacheInv(prm, w'.synced, w'.dirty, w'.disk, w'.store)
    requires w.pc.b.works[i].path !in w.unsubmitted ==> Agrees(prm, w', w.pc.b.works[i].path)
    ensures Inv(prm, w')
  {
    hide GenerationInv, StagesInv, WorkInv, ReconciliationInv, ComputedFrom, DiskComputedFrom, ObservationInv,
      QuietInv, VectorInv, CacheInv;
    var p := w.pc.b.works[i].path;
    BatchFacts(prm, w);
    GenerationDrop(w.st.pending, w.st.inflight, w.st.nextGeneration, w.latest, w.intent, p);
    WorkFinish(w.pc, w'.pc, i, w.st.pending, w.st.pending, w.st.inflight, w.intent, w.live);
    ObservationFinish(prm, w.pc, w'.pc, i, w.st.pending, w.st.pending, w);
    ReconciliationSuccess(w.st, p, w.settledOnce, w.initial, w.cachePublishable);
    QuietFinish(prm, w, w', p);
    KeepsFinish(prm, w, w');
  }

  /** What is known of a current, outstanding item whose note was not edited since. */
  lemma CurrentObserved(prm: Params, w: World, i: nat)
    requires Inv(prm, w) && InBatch(w.pc) && Outstanding(w.pc.b, i) && IsCurrent(w.st, w.pc.b.works[i])
    ensures var work := w.pc.b.works[i];
            && work.path in w.intent && work.kind == w.intent[work.path]
            && (work.path !in w.unsubmitted ==> ObservationHolds(prm, work, w.pc.b.stages[i], w.metas, w.files))
            && HasPieces(prm, w.pc.b.stages[i])
  {
    var work := w.pc.b.works[i];
    assert OnItsWay(work, w.st.pending, w.st.inflight, w.intent);
    CurrentIsNotPending(w.st, work, w.latest, w.intent);
  }

  lemma RemovedComputed(prm: Params, entries: Entries, origin: map<Path, Origin>, p: Path)
    requires ComputedFrom(prm, entries, origin)
    ensures ComputedFrom(prm, RemoveNote(entries, p), Drop(origin, p))
  {
    RemoveNoteOwnership(entries, p);
    forall q ensures EntriesOf(RemoveNote(entries, p), q) == RowsFrom(prm, Drop(origin, p), q) {
      assert EntriesOf(entries, q) == RowsFrom(prm, origin, q);
    }
  }

  lemma RewrittenComputed(
    prm: Params, entries: Entries, origin: map<Path, Origin>, p: Path, headings: seq<string>, body: string)
    requires ComputedFrom(prm, entries, origin) && prm.pieces(body) != []
    ensures ComputedFrom(prm, RemoveNote(entries, p) + Fresh(prm, p, headings, body), origin[p := Origin(headings, body)])
  {
    var vectors := EmbedAll(prm, PreparedTexts(prm, p, headings, body));
    var entries', origin' := RemoveNote(entries, p) + Fresh(prm, p, headings, body), origin[p := Origin(headings, body)];
    RowsOwnership(entries, p, ContentHash(prm, p, body), vectors);
    forall q ensures EntriesOf(entries', q) == RowsFrom(prm, origin', q) {
      assert EntriesOf(entries, q) == RowsFrom(prm, origin, q);
    }
  }

  /** The probe on chunk 0 decides for the whole note. */
  lemma ProbeMeansSameBody(prm: Params, store: Store, origin: map<Path, Origin>, p: Path, body: string)
    requires ComputedFrom(prm, store.entries, origin)
    ensures Unchanged(prm, store, p, body) <==> p in origin && origin[p].body == body
  {
    assert EntriesOf(store.entries, p) == RowsFrom(prm, origin, p);
    if p in origin {
      FreshProbe(prm, p, origin[p].headings, origin[p].body);
      var e := EntriesOf(store.entries, p);
      assert ChunkKey(p, 0) in e;
      if Unchanged(prm, store, p, body) {
        ContentHashInjective(prm, p, body, origin[p].body);
      }
    } else {
      assert ChunkKey(p, 0) !in EntriesOf(store.entries, p);
    }
  }

  lemma KeepsCommitRemove(prm: Params, w: World, i: nat, pc: Pc)
    requires Inv(prm, w) && InBatch(w.pc) && InBatch(pc) && Outstanding(w.pc.b, i) && w.pc.b.stages[i].ToRemove?
    requires IsCurrent(w.st, w.pc.b.works[i]) && w.live
    requires pc.b == Set(w.pc.b, i, Done) && StagesInv(pc) && VectorInv(prm, pc) && !pc.Reading?
    ensures Inv(prm, CommitRemove(w, w.pc.b.works[i]).(pc := pc))
  {
    hide GenerationInv, StagesInv, WorkInv, ReconciliationInv, ComputedFrom, DiskComputedFrom, ObservationInv,
      QuietInv, VectorInv, Fresh, RemoveNote, CommitSuccess, FinishSuccess;
    var work := w.pc.b.works[i];
    CurrentObserved(prm, w, i);
    RemovedComputed(prm, w.store.entries, w.origin, work.path);
    KeepsSuccess(prm, w, CommitRemove(w, work).(pc := pc), i);
  }

  lemma KeepsMarkUnchanged(prm: Params, w: World, i: nat, pc: Pc)
    requires Inv(prm, w) && InBatch(w.pc) && InBatch(pc) && Outstanding(w.pc.b, i) && w.pc.b.stages[i].Prepared?
    requires IsCurrent(w.st, w.pc.b.works[i])
    requires Unchanged(prm, w.store, w.pc.b.works[i].path, w.pc.b.stages[i].body)
    requires pc.b == Set(w.pc.b, i, Done) && StagesInv(pc) && VectorInv(prm, pc) && !pc.Reading?
    ensures Inv(prm, MarkUnchanged(w, w.pc.b.works[i]).(pc := pc))
  {
    hide GenerationInv, StagesInv, WorkInv, ReconciliationInv, ComputedFrom, DiskComputedFrom, ObservationInv,
      QuietInv, VectorInv, Unchanged, FinishSuccess;
    var work := w.pc.b.works[i];
    CurrentObserved(prm, w, i);
    ProbeMeansSameBody(prm, w.store, w.origin, work.path, w.pc.b.stages[i].body);
    KeepsSuccess(prm, w, MarkUnchanged(w, work).(pc := pc), i);
  }

  lemma ChangedObserves(prm: Params, w: World, i: nat, pc: Pc)
    requires w.pc.Settling? && pc.Settling? && WellShaped(w.pc.b) && i < |w.pc.b.works| && w.pc.b.stages[i].Prepared?
    requires pc.b == Set(w.pc.b, i, Changed(w.pc.b.stages[i].headings, w.pc.b.stages[i].body))
    requires ObservationInv(prm, w.pc, w.st.pending, w.unsubmitted, w.metas, w.files)
    ensures ObservationInv(prm, pc, w.st.pending, w.unsubmitted, w.metas, w.files)
    ensures forall j :: Outstanding(pc.b, j) <==> Outstanding(w.pc.b, j)
  {
    forall j | Outstanding(pc.b, j) ensures HasPieces(prm, pc.b.stages[j]) {
      assert Outstanding(w.pc.b, j);
      assert HasPieces(prm, w.pc.b.stages[j]);
    }
    forall j | Outstanding(pc.b, j) && Untouched(w.st.pending, w.unsubmitted, pc.b.works[j].path)
      ensures ObservationHolds(prm, pc.b.works[j], pc.b.stages[j], w.metas, w.files)
    {
      assert Outstanding(w.pc.b, j);
      assert ObservationHolds(prm, w.pc.b.works[j], w.pc.b.stages[j], w.metas, w.files);
    }
  }

  lemma KeepsMarkChanged(prm: Params, w: World, i: nat, pc: Pc)
    requires Inv(prm, w) && w.pc.Settling? && pc.Settling? && WellShaped(w.pc.b) && i < |w.pc.b.works|
    requires w.pc.b.stages[i].Prepared? && StagesInv(pc) && VectorInv(prm, pc)
    requires pc.b == Set(w.pc.b, i, Changed(w.pc.b.stages[i].headings, w.pc.b.stages[i].body))
    ensures Inv(prm, w.(pc := pc))
  {
    ChangedObserves(prm, w, i, pc);
    KeepsReadNext(prm, w, pc);
  }

  // ----- committing vectors -----

  lemma {:induction false} FlatTextsFrame(prm: Params, b: Batch, b': Batch, i: nat)
    requires WellShaped(b) && b'.works == b.works && |b'.stages| == |b.stages|
    requires forall j :: i <= j < |b.stages| ==> b'.stages[j] == b.stages[j]
    ensures FlatTexts(prm, b', i) == FlatTexts(prm, b, i)
    decreases |b.works| - i
  {
    if i < |b.works| {
      FlatTextsFrame(prm, b, b', i + 1);
    }
  }

  /** The next slice of vectors is exactly the embedding of the next changed note's own texts. */
  lemma NextSlice(prm: Params, b: Batch, i: nat, cursor: nat, vectors: seq<Vector>)
    requires WellShaped(b) && i < |b.works| && b.stages[i].Changed?
    requires cursor <= |vectors| && vectors[cursor..] == EmbedAll(prm, FlatTexts(prm, b, i))
    ensures var next := cursor + |prm.pieces(b.stages[i].body)| + 1;
            && next <= |vectors|
            && vectors[cursor..next] == EmbedAll(prm, PreparedTexts(prm, b.works[i].path, b.stages[i].headings, b.stages[i].body))
            && vectors[next..] == EmbedAll(prm, FlatTexts(prm, b, i + 1))
  {
    var own := PreparedTexts(prm, b.works[i].path, b.stages[i].headings, b.stages[i].body);
    var rest := FlatTexts(prm, b, i + 1);
    var next := cursor + |own|;
    assert FlatTexts(prm, b, i) == own + rest;
    assert |vectors[cursor..]| == |own| + |rest|;
    forall k | 0 <= k < |own| ensures vectors[cursor..next][k] == EmbedAll(prm, own)[k] {
      assert vectors[cursor..][k] == EmbedAll(prm, own + rest)[k];
    }
    forall k | 0 <= k < |rest| ensures vectors[next..][k] == EmbedAll(prm, rest)[k] {
      assert vectors[cursor..][|own| + k] == EmbedAll(prm, own + rest)[|own| + k];
    }
    assert vectors[cursor..next] == EmbedAll(prm, own);
    assert vectors[next..] == EmbedAll(prm, rest);
  }

  /** Committing the right vectors is all or nothing, decided by the two dimensions alone. */
  lemma CommitRowsResult(prm: Params, w: World, work: Work, headings: seq<string>, body: string, vectors: seq<Vector>)
    requires prm.pieces(body) != []
    requires vectors == EmbedAll(prm, PreparedTexts(prm, work.path, headings, body))
    ensures var p := work.path;
            CommitRows(prm, w, work, headings, body, vectors) ==
            if prm.modelDim == prm.storeDim then
              (w.(store := w.store.(entries := RemoveNote(w.store.entries, p) + Fresh(prm, p, headings, body)),
                  dirty := true,
                  origin := w.origin[p := Origin(headings, body)],
                  st := CommitSuccess(w.st, p),
                  settledOnce := w.settledOnce + {p}), true)
            else
              (w.(store := w.store.(entries := RemoveNote(w.store.entries, p)), origin := Drop(w.origin, p)), false)
  {
    RewriteNote(
      w.store.entries, work.path, ContentHash(prm, work.path, body), vectors, prm.modelDim, prm.storeDim);
  }

  lemma KeepsCommitOk(prm: Params, w: World, i: nat, pc: Pc)
    requires Inv(prm, w) && w.pc.Committing? && InBatch(pc) && Outstanding(w.pc.b, i) && w.pc.b.stages[i].Changed?
    requires IsCurrent(w.st, w.pc.b.works[i])
    requires pc.b == Set(w.pc.b, i, Done) && StagesInv(pc) && VectorInv(prm, pc) && !pc.Reading?
    ensures var p, headings, body := w.pc.b.works[i].path, w.pc.b.stages[i].headings, w.pc.b.stages[i].body;
            Inv(prm, w.(store := w.store.(entries := RemoveNote(w.store.entries, p) + Fresh(prm, p, headings, body)),
                        dirty := true, origin := w.origin[p := Origin(headings, body)],
                        st := CommitSuccess(w.st, p), settledOnce := w.settledOnce + {p}, pc := pc))
  {
    hide GenerationInv, StagesInv, WorkInv, ReconciliationInv, ComputedFrom, DiskComputedFrom, ObservationInv,
      QuietInv, VectorInv, Fresh, RemoveNote, CommitSuccess, FinishSuccess;
    var p, headings, body := w.pc.b.works[i].path, w.pc.b.stages[i].headings, w.pc.b.stages[i].body;
    CurrentObserved(prm, w, i);
    RewrittenComputed(prm, w.store.entries, w.origin, p, headings, body);
    KeepsSuccess(
      prm, w,
      w.(store := w.store.(entries := RemoveNote(w.store.entries, p) + Fresh(prm, p, headings, body)),
         dirty := true, origin := w.origin[p := Origin(headings, body)],
         st := CommitSuccess(w.st, p), settledOnce := w.settledOnce + {p}, pc := pc), i);
  }

  /** A refused insertion leaves the note removed; the item is still in flight. */
  lemma KeepsCommitRefused(prm: Params, w: World, i: nat, pc: Pc)
    requires Inv(prm, w) && w.pc.Committing? && Outstanding(w.pc.b, i) && prm.modelDim != prm.storeDim
    requires pc.CommitFailing? && pc.b == w.pc.b && StagesInv(pc) && VectorInv(prm, pc)
    ensures var p := w.pc.b.works[i].path;
            Inv(prm, w.(store := w.store.(entries := RemoveNote(w.store.entries, p)), origin := Drop(w.origin, p), pc := pc))
  {
    hide GenerationInv, StagesInv, WorkInv, ReconciliationInv, ComputedFrom, DiskComputedFrom, ObservationInv,
      QuietInv, VectorInv, CacheInv;
    var p := w.pc.b.works[i].path;
    var w' := w.(store := w.store.(entries := RemoveNote(w.store.entries, p)), origin := Drop(w.origin, p), pc := pc);
    BatchFacts(prm, w);
    ItemOnItsWay(prm, w, i);
    RemovedComputed(prm, w.store.entries, w.origin, p);
    WorkSame(w.pc, pc, w.st.pending, w.st.inflight, w.intent, w.live);
    SameBatchObserves(prm, w.pc, pc, w);
    QuietFinish(prm, w, w', p);
    KeepsFinish(prm, w, w');
  }

  // ----- where each loop stands -----

  lemma SettlingMoves(prm: Params, b: Batch, i: nat, stage: Stage)
    requires StagesInv(Settling(b, i)) && i < |b.stages| && Settled(stage)
    ensures StagesInv(Settling(Set(b, i, stage), i + 1)) && VectorInv(prm, Settling(Set(b, i, stage), i + 1))
  {
  }

  lemma RequeueingMoves(prm: Params, b: Batch, i: nat, error: string)
    requires StagesInv(Requeueing(b, i, error)) && i < |b.stages|
    ensures var pc := Requeueing(Set(b, i, Done), i + 1, error); StagesInv(pc) && VectorInv(prm, pc)
    ensures b.stages[i].Done? ==> StagesInv(Requeueing(b, i + 1, error)) && VectorInv(prm, Requeueing(b, i + 1, error))
  {
  }

  lemma CommittingMoves(prm: Params, b: Batch, i: nat, next: nat, vectors: seq<Vector>)
    requires StagesInv(Committing(b, i, next, vectors)) && i < |b.stages| && WellShaped(b)
    requires next <= |vectors| && vectors[next..] == EmbedAll(prm, FlatTexts(prm, b, i + 1))
    ensures var pc := Committing(Set(b, i, Done), i + 1, next, vectors); StagesInv(pc) && VectorInv(prm, pc)
  {
    FlatTextsFrame(prm, b, Set(b, i, Done), i + 1);
  }

  /** When a loop has passed every item of its batch, nothing is left in flight of a live runtime. */
  lemma BatchFinished(prm: Params, w: World)
    requires Inv(prm, w) && InBatch(w.pc) && w.live
    requires forall j :: 0 <= j < |w.pc.b.stages| ==> w.pc.b.stages[j].Done?
    ensures w.st.inflight == map[]
  {
    assert forall i :: !Outstanding(w.pc.b, i);
    assert forall p :: p !in w.st.inflight;
  }
}
