/** Each step of the runtime preserves the invariant. */
module RuntimeProofs {
  import opened Common
  import opened EmbeddingStore
  import opened RuntimeState
  import opened RuntimeWorld
  import opened RuntimeInvariant

  // ----- steps that leave the queue and the notes alone -----

  lemma QuietFrame(prm: Params, w: World, w': World)
    requires QuietInv(prm, w)
    requires w'.st.pending == w.st.pending && w'.st.inflight == w.st.inflight && w'.st.attached == w.st.attached
    requires w'.metas == w.metas && w'.files == w.files && w'.intent == w.intent && w'.origin == w.origin
    requires w'.latest == w.latest && w'.unsubmitted == w.unsubmitted
    requires BeforeAttach(w'.pc) ==> w'.pc == w.pc
    ensures QuietInv(prm, w')
  {
    forall p | w'.st.attached && Quiet(w', p) ensures Agrees(prm, w', p) {
      assert Quiet(w, p) && Agrees(prm, w, p);
    }
  }

  /** Outside a batch the batch invariants ask only that nothing be in flight. */
  lemma NoBatch(prm: Params, w: World, pc: Pc)
    requires !InBatch(pc) && !BeforeAttach(pc)
    requires pc.Stopped? || (w.st.attached && (w.live || pc.Taking? ==> w.st.inflight == map[]))
    ensures StagesInv(pc) && VectorInv(prm, pc) && AttachInv(pc, w.st.attached)
    ensures WorkInv(pc, w.st.pending, w.st.inflight, w.intent, w.live)
    ensures ObservationInv(prm, pc, w.st.pending, w.unsubmitted, w.metas, w.files)
  {
  }

  lemma LessLive(pc: Pc, pending: map<Path, Work>, inflight: map<Path, nat>, intent: map<Path, Kind>, live: bool)
    requires WorkInv(pc, pending, inflight, intent, live)
    ensures WorkInv(pc, pending, inflight, intent, false)
  {
  }

  lemma ReconciliationFrame(st: RState, st': RState, settledOnce: set<Path>, initial: set<Path>, cachePublishable: bool)
    requires ReconciliationInv(st, settledOnce, initial, cachePublishable)
    requires st' == st.(status := st'.status, persistenceError := st'.persistenceError)
    ensures ReconciliationInv(st', settledOnce, initial, cachePublishable)
  {
  }

  lemma KeepsClearLive(prm: Params, w: World)
    requires Inv(prm, w)
    ensures Inv(prm, w.(live := false))
  {
    QuietFrame(prm, w, w.(live := false));
    LessLive(w.pc, w.st.pending, w.st.inflight, w.intent, w.live);
  }

  /** Moves of the coordinator that neither start nor end a batch. */
  lemma KeepsMove(prm: Params, w: World, pc: Pc)
    requires Inv(prm, w) && !InBatch(pc) && !BeforeAttach(pc)
    requires pc.Stopped? || (w.st.attached && (w.live || pc.Taking? ==> w.st.inflight == map[]))
    ensures Inv(prm, w.(pc := pc))
  {
    NoBatch(prm, w, pc);
    QuietFrame(prm, w, w.(pc := pc));
  }

  /** Moves that also touch what is only reported. */
  lemma KeepsReport(prm: Params, w: World, status: Status, persistenceError: Option<string>, pc: Pc)
    requires Inv(prm, w) && !InBatch(pc) && !BeforeAttach(pc)
    requires pc.Stopped? || (w.st.attached && !pc.Taking? && (w.live ==> w.st.inflight == map[]))
    ensures Inv(prm, w.(st := w.st.(status := status, persistenceError := persistenceError), pc := pc))
  {
    hide GenerationInv, StagesInv, WorkInv, ReconciliationInv, ComputedFrom, DiskComputedFrom, ObservationInv,
      QuietInv, VectorInv, CacheInv;
    var w' := w.(st := w.st.(status := status, persistenceError := persistenceError), pc := pc);
    NoBatch(prm, w', pc);
    QuietFrame(prm, w, w');
    ReconciliationFrame(w.st, w'.st, w.settledOnce, w.initial, w.cachePublishable);
  }

  lemma KeepsPersistOk(prm: Params, w: World)
    requires Inv(prm, w) && w.pc.Refreshing?
    ensures Inv(prm, w.(disk := Some(w.store), diskOrigin := w.origin, dirty := false, synced := true))
  {
    QuietFrame(prm, w, w.(disk := Some(w.store), diskOrigin := w.origin, dirty := false, synced := true));
  }

  lemma FinalizeReconciliation(st: RState, servable: bool, settledOnce: set<Path>, initial: set<Path>,
    publishable: bool)
    requires ReconciliationInv(st, settledOnce, initial, publishable)
    ensures ReconciliationInv(Finalize(st, servable), settledOnce, initial, publishable)
  {
  }

  lemma KeepsFinalize(prm: Params, w: World, servable: bool)
    requires Inv(prm, w) && w.pc.Refreshing?
    ensures Inv(prm, w.(
                  st := Finalize(w.st, servable),
                  dirty := w.dirty || !w.store.firstPassComplete,
                  store := w.store.(firstPassComplete := true)))
  {
    var w' := w.(
      st := Finalize(w.st, servable),
      dirty := w.dirty || !w.store.firstPassComplete,
      store := w.store.(firstPassComplete := true));
    FinalizeReconciliation(w.st, servable, w.settledOnce, w.initial, w.cachePublishable);
    QuietFrame(prm, w, w');
  }

  // ----- producers -----

  predicate SameNote(w: World, w': World, p: Path) {
    && (p in w'.metas <==> p in w.metas) && (p in w'.files <==> p in w.files)
    && (p in w.metas && p in w'.metas ==> w'.metas[p] == w.metas[p])
    && (p in w.files && p in w'.files ==> w'.files[p] == w.files[p])
  }

  lemma ObservationEdit(prm: Params, w: World, w': World, p0: Path)
    requires ObservationInv(prm, w.pc, w.st.pending, w.unsubmitted, w.metas, w.files)
    requires w'.unsubmitted == w.unsubmitted + {p0} && forall p :: p != p0 ==> SameNote(w, w', p)
    ensures ObservationInv(prm, w.pc, w.st.pending, w'.unsubmitted, w'.metas, w'.files)
  {
    if InBatch(w.pc) {
      var b := w.pc.b;
      forall i | Outstanding(b, i) && Untouched(w.st.pending, w'.unsubmitted, b.works[i].path)
        ensures ObservationHolds(prm, b.works[i], b.stages[i], w'.metas, w'.files)
        ensures w.pc.Reading? ==> SameMeta(w'.metas, w.pc.snap, b.works[i].path)
      {
        assert Untouched(w.st.pending, w.unsubmitted, b.works[i].path);
        assert SameNote(w, w', b.works[i].path);
        assert ObservationHolds(prm, b.works[i], b.stages[i], w.metas, w.files);
        assert w.pc.Reading? ==> SameMeta(w.metas, w.pc.snap, b.works[i].path);
      }
    }
  }

  lemma QuietEdit(prm: Params, w: World, w': World, p0: Path)
    requires QuietInv(prm, w)
    requires w'.st == w.st && w'.pc == w.pc && w'.latest == w.latest && w'.intent == w.intent && w'.origin == w.origin
    requires w'.unsubmitted == w.unsubmitted + {p0} && forall p :: p != p0 ==> SameNote(w, w', p)
    ensures QuietInv(prm, w')
  {
    forall p | w'.st.attached && Quiet(w', p) ensures Agrees(prm, w', p) {
      assert Quiet(w, p) && Agrees(prm, w, p) && SameNote(w, w', p);
    }
    forall p | (w'.pc.Loaded? || w'.pc.Attaching?) && Untouched(w'.st.pending, w'.unsubmitted, p)
      ensures p in w'.pc.paths <==> p in w'.metas
    {
      assert Untouched(w.st.pending, w.unsubmitted, p) && SameNote(w, w', p);
    }
  }

  lemma KeepsEdit(prm: Params, w: World, w': World, p: Path)
    requires Inv(prm, w)
    requires w' == w.(metas := w'.metas, files := w'.files, unsubmitted := w.unsubmitted + {p})
    requires forall q :: q != p ==> SameNote(w, w', q)
    ensures Inv(prm, w')
  {
    QuietEdit(prm, w, w', p);
    ObservationEdit(prm, w, w', p);
  }

  lemma EditTouchesOnly(w: World, p: Path, content: Option<string>, headings: Option<seq<string>>)
    ensures forall q :: q != p ==> SameNote(w, w.(files := Update(w.files, p, content), unsubmitted := w.unsubmitted + {p}), q)
    ensures forall q :: q != p ==> SameNote(w, w.(metas := Update(w.metas, p, headings), unsubmitted := w.unsubmitted + {p}), q)
  {
  }

  // ----- loading and attaching -----

  lemma Early(prm: Params, w: World, pc: Pc)
    requires BeforeAttach(pc) && !w.st.attached && w.st.inflight == map[]
    ensures StagesInv(pc) && VectorInv(prm, pc) && AttachInv(pc, w.st.attached)
    ensures WorkInv(pc, w.st.pending, w.st.inflight, w.intent, w.live)
    ensures ObservationInv(prm, pc, w.st.pending, w.unsubmitted, w.metas, w.files)
  {
  }

  lemma EarlyFacts(prm: Params, w: World)
    requires Inv(prm, w) && BeforeAttach(w.pc)
    ensures !w.st.attached && w.st.inflight == map[] && w.latest.Keys == w.st.pending.Keys
  {
  }

  lemma KeepsLoaderSucceeds(prm: Params, w: World)
    requires Inv(prm, w) && w.pc.Loading?
    ensures Inv(prm, w.(pc := Loaded(w.metas.Keys)))
  {
    EarlyFacts(prm, w);
    Early(prm, w, Loaded(w.metas.Keys));
    assert QuietInv(prm, w.(pc := Loaded(w.metas.Keys)));
  }

  lemma RetainedComputed(prm: Params, entries: Entries, origin: map<Path, Origin>, paths: set<Path>)
    requires ComputedFrom(prm, entries, origin)
    ensures ComputedFrom(prm, RetainPaths(entries, paths), map p | p in origin && p in paths :: origin[p])
  {
    var kept := map p | p in origin && p in paths :: origin[p];
    RetainPathsOwnership(entries, paths);
    forall p ensures EntriesOf(RetainPaths(entries, paths), p) == RowsFrom(prm, kept, p) {
      assert EntriesOf(entries, p) == RowsFrom(prm, origin, p);
    }
  }

  lemma EmptyComputed(prm: Params, paths: set<Path>)
    ensures ComputedFrom(prm, RetainPaths(map[], paths), map[])
  {
    assert RetainPaths(map[], paths) == map[];
    forall p ensures EntriesOf(map[], p) == RowsFrom(prm, map[], p) {
      assert EntriesOf(map[], p) == map[];
    }
  }

  lemma KeepsLoadedStore(prm: Params, w: World, w': World)
    requires Inv(prm, w) && w.pc.Loaded? && w'.pc == Attaching(w.pc.paths)
    requires w' == w.(store := w'.store, dirty := w'.dirty, synced := w'.synced,
                      cachePublishable := w'.cachePublishable, origin := w'.origin, pc := w'.pc)
    requires ComputedFrom(prm, w'.store.entries, w'.origin) && CacheInv(prm, w'.synced, w'.dirty, w'.disk, w'.store)
    requires w'.origin.Keys <= w.pc.paths
    ensures Inv(prm, w')
  {
    EarlyFacts(prm, w);
    Early(prm, w', w'.pc);
    assert QuietInv(prm, w');
    assert ReconciliationInv(w'.st, w'.settledOnce, w'.initial, w'.cachePublishable);
  }

  lemma KeepsLoadCache(prm: Params, w: World, accepted: bool)
    requires Inv(prm, w) && w.pc.Loaded? && (accepted ==> w.disk.Some?) && w.live
    ensures Inv(prm, DoLoadCache(w, accepted))
  {
    if accepted {
      RetainedComputed(prm, w.disk.value.entries, w.diskOrigin, w.pc.paths);
    } else {
      EmptyComputed(prm, w.pc.paths);
    }
    KeepsLoadedStore(prm, w, DoLoadCache(w, accepted));
  }

  lemma {:induction false} EnqueueAllAdds(st: RState, order: seq<Path>, now: nat)
    requires forall i, j :: 0 <= i < j < |order| ==> order[i] != order[j]
    requires forall p :: p in order ==> p !in st.pending
    ensures var st' := EnqueueAll(st, order, now);
            && st' == st.(pending := st'.pending, nextGeneration := st.nextGeneration + |order|)
            && (forall p :: p in st'.pending <==> p in st.pending || p in order)
            && (forall p :: p in st.pending ==> st'.pending[p] == st.pending[p])
            && (forall p :: p in order ==>
                  && st'.pending[p] == Work(p, st'.pending[p].generation, Upsert, 0, now)
                  && st.nextGeneration < st'.pending[p].generation <= st'.nextGeneration)
    decreases |order|
  {
    if |order| > 0 {
      var next := Enqueue(st, order[0], Upsert, now);
      assert forall i :: 0 <= i < |order[1..]| ==> order[1..][i] == order[i + 1];
      EnqueueAllAdds(next, order[1..], now);
      assert forall p :: p in order <==> p == order[0] || p in order[1..];
    }
  }

  ghost predicate AttachShape(st: RState, st': RState, paths: set<Path>, servable: bool, order: seq<Path>) {
    && st'.attached && st'.storeQueryable == servable && st'.initialStarted && st'.initialRemaining == paths
    && st'.inflight == st.inflight && st'.failures == st.failures
    && st'.reconciliationComplete == st.reconciliationComplete
    && st'.nextGeneration >= st.nextGeneration
    && (forall p :: p in st'.pending <==> p in st.pending || p in order)
    && (forall p :: p in st.pending ==> st'.pending[p] == st.pending[p])
    && (forall p :: p in order ==>
                      && st'.pending[p].path == p && st'.pending[p].kind.Upsert?
                      && st'.pending[p].generation <= st'.nextGeneration)
  }

  lemma AttachHasShape(st: RState, paths: set<Path>, servable: bool, order: seq<Path>, now: nat)
    requires IsAttachOrder(st, paths, order)
    ensures AttachShape(st, Attach(st, paths, servable, order, now), paths, servable, order)
  {
    EnqueueAllAdds(
      st.(attached := true, storeQueryable := servable, initialStarted := true, initialRemaining := paths), order, now);
  }

  lemma AttachKeys(st: RState, st': RState, paths: set<Path>, servable: bool, order: seq<Path>, latest: map<Path, nat>)
    requires IsAttachOrder(st, paths, order) && AttachShape(st, st', paths, servable, order)
    requires latest.Keys == st.pending.Keys
    ensures st'.pending.Keys == st.pending.Keys + paths
    ensures AttachedLatest(latest, order, st').Keys == st'.pending.Keys
  {
  }

  lemma AttachGenerations(
    st: RState, st': RState, paths: set<Path>, servable: bool, order: seq<Path>, latest: map<Path, nat>,
    intent: map<Path, Kind>)
    requires GenerationInv(st.pending, map[], st.nextGeneration, latest, intent)
    requires forall p :: p in order ==> p !in st.pending
    requires AttachShape(st, st', paths, servable, order)
    ensures GenerationInv(st'.pending, map[], st'.nextGeneration,
                          AttachedLatest(latest, order, st'), AttachedIntent(intent, order))
  {
  }

  lemma AttachReconciles(
    st: RState, st': RState, paths: set<Path>, servable: bool, order: seq<Path>, settledOnce: set<Path>,
    initial: set<Path>, publishable: bool)
    requires AttachShape(st, st', paths, servable, order) && (servable ==> publishable)
    requires st'.pending.Keys == st.pending.Keys + paths
    requires ReconciliationInv(st, settledOnce, initial, publishable) && !st.attached
    ensures ReconciliationInv(st', settledOnce, paths, publishable)
  {
  }

  lemma AttachQuiet(prm: Params, w: World, w': World)
    requires QuietInv(prm, w) && w.pc.Attaching? && w.intent.Keys == w.latest.Keys && w.st.inflight == map[]
    requires w'.pc.Finalizing? && w'.st.inflight == map[]
    requires w'.st.pending.Keys == w.st.pending.Keys + w.pc.paths && w'.latest.Keys == w'.st.pending.Keys
    requires w'.intent.Keys == w'.latest.Keys
    requires w'.metas == w.metas && w'.files == w.files && w'.origin == w.origin && w'.unsubmitted == w.unsubmitted
    ensures QuietInv(prm, w')
  {
    forall p | Quiet(w', p) ensures Agrees(prm, w', p) {
      assert Untouched(w.st.pending, w.unsubmitted, p);
    }
  }

  lemma KeepsAttachedWorld(prm: Params, w: World, w': World)
    requires Inv(prm, w) && w.pc.Attaching?
    requires w' == w.(st := w'.st, initial := w.pc.paths, latest := w'.latest, intent := w'.intent, pc := Finalizing)
    requires w'.st.inflight == map[] && w'.st.attached
    requires w'.st.pending.Keys == w.st.pending.Keys + w.pc.paths && w'.latest.Keys == w'.st.pending.Keys
    requires GenerationInv(w'.st.pending, map[], w'.st.nextGeneration, w'.latest, w'.intent)
    requires ReconciliationInv(w'.st, w'.settledOnce, w'.initial, w'.cachePublishable)
    ensures Inv(prm, w')
  {
    hide ReconciliationInv, ComputedFrom, DiskComputedFrom, CacheInv;
    EarlyFacts(prm, w);
    AttachQuiet(prm, w, w');
    NoBatch(prm, w', w'.pc);
  }

  lemma KeepsAttach(prm: Params, w: World, order: seq<Path>, now: nat)
    requires Inv(prm, w) && w.pc.Attaching? && IsAttachOrder(w.st, w.pc.paths, order)
    ensures Inv(prm, DoAttach(w, order, now))
  {
    hide GenerationInv, StagesInv, WorkInv, ReconciliationInv, ComputedFrom, DiskComputedFrom, ObservationInv,
      QuietInv, VectorInv, CacheInv, AttachShape;
    var servable := w.cachePublishable && (w.pc.paths == {} || w.store.entries != map[]);
    var st' := Attach(w.st, w.pc.paths, servable, order, now);
    EarlyFacts(prm, w);
    AttachHasShape(w.st, w.pc.paths, servable, order, now);
    AttachKeys(w.st, st', w.pc.paths, servable, order, w.latest);
    AttachGenerations(w.st, st', w.pc.paths, servable, order, w.latest, w.intent);
    AttachReconciles(
      w.st, st', w.pc.paths, servable, order, w.settledOnce, w.initial, w.cachePublishable);
    KeepsAttachedWorld(prm, w, DoAttach(w, order, now));
  }
}
