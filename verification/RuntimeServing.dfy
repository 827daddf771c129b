/**
 * When the runtime serves queries: exactly which steps end the first pass, open the store and mark it for writing,
 * and what follows for every state of every run.
 */
module RuntimeServing {
  import opened Common
  import opened EmbeddingStore
  import opened RuntimeState
  import opened RuntimeWorld
  import opened RuntimeInvariant
  import opened RuntimeProofs
  import opened RuntimeBatchProofs
  import opened RuntimeSteps
  import opened RuntimeRuns
  import opened RuntimeEffects
  import opened RuntimeTheorems
  import opened RuntimeProgress

  // ----- the steps that matter -----

  /** This step ends the first pass: it has started, has not ended yet, and waits for no note any more. */
  predicate Completes(w: World, step: Step) {
    step.FinalizePass? && w.live && w.st.attached && !w.st.reconciliationComplete && w.st.initialRemaining == {}
  }

  /** The coordinator is at an unfinished item that nothing newer is pending for, under a live runtime. */
  predicate AtCurrent(w: World, i: nat) {
    && w.live && InBatch(w.pc) && Outstanding(w.pc.b, i)
    && w.pc.b.works[i].path !in w.st.pending
    && w.pc.b.works[i].path in w.st.inflight && w.st.inflight[w.pc.b.works[i].path] == w.pc.b.works[i].generation
  }

  /** The rows of a changed note are about to be replaced, and the store takes them. */
  predicate Commits(prm: Params, w: World) {
    w.pc.Committing? && AtCurrent(w, w.pc.i) && w.pc.b.stages[w.pc.i].Changed? && prm.modelDim == prm.storeDim
  }

  /** A note is about to be removed that has rows. */
  predicate RemovesRows(w: World) {
    && w.pc.Settling? && AtCurrent(w, w.pc.i) && w.pc.b.stages[w.pc.i].ToRemove?
    && EntriesOf(w.store.entries, w.pc.b.works[w.pc.i].path) != map[]
  }

  /** This step opens the store to queries, if it is not open yet. */
  predicate Opens(prm: Params, w: World, step: Step) {
    || (step.AttachStore? && w.pc.Attaching? && w.cachePublishable && (w.pc.paths == {} || w.store.entries != map[]))
    || (Completes(w, step) && (w.metas == map[] || w.store.entries != map[]))
    || (step.CommitNext? && w.st.reconciliationComplete && Commits(prm, w))
  }

  /** Some row on disk belongs to a note that is gone. */
  ghost predicate HasStrayRow(disk: Option<Store>, paths: set<Path>) {
    disk.Some? && exists key :: key in disk.value.entries && key.note !in paths
  }

  /** Whether the store has to be written after this step. */
  ghost predicate DirtyAfter(prm: Params, w: World, step: Step) {
    match step
    case PersistOk => false
    case LoadCache(accepted) =>
      if w.live && w.pc.Loaded? then accepted && HasStrayRow(w.disk, w.pc.paths) else w.dirty
    case FinalizePass => w.dirty || (Completes(w, step) && !w.store.firstPassComplete)
    case SettleNext(_) => w.dirty || RemovesRows(w)
    case CommitNext(_, _) => w.dirty || Commits(prm, w)
    case _ => w.dirty
  }

  // ----- what decides about serving -----

  datatype Gates = Gates(attached: bool, complete: bool, queryable: bool, dirty: bool, marked: bool, publishable: bool)

  function GatesOf(w: World): Gates {
    Gates(w.st.attached, w.st.reconciliationComplete, w.st.storeQueryable, w.dirty, w.store.firstPassComplete,
          w.cachePublishable)
  }

  /** Nothing changes, except that the store may have become empty or need writing. */
  predicate NoNewRows(w: World, w': World) {
    GatesOf(w') == GatesOf(w).(dirty := w'.dirty) && (w.store.entries == map[] ==> w'.store.entries == map[])
  }

  lemma StartedIsAttached(prm: Params, w: World)
    requires Inv(prm, w)
    ensures w.st.initialStarted == w.st.attached
    ensures w.st.reconciliationComplete ==> w.st.attached
    ensures w.st.storeQueryable ==> w.st.attached
    ensures BeforeAttach(w.pc) ==> !w.st.attached
  {
    assert ReconciliationInv(w.st, w.settledOnce, w.initial, w.cachePublishable);
    assert AttachInv(w.pc, w.st.attached);
  }

  lemma PersistGates(prm: Params, w: World)
    requires Enabled(w, PersistOk)
    ensures NoNewRows(w, Apply(prm, w, PersistOk)) && !Apply(prm, w, PersistOk).dirty
  {
  }

  lemma IncidentalGates(w: World, w': World)
    requires Incidental(w, w')
    ensures NoNewRows(w, w') && w'.dirty == w.dirty
  {
  }

  lemma OnlyPcGates(w: World, w': World)
    requires OnlyPc(w, w')
    ensures NoNewRows(w, w') && w'.dirty == w.dirty
  {
  }

  lemma MoveGates(prm: Params, w: World, step: Step)
    requires Enabled(w, step) && Moves(step) && !step.FinalizePass?
    ensures NoNewRows(w, Apply(prm, w, step)) && (Apply(prm, w, step).dirty <==> DirtyAfter(prm, w, step))
  {
    hide NoNewRows, Incidental, OnlyPc, DoReadFile;
    if step.PersistOk? {
      PersistGates(prm, w);
    } else if step.ReadFile? {
      ReadIsOnlyPc(prm, w, step.error);
      OnlyPcGates(w, DoReadFile(prm, w, step.error));
    } else {
      IncidentalMove(prm, w, step);
      hide Apply, Enabled;
      IncidentalGates(w, Apply(prm, w, step));
    }
  }

  lemma FinalizeGates(w: World, w': World)
    requires w.st.initialStarted == w.st.attached && w' == DoFinalize(w)
    ensures GatesOf(w') == GatesOf(w).(
              complete := w.st.reconciliationComplete || Completes(w, FinalizePass),
              queryable := w.st.storeQueryable ||
                           (Completes(w, FinalizePass) && (w.metas == map[] || w.store.entries != map[])),
              dirty := w.dirty || (Completes(w, FinalizePass) && !w.store.firstPassComplete),
              marked := w.store.firstPassComplete || Completes(w, FinalizePass))
    ensures w'.store.entries == w.store.entries
  {
    if w.live && ReadyToFinalize(w.st) {
      assert w'.st == w.st.(reconciliationComplete := true, storeQueryable := w.st.storeQueryable || MayServe(w));
    } else {
      assert w' == w.(pc := Refreshing);
    }
  }

  lemma SubmitGates(w: World, p: Path, kind: Kind, now: nat, w': World)
    requires w'.store == w.store && w'.dirty == w.dirty && w'.cachePublishable == w.cachePublishable
    requires w'.st == Submit(w.st, p, kind, now)
    ensures NoNewRows(w, w')
  {
    hide PendingStatus;
  }

  lemma TakeGates(w: World, batch: seq<Work>, w': World)
    requires w'.store == w.store && w'.dirty == w.dirty && w'.cachePublishable == w.cachePublishable
    requires DistinctPaths(batch) && w'.st == TakeBatch(w.st, batch)
    ensures NoNewRows(w, w')
  {
    TakeKeepsGates(w.st, batch);
    hide TakeBatch, DistinctPaths;
  }

  lemma TakeIs(prm: Params, w: World, batch: seq<Work>, now: nat, w': World)
    requires Enabled(w, Take(batch, now)) && w' == Apply(prm, w, Take(batch, now))
    ensures w' == w.(st := TakeBatch(w.st, batch), pc := w'.pc) && DistinctPaths(batch)
  {
    BatchOnce(w.st, now, batch);
    hide IsBatch, TakeBatch, DistinctPaths;
    if batch == [] {
      assert w'.pc == MayPersist;
    } else {
      assert w'.pc.Snapshotting?;
    }
  }

  lemma BatchOnce(st: RState, now: nat, batch: seq<Work>)
    requires IsBatch(st, now, batch)
    ensures DistinctPaths(batch)
  {
  }

  /** What loading the cache leaves: the rows on disk of the notes that still exist, and what the cache claimed. */
  lemma LoadKeeps(w: World, accepted: bool)
    requires w.pc.Loaded? && (accepted ==> w.disk.Some?) && w.live
    ensures var w' := DoLoadCache(w, accepted);
            && (forall key :: key in w'.store.entries <==>
                  accepted && key.note in w.pc.paths && key in w.disk.value.entries)
            && (forall key :: key in w'.store.entries ==> w'.store.entries[key] == w.disk.value.entries[key])
            && (w'.dirty <==> accepted && HasStrayRow(w.disk, w.pc.paths))
            && (w'.cachePublishable <==> accepted && w.disk.value.firstPassComplete)
            && (w'.store.firstPassComplete <==> w'.cachePublishable)
            && w'.st == w.st && w'.pc == Attaching(w.pc.paths)
  {
    if accepted {
      var entries := w.disk.value.entries;
      if HasStrayRow(w.disk, w.pc.paths) {
        var key :| key in entries && key.note !in w.pc.paths;
        assert key !in RetainPaths(entries, w.pc.paths);
      } else {
        assert RetainPaths(entries, w.pc.paths) == entries;
      }
    } else {
      assert RetainPaths(map[], w.pc.paths) == map[];
    }
  }

  /** A loader that finds the runtime stopped loads nothing. */
  lemma LoadRefused(w: World, accepted: bool)
    requires w.pc.Loaded? && (accepted ==> w.disk.Some?) && !w.live
    ensures DoLoadCache(w, accepted) == w.(pc := Stopped)
  {
  }

  lemma AttachGates(w: World, order: seq<Path>, now: nat, w': World)
    requires w.pc.Attaching? && IsAttachOrder(w.st, w.pc.paths, order) && w' == DoAttach(w, order, now)
    ensures GatesOf(w') == GatesOf(w).(
              attached := true,
              queryable := w.cachePublishable && (w.pc.paths == {} || w.store.entries != map[]))
    ensures w'.store == w.store
  {
    var servable := w.cachePublishable && (w.pc.paths == {} || w.store.entries != map[]);
    var st' := Attach(w.st, w.pc.paths, servable, order, now);
    AttachHasShape(w.st, w.pc.paths, servable, order, now);
    AttachedGates(w.st, st', w.pc.paths, servable, order);
    hide Attach, IsAttachOrder, AttachedLatest, AttachedIntent, AttachShape;
    assert w' == w.(st := st', initial := w'.initial, latest := w'.latest, intent := w'.intent, pc := w'.pc);
  }

  lemma AttachedGates(st: RState, st': RState, paths: set<Path>, servable: bool, order: seq<Path>)
    requires AttachShape(st, st', paths, servable, order)
    ensures st'.attached && st'.storeQueryable == servable && st'.reconciliationComplete == st.reconciliationComplete
  {
  }

  // ----- steps that handle an item -----

  lemma CurrentMeans(w: World, i: nat)
    requires w.live && InBatch(w.pc) && Outstanding(w.pc.b, i)
    requires OnItsWay(w.pc.b.works[i], w.st.pending, w.st.inflight, w.intent)
    requires w.pc.b.works[i].path in w.st.pending ==>
               w.st.pending[w.pc.b.works[i].path].generation != w.pc.b.works[i].generation
    ensures AtCurrent(w, i) <==> IsCurrent(w.st, w.pc.b.works[i])
  {
  }

  lemma ItemIsCurrent(prm: Params, w: World, i: nat)
    requires Inv(prm, w) && InBatch(w.pc) && Outstanding(w.pc.b, i)
    ensures AtCurrent(w, i) <==> w.live && IsCurrent(w.st, w.pc.b.works[i])
  {
    assert GenerationInv(w.st.pending, w.st.inflight, w.st.nextGeneration, w.latest, w.intent);
    assert WorkInv(w.pc, w.st.pending, w.st.inflight, w.intent, w.live);
    assert OnItsWay(w.pc.b.works[i], w.st.pending, w.st.inflight, w.intent);
    hide Inv;
    if w.live {
      CurrentMeans(w, i);
    }
  }

  predicate SameGates(st: RState, st': RState) {
    && st'.attached == st.attached && st'.reconciliationComplete == st.reconciliationComplete
    && st'.storeQueryable == st.storeQueryable
  }

  lemma FinishKeeps(st: RState, p: Path)
    ensures SameGates(st, RuntimeState.FinishSuccess(st, p)) && SameGates(st, Supersede(st, p))
  {
    hide PendingStatus, Drop;
  }

  lemma CommitOpens(st: RState, p: Path, st': RState)
    requires st' == CommitSuccess(st, p)
    ensures st'.attached == st.attached && st'.reconciliationComplete == st.reconciliationComplete
    ensures st'.storeQueryable <==> st.storeQueryable || st.reconciliationComplete
  {
    hide PendingStatus, Drop;
  }

  lemma RetryKeeps(st: RState, work: Work, error: string, now: nat)
    ensures SameGates(st, RequeueFailure(st, work, error, now))
  {
    hide PendingStatus, Drop, Retry, IsCurrent;
  }

  lemma RequeueGates(w: World, work: Work, error: string, now: nat, pc: Pc, w': World)
    requires w' == Requeue(w, work, error, now).(pc := pc)
    ensures NoNewRows(w, w') && w'.dirty == w.dirty
  {
    RetryKeeps(w.st, work, error, now);
    hide RequeueFailure, IsCurrent;
    if IsCurrent(w.st, work) {
      assert w'.st == RequeueFailure(w.st, work, error, now);
    } else {
      assert w'.st == RequeueFailure(w.st, work, error, now);
    }
  }

  lemma RemoveGates(w: World, work: Work, pc: Pc, w': World)
    requires w' == CommitRemove(w, work).(pc := pc)
    ensures NoNewRows(w, w')
    ensures w'.dirty <==>
              w.dirty || (w.live && IsCurrent(w.st, work) && EntriesOf(w.store.entries, work.path) != map[])
  {
    FinishKeeps(w.st, work.path);
    RemoveNoteOwnership(w.store.entries, work.path);
    hide FinishSuccess, Supersede, IsCurrent, EntriesOf;
    if w.live && IsCurrent(w.st, work) {
      assert w'.st == FinishSuccess(w.st, work.path);
    } else if w.live {
      assert w'.st == Supersede(w.st, work.path);
    }
  }

  lemma UnchangedGates(w: World, work: Work, pc: Pc, w': World)
    requires w' == MarkUnchanged(w, work).(pc := pc)
    ensures NoNewRows(w, w') && w'.dirty == w.dirty
  {
    FinishKeeps(w.st, work.path);
    hide FinishSuccess, Supersede, IsCurrent;
    if IsCurrent(w.st, work) {
      assert w'.st == FinishSuccess(w.st, work.path);
    } else {
      assert w'.st == Supersede(w.st, work.path);
    }
  }

  lemma SettleGates(prm: Params, w: World, now: nat, w': World)
    requires Inv(prm, w) && w.pc.Settling? && WellShaped(w.pc.b) && w' == DoSettle(prm, w, now)
    ensures NoNewRows(w, w') && (w'.dirty <==> w.dirty || RemovesRows(w))
  {
    SettlePosition(prm, w);
    if w.pc.i < |w.pc.b.works| {
      ItemIsCurrent(prm, w, w.pc.i);
      hide Inv;
      SettleItemGates(prm, w, now, w');
    } else {
      hide Inv, NoNewRows;
      assert OnlyPc(w, w');
      OnlyPcGates(w, w');
    }
  }

  lemma SettleItemGates(prm: Params, w: World, now: nat, w': World)
    requires w.pc.Settling? && WellShaped(w.pc.b) && w.pc.i < |w.pc.b.works| && w' == DoSettle(prm, w, now)
    requires HasRead(w.pc.b.stages[w.pc.i])
    requires AtCurrent(w, w.pc.i) <==> w.live && IsCurrent(w.st, w.pc.b.works[w.pc.i])
    ensures NoNewRows(w, w') && (w'.dirty <==> w.dirty || RemovesRows(w))
  {
    SettleCases(prm, w, now);
    hide DoSettle, NoNewRows, AtCurrent, IsCurrent, CommitRemove, Requeue, MarkUnchanged, Unchanged;
    var b, i := w.pc.b, w.pc.i;
    var work, done, stage := b.works[i], Settling(Set(b, i, Done), i + 1), b.stages[i];
    if stage.ToRemove? {
      RemoveGates(w, work, done, w');
    } else if stage.Unreadable? {
      RequeueGates(w, work, stage.error, now, done, w');
    } else if Unchanged(prm, w.store, work.path, stage.body) {
      UnchangedGates(w, work, done, w');
    } else {
      OnlyPcGates(w, w');
    }
  }

  lemma CommittedGates(prm: Params, w: World, error: string, next: nat, w': World)
    requires w.pc.Committing? && WellShaped(w.pc.b) && w.pc.i < |w.pc.b.works| && w.pc.b.stages[w.pc.i].Changed?
    requires w' == Committed(prm, w, error, next) && Commits(prm, w) && IsCurrent(w.st, w.pc.b.works[w.pc.i])
    ensures OpenedByCommit(w, w')
  {
    CommitOpens(w.st, w.pc.b.works[w.pc.i].path, CommitSuccess(w.st, w.pc.b.works[w.pc.i].path));
    hide CommitSuccess, IsCurrent, Fresh, RemoveNote;
    assert w'.st == CommitSuccess(w.st, w.pc.b.works[w.pc.i].path);
  }

  predicate OpenedByCommit(w: World, w': World) {
    GatesOf(w') == GatesOf(w).(dirty := true, queryable := w.st.storeQueryable || w.st.reconciliationComplete)
  }

  lemma SupersededGates(prm: Params, w: World, error: string, next: nat, w': World)
    requires w.pc.Committing? && WellShaped(w.pc.b) && w.pc.i < |w.pc.b.works| && w.pc.b.stages[w.pc.i].Changed?
    requires w' == Committed(prm, w, error, next) && !(w.live && IsCurrent(w.st, w.pc.b.works[w.pc.i]))
    ensures NoNewRows(w, w') && w'.dirty == w.dirty
  {
    FinishKeeps(w.st, w.pc.b.works[w.pc.i].path);
    hide CommitSuccess, FinishSuccess, Supersede, IsCurrent, Fresh, Set;
    if !w.live {
      assert w'.st == w.st;
    } else {
      assert w'.st == Supersede(w.st, w.pc.b.works[w.pc.i].path);
    }
  }

  lemma RefusedGates(prm: Params, w: World, error: string, next: nat, w': World)
    requires w.pc.Committing? && WellShaped(w.pc.b) && w.pc.i < |w.pc.b.works| && w.pc.b.stages[w.pc.i].Changed?
    requires w' == Committed(prm, w, error, next) && w.live && IsCurrent(w.st, w.pc.b.works[w.pc.i])
    requires prm.modelDim != prm.storeDim
    ensures NoNewRows(w, w') && w'.dirty == w.dirty
  {
    hide CommitSuccess, Supersede, IsCurrent, Fresh, Set;
    var p := w.pc.b.works[w.pc.i].path;
    assert w'.store == w.store.(entries := RemoveNote(w.store.entries, p));
    assert w'.st == w.st;
  }

  lemma SkippedGates(prm: Params, w: World, error: string, now: nat, w': World)
    requires w.pc.Committing? && WellShaped(w.pc.b) && w' == DoCommit(prm, w, error, now)
    requires w.pc.i >= |w.pc.b.works| || !w.pc.b.stages[w.pc.i].Changed?
    ensures !Commits(prm, w) && NoNewRows(w, w') && w'.dirty == w.dirty
  {
    hide CommitRows, NoNewRows, Requeue;
    if w.pc.i >= |w.pc.b.works| {
      assert w' == w.(pc := Finalizing);
    } else {
      assert w' == w.(pc := Committing(w.pc.b, w.pc.i + 1, w.pc.cursor, w.pc.vectors));
    }
    OnlyPcGates(w, w');
  }

  lemma CommitGates(prm: Params, w: World, error: string, now: nat, w': World)
    requires Inv(prm, w) && w.pc.Committing? && WellShaped(w.pc.b) && w' == DoCommit(prm, w, error, now)
    ensures Commits(prm, w) ==> OpenedByCommit(w, w')
    ensures !Commits(prm, w) ==> NoNewRows(w, w') && w'.dirty == w.dirty
  {
    CommitPosition(prm, w);
    if w.pc.i < |w.pc.b.works| && w.pc.b.stages[w.pc.i].Changed? {
      ItemIsCurrent(prm, w, w.pc.i);
      CommitCases(prm, w, error, now);
      hide Inv, VectorInv, DoCommit, NoNewRows, AtCurrent, IsCurrent, Committed, OpenedByCommit;
      var next := w.pc.cursor + |prm.pieces(w.pc.b.stages[w.pc.i].body)| + 1;
      if Commits(prm, w) {
        CommittedGates(prm, w, error, next, w');
      } else if w.live && IsCurrent(w.st, w.pc.b.works[w.pc.i]) {
        RefusedGates(prm, w, error, next, w');
      } else {
        SupersededGates(prm, w, error, next, w');
      }
    } else {
      hide Inv;
      SkippedGates(prm, w, error, now, w');
    }
  }

  lemma FailedGates(w: World, now: nat, w': World)
    requires w.pc.CommitFailing? && WellShaped(w.pc.b) && w.pc.i < |w.pc.b.works| && w' == DoFailedCommit(w, now)
    ensures NoNewRows(w, w') && w'.dirty == w.dirty
  {
    FailedCommitShape(w, now);
    hide DoFailedCommit, NoNewRows, Requeue, Set;
    var pc := Committing(Set(w.pc.b, w.pc.i, Done), w.pc.i + 1, w.pc.cursor, w.pc.vectors);
    assert w' == Requeue(w, w.pc.b.works[w.pc.i], w.pc.error, now).(pc := pc);
    RequeueGates(w, w.pc.b.works[w.pc.i], w.pc.error, now, pc, w');
  }

  lemma NoneRequeued(w: World, now: nat, w': World)
    requires w.pc.Requeueing? && WellShaped(w.pc.b) && w' == DoRequeue(w, now)
    requires w.pc.i >= |w.pc.b.works| || w.pc.b.stages[w.pc.i].Done?
    ensures OnlyPc(w, w')
  {
    hide Requeue, Set;
    if w.pc.i >= |w.pc.b.works| {
      assert w' == w.(pc := Finalizing);
    } else {
      assert w' == w.(pc := Requeueing(w.pc.b, w.pc.i + 1, w.pc.error));
    }
  }

  lemma OneRequeued(w: World, now: nat, pc: Pc, w': World)
    requires w.pc.Requeueing? && WellShaped(w.pc.b) && w' == DoRequeue(w, now)
    requires w.pc.i < |w.pc.b.works| && !w.pc.b.stages[w.pc.i].Done?
    requires pc == Requeueing(Set(w.pc.b, w.pc.i, Done), w.pc.i + 1, w.pc.error)
    ensures w' == Requeue(w, w.pc.b.works[w.pc.i], w.pc.error, now).(pc := pc)
  {
    hide Requeue, Set;
  }

  lemma AllRequeuedGates(w: World, now: nat, w': World)
    requires w.pc.Requeueing? && WellShaped(w.pc.b) && w' == DoRequeue(w, now)
    ensures NoNewRows(w, w') && w'.dirty == w.dirty
  {
    hide NoNewRows, Requeue, Set, DoRequeue, OnlyPc;
    if w.pc.i >= |w.pc.b.works| || w.pc.b.stages[w.pc.i].Done? {
      NoneRequeued(w, now, w');
      OnlyPcGates(w, w');
    } else {
      var pc := Requeueing(Set(w.pc.b, w.pc.i, Done), w.pc.i + 1, w.pc.error);
      OneRequeued(w, now, pc, w');
      RequeueGates(w, w.pc.b.works[w.pc.i], w.pc.error, now, pc, w');
    }
  }

  // ----- any step -----

  /**
   * What one step does, exactly: the first pass ends, the store opens and the store is marked for writing in the
   * steps named above and in no other.
   */
  ghost predicate ServesAsSaid(prm: Params, w: World, step: Step, w': World) {
    && (w'.st.reconciliationComplete <==> w.st.reconciliationComplete || Completes(w, step))
    && (w'.st.storeQueryable <==> w.st.storeQueryable || Opens(prm, w, step))
    && (w'.dirty <==> DirtyAfter(prm, w, step))
    && (if step.LoadCache? && w.live then w'.store.firstPassComplete == w'.cachePublishable
        else (w'.store.firstPassComplete <==> w.store.firstPassComplete || Completes(w, step)) &&
             w'.cachePublishable == w.cachePublishable)
    && (w'.store.entries != map[] ==>
          w.store.entries != map[] || step.LoadCache? || (step.CommitNext? && Commits(prm, w)))
  }

  lemma QuietStepServes(prm: Params, w: World, step: Step, w': World)
    requires NoNewRows(w, w') && (w'.dirty <==> DirtyAfter(prm, w, step))
    requires !step.FinalizePass? && !step.AttachStore? && !step.LoadCache? && (step.CommitNext? ==> !Commits(prm, w))
    ensures ServesAsSaid(prm, w, step, w')
  {
    hide DirtyAfter, Commits;
  }

  lemma LoadServes(prm: Params, w: World, accepted: bool, w': World)
    requires Inv(prm, w) && Enabled(w, LoadCache(accepted)) && w' == DoLoadCache(w, accepted)
    ensures ServesAsSaid(prm, w, LoadCache(accepted), w')
  {
    StartedIsAttached(prm, w);
    hide Inv;
    if w.live {
      LoadKeeps(w, accepted);
    } else {
      LoadRefused(w, accepted);
    }
    hide DoLoadCache;
  }

  lemma AttachServes(prm: Params, w: World, order: seq<Path>, now: nat, w': World)
    requires Inv(prm, w) && Enabled(w, AttachStore(order, now)) && w' == DoAttach(w, order, now)
    ensures ServesAsSaid(prm, w, AttachStore(order, now), w')
  {
    StartedIsAttached(prm, w);
    AttachGates(w, order, now, w');
    hide Inv, DoAttach, IsAttachOrder;
  }

  lemma QueueServes(prm: Params, w: World, step: Step, w': World)
    requires Inv(prm, w) && Enabled(w, step) && OnQueue(step) && w' == Apply(prm, w, step)
    ensures ServesAsSaid(prm, w, step, w')
  {
    hide Inv, Submit, TakeBatch, IsBatch, IsAttachOrder, DoAttach, DoLoadCache, NoNewRows, ServesAsSaid;
    match step
    case SubmitIntent(p, kind, now) =>
      SubmitGates(w, p, kind, now, w');
      QuietStepServes(prm, w, step, w');
    case Take(batch, now) =>
      TakeIs(prm, w, batch, now, w');
      TakeGates(w, batch, w');
      QuietStepServes(prm, w, step, w');
    case LoadCache(accepted) => LoadServes(prm, w, accepted, w');
    case AttachStore(order, now) => AttachServes(prm, w, order, now, w');
  }

  lemma HandlingServes(prm: Params, w: World, step: Step, w': World)
    requires Inv(prm, w) && Enabled(w, step) && !Moves(step) && !OnQueue(step) && w' == Apply(prm, w, step)
    ensures ServesAsSaid(prm, w, step, w')
  {
    hide Inv, DoSettle, DoCommit, DoFailedCommit, DoRequeue, NoNewRows, Commits, RemovesRows, ServesAsSaid;
    match step
    case SettleNext(now) =>
      SettleGates(prm, w, now, w');
      QuietStepServes(prm, w, step, w');
    case RequeueFailedCommit(now) =>
      FailedGates(w, now, w');
      QuietStepServes(prm, w, step, w');
    case RequeueNext(now) =>
      AllRequeuedGates(w, now, w');
      QuietStepServes(prm, w, step, w');
    case CommitNext(error, now) =>
      CommitServes(prm, w, error, now, w');
  }

  lemma CommitStepServes(prm: Params, w: World, step: Step, w': World)
    requires step.CommitNext? && Commits(prm, w) && OpenedByCommit(w, w')
    ensures ServesAsSaid(prm, w, step, w')
  {
    hide Commits;
  }

  lemma CommitServes(prm: Params, w: World, error: string, now: nat, w': World)
    requires Inv(prm, w) && w.pc.Committing? && WellShaped(w.pc.b) && w' == DoCommit(prm, w, error, now)
    ensures ServesAsSaid(prm, w, CommitNext(error, now), w')
  {
    CommitGates(prm, w, error, now, w');
    hide Inv, DoCommit, ServesAsSaid, NoNewRows, Commits, OpenedByCommit;
    if Commits(prm, w) {
      CommitStepServes(prm, w, CommitNext(error, now), w');
    } else {
      QuietStepServes(prm, w, CommitNext(error, now), w');
    }
  }

  lemma StepServes(prm: Params, w: World, step: Step)
    requires Inv(prm, w) && Enabled(w, step)
    ensures ServesAsSaid(prm, w, step, Apply(prm, w, step))
  {
    hide Inv, Apply, Enabled, ServesAsSaid, NoNewRows;
    if step.FinalizePass? {
      FinalizeServes(prm, w);
    } else if Moves(step) {
      MoveGates(prm, w, step);
      QuietStepServes(prm, w, step, Apply(prm, w, step));
    } else if OnQueue(step) {
      QueueServes(prm, w, step, Apply(prm, w, step));
    } else {
      HandlingServes(prm, w, step, Apply(prm, w, step));
    }
  }

  lemma FinalizeServes(prm: Params, w: World)
    requires Inv(prm, w) && Enabled(w, FinalizePass)
    ensures ServesAsSaid(prm, w, FinalizePass, Apply(prm, w, FinalizePass))
  {
    StartedIsAttached(prm, w);
    hide Inv, DoFinalize;
    FinalizeGates(w, DoFinalize(w));
  }

  // ----- at rest -----

  /** The coordinator is past finalizing and has no batch in hand. */
  predicate Resting(pc: Pc) {
    pc.Refreshing? || pc.MayPersist? || pc.LoopTop? || pc.Taking?
  }

  /** The coordinator stays at rest, and comes to rest only by finalizing. */
  lemma QueueRests(prm: Params, w: World, step: Step)
    requires Inv(prm, w) && Enabled(w, step) && OnQueue(step) && Resting(Apply(prm, w, step).pc)
    ensures Resting(w.pc) && Apply(prm, w, step).st.initialRemaining == w.st.initialRemaining
  {
    hide Inv, Submit, TakeBatch, IsBatch, IsAttachOrder, Attach;
    match step
    case SubmitIntent(p, kind, now) => SubmitRemaining(w.st, p, kind, now);
    case Take(batch, now) =>
      TakeIs(prm, w, batch, now, Apply(prm, w, step));
      TakeKeepsGates(w.st, batch);
    case LoadCache(_) =>
    case AttachStore(_, _) =>
  }

  lemma SubmitRemaining(st: RState, p: Path, kind: Kind, now: nat)
    ensures Submit(st, p, kind, now).initialRemaining == st.initialRemaining
  {
    hide PendingStatus;
  }

  lemma MoveRests(prm: Params, w: World, step: Step)
    requires Enabled(w, step) && Moves(step) && !step.FinalizePass? && !InBatch(w.pc) && Resting(Apply(prm, w, step).pc)
    ensures Resting(w.pc) && Apply(prm, w, step).st.initialRemaining == w.st.initialRemaining
  {
    MovesUntroubled(prm, w, step);
    MovePc(prm, w, step, Apply(prm, w, step));
    hide Apply, Enabled;
  }

  lemma ReportPc(prm: Params, w: World, step: Step)
    requires Enabled(w, step)
    requires step.Refresh? || step.PersistOk? || step.PersistFails? || step.SkipPersist? || step.CheckLive?
    ensures Resting(w.pc)
  {
    hide PicksFailure;
  }

  lemma LoaderFailsPc(prm: Params, w: World, error: string)
    requires w.pc.Loading?
    ensures Apply(prm, w, LoaderFails(error)).pc == Stopped
  {
  }

  lemma LoaderSucceedsPc(prm: Params, w: World)
    requires w.pc.Loading?
    ensures Apply(prm, w, LoaderSucceeds).pc == if w.live then Loaded(w.metas.Keys) else Stopped
  {
  }

  lemma RefusedPc(prm: Params, w: World)
    requires Enabled(w, PersistRefused)
    ensures Apply(prm, w, PersistRefused).pc == Stopped
  {
  }

  lemma TurnPc(prm: Params, w: World, step: Step, w': World)
    requires Enabled(w, step) && w' == Apply(prm, w, step)
    requires step.LoaderFails? || step.LoaderSucceeds? || step.PersistRefused?
    ensures !Resting(w'.pc)
  {
    assert step.PersistRefused? || w.pc.Loading?;
    hide Apply, Enabled;
    match step
    case LoaderFails(error) => LoaderFailsPc(prm, w, error);
    case LoaderSucceeds => LoaderSucceedsPc(prm, w);
    case PersistRefused => RefusedPc(prm, w);
  }

  lemma StoppedIsNoRest()
    ensures !Resting(Stopped)
  {
  }

  lemma MovePc(prm: Params, w: World, step: Step, w': World)
    requires Enabled(w, step) && Moves(step) && !step.FinalizePass? && w' == Apply(prm, w, step)
    requires !InBatch(w.pc) && Resting(w'.pc)
    ensures Resting(w.pc)
  {
    NotInBatch(w, step);
    hide Apply, Enabled, Resting;
    if !Own(step) {
      ProducersLeavePc(prm, w, step, w');
      StoppedIsNoRest();
    } else if step.LoaderFails? || step.LoaderSucceeds? || step.PersistRefused? {
      TurnPc(prm, w, step, w');
    } else {
      ReportPc(prm, w, step);
    }
  }

  lemma NotInBatch(w: World, step: Step)
    requires Enabled(w, step) && !InBatch(w.pc)
    ensures !step.ReadMetadata? && !step.PreparationFails? && !step.ReadFile? && !step.EmbedOk? && !step.EmbedFails?
    ensures Moves(step) || OnQueue(step)
  {
    hide IsBatch, IsAttachOrder, PicksFailure;
  }

  lemma StepRests(prm: Params, w: World, step: Step)
    requires Inv(prm, w) && Enabled(w, step) && !step.FinalizePass? && Resting(Apply(prm, w, step).pc)
    ensures Resting(w.pc) && Apply(prm, w, step).st.initialRemaining == w.st.initialRemaining
  {
    hide Inv, Apply, Enabled, Resting, Own, GoesOn;
    var w' := Apply(prm, w, step);
    if InBatch(w.pc) && Own(step) {
      OwnStepGoesOn(prm, w, step, w');
      GoingOnIsNoRest(w.pc, w'.pc);
    } else if InBatch(w.pc) {
      ProducersLeavePc(prm, w, step, w');
      BatchIsNoRest(w.pc);
    } else {
      NotInBatch(w, step);
      if Moves(step) {
        MoveRests(prm, w, step);
      } else {
        QueueRests(prm, w, step);
      }
    }
  }

  lemma GoingOnIsNoRest(pc: Pc, pc': Pc)
    requires GoesOn(pc, pc')
    ensures !Resting(pc')
  {
  }

  lemma BatchIsNoRest(pc: Pc)
    requires InBatch(pc)
    ensures !Resting(pc) && !Resting(Stopped)
  {
  }

  // ----- every state of every run -----

  /**
   * Rows are served once the first pass is over; the mark in the store says that a pass was completed, now or when
   * the cache was written; and a live runtime at rest that waits for no note has completed the first pass.
   */
  ghost predicate ServingInv(w: World) {
    && (w.st.reconciliationComplete && w.store.entries != map[] ==> w.st.storeQueryable)
    && (w.store.firstPassComplete <==> w.cachePublishable || w.st.reconciliationComplete)
    && (Resting(w.pc) && w.live && w.st.initialRemaining == {} ==> w.st.reconciliationComplete)
  }

  lemma InitServes(prm: Params, w: World)
    requires Init(prm, w)
    ensures ServingInv(w)
  {
  }

  lemma FinalizeRests(prm: Params, w: World)
    requires Inv(prm, w) && w.pc.Finalizing?
    ensures var w' := DoFinalize(w); w'.live && w'.st.initialRemaining == {} ==> w'.st.reconciliationComplete
  {
    StartedIsAttached(prm, w);
    assert AttachInv(w.pc, w.st.attached);
    hide Inv;
    if w.live && ReadyToFinalize(w.st) {
    } else {
    }
  }

  lemma StaysServed(prm: Params, w: World, step: Step, w': World)
    requires Inv(prm, w) && ServingInv(w) && ServesAsSaid(prm, w, step, w')
    requires step.LoadCache? ==> w.pc.Loaded?
    ensures w'.st.reconciliationComplete && w'.store.entries != map[] ==> w'.st.storeQueryable
  {
    StartedIsAttached(prm, w);
    hide Inv, DirtyAfter, Commits;
  }

  lemma StaysMarked(prm: Params, w: World, step: Step, w': World)
    requires Inv(prm, w) && ServingInv(w) && ServesAsSaid(prm, w, step, w')
    requires step.LoadCache? ==> w.pc.Loaded?
    ensures w'.store.firstPassComplete <==> w'.cachePublishable || w'.st.reconciliationComplete
  {
    StartedIsAttached(prm, w);
    hide Inv, DirtyAfter, Commits;
  }

  lemma StaysRested(prm: Params, w: World, step: Step, w': World)
    requires Inv(prm, w) && Enabled(w, step) && w' == Apply(prm, w, step) && ServingInv(w)
    requires (w'.live ==> w.live) && (w.st.reconciliationComplete ==> w'.st.reconciliationComplete)
    ensures Resting(w'.pc) && w'.live && w'.st.initialRemaining == {} ==> w'.st.reconciliationComplete
  {
    hide Inv, Enabled, Resting, Apply;
    if step.FinalizePass? {
      FinalizeIs(prm, w);
      FinalizeRests(prm, w);
    } else if Resting(w'.pc) {
      StepRests(prm, w, step);
    }
  }

  lemma FinalizeIs(prm: Params, w: World)
    requires Enabled(w, FinalizePass)
    ensures w.pc.Finalizing? && Apply(prm, w, FinalizePass) == DoFinalize(w)
  {
    hide DoFinalize;
  }

  lemma LoadingPc(w: World, step: Step)
    requires Enabled(w, step)
    ensures step.LoadCache? ==> w.pc.Loaded?
  {
  }

  lemma StepKeepsServing(prm: Params, w: World, step: Step)
    requires Inv(prm, w) && Enabled(w, step) && ServingInv(w)
    ensures ServingInv(Apply(prm, w, step))
  {
    StepServes(prm, w, step);
    StepAdvances(prm, w, step);
    LoadingPc(w, step);
    var w' := Apply(prm, w, step);
    StaysServed(prm, w, step, w');
    StaysMarked(prm, w, step, w');
    assert w'.live ==> w.live;
    hide Inv, Enabled, Apply, ServesAsSaid;
    StaysRested(prm, w, step, w');
  }

  lemma {:induction false} RunServes(prm: Params, states: seq<World>, steps: seq<Step>, k: nat)
    requires Run(prm, states, steps) && k < |states|
    ensures ServingInv(states[k])
  {
    hide Init, Inv, Apply, Enabled, ServingInv;
    if k == 0 {
      InitServes(prm, states[0]);
    } else {
      RunInv(prm, states, steps, k - 1);
      RunServes(prm, states, steps, k - 1);
      StepKeepsServing(prm, states[k - 1], steps[k - 1]);
    }
  }

  /** The first pass is over exactly if some step ended it, and the store is open exactly if some step opened it. */
  lemma {:induction false} ServedExactly(prm: Params, states: seq<World>, steps: seq<Step>, k: nat)
    requires Run(prm, states, steps) && k < |states|
    ensures states[k].st.reconciliationComplete <==> exists m :: 0 <= m < k && Completes(states[m], steps[m])
    ensures states[k].st.storeQueryable <==> exists m :: 0 <= m < k && Opens(prm, states[m], steps[m])
  {
    hide Inv, Apply, Enabled, Completes, Opens, DirtyAfter, Commits;
    if k == 0 {
      NotYetServed(prm, states[0]);
    } else {
      RunInv(prm, states, steps, k - 1);
      ServedExactly(prm, states, steps, k - 1);
      StepServes(prm, states[k - 1], steps[k - 1]);
    }
  }

  lemma NotYetServed(prm: Params, w: World)
    requires Init(prm, w)
    ensures !w.st.reconciliationComplete && !w.st.storeQueryable
  {
  }

  /** A live runtime at rest that waits for no note of the first pass answers queries as soon as it has any row. */
  lemma RestedRowsAreServed(prm: Params, states: seq<World>, steps: seq<Step>, k: nat)
    requires Run(prm, states, steps) && k < |states|
    requires states[k].live && Resting(states[k].pc) && states[k].st.initialRemaining == {}
    requires states[k].store.entries != map[]
    ensures states[k].st.storeQueryable && states[k].store.firstPassComplete
  {
    RunServes(prm, states, steps, k);
    hide Run, Resting;
  }

  /** A live runtime at rest that has worked off its queue has completed the first pass. */
  lemma DrainedIsComplete(prm: Params, states: seq<World>, steps: seq<Step>, k: nat)
    requires Run(prm, states, steps) && k < |states|
    requires states[k].live && Resting(states[k].pc) && states[k].st.pending == map[] && states[k].st.inflight == map[]
    ensures states[k].st.reconciliationComplete && states[k].store.firstPassComplete
    ensures states[k].store.entries != map[] ==> states[k].st.storeQueryable
  {
    RunServes(prm, states, steps, k);
    RunInv(prm, states, steps, k);
    var w := states[k];
    assert ReconciliationInv(w.st, w.settledOnce, w.initial, w.cachePublishable);
    hide Run, Inv, Resting;
  }
}
