/** The guarantees of the embedding runtime, for every state of every run. */
module RuntimeGuarantees {
  import opened Common
  import opened EmbeddingStore
  import opened RuntimeState
  import opened RuntimeWorld
  import opened RuntimeInvariant
  import opened RuntimeProofs
  import opened RuntimeBatchProofs
  import opened RuntimeSteps
  import opened RuntimeRuns
  import opened RuntimeEffects
  import opened RuntimeTheorems

  // ----- a quiescent store agrees with the index -----

  /** Rows that a recomputation of `body` yields under some headings. */
  ghost predicate FreshRows(prm: Params, rows: Entries, p: Path, body: string) {
    if prm.pieces(body) == [] then rows == map[]
    else exists headings :: rows == Fresh(prm, p, headings, body)
  }

  ghost predicate AgreesWithIndex(prm: Params, w: World, p: Path) {
    var rows := EntriesOf(w.store.entries, p);
    if p in w.metas then p in w.files && FreshRows(prm, rows, p, w.files[p]) else rows == map[]
  }

  predicate RemovedLast(w: World, p: Path) {
    p in w.intent && w.intent[p].Remove?
  }

  /** The rows of `p` are exactly those of a recomputation under the note's present headings and body. */
  ghost predicate UpToDate(prm: Params, w: World, p: Path) {
    var rows := EntriesOf(w.store.entries, p);
    if p in w.metas then p in w.files && rows == Fresh(prm, p, w.metas[p], w.files[p]) else rows == map[]
  }

  /** An indexed note whose last submitted intent was a removal. */
  predicate RemovedTooLate(prm: Params, w: World, p: Path) {
    RemovedLast(w, p) && p in w.metas && (p !in w.files || prm.pieces(w.files[p]) != [])
  }

  /** The summary text does not tell the headings that the rows were computed under from the present ones. */
  predicate SummaryStands(prm: Params, w: World, p: Path) {
    p in w.metas && p in w.files && prm.pieces(w.files[p]) != [] ==>
      p in w.origin &&
      prm.summaryText(prm.title(p), w.origin[p].headings, w.files[p]) ==
      prm.summaryText(prm.title(p), w.metas[p], w.files[p])
  }

  lemma FreshIsComplete(prm: Params, p: Path, headings: seq<string>, body: string)
    requires prm.pieces(body) != []
    ensures Fresh(prm, p, headings, body) != map[]
    ensures FreshRows(prm, Fresh(prm, p, headings, body), p, body)
  {
    FreshProbe(prm, p, headings, body);
  }

  lemma QuietFacts(prm: Params, w: World, p: Path)
    requires Inv(prm, w) && w.st.attached && Quiet(w, p)
    ensures Agrees(prm, w, p) && EntriesOf(w.store.entries, p) == RowsFrom(prm, w.origin, p)
    ensures p in w.origin ==> prm.pieces(w.origin[p].body) != []
  {
  }

  /** A note that has been removed since, or is not indexed, has no rows. */
  lemma QuietRemovedHasNoRows(prm: Params, w: World, p: Path)
    requires Inv(prm, w) && w.st.attached && Quiet(w, p) && (RemovedLast(w, p) || p !in w.metas)
    ensures EntriesOf(w.store.entries, p) == map[]
  {
    QuietFacts(prm, w, p);
  }

  /**
   * A note without outstanding work or unsubmitted edits agrees with the index: its rows are those of a
   * recomputation of its current body. The one exception is a note that is indexed and has chunks although the
   * last intent submitted for it was a removal; the condition is exact.
   */
  lemma QuietAgreesWithIndex(prm: Params, w: World, p: Path)
    requires Inv(prm, w) && w.st.attached && Quiet(w, p)
    ensures AgreesWithIndex(prm, w, p) <==> !RemovedTooLate(prm, w, p)
  {
    QuietFacts(prm, w, p);
    hide Inv, Fresh;
    if p in w.origin {
      FreshIsComplete(prm, p, w.origin[p].headings, w.origin[p].body);
    }
    if RemovedLast(w, p) && p in w.metas && p in w.files && prm.pieces(w.files[p]) != [] {
      forall headings ensures Fresh(prm, p, headings, w.files[p]) != map[] {
        FreshIsComplete(prm, p, headings, w.files[p]);
      }
    }
  }

  /**
   * The rows equal the recomputation under the current headings too, exactly when the summary text does not tell
   * the recorded headings from the current ones: the content hash covers the body only.
   */
  lemma QuietHeadings(prm: Params, w: World, p: Path)
    requires Inv(prm, w) && w.st.attached && Quiet(w, p) && !RemovedLast(w, p)
    requires p in w.metas && p in w.files && prm.pieces(w.files[p]) != []
    ensures p in w.origin
    ensures EntriesOf(w.store.entries, p) == Fresh(prm, p, w.metas[p], w.files[p]) <==>
            prm.summaryText(prm.title(p), w.origin[p].headings, w.files[p]) ==
            prm.summaryText(prm.title(p), w.metas[p], w.files[p])
  {
    QuietFacts(prm, w, p);
    hide Inv, Fresh;
    FreshDependsOnSummary(prm, p, w.origin[p].headings, w.metas[p], w.files[p]);
  }

  /**
   * Asking for chunk 0 or the summary tells whether a note has any row, and its chunks are numbered densely from 0.
   */
  ghost predicate CompleteOrAbsent(entries: Entries, p: Path) {
    && (HasNote(entries, p) <==> EntriesOf(entries, p) != map[])
    && (ChunkKey(p, 0) in entries <==> SummaryKey(p) in entries)
    && (forall i: nat, j: nat :: i < j && ChunkKey(p, j) in entries ==> ChunkKey(p, i) in entries)
  }

  /** In every reachable state a note's rows are complete or absent. */
  lemma RowsAreCompleteOrAbsent(prm: Params, states: seq<World>, steps: seq<Step>, k: nat, p: Path)
    requires Run(prm, states, steps) && k < |states|
    ensures CompleteOrAbsent(states[k].store.entries, p)
  {
    RunInv(prm, states, steps, k);
    hide Run, CompleteOrAbsent;
    OwnKeys(prm, states[k], p);
    hide Inv, KeySet, EntriesOf;
    if p in states[k].origin {
      AllKeys(states[k].store.entries, p, |prm.pieces(states[k].origin[p].body)|);
    } else {
      NoKeys(states[k].store.entries, p);
    }
  }

  lemma OwnKeys(prm: Params, w: World, p: Path)
    requires Inv(prm, w)
    ensures p !in w.origin ==> EntriesOf(w.store.entries, p).Keys == {}
    ensures p in w.origin ==>
              prm.pieces(w.origin[p].body) != [] &&
              EntriesOf(w.store.entries, p).Keys == KeySet(p, |prm.pieces(w.origin[p].body)|)
  {
    assert ComputedFrom(prm, w.store.entries, w.origin);
    hide Inv;
    assert EntriesOf(w.store.entries, p) == RowsFrom(prm, w.origin, p);
    if p in w.origin {
      FreshKeys(prm, p, w.origin[p].headings, w.origin[p].body);
    }
  }

  lemma NoKeys(entries: Entries, p: Path)
    requires EntriesOf(entries, p).Keys == {}
    ensures CompleteOrAbsent(entries, p)
  {
    forall key | key in entries ensures key.note != p {
      assert key !in EntriesOf(entries, p).Keys;
    }
  }

  lemma AllKeys(entries: Entries, p: Path, chunks: nat)
    requires chunks > 0 && EntriesOf(entries, p).Keys == KeySet(p, chunks)
    ensures CompleteOrAbsent(entries, p)
  {
    assert SummaryKey(p) in KeySet(p, chunks);
    forall i: nat ensures ChunkKey(p, i) in entries <==> i < chunks {
      assert ChunkKey(p, i) in entries <==> ChunkKey(p, i) in EntriesOf(entries, p).Keys;
    }
  }

  lemma FreshKeys(prm: Params, p: Path, headings: seq<string>, body: string)
    requires prm.pieces(body) != []
    ensures Fresh(prm, p, headings, body).Keys == KeySet(p, |prm.pieces(body)|)
    ensures ChunkKey(p, 0) in KeySet(p, |prm.pieces(body)|)
  {
  }

  /** One note, headings included. */
  lemma QuietIsUpToDate(prm: Params, w: World, p: Path)
    requires Inv(prm, w) && w.st.attached && Quiet(w, p)
    ensures UpToDate(prm, w, p) <==> !RemovedTooLate(prm, w, p) && SummaryStands(prm, w, p)
  {
    QuietFacts(prm, w, p);
    hide Inv, Fresh;
    if p in w.metas && p in w.files {
      FreshIfPieces(prm, p, w.metas[p], w.files[p]);
      if prm.pieces(w.files[p]) != [] && !RemovedLast(w, p) {
        FreshDependsOnSummary(prm, p, w.origin[p].headings, w.metas[p], w.files[p]);
      }
    }
  }

  lemma FreshIfPieces(prm: Params, p: Path, headings: seq<string>, body: string)
    ensures Fresh(prm, p, headings, body) == map[] <==> prm.pieces(body) == []
  {
    if prm.pieces(body) != [] {
      FreshIsComplete(prm, p, headings, body);
    }
  }

  /**
   * The whole store, once everything is quiet: it agrees with the index exactly when no indexed note was removed too
   * late, and it is the recomputation of all notes under their present headings exactly when besides no summary is
   * out of date.
   */
  lemma QuiescentStore(prm: Params, states: seq<World>, steps: seq<Step>, k: nat)
    requires Run(prm, states, steps) && k < |states|
    requires states[k].st.attached
    requires states[k].st.pending == map[] && states[k].st.inflight == map[] && states[k].unsubmitted == {}
    ensures (forall p :: AgreesWithIndex(prm, states[k], p)) <==> (forall p :: !RemovedTooLate(prm, states[k], p))
    ensures (forall p :: UpToDate(prm, states[k], p)) <==>
            (forall p :: !RemovedTooLate(prm, states[k], p) && SummaryStands(prm, states[k], p))
  {
    RunInv(prm, states, steps, k);
    hide Run, Inv, AgreesWithIndex, UpToDate, RemovedTooLate, SummaryStands;
    forall p
      ensures AgreesWithIndex(prm, states[k], p) <==> !RemovedTooLate(prm, states[k], p)
      ensures UpToDate(prm, states[k], p) <==> !RemovedTooLate(prm, states[k], p) && SummaryStands(prm, states[k], p)
    {
      QuietAgreesWithIndex(prm, states[k], p);
      QuietIsUpToDate(prm, states[k], p);
    }
  }

  // ----- the last intent decides -----

  /**
   * At every step of every run after attaching: the rows of a note change only while the runtime lives and only when
   * its own item, carrying the last intent submitted for it, is being carried out.
   */
  lemma StoreFollowsLatestIntent(prm: Params, states: seq<World>, steps: seq<Step>, k: nat, p: Path)
    requires Run(prm, states, steps) && k < |steps| && states[k].st.attached
    ensures EntriesOf(states[k + 1].store.entries, p) == EntriesOf(states[k].store.entries, p) ||
            (states[k].live && AtLatest(states[k], p))
  {
    RunInv(prm, states, steps, k);
    hide Inv, Apply, Enabled, AtLatest, Init;
    RowsFollowLatestIntent(prm, states[k], steps[k], p);
  }

  /** At every step of every run: a pending intent is kept, or taken as it is, or replaced by a newer one. */
  lemma IntentsSurvive(prm: Params, states: seq<World>, steps: seq<Step>, k: nat, p: Path)
    requires Run(prm, states, steps) && k < |steps| && p in states[k].st.pending
    ensures FateOf(states[k].st, steps[k], states[k + 1].st, p) != Lost
  {
    RunInv(prm, states, steps, k);
    hide Inv, Apply, Enabled, FateOf, Init;
    PendingIntentKept(prm, states[k], steps[k], p);
  }

  /** Work in flight beside a pending intent is strictly older than it, and the pending intent is the last one. */
  lemma PendingIsNewest(prm: Params, states: seq<World>, steps: seq<Step>, k: nat, p: Path)
    requires Run(prm, states, steps) && k < |states| && p in states[k].st.pending
    ensures var w := states[k];
            && p in w.latest && p in w.intent && w.st.pending[p].generation == w.latest[p] && w.st.pending[p].kind == w.intent[p]
            && (p in w.st.inflight ==> w.st.inflight[p] < w.st.pending[p].generation)
  {
    RunInv(prm, states, steps, k);
    var w := states[k];
    assert GenerationInv(w.st.pending, w.st.inflight, w.st.nextGeneration, w.latest, w.intent);
  }

  // ----- the first pass -----

  /**
   * In this very step the latest intent for `p` left the in-flight table: carried out, with no failure on record, or
   * queued again with its failure recorded. Either way the first pass no longer waits for `p`.
   */
  predicate SettledNow(w: World, w': World, p: Path) {
    && AtLatest(w, p)
    && p !in w'.st.inflight && p in w'.settledOnce && p !in w'.st.initialRemaining
    && (p in w'.st.pending <==> p in w'.st.failures)
  }

  lemma SuccessSettles(prm: Params, w: World, w': World, work: Work, p: Path)
    requires Inv(prm, w) && LeftSettled(w, w', work) && p in w'.settledOnce
    ensures p in w.settledOnce || SettledNow(w, w', p)
  {
    CurrentIsLatest(prm, w, work);
    hide Inv, AtLatest, PendingStatus;
    LatestNotPending(w, work.path);
  }

  lemma RetrySettles(prm: Params, w: World, w': World, work: Work, error: string, now: nat, p: Path)
    requires Inv(prm, w) && LeftForRetry(w, w', work, error, now) && p in w'.settledOnce
    ensures p in w.settledOnce || SettledNow(w, w', p)
  {
    CurrentIsLatest(prm, w, work);
    hide Inv, AtLatest, PendingStatus;
  }

  lemma EffectSettles(prm: Params, w: World, step: Step, w': World, e: Effect, p: Path)
    requires Inv(prm, w) && HasEffect(prm, w, step, w', e) && FromItem(e)
    requires p in w'.settledOnce
    ensures p in w.settledOnce || SettledNow(w, w', p)
  {
    hide Inv, SettledNow, LeftSettled, LeftForRetry, QueuedIntent, MovedInflight, AdoptedRows, StartedPass;
    match e
    case Succeeded(work) => SuccessSettles(prm, w, w', work, p);
    case Retried(work, error, now) => RetrySettles(prm, w, w', work, error, now, p);
    case _ =>
  }

  lemma LatestNotPending(w: World, p: Path)
    requires AtLatest(w, p)
    ensures p !in w.st.pending
  {
  }

  lemma QueueSettlesNothing(prm: Params, w: World, step: Step)
    requires Enabled(w, step) && OnQueue(step)
    ensures Apply(prm, w, step).settledOnce == w.settledOnce
  {
    hide IsBatch, IsAttachOrder, TakeBatch, Submit, Attach;
  }

  lemma StepSettles(prm: Params, w: World, step: Step, p: Path)
    requires Inv(prm, w) && Enabled(w, step) && p in Apply(prm, w, step).settledOnce
    ensures p in w.settledOnce || SettledNow(w, Apply(prm, w, step), p)
  {
    hide Inv, Apply, Enabled, HasEffect, SettledNow;
    StepEffect(prm, w, step);
    var w' := Apply(prm, w, step);
    var e :| HasEffect(prm, w, step, w', e);
    QueueOrItem(prm, w, step, w', e);
    if FromItem(e) {
      EffectSettles(prm, w, step, w', e, p);
    } else {
      QueueSettlesNothing(prm, w, step);
    }
  }

  /** Every path recorded as settled was settled by some step of the run. */
  lemma {:induction false} SettledBySomeStep(prm: Params, states: seq<World>, steps: seq<Step>, k: nat, p: Path)
    requires Run(prm, states, steps) && k < |states| && p in states[k].settledOnce
    ensures exists m :: 0 <= m < k && SettledNow(states[m], states[m + 1], p)
    decreases k
  {
    hide Enabled, Apply, Inv, SettledNow;
    if k > 0 {
      RunInv(prm, states, steps, k - 1);
      StepSettles(prm, states[k - 1], steps[k - 1], p);
      if p in states[k - 1].settledOnce {
        SettledBySomeStep(prm, states, steps, k - 1, p);
      } else {
        assert SettledNow(states[k - 1], states[k - 1 + 1], p);
      }
    }
  }

  /**
   * The store is opened to queries only if the loaded cache was marked complete, or every note of the first pass
   * has been settled by some earlier step; and once opened it stays open.
   */
  lemma PublishedOnTime(prm: Params, states: seq<World>, steps: seq<Step>, k: nat)
    requires Run(prm, states, steps) && k < |states| && states[k].st.storeQueryable
    ensures states[k].cachePublishable ||
            forall p :: p in states[k].initial ==> exists m :: 0 <= m < k && SettledNow(states[m], states[m + 1], p)
    ensures forall j :: k <= j < |states| ==> states[j].st.storeQueryable
  {
    RunInv(prm, states, steps, k);
    forall j | k <= j < |states| ensures states[j].st.storeQueryable {
      RunAdvances(prm, states, steps, k, j);
    }
    OpenedAfterFirstPass(prm, states[k]);
    hide Run, Inv, SettledNow;
    if !states[k].cachePublishable {
      forall p | p in states[k].initial ensures exists m :: 0 <= m < k && SettledNow(states[m], states[m + 1], p) {
        SettledBySomeStep(prm, states, steps, k, p);
      }
    }
  }

  lemma OpenedAfterFirstPass(prm: Params, w: World)
    requires Inv(prm, w) && w.st.storeQueryable
    ensures w.cachePublishable || w.initial <= w.settledOnce
  {
    assert ReconciliationInv(w.st, w.settledOnce, w.initial, w.cachePublishable);
  }

  /** The first pass cannot get stuck: every note it still waits for has outstanding work. */
  lemma FirstPassHasWork(prm: Params, states: seq<World>, steps: seq<Step>, k: nat)
    requires Run(prm, states, steps) && k < |states|
    ensures states[k].st.initialRemaining <= OutstandingPaths(states[k].st)
    ensures states[k].initial <= states[k].st.initialRemaining + states[k].settledOnce
  {
    RunInv(prm, states, steps, k);
  }

  // ----- conservation of work -----

  lemma UpdatedStatus(st: RState)
    requires st.status.phase.Ready? ==> st.status.lastError.None? && st.reconciliationComplete
    ensures StatusInv(UpdatePending(st))
  {
  }

  lemma FinishedStatus(st: RState, p: Path)
    requires StatusInv(st)
    ensures StatusInv(FinishSuccess(st, p)) && StatusInv(CommitSuccess(st, p)) && StatusInv(Supersede(st, p))
  {
    UpdatedStatus(st.(inflight := Drop(st.inflight, p), initialRemaining := st.initialRemaining - {p}, failures := Drop(st.failures, p)));
    UpdatedStatus(st.(inflight := Drop(st.inflight, p)));
  }

  lemma RetriedStatus(st: RState, work: Work, error: string, now: nat)
    requires StatusInv(st) && IsCurrent(st, work)
    ensures StatusInv(RequeueFailure(st, work, error, now))
  {
    UpdatedStatus(st.(
      inflight := Drop(st.inflight, work.path),
      initialRemaining := st.initialRemaining - {work.path},
      failures := st.failures[work.path := error],
      pending := st.pending[work.path := Retry(work, now)]));
  }

  lemma EffectStatus(prm: Params, w: World, step: Step, w': World, e: Effect)
    requires HasEffect(prm, w, step, w', e) && FromItem(e) && !Moves(step) && StatusInv(w.st)
    ensures StatusInv(w'.st)
  {
    hide StatusInv, FinishSuccess, CommitSuccess, Supersede, RequeueFailure, RemoveNote, IsCurrent;
    match e
    case Superseded(work) => FinishedStatus(w.st, work.path);
    case Succeeded(work) => FinishedStatus(w.st, work.path);
    case Retried(work, error, now) => RetriedStatus(w.st, work, error, now);
    case _ =>
  }

  lemma SubmitStatus(st: RState, p: Path, kind: Kind, now: nat)
    requires StatusInv(st)
    ensures StatusInv(Submit(st, p, kind, now))
  {
    UpdatedStatus(Enqueue(st, p, kind, now));
  }

  lemma TakeStatus(st: RState, batch: seq<Work>)
    requires StatusInv(st) && DistinctPaths(batch)
    ensures StatusInv(TakeBatch(st, batch))
  {
    hide Without, InflightOf, DistinctPaths, Paths;
    UpdatedStatus(st.(pending := Without(st.pending, Paths(batch)), inflight := st.inflight + InflightOf(batch)));
  }

  lemma {:induction false} EnqueueAllStatus(st: RState, order: seq<Path>, now: nat)
    ensures EnqueueAll(st, order, now).status == st.status
    ensures EnqueueAll(st, order, now).reconciliationComplete == st.reconciliationComplete
    decreases |order|
  {
    if |order| > 0 {
      EnqueueAllStatus(Enqueue(st, order[0], Upsert, now), order[1..], now);
    }
  }

  lemma AttachStatus(st: RState, paths: set<Path>, servable: bool, order: seq<Path>, now: nat)
    requires StatusInv(st)
    ensures StatusInv(Attach(st, paths, servable, order, now))
  {
    var started :=
      st.(attached := true, storeQueryable := servable, initialStarted := true, initialRemaining := paths);
    EnqueueAllStatus(started, order, now);
    UpdatedStatus(EnqueueAll(started, order, now));
  }

  lemma QueueStatus(prm: Params, w: World, step: Step)
    requires Enabled(w, step) && OnQueue(step) && StatusInv(w.st)
    ensures StatusInv(Apply(prm, w, step).st)
  {
    hide StatusInv, Submit, TakeBatch, Attach, IsBatch, IsAttachOrder;
    match step
    case SubmitIntent(p, kind, now) => SubmitStatus(w.st, p, kind, now);
    case Take(batch, _) => BatchDistinct(w.st, step.now, batch); TakeStatus(w.st, batch);
    case AttachStore(order, now) => AttachStatus(w.st, w.pc.paths, ServableCache(w), order, now);
    case LoadCache(_) =>
  }

  lemma BatchDistinct(st: RState, now: nat, batch: seq<Work>)
    requires IsBatch(st, now, batch)
    ensures DistinctPaths(batch)
  {
  }

  lemma ReportStatus(prm: Params, w: World, step: Step)
    requires Enabled(w, step) && StatusInv(w.st)
    requires step.LoaderFails? || step.Refresh? || step.PersistFails? || step.PersistOk?
    ensures StatusInv(Apply(prm, w, step).st)
  {
    hide PicksFailure;
    match step
    case LoaderFails(_) =>
    case Refresh(_, _, _) =>
    case PersistFails(_) =>
    case PersistOk =>
  }

  lemma OpenedStatus(st: RState, servable: bool)
    requires StatusInv(st)
    ensures StatusInv(Finalize(st, servable))
  {
  }

  lemma FinalizeStatus(w: World)
    requires StatusInv(w.st)
    ensures StatusInv(DoFinalize(w).st)
  {
    hide ReadyToFinalize, Finalize, StatusInv, MayServe;
    OpenedStatus(w.st, MayServe(w));
    if w.live && ReadyToFinalize(w.st) {
      assert DoFinalize(w).st == Finalize(w.st, MayServe(w));
    } else {
      assert DoFinalize(w).st == w.st;
    }
  }

  lemma EditsKeepQueue(prm: Params, w: World, step: Step)
    requires Enabled(w, step)
    requires step.EditFile? || step.EditIndex? || step.ClearLive? || step.AbortWorker?
    ensures Apply(prm, w, step).st == w.st
  {
    hide Update;
    match step
    case EditFile(_, _) =>
    case EditIndex(_, _) =>
    case ClearLive =>
    case AbortWorker =>
  }

  lemma TurnsKeepQueue(prm: Params, w: World, step: Step)
    requires Enabled(w, step)
    requires step.LoaderSucceeds? || step.PersistRefused? || step.SkipPersist? || step.CheckLive?
    ensures Apply(prm, w, step).st == w.st
  {
    match step
    case LoaderSucceeds =>
    case PersistRefused =>
    case SkipPersist =>
    case CheckLive =>
  }

  lemma PhasesKeepQueue(prm: Params, w: World, step: Step)
    requires Enabled(w, step) && (step.ReadMetadata? || step.PreparationFails? || step.EmbedOk? || step.EmbedFails?)
    ensures Apply(prm, w, step).st == w.st
  {
    hide EmbedAll, FlatTexts;
    match step
    case ReadMetadata =>
    case PreparationFails(_) =>
    case EmbedOk =>
    case EmbedFails(_) =>
  }

  lemma QuietMoveStatus(prm: Params, w: World, step: Step)
    requires Enabled(w, step) && Moves(step)
    requires !(step.LoaderFails? || step.Refresh? || step.PersistFails? || step.PersistOk? || step.FinalizePass?)
    ensures Apply(prm, w, step).st == w.st
  {
    if step.EditFile? || step.EditIndex? || step.ClearLive? || step.AbortWorker? {
      EditsKeepQueue(prm, w, step);
    } else if step.LoaderSucceeds? || step.PersistRefused? || step.SkipPersist? || step.CheckLive? {
      TurnsKeepQueue(prm, w, step);
    } else if step.ReadFile? {
      ReadIsOnlyPc(prm, w, step.error);
    } else {
      PhasesKeepQueue(prm, w, step);
    }
  }

  lemma StepStatus(prm: Params, w: World, step: Step)
    requires Inv(prm, w) && Enabled(w, step) && StatusInv(w.st)
    ensures StatusInv(Apply(prm, w, step).st)
  {
    hide Inv, Apply, Enabled, HasEffect, StatusInv;
    if step.LoaderFails? || step.Refresh? || step.PersistFails? || step.PersistOk? {
      ReportStatus(prm, w, step);
    } else if step.FinalizePass? {
      FinalizeStatus(w);
      FinalizeIs(prm, w);
    } else if Moves(step) {
      QuietMoveStatus(prm, w, step);
    } else if OnQueue(step) {
      QueueStatus(prm, w, step);
    } else {
      StepEffect(prm, w, step);
      var w' := Apply(prm, w, step);
      var e :| HasEffect(prm, w, step, w', e);
      QueueOrItem(prm, w, step, w', e);
      EffectStatus(prm, w, step, w', e);
    }
  }

  lemma FinalizeIs(prm: Params, w: World)
    requires Enabled(w, FinalizePass)
    ensures Apply(prm, w, FinalizePass) == DoFinalize(w)
  {
    hide DoFinalize;
  }

  lemma {:induction false} RunStatus(prm: Params, states: seq<World>, steps: seq<Step>, k: nat)
    requires Run(prm, states, steps) && k < |states|
    ensures StatusInv(states[k].st)
  {
    hide Inv, Init, Apply, Enabled, StatusInv;
    if k == 0 {
      InitStatus(prm, states[0]);
    } else {
      RunStatus(prm, states, steps, k - 1);
      RunInv(prm, states, steps, k - 1);
      StepStatus(prm, states[k - 1], steps[k - 1]);
    }
  }

  /**
   * Work is conserved: between batches of a live runtime nothing is in flight, every recorded failure still has
   * outstanding work, the reported count is the number of distinct outstanding paths, and a runtime that reports
   * itself ready has nothing outstanding and no failure left.
   */
  lemma WorkConserved(prm: Params, states: seq<World>, steps: seq<Step>, k: nat)
    requires Run(prm, states, steps) && k < |states|
    ensures var w := states[k];
            && (w.live && !InBatch(w.pc) && !w.pc.Stopped? ==> w.st.inflight == map[])
            && w.st.failures.Keys <= OutstandingPaths(w.st)
            && w.st.status.pendingNotes == |OutstandingPaths(w.st)|
            && (w.st.status.phase.Ready? ==>
                  OutstandingPaths(w.st) == {} && w.st.failures == map[] && w.st.reconciliationComplete)
  {
    RunInv(prm, states, steps, k);
    RunStatus(prm, states, steps, k);
    var w := states[k];
    assert WorkInv(w.pc, w.st.pending, w.st.inflight, w.intent, w.live);
    assert ReconciliationInv(w.st, w.settledOnce, w.initial, w.cachePublishable);
  }

  // ----- the cache on disk -----

  /**
   * From a state in which the disk is known to hold the store on, and provided the model and the store have one
   * dimension, the disk holds exactly the store whenever nothing is marked dirty.
   */
  lemma CacheCoherent(prm: Params, states: seq<World>, steps: seq<Step>, i: nat, j: nat)
    requires Run(prm, states, steps) && i <= j < |states|
    requires states[i].st.attached && states[i].synced && prm.modelDim == prm.storeDim
    ensures !states[j].dirty ==> states[j].disk == Some(states[j].store)
  {
    RunAdvances(prm, states, steps, i, j);
    RunInv(prm, states, steps, j);
  }

  /**
   * Under different dimensions the commit is refused after the note's rows are gone, and nothing is marked dirty:
   * the disk then still holds the store exactly when the note had no rows.
   */
  lemma RefusedCommitAndCache(prm: Params, w: World, error: string, now: nat)
    requires Inv(prm, w) && w.pc.Committing? && WellShaped(w.pc.b) && w.pc.i < |w.pc.b.works|
    requires w.pc.b.stages[w.pc.i].Changed? && w.live && IsCurrent(w.st, w.pc.b.works[w.pc.i])
    requires prm.modelDim != prm.storeDim && !w.dirty && w.disk == Some(w.store)
    ensures var w' := DoCommit(prm, w, error, now);
            !w'.dirty && (w'.disk == Some(w'.store) <==> EntriesOf(w.store.entries, w.pc.b.works[w.pc.i].path) == map[])
  {
    CommitPosition(prm, w);
    hide Inv, DoCommit, VectorInv;
    CommitCases(prm, w, error, now);
    RemoveNoteOwnership(w.store.entries, w.pc.b.works[w.pc.i].path);
  }

  /** Nothing changes once the runtime was told to stop, from any state of any run on. */
  lemma FrozenAfterStop(prm: Params, states: seq<World>, steps: seq<Step>, i: nat, j: nat)
    requires Run(prm, states, steps) && i <= j < |states| && !states[i].live
    ensures states[j].store == states[i].store && states[j].disk == states[i].disk
  {
    RunAdvances(prm, states, steps, i, j);
  }
}
