/** What a single step can do to the queue and to the store. */
module RuntimeEffects {
  import opened Common
  import opened EmbeddingStore
  import opened RuntimeState
  import opened RuntimeWorld
  import opened RuntimeInvariant
  import opened RuntimeProofs
  import opened RuntimeBatchProofs
  import opened RuntimeSteps

  datatype Effect =
    | Still
    | Submitted(work: Work)
    | TookBatch(batch: seq<Work>)
    | Adopted(rows: Entries)
    | Published(now: nat)
    | Superseded(work: Work)
    | Succeeded(work: Work)
    | Retried(work: Work, error: string, now: nat)
    | Refused(work: Work)

  predicate HandlesItem(pc: Pc) {
    pc.Settling? || pc.Committing? || pc.CommitFailing? || pc.Requeueing?
  }

  /** `work` is the unfinished item the coordinator is at. */
  predicate AtItem(pc: Pc, work: Work) {
    HandlesItem(pc) && Outstanding(pc.b, pc.i) && pc.b.works[pc.i] == work
  }

  /** What the queue and the rows of the store amount to, without phase, status or notes. */
  datatype Footing = Footing(
    pending: map<Path, Work>, inflight: map<Path, nat>, failures: map<Path, string>, initialRemaining: set<Path>,
    nextGeneration: nat, attached: bool, entries: Entries, settledOnce: set<Path>, initial: set<Path>,
    latest: map<Path, nat>, intent: map<Path, Kind>)

  function FootingOf(w: World): Footing {
    Footing(
      w.st.pending, w.st.inflight, w.st.failures, w.st.initialRemaining, w.st.nextGeneration, w.st.attached,
      w.store.entries, w.settledOnce, w.initial, w.latest, w.intent)
  }

  predicate Untroubled(w: World, w': World) {
    FootingOf(w') == FootingOf(w)
  }

  /** The intent is queued under the next generation, in place of an older one; nothing else moves. */
  predicate QueuedIntent(w: World, w': World, work: Work) {
    && work.generation == w.st.nextGeneration + 1 && work.attempt == 0
    && FootingOf(w') == FootingOf(w).(
         pending := w.st.pending[work.path := work], nextGeneration := work.generation,
         latest := w.latest[work.path := work.generation], intent := w.intent[work.path := work.kind])
  }

  /** Exactly the batch moves from pending to in flight, each item under its own generation. */
  predicate MovedInflight(w: World, w': World, batch: seq<Work>) {
    && DistinctPaths(batch)
    && FootingOf(w') == FootingOf(w).(
         pending := Without(w.st.pending, Paths(batch)),
         inflight := w.st.inflight + InflightOf(batch))
  }

  /** The store starts with nothing, or with the cached rows of the notes that still exist. */
  predicate AdoptedRows(w: World, w': World, rows: Entries) {
    && w.pc.Loaded?
    && (rows == map[] || (w.disk.Some? && rows == RetainPaths(w.disk.value.entries, w.pc.paths)))
    && FootingOf(w') == FootingOf(w).(entries := rows)
  }

  /** Pending work is kept, and every listed path without any has a new upsert. */
  ghost predicate NewlyQueued(st: RState, st': RState, paths: set<Path>, now: nat) {
    && st'.pending.Keys == st.pending.Keys + paths
    && (forall p :: p in st.pending ==> st'.pending[p] == st.pending[p])
    && (forall p :: p in paths && p !in st.pending ==>
                      && st'.pending[p] == Work(p, st'.pending[p].generation, Upsert, 0, now)
                      && st.nextGeneration < st'.pending[p].generation)
  }

  /** The first pass starts over the current paths: those without pending work get a new upsert, no row changes. */
  ghost predicate StartedPass(w: World, w': World, now: nat) {
    && w.pc.Attaching?
    && FootingOf(w') == FootingOf(w).(
         pending := w'.st.pending, nextGeneration := w'.st.nextGeneration, latest := w'.latest, intent := w'.intent,
         attached := true, initial := w.pc.paths, initialRemaining := w.pc.paths)
    && NewlyQueued(w.st, w'.st, w.pc.paths, now)
  }

  predicate OnlyPc(w: World, w': World) {
    w' == w.(pc := w'.pc)
  }

  /** The item had a newer intent behind it: it only leaves the in-flight table. */
  predicate LeftSuperseded(w: World, w': World, work: Work) {
    && AtItem(w.pc, work) && !IsCurrent(w.st, work)
    && w' == w.(st := Supersede(w.st, work.path), pc := w'.pc)
  }

  /** The item succeeded; rows can change only for its own note, and only while the runtime lives. */
  predicate LeftSettled(w: World, w': World, work: Work) {
    && AtItem(w.pc, work) && IsCurrent(w.st, work)
    && (w'.st == FinishSuccess(w.st, work.path) || w'.st == CommitSuccess(w.st, work.path))
    && w' == w.(st := w'.st, store := w'.store, dirty := w'.dirty, origin := w'.origin, pc := w'.pc,
                settledOnce := w.settledOnce + {work.path})
    && (w'.store != w.store ==> w.live)
    && RemoveNote(w'.store.entries, work.path) == RemoveNote(w.store.entries, work.path)
  }

  /** Which steps put an item back, at what time, and for what recorded reason. */
  predicate RetriesBy(w: World, step: Step, error: string, now: nat) {
    match step
    case SettleNext(t) =>
      t == now && w.pc.Settling? && w.pc.i < |w.pc.b.stages| && w.pc.b.stages[w.pc.i] == Unreadable(error)
    case RequeueFailedCommit(t) => t == now && w.pc.CommitFailing? && w.pc.error == error
    case RequeueNext(t) => t == now && w.pc.Requeueing? && w.pc.error == error
    case _ => false
  }

  predicate LeftForRetry(w: World, w': World, work: Work, error: string, now: nat) {
    && AtItem(w.pc, work) && IsCurrent(w.st, work)
    && w' == w.(st := RequeueFailure(w.st, work, error, now), settledOnce := w.settledOnce + {work.path}, pc := w'.pc)
  }

  /** An insertion was refused: the note's rows are gone, the item is still at hand. */
  predicate RowsRefused(prm: Params, w: World, w': World, work: Work) {
    && AtItem(w.pc, work) && IsCurrent(w.st, work) && w.live && prm.modelDim != prm.storeDim
    && w' == w.(store := w.store.(entries := RemoveNote(w.store.entries, work.path)),
                origin := Drop(w.origin, work.path), pc := w'.pc)
  }

  /** Steps that handle no item and take, queue or load nothing. */
  predicate Moves(step: Step) {
    !(step.SubmitIntent? || step.Take? || step.LoadCache? || step.AttachStore? || step.SettleNext? ||
      step.CommitNext? || step.RequeueFailedCommit? || step.RequeueNext?)
  }

  ghost predicate HasEffect(prm: Params, w: World, step: Step, w': World, e: Effect) {
    match e
    case Still => Untroubled(w, w') && (Moves(step) || OnlyPc(w, w'))
    case Submitted(work) => step == SubmitIntent(work.path, work.kind, work.notBefore) && QueuedIntent(w, w', work)
    case TookBatch(batch) => step.Take? && step.batch == batch && MovedInflight(w, w', batch)
    case Adopted(rows) => step.LoadCache? && AdoptedRows(w, w', rows)
    case Published(now) => step.AttachStore? && StartedPass(w, w', now)
    case Superseded(work) => LeftSuperseded(w, w', work)
    case Succeeded(work) => LeftSettled(w, w', work)
    case Retried(work, error, now) => RetriesBy(w, step, error, now) && LeftForRetry(w, w', work, error, now)
    case Refused(work) => RowsRefused(prm, w, w', work)
  }

  lemma RemoveTwice(entries: Entries, p: Path)
    ensures RemoveNote(RemoveNote(entries, p), p) == RemoveNote(entries, p)
  {
  }

  lemma RewriteElsewhere(prm: Params, entries: Entries, p: Path, headings: seq<string>, body: string)
    ensures RemoveNote(RemoveNote(entries, p) + Fresh(prm, p, headings, body), p) == RemoveNote(entries, p)
  {
    var rows := Fresh(prm, p, headings, body);
    assert forall k :: k in rows ==> k.note == p;
    assert RemoveNote(RemoveNote(entries, p) + rows, p) == RemoveNote(entries, p);
  }

  // ----- each effect, named as such -----

  lemma IsStill(prm: Params, w: World, step: Step, w': World)
    requires Untroubled(w, w') && (Moves(step) || OnlyPc(w, w'))
    ensures exists e :: HasEffect(prm, w, step, w', e)
  {
    assert HasEffect(prm, w, step, w', Still);
  }

  lemma IsSuperseded(prm: Params, w: World, step: Step, w': World, work: Work)
    requires LeftSuperseded(w, w', work)
    ensures exists e :: HasEffect(prm, w, step, w', e)
  {
    assert HasEffect(prm, w, step, w', Superseded(work));
  }

  lemma IsSettled(prm: Params, w: World, step: Step, w': World, work: Work)
    requires LeftSettled(w, w', work)
    ensures exists e :: HasEffect(prm, w, step, w', e)
  {
    assert HasEffect(prm, w, step, w', Succeeded(work));
  }

  lemma IsRetried(prm: Params, w: World, step: Step, w': World, work: Work, error: string, now: nat)
    requires RetriesBy(w, step, error, now) && LeftForRetry(w, w', work, error, now)
    ensures exists e :: HasEffect(prm, w, step, w', e)
  {
    hide RetriesBy, LeftForRetry;
    assert HasEffect(prm, w, step, w', Retried(work, error, now));
  }

  lemma IsRefused(prm: Params, w: World, step: Step, w': World, work: Work)
    requires RowsRefused(prm, w, w', work)
    ensures exists e :: HasEffect(prm, w, step, w', e)
  {
    assert HasEffect(prm, w, step, w', Refused(work));
  }

  // ----- settling -----

  lemma RequeueSplits(w: World, work: Work, error: string, now: nat, pc: Pc)
    requires AtItem(w.pc, work)
    ensures IsCurrent(w.st, work) ==> LeftForRetry(w, Requeue(w, work, error, now).(pc := pc), work, error, now)
    ensures !IsCurrent(w.st, work) ==> LeftSuperseded(w, Requeue(w, work, error, now).(pc := pc), work)
  {
    hide RequeueFailure, Supersede;
    RequeueShape(w, work, error, now, pc);
  }

  lemma RequeueEffect(prm: Params, w: World, step: Step, work: Work, error: string, now: nat, pc: Pc)
    requires AtItem(w.pc, work) && RetriesBy(w, step, error, now)
    ensures exists e :: HasEffect(prm, w, step, Requeue(w, work, error, now).(pc := pc), e)
  {
    hide LeftForRetry, LeftSuperseded, Requeue, HasEffect, RetriesBy;
    var w' := Requeue(w, work, error, now).(pc := pc);
    RequeueSplits(w, work, error, now, pc);
    if IsCurrent(w.st, work) {
      IsRetried(prm, w, step, w', work, error, now);
    } else {
      IsSuperseded(prm, w, step, w', work);
    }
  }

  lemma RemoveSplits(w: World, work: Work, pc: Pc)
    requires AtItem(w.pc, work)
    ensures !w.live ==> OnlyPc(w, CommitRemove(w, work).(pc := pc))
    ensures w.live && !IsCurrent(w.st, work) ==> LeftSuperseded(w, CommitRemove(w, work).(pc := pc), work)
  {
    hide FinishSuccess, CommitSuccess, Supersede, RemoveNote;
  }

  lemma RemoveSettles(w: World, work: Work, pc: Pc)
    requires AtItem(w.pc, work) && w.live && IsCurrent(w.st, work)
    ensures LeftSettled(w, CommitRemove(w, work).(pc := pc), work)
  {
    hide FinishSuccess, CommitSuccess, Supersede, RemoveNote;
    RemoveTwice(w.store.entries, work.path);
  }

  lemma RemoveEffect(prm: Params, w: World, step: Step, work: Work, pc: Pc)
    requires AtItem(w.pc, work)
    ensures exists e :: HasEffect(prm, w, step, CommitRemove(w, work).(pc := pc), e)
  {
    hide LeftSettled, LeftSuperseded, Untroubled, CommitRemove, HasEffect;
    var w' := CommitRemove(w, work).(pc := pc);
    RemoveSplits(w, work, pc);
    if !w.live {
      PcMoves(w, w'.pc);
      IsStill(prm, w, step, w');
    } else if IsCurrent(w.st, work) {
      RemoveSettles(w, work, pc);
      IsSettled(prm, w, step, w', work);
    } else {
      IsSuperseded(prm, w, step, w', work);
    }
  }

  lemma UnchangedSplits(w: World, work: Work, pc: Pc)
    requires AtItem(w.pc, work)
    ensures IsCurrent(w.st, work) ==> LeftSettled(w, MarkUnchanged(w, work).(pc := pc), work)
    ensures !IsCurrent(w.st, work) ==> LeftSuperseded(w, MarkUnchanged(w, work).(pc := pc), work)
  {
    hide FinishSuccess, CommitSuccess, Supersede, RemoveNote;
  }

  lemma UnchangedEffect(prm: Params, w: World, step: Step, work: Work, pc: Pc)
    requires AtItem(w.pc, work)
    ensures exists e :: HasEffect(prm, w, step, MarkUnchanged(w, work).(pc := pc), e)
  {
    hide LeftSettled, LeftSuperseded, MarkUnchanged, HasEffect;
    var w' := MarkUnchanged(w, work).(pc := pc);
    UnchangedSplits(w, work, pc);
    if IsCurrent(w.st, work) {
      IsSettled(prm, w, step, w', work);
    } else {
      IsSuperseded(prm, w, step, w', work);
    }
  }

  lemma MoveEffect(prm: Params, w: World, step: Step, pc: Pc)
    ensures exists e :: HasEffect(prm, w, step, w.(pc := pc), e)
  {
    hide HasEffect;
    IsStill(prm, w, step, w.(pc := pc));
  }

  lemma SettleEffect(prm: Params, w: World, now: nat)
    requires Inv(prm, w) && w.pc.Settling? && WellShaped(w.pc.b)
    ensures exists e :: HasEffect(prm, w, SettleNext(now), DoSettle(prm, w, now), e)
  {
    SettlePosition(prm, w);
    hide Inv, HasEffect, CommitRemove, Requeue, MarkUnchanged;
    if w.pc.i >= |w.pc.b.works| {
      MoveEffect(prm, w, SettleNext(now), DoSettle(prm, w, now).pc);
    } else {
      SettleItemEffect(prm, w, now);
    }
  }

  lemma SettleItemEffect(prm: Params, w: World, now: nat)
    requires w.pc.Settling? && WellShaped(w.pc.b) && w.pc.i < |w.pc.b.works|
    requires Outstanding(w.pc.b, w.pc.i) && HasRead(w.pc.b.stages[w.pc.i])
    ensures exists e :: HasEffect(prm, w, SettleNext(now), DoSettle(prm, w, now), e)
  {
    hide HasEffect, CommitRemove, Requeue, MarkUnchanged, DoSettle;
    SettleCases(prm, w, now);
    var work, stage := w.pc.b.works[w.pc.i], w.pc.b.stages[w.pc.i];
    var done := Settling(Set(w.pc.b, w.pc.i, Done), w.pc.i + 1);
    if stage.ToRemove? {
      RemoveEffect(prm, w, SettleNext(now), work, done);
    } else if stage.Unreadable? {
      RequeueEffect(prm, w, SettleNext(now), work, stage.error, now, done);
    } else if Unchanged(prm, w.store, work.path, stage.body) {
      UnchangedEffect(prm, w, SettleNext(now), work, done);
    } else {
      MoveEffect(prm, w, SettleNext(now), DoSettle(prm, w, now).pc);
    }
  }

  // ----- committing -----

  lemma CommitSettles(prm: Params, w: World, error: string, next: nat)
    requires w.pc.Committing? && Outstanding(w.pc.b, w.pc.i) && w.pc.b.stages[w.pc.i].Changed? && WellShaped(w.pc.b)
    requires w.live && IsCurrent(w.st, w.pc.b.works[w.pc.i]) && prm.modelDim == prm.storeDim
    ensures LeftSettled(w, Committed(prm, w, error, next), w.pc.b.works[w.pc.i])
  {
    hide CommitSuccess, FinishSuccess, Supersede, RemoveNote, Fresh;
    RewriteElsewhere(
      prm, w.store.entries, w.pc.b.works[w.pc.i].path, w.pc.b.stages[w.pc.i].headings, w.pc.b.stages[w.pc.i].body);
  }

  lemma CommitRefuses(prm: Params, w: World, error: string, next: nat)
    requires w.pc.Committing? && Outstanding(w.pc.b, w.pc.i) && w.pc.b.stages[w.pc.i].Changed? && WellShaped(w.pc.b)
    requires w.live && IsCurrent(w.st, w.pc.b.works[w.pc.i]) && prm.modelDim != prm.storeDim
    ensures RowsRefused(prm, w, Committed(prm, w, error, next), w.pc.b.works[w.pc.i])
  {
    hide CommitSuccess, FinishSuccess, Supersede, RemoveNote, Fresh;
  }

  lemma CommitSupersedes(prm: Params, w: World, error: string, next: nat)
    requires w.pc.Committing? && Outstanding(w.pc.b, w.pc.i) && w.pc.b.stages[w.pc.i].Changed? && WellShaped(w.pc.b)
    ensures !w.live ==> OnlyPc(w, Committed(prm, w, error, next))
    ensures w.live && !IsCurrent(w.st, w.pc.b.works[w.pc.i]) ==>
              LeftSuperseded(w, Committed(prm, w, error, next), w.pc.b.works[w.pc.i])
  {
    hide CommitSuccess, FinishSuccess, Supersede, RemoveNote, Fresh;
  }

  lemma CommittedEffect(prm: Params, w: World, step: Step, error: string, next: nat)
    requires w.pc.Committing? && Outstanding(w.pc.b, w.pc.i) && w.pc.b.stages[w.pc.i].Changed? && WellShaped(w.pc.b)
    ensures exists e :: HasEffect(prm, w, step, Committed(prm, w, error, next), e)
  {
    hide Committed, Untroubled, LeftSettled, LeftSuperseded, RowsRefused, HasEffect;
    var work, w' := w.pc.b.works[w.pc.i], Committed(prm, w, error, next);
    CommitSupersedes(prm, w, error, next);
    if !w.live {
      PcMoves(w, w'.pc);
      IsStill(prm, w, step, w');
    } else if !IsCurrent(w.st, work) {
      IsSuperseded(prm, w, step, w', work);
    } else if prm.modelDim == prm.storeDim {
      CommitSettles(prm, w, error, next);
      IsSettled(prm, w, step, w', work);
    } else {
      CommitRefuses(prm, w, error, next);
      IsRefused(prm, w, step, w', work);
    }
  }

  lemma CommitItemEffect(prm: Params, w: World, error: string, now: nat)
    requires w.pc.Committing? && WellShaped(w.pc.b) && Outstanding(w.pc.b, w.pc.i) && w.pc.b.stages[w.pc.i].Changed?
    requires VectorInv(prm, w.pc) && prm.pieces(w.pc.b.stages[w.pc.i].body) != []
    ensures exists e :: HasEffect(prm, w, CommitNext(error, now), DoCommit(prm, w, error, now), e)
  {
    hide Committed, HasEffect, DoCommit, FlatTexts, EmbedAll;
    CommitCases(prm, w, error, now);
    CommittedEffect(
      prm, w, CommitNext(error, now), error, w.pc.cursor + |prm.pieces(w.pc.b.stages[w.pc.i].body)| + 1);
  }

  lemma CommitEffect(prm: Params, w: World, error: string, now: nat)
    requires Inv(prm, w) && w.pc.Committing? && WellShaped(w.pc.b)
    ensures exists e :: HasEffect(prm, w, CommitNext(error, now), DoCommit(prm, w, error, now), e)
  {
    CommitPosition(prm, w);
    hide Inv, HasEffect, CommitRows, VectorInv;
    if w.pc.i < |w.pc.b.works| && w.pc.b.stages[w.pc.i].Changed? {
      CommitItemEffect(prm, w, error, now);
    } else {
      MoveEffect(prm, w, CommitNext(error, now), DoCommit(prm, w, error, now).pc);
    }
  }

  // ----- requeueing -----

  lemma RequeueNextEffect(prm: Params, w: World, now: nat)
    requires w.pc.Requeueing? && WellShaped(w.pc.b)
    ensures exists e :: HasEffect(prm, w, RequeueNext(now), DoRequeue(w, now), e)
  {
    hide HasEffect, Requeue, Set;
    var Requeueing(b, i, error) := w.pc;
    if i < |b.works| && !b.stages[i].Done? {
      assert AtItem(w.pc, b.works[i]);
      var done := Requeueing(Set(b, i, Done), i + 1, error);
      assert DoRequeue(w, now) == Requeue(w, b.works[i], error, now).(pc := done);
      RequeueEffect(prm, w, RequeueNext(now), b.works[i], error, now, done);
    } else {
      MoveEffect(prm, w, RequeueNext(now), DoRequeue(w, now).pc);
    }
  }

  lemma FailedCommitEffect(prm: Params, w: World, now: nat)
    requires w.pc.CommitFailing? && WellShaped(w.pc.b) && Outstanding(w.pc.b, w.pc.i)
    ensures exists e :: HasEffect(prm, w, RequeueFailedCommit(now), DoFailedCommit(w, now), e)
  {
    hide HasEffect, Requeue;
    var CommitFailing(b, i, cursor, vectors, error) := w.pc;
    assert AtItem(w.pc, b.works[i]);
    var done := Committing(Set(b, i, Done), i + 1, cursor, vectors);
    assert DoFailedCommit(w, now) == Requeue(w, b.works[i], error, now).(pc := done);
    RequeueEffect(prm, w, RequeueFailedCommit(now), b.works[i], error, now, done);
  }

  lemma EditsMove(prm: Params, w: World, step: Step)
    requires Enabled(w, step) && Moves(step)
    requires step.EditFile? || step.EditIndex? || step.ClearLive? || step.AbortWorker? || step.LoaderFails? || step.LoaderSucceeds?
    ensures Untroubled(w, Apply(prm, w, step))
  {
    hide Update, DoSettle, DoCommit, DoFailedCommit, DoRequeue, DoAttach, DoLoadCache, DoReadFile, DoFinalize,
      IsBatch, IsAttachOrder, TakeBatch, Submit;
  }

  lemma FinalizeOpensOnly(st: RState, servable: bool)
    ensures var st' := Finalize(st, servable);
            st' == st.(reconciliationComplete := st'.reconciliationComplete, storeQueryable := st'.storeQueryable)
  {
  }

  lemma PcMoves(w: World, pc: Pc)
    ensures Untroubled(w, w.(pc := pc))
  {
  }

  lemma OpensOnly(w: World, st: RState, dirty: bool, store: Store, pc: Pc)
    requires st == w.st.(reconciliationComplete := st.reconciliationComplete, storeQueryable := st.storeQueryable)
    requires store.entries == w.store.entries
    ensures Untroubled(w, w.(st := st, dirty := dirty, store := store, pc := pc))
  {
  }

  lemma FinalizeMoves(w: World)
    ensures Untroubled(w, DoFinalize(w))
  {
    hide Untroubled, Finalize, ReadyToFinalize, MayServe;
    if w.live && ReadyToFinalize(w.st) {
      var servable := MayServe(w);
      FinalizeOpensOnly(w.st, servable);
      OpensOnly(
        w, Finalize(w.st, servable), w.dirty || !w.store.firstPassComplete, w.store.(firstPassComplete := true), Refreshing);
    } else {
      PcMoves(w, Refreshing);
    }
  }

  lemma ReadMoves(prm: Params, w: World, error: string)
    requires w.pc.Reading? && WellShaped(w.pc.b)
    ensures Untroubled(w, DoReadFile(prm, w, error))
  {
    hide Untroubled, StageRead, Set;
    var Reading(b, i, snap) := w.pc;
    if i >= |b.works| {
      PcMoves(w, Settling(b, 0));
    } else {
      PcMoves(w, Reading(Set(b, i, StageRead(prm, w, b.works[i], snap, error)), i + 1, snap));
    }
  }

  lemma ReportsMove(prm: Params, w: World, step: Step)
    requires Enabled(w, step) && (step.Refresh? || step.PersistOk? || step.PersistFails?)
    ensures Untroubled(w, Apply(prm, w, step))
  {
    hide PicksFailure, RefreshedStatus, DoSettle, DoCommit, DoFailedCommit, DoRequeue, DoAttach, DoLoadCache,
      DoReadFile, DoFinalize, TakeBatch, Submit;
  }

  lemma TurnsMove(prm: Params, w: World, step: Step)
    requires Enabled(w, step) && (step.PersistRefused? || step.SkipPersist? || step.CheckLive?)
    ensures Untroubled(w, Apply(prm, w, step))
  {
    hide DoSettle, DoCommit, DoFailedCommit, DoRequeue, DoAttach, DoLoadCache, DoReadFile, DoFinalize, TakeBatch,
      Submit;
  }

  lemma PhasesMove(prm: Params, w: World, step: Step)
    requires Enabled(w, step)
    requires step.ReadMetadata? || step.PreparationFails? || step.EmbedOk? || step.EmbedFails?
    ensures Untroubled(w, Apply(prm, w, step))
  {
    hide EmbedAll, FlatTexts, DoSettle, DoCommit, DoFailedCommit, DoRequeue, DoAttach, DoLoadCache, DoReadFile,
      DoFinalize, TakeBatch, Submit;
  }

  /** A step that handles no item leaves queue and rows alone. */
  lemma MovesUntroubled(prm: Params, w: World, step: Step)
    requires Enabled(w, step) && Moves(step)
    ensures Untroubled(w, Apply(prm, w, step))
  {
    hide Untroubled, DoFinalize, DoReadFile;
    match step
    case ReadMetadata => PhasesMove(prm, w, step);
    case PreparationFails(_) => PhasesMove(prm, w, step);
    case EmbedOk => PhasesMove(prm, w, step);
    case EmbedFails(_) => PhasesMove(prm, w, step);
    case ReadFile(error) => ReadMoves(prm, w, error);
    case FinalizePass => FinalizeMoves(w);
    case Refresh(_, _, _) => ReportsMove(prm, w, step);
    case PersistOk => ReportsMove(prm, w, step);
    case PersistFails(_) => ReportsMove(prm, w, step);
    case PersistRefused => TurnsMove(prm, w, step);
    case SkipPersist => TurnsMove(prm, w, step);
    case CheckLive => TurnsMove(prm, w, step);
    case _ => EditsMove(prm, w, step);
  }

  // ----- queueing and loading -----

  lemma SubmitQueues(w: World, p: Path, kind: Kind, now: nat)
    ensures QueuedIntent(
              w, w.(st := Submit(w.st, p, kind, now), unsubmitted := w.unsubmitted - {p},
                    latest := w.latest[p := w.st.nextGeneration + 1], intent := w.intent[p := kind]),
              Work(p, w.st.nextGeneration + 1, kind, 0, now))
  {
    hide PendingStatus;
  }

  lemma IsSubmitted(prm: Params, w: World, step: Step, w': World, work: Work)
    requires step == SubmitIntent(work.path, work.kind, work.notBefore) && QueuedIntent(w, w', work)
    ensures exists e :: HasEffect(prm, w, step, w', e)
  {
    hide QueuedIntent;
    assert HasEffect(prm, w, step, w', Submitted(work));
  }

  lemma TakeMovesFooting(w: World, batch: seq<Work>, pc: Pc)
    requires DistinctPaths(batch)
    ensures MovedInflight(w, w.(st := TakeBatch(w.st, batch), pc := pc), batch)
  {
    hide PendingStatus, DistinctPaths, InflightOf, Paths;
  }

  lemma IsTaken(prm: Params, w: World, step: Step, w': World, batch: seq<Work>)
    requires step.Take? && step.batch == batch && MovedInflight(w, w', batch)
    ensures exists e :: HasEffect(prm, w, step, w', e)
  {
    hide MovedInflight;
    assert HasEffect(prm, w, step, w', TookBatch(batch));
  }

  lemma LoadAdopts(w: World, accepted: bool)
    requires w.pc.Loaded? && (accepted ==> w.disk.Some?) && w.live
    ensures var w' := DoLoadCache(w, accepted); AdoptedRows(w, w', w'.store.entries)
  {
    assert RetainPaths(map[], w.pc.paths) == map[];
    hide RetainPaths;
  }

  lemma IsAdopted(prm: Params, w: World, step: Step, w': World, rows: Entries)
    requires step.LoadCache? && AdoptedRows(w, w', rows)
    ensures exists e :: HasEffect(prm, w, step, w', e)
  {
    hide AdoptedRows;
    assert HasEffect(prm, w, step, w', Adopted(rows));
  }

  lemma LoadEffect(prm: Params, w: World, accepted: bool)
    requires w.pc.Loaded? && (accepted ==> w.disk.Some?)
    ensures exists e :: HasEffect(prm, w, LoadCache(accepted), DoLoadCache(w, accepted), e)
  {
    hide AdoptedRows, HasEffect;
    var w' := DoLoadCache(w, accepted);
    if w.live {
      LoadAdopts(w, accepted);
      hide DoLoadCache;
      IsAdopted(prm, w, LoadCache(accepted), w', w'.store.entries);
    } else {
      MoveEffect(prm, w, LoadCache(accepted), Stopped);
    }
  }

  lemma EnqueuesNewly(st: RState, st0: RState, paths: set<Path>, order: seq<Path>, now: nat)
    requires IsAttachOrder(st, paths, order) && st0.pending == st.pending && st0.nextGeneration == st.nextGeneration
    ensures var st' := EnqueueAll(st0, order, now);
            st' == st0.(pending := st'.pending, nextGeneration := st'.nextGeneration) && NewlyQueued(st, st', paths, now)
  {
    EnqueueAllAdds(st0, order, now);
    hide EnqueueAll;
    assert forall p :: p in EnqueueAll(st0, order, now).pending <==> p in st.pending || p in order;
  }

  lemma NewlyFrame(st: RState, st1: RState, st2: RState, paths: set<Path>, now: nat)
    requires NewlyQueued(st, st1, paths, now) && st2.pending == st1.pending
    ensures NewlyQueued(st, st2, paths, now)
  {
  }

  lemma AttachQueues(st: RState, paths: set<Path>, servable: bool, order: seq<Path>, now: nat)
    requires IsAttachOrder(st, paths, order)
    ensures var st' := Attach(st, paths, servable, order, now);
            && st' == st.(pending := st'.pending, nextGeneration := st'.nextGeneration, status := st'.status,
                          attached := true, storeQueryable := servable, initialStarted := true, initialRemaining := paths)
            && NewlyQueued(st, st', paths, now)
  {
    hide PendingStatus, EnqueueAll, NewlyQueued, IsAttachOrder;
    var st0 := st.(attached := true, storeQueryable := servable, initialStarted := true, initialRemaining := paths);
    EnqueuesNewly(st, st0, paths, order, now);
    NewlyFrame(st, EnqueueAll(st0, order, now), Attach(st, paths, servable, order, now), paths, now);
  }

  lemma IsPublished(prm: Params, w: World, step: Step, w': World, now: nat)
    requires step.AttachStore? && StartedPass(w, w', now)
    ensures exists e :: HasEffect(prm, w, step, w', e)
  {
    hide StartedPass;
    assert HasEffect(prm, w, step, w', Published(now));
  }

  lemma AttachEffect(prm: Params, w: World, order: seq<Path>, now: nat)
    requires w.pc.Attaching? && IsAttachOrder(w.st, w.pc.paths, order)
    ensures exists e :: HasEffect(prm, w, AttachStore(order, now), DoAttach(w, order, now), e)
  {
    var servable := w.cachePublishable && (w.pc.paths == {} || w.store.entries != map[]);
    AttachQueues(w.st, w.pc.paths, servable, order, now);
    hide Attach, IsAttachOrder, AttachedLatest, AttachedIntent, StartedPass, NewlyQueued, HasEffect;
    AttachStarts(w, order, now, Attach(w.st, w.pc.paths, servable, order, now), servable);
    IsPublished(prm, w, AttachStore(order, now), DoAttach(w, order, now), now);
  }

  lemma AttachStarts(w: World, order: seq<Path>, now: nat, st': RState, servable: bool)
    requires w.pc.Attaching? && NewlyQueued(w.st, st', w.pc.paths, now)
    requires st' == w.st.(pending := st'.pending, nextGeneration := st'.nextGeneration, status := st'.status,
                          attached := true, storeQueryable := servable, initialStarted := true,
                          initialRemaining := w.pc.paths)
    ensures StartedPass(
              w, w.(st := st', initial := w.pc.paths, latest := AttachedLatest(w.latest, order, st'),
                    intent := AttachedIntent(w.intent, order), pc := Finalizing), now)
  {
    hide AttachedLatest, AttachedIntent, NewlyQueued;
  }

  lemma QueueEffect(prm: Params, w: World, step: Step)
    requires Enabled(w, step) && (step.SubmitIntent? || step.Take? || step.LoadCache? || step.AttachStore?)
    ensures exists e :: HasEffect(prm, w, step, Apply(prm, w, step), e)
  {
    hide HasEffect, DoAttach, DoLoadCache, IsAttachOrder, TakeBatch, Submit, QueuedIntent, MovedInflight, StartedPass;
    match step
    case SubmitIntent(p, kind, now) =>
      SubmitQueues(w, p, kind, now);
      IsSubmitted(prm, w, step, Apply(prm, w, step), Work(p, w.st.nextGeneration + 1, kind, 0, now));
    case Take(batch, _) =>
      TakeMovesFooting(w, batch, Apply(prm, w, step).pc);
      IsTaken(prm, w, step, Apply(prm, w, step), batch);
    case LoadCache(accepted) =>
      LoadEffect(prm, w, accepted);
      assert Apply(prm, w, step) == DoLoadCache(w, accepted);
    case AttachStore(order, now) =>
      AttachEffect(prm, w, order, now);
      assert Apply(prm, w, step) == DoAttach(w, order, now);
  }

  lemma HandlingEffect(prm: Params, w: World, step: Step)
    requires Inv(prm, w) && Enabled(w, step) && !Moves(step)
    ensures exists e :: HasEffect(prm, w, step, Apply(prm, w, step), e)
  {
    hide Inv, DoSettle, DoCommit, DoFailedCommit, DoRequeue, Requeue, DoAttach, DoLoadCache, IsBatch, IsAttachOrder,
      TakeBatch, Submit;
    hide LeftForRetry, LeftSettled, LeftSuperseded, RowsRefused, Untroubled;
    var w' := Apply(prm, w, step);
    match step
    case SettleNext(now) => SettleEffect(prm, w, now);
    case CommitNext(error, now) => CommitEffect(prm, w, error, now);
    case RequeueFailedCommit(now) => FailingPosition(prm, w); FailedCommitEffect(prm, w, now);
    case RequeueNext(now) => RequeueNextEffect(prm, w, now);
    case _ => QueueEffect(prm, w, step);
  }

  /** Every step has one of the nine effects. */
  lemma StepEffect(prm: Params, w: World, step: Step)
    requires Inv(prm, w) && Enabled(w, step)
    ensures exists e :: HasEffect(prm, w, step, Apply(prm, w, step), e)
  {
    hide Inv, Enabled, Apply, Untroubled, HasEffect;
    if Moves(step) {
      MovesUntroubled(prm, w, step);
      IsStill(prm, w, step, Apply(prm, w, step));
    } else {
      HandlingEffect(prm, w, step);
    }
  }
}
