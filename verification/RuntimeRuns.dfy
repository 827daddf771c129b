/** Every step keeps the invariant; hence every state of every run satisfies it. */
module RuntimeRuns {
  import opened Common
  import opened EmbeddingStore
  import opened RuntimeState
  import opened RuntimeWorld
  import opened RuntimeInvariant
  import opened RuntimeProofs
  import opened RuntimeBatchProofs
  import opened RuntimeSteps

  // ----- one step -----

  predicate BetweenBatches(pc: Pc) {
    pc.Finalizing? || pc.Refreshing? || pc.MayPersist? || pc.LoopTop? || pc.Taking?
  }

  lemma BetweenFacts(prm: Params, w: World)
    requires Inv(prm, w) && BetweenBatches(w.pc)
    ensures w.st.attached && (w.live || w.pc.Taking? ==> w.st.inflight == map[])
  {
  }

  lemma KeepsFinalizePass(prm: Params, w: World)
    requires Inv(prm, w) && w.pc.Finalizing?
    ensures Inv(prm, DoFinalize(w))
  {
    BetweenFacts(prm, w);
    hide Inv, Finalize, MayServe;
    KeepsMove(prm, w, Refreshing);
    KeepsFinalize(prm, w.(pc := Refreshing), MayServe(w));
  }

  lemma KeepsPersist(prm: Params, w: World)
    requires Inv(prm, w) && w.pc.MayPersist? && w.dirty && w.live
    ensures Inv(prm, w.(
                  disk := Some(w.store), diskOrigin := w.origin, dirty := false, synced := true,
                  st := w.st.(persistenceError := None), pc := Refreshing))
  {
    BetweenFacts(prm, w);
    hide Inv;
    KeepsReport(prm, w, w.st.status, None, Refreshing);
    KeepsPersistOk(prm, w.(st := w.st.(persistenceError := None), pc := Refreshing));
  }

  lemma TakeNothing(st: RState)
    ensures DistinctPaths([]) && TakeBatch(st, []) == st.(status := TakeBatch(st, []).status)
  {
    assert (map p | p in st.pending && p !in Paths([]) :: st.pending[p]) == st.pending;
    assert st.inflight + InflightOf([]) == st.inflight;
  }

  lemma KeepsTake(prm: Params, w: World, batch: seq<Work>, now: nat)
    requires Inv(prm, w) && w.pc.Taking? && IsBatch(w.st, now, batch)
    ensures Inv(prm, w.(
                  st := TakeBatch(w.st, batch),
                  pc := if batch == [] then MayPersist else Snapshotting(Batch(batch, seq(|batch|, i => Taken)))))
  {
    BetweenFacts(prm, w);
    hide Inv, Moved;
    if batch == [] {
      TakeNothing(w.st);
      KeepsReport(prm, w, TakeBatch(w.st, []).status, w.st.persistenceError, MayPersist);
    } else {
      TakeMoves(w.st, now, batch);
      KeepsTakenWorld(
        prm, w, w.(st := TakeBatch(w.st, batch), pc := Snapshotting(Batch(batch, seq(|batch|, i => Taken)))), batch);
    }
  }

  lemma KeepsRead(prm: Params, w: World, error: string)
    requires Inv(prm, w) && w.pc.Reading? && WellShaped(w.pc.b)
    ensures Inv(prm, DoReadFile(prm, w, error))
  {
    if w.pc.i < |w.pc.b.works| {
      KeepsReadFile(prm, w, error);
    } else {
      KeepsPhase(prm, w, Settling(w.pc.b, 0));
    }
  }

  lemma KeepsEmbedOk(prm: Params, w: World)
    requires Inv(prm, w) && w.pc.Embedding? && WellShaped(w.pc.b)
    ensures Inv(prm, w.(pc := Committing(w.pc.b, 0, 0, EmbedAll(prm, FlatTexts(prm, w.pc.b, 0)))))
  {
    assert StagesInv(w.pc);
    hide Inv;
    var vectors := EmbedAll(prm, FlatTexts(prm, w.pc.b, 0));
    assert vectors[0..] == vectors;
    KeepsPhase(prm, w, Committing(w.pc.b, 0, 0, vectors));
  }

  lemma KeepsAllFail(prm: Params, w: World, error: string)
    requires Inv(prm, w) && InBatch(w.pc)
    ensures Inv(prm, w.(pc := Requeueing(w.pc.b, 0, error)))
  {
    hide Inv;
    KeepsPhase(prm, w, Requeueing(w.pc.b, 0, error));
  }

  predicate ByProducer(step: Step) {
    step.EditFile? || step.EditIndex? || step.SubmitIntent? || step.ClearLive? || step.AbortWorker?
  }

  predicate AtStartup(step: Step) {
    step.LoaderFails? || step.LoaderSucceeds? || step.LoadCache? || step.AttachStore?
  }

  predicate InBatchLoop(step: Step) {
    step.Take? || step.ReadMetadata? || step.PreparationFails? || step.ReadFile? || step.SettleNext? ||
    step.EmbedOk? || step.EmbedFails? || step.CommitNext? || step.RequeueFailedCommit? || step.RequeueNext?
  }

  lemma KeepsEdits(prm: Params, w: World, p: Path, content: Option<string>, headings: Option<seq<string>>)
    requires Inv(prm, w)
    ensures Inv(prm, Apply(prm, w, EditFile(p, content)))
    ensures Inv(prm, Apply(prm, w, EditIndex(p, headings)))
  {
    hide Inv, Update, SameNote;
    EditTouchesOnly(w, p, content, headings);
    KeepsEdit(prm, w, Apply(prm, w, EditFile(p, content)), p);
    KeepsEdit(prm, w, Apply(prm, w, EditIndex(p, headings)), p);
  }

  lemma KeepsSubmit(prm: Params, w: World, p: Path, kind: Kind, now: nat)
    requires Inv(prm, w)
    ensures Inv(prm, w.(
                  st := Submit(w.st, p, kind, now), unsubmitted := w.unsubmitted - {p},
                  latest := w.latest[p := w.st.nextGeneration + 1], intent := w.intent[p := kind]))
  {
    hide Inv, PendingStatus;
    KeepsSubmittedWorld(prm, w, w.(
      st := Submit(w.st, p, kind, now), unsubmitted := w.unsubmitted - {p},
      latest := w.latest[p := w.st.nextGeneration + 1], intent := w.intent[p := kind]), p, kind, now);
  }

  lemma KeepsProducer(prm: Params, w: World, step: Step)
    requires Inv(prm, w) && Enabled(w, step) && ByProducer(step)
    ensures Inv(prm, Apply(prm, w, step))
  {
    hide Inv, Update, Submit;
    match step
    case EditFile(p, content) => KeepsEdits(prm, w, p, content, None);
    case EditIndex(p, headings) => KeepsEdits(prm, w, p, None, headings);
    case SubmitIntent(p, kind, now) => KeepsSubmit(prm, w, p, kind, now);
    case ClearLive => KeepsClearLive(prm, w);
    case AbortWorker => KeepsMove(prm, w, Stopped);
  }

  lemma KeepsStartup(prm: Params, w: World, step: Step)
    requires Inv(prm, w) && Enabled(w, step) && AtStartup(step)
    ensures Inv(prm, Apply(prm, w, step))
  {
    hide Inv, IsAttachOrder, DoAttach;
    match step
    case LoaderFails(error) =>
      KeepsReport(
        prm, w, Status(Degraded, false, 0, |w.metas|, |w.st.pending.Keys + w.st.inflight.Keys|, Some(error)),
        w.st.persistenceError, Stopped);
    case LoaderSucceeds => if w.live { KeepsLoaderSucceeds(prm, w); } else { KeepsMove(prm, w, Stopped); }
    case LoadCache(accepted) => if w.live { KeepsLoadCache(prm, w, accepted); } else { KeepsMove(prm, w, Stopped); }
    case AttachStore(order, now) => KeepsAttach(prm, w, order, now);
  }

  lemma KeepsRefresh(prm: Params, w: World, total: nat, indexed: nat, failure: Option<string>)
    requires Inv(prm, w) && w.pc.Refreshing?
    ensures Inv(prm, w.(st := w.st.(status := RefreshedStatus(w.st, total, indexed, failure)), pc := MayPersist))
  {
    BetweenFacts(prm, w);
    hide Inv, RefreshedStatus;
    KeepsReport(prm, w, RefreshedStatus(w.st, total, indexed, failure), w.st.persistenceError, MayPersist);
  }

  lemma KeepsBetween(prm: Params, w: World, step: Step)
    requires Inv(prm, w) && Enabled(w, step) && !ByProducer(step) && !AtStartup(step) && !InBatchLoop(step)
    ensures Inv(prm, Apply(prm, w, step))
  {
    BetweenFacts(prm, w);
    hide Inv, PicksFailure, RefreshedStatus, DoFinalize;
    match step
    case FinalizePass => KeepsFinalizePass(prm, w);
    case Refresh(total, indexed, failure) => KeepsRefresh(prm, w, total, indexed, failure);
    case PersistOk => KeepsPersist(prm, w);
    case PersistFails(error) => KeepsReport(prm, w, w.st.status, Some(error), Refreshing);
    case PersistRefused => KeepsMove(prm, w, Stopped);
    case SkipPersist => KeepsMove(prm, w, LoopTop);
    case CheckLive => KeepsMove(prm, w, if w.live then Taking else Stopped);
  }

  lemma KeepsPrepare(prm: Params, w: World, step: Step)
    requires Inv(prm, w) && Enabled(w, step)
    requires step.Take? || step.ReadMetadata? || step.PreparationFails? || step.ReadFile?
    ensures Inv(prm, Apply(prm, w, step))
  {
    hide Inv, TakeBatch, IsBatch, DoReadFile;
    match step
    case Take(batch, now) => KeepsTake(prm, w, batch, now);
    case ReadMetadata => KeepsReadMetadata(prm, w);
    case PreparationFails(error) => KeepsAllFail(prm, w, error);
    case ReadFile(error) => KeepsRead(prm, w, error);
  }

  lemma KeepsSettleNext(prm: Params, w: World, now: nat)
    requires Inv(prm, w) && w.pc.Settling? && WellShaped(w.pc.b)
    ensures Inv(prm, DoSettle(prm, w, now))
  {
    hide Inv;
    if w.pc.i < |w.pc.b.works| {
      KeepsSettleItem(prm, w, now);
    } else {
      KeepsSettleEnd(prm, w);
    }
  }

  lemma KeepsSettling(prm: Params, w: World, step: Step)
    requires Inv(prm, w) && Enabled(w, step)
    requires step.SettleNext? || step.EmbedOk? || step.EmbedFails? || step.CommitNext? || step.RequeueFailedCommit? || step.RequeueNext?
    ensures Inv(prm, Apply(prm, w, step))
  {
    hide Inv, DoSettle, DoCommit, DoFailedCommit, DoRequeue, Requeue, EmbedAll, FlatTexts;
    match step
    case SettleNext(now) => KeepsSettleNext(prm, w, now);
    case EmbedOk => KeepsEmbedOk(prm, w);
    case EmbedFails(error) => KeepsAllFail(prm, w, error);
    case CommitNext(error, now) => KeepsCommit(prm, w, error, now);
    case RequeueFailedCommit(now) => KeepsRequeueFailedCommit(prm, w, now);
    case RequeueNext(now) => KeepsRequeueNext(prm, w, now);
  }

  /** The invariant is inductive. */
  lemma Keeps(prm: Params, w: World, step: Step)
    requires Inv(prm, w) && Enabled(w, step)
    ensures Inv(prm, Apply(prm, w, step))
  {
    hide Inv, Apply, Enabled;
    if ByProducer(step) {
      KeepsProducer(prm, w, step);
    } else if AtStartup(step) {
      KeepsStartup(prm, w, step);
    } else if !InBatchLoop(step) {
      KeepsBetween(prm, w, step);
    } else if step.Take? || step.ReadMetadata? || step.PreparationFails? || step.ReadFile? {
      KeepsPrepare(prm, w, step);
    } else {
      KeepsSettling(prm, w, step);
    }
  }

  // ----- runs -----

  /** A run from spawning: states and the steps between them. */
  ghost predicate Run(prm: Params, states: seq<World>, steps: seq<Step>) {
    && |states| == |steps| + 1
    && Init(prm, states[0])
    && forall k :: 0 <= k < |steps| ==> Enabled(states[k], steps[k]) && states[k + 1] == Apply(prm, states[k], steps[k])
  }

  lemma {:induction false} RunInv(prm: Params, states: seq<World>, steps: seq<Step>, k: nat)
    requires Run(prm, states, steps) && k < |states|
    ensures Inv(prm, states[k])
  {
    hide Inv, Init, Apply, Enabled;
    if k == 0 {
      InitInv(prm, states[0]);
    } else {
      RunInv(prm, states, steps, k - 1);
      Keeps(prm, states[k - 1], steps[k - 1]);
    }
  }
}
