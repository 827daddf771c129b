/** Every step preserves the invariant; hence every reachable state satisfies it. */
module RuntimeSteps {
  import opened Common
  import opened EmbeddingStore
  import opened RuntimeState
  import opened RuntimeWorld
  import opened RuntimeInvariant
  import opened RuntimeProofs
  import opened RuntimeBatchProofs

  lemma SettlePosition(prm: Params, w: World)
    requires Inv(prm, w) && w.pc.Settling?
    ensures WellShaped(w.pc.b) && w.pc.i <= |w.pc.b.works| && StagesInv(w.pc) && w.st.attached
    ensures w.pc.i < |w.pc.b.works| ==> Outstanding(w.pc.b, w.pc.i) && HasRead(w.pc.b.stages[w.pc.i])
    ensures w.pc.i == |w.pc.b.works| ==> forall j :: 0 <= j < |w.pc.b.stages| ==> Settled(w.pc.b.stages[j])
  {
  }

  lemma KeepsSettleEnd(prm: Params, w: World)
    requires Inv(prm, w) && w.pc.Settling? && w.pc.i >= |w.pc.b.works|
    ensures Inv(prm, w.(pc := if AnyChanged(w.pc.b) then Embedding(w.pc.b) else Finalizing))
  {
    SettlePosition(prm, w);
    if AnyChanged(w.pc.b) {
      KeepsPhase(prm, w, Embedding(w.pc.b));
    } else {
      if w.live {
        BatchFinished(prm, w);
      }
      KeepsMove(prm, w, Finalizing);
    }
  }

  lemma KeepsSettleRemove(prm: Params, w: World)
    requires Inv(prm, w) && w.pc.Settling? && Outstanding(w.pc.b, w.pc.i) && w.pc.b.stages[w.pc.i].ToRemove?
    ensures var done := Settling(Set(w.pc.b, w.pc.i, Done), w.pc.i + 1);
            Inv(prm, CommitRemove(w, w.pc.b.works[w.pc.i]).(pc := done))
  {
    hide Inv, StagesInv, VectorInv;
    var done := Settling(Set(w.pc.b, w.pc.i, Done), w.pc.i + 1);
    SettlePosition(prm, w);
    SettlingMoves(prm, w.pc.b, w.pc.i, Done);
    if !w.live {
      KeepsDeadItem(prm, w, w.pc.i, done);
    } else if IsCurrent(w.st, w.pc.b.works[w.pc.i]) {
      KeepsCommitRemove(prm, w, w.pc.i, done);
    } else {
      KeepsSupersede(prm, w, w.pc.i, done);
    }
  }

  lemma KeepsSettleUnchanged(prm: Params, w: World)
    requires Inv(prm, w) && w.pc.Settling? && Outstanding(w.pc.b, w.pc.i) && w.pc.b.stages[w.pc.i].Prepared?
    requires Unchanged(prm, w.store, w.pc.b.works[w.pc.i].path, w.pc.b.stages[w.pc.i].body)
    ensures var done := Settling(Set(w.pc.b, w.pc.i, Done), w.pc.i + 1);
            Inv(prm, MarkUnchanged(w, w.pc.b.works[w.pc.i]).(pc := done))
  {
    hide Inv, StagesInv, VectorInv;
    var done := Settling(Set(w.pc.b, w.pc.i, Done), w.pc.i + 1);
    SettlePosition(prm, w);
    SettlingMoves(prm, w.pc.b, w.pc.i, Done);
    if IsCurrent(w.st, w.pc.b.works[w.pc.i]) {
      KeepsMarkUnchanged(prm, w, w.pc.i, done);
    } else {
      KeepsSupersede(prm, w, w.pc.i, done);
    }
  }

  lemma KeepsSettleUnreadable(prm: Params, w: World, now: nat)
    requires Inv(prm, w) && w.pc.Settling? && Outstanding(w.pc.b, w.pc.i) && w.pc.b.stages[w.pc.i].Unreadable?
    ensures var done := Settling(Set(w.pc.b, w.pc.i, Done), w.pc.i + 1);
            Inv(prm, Requeue(w, w.pc.b.works[w.pc.i], w.pc.b.stages[w.pc.i].error, now).(pc := done))
  {
    hide Inv, StagesInv, VectorInv;
    SettlePosition(prm, w);
    SettlingMoves(prm, w.pc.b, w.pc.i, Done);
    KeepsRequeue(
      prm, w, w.pc.i, w.pc.b.stages[w.pc.i].error, now, Settling(Set(w.pc.b, w.pc.i, Done), w.pc.i + 1));
  }

  lemma KeepsSettleChanged(prm: Params, w: World)
    requires Inv(prm, w) && w.pc.Settling? && Outstanding(w.pc.b, w.pc.i) && w.pc.b.stages[w.pc.i].Prepared?
    ensures var stage := w.pc.b.stages[w.pc.i];
            Inv(prm, w.(pc := Settling(Set(w.pc.b, w.pc.i, Changed(stage.headings, stage.body)), w.pc.i + 1)))
  {
    hide Inv, StagesInv, VectorInv;
    var stage := w.pc.b.stages[w.pc.i];
    SettlePosition(prm, w);
    SettlingMoves(prm, w.pc.b, w.pc.i, Changed(stage.headings, stage.body));
    KeepsMarkChanged(
      prm, w, w.pc.i, Settling(Set(w.pc.b, w.pc.i, Changed(stage.headings, stage.body)), w.pc.i + 1));
  }

  /** The four things settling one item can amount to. */
  lemma SettleCases(prm: Params, w: World, now: nat)
    requires w.pc.Settling? && WellShaped(w.pc.b) && w.pc.i < |w.pc.b.works| && HasRead(w.pc.b.stages[w.pc.i])
    ensures var b, i := w.pc.b, w.pc.i;
            var done, stage := Settling(Set(b, i, Done), i + 1), b.stages[i];
            DoSettle(prm, w, now) ==
            if stage.ToRemove? then CommitRemove(w, b.works[i]).(pc := done)
            else if stage.Unreadable? then Requeue(w, b.works[i], stage.error, now).(pc := done)
            else if Unchanged(prm, w.store, b.works[i].path, stage.body) then MarkUnchanged(w, b.works[i]).(pc := done)
            else w.(pc := Settling(Set(b, i, Changed(stage.headings, stage.body)), i + 1))
  {
    hide CommitRemove, Requeue, MarkUnchanged, Unchanged, Set;
    match w.pc.b.stages[w.pc.i]
    case ToRemove =>
    case Unreadable(_) =>
    case Prepared(_, _) =>
  }

  lemma KeepsSettleItem(prm: Params, w: World, now: nat)
    requires Inv(prm, w) && w.pc.Settling? && WellShaped(w.pc.b) && w.pc.i < |w.pc.b.works|
    ensures Inv(prm, DoSettle(prm, w, now))
  {
    hide Inv;
    SettlePosition(prm, w);
    SettleCases(prm, w, now);
    var stage := w.pc.b.stages[w.pc.i];
    if stage.ToRemove? {
      KeepsSettleRemove(prm, w);
    } else if stage.Unreadable? {
      KeepsSettleUnreadable(prm, w, now);
    } else if Unchanged(prm, w.store, w.pc.b.works[w.pc.i].path, stage.body) {
      KeepsSettleUnchanged(prm, w);
    } else {
      KeepsSettleChanged(prm, w);
    }
  }

  // ----- committing -----

  lemma CommitPosition(prm: Params, w: World)
    requires Inv(prm, w) && w.pc.Committing?
    ensures WellShaped(w.pc.b) && w.pc.i <= |w.pc.b.works| && StagesInv(w.pc) && w.st.attached && VectorInv(prm, w.pc)
    ensures w.pc.i < |w.pc.b.works| && w.pc.b.stages[w.pc.i].Changed? ==>
              Outstanding(w.pc.b, w.pc.i) && prm.pieces(w.pc.b.stages[w.pc.i].body) != []
    ensures w.pc.i == |w.pc.b.works| ==> forall j :: 0 <= j < |w.pc.b.stages| ==> w.pc.b.stages[j].Done?
  {
    if w.pc.i < |w.pc.b.works| && w.pc.b.stages[w.pc.i].Changed? {
      assert Outstanding(w.pc.b, w.pc.i) && HasPieces(prm, w.pc.b.stages[w.pc.i]);
    }
  }

  lemma KeepsEnd(prm: Params, w: World)
    requires Inv(prm, w) && InBatch(w.pc) && w.st.attached
    requires forall j :: 0 <= j < |w.pc.b.stages| ==> w.pc.b.stages[j].Done?
    ensures Inv(prm, w.(pc := Finalizing))
  {
    if w.live {
      BatchFinished(prm, w);
    }
    KeepsMove(prm, w, Finalizing);
  }

  lemma SkipMoves(prm: Params, b: Batch, i: nat, cursor: nat, vectors: seq<Vector>)
    requires StagesInv(Committing(b, i, cursor, vectors)) && VectorInv(prm, Committing(b, i, cursor, vectors))
    requires i < |b.works| && !b.stages[i].Changed?
    ensures StagesInv(Committing(b, i + 1, cursor, vectors)) && VectorInv(prm, Committing(b, i + 1, cursor, vectors))
  {
  }

  lemma FailingMoves(prm: Params, b: Batch, i: nat, next: nat, vectors: seq<Vector>, error: string)
    requires StagesInv(Committing(b, i, next, vectors)) && i < |b.works| && WellShaped(b) && b.stages[i].Changed?
    requires next <= |vectors| && vectors[next..] == EmbedAll(prm, FlatTexts(prm, b, i + 1))
    ensures var pc := CommitFailing(b, i, next, vectors, error); StagesInv(pc) && VectorInv(prm, pc)
  {
  }

  /** The state after committing one changed item, once the vectors are known to be the right ones. */
  function Committed(prm: Params, w: World, error: string, next: nat): World
    requires w.pc.Committing? && WellShaped(w.pc.b) && w.pc.i < |w.pc.b.works| && w.pc.b.stages[w.pc.i].Changed?
  {
    var Committing(b, i, cursor, vectors) := w.pc;
    var work, headings, body := b.works[i], b.stages[i].headings, b.stages[i].body;
    var p, done := work.path, Committing(Set(b, i, Done), i + 1, next, vectors);
    if !w.live then w.(pc := done)
    else if !IsCurrent(w.st, work) then w.(st := Supersede(w.st, p), pc := done)
    else if prm.modelDim == prm.storeDim then
      w.(store := w.store.(entries := RemoveNote(w.store.entries, p) + Fresh(prm, p, headings, body)),
         dirty := true, origin := w.origin[p := Origin(headings, body)],
         st := CommitSuccess(w.st, p), settledOnce := w.settledOnce + {p}, pc := done)
    else
      w.(store := w.store.(entries := RemoveNote(w.store.entries, p)), origin := Drop(w.origin, p),
         pc := CommitFailing(b, i, next, vectors, error))
  }

  /**
   * What committing one changed item amounts to. The "fewer vectors than chunks" branch is gone: the vectors
   * left always cover the notes left.
   */
  lemma CommitCases(prm: Params, w: World, error: string, now: nat)
    requires w.pc.Committing? && WellShaped(w.pc.b) && w.pc.i < |w.pc.b.works| && w.pc.b.stages[w.pc.i].Changed?
    requires VectorInv(prm, w.pc) && prm.pieces(w.pc.b.stages[w.pc.i].body) != []
    ensures var Committing(b, i, cursor, vectors) := w.pc;
            var next := cursor + |prm.pieces(b.stages[i].body)| + 1;
            && next <= |vectors| && vectors[next..] == EmbedAll(prm, FlatTexts(prm, b, i + 1))
            && DoCommit(prm, w, error, now) == Committed(prm, w, error, next)
  {
    hide CommitRows, Fresh, FlatTexts, PreparedTexts, CommitSuccess, Supersede;
    var Committing(b, i, cursor, vectors) := w.pc;
    NextSlice(prm, b, i, cursor, vectors);
    var next := cursor + |prm.pieces(b.stages[i].body)| + 1;
    CommitRowsResult(prm, w, b.works[i], b.stages[i].headings, b.stages[i].body, vectors[cursor..next]);
  }

  lemma KeepsCommitLive(prm: Params, w: World, error: string, next: nat, done: Pc, failing: Pc)
    requires Inv(prm, w) && w.pc.Committing? && w.live && Outstanding(w.pc.b, w.pc.i)
    requires w.pc.b.stages[w.pc.i].Changed? && IsCurrent(w.st, w.pc.b.works[w.pc.i])
    requires done == Committing(Set(w.pc.b, w.pc.i, Done), w.pc.i + 1, next, w.pc.vectors)
    requires failing == CommitFailing(w.pc.b, w.pc.i, next, w.pc.vectors, error)
    requires StagesInv(done) && VectorInv(prm, done) && StagesInv(failing) && VectorInv(prm, failing)
    ensures Inv(prm, Committed(prm, w, error, next))
  {
    hide Inv, StagesInv, VectorInv, Fresh, RemoveNote, CommitSuccess;
    if prm.modelDim == prm.storeDim {
      KeepsCommitOk(prm, w, w.pc.i, done);
    } else {
      KeepsCommitRefused(prm, w, w.pc.i, failing);
    }
  }

  lemma KeepsCommitted(prm: Params, w: World, error: string, next: nat, done: Pc, failing: Pc)
    requires Inv(prm, w) && w.pc.Committing? && Outstanding(w.pc.b, w.pc.i) && w.pc.b.stages[w.pc.i].Changed?
    requires done == Committing(Set(w.pc.b, w.pc.i, Done), w.pc.i + 1, next, w.pc.vectors)
    requires failing == CommitFailing(w.pc.b, w.pc.i, next, w.pc.vectors, error)
    requires StagesInv(done) && VectorInv(prm, done) && StagesInv(failing) && VectorInv(prm, failing)
    ensures Inv(prm, Committed(prm, w, error, next))
  {
    hide Inv, StagesInv, VectorInv;
    if !w.live {
      KeepsDeadItem(prm, w, w.pc.i, done);
    } else if IsCurrent(w.st, w.pc.b.works[w.pc.i]) {
      KeepsCommitLive(prm, w, error, next, done, failing);
    } else {
      KeepsSupersede(prm, w, w.pc.i, done);
    }
  }

  lemma KeepsCommitItem(prm: Params, w: World, error: string, now: nat)
    requires Inv(prm, w) && w.pc.Committing? && WellShaped(w.pc.b) && w.pc.i < |w.pc.b.works|
    requires w.pc.b.stages[w.pc.i].Changed?
    ensures Inv(prm, DoCommit(prm, w, error, now))
  {
    hide Inv;
    var Committing(b, i, cursor, vectors) := w.pc;
    CommitPosition(prm, w);
    CommitCases(prm, w, error, now);
    var next := cursor + |prm.pieces(b.stages[i].body)| + 1;
    CommittingMoves(prm, b, i, next, vectors);
    FailingMoves(prm, b, i, next, vectors, error);
    KeepsCommitted(
      prm, w, error, next, Committing(Set(b, i, Done), i + 1, next, vectors), CommitFailing(b, i, next, vectors, error));
  }

  lemma KeepsCommit(prm: Params, w: World, error: string, now: nat)
    requires Inv(prm, w) && w.pc.Committing? && WellShaped(w.pc.b)
    ensures Inv(prm, DoCommit(prm, w, error, now))
  {
    hide Inv;
    CommitPosition(prm, w);
    if w.pc.i >= |w.pc.b.works| {
      KeepsEnd(prm, w);
    } else if w.pc.b.stages[w.pc.i].Changed? {
      KeepsCommitItem(prm, w, error, now);
    } else {
      SkipMoves(prm, w.pc.b, w.pc.i, w.pc.cursor, w.pc.vectors);
      KeepsPhase(prm, w, Committing(w.pc.b, w.pc.i + 1, w.pc.cursor, w.pc.vectors));
    }
  }

  lemma FailingPosition(prm: Params, w: World)
    requires Inv(prm, w) && w.pc.CommitFailing?
    ensures Outstanding(w.pc.b, w.pc.i) && WellShaped(w.pc.b)
    ensures var done := Committing(Set(w.pc.b, w.pc.i, Done), w.pc.i + 1, w.pc.cursor, w.pc.vectors);
            StagesInv(done) && VectorInv(prm, done)
  {
    assert StagesInv(w.pc) && VectorInv(prm, w.pc);
    CommittingMoves(prm, w.pc.b, w.pc.i, w.pc.cursor, w.pc.vectors);
  }

  lemma FailedCommitShape(w: World, now: nat)
    requires w.pc.CommitFailing? && WellShaped(w.pc.b) && w.pc.i < |w.pc.b.works|
    ensures var CommitFailing(b, i, cursor, vectors, error) := w.pc;
            DoFailedCommit(w, now) ==
            Requeue(w, b.works[i], error, now).(pc := Committing(Set(b, i, Done), i + 1, cursor, vectors))
  {
    hide Requeue, Set;
  }

  lemma KeepsRequeueFailedCommit(prm: Params, w: World, now: nat)
    requires Inv(prm, w) && w.pc.CommitFailing? && WellShaped(w.pc.b) && w.pc.i < |w.pc.b.works|
    ensures Inv(prm, DoFailedCommit(w, now))
  {
    FailingPosition(prm, w);
    FailedCommitShape(w, now);
    hide Inv, StagesInv, VectorInv, Requeue, DoFailedCommit;
    KeepsRequeue(
      prm, w, w.pc.i, w.pc.error, now, Committing(Set(w.pc.b, w.pc.i, Done), w.pc.i + 1, w.pc.cursor, w.pc.vectors));
  }

  // ----- requeueing a whole batch -----

  lemma RequeuePosition(prm: Params, w: World)
    requires Inv(prm, w) && w.pc.Requeueing?
    ensures WellShaped(w.pc.b) && StagesInv(w.pc) && w.st.attached
  {
  }

  lemma KeepsRequeueItem(prm: Params, w: World, now: nat)
    requires Inv(prm, w) && w.pc.Requeueing? && Outstanding(w.pc.b, w.pc.i)
    ensures Inv(prm, Requeue(w, w.pc.b.works[w.pc.i], w.pc.error, now).(
                       pc := Requeueing(Set(w.pc.b, w.pc.i, Done), w.pc.i + 1, w.pc.error)))
  {
    RequeuePosition(prm, w);
    RequeueingMoves(prm, w.pc.b, w.pc.i, w.pc.error);
    KeepsRequeue(
      prm, w, w.pc.i, w.pc.error, now, Requeueing(Set(w.pc.b, w.pc.i, Done), w.pc.i + 1, w.pc.error));
  }

  lemma KeepsRequeueSkip(prm: Params, w: World)
    requires Inv(prm, w) && w.pc.Requeueing? && w.pc.i < |w.pc.b.stages| && w.pc.b.stages[w.pc.i].Done?
    ensures Inv(prm, w.(pc := Requeueing(w.pc.b, w.pc.i + 1, w.pc.error)))
  {
    RequeuePosition(prm, w);
    RequeueingMoves(prm, w.pc.b, w.pc.i, w.pc.error);
    KeepsPhase(prm, w, Requeueing(w.pc.b, w.pc.i + 1, w.pc.error));
  }

  lemma KeepsRequeueNext(prm: Params, w: World, now: nat)
    requires Inv(prm, w) && w.pc.Requeueing? && WellShaped(w.pc.b)
    ensures Inv(prm, DoRequeue(w, now))
  {
    hide Inv, VectorInv, Requeue, Set;
    RequeuePosition(prm, w);
    var Requeueing(b, i, error) := w.pc;
    if i >= |b.works| {
      KeepsEnd(prm, w);
      assert DoRequeue(w, now) == w.(pc := Finalizing);
    } else if b.stages[i].Done? {
      KeepsRequeueSkip(prm, w);
      assert DoRequeue(w, now) == w.(pc := Requeueing(b, i + 1, error));
    } else {
      KeepsRequeueItem(prm, w, now);
      assert DoRequeue(w, now) == Requeue(w, b.works[i], error, now).(pc := Requeueing(Set(b, i, Done), i + 1, error));
    }
  }

  // ----- submitting -----

  lemma SubmitGenerations(
    pending: map<Path, Work>, inflight: map<Path, nat>, newest: nat, latest: map<Path, nat>, intent: map<Path, Kind>,
    p: Path, kind: Kind, now: nat)
    requires GenerationInv(pending, inflight, newest, latest, intent)
    ensures GenerationInv(pending[p := Work(p, newest + 1, kind, 0, now)], inflight, newest + 1,
                          latest[p := newest + 1], intent[p := kind])
  {
  }

  lemma SubmitReconciles(st: RState, st': RState, p: Path, settledOnce: set<Path>, initial: set<Path>,
    publishable: bool)
    requires ReconciliationInv(st, settledOnce, initial, publishable)
    requires st' == st.(pending := st'.pending, nextGeneration := st'.nextGeneration, status := st'.status)
    requires st'.pending.Keys == st.pending.Keys + {p}
    ensures ReconciliationInv(st', settledOnce, initial, publishable)
  {
  }

  lemma SubmitWork(
    pc: Pc, pending: map<Path, Work>, pending': map<Path, Work>, inflight: map<Path, nat>, intent: map<Path, Kind>,
    p: Path, kind: Kind, live: bool)
    requires WorkInv(pc, pending, inflight, intent, live) && pending'.Keys == pending.Keys + {p}
    ensures WorkInv(pc, pending', inflight, intent[p := kind], live)
  {
    if InBatch(pc) {
      forall i | Outstanding(pc.b, i) ensures OnItsWay(pc.b.works[i], pending', inflight, intent[p := kind]) {
        assert OnItsWay(pc.b.works[i], pending, inflight, intent);
      }
    }
  }

  lemma SubmitObserves(prm: Params, w: World, pending': map<Path, Work>, unsubmitted': set<Path>)
    requires ObservationInv(prm, w.pc, w.st.pending, w.unsubmitted, w.metas, w.files)
    requires forall p :: Untouched(pending', unsubmitted', p) ==> Untouched(w.st.pending, w.unsubmitted, p)
    ensures ObservationInv(prm, w.pc, pending', unsubmitted', w.metas, w.files)
  {
  }

  lemma SubmitQuiet(prm: Params, w: World, w': World, p: Path)
    requires QuietInv(prm, w) && w'.pc == w.pc && w'.st.attached == w.st.attached && w'.st.inflight == w.st.inflight
    requires w'.st.pending.Keys == w.st.pending.Keys + {p} && w'.latest.Keys == w.latest.Keys + {p}
    requires w'.unsubmitted == w.unsubmitted - {p}
    requires w'.metas == w.metas && w'.files == w.files && w'.origin == w.origin
    requires forall q :: q != p ==> (q in w'.intent <==> q in w.intent) && (q in w.intent && q in w'.intent ==> w'.intent[q] == w.intent[q])
    ensures QuietInv(prm, w')
  {
    forall q | w'.st.attached && Quiet(w', q) ensures Agrees(prm, w', q) {
      assert q != p && Quiet(w, q) && Agrees(prm, w, q);
    }
    forall q | (w'.pc.Loaded? || w'.pc.Attaching?) && Untouched(w'.st.pending, w'.unsubmitted, q)
      ensures q in w'.pc.paths <==> q in w'.metas
    {
      assert q != p && Untouched(w.st.pending, w.unsubmitted, q);
    }
  }

  lemma KeepsSubmittedWorld(prm: Params, w: World, w': World, p: Path, kind: Kind, now: nat)
    requires Inv(prm, w)
    requires w' == w.(st := w'.st, unsubmitted := w.unsubmitted - {p},
                      latest := w.latest[p := w.st.nextGeneration + 1], intent := w.intent[p := kind])
    requires w'.st == w.st.(pending := w.st.pending[p := Work(p, w.st.nextGeneration + 1, kind, 0, now)],
                            nextGeneration := w.st.nextGeneration + 1, status := w'.st.status)
    ensures Inv(prm, w')
  {
    hide GenerationInv, StagesInv, WorkInv, ReconciliationInv, ComputedFrom, DiskComputedFrom, ObservationInv,
      QuietInv, VectorInv, CacheInv;
    SubmitGenerations(w.st.pending, w.st.inflight, w.st.nextGeneration, w.latest, w.intent, p, kind, now);
    SubmitReconciles(w.st, w'.st, p, w.settledOnce, w.initial, w.cachePublishable);
    SubmitWork(w.pc, w.st.pending, w'.st.pending, w.st.inflight, w.intent, p, kind, w.live);
    SubmitObserves(prm, w, w'.st.pending, w'.unsubmitted);
    SubmitQuiet(prm, w, w', p);
  }
}
