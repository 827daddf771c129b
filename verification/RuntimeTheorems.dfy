/** What the runtime guarantees in every interleaving: latest intent wins, nothing is lost, nothing is early. */
module RuntimeTheorems {
  import opened Common
  import opened EmbeddingStore
  import opened RuntimeState
  import opened RuntimeWorld
  import opened RuntimeInvariant
  import opened RuntimeProofs
  import opened RuntimeBatchProofs
  import opened RuntimeSteps
  import opened RuntimeRuns
  import opened RuntimeEffects

  // ----- latest intent wins -----

  /** The coordinator is at an unfinished item for `p` that carries the last intent submitted for it. */
  predicate AtLatest(w: World, p: Path) {
    && HandlesItem(w.pc) && Outstanding(w.pc.b, w.pc.i) && w.pc.b.works[w.pc.i].path == p
    && p !in w.st.pending && p in w.st.inflight && p in w.latest && w.pc.b.works[w.pc.i].generation == w.latest[p]
    && p in w.intent && w.pc.b.works[w.pc.i].kind == w.intent[p]
  }

  lemma CurrentIsLatest(prm: Params, w: World, work: Work)
    requires Inv(prm, w) && AtItem(w.pc, work) && IsCurrent(w.st, work)
    ensures AtLatest(w, work.path)
  {
    ItemOnItsWay(prm, w, w.pc.i);
    CurrentIsNotPending(w.st, work, w.latest, w.intent);
  }

  lemma NotCurrentIsPending(prm: Params, w: World, work: Work)
    requires Inv(prm, w) && AtItem(w.pc, work) && !IsCurrent(w.st, work)
    ensures work.path in w.st.pending
  {
    ItemOnItsWay(prm, w, w.pc.i);
  }

  lemma RowsElsewhere(entries: Entries, entries': Entries, p: Path)
    requires RemoveNote(entries', p) == RemoveNote(entries, p)
    ensures forall q :: q != p ==> EntriesOf(entries', q) == EntriesOf(entries, q)
  {
    forall q | q != p ensures EntriesOf(entries', q) == EntriesOf(entries, q) {
      assert EntriesOf(entries', q) == EntriesOf(RemoveNote(entries', p), q);
      assert EntriesOf(entries, q) == EntriesOf(RemoveNote(entries, p), q);
    }
  }

  lemma QueueStepsKeepRows(prm: Params, w: World, step: Step)
    requires Inv(prm, w) && Enabled(w, step) && w.st.attached
    requires step.SubmitIntent? || step.Take? || step.LoadCache? || step.AttachStore?
    ensures Apply(prm, w, step).store == w.store
  {
    assert AttachInv(w.pc, w.st.attached);
  }

  predicate FromItem(e: Effect) {
    e.Still? || e.Superseded? || e.Succeeded? || e.Retried? || e.Refused?
  }

  predicate OnQueue(step: Step) {
    step.SubmitIntent? || step.Take? || step.LoadCache? || step.AttachStore?
  }

  lemma EffectRows(prm: Params, w: World, step: Step, w': World, e: Effect, p: Path)
    requires Inv(prm, w) && HasEffect(prm, w, step, w', e) && FromItem(e)
    ensures EntriesOf(w'.store.entries, p) == EntriesOf(w.store.entries, p) || (w.live && AtLatest(w, p))
  {
    hide Inv, AtLatest;
    match e
    case Still =>
    case Superseded(_) =>
    case Retried(_, _, _) =>
    case Succeeded(work) =>
      CurrentIsLatest(prm, w, work);
      RowsElsewhere(w.store.entries, w'.store.entries, work.path);
    case Refused(work) =>
      CurrentIsLatest(prm, w, work);
      RemoveNoteOwnership(w.store.entries, work.path);
  }

  lemma QueueOrItem(prm: Params, w: World, step: Step, w': World, e: Effect)
    requires HasEffect(prm, w, step, w', e)
    ensures FromItem(e) || OnQueue(step)
  {
    hide Untroubled, LeftSuperseded, LeftSettled, LeftForRetry, RowsRefused;
  }

  /**
   * Rows change only while the runtime lives, only for the note whose item is being committed, and only under the
   * last intent submitted for that note.
   */
  lemma RowsFollowLatestIntent(prm: Params, w: World, step: Step, p: Path)
    requires Inv(prm, w) && Enabled(w, step) && w.st.attached
    ensures EntriesOf(Apply(prm, w, step).store.entries, p) == EntriesOf(w.store.entries, p) ||
            (w.live && AtLatest(w, p))
  {
    hide Inv, Apply, Enabled, HasEffect, AtLatest;
    StepEffect(prm, w, step);
    var w' := Apply(prm, w, step);
    var e :| HasEffect(prm, w, step, w', e);
    QueueOrItem(prm, w, step, w', e);
    if FromItem(e) {
      EffectRows(prm, w, step, w', e, p);
    } else {
      QueueStepsKeepRows(prm, w, step);
    }
  }

  /** What one step does to a pending intent. */
  datatype Fate = Kept | Replaced | TakenAsIs | Lost

  function FateOf(st: RState, step: Step, st': RState, p: Path): Fate
    requires p in st.pending
  {
    if p in st'.pending && st'.pending[p] == st.pending[p] then Kept
    else if step.SubmitIntent? && step.p == p && p in st'.pending && st'.pending[p].generation > st.pending[p].generation
    then Replaced
    else if step.Take? && p !in st'.pending && p in st'.inflight && st'.inflight[p] == st.pending[p].generation
    then TakenAsIs
    else Lost
  }

  lemma SameKeepsPending(st: RState, step: Step, st': RState, p: Path)
    requires p in st.pending && p in st'.pending && st'.pending[p] == st.pending[p]
    ensures FateOf(st, step, st', p) != Lost
  {
  }

  lemma EffectKeepsPending(prm: Params, w: World, step: Step, w': World, e: Effect, p: Path)
    requires Inv(prm, w) && HasEffect(prm, w, step, w', e) && FromItem(e) && p in w.st.pending
    ensures FateOf(w.st, step, w'.st, p) != Lost
  {
    hide Inv, FateOf, RemoveNote;
    match e
    case Retried(work, _, _) =>
      CurrentIsLatest(prm, w, work);
      SameKeepsPending(w.st, step, w'.st, p);
    case _ => SameKeepsPending(w.st, step, w'.st, p);
  }

  lemma NewerThanPending(prm: Params, w: World, p: Path)
    requires Inv(prm, w) && p in w.st.pending
    ensures w.st.pending[p].generation <= w.st.nextGeneration
  {
  }

  lemma SubmitKeepsPending(st: RState, q: Path, kind: Kind, now: nat, p: Path)
    requires p in st.pending && st.pending[p].generation <= st.nextGeneration
    ensures FateOf(st, SubmitIntent(q, kind, now), Submit(st, q, kind, now), p) != Lost
  {
  }

  lemma TakeKeepsPending(st: RState, batch: seq<Work>, now: nat, p: Path)
    requires st.inflight == map[] && IsBatch(st, now, batch) && p in st.pending
    ensures FateOf(st, Take(batch, now), TakeBatch(st, batch), p) != Lost
  {
    TakeMoves(st, now, batch);
    hide IsBatch, TakeBatch;
    MovedKeepsPending(st, batch, now, TakeBatch(st, batch), p);
  }

  lemma MovedKeepsPending(st: RState, batch: seq<Work>, now: nat, st': RState, p: Path)
    requires Moved(st, st', batch) && p in st.pending
    ensures FateOf(st, Take(batch, now), st', p) != Lost
  {
    if p in Paths(batch) {
      var i :| 0 <= i < |batch| && batch[i].path == p;
    }
  }

  lemma AttachKeepsPending(st: RState, paths: set<Path>, servable: bool, order: seq<Path>, now: nat, p: Path)
    requires IsAttachOrder(st, paths, order) && p in st.pending
    ensures FateOf(st, AttachStore(order, now), Attach(st, paths, servable, order, now), p) != Lost
  {
    AttachHasShape(st, paths, servable, order, now);
  }

  function ServableCache(w: World): bool
    requires w.pc.Attaching?
  {
    w.cachePublishable && (w.pc.paths == {} || w.store.entries != map[])
  }

  lemma SubmitFate(prm: Params, w: World, step: Step, p: Path)
    requires Inv(prm, w) && step.SubmitIntent? && p in w.st.pending
    ensures FateOf(w.st, step, Apply(prm, w, step).st, p) != Lost
  {
    hide Inv, FateOf, Submit;
    NewerThanPending(prm, w, p);
    SubmitKeepsPending(w.st, step.p, step.kind, step.now, p);
  }

  lemma TakeFate(prm: Params, w: World, step: Step, p: Path)
    requires Inv(prm, w) && Enabled(w, step) && step.Take? && p in w.st.pending
    ensures FateOf(w.st, step, Apply(prm, w, step).st, p) != Lost
  {
    hide Inv, FateOf, IsBatch, TakeBatch;
    BetweenFacts(prm, w);
    TakeKeepsPending(w.st, step.batch, step.now, p);
  }

  lemma LoadFate(prm: Params, w: World, step: Step, p: Path)
    requires Enabled(w, step) && step.LoadCache? && p in w.st.pending
    ensures FateOf(w.st, step, Apply(prm, w, step).st, p) != Lost
  {
    hide FateOf;
    SameKeepsPending(w.st, step, w.st, p);
  }

  lemma AttachFate(prm: Params, w: World, step: Step, p: Path)
    requires Enabled(w, step) && step.AttachStore? && p in w.st.pending
    ensures FateOf(w.st, step, Apply(prm, w, step).st, p) != Lost
  {
    hide FateOf, IsAttachOrder, Attach;
    AttachKeepsPending(w.st, w.pc.paths, ServableCache(w), step.order, step.now, p);
  }

  lemma QueueKeepsPending(prm: Params, w: World, step: Step, p: Path)
    requires Inv(prm, w) && Enabled(w, step) && OnQueue(step) && p in w.st.pending
    ensures FateOf(w.st, step, Apply(prm, w, step).st, p) != Lost
  {
    hide Inv, FateOf, Apply, Enabled;
    if step.SubmitIntent? {
      SubmitFate(prm, w, step, p);
    } else if step.Take? {
      TakeFate(prm, w, step, p);
    } else if step.LoadCache? {
      LoadFate(prm, w, step, p);
    } else {
      AttachFate(prm, w, step, p);
    }
  }

  /** A pending intent is never lost and is replaced only by a newer one, whatever becomes of older work. */
  lemma PendingIntentKept(prm: Params, w: World, step: Step, p: Path)
    requires Inv(prm, w) && Enabled(w, step) && p in w.st.pending
    ensures FateOf(w.st, step, Apply(prm, w, step).st, p) != Lost
  {
    hide Inv, Apply, HasEffect, Enabled, FateOf;
    StepEffect(prm, w, step);
    var w' := Apply(prm, w, step);
    var e :| HasEffect(prm, w, step, w', e);
    QueueOrItem(prm, w, step, w', e);
    if FromItem(e) {
      EffectKeepsPending(prm, w, step, w', e, p);
    } else {
      QueueKeepsPending(prm, w, step, p);
    }
  }

  // ----- nothing is lost -----

  function OutstandingPaths(st: RState): set<Path> {
    st.pending.Keys + st.inflight.Keys
  }

  /**
   * How an intent that was outstanding can be so no more: in this very step its own item, the latest, was carried out
   * and left the queue.
   */
  predicate Resolved(w: World, w': World, p: Path) {
    && AtLatest(w, p)
    && p !in w'.st.pending && p !in w'.st.inflight
    && p in w'.settledOnce && p !in w'.st.failures && p !in w'.st.initialRemaining
  }

  lemma EffectKeepsOutstanding(prm: Params, w: World, step: Step, w': World, e: Effect, p: Path)
    requires Inv(prm, w) && HasEffect(prm, w, step, w', e) && FromItem(e) && p in OutstandingPaths(w.st)
    ensures p in OutstandingPaths(w'.st) || Resolved(w, w', p)
  {
    hide Inv, AtLatest, RemoveNote;
    match e
    case Succeeded(work) => CurrentIsLatest(prm, w, work);
    case Superseded(work) => NotCurrentIsPending(prm, w, work);
    case _ =>
  }

  lemma SubmitKeepsOutstanding(prm: Params, w: World, step: Step)
    requires step.SubmitIntent?
    ensures OutstandingPaths(w.st) <= OutstandingPaths(Apply(prm, w, step).st)
  {
  }

  lemma TakeKeepsOutstanding(st: RState, batch: seq<Work>)
    requires DistinctPaths(batch)
    ensures OutstandingPaths(st) <= OutstandingPaths(TakeBatch(st, batch))
  {
    InflightOfBatch(batch);
  }

  lemma AttachKeepsOutstanding(st: RState, paths: set<Path>, servable: bool, order: seq<Path>, now: nat)
    requires IsAttachOrder(st, paths, order)
    ensures OutstandingPaths(st) <= OutstandingPaths(Attach(st, paths, servable, order, now))
  {
    AttachHasShape(st, paths, servable, order, now);
  }

  lemma QueueKeepsOutstanding(prm: Params, w: World, step: Step)
    requires Enabled(w, step) && OnQueue(step)
    ensures OutstandingPaths(w.st) <= OutstandingPaths(Apply(prm, w, step).st)
  {
    hide OutstandingPaths, Submit, TakeBatch, Attach;
    if step.SubmitIntent? {
      SubmitKeepsOutstanding(prm, w, step);
    } else if step.Take? {
      TakeKeepsOutstanding(w.st, step.batch);
    } else if step.AttachStore? {
      AttachKeepsOutstanding(w.st, w.pc.paths, ServableCache(w), step.order, step.now);
    }
  }

  /** Whatever is pending or in flight stays so until its latest intent has been carried out. */
  lemma OutstandingUntilResolved(prm: Params, w: World, step: Step, p: Path)
    requires Inv(prm, w) && Enabled(w, step) && p in OutstandingPaths(w.st)
    ensures p in OutstandingPaths(Apply(prm, w, step).st) || Resolved(w, Apply(prm, w, step), p)
  {
    hide Inv, Apply, Enabled, HasEffect, OutstandingPaths, Resolved;
    StepEffect(prm, w, step);
    var w' := Apply(prm, w, step);
    var e :| HasEffect(prm, w, step, w', e);
    QueueOrItem(prm, w, step, w', e);
    if FromItem(e) {
      EffectKeepsOutstanding(prm, w, step, w', e, p);
    } else {
      QueueKeepsOutstanding(prm, w, step);
    }
  }

  /** Over a whole run: an outstanding path is still outstanding, or was resolved in between. */
  lemma {:induction false} OutstandingOverRun(prm: Params, states: seq<World>, steps: seq<Step>, i: nat, j: nat,
    p: Path)
    requires Run(prm, states, steps) && i <= j < |states| && p in OutstandingPaths(states[i].st)
    ensures p in OutstandingPaths(states[j].st) || exists k :: i <= k < j && Resolved(states[k], states[k + 1], p)
    decreases j - i
  {
    hide Init, Enabled, Apply, OutstandingPaths, Resolved;
    if i < j {
      RunInv(prm, states, steps, i);
      OutstandingUntilResolved(prm, states[i], steps[i], p);
      if p in OutstandingPaths(states[i + 1].st) {
        OutstandingOverRun(prm, states, steps, i + 1, j, p);
      }
    }
  }

  // ----- what never goes back -----

  /** Attachment, publication and the end of the first pass are final; the first pass is fixed when it starts. */
  predicate GatesHold(w: World, w': World) {
    && (w.st.attached ==> w'.st.attached && w'.initial == w.initial && w'.cachePublishable == w.cachePublishable)
    && (w.st.attached && w.synced ==> w'.synced)
    && (w.st.storeQueryable ==> w'.st.storeQueryable)
    && (w.st.reconciliationComplete ==> w'.st.reconciliationComplete)
    && w.settledOnce <= w'.settledOnce
  }

  /** Once the runtime has been told to stop, neither the store nor the cache on disk changes. */
  predicate StaysFrozen(w: World, w': World) {
    !w.live ==> !w'.live && w'.store == w.store && w'.disk == w.disk
  }

  predicate Advances(w: World, w': World) {
    GatesHold(w, w') && StaysFrozen(w, w')
  }

  lemma SupersededAdvances(w: World, w': World, work: Work)
    requires LeftSuperseded(w, w', work)
    ensures Advances(w, w')
  {
    hide IsCurrent, AtItem, PendingStatus;
  }

  lemma SettledAdvances(w: World, w': World, work: Work)
    requires LeftSettled(w, w', work)
    ensures Advances(w, w')
  {
    hide IsCurrent, AtItem, PendingStatus, RemoveNote, Drop;
  }

  lemma RetriedAdvances(w: World, w': World, work: Work, error: string, now: nat)
    requires LeftForRetry(w, w', work, error, now)
    ensures Advances(w, w')
  {
    hide AtItem, PendingStatus, Drop;
  }

  lemma RefusedAdvances(prm: Params, w: World, w': World, work: Work)
    requires RowsRefused(prm, w, w', work)
    ensures Advances(w, w')
  {
  }

  lemma EffectAdvances(prm: Params, w: World, step: Step, w': World, e: Effect)
    requires HasEffect(prm, w, step, w', e) && FromItem(e) && !Moves(step)
    ensures Advances(w, w')
  {
    hide Advances, LeftSettled, LeftSuperseded, LeftForRetry, RowsRefused;
    match e
    case Still => OnlyPcAdvances(w, w');
    case Superseded(work) => SupersededAdvances(w, w', work);
    case Succeeded(work) => SettledAdvances(w, w', work);
    case Retried(work, error, now) => RetriedAdvances(w, w', work, error, now);
    case Refused(work) => RefusedAdvances(prm, w, w', work);
  }

  lemma OnlyPcAdvances(w: World, w': World)
    requires OnlyPc(w, w')
    ensures Advances(w, w')
  {
  }

  /** Notes, reports and phases. */
  predicate Incidental(w: World, w': World) {
    w' == w.(
      st := w.st.(status := w'.st.status, persistenceError := w'.st.persistenceError),
      live := w.live && w'.live, pc := w'.pc, metas := w'.metas, files := w'.files, unsubmitted := w'.unsubmitted)
  }

  lemma IncidentalAdvances(w: World, w': World)
    requires Incidental(w, w')
    ensures Advances(w, w')
  {
  }

  lemma EditsAreIncidental(prm: Params, w: World, step: Step)
    requires Enabled(w, step)
    requires step.EditFile? || step.EditIndex? || step.ClearLive? || step.AbortWorker?
    ensures Incidental(w, Apply(prm, w, step))
  {
    hide Update;
    match step
    case EditFile(_, _) =>
    case EditIndex(_, _) =>
    case ClearLive =>
    case AbortWorker =>
  }

  lemma ReportsAreIncidental(prm: Params, w: World, step: Step)
    requires Enabled(w, step) && (step.LoaderFails? || step.Refresh? || step.PersistFails?)
    ensures Incidental(w, Apply(prm, w, step))
  {
    hide RefreshedStatus, PicksFailure;
    match step
    case LoaderFails(_) =>
    case Refresh(_, _, _) =>
    case PersistFails(_) =>
  }

  lemma TurnsAreIncidental(prm: Params, w: World, step: Step)
    requires Enabled(w, step)
    requires step.LoaderSucceeds? || step.PersistRefused? || step.SkipPersist? || step.CheckLive?
    ensures Incidental(w, Apply(prm, w, step))
  {
    match step
    case LoaderSucceeds =>
    case PersistRefused =>
    case SkipPersist =>
    case CheckLive =>
  }

  lemma PhasesAreIncidental(prm: Params, w: World, step: Step)
    requires Enabled(w, step) && (step.ReadMetadata? || step.PreparationFails? || step.EmbedOk? || step.EmbedFails?)
    ensures Incidental(w, Apply(prm, w, step))
  {
    hide EmbedAll, FlatTexts;
    match step
    case ReadMetadata =>
    case PreparationFails(_) =>
    case EmbedOk =>
    case EmbedFails(_) =>
  }

  lemma ReadIsOnlyPc(prm: Params, w: World, error: string)
    requires w.pc.Reading? && WellShaped(w.pc.b)
    ensures OnlyPc(w, DoReadFile(prm, w, error))
  {
    hide StageRead, Set;
    var Reading(b, i, snap) := w.pc;
    if i >= |b.works| {
      assert DoReadFile(prm, w, error) == w.(pc := Settling(b, 0));
    } else {
      var pc := Reading(Set(b, i, StageRead(prm, w, b.works[i], snap, error)), i + 1, snap);
      assert DoReadFile(prm, w, error) == w.(pc := pc);
    }
  }

  lemma FinalizeAdvances(w: World)
    ensures Advances(w, DoFinalize(w))
  {
    if w.live && ReadyToFinalize(w.st) {
    } else {
      OnlyPcAdvances(w, w.(pc := Refreshing));
    }
  }

  lemma PersistAdvances(prm: Params, w: World)
    requires Enabled(w, PersistOk)
    ensures Advances(w, Apply(prm, w, PersistOk))
  {
  }

  lemma MoveAdvances(prm: Params, w: World, step: Step)
    requires Enabled(w, step) && Moves(step)
    ensures Advances(w, Apply(prm, w, step))
  {
    hide Advances, Incidental, OnlyPc, DoFinalize, DoReadFile;
    if step.FinalizePass? {
      FinalizeAdvances(w);
    } else if step.PersistOk? {
      PersistAdvances(prm, w);
    } else if step.ReadFile? {
      ReadIsOnlyPc(prm, w, step.error);
      OnlyPcAdvances(w, DoReadFile(prm, w, step.error));
    } else {
      IncidentalMove(prm, w, step);
      IncidentalAdvances(w, Apply(prm, w, step));
    }
  }

  lemma IncidentalMove(prm: Params, w: World, step: Step)
    requires Enabled(w, step) && Moves(step) && !step.FinalizePass? && !step.PersistOk? && !step.ReadFile?
    ensures Incidental(w, Apply(prm, w, step))
  {
    hide Incidental, Apply, Enabled;
    if step.EditFile? || step.EditIndex? || step.ClearLive? || step.AbortWorker? {
      EditsAreIncidental(prm, w, step);
    } else if step.LoaderFails? || step.Refresh? || step.PersistFails? {
      ReportsAreIncidental(prm, w, step);
    } else if step.LoaderSucceeds? || step.PersistRefused? || step.SkipPersist? || step.CheckLive? {
      TurnsAreIncidental(prm, w, step);
    } else {
      PhasesAreIncidental(prm, w, step);
    }
  }

  lemma UnattachedFacts(prm: Params, w: World)
    requires Inv(prm, w) && (w.pc.Loaded? || w.pc.Attaching?)
    ensures !w.st.attached && !w.st.storeQueryable && !w.st.reconciliationComplete
  {
    assert ReconciliationInv(w.st, w.settledOnce, w.initial, w.cachePublishable);
  }

  lemma SubmitAdvances(prm: Params, w: World, step: Step)
    requires Enabled(w, step) && step.SubmitIntent?
    ensures Advances(w, Apply(prm, w, step))
  {
    hide PendingStatus;
  }

  lemma TakeKeepsGates(st: RState, batch: seq<Work>)
    requires DistinctPaths(batch)
    ensures var st' := TakeBatch(st, batch);
            st' == st.(pending := st'.pending, inflight := st'.inflight, status := st'.status)
  {
    hide DistinctPaths, InflightOf, PendingStatus, Without;
  }

  lemma TakeAdvances(prm: Params, w: World, step: Step)
    requires Enabled(w, step) && step.Take?
    ensures Advances(w, Apply(prm, w, step))
  {
    assert DistinctPaths(step.batch);
    TakeKeepsGates(w.st, step.batch);
    hide IsBatch, TakeBatch, DistinctPaths;
  }

  lemma StartAdvances(prm: Params, w: World, step: Step)
    requires Inv(prm, w) && Enabled(w, step) && (step.LoadCache? || step.AttachStore?)
    ensures Advances(w, Apply(prm, w, step))
  {
    UnattachedFacts(prm, w);
    hide Inv, IsAttachOrder, Attach, RetainPaths, AttachedLatest, AttachedIntent;
  }

  lemma StepAdvances(prm: Params, w: World, step: Step)
    requires Inv(prm, w) && Enabled(w, step)
    ensures Advances(w, Apply(prm, w, step))
  {
    hide Inv, Apply, Enabled, HasEffect, Advances;
    if Moves(step) {
      MoveAdvances(prm, w, step);
    } else if step.SubmitIntent? {
      SubmitAdvances(prm, w, step);
    } else if step.Take? {
      TakeAdvances(prm, w, step);
    } else if step.LoadCache? || step.AttachStore? {
      StartAdvances(prm, w, step);
    } else {
      StepEffect(prm, w, step);
      var w' := Apply(prm, w, step);
      var e :| HasEffect(prm, w, step, w', e);
      QueueOrItem(prm, w, step, w', e);
      EffectAdvances(prm, w, step, w', e);
    }
  }

  /** Along any run, and however far apart the two states are. */
  lemma {:induction false} RunAdvances(prm: Params, states: seq<World>, steps: seq<Step>, i: nat, j: nat)
    requires Run(prm, states, steps) && i <= j < |states|
    ensures Advances(states[i], states[j])
    decreases j - i
  {
    hide Init, Enabled, Apply, Inv;
    if i < j {
      RunInv(prm, states, steps, i);
      StepAdvances(prm, states[i], steps[i]);
      RunAdvances(prm, states, steps, i + 1, j);
    }
  }
}
