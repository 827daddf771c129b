/** Batches, retries and the reported status, told in the fields a caller sees, for every step of every run. */
module RuntimeLaws {
  import opened Common
  import opened EmbeddingStore
  import opened RuntimeState
  import opened RuntimeWorld
  import opened RuntimeInvariant
  import opened RuntimeBatchProofs
  import opened RuntimeSteps
  import opened RuntimeRuns
  import opened RuntimeEffects
  import opened RuntimeTheorems
  import opened RuntimeDrain

  // ----- which work is taken -----

  /** A removal comes before an upsert; otherwise the paths decide. */
  predicate Precedes(a: Work, b: Work) {
    (a.kind.Remove? && b.kind.Upsert?) || (a.kind == b.kind && PathLe(a.path, b.path))
  }

  /** Taken from what is pending, each path once, due, in order; what is due and left behind comes after 32 others. */
  ghost predicate FirstDue(pending: map<Path, Work>, now: nat, batch: seq<Work>) {
    && |batch| <= 32
    && (forall i :: 0 <= i < |batch| ==>
                      && batch[i].path in pending && pending[batch[i].path] == batch[i] && batch[i].notBefore <= now)
    && (forall i, j :: 0 <= i < j < |batch| ==> batch[i].path != batch[j].path && Precedes(batch[i], batch[j]))
    && (forall p :: p in pending && pending[p].notBefore <= now && pending[p] !in batch ==>
                      |batch| == 32 && forall i :: 0 <= i < |batch| ==> Precedes(batch[i], pending[p]))
  }

  ghost predicate Filed(pending: map<Path, Work>) {
    forall p :: p in pending ==> pending[p].path == p
  }

  lemma BatchIsFirstDue(st: RState, now: nat, batch: seq<Work>)
    requires Filed(st.pending) && IsBatch(st, now, batch)
    ensures FirstDue(st.pending, now, batch)
  {
    var due := DuePaths(st, now);
    PathsSize(batch);
    forall i, j | 0 <= i < j < |batch| ensures Precedes(batch[i], batch[j]) {
      assert WorkLe(Order(batch[i]), Order(batch[j]));
    }
    forall p | p in st.pending && st.pending[p].notBefore <= now && st.pending[p] !in batch
      ensures |batch| == 32 && forall i :: 0 <= i < |batch| ==> Precedes(batch[i], st.pending[p])
    {
      assert p in due && p !in Paths(batch);
      assert Paths(batch) + {p} <= due;
      SubsetSize(Paths(batch) + {p}, due);
      forall i | 0 <= i < |batch| ensures Precedes(batch[i], st.pending[p]) {
        assert WorkLe(Order(batch[i]), (st.pending[p].kind, p));
      }
    }
  }

  lemma FirstDueIsBatch(st: RState, now: nat, batch: seq<Work>)
    requires Filed(st.pending) && FirstDue(st.pending, now, batch)
    ensures IsBatch(st, now, batch)
  {
    var due := DuePaths(st, now);
    PathsSize(batch);
    assert Paths(batch) <= due;
    SubsetSize(Paths(batch), due);
    forall p | p in due && p !in Paths(batch)
      ensures |batch| == 32 && forall i :: 0 <= i < |batch| ==> WorkLe(Order(batch[i]), (st.pending[p].kind, p))
    {
      assert forall i :: 0 <= i < |batch| ==> batch[i].path in Paths(batch);
      forall i | 0 <= i < |batch| ensures WorkLe(Order(batch[i]), (st.pending[p].kind, p)) {
        assert Precedes(batch[i], st.pending[p]);
      }
    }
    if |batch| < 32 {
      assert due == Paths(batch);
    }
    forall i, j | 0 <= i < j < |batch| ensures WorkLe(Order(batch[i]), Order(batch[j])) {
      assert Precedes(batch[i], batch[j]);
    }
  }

  lemma SubsetSize(a: set<Path>, b: set<Path>)
    requires a <= b
    ensures |a| <= |b|
  {
    assert b == a + (b - a);
  }

  /** Every take of every run takes the first due work. */
  lemma TakesAreFirstDue(prm: Params, states: seq<World>, steps: seq<Step>, k: nat)
    requires Run(prm, states, steps) && k < |steps| && steps[k].Take?
    ensures FirstDue(states[k].st.pending, steps[k].now, steps[k].batch)
  {
    RunInv(prm, states, steps, k);
    TakenState(prm, states[k], steps[k]);
    PendingIsFiled(prm, states[k]);
    hide Run, Inv, IsBatch, FirstDue, Filed;
    BatchIsFirstDue(states[k].st, steps[k].now, steps[k].batch);
  }

  lemma PendingIsFiled(prm: Params, w: World)
    requires Inv(prm, w)
    ensures Filed(w.st.pending)
  {
    assert GenerationInv(w.st.pending, w.st.inflight, w.st.nextGeneration, w.latest, w.intent);
  }

  // ----- retries -----

  /** The steps that settle, commit or put back the item at hand. */
  predicate Handles(step: Step) {
    step.SettleNext? || step.CommitNext? || step.RequeueFailedCommit? || step.RequeueNext?
  }

  function ClockOf(step: Step): nat
    requires Handles(step)
  {
    match step
    case SettleNext(now) => now
    case CommitNext(_, now) => now
    case RequeueFailedCommit(now) => now
    case RequeueNext(now) => now
  }

  /** Seconds to wait before the given attempt. */
  function SecondsBefore(attempt: nat): nat {
    if attempt <= 1 then 1
    else if attempt == 2 then 2
    else if attempt == 3 then 4
    else if attempt == 4 then 8
    else if attempt == 5 then 16
    else 30
  }

  lemma DelayIs(attempt: nat)
    ensures RetryDelay(attempt) == SecondsBefore(attempt)
  {
  }

  /** The attempts are counted in a byte. */
  function NextAttempt(attempt: nat): nat {
    if attempt < 255 then attempt + 1 else 255
  }

  /** The item at hand carries the latest intent for its note, and this step puts it back. */
  ghost predicate PutsBack(w: World, step: Step, w': World, work: Work) {
    Handles(step) && AtItem(w.pc, work) && AtLatest(w, work.path) && work.path in w'.st.pending
  }

  /** How the item comes back: the same intent, one attempt on, due once the wait is over. */
  predicate ComesBack(work: Work, again: Work, clock: nat) {
    again == Work(work.path, work.generation, work.kind, NextAttempt(work.attempt),
                  clock + SecondsBefore(NextAttempt(work.attempt)))
  }

  lemma RetriedComesBack(w: World, w': World, work: Work, error: string, now: nat)
    requires LeftForRetry(w, w', work, error, now)
    ensures work.path in w'.st.pending && ComesBack(work, w'.st.pending[work.path], now)
    ensures work.path in w'.st.failures && w'.st.failures[work.path] == error
    ensures work.path !in w'.st.inflight && work.path !in w'.st.initialRemaining
  {
    DelayIs(NextAttempt(work.attempt));
    hide RetryDelay, SecondsBefore, PendingStatus, IsCurrent, AtItem;
  }

  lemma OnlyRetriesQueue(prm: Params, w: World, step: Step, w': World, e: Effect, p: Path)
    requires HasEffect(prm, w, step, w', e) && Handles(step) && AtLatest(w, p) && p in w'.st.pending
    ensures e.Retried? && RetriesBy(w, step, e.error, e.now) && LeftForRetry(w, w', e.work, e.error, e.now)
  {
    hide LeftForRetry, LeftSettled, LeftSuperseded, RowsRefused, QueuedIntent, MovedInflight, StartedPass, AdoptedRows;
    EffectOfStep(prm, w, step, w', e);
    if !e.Retried? {
      hide HasEffect;
      OthersKeepPending(prm, w, step, w', e);
    }
  }

  /** The reason recorded for a step that puts an item back. */
  predicate GivesReason(w: World, step: Step, error: string) {
    match step
    case SettleNext(_) =>
      w.pc.Settling? && w.pc.i < |w.pc.b.stages| && w.pc.b.stages[w.pc.i] == Unreadable(error)
    case RequeueFailedCommit(_) => w.pc.CommitFailing? && w.pc.error == error
    case RequeueNext(_) => w.pc.Requeueing? && w.pc.error == error
    case _ => false
  }

  /** It comes back as the same intent, one attempt on, after the wait, with its reason on record. */
  predicate BackWithReason(w: World, step: Step, w': World, work: Work)
    requires Handles(step)
  {
    && work.path in w'.st.pending && ComesBack(work, w'.st.pending[work.path], ClockOf(step))
    && work.path in w'.st.failures && GivesReason(w, step, w'.st.failures[work.path])
    && work.path !in w'.st.inflight && work.path !in w'.st.initialRemaining
  }

  /** What a step does that puts a failed item back. */
  lemma PutBackComesBack(prm: Params, w: World, step: Step, w': World, work: Work)
    requires Inv(prm, w) && Enabled(w, step) && w' == Apply(prm, w, step) && PutsBack(w, step, w', work)
    ensures BackWithReason(w, step, w', work)
  {
    StepEffect(prm, w, step);
    hide Inv, Apply, Enabled, HasEffect, LeftForRetry, ComesBack, AtLatest;
    var e :| HasEffect(prm, w, step, w', e);
    OnlyRetriesQueue(prm, w, step, w', e, work.path);
    RetriedComesBack(w, w', e.work, e.error, e.now);
    ItemAtHand(w, w', e.work, e.error, e.now);
  }

  lemma ItemAtHand(w: World, w': World, work: Work, error: string, now: nat)
    requires LeftForRetry(w, w', work, error, now)
    ensures AtItem(w.pc, work)
  {
    hide IsCurrent, RequeueFailure, AtItem;
  }

  /** `p` still waits as `again`, or a newer intent has taken its place. */
  predicate StillWaits(st: RState, p: Path, again: Work) {
    p in st.pending && (st.pending[p] == again || st.pending[p].generation > again.generation)
  }

  lemma StepWaits(st: RState, step: Step, st': RState, p: Path, again: Work)
    requires StillWaits(st, p, again) && FateOf(st, step, st', p) != Lost
    requires p !in st'.pending ==> !step.Take?
    ensures StillWaits(st', p, again)
  {
  }

  lemma NotTakenStays(prm: Params, w: World, step: Step, p: Path)
    requires Inv(prm, w) && Enabled(w, step) && step.Take? && p in w.st.pending
    requires forall i :: 0 <= i < |step.batch| ==> step.batch[i].path != p
    ensures p in Apply(prm, w, step).st.pending
  {
    TakenState(prm, w, step);
    TakeMoves(w.st, step.now, step.batch);
    hide Inv, IsBatch, TakeBatch, Apply, Enabled, DistinctPaths;
    assert p !in Paths(step.batch);
  }

  /** No take between steps `k` and `j` takes `p`. */
  ghost predicate NotTaken(steps: seq<Step>, k: nat, j: nat, p: Path)
    requires j <= |steps|
  {
    forall m :: k < m < j && steps[m].Take? ==> forall i :: 0 <= i < |steps[m].batch| ==> steps[m].batch[i].path != p
  }

  lemma {:induction false} WaitsUntilTaken(prm: Params, states: seq<World>, steps: seq<Step>, k: nat, j: nat, p: Path)
    requires Run(prm, states, steps) && k < j <= |steps| && NotTaken(steps, k, j, p)
    requires p in states[k + 1].st.pending
    ensures StillWaits(states[j].st, p, states[k + 1].st.pending[p])
    decreases j
  {
    hide Init, Enabled, Apply, Inv, FateOf;
    if k + 1 < j {
      WaitsUntilTaken(prm, states, steps, k, j - 1, p);
      RunInv(prm, states, steps, j - 1);
      PendingIntentKept(prm, states[j - 1], steps[j - 1], p);
      if steps[j - 1].Take? {
        NotTakenStays(prm, states[j - 1], steps[j - 1], p);
      }
      StepWaits(states[j - 1].st, steps[j - 1], states[j].st, p, states[k + 1].st.pending[p]);
    }
  }

  lemma DueAfterWait(again: Work, work: Work, clock: nat, taken: Work, now: nat)
    requires ComesBack(work, again, clock) && taken.generation == work.generation && taken.notBefore <= now
    requires taken == again || taken.generation > again.generation
    ensures taken.attempt == NextAttempt(work.attempt) && now >= clock + SecondsBefore(taken.attempt)
  {
  }

  lemma TakenAtStep(prm: Params, states: seq<World>, steps: seq<Step>, j: nat, i: nat)
    requires Run(prm, states, steps) && j < |steps| && steps[j].Take? && i < |steps[j].batch|
    ensures var taken := steps[j].batch[i];
            taken.path in states[j].st.pending && states[j].st.pending[taken.path] == taken && taken.notBefore <= steps[j].now
  {
    RunInv(prm, states, steps, j);
    TakenState(prm, states[j], steps[j]);
    hide Run, Inv, IsBatch;
    TakenIsPending(states[j].st, steps[j].now, steps[j].batch, i);
  }

  lemma BackAtStep(prm: Params, states: seq<World>, steps: seq<Step>, k: nat, work: Work)
    requires Run(prm, states, steps) && k < |steps| && PutsBack(states[k], steps[k], states[k + 1], work)
    ensures work.path in states[k + 1].st.pending
    ensures ComesBack(work, states[k + 1].st.pending[work.path], ClockOf(steps[k]))
  {
    RunInv(prm, states, steps, k);
    hide Inv, Init, Apply, Enabled, PutsBack, ComesBack;
    PutBackComesBack(prm, states[k], steps[k], states[k + 1], work);
  }

  /**
   * The wait is kept: the first take that takes the failed intent again does so at least one second after the failure,
   * then two, four, eight, sixteen and from the sixth attempt on thirty.
   */
  lemma NoEarlyRetry(prm: Params, states: seq<World>, steps: seq<Step>, k: nat, j: nat, work: Work, i: nat)
    requires Run(prm, states, steps) && k < j < |steps| && PutsBack(states[k], steps[k], states[k + 1], work)
    requires NotTaken(steps, k, j, work.path) && steps[j].Take? && i < |steps[j].batch|
    requires steps[j].batch[i].path == work.path && steps[j].batch[i].generation == work.generation
    ensures steps[j].batch[i].attempt == NextAttempt(work.attempt)
    ensures steps[j].now >= ClockOf(steps[k]) + SecondsBefore(steps[j].batch[i].attempt)
  {
    BackAtStep(prm, states, steps, k, work);
    TakenAtStep(prm, states, steps, j, i);
    hide Run, PutsBack, ComesBack, SecondsBefore, NotTaken;
    WaitsUntilTaken(prm, states, steps, k, j, work.path);
    DueAfterWait(
      states[k + 1].st.pending[work.path], work, ClockOf(steps[k]), steps[j].batch[i], steps[j].now);
  }

  lemma TakenIsPending(st: RState, now: nat, batch: seq<Work>, i: nat)
    requires IsBatch(st, now, batch) && i < |batch|
    ensures batch[i].path in st.pending && st.pending[batch[i].path] == batch[i] && batch[i].notBefore <= now
  {
  }

  // ----- the reported status -----

  /**
   * A refresh reports the persistence error first, then some recorded failure; it is degraded exactly with an error,
   * and ready exactly when without one the first pass is over and nothing is left to do.
   */
  ghost predicate ReportsState(st: RState, status: Status, total: nat, indexed: nat) {
    && (st.persistenceError.Some? ==> status.lastError == st.persistenceError)
    && (st.persistenceError.None? ==>
          if status.lastError.Some? then status.lastError.value in st.failures.Values else st.failures == map[])
    && (status.phase.Degraded? <==> status.lastError.Some?)
    && (status.phase.Ready? <==>
          status.lastError.None? && st.reconciliationComplete && st.pending == map[] && st.inflight == map[])
    && (status.queryable <==> st.attached && st.storeQueryable)
    && status.totalNotes == total && status.indexedNotes == indexed
    && status.pendingNotes == |st.pending.Keys + st.inflight.Keys|
  }

  lemma RefreshedReports(st: RState, total: nat, indexed: nat, failure: Option<string>)
    requires PicksFailure(st, failure)
    ensures ReportsState(st, RefreshedStatus(st, total, indexed, failure), total, indexed)
  {
    EmptyMap(st.pending);
    EmptyMap(st.inflight);
    var outstanding := st.pending.Keys + st.inflight.Keys;
    assert |outstanding| == 0 <==> outstanding == {};
  }

  lemma RefreshReports(prm: Params, w: World, total: nat, indexed: nat, failure: Option<string>, w': World)
    requires Enabled(w, Refresh(total, indexed, failure)) && w' == Apply(prm, w, Refresh(total, indexed, failure))
    ensures ReportsState(w.st, w'.st.status, total, indexed)
    ensures w' == w.(st := w.st.(status := w'.st.status), pc := MayPersist)
  {
    RefreshedReports(w.st, total, indexed, failure);
    hide RefreshedStatus, PicksFailure, ReportsState;
  }

  lemma EmptyMap<T>(m: map<Path, T>)
    ensures m.Keys == {} <==> m == map[]
  {
  }

  /** Between refreshes only the count moves, and a ready runtime with work turns to warming. */
  lemma CountReports(st: RState)
    ensures var status := UpdatePending(st).status;
            && status == st.status.(pendingNotes := |st.pending.Keys + st.inflight.Keys|, phase := status.phase)
            && (status.phase.Degraded? <==> st.status.phase.Degraded?)
            && (status.phase.Ready? <==>
                  st.status.phase.Ready? && (st.status.lastError.Some? || (st.pending == map[] && st.inflight == map[])))
    ensures UpdatePending(st) == st.(status := UpdatePending(st).status)
  {
    EmptyMap(st.pending);
    EmptyMap(st.inflight);
    var outstanding := st.pending.Keys + st.inflight.Keys;
    assert |outstanding| == 0 <==> outstanding == {};
  }

  /** A loader that fails stops the runtime, and the report says why: degraded, nothing served, nothing indexed. */
  lemma LoaderFailureReports(prm: Params, w: World, error: string)
    requires w.pc.Loading?
    ensures var w' := Apply(prm, w, LoaderFails(error));
            && w'.pc.Stopped? && w'.st.status.phase.Degraded? && w'.st.status.lastError == Some(error)
            && !w'.st.status.queryable && w'.st.status.indexedNotes == 0 && w'.st.status.totalNotes == |w.metas|
            && w'.st.status.pendingNotes == |OutstandingPaths(w.st)| && w'.store == w.store
  {
  }

  /** Writing the cache clears the persistence error, and failing to write it records one. */
  lemma PersistReports(prm: Params, w: World, error: string)
    requires w.pc.MayPersist? && w.dirty && w.live
    ensures var w' := Apply(prm, w, PersistOk); w'.st.persistenceError.None? && w'.disk == Some(w.store) && !w'.dirty
    ensures var w' := Apply(prm, w, PersistFails(error));
            w'.st.persistenceError == Some(error) && w'.disk == w.disk && w'.dirty == w.dirty
  {
  }
}
