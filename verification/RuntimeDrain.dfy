/** How due work drains along a run while nothing new is queued and nothing fails. */
module RuntimeDrain {
  import opened Common
  import opened EmbeddingStore
  import opened RuntimeState
  import opened RuntimeWorld
  import opened RuntimeInvariant
  import opened RuntimeBatchProofs
  import opened RuntimeRuns
  import opened RuntimeEffects
  import opened RuntimeTheorems

  /** The step queues nothing: it submits nothing, publishes nothing, and no failed item goes back into the queue. */
  ghost predicate QueuesNothing(w: World, step: Step, w': World) {
    !step.SubmitIntent? && !step.AttachStore? && w'.st.pending.Keys <= w.st.pending.Keys
  }

  /** A stretch of a run whose steps queue nothing. */
  ghost predicate Undisturbed(prm: Params, states: seq<World>, steps: seq<Step>, i: nat, j: nat) {
    && Run(prm, states, steps) && i <= j <= |steps|
    && (forall k :: i <= k < j ==> QueuesNothing(states[k], steps[k], states[k + 1]))
  }

  // ----- what such a step does -----

  /** Effects that neither queue nor take leave the pending work as it is. */
  lemma OthersKeepPending(prm: Params, w: World, step: Step, w': World, e: Effect)
    requires HasEffect(prm, w, step, w', e) && (FromItem(e) || e.Adopted?) && !e.Retried?
    ensures w'.st.pending == w.st.pending
  {
    hide IsCurrent, AtItem, PendingStatus, RemoveNote, Drop, QueuedIntent, MovedInflight, StartedPass, LeftForRetry;
    match e
    case Still => assert FootingOf(w').pending == FootingOf(w).pending;
    case Adopted(rows) => assert FootingOf(w').pending == FootingOf(w).pending;
    case Superseded(_) =>
    case Succeeded(_) =>
    case Refused(_) =>
  }

  lemma EffectQueuesNothing(prm: Params, w: World, step: Step, w': World, e: Effect)
    requires Inv(prm, w) && HasEffect(prm, w, step, w', e) && QueuesNothing(w, step, w') && !step.Take?
    ensures w'.st.pending == w.st.pending
  {
    EffectOfStep(prm, w, step, w', e);
    if e.Retried? {
      hide Inv, LeftForRetry;
      RetryQueues(prm, w, w', e.work, e.error, e.now);
    } else {
      hide Inv, HasEffect;
      OthersKeepPending(prm, w, step, w', e);
    }
  }

  /** Which effects fit a step that submits, publishes and takes nothing. */
  lemma EffectOfStep(prm: Params, w: World, step: Step, w': World, e: Effect)
    requires HasEffect(prm, w, step, w', e) && !step.SubmitIntent? && !step.AttachStore? && !step.Take?
    ensures e.Retried? ==> LeftForRetry(w, w', e.work, e.error, e.now)
    ensures FromItem(e) || e.Adopted?
  {
    hide LeftForRetry, LeftSettled, LeftSuperseded, RowsRefused, QueuedIntent, MovedInflight, StartedPass, AdoptedRows;
  }

  /** An item queued again was not pending before. */
  lemma RetryQueues(prm: Params, w: World, w': World, work: Work, error: string, now: nat)
    requires Inv(prm, w) && LeftForRetry(w, w', work, error, now)
    ensures work.path in w'.st.pending && work.path !in w.st.pending
  {
    CurrentIsLatest(prm, w, work);
    hide Inv, PendingStatus;
  }

  lemma TakenState(prm: Params, w: World, step: Step)
    requires Inv(prm, w) && Enabled(w, step) && step.Take?
    ensures w.st.inflight == map[] && IsBatch(w.st, step.now, step.batch) && DistinctPaths(step.batch)
    ensures Apply(prm, w, step).st == TakeBatch(w.st, step.batch)
  {
    BetweenFacts(prm, w);
    assert DistinctPaths(step.batch);
    hide Inv, IsBatch, TakeBatch;
  }

  lemma TakeBatchPending(st: RState, batch: seq<Work>)
    requires DistinctPaths(batch)
    ensures TakeBatch(st, batch).pending == Without(st.pending, Paths(batch))
  {
    hide DistinctPaths, Paths, InflightOf, PendingStatus;
  }

  lemma StepQueuesNothing(prm: Params, w: World, step: Step)
    requires Inv(prm, w) && Enabled(w, step) && QueuesNothing(w, step, Apply(prm, w, step))
    ensures Apply(prm, w, step).st.pending ==
            if step.Take? then Without(w.st.pending, Paths(step.batch)) else w.st.pending
  {
    hide Inv, Apply, Enabled, HasEffect, QueuesNothing, Without, TakeBatch, IsBatch, DistinctPaths;
    if step.Take? {
      TakenState(prm, w, step);
      TakeBatchPending(w.st, step.batch);
    } else {
      StepEffect(prm, w, step);
      var w' := Apply(prm, w, step);
      var e :| HasEffect(prm, w, step, w', e);
      EffectQueuesNothing(prm, w, step, w', e);
    }
  }

  // ----- how much a batch takes -----

  lemma {:induction false} PathsSize(batch: seq<Work>)
    requires DistinctPaths(batch)
    ensures |Paths(batch)| == |batch|
    decreases |batch|
  {
    if |batch| == 0 {
      assert Paths(batch) == {};
    } else {
      var front, last := batch[..|batch| - 1], batch[|batch| - 1];
      PathsSize(front);
      assert Paths(batch) == Paths(front) + {last.path} by {
        assert forall i :: 0 <= i < |front| ==> front[i] == batch[i];
      }
      assert last.path !in Paths(front);
    }
  }

  predicate AllDue(pending: map<Path, Work>, now: nat) {
    forall p :: p in pending ==> pending[p].notBefore <= now
  }

  lemma BatchOfDue(st: RState, now: nat, batch: seq<Work>)
    requires IsBatch(st, now, batch) && AllDue(st.pending, now)
    ensures DistinctPaths(batch) && Paths(batch) <= st.pending.Keys
    ensures |batch| == (if |st.pending| < RECONCILE_BATCH_SIZE then |st.pending| else RECONCILE_BATCH_SIZE)
  {
    assert DuePaths(st, now) == st.pending.Keys;
  }

  lemma SizeWithout(pending: map<Path, Work>, paths: set<Path>)
    requires paths <= pending.Keys
    ensures |Without(pending, paths)| == |pending| - |paths|
  {
    assert Without(pending, paths).Keys == pending.Keys - paths;
    assert |pending.Keys - paths| == |pending.Keys| - |paths|;
  }

  lemma TakeShrinks(st: RState, now: nat, batch: seq<Work>)
    requires IsBatch(st, now, batch) && AllDue(st.pending, now)
    ensures |Without(st.pending, Paths(batch))| == Left(|st.pending|, 1)
  {
    BatchOfDue(st, now, batch);
    hide IsBatch, Paths, Without;
    PathsSize(batch);
    SizeWithout(st.pending, Paths(batch));
  }

  // ----- along a run -----

  /** How many batches are taken in a stretch of a run. */
  function Takes(steps: seq<Step>, i: nat, j: nat): nat
    requires i <= j <= |steps|
    decreases j - i
  {
    if i == j then 0 else Takes(steps, i, j - 1) + (if steps[j - 1].Take? then 1 else 0)
  }

  function Left(n: nat, takes: nat): nat {
    if n < RECONCILE_BATCH_SIZE * takes then 0 else n - RECONCILE_BATCH_SIZE * takes
  }

  predicate Submap(a: map<Path, Work>, b: map<Path, Work>) {
    forall p :: p in a ==> p in b && a[p] == b[p]
  }

  /** What is pending at `i` is due whenever a batch is taken later in the stretch. */
  ghost predicate DueThroughout(states: seq<World>, steps: seq<Step>, i: nat, j: nat)
    requires i <= j <= |steps| <= |states|
  {
    forall k :: i <= k < j && steps[k].Take? ==> AllDue(states[i].st.pending, steps[k].now)
  }

  lemma LeftAfterOneMore(n: nat, takes: nat)
    ensures Left(Left(n, takes), 1) == Left(n, takes + 1)
  {
  }

  lemma PendingDrains(st: RState, step: Step, pending: map<Path, Work>)
    requires step.Take? ==> IsBatch(st, step.now, step.batch) && AllDue(st.pending, step.now)
    requires pending == if step.Take? then Without(st.pending, Paths(step.batch)) else st.pending
    ensures |pending| == Left(|st.pending|, if step.Take? then 1 else 0) && Submap(pending, st.pending)
  {
    hide IsBatch, Paths;
    if step.Take? {
      TakeShrinks(st, step.now, step.batch);
    }
  }

  lemma StepDrains(prm: Params, w: World, step: Step, w': World)
    requires Inv(prm, w) && Enabled(w, step) && w' == Apply(prm, w, step) && QueuesNothing(w, step, w')
    requires step.Take? ==> AllDue(w.st.pending, step.now)
    ensures |w'.st.pending| == Left(|w.st.pending|, if step.Take? then 1 else 0)
    ensures Submap(w'.st.pending, w.st.pending)
  {
    assert step.Take? ==> IsBatch(w.st, step.now, step.batch);
    hide Inv, Apply, Enabled, QueuesNothing, IsBatch, Paths, Without, AllDue;
    StepQueuesNothing(prm, w, step);
    PendingDrains(w.st, step, w'.st.pending);
  }

  lemma SubmapDue(a: map<Path, Work>, b: map<Path, Work>, now: nat)
    requires Submap(a, b) && AllDue(b, now)
    ensures AllDue(a, now)
  {
  }

  /** After k batches exactly 32 k of the due items are gone from the queue, or all of them; the rest is untouched. */
  lemma {:induction false} BatchesDrain(prm: Params, states: seq<World>, steps: seq<Step>, i: nat, j: nat)
    requires Undisturbed(prm, states, steps, i, j) && DueThroughout(states, steps, i, j)
    ensures |states[j].st.pending| == Left(|states[i].st.pending|, Takes(steps, i, j))
    ensures Submap(states[j].st.pending, states[i].st.pending)
    decreases j - i
  {
    hide QueuesNothing, Apply, Enabled, Inv, Init, AllDue;
    if i < j {
      BatchesDrain(prm, states, steps, i, j - 1);
      var w, step := states[j - 1], steps[j - 1];
      RunInv(prm, states, steps, j - 1);
      assert QueuesNothing(w, step, states[j - 1 + 1]);
      if step.Take? {
        SubmapDue(w.st.pending, states[i].st.pending, step.now);
      }
      StepDrains(prm, w, step, states[j - 1 + 1]);
      LeftAfterOneMore(|states[i].st.pending|, Takes(steps, i, j - 1));
    }
  }

  /** n due items have left the queue after exactly as many batches as 32 at a time needs. */
  lemma DrainsInCeiling(prm: Params, states: seq<World>, steps: seq<Step>, i: nat, j: nat)
    requires Undisturbed(prm, states, steps, i, j) && DueThroughout(states, steps, i, j)
    ensures states[j].st.pending == map[] <==>
            (|states[i].st.pending| + RECONCILE_BATCH_SIZE - 1) / RECONCILE_BATCH_SIZE <= Takes(steps, i, j)
  {
    BatchesDrain(prm, states, steps, i, j);
    assert states[j].st.pending == map[] <==> |states[j].st.pending| == 0 by {
      if |states[j].st.pending| == 0 { assert states[j].st.pending.Keys == {}; }
    }
  }

  // ----- what becomes of a batch -----

  predicate Gone(batch: set<Path>, st: RState, p: Path) {
    p in batch && p !in st.inflight
  }

  /**
   * The batch was taken in `st0`; what is no longer in flight of it has been settled, and exactly the failures and
   * first-pass entries of that part have been cleared.
   */
  ghost predicate PartlySettled(st0: RState, batch: set<Path>, st: RState, settledOnce: set<Path>) {
    && (forall p :: p in st.inflight ==> p in batch)
    && (forall p :: p in batch ==> p !in st.pending)
    && (forall p :: p in st.failures <==> p in st0.failures && !Gone(batch, st, p))
    && (forall p :: p in st.initialRemaining <==> p in st0.initialRemaining && !Gone(batch, st, p))
    && (forall p :: Gone(batch, st, p) ==> p in settledOnce)
  }

  lemma TakeStarts(st: RState, batch: seq<Work>, now: nat, settledOnce: set<Path>)
    requires IsBatch(st, now, batch) && st.inflight == map[]
    ensures PartlySettled(st, Paths(batch), TakeBatch(st, batch), settledOnce)
  {
    TakeMoves(st, now, batch);
    hide IsBatch, Paths, InflightOf, PendingStatus;
  }

  lemma FinishFields(st: RState, p: Path, st': RState)
    requires st' == FinishSuccess(st, p) || st' == CommitSuccess(st, p)
    ensures st'.pending == st.pending && st'.inflight == Drop(st.inflight, p)
    ensures st'.failures == Drop(st.failures, p) && st'.initialRemaining == st.initialRemaining - {p}
  {
    hide PendingStatus, Drop;
  }

  lemma FinishSettlesOne(st0: RState, batch: set<Path>, st: RState, settledOnce: set<Path>, p: Path, st': RState)
    requires PartlySettled(st0, batch, st, settledOnce) && p in st.inflight
    requires st'.pending == st.pending && st'.inflight == Drop(st.inflight, p)
    requires st'.failures == Drop(st.failures, p) && st'.initialRemaining == st.initialRemaining - {p}
    ensures PartlySettled(st0, batch, st', settledOnce + {p})
  {
  }

  lemma SuccessInFlight(prm: Params, w: World, w': World, work: Work)
    requires Inv(prm, w) && LeftSettled(w, w', work)
    ensures work.path in w.st.inflight && w'.settledOnce == w.settledOnce + {work.path}
    ensures w'.st == FinishSuccess(w.st, work.path) || w'.st == CommitSuccess(w.st, work.path)
  {
    CurrentIsLatest(prm, w, work);
    hide Inv, FinishSuccess, CommitSuccess, RemoveNote;
  }

  lemma SupersededNot(prm: Params, st0: RState, batch: set<Path>, w: World, w': World, work: Work)
    requires Inv(prm, w) && PartlySettled(st0, batch, w.st, w.settledOnce)
    ensures !LeftSuperseded(w, w', work)
  {
    if LeftSuperseded(w, w', work) {
      NotCurrentIsPending(prm, w, work);
      ItemOnItsWay(prm, w, w.pc.i);
    }
  }

  lemma FootingKeeps(st0: RState, batch: set<Path>, w: World, w': World)
    requires PartlySettled(st0, batch, w.st, w.settledOnce)
    requires w'.st.pending == w.st.pending && w'.st.inflight == w.st.inflight && w'.st.failures == w.st.failures
    requires w'.st.initialRemaining == w.st.initialRemaining && w'.settledOnce == w.settledOnce
    ensures PartlySettled(st0, batch, w'.st, w'.settledOnce)
  {
  }

  lemma OthersKeepFooting(prm: Params, w: World, step: Step, w': World, e: Effect)
    requires HasEffect(prm, w, step, w', e) && (e.Still? || e.Adopted? || e.Refused?)
    ensures w'.st.pending == w.st.pending && w'.st.inflight == w.st.inflight && w'.st.failures == w.st.failures
    ensures w'.st.initialRemaining == w.st.initialRemaining && w'.settledOnce == w.settledOnce
  {
    hide IsCurrent, AtItem, PendingStatus, RemoveNote, Drop, QueuedIntent, MovedInflight, StartedPass, LeftForRetry,
      LeftSettled, LeftSuperseded;
    match e
    case Refused(_) =>
    case Still => assert FootingOf(w') == FootingOf(w);
    case Adopted(rows) => assert FootingOf(w') == FootingOf(w).(entries := rows);
  }

  lemma EffectSettlesOne(
    prm: Params, st0: RState, batch: set<Path>, w: World, step: Step, w': World, e: Effect)
    requires Inv(prm, w) && PartlySettled(st0, batch, w.st, w.settledOnce)
    requires HasEffect(prm, w, step, w', e) && QueuesNothing(w, step, w') && !step.Take?
    ensures PartlySettled(st0, batch, w'.st, w'.settledOnce)
  {
    EffectOfStep(prm, w, step, w', e);
    hide Inv, LeftSettled, LeftSuperseded, LeftForRetry, QueuedIntent, MovedInflight, StartedPass, PartlySettled,
      AdoptedRows, RowsRefused, Untroubled, FinishSuccess, CommitSuccess;
    match e
    case Succeeded(work) =>
      SuccessInFlight(prm, w, w', work);
      FinishFields(w.st, work.path, w'.st);
      FinishSettlesOne(st0, batch, w.st, w.settledOnce, work.path, w'.st);
    case Superseded(work) => SupersededNot(prm, st0, batch, w, w', work);
    case Retried(work, error, now) => RetryQueues(prm, w, w', work, error, now);
    case _ =>
      OthersKeepFooting(prm, w, step, w', e);
      FootingKeeps(st0, batch, w, w');
  }

  lemma StepSettlesOne(prm: Params, st0: RState, batch: set<Path>, w: World, step: Step)
    requires Inv(prm, w) && Enabled(w, step) && PartlySettled(st0, batch, w.st, w.settledOnce)
    requires QueuesNothing(w, step, Apply(prm, w, step)) && !step.Take?
    ensures var w' := Apply(prm, w, step); PartlySettled(st0, batch, w'.st, w'.settledOnce)
  {
    hide Inv, Apply, Enabled, HasEffect, PartlySettled, QueuesNothing;
    StepEffect(prm, w, step);
    var e :| HasEffect(prm, w, step, Apply(prm, w, step), e);
    EffectSettlesOne(prm, st0, batch, w, step, Apply(prm, w, step), e);
  }

  lemma FirstSettlesNone(prm: Params, w: World, step: Step)
    requires Inv(prm, w) && Enabled(w, step) && step.Take?
    ensures var w' := Apply(prm, w, step); PartlySettled(w.st, Paths(step.batch), w'.st, w'.settledOnce)
  {
    TakenState(prm, w, step);
    hide Inv, Apply, Enabled, PartlySettled, TakeBatch, IsBatch, Paths;
    TakeStarts(w.st, step.batch, step.now, Apply(prm, w, step).settledOnce);
  }

  lemma RunStep(prm: Params, states: seq<World>, steps: seq<Step>, i: nat, j: nat, k: nat)
    requires Undisturbed(prm, states, steps, i, j) && i <= k < j
    ensures Inv(prm, states[k]) && Enabled(states[k], steps[k]) && states[k + 1] == Apply(prm, states[k], steps[k])
    ensures QueuesNothing(states[k], steps[k], states[k + 1])
  {
    hide Inv, Apply, Enabled, QueuesNothing, Init;
    RunInv(prm, states, steps, k);
  }

  ghost predicate SettledSince(states: seq<World>, steps: seq<Step>, i: nat, k: nat)
    requires i < k < |states| && i < |steps| && steps[i].Take?
  {
    PartlySettled(states[i].st, Paths(steps[i].batch), states[k].st, states[k].settledOnce)
  }

  lemma SettlesFirst(prm: Params, states: seq<World>, steps: seq<Step>, i: nat, j: nat)
    requires Undisturbed(prm, states, steps, i, j) && i < j && steps[i].Take?
    ensures SettledSince(states, steps, i, i + 1)
  {
    RunStep(prm, states, steps, i, j, i);
    hide Inv, Apply, Enabled, PartlySettled, Paths, QueuesNothing, Undisturbed;
    FirstSettlesNone(prm, states[i], steps[i]);
  }

  lemma SettlesNext(prm: Params, states: seq<World>, steps: seq<Step>, i: nat, j: nat, k: nat)
    requires Undisturbed(prm, states, steps, i, j) && i < k < j && steps[i].Take? && !steps[k].Take?
    requires SettledSince(states, steps, i, k)
    ensures SettledSince(states, steps, i, k + 1)
  {
    RunStep(prm, states, steps, i, j, k);
    hide Inv, Apply, Enabled, PartlySettled, Paths, QueuesNothing, Undisturbed;
    StepSettlesOne(prm, states[i].st, Paths(steps[i].batch), states[k], steps[k]);
  }

  lemma {:induction false} SettlesAlong(prm: Params, states: seq<World>, steps: seq<Step>, i: nat, j: nat, k: nat)
    requires Undisturbed(prm, states, steps, i, j) && i < k <= j && steps[i].Take?
    requires forall m :: i < m < j ==> !steps[m].Take?
    ensures SettledSince(states, steps, i, k)
    decreases k
  {
    hide SettledSince, Run, QueuesNothing;
    if k == i + 1 {
      SettlesFirst(prm, states, steps, i, j);
    } else {
      SettlesAlong(prm, states, steps, i, j, k - 1);
      SettlesNext(prm, states, steps, i, j, k - 1);
    }
  }

  /**
   * From the taking of a batch to the next time the coordinator is ready to take one, with nothing queued and nothing
   * failing: nothing is left in flight, every item of the batch was settled, and exactly the batch's failures and
   * first-pass entries are cleared.
   */
  lemma BatchSettles(prm: Params, states: seq<World>, steps: seq<Step>, i: nat, j: nat)
    requires Undisturbed(prm, states, steps, i, j) && i < j && steps[i].Take? && states[j].pc.Taking?
    requires forall k :: i < k < j ==> !steps[k].Take?
    ensures var st, st', batch := states[i].st, states[j].st, Paths(steps[i].batch);
            && st'.inflight == map[] && st'.pending.Keys !! batch
            && st'.failures.Keys == st.failures.Keys - batch
            && st'.initialRemaining == st.initialRemaining - batch
            && batch <= states[j].settledOnce
  {
    hide Inv, PartlySettled, QueuesNothing;
    SettlesAlong(prm, states, steps, i, j, j);
    RunInv(prm, states, steps, j);
    BetweenFacts(prm, states[j]);
    hide Run, Undisturbed, Paths;
    SettledAtEnd(states, steps, i, j);
  }

  lemma SettledAtEnd(states: seq<World>, steps: seq<Step>, i: nat, j: nat)
    requires i < j < |states| && i < |steps| && steps[i].Take?
    requires SettledSince(states, steps, i, j) && states[j].st.inflight == map[]
    ensures var st, st', batch := states[i].st, states[j].st, Paths(steps[i].batch);
            && st'.pending.Keys !! batch && st'.failures.Keys == st.failures.Keys - batch
            && st'.initialRemaining == st.initialRemaining - batch
            && batch <= states[j].settledOnce
  {
    hide Paths;
  }
}
