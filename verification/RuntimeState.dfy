/**
 * The state behind the runtime's mutex, and what each critical section does to it.
 *
 * Every function below is one critical section of the coordinator or of a producer; `RuntimeCell` performs the
 * same sections in place.
 */
module RuntimeState {
  import opened Common

  const RECONCILE_BATCH_SIZE := 32
  const MAX_RETRY_DELAY := 30
  const MAX_ATTEMPT := 255

  datatype Kind = Upsert | Remove

  datatype Work = Work(path: Path, generation: nat, kind: Kind, attempt: nat, notBefore: nat)

  datatype Phase = Warming | Ready | Degraded

  datatype Status = Status(
    phase: Phase, queryable: bool, indexedNotes: nat, totalNotes: nat, pendingNotes: nat, lastError: Option<string>)

  datatype RState = RState(
    nextGeneration: nat,
    pending: map<Path, Work>,
    inflight: map<Path, nat>,
    initialRemaining: set<Path>,
    initialStarted: bool,
    reconciliationComplete: bool,
    failures: map<Path, string>,
    persistenceError: Option<string>,
    attached: bool,
    storeQueryable: bool,
    status: Status)

  function PendingStatus(status: Status, distinct: nat): Status {
    status.(
      pendingNotes := distinct,
      phase := if distinct > 0 && status.lastError.None? && status.phase.Ready? then Warming else status.phase)
  }

  function UpdatePending(st: RState): RState {
    st.(status := PendingStatus(st.status, |st.pending.Keys + st.inflight.Keys|))
  }

  /** The generation that currently speaks for a path: the pending one, else the one in flight. */
  function Generation(st: RState, p: Path): Option<nat> {
    if p in st.pending then Some(st.pending[p].generation)
    else if p in st.inflight then Some(st.inflight[p])
    else None
  }

  predicate IsCurrent(st: RState, work: Work) {
    Generation(st, work.path) == Some(work.generation)
  }

  function Enqueue(st: RState, p: Path, kind: Kind, now: nat): RState {
    var generation := st.nextGeneration + 1;
    st.(nextGeneration := generation, pending := st.pending[p := Work(p, generation, kind, 0, now)])
  }

  function Submit(st: RState, p: Path, kind: Kind, now: nat): RState {
    UpdatePending(Enqueue(st, p, kind, now))
  }

  /** Queues an upsert for each listed path, in the order the set iteration yields them. */
  function EnqueueAll(st: RState, order: seq<Path>, now: nat): RState
    decreases |order|
  {
    if |order| == 0 then st else EnqueueAll(Enqueue(st, order[0], Upsert, now), order[1..], now)
  }

  /** Publishing model and store: the first pass starts over exactly the current paths. */
  function Attach(st: RState, paths: set<Path>, servable: bool, order: seq<Path>, now: nat): RState {
    UpdatePending(EnqueueAll(
      st.(attached := true, storeQueryable := servable, initialStarted := true, initialRemaining := paths), order, now))
  }

  function RetryDelay(attempt: nat): nat {
    var shift := if attempt <= 1 then 0 else if attempt - 1 < 5 then attempt - 1 else 5;
    var seconds := [1, 2, 4, 8, 16, 32][shift];
    if seconds < MAX_RETRY_DELAY then seconds else MAX_RETRY_DELAY
  }

  /** The wait before a retry doubles from one second up to thirty: 1, 2, 4, 8, 16, 30, 30, and so on. */
  lemma DelayDoubles(attempt: nat)
    requires attempt >= 1
    ensures RetryDelay(1) == 1 && 1 <= RetryDelay(attempt) <= 30
    ensures RetryDelay(attempt + 1) == if 2 * RetryDelay(attempt) < 30 then 2 * RetryDelay(attempt) else 30
  {
    if attempt == 1 {
    } else if attempt == 2 {
    } else if attempt == 3 {
    } else if attempt == 4 {
    } else if attempt == 5 {
    } else {
    }
  }

  /** Removals first, then upserts; within a kind by path. */
  predicate WorkLe(a: (Kind, Path), b: (Kind, Path)) {
    if a.0 == b.0 then PathLe(a.1, b.1) else a.0.Remove?
  }

  function DuePaths(st: RState, now: nat): set<Path> {
    set p | p in st.pending && st.pending[p].notBefore <= now
  }

  function Order(work: Work): (Kind, Path) {
    (work.kind, work.path)
  }

  predicate DistinctPaths(batch: seq<Work>) {
    forall i, j :: 0 <= i < j < |batch| ==> batch[i].path != batch[j].path
  }

  function Paths(batch: seq<Work>): set<Path> {
    set i | 0 <= i < |batch| :: batch[i].path
  }

  /** The batch a take returns: the first 32 due items in order. */
  ghost predicate IsBatch(st: RState, now: nat, batch: seq<Work>) {
    && |batch| == (if |DuePaths(st, now)| < RECONCILE_BATCH_SIZE then |DuePaths(st, now)| else RECONCILE_BATCH_SIZE)
    && DistinctPaths(batch)
    && (forall i :: 0 <= i < |batch| ==> batch[i].path in DuePaths(st, now) && st.pending[batch[i].path] == batch[i])
    && (forall i, j :: 0 <= i < j < |batch| ==> WorkLe(Order(batch[i]), Order(batch[j])))
    && (forall i, p :: 0 <= i < |batch| && p in DuePaths(st, now) && p !in Paths(batch) ==>
                         WorkLe(Order(batch[i]), (st.pending[p].kind, p)))
  }

  function InflightOf(batch: seq<Work>): map<Path, nat>
    requires DistinctPaths(batch)
  {
    map p | p in Paths(batch) :: GenerationIn(batch, p)
  }

  function GenerationIn(batch: seq<Work>, p: Path): nat {
    if |batch| == 0 then 0 else if batch[0].path == p then batch[0].generation else GenerationIn(batch[1..], p)
  }

  lemma {:induction false} GenerationInAt(batch: seq<Work>, i: nat)
    requires i < |batch| && DistinctPaths(batch)
    ensures GenerationIn(batch, batch[i].path) == batch[i].generation
  {
    if i > 0 {
      assert batch[0].path != batch[i].path;
      assert batch[i] == batch[1..][i - 1];
      GenerationInAt(batch[1..], i - 1);
    }
  }

  function Without(pending: map<Path, Work>, paths: set<Path>): map<Path, Work> {
    map p | p in pending && p !in paths :: pending[p]
  }

  function TakeBatch(st: RState, batch: seq<Work>): RState
    requires DistinctPaths(batch)
  {
    UpdatePending(st.(
      pending := Without(st.pending, Paths(batch)),
      inflight := st.inflight + InflightOf(batch)))
  }

  function Drop<T>(m: map<Path, T>, p: Path): map<Path, T> {
    map q | q in m && q != p :: m[q]
  }

  /** `m'` holds what `m` holds, except for `p`. */
  ghost predicate Loses<T>(m: map<Path, T>, m': map<Path, T>, p: Path) {
    && (forall q :: q in m' <==> q in m && q != p)
    && (forall q :: q in m' ==> m'[q] == m[q])
  }

  lemma DropLoses<T>(m: map<Path, T>, p: Path)
    ensures Loses(m, Drop(m, p), p)
  {
  }

  function FinishSuccess(st: RState, p: Path): RState {
    UpdatePending(st.(
      inflight := Drop(st.inflight, p),
      initialRemaining := st.initialRemaining - {p},
      failures := Drop(st.failures, p)))
  }

  /** A newer intent is pending: the finished work only leaves the in-flight table. */
  function Supersede(st: RState, p: Path): RState {
    UpdatePending(st.(inflight := Drop(st.inflight, p)))
  }

  function MarkSuccess(st: RState, work: Work): RState {
    if IsCurrent(st, work) then FinishSuccess(st, work.path) else Supersede(st, work.path)
  }

  function Retry(work: Work, now: nat): Work {
    var attempt := if work.attempt < MAX_ATTEMPT then work.attempt + 1 else MAX_ATTEMPT;
    work.(attempt := attempt, notBefore := now + RetryDelay(attempt))
  }

  /** The same intent comes back, one attempt older as far as a byte counts, and strictly later. */
  lemma RetryIsLater(work: Work, now: nat)
    ensures Retry(work, now) == Work(work.path, work.generation, work.kind, Retry(work, now).attempt, Retry(work, now).notBefore)
    ensures Retry(work, now).attempt == if work.attempt < 255 then work.attempt + 1 else 255
    ensures now + 1 <= Retry(work, now).notBefore <= now + 30
    ensures work.attempt == 0 ==> Retry(work, now).notBefore == now + 1
    ensures work.attempt >= 5 ==> Retry(work, now).notBefore == now + 30
  {
    DelayDoubles(Retry(work, now).attempt);
  }

  function RequeueFailure(st: RState, work: Work, error: string, now: nat): RState {
    if IsCurrent(st, work) then
      UpdatePending(st.(
        inflight := Drop(st.inflight, work.path),
        initialRemaining := st.initialRemaining - {work.path},
        failures := st.failures[work.path := error],
        pending := st.pending[work.path := Retry(work, now)]))
    else
      Supersede(st, work.path)
  }

  predicate ReadyToFinalize(st: RState) {
    st.initialStarted && !st.reconciliationComplete && st.initialRemaining == {}
  }

  function Finalize(st: RState, servable: bool): RState {
    if ReadyToFinalize(st) then
      st.(reconciliationComplete := true, storeQueryable := st.storeQueryable || servable)
    else st
  }

  /** A successful upsert commit also opens the store once the first pass is over. */
  function CommitSuccess(st: RState, p: Path): RState {
    var done := FinishSuccess(st, p);
    done.(storeQueryable := done.storeQueryable || done.reconciliationComplete)
  }

  /** The status that `refresh_status` installs; `failure` is whichever recorded failure it happens to pick. */
  function RefreshedStatus(st: RState, total: nat, indexed: nat, failure: Option<string>): Status {
    var distinct := |st.pending.Keys + st.inflight.Keys|;
    var lastError := if st.persistenceError.Some? then st.persistenceError else failure;
    Status(
      if lastError.Some? then Degraded
      else if !st.reconciliationComplete || distinct > 0 then Warming
      else Ready,
      st.storeQueryable && st.attached, indexed, total, distinct, lastError)
  }

  predicate PicksFailure(st: RState, failure: Option<string>) {
    match failure
    case None => st.failures == map[]
    case Some(error) => exists p :: p in st.failures && st.failures[p] == error
  }
}
