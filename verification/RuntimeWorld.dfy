/**
 * The embedding runtime as a labelled transition system.
 *
 * Producers edit files and the index and submit intents; one coordinator takes batches, prepares, embeds,
 * commits or requeues, finalizes the first pass and persists. A step is one critical section or one read of
 * shared data, so a run of `Apply` is an interleaving at lock granularity.
 */
module RuntimeWorld {
  import opened Common
  import opened EmbeddingStore
  import opened RuntimeState

  /** How far one taken item has got. */
  datatype Stage =
    | Taken
    | ToRemove
    | Unreadable(error: string)
    | Prepared(headings: seq<string>, body: string)
    | Changed(headings: seq<string>, body: string)
    | Done

  datatype Batch = Batch(works: seq<Work>, stages: seq<Stage>)

  datatype Pc =
    | Loading
    | Loaded(paths: set<Path>)
    | Attaching(paths: set<Path>)
    | Finalizing
    | Refreshing
    | MayPersist
    | LoopTop
    | Taking
    | Snapshotting(b: Batch)
    | Reading(b: Batch, i: nat, snap: map<Path, seq<string>>)
    | Settling(b: Batch, i: nat)
    | Embedding(b: Batch)
    | Committing(b: Batch, i: nat, cursor: nat, vectors: seq<Vector>)
    | CommitFailing(b: Batch, i: nat, cursor: nat, vectors: seq<Vector>, error: string)
    | Requeueing(b: Batch, i: nat, error: string)
    | Stopped

  /** The headings and body that the stored rows of a note were computed from. */
  datatype Origin = Origin(headings: seq<string>, body: string)

  /**
   * `metas` is the index (path to headings), `files` the readable note bodies. The last group records history:
   * paths edited since their last submission, the generation and kind last submitted for a path, paths settled
   * at least once, where each note's rows in memory and on disk come from, and whether the cache on disk was
   * ever known to hold the store.
   */
  datatype World = World(
    st: RState,
    store: Store,
    disk: Option<Store>,
    live: bool,
    dirty: bool,
    pc: Pc,
    metas: map<Path, seq<string>>,
    files: map<Path, string>,
    unsubmitted: set<Path>,
    latest: map<Path, nat>,
    intent: map<Path, Kind>,
    settledOnce: set<Path>,
    initial: set<Path>,
    cachePublishable: bool,
    synced: bool,
    origin: map<Path, Origin>,
    diskOrigin: map<Path, Origin>)

  datatype Step =
    | EditFile(p: Path, content: Option<string>)
    | EditIndex(p: Path, headings: Option<seq<string>>)
    | SubmitIntent(p: Path, kind: Kind, now: nat)
    | ClearLive
    | AbortWorker
    | LoaderFails(error: string)
    | LoaderSucceeds
    | LoadCache(accepted: bool)
    | AttachStore(order: seq<Path>, now: nat)
    | FinalizePass
    | Refresh(total: nat, indexed: nat, failure: Option<string>)
    | PersistOk
    | PersistFails(error: string)
    | PersistRefused
    | SkipPersist
    | CheckLive
    | Take(batch: seq<Work>, now: nat)
    | ReadMetadata
    | PreparationFails(error: string)
    | ReadFile(error: string)
    | SettleNext(now: nat)
    | EmbedOk
    | EmbedFails(error: string)
    | CommitNext(error: string, now: nat)
    | RequeueFailedCommit(now: nat)
    | RequeueNext(now: nat)

  function Set(b: Batch, i: nat, stage: Stage): Batch
    requires i < |b.stages|
  {
    b.(stages := b.stages[i := stage])
  }

  predicate AnyChanged(b: Batch) {
    exists i :: 0 <= i < |b.stages| && b.stages[i].Changed?
  }

  /** Every text of the notes still to be committed, flattened in batch order from item `i` on. */
  function FlatTexts(prm: Params, b: Batch, i: nat): seq<string>
    requires |b.works| == |b.stages|
    decreases |b.works| - i
  {
    if i >= |b.works| then []
    else if b.stages[i].Changed? then
      PreparedTexts(prm, b.works[i].path, b.stages[i].headings, b.stages[i].body) + FlatTexts(prm, b, i + 1)
    else FlatTexts(prm, b, i + 1)
  }

  /** The hash probe: do the stored rows already carry this body's hash? */
  predicate Unchanged(prm: Params, store: Store, p: Path, body: string) {
    ChunkKey(p, 0) in store.entries && store.entries[ChunkKey(p, 0)].hash == ContentHash(prm, p, body)
  }

  function Settle(w: World, p: Path): World {
    w.(settledOnce := w.settledOnce + {p})
  }

  function CommitRemove(w: World, work: Work): World {
    if !w.live then w
    else if !IsCurrent(w.st, work) then w.(st := Supersede(w.st, work.path))
    else
      var entries := RemoveNote(w.store.entries, work.path);
      Settle(w.(
        store := w.store.(entries := entries),
        dirty := w.dirty || entries != w.store.entries,
        origin := Drop(w.origin, work.path),
        st := FinishSuccess(w.st, work.path)), work.path)
  }

  function MarkUnchanged(w: World, work: Work): World {
    if IsCurrent(w.st, work) then Settle(w.(st := MarkSuccess(w.st, work)), work.path)
    else w.(st := MarkSuccess(w.st, work))
  }

  function Requeue(w: World, work: Work, error: string, now: nat): World {
    if IsCurrent(w.st, work) then Settle(w.(st := RequeueFailure(w.st, work, error, now)), work.path)
    else w.(st := RequeueFailure(w.st, work, error, now))
  }

  /** Rewrites a current note's rows; the flag is false when an insertion was refused. */
  function CommitRows(prm: Params, w: World, work: Work, headings: seq<string>, body: string, vectors: seq<Vector>)
    : (World, bool)
    requires |vectors| == |prm.pieces(body)| + 1
  {
    var p := work.path;
    var keys := RowKeys(p, |prm.pieces(body)|);
    var (entries, ok) :=
      InsertAll(RemoveNote(w.store.entries, p), keys, ContentHash(prm, p, body), vectors, prm.storeDim);
    if ok then
      (Settle(w.(
         store := w.store.(entries := entries),
         dirty := true,
         origin := w.origin[p := Origin(headings, body)],
         st := CommitSuccess(w.st, p)), p), true)
    else
      (w.(store := w.store.(entries := entries), origin := Drop(w.origin, p)), false)
  }

  predicate InBatch(pc: Pc) {
    pc.Snapshotting? || pc.Reading? || pc.Settling? || pc.Embedding? || pc.Committing? || pc.CommitFailing? ||
    pc.Requeueing?
  }

  /** Paths that an attach must queue: current paths without pending work, each once. */
  ghost predicate IsAttachOrder(st: RState, paths: set<Path>, order: seq<Path>) {
    && (forall i, j :: 0 <= i < j < |order| ==> order[i] != order[j])
    && (forall p :: p in order <==> p in paths && p !in st.pending)
  }

  ghost predicate Enabled(w: World, step: Step) {
    match step
    case EditFile(_, _) => true
    case EditIndex(_, _) => true
    case SubmitIntent(_, _, _) => true
    case ClearLive => true
    case AbortWorker => !w.live
    case LoaderFails(_) => w.pc.Loading?
    case LoaderSucceeds => w.pc.Loading?
    case LoadCache(accepted) => w.pc.Loaded? && (accepted ==> w.disk.Some?)
    case AttachStore(order, _) => w.pc.Attaching? && IsAttachOrder(w.st, w.pc.paths, order)
    case FinalizePass => w.pc.Finalizing?
    case Refresh(_, _, failure) => w.pc.Refreshing? && PicksFailure(w.st, failure)
    case PersistOk => w.pc.MayPersist? && w.dirty && w.live
    case PersistFails(_) => w.pc.MayPersist? && w.dirty
    case PersistRefused => w.pc.MayPersist? && w.dirty && !w.live
    case SkipPersist => w.pc.MayPersist?
    case CheckLive => w.pc.LoopTop?
    case Take(batch, now) => w.pc.Taking? && IsBatch(w.st, now, batch)
    case ReadMetadata => w.pc.Snapshotting?
    case PreparationFails(_) => w.pc.Snapshotting? || w.pc.Reading?
    case ReadFile(_) => w.pc.Reading? && WellShaped(w.pc.b)
    case SettleNext(_) => w.pc.Settling? && WellShaped(w.pc.b)
    case EmbedOk => w.pc.Embedding? && WellShaped(w.pc.b)
    case EmbedFails(_) => w.pc.Embedding?
    case CommitNext(_, _) => w.pc.Committing? && WellShaped(w.pc.b)
    case RequeueFailedCommit(_) => w.pc.CommitFailing? && WellShaped(w.pc.b) && w.pc.i < |w.pc.b.works|
    case RequeueNext(_) => w.pc.Requeueing? && WellShaped(w.pc.b)
  }

  predicate WellShaped(b: Batch) {
    |b.works| == |b.stages|
  }

  function StageRead(prm: Params, w: World, work: Work, snap: map<Path, seq<string>>, error: string): Stage {
    var p := work.path;
    if work.kind.Remove? || p !in snap then ToRemove
    else if p !in w.files then Unreadable(error)
    else if prm.pieces(w.files[p]) == [] then ToRemove
    else Prepared(snap[p], w.files[p])
  }

  function DoReadFile(prm: Params, w: World, error: string): World
    requires w.pc.Reading? && WellShaped(w.pc.b)
  {
    var Reading(b, i, snap) := w.pc;
    if i >= |b.works| then w.(pc := Settling(b, 0))
    else w.(pc := Reading(Set(b, i, StageRead(prm, w, b.works[i], snap, error)), i + 1, snap))
  }

  function DoSettle(prm: Params, w: World, now: nat): World
    requires w.pc.Settling? && WellShaped(w.pc.b)
  {
    var Settling(b, i) := w.pc;
    if i >= |b.works| then
      w.(pc := if AnyChanged(b) then Embedding(b) else Finalizing)
    else
      var work, done := b.works[i], Settling(Set(b, i, Done), i + 1);
      match b.stages[i]
      case ToRemove => CommitRemove(w, work).(pc := done)
      case Unreadable(error) => Requeue(w, work, error, now).(pc := done)
      case Prepared(headings, body) =>
        if Unchanged(prm, w.store, work.path, body) then MarkUnchanged(w, work).(pc := done)
        else w.(pc := Settling(Set(b, i, Changed(headings, body)), i + 1))
      case _ => w.(pc := Settling(b, i + 1))
  }

  function DoCommit(prm: Params, w: World, error: string, now: nat): World
    requires w.pc.Committing? && WellShaped(w.pc.b)
  {
    var Committing(b, i, cursor, vectors) := w.pc;
    if i >= |b.works| then w.(pc := Finalizing)
    else if !b.stages[i].Changed? then w.(pc := Committing(b, i + 1, cursor, vectors))
    else
      var work := b.works[i];
      var Changed(headings, body) := b.stages[i];
      var next := cursor + |prm.pieces(body)| + 1;
      if next > |vectors| then
        Requeue(w, work, error, now).(pc := Committing(Set(b, i, Done), i + 1, cursor, vectors))
      else
        var done := Committing(Set(b, i, Done), i + 1, next, vectors);
        if !w.live then w.(pc := done)
        else if !IsCurrent(w.st, work) then w.(st := Supersede(w.st, work.path), pc := done)
        else
          var (w', ok) := CommitRows(prm, w, work, headings, body, vectors[cursor..next]);
          w'.(pc := if ok then done else CommitFailing(b, i, next, vectors, error))
  }

  function DoFailedCommit(w: World, now: nat): World
    requires w.pc.CommitFailing? && WellShaped(w.pc.b) && w.pc.i < |w.pc.b.works|
  {
    var CommitFailing(b, i, cursor, vectors, error) := w.pc;
    Requeue(w, b.works[i], error, now).(pc := Committing(Set(b, i, Done), i + 1, cursor, vectors))
  }

  function DoRequeue(w: World, now: nat): World
    requires w.pc.Requeueing? && WellShaped(w.pc.b)
  {
    var Requeueing(b, i, error) := w.pc;
    if i >= |b.works| then w.(pc := Finalizing)
    else if b.stages[i].Done? then w.(pc := Requeueing(b, i + 1, error))
    else Requeue(w, b.works[i], error, now).(pc := Requeueing(Set(b, i, Done), i + 1, error))
  }

  function AttachedLatest(latest: map<Path, nat>, order: seq<Path>, st: RState): map<Path, nat> {
    map p | p in latest.Keys + (set q | q in order) ::
      if p in order && p in st.pending then st.pending[p].generation else if p in latest then latest[p] else 0
  }

  function AttachedIntent(intent: map<Path, Kind>, order: seq<Path>): map<Path, Kind> {
    map p | p in intent.Keys + (set q | q in order) :: if p in order || p !in intent then Upsert else intent[p]
  }

  function DoAttach(w: World, order: seq<Path>, now: nat): World
    requires w.pc.Attaching?
  {
    var servable := w.cachePublishable && (w.pc.paths == {} || w.store.entries != map[]);
    var st := Attach(w.st, w.pc.paths, servable, order, now);
    w.(
      st := st,
      initial := w.pc.paths,
      latest := AttachedLatest(w.latest, order, st),
      intent := AttachedIntent(w.intent, order),
      pc := Finalizing)
  }

  function DoLoadCache(w: World, accepted: bool): World
    requires w.pc.Loaded? && (accepted ==> w.disk.Some?)
  {
    if !w.live then w.(pc := Stopped)
    else
      var loaded := if accepted then w.disk.value else Store(map[], false);
      var entries := RetainPaths(loaded.entries, w.pc.paths);
      w.(
        store := loaded.(entries := entries),
        dirty := entries != loaded.entries,
        synced := accepted && entries == loaded.entries,
        cachePublishable := loaded.firstPassComplete,
        origin := if accepted then map p | p in w.diskOrigin && p in w.pc.paths :: w.diskOrigin[p] else map[],
        pc := Attaching(w.pc.paths))
  }

  /** The store has rows to serve, or there is no note to have any. */
  predicate MayServe(w: World) {
    w.metas == map[] || w.store.entries != map[]
  }

  function DoFinalize(w: World): World {
    if w.live && ReadyToFinalize(w.st) then
      w.(
        st := Finalize(w.st, MayServe(w)),
        dirty := w.dirty || !w.store.firstPassComplete,
        store := w.store.(firstPassComplete := true),
        pc := Refreshing)
    else w.(pc := Refreshing)
  }

  function Update<T>(m: map<Path, T>, p: Path, value: Option<T>): map<Path, T> {
    if value.Some? then m[p := value.value] else Drop(m, p)
  }

  function Apply(prm: Params, w: World, step: Step): World
    requires Enabled(w, step)
  {
    match step
    case EditFile(p, content) =>
      w.(files := Update(w.files, p, content), unsubmitted := w.unsubmitted + {p})
    case EditIndex(p, headings) =>
      w.(metas := Update(w.metas, p, headings), unsubmitted := w.unsubmitted + {p})
    case SubmitIntent(p, kind, now) =>
      w.(
        st := Submit(w.st, p, kind, now),
        unsubmitted := w.unsubmitted - {p},
        latest := w.latest[p := w.st.nextGeneration + 1],
        intent := w.intent[p := kind])
    case ClearLive => w.(live := false)
    case AbortWorker => w.(pc := Stopped)
    case LoaderFails(error) =>
      w.(
        st := w.st.(status := Status(
          Degraded, false, 0, |w.metas|, |w.st.pending.Keys + w.st.inflight.Keys|, Some(error))),
        pc := Stopped)
    case LoaderSucceeds => w.(pc := if w.live then Loaded(w.metas.Keys) else Stopped)
    case LoadCache(accepted) => DoLoadCache(w, accepted)
    case AttachStore(order, now) => DoAttach(w, order, now)
    case FinalizePass => DoFinalize(w)
    case Refresh(total, indexed, failure) =>
      w.(st := w.st.(status := RefreshedStatus(w.st, total, indexed, failure)), pc := MayPersist)
    case PersistOk =>
      w.(
        disk := Some(w.store), diskOrigin := w.origin, dirty := false, synced := true,
        st := w.st.(persistenceError := None), pc := Refreshing)
    case PersistFails(error) => w.(st := w.st.(persistenceError := Some(error)), pc := Refreshing)
    case PersistRefused => w.(pc := Stopped)
    case SkipPersist => w.(pc := LoopTop)
    case CheckLive => w.(pc := if w.live then Taking else Stopped)
    case Take(batch, now) =>
      w.(
        st := TakeBatch(w.st, batch),
        pc := if batch == [] then MayPersist else Snapshotting(Batch(batch, seq(|batch|, i => Taken))))
    case ReadMetadata => w.(pc := Reading(w.pc.b, 0, w.metas))
    case PreparationFails(error) => w.(pc := Requeueing(w.pc.b, 0, error))
    case ReadFile(error) => DoReadFile(prm, w, error)
    case SettleNext(now) => DoSettle(prm, w, now)
    case EmbedOk => w.(pc := Committing(w.pc.b, 0, 0, EmbedAll(prm, FlatTexts(prm, w.pc.b, 0))))
    case EmbedFails(error) => w.(pc := Requeueing(w.pc.b, 0, error))
    case CommitNext(error, now) => DoCommit(prm, w, error, now)
    case RequeueFailedCommit(now) => DoFailedCommit(w, now)
    case RequeueNext(now) => DoRequeue(w, now)
  }
}
