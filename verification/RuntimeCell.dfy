/**
 * The runtime's state as the program keeps it: one object whose fields each critical section updates in place.
 * Every method is proved against the section of the same name in `RuntimeState`.
 */
module RuntimeCell {
  import opened Common
  import opened EmbeddingStore
  import opened RuntimeState

  lemma WorkOrder()
    ensures TotalOrder(WorkLe)
  {
    PathOrder();
    hide TotalOrder;
    forall a: (Kind, Path), b: (Kind, Path) ensures WorkLe(a, b) || WorkLe(b, a) { PathsCompare(a.1, b.1, b.1); }
    forall a: (Kind, Path), b: (Kind, Path) | WorkLe(a, b) && WorkLe(b, a) ensures a == b {
      PathsCompare(a.1, b.1, b.1);
    }
    forall a: (Kind, Path), b: (Kind, Path), c: (Kind, Path) | WorkLe(a, b) && WorkLe(b, c) ensures WorkLe(a, c) {
      PathsCompare(a.1, b.1, c.1);
    }
    WorkLeIsTotal();
  }

  lemma PathsCompare(a: Path, b: Path, c: Path)
    ensures PathLe(a, b) || PathLe(b, a)
    ensures PathLe(a, b) && PathLe(b, a) ==> a == b
    ensures PathLe(a, b) && PathLe(b, c) ==> PathLe(a, c)
  {
    PathOrder();
  }

  lemma WorkLeIsTotal()
    requires forall a, b :: WorkLe(a, b) || WorkLe(b, a)
    requires forall a, b :: WorkLe(a, b) && WorkLe(b, a) ==> a == b
    requires forall a, b, c :: WorkLe(a, b) && WorkLe(b, c) ==> WorkLe(a, c)
    ensures TotalOrder(WorkLe)
  {
  }

  /** An upsert for every key, each under a generation of its own up to the newest. */
  ghost predicate Queued(pending: map<Path, Work>, newest: nat, now: nat) {
    && (forall p :: p in pending ==>
                      && pending[p] == Work(p, pending[p].generation, Upsert, 0, now)
                      && 1 <= pending[p].generation <= newest)
    && (forall p, q :: p in pending && q in pending && p != q ==> pending[p].generation != pending[q].generation)
  }

  /** `m'` has an entry for `p`, and otherwise holds what `m` holds. */
  ghost predicate Replaces<T>(m: map<Path, T>, m': map<Path, T>, p: Path) {
    && p in m'
    && (forall q :: q != p ==> (q in m' <==> q in m))
    && (forall q :: q != p && q in m && q in m' ==> m'[q] == m[q])
  }

  lemma PutReplaces<T>(m: map<Path, T>, p: Path, v: T)
    ensures Replaces(m, m[p := v], p)
  {
  }

  /** `again` is `work` one attempt on, up to 255, and due one to thirty seconds after `now`. */
  predicate ComesBackLater(work: Work, again: Work, now: nat) {
    && again == Work(work.path, work.generation, work.kind, again.attempt, again.notBefore)
    && again.attempt == (if work.attempt < 255 then work.attempt + 1 else 255)
    && now < again.notBefore <= now + 30
  }

  class Runtime {
    var nextGeneration: nat
    var pending: map<Path, Work>
    var inflight: map<Path, nat>
    var initialRemaining: set<Path>
    var initialStarted: bool
    var reconciliationComplete: bool
    var failures: map<Path, string>
    var persistenceError: Option<string>
    var attached: bool
    var storeQueryable: bool
    var status: Status
    var store: Store
    var live: bool
    const storeDim: nat

    ghost function Abs(): RState
      reads this
    {
      RState(nextGeneration, pending, inflight, initialRemaining, initialStarted, reconciliationComplete, failures,
             persistenceError, attached, storeQueryable, status)
    }

    /** Pending work is filed under its own path. */
    ghost predicate Valid()
      reads this`pending
    {
      forall p :: p in pending ==> pending[p].path == p
    }

    /** No newer intent stands behind this item: nothing is pending for its note, or it is what is pending. */
    ghost predicate Speaks(work: Work)
      reads this
    {
      if work.path in pending then pending[work.path].generation == work.generation
      else work.path in inflight && inflight[work.path] == work.generation
    }

    /** Spawning queues an upsert for every note of the index, each under its own generation. */
    constructor (paths: set<Path>, dim: nat, now: nat)
      ensures Valid() && pending.Keys == paths && nextGeneration == |paths|
      ensures Queued(pending, nextGeneration, now)
      ensures Abs() == RState(nextGeneration, pending, map[], {}, false, false, map[], None, false, false,
                              Status(Warming, false, 0, |paths|, |paths|, None))
      ensures store == Store(map[], false) && live && storeDim == dim
    {
      inflight, initialRemaining, initialStarted, reconciliationComplete := map[], {}, false, false;
      failures, persistenceError, attached, storeQueryable := map[], None, false, false;
      status := Status(Warming, false, 0, |paths|, 0, None);
      store, live, storeDim := Store(map[], false), true, dim;
      nextGeneration, pending := 0, map[];
      new;
      hide Queued, Valid;
      QueueInitial(paths, now);
      CountInitial(paths);
    }

    method CountInitial(paths: set<Path>)
      requires pending.Keys == paths && inflight == map[] && status == Status(Warming, false, 0, |paths|, 0, None)
      modifies this`status
      ensures status == Status(Warming, false, 0, |paths|, |paths|, None)
    {
      hide UpdatePending;
      assert pending.Keys + inflight.Keys == paths;
      SpawnedStatus(Abs(), paths);
      UpdatePendingStatus();
    }

    method QueueInitial(paths: set<Path>, now: nat)
      requires pending == map[] && nextGeneration == 0
      modifies this`pending, this`nextGeneration
      ensures pending.Keys == paths && nextGeneration == |paths| && Valid()
      ensures Queued(pending, nextGeneration, now)
    {
      var rest := paths;
      while rest != {}
        invariant rest <= paths && pending.Keys == paths - rest
        invariant nextGeneration + |rest| == |paths|
        invariant Queued(pending, nextGeneration, now)
        decreases rest
      {
        var p :| p in rest;
        var generation := NextGeneration();
        pending := pending[p := Work(p, generation, Upsert, 0, now)];
        rest := rest - {p};
      }
    }

    method NextGeneration() returns (generation: nat)
      modifies this`nextGeneration
      ensures nextGeneration == old(nextGeneration) + 1 && generation == nextGeneration
    {
      nextGeneration := nextGeneration + 1;
      generation := nextGeneration;
    }

    method UpdatePendingStatus()
      modifies this`status
      ensures Abs() == UpdatePending(old(Abs()))
    {
      var distinct := |pending.Keys + inflight.Keys|;
      status := status.(pendingNotes := distinct);
      if status.pendingNotes > 0 && status.lastError.None? && status.phase.Ready? {
        status := status.(phase := Warming);
      }
    }

    /** Files an intent under the next generation, in place of any older pending one. */
    method Queue(path: Path, kind: Kind, now: nat)
      requires Valid()
      modifies this`nextGeneration, this`pending
      ensures Valid() && Abs() == Enqueue(old(Abs()), path, kind, now)
      ensures pending.Keys == old(pending).Keys + {path}
    {
      var generation := NextGeneration();
      pending := pending[path := Work(path, generation, kind, 0, now)];
    }

    method Submit(path: Path, kind: Kind, now: nat)
      requires Valid()
      modifies this`nextGeneration, this`pending, this`status
      ensures Valid() && Abs() == RuntimeState.Submit(old(Abs()), path, kind, now)
    {
      hide UpdatePending, Enqueue;
      Queue(path, kind, now);
      UpdatePendingStatus();
    }

    /** Publishing model and store queues an upsert for every current path without pending work. */
    method AttachStore(paths: set<Path>, servable: bool, now: nat) returns (ghost order: seq<Path>)
      requires Valid()
      modifies this`nextGeneration, this`pending, this`attached, this`storeQueryable, this`initialStarted,
               this`initialRemaining, this`status
      ensures forall i, j :: 0 <= i < j < |order| ==> order[i] != order[j]
      ensures forall p :: p in order <==> p in paths && p !in old(pending)
      ensures Valid() && Abs() == Attach(old(Abs()), paths, servable, order, now)
    {
      hide UpdatePending, EnqueueAll;
      attached, storeQueryable, initialStarted, initialRemaining := true, servable, true, paths;
      assert Abs() == old(Abs()).(
        attached := true, storeQueryable := servable, initialStarted := true, initialRemaining := paths);
      order := QueueMissing(paths, now);
      UpdatePendingStatus();
    }

    method QueueMissing(paths: set<Path>, now: nat) returns (ghost order: seq<Path>)
      requires Valid()
      modifies this`nextGeneration, this`pending
      ensures forall i, j :: 0 <= i < j < |order| ==> order[i] != order[j]
      ensures forall p :: p in order <==> p in paths && p !in old(pending)
      ensures Valid() && Abs() == EnqueueAll(old(Abs()), order, now)
    {
      hide EnqueueAll, Enqueue;
      order := [];
      EnqueueNone(Abs(), now);
      var rest := paths;
      while rest != {}
        invariant rest <= paths
        invariant forall i, j :: 0 <= i < j < |order| ==> order[i] != order[j]
        invariant forall p :: p in order <==> p in paths - rest && p !in old(pending)
        invariant forall p :: p in pending <==> p in old(pending) || p in order
        invariant Valid() && Abs() == EnqueueAll(old(Abs()), order, now)
        decreases rest
      {
        var p :| p in rest;
        if p !in pending {
          EnqueueAllSnoc(old(Abs()), order, p, now);
          Queue(p, Upsert, now);
          order := order + [p];
        }
        rest := rest - {p};
      }
    }

    /**
     * Takes the first due items: removals before upserts, by path, at most 32. Also reports the earliest retry
     * time left and whether nothing is outstanding.
     */
    method TakeDueBatch(now: nat) returns (batch: seq<Work>, nextPending: Option<nat>, pendingEmpty: bool)
      requires Valid()
      modifies this`pending, this`inflight, this`status
      ensures Valid() && IsBatch(old(Abs()), now, batch)
      ensures Abs() == TakeBatch(old(Abs()), batch)
      ensures nextPending.None? <==> pending == map[]
      ensures nextPending.Some? ==>
                && (exists p :: p in pending && pending[p].notBefore == nextPending.value)
                && (forall p :: p in pending ==> nextPending.value <= pending[p].notBefore)
      ensures pendingEmpty <==> pending == map[] && inflight == map[]
    {
      hide UpdatePending, IsBatch, InflightOf, DuePaths, ListsDue;
      ghost var before := Abs();
      var due := DueWork(now);
      var count := if |due| < RECONCILE_BATCH_SIZE then |due| else RECONCILE_BATCH_SIZE;
      ListsDueFacts(before, now, due);
      batch := MoveToInflight(seq(count, i requires 0 <= i < count => due[i].1));
      TakenIsBatch(before, now, due, batch);
      assert Abs() == before.(pending := Without(before.pending, Paths(batch)), inflight := before.inflight + InflightOf(batch));
      nextPending := EarliestPending();
      pendingEmpty := pending == map[] && inflight == map[];
      UpdatePendingStatus();
    }

    method DueWork(now: nat) returns (due: seq<(Kind, Path)>)
      ensures ListsDue(Abs(), now, due)
    {
      hide TotalOrder, WorkLe;
      var pairs := set p | p in pending && pending[p].notBefore <= now :: (pending[p].kind, p);
      WorkOrder();
      due := SortedList(pairs, WorkLe);
      DueCount(Abs(), now, pairs);
      assert forall x :: x in due <==> x in pairs;
      assert forall x :: x in pairs <==> x.1 in DuePaths(Abs(), now) && pending[x.1].kind == x.0;
    }

    method MoveToInflight(taken: seq<Path>) returns (batch: seq<Work>)
      requires forall i :: 0 <= i < |taken| ==> taken[i] in pending && pending[taken[i]].path == taken[i]
      requires forall i, j :: 0 <= i < j < |taken| ==> taken[i] != taken[j]
      modifies this`pending, this`inflight
      ensures |batch| == |taken|
      ensures forall i :: 0 <= i < |taken| ==> batch[i] == old(pending)[taken[i]]
      ensures pending == Without(old(pending), Paths(batch))
      ensures DistinctPaths(batch) && inflight == old(inflight) + InflightOf(batch)
    {
      hide InflightOf, Paths;
      batch := [];
      NothingTaken(pending, inflight);
      var i := 0;
      while i < |taken|
        invariant 0 <= i <= |taken| && |batch| == i
        invariant forall j :: 0 <= j < i ==> batch[j] == old(pending)[taken[j]]
        invariant pending == Without(old(pending), Paths(batch))
        invariant DistinctPaths(batch) && inflight == old(inflight) + InflightOf(batch)
      {
        var path := taken[i];
        NotYetTaken(batch, path);
        var work := pending[path];
        pending := map p | p in pending && p != path :: pending[p];
        inflight := inflight[path := work.generation];
        InflightSnoc(batch, work);
        PathsSnoc(batch, work);
        batch := batch + [work];
        i := i + 1;
      }
    }

    method EarliestPending() returns (earliest: Option<nat>)
      ensures earliest.None? <==> pending == map[]
      ensures earliest.Some? ==>
                && (exists p :: p in pending && pending[p].notBefore == earliest.value)
                && (forall p :: p in pending ==> earliest.value <= pending[p].notBefore)
    {
      earliest := None;
      var rest := pending.Keys;
      while rest != {}
        invariant rest <= pending.Keys
        invariant earliest.None? <==> rest == pending.Keys
        invariant earliest.Some? ==>
                    && (exists p :: p in pending && pending[p].notBefore == earliest.value)
                    && (forall p :: p in pending && p !in rest ==> earliest.value <= pending[p].notBefore)
        decreases rest
      {
        var p :| p in rest;
        if earliest.None? || pending[p].notBefore < earliest.value {
          earliest := Some(pending[p].notBefore);
        }
        rest := rest - {p};
      }
    }

    method FinishSuccess(path: Path)
      modifies this`inflight, this`initialRemaining, this`failures, this`status
      ensures Abs() == RuntimeState.FinishSuccess(old(Abs()), path)
      ensures Loses(old(inflight), inflight, path) && Loses(old(failures), failures, path)
      ensures initialRemaining == old(initialRemaining) - {path}
    {
      hide UpdatePending, Loses, Drop;
      DropLoses(inflight, path);
      DropLoses(failures, path);
      Forget(path);
      UpdatePendingStatus();
    }

    method RemoveInflight(path: Path)
      modifies this`inflight
      ensures inflight == Drop(old(inflight), path) && Loses(old(inflight), inflight, path)
    {
      inflight := map p | p in inflight && p != path :: inflight[p];
    }

    method Forget(path: Path)
      modifies this`inflight, this`initialRemaining, this`failures
      ensures inflight == Drop(old(inflight), path) && failures == Drop(old(failures), path)
      ensures initialRemaining == old(initialRemaining) - {path}
    {
      RemoveInflight(path);
      initialRemaining := initialRemaining - {path};
      failures := map p | p in failures && p != path :: failures[p];
    }

    method StateGeneration(path: Path) returns (generation: Option<nat>)
      ensures generation == Generation(Abs(), path)
    {
      if path in pending {
        generation := Some(pending[path].generation);
      } else if path in inflight {
        generation := Some(inflight[path]);
      } else {
        generation := None;
      }
    }

    method LeaveInflight(path: Path)
      modifies this`inflight, this`status
      ensures Abs() == Supersede(old(Abs()), path)
      ensures Loses(old(inflight), inflight, path)
    {
      hide UpdatePending, Loses, Drop;
      RemoveInflight(path);
      assert Abs() == old(Abs()).(inflight := Drop(old(inflight), path));
      UpdatePendingStatus();
    }

    method MarkSuccess(work: Work)
      modifies this`inflight, this`initialRemaining, this`failures, this`status
      ensures Abs() == RuntimeState.MarkSuccess(old(Abs()), work)
      ensures Loses(old(inflight), inflight, work.path)
      ensures old(Speaks(work)) ==>
                Loses(old(failures), failures, work.path) && initialRemaining == old(initialRemaining) - {work.path}
      ensures !old(Speaks(work)) ==> failures == old(failures) && initialRemaining == old(initialRemaining)
    {
      hide Loses, UpdatePending;
      var generation := StateGeneration(work.path);
      if generation == Some(work.generation) {
        FinishSuccess(work.path);
      } else {
        LeaveInflight(work.path);
      }
    }

    /** A failed item goes back to pending under its own generation, later; a superseded one just leaves. */
    method RequeueFailure(work: Work, error: string, now: nat)
      requires Valid()
      modifies this`pending, this`inflight, this`initialRemaining, this`failures, this`status
      ensures Valid() && Abs() == RuntimeState.RequeueFailure(old(Abs()), work, error, now)
      ensures old(Speaks(work)) ==>
                && Replaces(old(failures), failures, work.path) && failures[work.path] == error
                && Replaces(old(pending), pending, work.path) && ComesBackLater(work, pending[work.path], now)
                && initialRemaining == old(initialRemaining) - {work.path}
      ensures !old(Speaks(work)) ==>
                pending == old(pending) && failures == old(failures) && initialRemaining == old(initialRemaining)
      ensures Loses(old(inflight), inflight, work.path)
    {
      hide UpdatePending, RetryDelay, Retry, Loses, Replaces;
      RetryIsLater(work, now);
      PutReplaces(failures, work.path, error);
      PutReplaces(pending, work.path, Retry(work, now));
      var generation := StateGeneration(work.path);
      if generation == Some(work.generation) {
        PutBack(work, error, now);
        UpdatePendingStatus();
      } else {
        LeaveInflight(work.path);
      }
    }

    method PutBack(work: Work, error: string, now: nat)
      requires Valid()
      modifies this`pending, this`inflight, this`initialRemaining, this`failures
      ensures Valid()
      ensures Abs() == old(Abs()).(
                inflight := Drop(old(inflight), work.path),
                initialRemaining := old(initialRemaining) - {work.path},
                failures := old(failures)[work.path := error],
                pending := old(pending)[work.path := Retry(work, now)])
      ensures Loses(old(inflight), inflight, work.path)
    {
      hide Loses, Drop;
      RemoveInflight(work.path);
      initialRemaining := initialRemaining - {work.path};
      failures := failures[work.path := error];
      var attempt := if work.attempt < MAX_ATTEMPT then work.attempt + 1 else MAX_ATTEMPT;
      pending := pending[work.path := work.(attempt := attempt, notBefore := now + RetryDelay(attempt))];
    }

    method CommitRemove(work: Work) returns (removed: bool)
      modifies this`inflight, this`initialRemaining, this`failures, this`status, this`store
      ensures !live ==> Abs() == old(Abs()) && store == old(store) && !removed
      ensures live && !IsCurrent(old(Abs()), work) ==>
                Abs() == Supersede(old(Abs()), work.path) && store == old(store) && !removed
      ensures live && IsCurrent(old(Abs()), work) ==>
                && Abs() == RuntimeState.FinishSuccess(old(Abs()), work.path)
                && store == old(store).(entries := RemoveNote(old(store).entries, work.path))
                && (removed <==> store != old(store))
    {
      hide UpdatePending, RuntimeState.FinishSuccess, Supersede;
      removed := false;
      if live {
        var generation := StateGeneration(work.path);
        if generation != Some(work.generation) {
          LeaveInflight(work.path);
        } else {
          var kept := map k | k in store.entries && k.note != work.path :: store.entries[k];
          removed := kept != store.entries;
          store := store.(entries := kept);
          FinishSuccess(work.path);
        }
      }
    }

    /**
     * Drops the note's old rows, then inserts the new ones until one is refused. Success finishes the item and,
     * after the first pass, opens the store; a refusal requeues it and reports nothing to persist.
     */
    method CommitUpsertChunks(work: Work, hash: string, keys: seq<Key>, vectors: seq<Vector>, error: string, now: nat)
      returns (changed: bool)
      requires |keys| == |vectors| && Valid()
      modifies this`pending, this`inflight, this`initialRemaining, this`failures, this`storeQueryable, this`status, this`store
      ensures Valid()
      ensures !live ==> Abs() == old(Abs()) && store == old(store) && !changed
      ensures live && !IsCurrent(old(Abs()), work) ==>
                Abs() == Supersede(old(Abs()), work.path) && store == old(store) && !changed
      ensures live && IsCurrent(old(Abs()), work) ==>
                var (entries, ok) := InsertAll(RemoveNote(old(store).entries, work.path), keys, hash, vectors, storeDim);
                && store == old(store).(entries := entries) && changed == ok
                && (storeQueryable <==> old(storeQueryable) || (ok && reconciliationComplete))
                && Abs() == (if ok then CommitSuccess(old(Abs()), work.path)
                             else RuntimeState.RequeueFailure(old(Abs()), work, error, now))
    {
      hide UpdatePending, RuntimeState.FinishSuccess, RuntimeState.RequeueFailure, Supersede, InsertAll;
      changed := false;
      if !live {
        return;
      }
      var generation := StateGeneration(work.path);
      if generation != Some(work.generation) {
        LeaveInflight(work.path);
        return;
      }
      changed := RewriteRows(work, hash, keys, vectors, error, now);
    }

    method RewriteRows(work: Work, hash: string, keys: seq<Key>, vectors: seq<Vector>, error: string, now: nat)
      returns (ok: bool)
      requires |keys| == |vectors| && Valid()
      modifies this`pending, this`inflight, this`initialRemaining, this`failures, this`storeQueryable, this`status, this`store
      ensures Valid() && store == old(store).(entries := store.entries)
      ensures (store.entries, ok) == InsertAll(RemoveNote(old(store).entries, work.path), keys, hash, vectors, storeDim)
      ensures Abs() == (if ok then CommitSuccess(old(Abs()), work.path)
                        else RuntimeState.RequeueFailure(old(Abs()), work, error, now))
      ensures storeQueryable <==> old(storeQueryable) || (ok && reconciliationComplete)
    {
      hide UpdatePending, RuntimeState.FinishSuccess, RuntimeState.RequeueFailure, InsertAll;
      store := store.(entries := map k | k in store.entries && k.note != work.path :: store.entries[k]);
      assert store.entries == RemoveNote(old(store).entries, work.path);
      ok := InsertRows(keys, hash, vectors);
      assert Abs() == old(Abs());
      if ok {
        FinishSuccess(work.path);
        if reconciliationComplete && !storeQueryable {
          storeQueryable := true;
        }
      } else {
        RequeueFailure(work, error, now);
      }
    }

    /** Inserts rows until one is refused for its dimension. */
    method InsertRows(keys: seq<Key>, hash: string, vectors: seq<Vector>) returns (ok: bool)
      requires |keys| == |vectors|
      modifies this`store
      ensures store == old(store).(entries := store.entries)
      ensures (store.entries, ok) == InsertAll(old(store).entries, keys, hash, vectors, storeDim)
    {
      ghost var goal := InsertAll(store.entries, keys, hash, vectors, storeDim);
      ok := true;
      var i := 0;
      while i < |keys| && ok
        invariant 0 <= i <= |keys|
        invariant store == old(store).(entries := store.entries)
        invariant if ok then goal == InsertAll(store.entries, keys[i..], hash, vectors[i..], storeDim)
                  else goal == (store.entries, false)
        decreases |keys| - i, ok
      {
        assert keys[i..][0] == keys[i] && vectors[i..][0] == vectors[i];
        assert keys[i..][1..] == keys[i + 1..] && vectors[i..][1..] == vectors[i + 1..];
        if vectors[i].dim != storeDim {
          ok := false;
        } else {
          store := store.(entries := store.entries[keys[i] := Entry(hash, vectors[i])]);
          i := i + 1;
        }
      }
    }

    method FinalizeReconciliation(totalNotes: nat) returns (changed: bool)
      modifies this`reconciliationComplete, this`storeQueryable, this`store
      ensures !live || !ReadyToFinalize(old(Abs())) ==> Abs() == old(Abs()) && store == old(store) && !changed
      ensures live && ReadyToFinalize(old(Abs())) ==>
                && Abs() == Finalize(old(Abs()), totalNotes == 0 || store.entries != map[])
                && store == old(store).(firstPassComplete := true)
                && (changed <==> !old(store).firstPassComplete)
      ensures live && old(initialStarted && !reconciliationComplete && initialRemaining == {}) ==>
                && reconciliationComplete && store.firstPassComplete
                && (storeQueryable <==> old(storeQueryable) || totalNotes == 0 || store.entries != map[])
      ensures !(live && old(initialStarted && !reconciliationComplete && initialRemaining == {})) ==>
                reconciliationComplete == old(reconciliationComplete) && storeQueryable == old(storeQueryable)
    {
      changed := false;
      if live && initialStarted && !reconciliationComplete && initialRemaining == {} {
        reconciliationComplete := true;
        changed := !store.firstPassComplete;
        store := store.(firstPassComplete := true);
        if !storeQueryable && (totalNotes == 0 || store.entries != map[]) {
          storeQueryable := true;
        }
      }
    }

    method RefreshStatus(paths: set<Path>) returns (ghost failure: Option<string>)
      modifies this`status
      ensures PicksFailure(old(Abs()), failure)
      ensures Abs() == old(Abs()).(status := RefreshedStatus(
                old(Abs()), |paths|, |set p | p in paths && HasNote(store.entries, p)|, failure))
      ensures status.indexedNotes ==
                |set p | p in paths && (ChunkKey(p, 0) in store.entries || SummaryKey(p) in store.entries)|
      ensures persistenceError.Some? ==> status.lastError == persistenceError
      ensures persistenceError.None? ==>
                if status.lastError.Some? then status.lastError.value in failures.Values else failures == map[]
    {
      var picked: Option<string> := None;
      if failures != map[] {
        assert failures.Keys != {};
        var p :| p in failures;
        picked := Some(failures[p]);
      }
      failure := picked;
      var distinct := |pending.Keys + inflight.Keys|;
      var lastError := if persistenceError.Some? then persistenceError else picked;
      var phase := if lastError.Some? then Degraded
                   else if !reconciliationComplete || distinct > 0 then Warming
                   else Ready;
      var indexed := set p | p in paths && HasNote(store.entries, p);
      assert indexed == set p | p in paths && (ChunkKey(p, 0) in store.entries || SummaryKey(p) in store.entries);
      status := Status(phase, storeQueryable && attached, |indexed|, |paths|, distinct, lastError);
    }
  }

  lemma EnqueueNone(st: RState, now: nat)
    ensures EnqueueAll(st, [], now) == st
  {
  }

  lemma SpawnedStatus(st: RState, paths: set<Path>)
    requires st.pending.Keys + st.inflight.Keys == paths && st.status == Status(Warming, false, 0, |paths|, 0, None)
    ensures UpdatePending(st) == st.(status := Status(Warming, false, 0, |paths|, |paths|, None))
  {
  }

  lemma {:induction false} EnqueueAllSnoc(st: RState, order: seq<Path>, p: Path, now: nat)
    ensures EnqueueAll(st, order + [p], now) == Enqueue(EnqueueAll(st, order, now), p, Upsert, now)
    decreases |order|
  {
    if |order| == 0 {
      assert order + [p] == [p];
    } else {
      assert (order + [p])[1..] == order[1..] + [p];
      EnqueueAllSnoc(Enqueue(st, order[0], Upsert, now), order[1..], p, now);
    }
  }

  // ----- taking a batch -----

  lemma NothingTaken(pending: map<Path, Work>, inflight: map<Path, nat>)
    ensures Without(pending, Paths([])) == pending
    ensures inflight + InflightOf([]) == inflight
  {
  }

  lemma NotYetTaken(batch: seq<Work>, path: Path)
    requires forall j :: 0 <= j < |batch| ==> batch[j].path != path
    ensures path !in Paths(batch)
  {
  }

  lemma PathsSnoc(batch: seq<Work>, work: Work)
    ensures Paths(batch + [work]) == Paths(batch) + {work.path}
  {
    forall p | p in Paths(batch) ensures p in Paths(batch + [work]) {
      var i :| 0 <= i < |batch| && batch[i].path == p;
      assert (batch + [work])[i].path == p;
    }
    assert (batch + [work])[|batch|].path == work.path;
  }

  lemma InflightSnoc(batch: seq<Work>, work: Work)
    requires DistinctPaths(batch) && work.path !in Paths(batch)
    ensures DistinctPaths(batch + [work])
    ensures InflightOf(batch + [work]) == InflightOf(batch)[work.path := work.generation]
  {
    var longer := batch + [work];
    assert forall i :: 0 <= i < |batch| ==> batch[i].path in Paths(batch);
    PathsSnoc(batch, work);
    GenerationInAt(longer, |batch|);
    forall p | p in Paths(batch) ensures GenerationIn(longer, p) == GenerationIn(batch, p) {
      var i :| 0 <= i < |batch| && batch[i].path == p;
      GenerationInAt(batch, i);
      GenerationInAt(longer, i);
    }
  }

  lemma DueCount(st: RState, now: nat, due: set<(Kind, Path)>)
    requires due == set p | p in st.pending && st.pending[p].notBefore <= now :: (st.pending[p].kind, p)
    ensures |due| == |DuePaths(st, now)|
  {
    SameSize(DuePaths(st, now), due, st.pending);
  }

  lemma {:induction false} SameSize(paths: set<Path>, pairs: set<(Kind, Path)>, pending: map<Path, Work>)
    requires paths <= pending.Keys && pairs == set p | p in paths :: (pending[p].kind, p)
    ensures |pairs| == |paths|
    decreases |paths|
  {
    if paths != {} {
      var p :| p in paths;
      var pair := (pending[p].kind, p);
      assert pairs - {pair} == set q | q in paths - {p} :: (pending[q].kind, q);
      SameSize(paths - {p}, pairs - {pair}, pending);
    } else {
      assert pairs == {};
    }
  }

  /** The due items, each once, removals before upserts and by path within a kind. */
  ghost predicate ListsDue(st: RState, now: nat, due: seq<(Kind, Path)>) {
    && SortedBy(due, WorkLe)
    && (forall x :: x in due <==> x.1 in DuePaths(st, now) && st.pending[x.1].kind == x.0)
    && (forall i, j :: 0 <= i < j < |due| ==> due[i] != due[j])
    && |due| == |DuePaths(st, now)|
  }

  lemma ListsDueFacts(st: RState, now: nat, due: seq<(Kind, Path)>)
    requires ListsDue(st, now, due)
    ensures forall i :: 0 <= i < |due| ==> due[i].1 in st.pending
    ensures forall i, j :: 0 <= i < j < |due| ==> due[i].1 != due[j].1
  {
    forall i | 0 <= i < |due| ensures due[i].1 in st.pending && st.pending[due[i].1].kind == due[i].0 {
      assert due[i] in due;
    }
  }

  lemma TakenIsBatch(st: RState, now: nat, due: seq<(Kind, Path)>, batch: seq<Work>)
    requires ListsDue(st, now, due)
    requires forall p :: p in st.pending ==> st.pending[p].path == p
    requires |batch| == (if |due| < RECONCILE_BATCH_SIZE then |due| else RECONCILE_BATCH_SIZE)
    requires forall j :: 0 <= j < |batch| ==> due[j].1 in st.pending && batch[j] == st.pending[due[j].1]
    ensures IsBatch(st, now, batch)
  {
    forall i | 0 <= i < |batch| ensures Order(batch[i]) == due[i] && batch[i].path in DuePaths(st, now) {
      assert due[i] in due;
    }
    ListsDueFacts(st, now, due);
    forall i, p | 0 <= i < |batch| && p in DuePaths(st, now) && p !in Paths(batch)
      ensures WorkLe(Order(batch[i]), (st.pending[p].kind, p))
    {
      assert (st.pending[p].kind, p) in due;
      var j :| 0 <= j < |due| && due[j] == (st.pending[p].kind, p);
      assert forall k :: 0 <= k < |batch| ==> batch[k].path in Paths(batch);
      assert j >= |batch|;
      assert WorkLe(due[i], due[j]);
    }
  }
}
