/** Runs in which a quiet note does not agree with the index: the exceptions are real. */
module RuntimeWitness {
  import opened Common
  import opened EmbeddingStore
  import opened RuntimeState
  import opened RuntimeWorld
  import opened RuntimeInvariant
  import opened RuntimeBatchProofs
  import opened RuntimeSteps
  import opened RuntimeRuns
  import opened RuntimeEffects
  import opened RuntimeGuarantees

  // ----- chains of steps -----

  ghost predicate Steps(prm: Params, w: World, steps: seq<Step>, w': World)
    decreases |steps|
  {
    if |steps| == 0 then w' == w else Enabled(w, steps[0]) && Steps(prm, Apply(prm, w, steps[0]), steps[1..], w')
  }

  lemma OneStep(prm: Params, w: World, step: Step)
    requires Enabled(w, step)
    ensures Steps(prm, w, [step], Apply(prm, w, step))
  {
    hide Enabled, Apply;
    assert Steps(prm, Apply(prm, w, step), [step][1..], Apply(prm, w, step));
  }

  lemma {:induction false} StepsThen(prm: Params, w: World, a: seq<Step>, w1: World, b: seq<Step>, w2: World)
    requires Steps(prm, w, a, w1) && Steps(prm, w1, b, w2)
    ensures Steps(prm, w, a + b, w2)
    decreases |a|
  {
    hide Enabled, Apply;
    if |a| == 0 {
      assert a + b == b;
    } else {
      assert (a + b)[1..] == a[1..] + b;
      StepsThen(prm, Apply(prm, w, a[0]), a[1..], w1, b, w2);
    }
  }

  lemma Then(prm: Params, w: World, a: seq<Step>, w1: World, step: Step, w2: World)
    requires Steps(prm, w, a, w1) && Enabled(w1, step) && w2 == Apply(prm, w1, step)
    ensures Steps(prm, w, a + [step], w2)
  {
    hide Enabled, Apply;
    OneStep(prm, w1, step);
    hide Steps;
    StepsThen(prm, w, a, w1, [step], w2);
  }

  lemma {:induction false} StepsKeepInv(prm: Params, w: World, steps: seq<Step>, w': World)
    requires Inv(prm, w) && Steps(prm, w, steps, w')
    ensures Inv(prm, w')
    decreases |steps|
  {
    hide Inv, Enabled, Apply;
    if |steps| > 0 {
      Keeps(prm, w, steps[0]);
      StepsKeepInv(prm, Apply(prm, w, steps[0]), steps[1..], w');
    }
  }

  /** A chain of steps from an initial state is a run. */
  lemma {:induction false} ChainStates(prm: Params, w: World, steps: seq<Step>, w': World) returns (states: seq<World>)
    requires Steps(prm, w, steps, w')
    ensures |states| == |steps| + 1 && states[0] == w && states[|steps|] == w'
    ensures forall k :: 0 <= k < |steps| ==> Enabled(states[k], steps[k]) && states[k + 1] == Apply(prm, states[k], steps[k])
    decreases |steps|
  {
    hide Enabled, Apply;
    if |steps| == 0 {
      states := [w];
    } else {
      var rest := ChainStates(prm, Apply(prm, w, steps[0]), steps[1..], w');
      states := [w] + rest;
      forall k | 0 <= k < |steps| ensures Enabled(states[k], steps[k]) && states[k + 1] == Apply(prm, states[k], steps[k]) {
        if k > 0 {
          assert Enabled(rest[k - 1], steps[1..][k - 1]) && rest[k - 1 + 1] == Apply(prm, rest[k - 1], steps[1..][k - 1]);
        }
      }
    }
  }

  lemma ChainIsRun(prm: Params, w: World, steps: seq<Step>, w': World) returns (states: seq<World>)
    requires Init(prm, w) && Steps(prm, w, steps, w')
    ensures Run(prm, states, steps) && states[|steps|] == w'
  {
    hide Init, Steps, Enabled, Apply;
    states := ChainStates(prm, w, steps, w');
  }

  // ----- starting up -----

  /** A runtime spawned over an empty vault, with no cache on disk. */
  const BLANK := World(
    RState(0, map[], map[], {}, false, false, map[], None, false, false, Status(Warming, false, 0, 0, 0, None)),
    Store(map[], false), None, true, false, Loading, map[], map[], {}, map[], map[], {}, {}, false, false, map[], map[])

  lemma BlankIsInit(prm: Params)
    ensures Init(prm, BLANK)
  {
    assert (map p | p in BLANK.st.pending :: BLANK.st.pending[p].generation) == map[];
    assert (map p | p in BLANK.st.pending :: Upsert) == map[];
  }

  /** Nothing pending, in flight or failed, and the coordinator is about to take a batch. */
  predicate Idle(w: World) {
    w.pc.Taking? && w.live && w.st.attached && w.st.pending == map[] && w.st.inflight == map[] && w.st.failures == map[]
  }

  predicate SameQueue(st: RState, st': RState) {
    && st'.pending == st.pending && st'.inflight == st.inflight && st'.failures == st.failures
    && st'.attached == st.attached && st'.nextGeneration == st.nextGeneration
  }

  /** What finalizing, reporting and deciding not to persist leave alone. */
  predicate OnlyReported(w: World, w': World) {
    && w' == w.(st := w'.st, store := w'.store, dirty := w'.dirty, pc := w'.pc)
    && SameQueue(w.st, w'.st) && w'.store.entries == w.store.entries
  }

  lemma FinalizeRecord(w: World)
    ensures var w' := DoFinalize(w); w' == w.(st := w'.st, store := w'.store, dirty := w'.dirty, pc := Refreshing)
  {
    hide Finalize, ReadyToFinalize, MayServe;
    if w.live && ReadyToFinalize(w.st) {
      assert DoFinalize(w) == w.(
        st := Finalize(w.st, MayServe(w)), dirty := w.dirty || !w.store.firstPassComplete,
        store := w.store.(firstPassComplete := true), pc := Refreshing);
    } else {
      assert DoFinalize(w) == w.(pc := Refreshing);
    }
  }

  lemma FootingTells(w: World, w': World)
    requires Untroubled(w, w')
    ensures SameQueue(w.st, w'.st) && w'.store.entries == w.store.entries
  {
    assert FootingOf(w') == FootingOf(w);
  }

  lemma FinalizeStep(prm: Params, w: World) returns (w': World)
    requires w.pc.Finalizing?
    ensures Enabled(w, FinalizePass) && w' == Apply(prm, w, FinalizePass)
    ensures w'.pc.Refreshing? && OnlyReported(w, w')
  {
    w' := DoFinalize(w);
    FinalizeRecord(w);
    FinalizeMoves(w);
    hide DoFinalize, Untroubled, SameQueue;
    FootingTells(w, w');
    assert Apply(prm, w, FinalizePass) == w';
  }

  lemma RefreshStep(prm: Params, w: World) returns (w': World)
    requires w.pc.Refreshing? && w.st.failures == map[]
    ensures Enabled(w, Refresh(0, 0, None)) && w' == Apply(prm, w, Refresh(0, 0, None))
    ensures w'.pc.MayPersist? && OnlyReported(w, w')
  {
    hide RefreshedStatus;
    w' := Apply(prm, w, Refresh(0, 0, None));
  }

  lemma LoopSteps(prm: Params, w: World)
    requires w.live
    ensures w.pc.MayPersist? ==> Enabled(w, SkipPersist) && Apply(prm, w, SkipPersist) == w.(pc := LoopTop)
    ensures w.pc.LoopTop? ==> Enabled(w, CheckLive) && Apply(prm, w, CheckLive) == w.(pc := Taking)
  {
  }

  /** From the end of a batch round to the next taking, without persisting. */
  lemma ComesRound(prm: Params, w: World) returns (steps: seq<Step>, w': World)
    requires w.pc.Finalizing? && w.live && w.st.failures == map[]
    ensures Steps(prm, w, steps, w') && w'.pc.Taking? && OnlyReported(w, w')
  {
    hide Steps, Enabled, Apply;
    var w1 := FinalizeStep(prm, w);
    OneStep(prm, w, FinalizePass);
    var w2 := RefreshStep(prm, w1);
    Then(prm, w, [FinalizePass], w1, Refresh(0, 0, None), w2);
    LoopSteps(prm, w2);
    var w3 := w2.(pc := LoopTop);
    Then(prm, w, [FinalizePass] + [Refresh(0, 0, None)], w2, SkipPersist, w3);
    LoopSteps(prm, w3);
    w' := w3.(pc := Taking);
    steps := [FinalizePass] + [Refresh(0, 0, None)] + [SkipPersist] + [CheckLive];
    Then(prm, w, [FinalizePass] + [Refresh(0, 0, None)] + [SkipPersist], w3, CheckLive, w');
  }

  lemma LoadSteps(prm: Params)
    ensures Enabled(BLANK, LoaderSucceeds) && Apply(prm, BLANK, LoaderSucceeds) == BLANK.(pc := Loaded({}))
    ensures var w := BLANK.(pc := Loaded({}));
            Enabled(w, LoadCache(false)) && Apply(prm, w, LoadCache(false)) == BLANK.(pc := Attaching({}))
  {
    assert BLANK.metas.Keys == {};
    assert RetainPaths(map[], {}) == map[];
  }

  lemma AttachStep(prm: Params) returns (w': World)
    ensures var w := BLANK.(pc := Attaching({}));
            Enabled(w, AttachStore([], 0)) && w' == Apply(prm, w, AttachStore([], 0))
    ensures w' == BLANK.(st := w'.st, latest := w'.latest, intent := w'.intent, pc := Finalizing)
    ensures w'.st.pending == map[] && w'.st.inflight == map[] && w'.st.failures == map[] && w'.st.attached
  {
    var w := BLANK.(pc := Attaching({}));
    AttachQueues(w.st, {}, false, [], 0);
    hide Attach, AttachedLatest, AttachedIntent;
    w' := Apply(prm, w, AttachStore([], 0));
    assert w'.st == Attach(w.st, {}, false, [], 0);
    assert w'.st.pending.Keys == {};
  }

  lemma StartsUp(prm: Params) returns (steps: seq<Step>, w: World)
    ensures Steps(prm, BLANK, steps, w) && Idle(w) && w.unsubmitted == {} && w.origin == map[]
  {
    hide Steps, Enabled, Apply;
    LoadSteps(prm);
    OneStep(prm, BLANK, LoaderSucceeds);
    var w1 := BLANK.(pc := Loaded({}));
    var w2 := BLANK.(pc := Attaching({}));
    Then(prm, BLANK, [LoaderSucceeds], w1, LoadCache(false), w2);
    var w3 := AttachStep(prm);
    var start := [LoaderSucceeds] + [LoadCache(false)] + [AttachStore([], 0)];
    Then(prm, BLANK, [LoaderSucceeds] + [LoadCache(false)], w2, AttachStore([], 0), w3);
    var round: seq<Step>;
    round, w := ComesRound(prm, w3);
    StepsThen(prm, BLANK, start, w3, round, w);
    steps := start + round;
  }

  // ----- producers -----

  lemma EditSteps(prm: Params, w: World, p: Path, body: string, headings: seq<string>)
    ensures Enabled(w, EditFile(p, Some(body))) && Enabled(w, EditIndex(p, Some(headings)))
    ensures Apply(prm, w, EditFile(p, Some(body))) == w.(files := w.files[p := body], unsubmitted := w.unsubmitted + {p})
    ensures Apply(prm, w, EditIndex(p, Some(headings))) ==
            w.(metas := w.metas[p := headings], unsubmitted := w.unsubmitted + {p})
  {
  }

  lemma SubmitStep(prm: Params, w: World, p: Path, kind: Kind) returns (w': World)
    ensures Enabled(w, SubmitIntent(p, kind, 0)) && w' == Apply(prm, w, SubmitIntent(p, kind, 0))
    ensures w' == w.(st := w'.st, unsubmitted := w.unsubmitted - {p}, latest := w'.latest, intent := w.intent[p := kind])
    ensures w'.st.pending == w.st.pending[p := Work(p, w.st.nextGeneration + 1, kind, 0, 0)]
    ensures w'.st.inflight == w.st.inflight && w'.st.failures == w.st.failures && w'.st.attached == w.st.attached
  {
    hide PendingStatus;
    w' := Apply(prm, w, SubmitIntent(p, kind, 0));
  }

  /** A note is written and indexed, its upsert submitted. */
  lemma CreatesNote(prm: Params, w: World, p: Path, body: string, headings: seq<string>) returns (steps: seq<Step>, w': World)
    ensures Steps(prm, w, steps, w')
    ensures w' == w.(st := w'.st, files := w.files[p := body], metas := w.metas[p := headings],
                     unsubmitted := w.unsubmitted - {p}, latest := w'.latest, intent := w.intent[p := Upsert])
    ensures w'.st.pending == w.st.pending[p := Work(p, w.st.nextGeneration + 1, Upsert, 0, 0)]
    ensures w'.st.inflight == w.st.inflight && w'.st.failures == w.st.failures && w'.st.attached == w.st.attached
  {
    hide Steps, Enabled, Apply;
    EditSteps(prm, w, p, body, headings);
    OneStep(prm, w, EditFile(p, Some(body)));
    var w1 := w.(files := w.files[p := body], unsubmitted := w.unsubmitted + {p});
    EditSteps(prm, w1, p, body, headings);
    var w2 := w1.(metas := w.metas[p := headings], unsubmitted := w1.unsubmitted + {p});
    Then(prm, w, [EditFile(p, Some(body))], w1, EditIndex(p, Some(headings)), w2);
    w' := SubmitStep(prm, w2, p, Upsert);
    steps := [EditFile(p, Some(body))] + [EditIndex(p, Some(headings))] + [SubmitIntent(p, Upsert, 0)];
    Then(prm, w, [EditFile(p, Some(body))] + [EditIndex(p, Some(headings))], w2, SubmitIntent(p, Upsert, 0), w');
    assert w2.unsubmitted - {p} == w.unsubmitted - {p};
  }

  // ----- taking and reading one item -----

  /** Only one item is queued, and it is due. */
  predicate OneDue(st: RState, work: Work, now: nat) {
    st.pending == map[work.path := work] && st.inflight == map[] && work.notBefore <= now
  }

  lemma OneIsBatch(st: RState, work: Work, now: nat)
    requires OneDue(st, work, now)
    ensures IsBatch(st, now, [work])
  {
    assert DuePaths(st, now) == {work.path};
    assert [work][0].path in Paths([work]);
  }

  lemma TakesOne(st: RState, work: Work, now: nat)
    requires OneDue(st, work, now)
    ensures DistinctPaths([work])
    ensures var st' := TakeBatch(st, [work]);
            && st'.pending == map[] && st'.inflight == map[work.path := work.generation]
            && st'.attached == st.attached && st'.failures == st.failures
  {
    InflightOfBatch([work]);
    assert Paths([work]) == {work.path} by {
      assert [work][0].path in Paths([work]);
    }
    assert TakeBatch(st, [work]).pending == map[];
    assert TakeBatch(st, [work]).inflight == map[work.path := work.generation];
  }

  /** The item has been taken and read, and is about to be settled. */
  ghost predicate HasBeenRead(prm: Params, w: World, w': World, work: Work) {
    && w' == w.(st := w'.st, pc := Settling(Batch([work], [StageRead(prm, w, work, w.metas, "")]), 0))
    && w'.st.pending == map[] && w'.st.inflight == map[work.path := work.generation]
    && w'.st.attached == w.st.attached && w'.st.failures == w.st.failures
  }

  lemma TakeStep(prm: Params, w: World, work: Work, now: nat)
    requires w.pc.Taking? && OneDue(w.st, work, now)
    ensures Enabled(w, Take([work], now))
    ensures Apply(prm, w, Take([work], now)) == w.(st := TakeBatch(w.st, [work]), pc := Snapshotting(Batch([work], [Taken])))
  {
    OneIsBatch(w.st, work, now);
    TakesOne(w.st, work, now);
    hide IsBatch, TakeBatch;
    assert seq(|[work]|, i => Taken) == [Taken];
  }

  lemma MetadataStep(prm: Params, w: World)
    requires w.pc.Snapshotting?
    ensures Enabled(w, ReadMetadata) && Apply(prm, w, ReadMetadata) == w.(pc := Reading(w.pc.b, 0, w.metas))
  {
  }

  lemma ReadSteps(prm: Params, w: World, work: Work, snap: map<Path, seq<string>>)
    requires w.pc == Reading(Batch([work], [Taken]), 0, snap)
    ensures Enabled(w, ReadFile(""))
    ensures Apply(prm, w, ReadFile("")) ==
            w.(pc := Reading(Batch([work], [StageRead(prm, w, work, snap, "")]), 1, snap))
  {
    hide StageRead;
    assert [Taken][0 := StageRead(prm, w, work, snap, "")] == [StageRead(prm, w, work, snap, "")];
  }

  lemma ReadEnds(prm: Params, w: World, work: Work, stage: Stage, snap: map<Path, seq<string>>)
    requires w.pc == Reading(Batch([work], [stage]), 1, snap)
    ensures Enabled(w, ReadFile(""))
    ensures Apply(prm, w, ReadFile("")) == w.(pc := Settling(Batch([work], [stage]), 0))
  {
  }

  lemma PreparesOne(prm: Params, w: World, work: Work, now: nat) returns (steps: seq<Step>, w': World)
    requires w.pc.Taking? && OneDue(w.st, work, now)
    ensures Steps(prm, w, steps, w') && HasBeenRead(prm, w, w', work)
  {
    TakesOne(w.st, work, now);
    hide OneDue, TakeBatch, Enabled, Apply, Steps, StageRead;
    TakeStep(prm, w, work, now);
    var w1 := w.(st := TakeBatch(w.st, [work]), pc := Snapshotting(Batch([work], [Taken])));
    OneStep(prm, w, Take([work], now));
    MetadataStep(prm, w1);
    var w2 := w1.(pc := Reading(w1.pc.b, 0, w1.metas));
    Then(prm, w, [Take([work], now)], w1, ReadMetadata, w2);
    ReadSteps(prm, w2, work, w1.metas);
    var stage := StageRead(prm, w2, work, w1.metas, "");
    var w3 := w2.(pc := Reading(Batch([work], [stage]), 1, w1.metas));
    Then(prm, w, [Take([work], now)] + [ReadMetadata], w2, ReadFile(""), w3);
    ReadEnds(prm, w3, work, stage, w1.metas);
    w' := w3.(pc := Settling(Batch([work], [stage]), 0));
    steps := [Take([work], now)] + [ReadMetadata] + [ReadFile("")] + [ReadFile("")];
    Then(prm, w, [Take([work], now)] + [ReadMetadata] + [ReadFile("")], w3, ReadFile(""), w');
    SameStage(prm, w, w2, work);
  }

  lemma SameStage(prm: Params, w: World, w2: World, work: Work)
    requires w2.files == w.files
    ensures StageRead(prm, w2, work, w.metas, "") == StageRead(prm, w, work, w.metas, "")
  {
  }

  // ----- a removal that comes too late -----

  lemma RemovesOne(prm: Params, w: World, work: Work, now: nat) returns (w': World)
    requires w.pc == Settling(Batch([work], [ToRemove]), 0) && w.live
    requires w.st.pending == map[] && w.st.inflight == map[work.path := work.generation]
    ensures Steps(prm, w, [SettleNext(now)], w')
    ensures w'.st.pending == map[] && w'.st.inflight == map[] && w'.st.attached == w.st.attached
    ensures EntriesOf(w'.store.entries, work.path) == map[]
    ensures w'.metas == w.metas && w'.files == w.files && w'.unsubmitted == w.unsubmitted && w'.intent == w.intent
  {
    assert [ToRemove][0 := Done] == [Done];
    OneStep(prm, w, SettleNext(now));
    hide Steps;
    w' := Apply(prm, w, SettleNext(now));
    assert w' == CommitRemove(w, work).(pc := Settling(Batch([work], [Done]), 1));
    RemoveNoteOwnership(w.store.entries, work.path);
    assert w'.st.inflight == map[];
  }

  /**
   * A removal that is submitted for a note that is indexed and has chunks: a few steps later everything is quiet and
   * the note does not agree with the index, although no edit is outstanding.
   */
  lemma LateRemovalDisagrees(prm: Params, w: World, work: Work, now: nat) returns (steps: seq<Step>, w': World)
    requires w.pc.Taking? && w.live && w.st.attached && OneDue(w.st, work, now) && work.kind.Remove?
    requires work.path !in w.unsubmitted && work.path in w.metas && work.path in w.files
    requires prm.pieces(w.files[work.path]) != []
    ensures Steps(prm, w, steps, w') && w'.st.attached && Quiet(w', work.path)
    ensures w'.st.pending == map[] && w'.st.inflight == map[] && w'.unsubmitted == w.unsubmitted
    ensures !AgreesWithIndex(prm, w', work.path)
  {
    hide Steps, OneDue, Fresh;
    var a, w1 := PreparesOne(prm, w, work, now);
    w' := RemovesOne(prm, w1, work, now);
    steps := a + [SettleNext(now)];
    StepsThen(prm, w, a, w1, [SettleNext(now)], w');
    forall headings ensures Fresh(prm, work.path, headings, w'.files[work.path]) != map[] {
      FreshIsComplete(prm, work.path, headings, w'.files[work.path]);
    }
  }

  /**
   * Such a state is reached from spawning: a note is created, its upsert submitted, and a removal that was under way
   * for the same path is submitted last.
   */
  lemma LateRemovalIsReached(prm: Params, p: Path, headings: seq<string>, body: string)
    returns (states: seq<World>, steps: seq<Step>)
    requires prm.pieces(body) != []
    ensures Run(prm, states, steps)
    ensures var w := states[|steps|];
            && w.st.attached && w.st.pending == map[] && w.st.inflight == map[] && w.unsubmitted == {}
            && !AgreesWithIndex(prm, w, p)
  {
    hide Steps, Init, AgreesWithIndex, Enabled, Apply;
    var a, w1 := StartsUp(prm);
    var b, w2 := CreatesNote(prm, w1, p, body, headings);
    StepsThen(prm, BLANK, a, w1, b, w2);
    var w3 := SubmitStep(prm, w2, p, Remove);
    Then(prm, BLANK, a + b, w2, SubmitIntent(p, Remove, 0), w3);
    var c, w4 := LateRemovalDisagrees(prm, w3, Work(p, w2.st.nextGeneration + 1, Remove, 0, 0), 0);
    StepsThen(prm, BLANK, a + b + [SubmitIntent(p, Remove, 0)], w3, c, w4);
    steps := a + b + [SubmitIntent(p, Remove, 0)] + c;
    BlankIsInit(prm);
    states := ChainIsRun(prm, BLANK, steps, w4);
  }

  // ----- a summary that is left behind -----

  /**
   * A current upsert whose body is the one stored is marked done without touching the store, whatever headings it
   * was read with: the rows then equal the recomputation under these headings exactly when the summary text does.
   */
  lemma StaleSummaryStays(prm: Params, w: World, now: nat)
    requires Inv(prm, w) && w.pc.Settling? && WellShaped(w.pc.b) && w.pc.i < |w.pc.b.works|
    requires w.pc.b.stages[w.pc.i].Prepared? && IsCurrent(w.st, w.pc.b.works[w.pc.i])
    requires var p := w.pc.b.works[w.pc.i].path; p in w.origin && w.origin[p].body == w.pc.b.stages[w.pc.i].body
    ensures var p, stage, w' := w.pc.b.works[w.pc.i].path, w.pc.b.stages[w.pc.i], DoSettle(prm, w, now);
            && w'.store == w.store && p !in w'.st.inflight && p !in w'.st.failures
            && (EntriesOf(w'.store.entries, p) == Fresh(prm, p, stage.headings, stage.body) <==>
                prm.summaryText(prm.title(p), w.origin[p].headings, stage.body) ==
                prm.summaryText(prm.title(p), stage.headings, stage.body))
  {
    var p, stage := w.pc.b.works[w.pc.i].path, w.pc.b.stages[w.pc.i];
    SettlePosition(prm, w);
    StoredRows(prm, w, p);
    ProbeMeansSameBody(prm, w.store, w.origin, p, stage.body);
    SettleCases(prm, w, now);
    hide Inv, Fresh, DoSettle, Unchanged, UpdatePending;
    FreshDependsOnSummary(prm, p, w.origin[p].headings, stage.headings, stage.body);
  }

  lemma StoredRows(prm: Params, w: World, p: Path)
    requires Inv(prm, w) && p in w.origin
    ensures ComputedFrom(prm, w.store.entries, w.origin)
    ensures EntriesOf(w.store.entries, p) == Fresh(prm, p, w.origin[p].headings, w.origin[p].body)
    ensures prm.pieces(w.origin[p].body) != []
  {
    assert EntriesOf(w.store.entries, p) == RowsFrom(prm, w.origin, p);
  }

  lemma ProbeTells(prm: Params, w: World, p: Path, body: string)
    requires Inv(prm, w)
    ensures Unchanged(prm, w.store, p, body) <==> p in w.origin && w.origin[p].body == body
  {
    assert ComputedFrom(prm, w.store.entries, w.origin);
    ProbeMeansSameBody(prm, w.store, w.origin, p, body);
  }

  lemma SettleStep(prm: Params, w: World)
    requires w.pc.Settling? && WellShaped(w.pc.b)
    ensures Enabled(w, SettleNext(0)) && Apply(prm, w, SettleNext(0)) == DoSettle(prm, w, 0)
  {
    hide DoSettle;
  }

  lemma SettlesAsChanged(prm: Params, w: World, work: Work, headings: seq<string>, body: string) returns (w': World)
    requires Inv(prm, w) && w.pc == Settling(Batch([work], [Prepared(headings, body)]), 0) && work.path !in w.origin
    ensures Enabled(w, SettleNext(0)) && Apply(prm, w, SettleNext(0)) == w'
    ensures w' == w.(pc := Settling(Batch([work], [Changed(headings, body)]), 1))
  {
    ProbeTells(prm, w, work.path, body);
    SettleStep(prm, w);
    SettleCases(prm, w, 0);
    hide Inv, Unchanged, DoSettle, Enabled, Apply;
    assert [Prepared(headings, body)][0 := Changed(headings, body)] == [Changed(headings, body)];
    w' := w.(pc := Settling(Batch([work], [Changed(headings, body)]), 1));
  }

  lemma EmbedsOne(prm: Params, w: World, work: Work, stage: Stage) returns (steps: seq<Step>, w': World)
    requires w.pc == Settling(Batch([work], [stage]), 1) && stage.Changed?
    ensures Steps(prm, w, steps, w')
    ensures var b := Batch([work], [stage]); w' == w.(pc := Committing(b, 0, 0, EmbedAll(prm, FlatTexts(prm, b, 0))))
  {
    hide Steps, EmbedAll, FlatTexts;
    var b := Batch([work], [stage]);
    assert b.stages[0].Changed?;
    var w1 := w.(pc := Embedding(b));
    assert Apply(prm, w, SettleNext(0)) == w1;
    OneStep(prm, w, SettleNext(0));
    w' := w.(pc := Committing(b, 0, 0, EmbedAll(prm, FlatTexts(prm, b, 0))));
    assert Apply(prm, w1, EmbedOk) == w';
    Then(prm, w, [SettleNext(0)], w1, EmbedOk, w');
    steps := [SettleNext(0)] + [EmbedOk];
  }

  /** What a commit leaves behind: the item done, its rows computed from what was read. */
  predicate HasCommitted(w: World, w': World, work: Work, headings: seq<string>, body: string) {
    && w' == w.(st := w'.st, store := w'.store, dirty := true, origin := w.origin[work.path := Origin(headings, body)],
                settledOnce := w'.settledOnce, pc := Finalizing)
    && w'.st.pending == map[] && w'.st.inflight == map[] && w'.st.attached == w.st.attached
    && w'.st.failures == Drop(w.st.failures, work.path)
  }

  /** The item that alone is in flight is current; finishing it empties queue and in-flight table. */
  lemma LastOneFinishes(st: RState, work: Work)
    requires st.pending == map[] && st.inflight == map[work.path := work.generation]
    ensures IsCurrent(st, work)
    ensures forall st' | st' == FinishSuccess(st, work.path) || st' == CommitSuccess(st, work.path) ::
              && st'.pending == map[] && st'.inflight == map[] && st'.attached == st.attached
              && st'.failures == Drop(st.failures, work.path)
  {
    assert Drop(st.inflight, work.path) == map[];
    hide PendingStatus;
  }

  lemma CommitStep(prm: Params, w: World)
    requires w.pc.Committing? && WellShaped(w.pc.b)
    ensures Enabled(w, CommitNext("", 0)) && Apply(prm, w, CommitNext("", 0)) == DoCommit(prm, w, "", 0)
  {
    hide DoCommit;
  }

  lemma CommitIs(prm: Params, w: World, next: nat)
    requires Inv(prm, w) && w.pc.Committing? && w.pc.i < |w.pc.b.works| && w.pc.b.stages[w.pc.i].Changed?
    requires next == w.pc.cursor + |prm.pieces(w.pc.b.stages[w.pc.i].body)| + 1
    ensures WellShaped(w.pc.b) && DoCommit(prm, w, "", 0) == Committed(prm, w, "", next)
  {
    CommitPosition(prm, w);
    hide Inv, DoCommit, Committed, VectorInv;
    CommitCases(prm, w, "", 0);
  }

  /** The state after the one item has been committed. */
  function CommittedOne(prm: Params, w: World, work: Work, headings: seq<string>, body: string, pc: Pc): World {
    w.(st := CommitSuccess(w.st, work.path),
       store := w.store.(entries := RemoveNote(w.store.entries, work.path) + Fresh(prm, work.path, headings, body)),
       dirty := true, origin := w.origin[work.path := Origin(headings, body)],
       settledOnce := w.settledOnce + {work.path}, pc := pc)
  }

  lemma CommittedIs(prm: Params, w: World, work: Work, headings: seq<string>, body: string, next: nat)
    requires w.pc.Committing? && w.pc.b == Batch([work], [Changed(headings, body)]) && w.pc.i == 0
    requires w.live && IsCurrent(w.st, work) && prm.modelDim == prm.storeDim
    ensures Committed(prm, w, "", next) ==
            CommittedOne(prm, w, work, headings, body, Committing(Batch([work], [Done]), 1, next, w.pc.vectors))
  {
    hide CommitSuccess, Supersede, Fresh, RemoveNote, IsCurrent;
    assert Set(w.pc.b, 0, Done) == Batch([work], [Done]);
  }

  lemma CommittedOneFacts(prm: Params, w: World, work: Work, headings: seq<string>, body: string, pc: Pc)
    requires w.st.pending == map[] && w.st.inflight == map[work.path := work.generation]
    ensures HasCommitted(w, CommittedOne(prm, w, work, headings, body, pc).(pc := Finalizing), work, headings, body)
  {
    LastOneFinishes(w.st, work);
    hide CommitSuccess, FinishSuccess, Fresh, RemoveNote, IsCurrent;
  }

  lemma CommitsItem(prm: Params, w: World, work: Work, headings: seq<string>, body: string) returns (w': World)
    requires Inv(prm, w) && w.pc.Committing? && w.pc.b == Batch([work], [Changed(headings, body)]) && w.pc.i == 0
    requires w.live && w.st.pending == map[] && w.st.inflight == map[work.path := work.generation]
    requires prm.modelDim == prm.storeDim
    ensures Enabled(w, CommitNext("", 0)) && Apply(prm, w, CommitNext("", 0)) == w'
    ensures w'.pc.Committing? && w'.pc.b == Batch([work], [Done]) && w'.pc.i == 1
    ensures HasCommitted(w, w'.(pc := Finalizing), work, headings, body)
  {
    var next := w.pc.cursor + |prm.pieces(body)| + 1;
    var done := Committing(Batch([work], [Done]), 1, next, w.pc.vectors);
    CommitStep(prm, w);
    hide Inv, Enabled, Apply, Committed, DoCommit, IsCurrent, CommittedOne, HasCommitted;
    CommitIs(prm, w, next);
    LastOneFinishes(w.st, work);
    CommittedIs(prm, w, work, headings, body, next);
    CommittedOneFacts(prm, w, work, headings, body, done);
    CommittedOnePc(prm, w, work, headings, body, done);
    w' := CommittedOne(prm, w, work, headings, body, done);
  }

  lemma CommittedOnePc(prm: Params, w: World, work: Work, headings: seq<string>, body: string, pc: Pc)
    ensures CommittedOne(prm, w, work, headings, body, pc).pc == pc
  {
    hide CommitSuccess, Fresh, RemoveNote;
  }

  lemma CommitsOne(prm: Params, w: World, work: Work, headings: seq<string>, body: string)
    returns (steps: seq<Step>, w': World)
    requires Inv(prm, w) && w.pc == Settling(Batch([work], [Prepared(headings, body)]), 0) && work.path !in w.origin
    requires w.live && w.st.pending == map[] && w.st.inflight == map[work.path := work.generation]
    requires prm.modelDim == prm.storeDim
    ensures Steps(prm, w, steps, w') && HasCommitted(w, w', work, headings, body)
  {
    hide Inv, Steps, Enabled, Apply, EmbedAll, FlatTexts;
    var w1 := SettlesAsChanged(prm, w, work, headings, body);
    OneStep(prm, w, SettleNext(0));
    var a, w2 := EmbedsOne(prm, w1, work, Changed(headings, body));
    StepsThen(prm, w, [SettleNext(0)], w1, a, w2);
    StepsKeepInv(prm, w, [SettleNext(0)] + a, w2);
    var w3 := CommitsItem(prm, w2, work, headings, body);
    Then(prm, w, [SettleNext(0)] + a, w2, CommitNext("", 0), w3);
    w' := w3.(pc := Finalizing);
    CommitEnds(prm, w3);
    Then(prm, w, [SettleNext(0)] + a + [CommitNext("", 0)], w3, CommitNext("", 0), w');
    steps := [SettleNext(0)] + a + [CommitNext("", 0)] + [CommitNext("", 0)];
  }

  lemma CommitEnds(prm: Params, w: World)
    requires w.pc.Committing? && |w.pc.b.works| == 1 == |w.pc.b.stages| && w.pc.i == 1
    ensures Enabled(w, CommitNext("", 0)) && Apply(prm, w, CommitNext("", 0)) == w.(pc := Finalizing)
  {
  }

  /** The last step of the second round: the body is the stored one, so nothing is written. */
  lemma MarksDone(prm: Params, w: World, work: Work, headings: seq<string>, body: string) returns (w': World)
    requires Inv(prm, w) && w.pc == Settling(Batch([work], [Prepared(headings, body)]), 0)
    requires work.path in w.origin && w.origin[work.path].body == body
    requires w.st.pending == map[] && w.st.inflight == map[work.path := work.generation]
    ensures Enabled(w, SettleNext(0)) && Apply(prm, w, SettleNext(0)) == w'
    ensures w' == w.(st := w'.st, settledOnce := w'.settledOnce, pc := w'.pc)
    ensures w'.st.pending == map[] && w'.st.inflight == map[] && w'.st.attached == w.st.attached
  {
    ProbeTells(prm, w, work.path, body);
    SettleStep(prm, w);
    SettleCases(prm, w, 0);
    hide Inv, Unchanged, DoSettle, Enabled, Apply, FinishSuccess, CommitSuccess, IsCurrent;
    LastOneFinishes(w.st, work);
    w' := MarkUnchanged(w, work).(pc := Settling(Set(w.pc.b, 0, Done), 1));
  }

  /** The first round of the scenario: the headings are those of the older body, the rows those of the newer one. */
  lemma CommitsOlderHeadings(
    prm: Params, p: Path, older: string, newer: string, oldHeadings: seq<string>)
    returns (steps: seq<Step>, w: World)
    requires prm.modelDim == prm.storeDim && prm.pieces(newer) != []
    ensures Steps(prm, BLANK, steps, w) && Idle(w) && w.unsubmitted == {p}
    ensures p in w.files && w.files[p] == newer && p in w.metas
    ensures p in w.origin && w.origin[p] == Origin(oldHeadings, newer)
  {
    hide Steps, Enabled, Apply, Inv, Init;
    var a, w1 := StartsUp(prm);
    var b, w2 := CreatesNote(prm, w1, p, older, oldHeadings);
    StepsThen(prm, BLANK, a, w1, b, w2);
    EditSteps(prm, w2, p, newer, oldHeadings);
    var w3 := w2.(files := w2.files[p := newer], unsubmitted := w2.unsubmitted + {p});
    Then(prm, BLANK, a + b, w2, EditFile(p, Some(newer)), w3);
    var work := Work(p, w1.st.nextGeneration + 1, Upsert, 0, 0);
    var c, w4 := PreparesOne(prm, w3, work, 0);
    StepsThen(prm, BLANK, a + b + [EditFile(p, Some(newer))], w3, c, w4);
    BlankIsInit(prm);
    InitInv(prm, BLANK);
    StepsKeepInv(prm, BLANK, a + b + [EditFile(p, Some(newer))] + c, w4);
    var d, w5 := CommitsOne(prm, w4, work, oldHeadings, newer);
    StepsThen(prm, BLANK, a + b + [EditFile(p, Some(newer))] + c, w4, d, w5);
    assert w5.st.failures == map[];
    var e: seq<Step>;
    e, w := ComesRound(prm, w5);
    StepsThen(prm, BLANK, a + b + [EditFile(p, Some(newer))] + c + d, w5, e, w);
    steps := a + b + [EditFile(p, Some(newer))] + c + d + e;
  }

  /**
   * A run from spawning to a quiet store that agrees with the index but holds an outdated summary: a note is edited
   * again while its first upsert is under way, so that its older headings are embedded with its newer body; the
   * upsert that follows the second indexing finds the body unchanged.
   */
  lemma StaleSummaryIsReached(
    prm: Params, p: Path, older: string, newer: string, oldHeadings: seq<string>, newHeadings: seq<string>)
    returns (states: seq<World>, steps: seq<Step>)
    requires prm.modelDim == prm.storeDim && prm.pieces(newer) != []
    requires prm.summaryText(prm.title(p), oldHeadings, newer) != prm.summaryText(prm.title(p), newHeadings, newer)
    ensures Run(prm, states, steps)
    ensures var w := states[|steps|];
            && w.st.attached && w.st.pending == map[] && w.st.inflight == map[] && w.unsubmitted == {}
            && AgreesWithIndex(prm, w, p) && !UpToDate(prm, w, p)
  {
    hide Steps, Enabled, Apply, Inv, Init, AgreesWithIndex, UpToDate;
    var a, w1 := CommitsOlderHeadings(prm, p, older, newer, oldHeadings);
    EditSteps(prm, w1, p, newer, newHeadings);
    var w2 := w1.(metas := w1.metas[p := newHeadings], unsubmitted := w1.unsubmitted + {p});
    Then(prm, BLANK, a, w1, EditIndex(p, Some(newHeadings)), w2);
    var w3 := SubmitStep(prm, w2, p, Upsert);
    Then(prm, BLANK, a + [EditIndex(p, Some(newHeadings))], w2, SubmitIntent(p, Upsert, 0), w3);
    var work := Work(p, w2.st.nextGeneration + 1, Upsert, 0, 0);
    var b, w4 := PreparesOne(prm, w3, work, 0);
    var front := a + [EditIndex(p, Some(newHeadings))] + [SubmitIntent(p, Upsert, 0)];
    StepsThen(prm, BLANK, front, w3, b, w4);
    BlankIsInit(prm);
    InitInv(prm, BLANK);
    StepsKeepInv(prm, BLANK, front + b, w4);
    var w5 := MarksDone(prm, w4, work, newHeadings, newer);
    Then(prm, BLANK, front + b, w4, SettleNext(0), w5);
    steps := front + b + [SettleNext(0)];
    StepsKeepInv(prm, BLANK, steps, w5);
    states := ChainIsRun(prm, BLANK, steps, w5);
    QuietAgreesWithIndex(prm, w5, p);
    QuietIsUpToDate(prm, w5, p);
  }
}
