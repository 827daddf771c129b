/** The coordinator is never stuck, and every batch ends after a bounded number of its steps. */
module RuntimeProgress {
  import opened Common
  import opened EmbeddingStore
  import opened RuntimeState
  import opened RuntimeWorld
  import opened RuntimeInvariant
  import opened RuntimeBatchProofs
  import opened RuntimeSteps
  import opened RuntimeRuns
  import opened RuntimeEffects
  import opened RuntimeTheorems
  import opened RuntimeDrain
  import opened RuntimeLaws

  // ----- lists of sets -----

  lemma {:induction false} Listing(paths: set<Path>) returns (order: seq<Path>)
    ensures forall i, j :: 0 <= i < j < |order| ==> order[i] != order[j]
    ensures forall p :: p in order <==> p in paths
    decreases |paths|
  {
    if paths == {} {
      order := [];
    } else {
      var p :| p in paths;
      var rest := Listing(paths - {p});
      order := [p] + rest;
    }
  }

  /** One of a non-empty set of works comes first. */
  lemma {:induction false} FirstOf(pending: map<Path, Work>, paths: set<Path>) returns (first: Path)
    requires paths != {} && paths <= pending.Keys && Filed(pending)
    ensures first in paths && forall p :: p in paths ==> Precedes(pending[first], pending[p])
    decreases |paths|
  {
    PathOrder();
    var p :| p in paths;
    if paths == {p} {
      first := p;
    } else {
      assert paths - {p} != {};
      var other := FirstOf(pending, paths - {p});
      first := if Precedes(pending[p], pending[other]) then p else other;
    }
  }

  /** Any set of pending paths has its first `n` works in order. */
  lemma {:induction false} InFirstOrder(pending: map<Path, Work>, paths: set<Path>, n: nat) returns (batch: seq<Work>)
    requires paths <= pending.Keys && Filed(pending)
    ensures |batch| <= n
    ensures forall i :: 0 <= i < |batch| ==> batch[i].path in paths && pending[batch[i].path] == batch[i]
    ensures forall i, j :: 0 <= i < j < |batch| ==> batch[i].path != batch[j].path && Precedes(batch[i], batch[j])
    ensures forall p :: p in paths && pending[p] !in batch ==>
                          |batch| == n && forall i :: 0 <= i < |batch| ==> Precedes(batch[i], pending[p])
    decreases n
  {
    if n == 0 || paths == {} {
      batch := [];
    } else {
      var first := FirstOf(pending, paths);
      var rest := InFirstOrder(pending, paths - {first}, n - 1);
      batch := [pending[first]] + rest;
    }
  }

  // ----- never stuck -----

  /** A step of the coordinator or of its loader, not of a producer. */
  predicate Own(step: Step) {
    !(step.EditFile? || step.EditIndex? || step.SubmitIntent? || step.ClearLive? || step.AbortWorker?)
  }

  lemma SomeBatch(st: RState, now: nat) returns (batch: seq<Work>)
    requires Filed(st.pending)
    ensures IsBatch(st, now, batch)
  {
    batch := InFirstOrder(st.pending, DuePaths(st, now), 32);
    FirstDueIsBatch(st, now, batch);
  }

  lemma SomeFailure(st: RState) returns (failure: Option<string>)
    ensures PicksFailure(st, failure)
  {
    if st.failures == map[] {
      failure := None;
    } else {
      assert st.failures.Keys != {};
      var p :| p in st.failures;
      failure := Some(st.failures[p]);
    }
  }

  /** The position of the coordinator in its batch, if it has one. */
  predicate Within(pc: Pc) {
    && (pc.Reading? || pc.Settling? || pc.Committing? || pc.Requeueing? ==> pc.i <= |pc.b.works|)
    && (pc.CommitFailing? ==> pc.i < |pc.b.works|)
  }

  lemma BatchShape(prm: Params, w: World)
    requires Inv(prm, w) && InBatch(w.pc)
    ensures WellShaped(w.pc.b) && Within(w.pc)
  {
    BatchFacts(prm, w);
    assert StagesInv(w.pc);
    hide Inv;
  }

  /** The step of the coordinator that each phase of a batch allows. */
  function NextOwn(pc: Pc): Step {
    match pc
    case Snapshotting(_) => ReadMetadata
    case Reading(_, _, _) => ReadFile("")
    case Settling(_, _) => SettleNext(0)
    case Embedding(_) => EmbedOk
    case Committing(_, _, _, _) => CommitNext("", 0)
    case CommitFailing(_, _, _, _, _) => RequeueFailedCommit(0)
    case _ => RequeueNext(0)
  }

  lemma EarlyMoves(w: World, step: Step)
    requires w.pc.Snapshotting? || w.pc.Reading? || w.pc.Settling? || w.pc.Embedding?
    requires WellShaped(w.pc.b) && step == NextOwn(w.pc)
    ensures Own(step) && Enabled(w, step)
  {
    hide IsBatch, IsAttachOrder, PicksFailure, WellShaped;
  }

  lemma LateMoves(w: World, step: Step)
    requires w.pc.Committing? || w.pc.CommitFailing? || w.pc.Requeueing?
    requires WellShaped(w.pc.b) && Within(w.pc) && step == NextOwn(w.pc)
    ensures Own(step) && Enabled(w, step)
  {
    hide IsBatch, IsAttachOrder, PicksFailure, WellShaped;
  }

  lemma BatchMoves(prm: Params, w: World) returns (step: Step)
    requires Inv(prm, w) && InBatch(w.pc)
    ensures Own(step) && Enabled(w, step)
  {
    BatchShape(prm, w);
    hide Inv, Enabled, Own, Within, WellShaped, NextOwn;
    step := NextOwn(w.pc);
    if w.pc.Committing? || w.pc.CommitFailing? || w.pc.Requeueing? {
      LateMoves(w, step);
    } else {
      EarlyMoves(w, step);
    }
  }

  lemma OtherwiseMoves(prm: Params, w: World) returns (step: Step)
    requires Inv(prm, w) && !InBatch(w.pc) && !w.pc.Stopped?
    ensures Own(step) && Enabled(w, step)
  {
    PendingIsFiled(prm, w);
    hide Inv, IsBatch, PicksFailure, Filed;
    match w.pc
    case Loading => step := LoaderSucceeds;
    case Loaded(_) => step := LoadCache(false);
    case Attaching(paths) =>
      var order := Listing(paths - w.st.pending.Keys);
      step := AttachStore(order, 0);
    case Finalizing => step := FinalizePass;
    case Refreshing =>
      var failure := SomeFailure(w.st);
      step := Refresh(0, 0, failure);
    case MayPersist => step := SkipPersist;
    case LoopTop => step := CheckLive;
    case Taking =>
      var batch := SomeBatch(w.st, 0);
      step := Take(batch, 0);
  }

  /** In every state of every run the coordinator has stopped or can move on by itself. */
  lemma NeverStuck(prm: Params, states: seq<World>, steps: seq<Step>, k: nat) returns (step: Step)
    requires Run(prm, states, steps) && k < |states| && !states[k].pc.Stopped?
    ensures Own(step) && Enabled(states[k], step)
  {
    RunInv(prm, states, steps, k);
    hide Run, Inv, Enabled, Own;
    if InBatch(states[k].pc) {
      step := BatchMoves(prm, states[k]);
    } else {
      step := OtherwiseMoves(prm, states[k]);
    }
  }

  // ----- a batch ends -----

  /** How many steps of the coordinator a batch can still take: at most five for each item, and a few. */
  function StepsLeft(pc: Pc): int
    requires InBatch(pc)
  {
    var n := |pc.b.works|;
    match pc
    case Snapshotting(_) => 5 * n + 7
    case Reading(_, i, _) => 4 * n + 6 + (n - i)
    case Settling(_, i) => 3 * n + 5 + (n - i)
    case Embedding(_) => 3 * n + 4
    case Committing(_, i, _, _) => n + 3 + 2 * (n - i)
    case CommitFailing(_, i, _, _, _) => n + 2 + 2 * (n - i)
    case Requeueing(_, i, _) => 1 + (n - i)
  }

  lemma StepsLeftIsPositive(prm: Params, w: World)
    requires Inv(prm, w) && InBatch(w.pc)
    ensures StepsLeft(w.pc) >= 1
  {
    BatchShape(prm, w);
    hide Inv;
  }

  /** The step goes from the batch to finalizing, or leaves fewer steps to go. */
  predicate GoesOn(pc: Pc, pc': Pc) {
    InBatch(pc) && if InBatch(pc') then |pc'.b.works| == |pc.b.works| && StepsLeft(pc') < StepsLeft(pc) else pc'.Finalizing?
  }

  lemma LaterItem(b: Batch, i: nat, stage: Stage, error: string, snap: map<Path, seq<string>>)
    requires WellShaped(b) && i < |b.works|
    ensures GoesOn(Requeueing(b, i, error), Requeueing(Set(b, i, stage), i + 1, error))
    ensures GoesOn(Requeueing(b, i, error), Requeueing(b, i + 1, error))
    ensures GoesOn(Reading(b, i, snap), Reading(Set(b, i, stage), i + 1, snap))
  {
  }

  lemma RequeuePc(w: World, now: nat, w': World)
    requires w.pc.Requeueing? && WellShaped(w.pc.b) && w' == DoRequeue(w, now)
    ensures w'.pc == if w.pc.i >= |w.pc.b.works| then Finalizing
                     else if w.pc.b.stages[w.pc.i].Done? then Requeueing(w.pc.b, w.pc.i + 1, w.pc.error)
                     else Requeueing(Set(w.pc.b, w.pc.i, Done), w.pc.i + 1, w.pc.error)
  {
    hide Requeue, Set;
    if w.pc.i >= |w.pc.b.works| {
      PcIs(w, Finalizing, w');
    } else if w.pc.b.stages[w.pc.i].Done? {
      PcIs(w, Requeueing(w.pc.b, w.pc.i + 1, w.pc.error), w');
    } else {
      var pc := Requeueing(Set(w.pc.b, w.pc.i, Done), w.pc.i + 1, w.pc.error);
      PcIs(Requeue(w, w.pc.b.works[w.pc.i], w.pc.error, now), pc, w');
    }
  }

  lemma RequeueGoesOn(w: World, now: nat, w': World)
    requires w.pc.Requeueing? && WellShaped(w.pc.b) && Within(w.pc) && w' == DoRequeue(w, now)
    ensures GoesOn(w.pc, w'.pc)
  {
    RequeuePc(w, now, w');
    hide DoRequeue, Set, StepsLeft, GoesOn;
    if w.pc.i >= |w.pc.b.works| {
      LeavesBatch(w.pc, Finalizing);
    } else {
      LaterItem(w.pc.b, w.pc.i, Done, w.pc.error, map[]);
    }
  }

  lemma LeavesBatch(pc: Pc, pc': Pc)
    requires InBatch(pc) && pc'.Finalizing?
    ensures GoesOn(pc, pc')
  {
  }

  lemma PcIs(w: World, pc: Pc, w': World)
    requires w' == w.(pc := pc)
    ensures w'.pc == pc
  {
  }

  lemma FailedGoesOn(w: World, now: nat, w': World)
    requires w.pc.CommitFailing? && WellShaped(w.pc.b) && w.pc.i < |w.pc.b.works| && w' == DoFailedCommit(w, now)
    ensures GoesOn(w.pc, w'.pc)
  {
    FailedCommitShape(w, now);
    hide DoFailedCommit, Requeue;
    var pc := Committing(Set(w.pc.b, w.pc.i, Done), w.pc.i + 1, w.pc.cursor, w.pc.vectors);
    PcIs(Requeue(w, w.pc.b.works[w.pc.i], w.pc.error, now), pc, w');
  }

  lemma ReadGoesOn(prm: Params, w: World, error: string, w': World)
    requires w.pc.Reading? && WellShaped(w.pc.b) && Within(w.pc) && w' == DoReadFile(prm, w, error)
    ensures GoesOn(w.pc, w'.pc)
  {
    hide StageRead, Set, StepsLeft, GoesOn;
    if w.pc.i >= |w.pc.b.works| {
      PcIs(w, Settling(w.pc.b, 0), w');
      AllRead(w.pc.b, w.pc.snap);
    } else {
      var stage := StageRead(prm, w, w.pc.b.works[w.pc.i], w.pc.snap, error);
      LaterItem(w.pc.b, w.pc.i, stage, error, w.pc.snap);
      PcIs(w, Reading(Set(w.pc.b, w.pc.i, stage), w.pc.i + 1, w.pc.snap), w');
    }
  }

  lemma AllRead(b: Batch, snap: map<Path, seq<string>>)
    ensures GoesOn(Reading(b, |b.works|, snap), Settling(b, 0))
  {
  }

  lemma SettleGoesOn(prm: Params, w: World, now: nat, w': World)
    requires w.pc.Settling? && WellShaped(w.pc.b) && Within(w.pc) && w' == DoSettle(prm, w, now)
    requires w.pc.i < |w.pc.b.works| ==> HasRead(w.pc.b.stages[w.pc.i])
    ensures GoesOn(w.pc, w'.pc)
  {
    var b, i := w.pc.b, w.pc.i;
    if i >= |b.works| {
      SettledGoesOn(prm, w, now, w');
    } else {
      SettleCases(prm, w, now);
      hide DoSettle, CommitRemove, Requeue, MarkUnchanged, Unchanged;
      var stage, done := b.stages[i], Settling(Set(b, i, Done), i + 1);
      if stage.ToRemove? {
        PcIs(CommitRemove(w, b.works[i]), done, w');
      } else if stage.Unreadable? {
        PcIs(Requeue(w, b.works[i], stage.error, now), done, w');
      } else if Unchanged(prm, w.store, b.works[i].path, stage.body) {
        PcIs(MarkUnchanged(w, b.works[i]), done, w');
      } else {
        PcIs(w, Settling(Set(b, i, Changed(stage.headings, stage.body)), i + 1), w');
      }
    }
  }

  lemma SettledGoesOn(prm: Params, w: World, now: nat, w': World)
    requires w.pc.Settling? && WellShaped(w.pc.b) && w.pc.i == |w.pc.b.works| && w' == DoSettle(prm, w, now)
    ensures GoesOn(w.pc, w'.pc)
  {
    hide CommitRemove, Requeue, MarkUnchanged, Unchanged;
    PcIs(w, if AnyChanged(w.pc.b) then Embedding(w.pc.b) else Finalizing, w');
  }

  lemma CommittedGoesOn(prm: Params, w: World, error: string, next: nat, w': World)
    requires w.pc.Committing? && WellShaped(w.pc.b) && w.pc.i < |w.pc.b.works| && w.pc.b.stages[w.pc.i].Changed?
    requires w' == Committed(prm, w, error, next)
    ensures GoesOn(w.pc, w'.pc)
  {
    hide Committed, GoesOn, StepsLeft, Set;
    CommittedPc(prm, w, error, next, w');
    CommitsOn(w.pc.b, w.pc.i, w.pc.cursor, next, w.pc.vectors, error);
  }

  lemma CommitsOn(b: Batch, i: nat, cursor: nat, next: nat, vectors: seq<Vector>, error: string)
    requires WellShaped(b) && i < |b.works|
    ensures GoesOn(Committing(b, i, cursor, vectors), Committing(Set(b, i, Done), i + 1, next, vectors))
    ensures GoesOn(Committing(b, i, cursor, vectors), CommitFailing(b, i, next, vectors, error))
  {
  }

  /** The coordinator goes on to the next item, or fails this one. */
  lemma CommittedPc(prm: Params, w: World, error: string, next: nat, w': World)
    requires w.pc.Committing? && WellShaped(w.pc.b) && w.pc.i < |w.pc.b.works| && w.pc.b.stages[w.pc.i].Changed?
    requires w' == Committed(prm, w, error, next)
    ensures w'.pc == Committing(Set(w.pc.b, w.pc.i, Done), w.pc.i + 1, next, w.pc.vectors) ||
            w'.pc == CommitFailing(w.pc.b, w.pc.i, next, w.pc.vectors, error)
  {
    hide CommitSuccess, Supersede, Fresh, Set, RemoveNote;
    if w.live && IsCurrent(w.st, w.pc.b.works[w.pc.i]) {
      ReplacedPc(prm, w, error, next, w');
    } else {
      SupersededPc(prm, w, error, next, w');
    }
  }

  lemma ReplacedPc(prm: Params, w: World, error: string, next: nat, w': World)
    requires w.pc.Committing? && WellShaped(w.pc.b) && w.pc.i < |w.pc.b.works| && w.pc.b.stages[w.pc.i].Changed?
    requires w' == Committed(prm, w, error, next) && w.live && IsCurrent(w.st, w.pc.b.works[w.pc.i])
    ensures w'.pc == if prm.modelDim == prm.storeDim
                     then Committing(Set(w.pc.b, w.pc.i, Done), w.pc.i + 1, next, w.pc.vectors)
                     else CommitFailing(w.pc.b, w.pc.i, next, w.pc.vectors, error)
  {
    hide CommitSuccess, Supersede, IsCurrent, Fresh, Set, RemoveNote;
    if prm.modelDim == prm.storeDim {
    } else {
    }
  }

  lemma SupersededPc(prm: Params, w: World, error: string, next: nat, w': World)
    requires w.pc.Committing? && WellShaped(w.pc.b) && w.pc.i < |w.pc.b.works| && w.pc.b.stages[w.pc.i].Changed?
    requires w' == Committed(prm, w, error, next) && !(w.live && IsCurrent(w.st, w.pc.b.works[w.pc.i]))
    ensures w'.pc == Committing(Set(w.pc.b, w.pc.i, Done), w.pc.i + 1, next, w.pc.vectors)
  {
    hide CommitSuccess, Supersede, IsCurrent, Fresh, Set, RemoveNote;
    if !w.live {
    } else {
    }
  }

  lemma CommitGoesOn(prm: Params, w: World, error: string, now: nat, w': World)
    requires Inv(prm, w) && w.pc.Committing? && WellShaped(w.pc.b) && w' == DoCommit(prm, w, error, now)
    ensures GoesOn(w.pc, w'.pc)
  {
    CommitPosition(prm, w);
    hide Inv, Committed, GoesOn;
    if w.pc.i < |w.pc.b.works| && w.pc.b.stages[w.pc.i].Changed? {
      CommitCases(prm, w, error, now);
      hide DoCommit, VectorInv;
      CommittedGoesOn(prm, w, error, w.pc.cursor + |prm.pieces(w.pc.b.stages[w.pc.i].body)| + 1, w');
    } else {
      hide VectorInv;
      SkipGoesOn(prm, w, error, now, w');
    }
  }

  lemma SkipGoesOn(prm: Params, w: World, error: string, now: nat, w': World)
    requires w.pc.Committing? && WellShaped(w.pc.b) && w' == DoCommit(prm, w, error, now)
    requires w.pc.i >= |w.pc.b.works| || !w.pc.b.stages[w.pc.i].Changed?
    ensures GoesOn(w.pc, w'.pc)
  {
    hide CommitRows, Requeue;
    if w.pc.i >= |w.pc.b.works| {
      PcIs(w, Finalizing, w');
    } else {
      PcIs(w, Committing(w.pc.b, w.pc.i + 1, w.pc.cursor, w.pc.vectors), w');
    }
  }

  lemma PhaseGoesOn(prm: Params, w: World, step: Step, w': World)
    requires Enabled(w, step) && InBatch(w.pc) && Within(w.pc) && w' == Apply(prm, w, step)
    requires step.ReadMetadata? || step.PreparationFails? || step.EmbedOk? || step.EmbedFails?
    ensures GoesOn(w.pc, w'.pc)
  {
    hide EmbedAll, FlatTexts;
    match step
    case ReadMetadata =>
    case PreparationFails(_) =>
    case EmbedOk =>
    case EmbedFails(_) =>
  }

  /** Within a batch every step of the coordinator brings the end of the batch nearer. */
  lemma OwnStepGoesOn(prm: Params, w: World, step: Step, w': World)
    requires Inv(prm, w) && Enabled(w, step) && InBatch(w.pc) && Own(step) && w' == Apply(prm, w, step)
    ensures GoesOn(w.pc, w'.pc)
  {
    BatchShape(prm, w);
    if w.pc.Settling? {
      SettlePosition(prm, w);
    }
    OwnInBatch(w, step);
    hide Own, Inv, DoReadFile, DoSettle, DoCommit, DoFailedCommit, DoRequeue, GoesOn, IsBatch, IsAttachOrder, PicksFailure, Within;
    match step
    case ReadFile(error) => ReadGoesOn(prm, w, error, w');
    case SettleNext(now) => SettleGoesOn(prm, w, now, w');
    case CommitNext(error, now) => CommitGoesOn(prm, w, error, now, w');
    case RequeueFailedCommit(now) => FailedGoesOn(w, now, w');
    case RequeueNext(now) => RequeueGoesOn(w, now, w');
    case _ => PhaseGoesOn(prm, w, step, w');
  }

  lemma OwnInBatch(w: World, step: Step)
    requires Enabled(w, step) && InBatch(w.pc) && Own(step)
    ensures step.ReadFile? || step.SettleNext? || step.CommitNext? || step.RequeueFailedCommit? || step.RequeueNext? ||
            step.ReadMetadata? || step.PreparationFails? || step.EmbedOk? || step.EmbedFails?
  {
    hide IsBatch, IsAttachOrder, PicksFailure;
  }

  /** How many of the steps from `i` up to `j` are the coordinator's. */
  function OwnSteps(steps: seq<Step>, i: nat, j: nat): nat
    requires i <= j <= |steps|
    decreases j
  {
    if i == j then 0 else OwnSteps(steps, i, j - 1) + (if Own(steps[j - 1]) then 1 else 0)
  }

  lemma ProducersLeavePc(prm: Params, w: World, step: Step, w': World)
    requires Enabled(w, step) && !Own(step) && w' == Apply(prm, w, step)
    ensures w'.pc == w.pc || w'.pc.Stopped?
  {
    hide Update, Submit;
    match step
    case EditFile(_, _) =>
    case EditIndex(_, _) =>
    case SubmitIntent(_, _, _) =>
    case ClearLive =>
    case AbortWorker =>
  }

  /** Over a stretch within one batch, the steps left bound the steps the coordinator takes. */
  lemma {:induction false} BatchIsBounded(prm: Params, states: seq<World>, steps: seq<Step>, i: nat, j: nat)
    requires Run(prm, states, steps) && i <= j < |states|
    requires forall k :: i <= k <= j ==> InBatch(states[k].pc)
    ensures InBatch(states[i].pc) && InBatch(states[j].pc)
    ensures OwnSteps(steps, i, j) + StepsLeft(states[j].pc) <= StepsLeft(states[i].pc)
    decreases j
  {
    hide Init, Enabled, Apply, Inv, StepsLeft, Own;
    if i < j {
      BatchIsBounded(prm, states, steps, i, j - 1);
      RunInv(prm, states, steps, j - 1);
      if Own(steps[j - 1]) {
        OwnStepGoesOn(prm, states[j - 1], steps[j - 1], states[j]);
      } else {
        ProducersLeavePc(prm, states[j - 1], steps[j - 1], states[j]);
      }
    }
  }

  /**
   * A batch ends: after the take that starts it, whatever producers do meanwhile, the coordinator is out of it after at
   * most five steps for each of its at most 32 items and seven more.
   */
  lemma BatchEnds(prm: Params, states: seq<World>, steps: seq<Step>, i: nat, j: nat)
    requires Run(prm, states, steps) && i < j < |states| && steps[i].Take?
    requires forall k :: i < k <= j ==> InBatch(states[k].pc)
    ensures OwnSteps(steps, i + 1, j) < 5 * |steps[i].batch| + 7 && |steps[i].batch| <= 32
  {
    TakesAreFirstDue(prm, states, steps, i);
    RunInv(prm, states, steps, j);
    StepsLeftIsPositive(prm, states[j]);
    TakenPc(prm, states[i], steps[i], states[i + 1]);
    hide Inv, Run;
    BatchIsBounded(prm, states, steps, i + 1, j);
  }

  lemma TakenPc(prm: Params, w: World, step: Step, w': World)
    requires Enabled(w, step) && step.Take? && w' == Apply(prm, w, step) && InBatch(w'.pc)
    ensures w'.pc.Snapshotting? && w'.pc.b.works == step.batch
  {
    hide IsBatch, TakeBatch;
    if step.batch == [] {
    } else {
    }
  }
}
