/**
 * Why dropping the runtime may clear the live flag without holding the lifecycle gate.
 *
 * Operations that change the store or the cache on disk take the gate, look at the flag, act, and release the
 * gate; any number of threads run them. Dropping clears the flag outside the gate and then passes through it.
 */
module ShutdownFence {

  datatype OpPc = Idle | Holding | Passed

  datatype DropPc = Alive | Cleared | InGate | Returned

  datatype Holder = Free | Op(thread: nat) | Dropper

  /** `effects` records every change to the store or the cache, in order. */
  datatype Fence = Fence(live: bool, gate: Holder, ops: map<nat, OpPc>, drop: DropPc, effects: seq<nat>)

  datatype Step =
    | Acquire(thread: nat)
    | CheckLive(thread: nat)
    | Act(thread: nat, effect: nat)
    | Release(thread: nat)
    | Clear
    | EnterGate
    | LeaveGate

  predicate Enabled(f: Fence, step: Step) {
    match step
    case Acquire(t) => t in f.ops && f.ops[t].Idle? && f.gate.Free?
    case CheckLive(t) => t in f.ops && f.ops[t].Holding?
    case Act(t, _) => t in f.ops && f.ops[t].Passed?
    case Release(t) => t in f.ops && f.ops[t].Passed?
    case Clear => f.drop.Alive?
    case EnterGate => f.drop.Cleared? && f.gate.Free?
    case LeaveGate => f.drop.InGate?
  }

  function Apply(f: Fence, step: Step): Fence
    requires Enabled(f, step)
  {
    match step
    case Acquire(t) => f.(gate := Op(t), ops := f.ops[t := Holding])
    case CheckLive(t) =>
      if f.live then f.(ops := f.ops[t := Passed]) else f.(gate := Free, ops := f.ops[t := Idle])
    case Act(t, effect) => f.(effects := f.effects + [effect])
    case Release(t) => f.(gate := Free, ops := f.ops[t := Idle])
    case Clear => f.(live := false, drop := Cleared)
    case EnterGate => f.(gate := Dropper, drop := InGate)
    case LeaveGate => f.(gate := Free, drop := Returned)
  }

  predicate Init(f: Fence) {
    f.live && f.gate.Free? && f.drop.Alive? && f.effects == [] && forall t :: t in f.ops ==> f.ops[t].Idle?
  }

  /** The gate is held by exactly the operation that is past it, and nobody is once the dropper has been inside. */
  predicate Inv(f: Fence) {
    && (forall t :: t in f.ops ==> (f.gate == Op(t) <==> !f.ops[t].Idle?))
    && (f.gate.Dropper? <==> f.drop.InGate?)
    && (f.live <==> f.drop.Alive?)
    && (f.drop.InGate? || f.drop.Returned? ==> forall t :: t in f.ops ==> !f.ops[t].Passed?)
  }

  lemma StepInv(f: Fence, step: Step)
    requires Inv(f) && Enabled(f, step)
    ensures Inv(Apply(f, step))
  {
  }

  ghost predicate Run(states: seq<Fence>, steps: seq<Step>) {
    && |states| == |steps| + 1 && Init(states[0])
    && forall k :: 0 <= k < |steps| ==> Enabled(states[k], steps[k]) && states[k + 1] == Apply(states[k], steps[k])
  }

  lemma {:induction false} RunInv(states: seq<Fence>, steps: seq<Step>, k: nat)
    requires Run(states, steps) && k < |states|
    ensures Inv(states[k])
  {
    if k > 0 {
      RunInv(states, steps, k - 1);
      StepInv(states[k - 1], steps[k - 1]);
    }
  }

  /** Once the drop has returned, no interleaving changes the store or the cache any more. */
  lemma {:induction false} NothingAfterDrop(states: seq<Fence>, steps: seq<Step>, i: nat, j: nat)
    requires Run(states, steps) && i <= j < |states| && states[i].drop.Returned?
    ensures states[j].effects == states[i].effects && states[j].drop.Returned?
    decreases j - i
  {
    if i < j {
      RunInv(states, steps, i);
      NothingAfterDrop(states, steps, i + 1, j);
    }
  }

  predicate PassedAt(f: Fence, t: nat) {
    t in f.ops && f.ops[t].Passed?
  }

  /** After the flag is cleared, an operation may still act only if it had passed its check before. */
  lemma {:induction false} OnlyEarlierPassers(states: seq<Fence>, steps: seq<Step>, i: nat, j: nat, t: nat)
    requires Run(states, steps) && i <= j < |states| && !states[i].live && PassedAt(states[j], t)
    ensures PassedAt(states[i], t)
    decreases j - i
  {
    if i < j {
      OnlyEarlierPassers(states, steps, i + 1, j, t);
      RunInv(states, steps, i);
    }
  }

  /** Clearing the flag is not enough by itself: without passing the gate, an effect can still follow. */
  lemma ClearingAloneIsNotEnough(t: nat, effect: nat) returns (states: seq<Fence>, steps: seq<Step>)
    ensures Run(states, steps) && |states| == 5
    ensures states[3].drop.Cleared? && states[4].effects == states[3].effects + [effect]
  {
    var f0 := Fence(true, Free, map[t := Idle], Alive, []);
    steps := [Acquire(t), CheckLive(t), Clear, Act(t, effect)];
    var f1 := Apply(f0, steps[0]);
    var f2 := Apply(f1, steps[1]);
    var f3 := Apply(f2, steps[2]);
    states := [f0, f1, f2, f3, Apply(f3, steps[3])];
  }
}
