/**
 * Opening each vault once although many callers ask for it at the same time.
 *
 * A call looks the vault up, fetches the lock of its id, takes it, looks again, opens, and registers. Calls run
 * interleaved; an opening may fail, a call may be dropped while it waits, and starting a watcher may fail.
 */
module VaultRegistry {
  import opened Common

  type Id = string

  datatype Context = Context(serial: nat)

  datatype CallPc =
    | Looking
    | Missed
    | Waiting(lock: nat)
    | Holding(lock: nat)
    | Opening(lock: nat)
    | Opened(lock: nat, context: Context)
    | Returned(context: Context)
    | Failed

  datatype Call = Call(id: Id, pc: CallPc)

  /** `opens` and `dropped` count, per id, the openings that succeeded and those lost before registration. */
  datatype Registry = Registry(
    contexts: map<Id, Context>,
    locks: map<Id, nat>,
    holders: map<nat, nat>,
    calls: map<nat, Call>,
    opens: map<Id, nat>,
    dropped: map<Id, nat>)

  datatype Step =
    | Arrive(call: nat, id: Id)
    | FirstLook(call: nat, watcherOk: bool)
    | FetchLock(call: nat)
    | TakeLock(call: nat)
    | SecondLook(call: nat, watcherOk: bool)
    | OpenOk(call: nat, context: Context)
    | OpenFails(call: nat)
    | Register(call: nat)
    | DropCall(call: nat)

  function Count(m: map<Id, nat>, id: Id): nat {
    if id in m then m[id] else 0
  }

  predicate Holds(pc: CallPc) {
    pc.Holding? || pc.Opening? || pc.Opened?
  }

  predicate Finished(pc: CallPc) {
    pc.Returned? || pc.Failed?
  }

  predicate Enabled(r: Registry, step: Step) {
    match step
    case Arrive(c, _) => c !in r.calls
    case FirstLook(c, _) => c in r.calls && r.calls[c].pc.Looking?
    case FetchLock(c) => c in r.calls && r.calls[c].pc.Missed?
    case TakeLock(c) => c in r.calls && r.calls[c].pc.Waiting? && r.calls[c].pc.lock !in r.holders
    case SecondLook(c, _) => c in r.calls && r.calls[c].pc.Holding?
    case OpenOk(c, _) => c in r.calls && r.calls[c].pc.Opening?
    case OpenFails(c) => c in r.calls && r.calls[c].pc.Opening?
    case Register(c) => c in r.calls && r.calls[c].pc.Opened?
    case DropCall(c) => c in r.calls && !Finished(r.calls[c].pc)
  }

  function Move(r: Registry, c: nat, pc: CallPc): Registry
    requires c in r.calls
  {
    r.(calls := r.calls[c := Call(r.calls[c].id, pc)])
  }

  /** Leaving the call releases the lock it holds. */
  function Leave(r: Registry, c: nat, pc: CallPc): Registry
    requires c in r.calls
  {
    var old_ := r.calls[c].pc;
    Move(if Holds(old_) then r.(holders := r.holders - {old_.lock}) else r, c, pc)
  }

  function Hit(r: Registry, c: nat, watcherOk: bool): Registry
    requires c in r.calls && r.calls[c].id in r.contexts
  {
    Leave(r, c, if watcherOk then Returned(r.contexts[r.calls[c].id]) else Failed)
  }

  function Apply(r: Registry, step: Step): Registry
    requires Enabled(r, step)
  {
    match step
    case Arrive(c, id) => r.(calls := r.calls[c := Call(id, Looking)])
    case FirstLook(c, watcherOk) => if r.calls[c].id in r.contexts then Hit(r, c, watcherOk) else Move(r, c, Missed)
    case FetchLock(c) =>
      var id := r.calls[c].id;
      var lock := if id in r.locks then r.locks[id] else |r.locks|;
      Move(r.(locks := r.locks[id := lock]), c, Waiting(lock))
    case TakeLock(c) =>
      var lock := r.calls[c].pc.lock;
      Move(r.(holders := r.holders[lock := c]), c, Holding(lock))
    case SecondLook(c, watcherOk) =>
      if r.calls[c].id in r.contexts then Hit(r, c, watcherOk) else Move(r, c, Opening(r.calls[c].pc.lock))
    case OpenOk(c, context) =>
      var id := r.calls[c].id;
      Move(r.(opens := r.opens[id := Count(r.opens, id) + 1]), c, Opened(r.calls[c].pc.lock, context))
    case OpenFails(c) => Leave(r, c, Failed)
    case Register(c) =>
      var context := r.calls[c].pc.context;
      Leave(r.(contexts := r.contexts[r.calls[c].id := context]), c, Returned(context))
    case DropCall(c) =>
      var id := r.calls[c].id;
      Leave(if r.calls[c].pc.Opened? then r.(dropped := r.dropped[id := Count(r.dropped, id) + 1]) else r, c, Failed)
  }

  predicate Init(r: Registry) {
    r == Registry(map[], map[], map[], map[], map[], map[])
  }

  // ----- invariant -----

  /** One lock per id, handed to every call that waits for it or holds it. */
  ghost predicate LocksInv(locks: map<Id, nat>, holders: map<nat, nat>, calls: map<nat, Call>) {
    && (forall id :: id in locks ==> locks[id] < |locks|)
    && (forall a, b :: a in locks && b in locks && locks[a] == locks[b] ==> a == b)
    && (forall c :: c in calls && (calls[c].pc.Waiting? || Holds(calls[c].pc)) ==>
                      calls[c].id in locks && calls[c].pc.lock == locks[calls[c].id])
    && (forall c :: c in calls && Holds(calls[c].pc) ==> calls[c].pc.lock in holders && holders[calls[c].pc.lock] == c)
    && (forall l :: l in holders ==> holders[l] in calls && Holds(calls[holders[l]].pc) && calls[holders[l]].pc.lock == l)
  }

  /** While a call opens, its vault is not registered; whatever was returned is what is registered. */
  ghost predicate ContextsInv(contexts: map<Id, Context>, calls: map<nat, Call>) {
    && (forall c :: c in calls && (calls[c].pc.Opening? || calls[c].pc.Opened?) ==> calls[c].id !in contexts)
    && (forall c :: c in calls && calls[c].pc.Returned? ==>
                      calls[c].id in contexts && contexts[calls[c].id] == calls[c].pc.context)
  }

  predicate InWindow(calls: map<nat, Call>, id: Id) {
    exists c :: c in calls && calls[c].id == id && calls[c].pc.Opened?
  }

  /** Every successful opening is registered, about to be, or was dropped in between. */
  ghost predicate OpensInv(r: Registry) {
    forall id :: Count(r.opens, id) ==
      (if id in r.contexts then 1 else 0) + (if InWindow(r.calls, id) then 1 else 0) + Count(r.dropped, id)
  }

  ghost predicate Inv(r: Registry) {
    LocksInv(r.locks, r.holders, r.calls) && ContextsInv(r.contexts, r.calls) && OpensInv(r)
  }

  /** At most one call per id holds its lock. */
  lemma OneHolder(r: Registry, c: nat, d: nat)
    requires LocksInv(r.locks, r.holders, r.calls) && c in r.calls && d in r.calls
    requires Holds(r.calls[c].pc) && Holds(r.calls[d].pc) && r.calls[c].id == r.calls[d].id
    ensures c == d
  {
  }

  // ----- locks -----

  predicate Idle(pc: CallPc) {
    !pc.Waiting? && !Holds(pc)
  }

  lemma LocksIdle(locks: map<Id, nat>, holders: map<nat, nat>, calls: map<nat, Call>, c: nat, call: Call)
    requires LocksInv(locks, holders, calls) && Idle(call.pc) && (c in calls ==> !Holds(calls[c].pc))
    ensures LocksInv(locks, holders, calls[c := call])
  {
  }

  lemma NewLock(locks: map<Id, nat>, holders: map<nat, nat>, calls: map<nat, Call>, id: Id)
    requires LocksInv(locks, holders, calls) && id !in locks
    ensures LocksInv(locks[id := |locks|], holders, calls)
  {
    var locks' := locks[id := |locks|];
    assert locks'.Keys == locks.Keys + {id};
    assert |locks'.Keys| == |locks.Keys| + 1;
    assert |locks'| == |locks'.Keys| && |locks| == |locks.Keys|;
    hide Holds;
  }

  lemma LocksWaiting(locks: map<Id, nat>, holders: map<nat, nat>, calls: map<nat, Call>, c: nat)
    requires LocksInv(locks, holders, calls) && c in calls && Idle(calls[c].pc) && calls[c].id in locks
    ensures LocksInv(locks, holders, calls[c := Call(calls[c].id, Waiting(locks[calls[c].id]))])
  {
  }

  lemma LocksFetched(locks: map<Id, nat>, holders: map<nat, nat>, calls: map<nat, Call>, c: nat)
    requires LocksInv(locks, holders, calls) && c in calls && Idle(calls[c].pc)
    ensures var id := calls[c].id;
            var lock := if id in locks then locks[id] else |locks|;
            LocksInv(locks[id := lock], holders, calls[c := Call(id, Waiting(lock))])
  {
    hide LocksInv;
    var id := calls[c].id;
    if id in locks {
      assert locks[id := locks[id]] == locks;
      LocksWaiting(locks, holders, calls, c);
    } else {
      NewLock(locks, holders, calls, id);
      LocksWaiting(locks[id := |locks|], holders, calls, c);
    }
  }

  lemma LocksTaken(locks: map<Id, nat>, holders: map<nat, nat>, calls: map<nat, Call>, c: nat)
    requires LocksInv(locks, holders, calls) && c in calls && calls[c].pc.Waiting? && calls[c].pc.lock !in holders
    ensures var lock := calls[c].pc.lock;
            LocksInv(locks, holders[lock := c], calls[c := Call(calls[c].id, Holding(lock))])
  {
  }

  lemma LocksKept(locks: map<Id, nat>, holders: map<nat, nat>, calls: map<nat, Call>, c: nat, pc: CallPc)
    requires LocksInv(locks, holders, calls) && c in calls && Holds(calls[c].pc) && Holds(pc) && pc.lock == calls[c].pc.lock
    ensures LocksInv(locks, holders, calls[c := Call(calls[c].id, pc)])
  {
  }

  lemma LocksReleased(locks: map<Id, nat>, holders: map<nat, nat>, calls: map<nat, Call>, c: nat, pc: CallPc)
    requires LocksInv(locks, holders, calls) && c in calls && Holds(calls[c].pc) && Idle(pc)
    ensures LocksInv(locks, holders - {calls[c].pc.lock}, calls[c := Call(calls[c].id, pc)])
  {
  }

  lemma LocksLeft(r: Registry, c: nat, pc: CallPc)
    requires LocksInv(r.locks, r.holders, r.calls) && c in r.calls && Finished(pc)
    ensures var r' := Leave(r, c, pc); LocksInv(r'.locks, r'.holders, r'.calls)
  {
    hide LocksInv;
    if Holds(r.calls[c].pc) {
      LocksReleased(r.locks, r.holders, r.calls, c, pc);
    } else {
      LocksIdle(r.locks, r.holders, r.calls, c, Call(r.calls[c].id, pc));
    }
  }

  lemma KeepsLocks(r: Registry, step: Step)
    requires Inv(r) && Enabled(r, step)
    ensures var r' := Apply(r, step); LocksInv(r'.locks, r'.holders, r'.calls)
  {
    assert LocksInv(r.locks, r.holders, r.calls);
    hide Inv, LocksInv, Leave;
    match step
    case Arrive(c, id) => LocksIdle(r.locks, r.holders, r.calls, c, Call(id, Looking));
    case FirstLook(c, watcherOk) =>
      if r.calls[c].id in r.contexts {
        LocksLeft(r, c, if watcherOk then Returned(r.contexts[r.calls[c].id]) else Failed);
      } else {
        LocksIdle(r.locks, r.holders, r.calls, c, Call(r.calls[c].id, Missed));
      }
    case FetchLock(c) => LocksFetched(r.locks, r.holders, r.calls, c);
    case TakeLock(c) => LocksTaken(r.locks, r.holders, r.calls, c);
    case SecondLook(c, watcherOk) =>
      if r.calls[c].id in r.contexts {
        LocksLeft(r, c, if watcherOk then Returned(r.contexts[r.calls[c].id]) else Failed);
      } else {
        LocksKept(r.locks, r.holders, r.calls, c, Opening(r.calls[c].pc.lock));
      }
    case OpenOk(c, context) => LocksKept(r.locks, r.holders, r.calls, c, Opened(r.calls[c].pc.lock, context));
    case OpenFails(c) => LocksLeft(r, c, Failed);
    case Register(c) =>
      LocksLeft(r.(contexts := r.contexts[r.calls[c].id := r.calls[c].pc.context]), c, Returned(r.calls[c].pc.context));
    case DropCall(c) =>
      LocksLeft(if r.calls[c].pc.Opened? then r.(dropped := r.dropped[r.calls[c].id := Count(r.dropped, r.calls[c].id) + 1]) else r,
                c, Failed);
  }

  // ----- contexts -----

  predicate Agrees(contexts: map<Id, Context>, call: Call) {
    && (call.pc.Opening? || call.pc.Opened? ==> call.id !in contexts)
    && (call.pc.Returned? ==> call.id in contexts && contexts[call.id] == call.pc.context)
  }

  lemma ContextsMove(contexts: map<Id, Context>, calls: map<nat, Call>, c: nat, call: Call)
    requires ContextsInv(contexts, calls) && Agrees(contexts, call)
    ensures ContextsInv(contexts, calls[c := call])
  {
  }

  lemma ContextsRegister(contexts: map<Id, Context>, calls: map<nat, Call>, c: nat, context: Context)
    requires ContextsInv(contexts, calls) && c in calls && calls[c].id !in contexts
    requires forall d :: d in calls && d != c && calls[d].id == calls[c].id ==> !calls[d].pc.Opening? && !calls[d].pc.Opened?
    ensures ContextsInv(contexts[calls[c].id := context], calls[c := Call(calls[c].id, Returned(context))])
  {
  }

  lemma Alone(r: Registry, c: nat)
    requires Inv(r) && c in r.calls && Holds(r.calls[c].pc)
    ensures forall d :: d in r.calls && d != c && r.calls[d].id == r.calls[c].id ==> !Holds(r.calls[d].pc)
  {
    forall d | d in r.calls && d != c && r.calls[d].id == r.calls[c].id ensures !Holds(r.calls[d].pc) {
      if Holds(r.calls[d].pc) { OneHolder(r, c, d); }
    }
  }

  lemma CallFacts(r: Registry, c: nat)
    requires Inv(r) && c in r.calls
    ensures Agrees(r.contexts, r.calls[c])
    ensures ContextsInv(r.contexts, r.calls)
  {
  }

  lemma LeaveCalls(r: Registry, c: nat, pc: CallPc)
    requires c in r.calls
    ensures var r' := Leave(r, c, pc);
            && r'.calls == r.calls[c := Call(r.calls[c].id, pc)]
            && r'.contexts == r.contexts && r'.opens == r.opens && r'.dropped == r.dropped
  {
  }

  lemma KeepsContexts(r: Registry, step: Step)
    requires Inv(r) && Enabled(r, step)
    ensures var r' := Apply(r, step); ContextsInv(r'.contexts, r'.calls)
  {
    var c := step.call;
    assert ContextsInv(r.contexts, r.calls);
    if !step.Arrive? { CallFacts(r, c); }
    if step.Register? { Alone(r, c); }
    hide Inv, ContextsInv, Leave;
    match step
    case Arrive(_, id) => ContextsMove(r.contexts, r.calls, c, Call(id, Looking));
    case FirstLook(_, watcherOk) => HitOrMiss(r, c, watcherOk, Missed);
    case FetchLock(_) =>
      var id := r.calls[c].id;
      ContextsMove(r.contexts, r.calls, c, Call(id, Waiting(if id in r.locks then r.locks[id] else |r.locks|)));
    case TakeLock(_) => ContextsMove(r.contexts, r.calls, c, Call(r.calls[c].id, Holding(r.calls[c].pc.lock)));
    case SecondLook(_, watcherOk) => HitOrMiss(r, c, watcherOk, Opening(r.calls[c].pc.lock));
    case OpenOk(_, context) => ContextsMove(r.contexts, r.calls, c, Call(r.calls[c].id, Opened(r.calls[c].pc.lock, context)));
    case OpenFails(_) =>
      LeaveCalls(r, c, Failed);
      ContextsMove(r.contexts, r.calls, c, Call(r.calls[c].id, Failed));
    case Register(_) =>
      var context := r.calls[c].pc.context;
      LeaveCalls(r.(contexts := r.contexts[r.calls[c].id := context]), c, Returned(context));
      ContextsRegister(r.contexts, r.calls, c, context);
    case DropCall(_) =>
      var r1 := if r.calls[c].pc.Opened? then r.(dropped := r.dropped[r.calls[c].id := Count(r.dropped, r.calls[c].id) + 1]) else r;
      LeaveCalls(r1, c, Failed);
      ContextsMove(r.contexts, r.calls, c, Call(r.calls[c].id, Failed));
  }

  lemma HitOrMiss(r: Registry, c: nat, watcherOk: bool, miss: CallPc)
    requires c in r.calls && ContextsInv(r.contexts, r.calls) && !miss.Returned?
    ensures r.calls[c].id in r.contexts ==>
              var r' := Hit(r, c, watcherOk); ContextsInv(r'.contexts, r'.calls)
    ensures r.calls[c].id !in r.contexts ==>
              var r' := Move(r, c, miss); ContextsInv(r'.contexts, r'.calls)
  {
    hide ContextsInv, Leave;
    var id := r.calls[c].id;
    if id in r.contexts {
      var pc := if watcherOk then Returned(r.contexts[id]) else Failed;
      LeaveCalls(r, c, pc);
      ContextsMove(r.contexts, r.calls, c, Call(id, pc));
    } else {
      ContextsMove(r.contexts, r.calls, c, Call(id, miss));
    }
  }

  // ----- openings -----

  /** What one step changes about the openings of each id. */
  ghost predicate Accounts(r: Registry, r': Registry, c: nat) {
    && c in r.calls && c in r'.calls && r'.calls == r.calls[c := Call(r.calls[c].id, r'.calls[c].pc)]
    && var id, pc, pc' := r.calls[c].id, r.calls[c].pc, r'.calls[c].pc;
    && (forall i :: i != id ==> Count(r'.opens, i) == Count(r.opens, i))
    && (forall i :: i != id ==> Count(r'.dropped, i) == Count(r.dropped, i))
    && (forall i :: i != id ==> (i in r'.contexts <==> i in r.contexts))
    && Count(r'.opens, id) == Count(r.opens, id) + (if !pc.Opened? && pc'.Opened? then 1 else 0)
    && Count(r'.dropped, id) == Count(r.dropped, id) + (if pc.Opened? && pc'.Failed? then 1 else 0)
    && (id in r'.contexts <==> id in r.contexts || (pc.Opened? && pc'.Returned?))
    && (pc.Opened? ==> pc'.Failed? || (pc'.Returned? && id !in r.contexts))
    && (pc'.Opened? ==> pc.Opening?)
  }

  /** A call moves without opening, registering or being dropped with an opening. */
  lemma MoveAccounts(r: Registry, r': Registry, c: nat, pc: CallPc)
    requires c in r.calls && !r.calls[c].pc.Opened? && !pc.Opened?
    requires r'.calls == r.calls[c := Call(r.calls[c].id, pc)]
    requires r'.contexts == r.contexts && r'.opens == r.opens && r'.dropped == r.dropped
    ensures Accounts(r, r', c)
  {
    hide Count;
  }

  lemma OpenAccounts(r: Registry, r': Registry, c: nat, context: Context)
    requires c in r.calls && r.calls[c].pc.Opening?
    requires var id := r.calls[c].id;
             && r'.calls == r.calls[c := Call(id, Opened(r.calls[c].pc.lock, context))]
             && r'.contexts == r.contexts && r'.dropped == r.dropped && r'.opens == r.opens[id := Count(r.opens, id) + 1]
    ensures Accounts(r, r', c)
  {
  }

  lemma RegisterAccounts(r: Registry, r': Registry, c: nat, context: Context)
    requires c in r.calls && r.calls[c].pc.Opened? && r.calls[c].id !in r.contexts
    requires var id := r.calls[c].id;
             && r'.calls == r.calls[c := Call(id, Returned(context))]
             && r'.contexts == r.contexts[id := context] && r'.dropped == r.dropped && r'.opens == r.opens
    ensures Accounts(r, r', c)
  {
    hide Count;
  }

  lemma DropAccounts(r: Registry, r': Registry, c: nat)
    requires c in r.calls && r.calls[c].pc.Opened? && r.calls[c].id !in r.contexts
    requires var id := r.calls[c].id;
             && r'.calls == r.calls[c := Call(id, Failed)]
             && r'.contexts == r.contexts && r'.opens == r.opens && r'.dropped == r.dropped[id := Count(r.dropped, id) + 1]
    ensures Accounts(r, r', c)
  {
  }

  lemma StepAccounts(r: Registry, step: Step)
    requires Inv(r) && Enabled(r, step) && !step.Arrive?
    ensures Accounts(r, Apply(r, step), step.call)
  {
    var c, r' := step.call, Apply(r, step);
    CallFacts(r, c);
    hide Inv, ContextsInv, Accounts, Leave, Count;
    match step
    case FirstLook(_, watcherOk) =>
      if r.calls[c].id in r.contexts { LeaveCalls(r, c, if watcherOk then Returned(r.contexts[r.calls[c].id]) else Failed); }
      MoveAccounts(r, r', c, r'.calls[c].pc);
    case FetchLock(_) => MoveAccounts(r, r', c, r'.calls[c].pc);
    case TakeLock(_) => MoveAccounts(r, r', c, r'.calls[c].pc);
    case SecondLook(_, watcherOk) =>
      if r.calls[c].id in r.contexts { LeaveCalls(r, c, if watcherOk then Returned(r.contexts[r.calls[c].id]) else Failed); }
      MoveAccounts(r, r', c, r'.calls[c].pc);
    case OpenOk(_, context) => OpenAccounts(r, r', c, context);
    case OpenFails(_) =>
      LeaveCalls(r, c, Failed);
      MoveAccounts(r, r', c, Failed);
    case Register(_) =>
      var context := r.calls[c].pc.context;
      LeaveCalls(r.(contexts := r.contexts[r.calls[c].id := context]), c, Returned(context));
      RegisterAccounts(r, r', c, context);
    case DropCall(_) =>
      if r.calls[c].pc.Opened? {
        LeaveCalls(r.(dropped := r.dropped[r.calls[c].id := Count(r.dropped, r.calls[c].id) + 1]), c, Failed);
        DropAccounts(r, r', c);
      } else {
        LeaveCalls(r, c, Failed);
        MoveAccounts(r, r', c, Failed);
      }
  }

  /** Who is in the window after call `c` moved. */
  lemma WindowAfter(calls: map<nat, Call>, c: nat, pc: CallPc, id: Id)
    requires c in calls
    requires calls[c].id == id && Holds(calls[c].pc) ==>
               forall d :: d in calls && d != c && calls[d].id == id ==> !Holds(calls[d].pc)
    ensures var calls' := calls[c := Call(calls[c].id, pc)];
            && (calls[c].id != id ==> (InWindow(calls', id) <==> InWindow(calls, id)))
            && (calls[c].id == id && Holds(calls[c].pc) ==>
                  (InWindow(calls', id) <==> pc.Opened?) && (InWindow(calls, id) <==> calls[c].pc.Opened?))
            && (calls[c].id == id && !pc.Opened? && !Holds(calls[c].pc) ==> (InWindow(calls', id) <==> InWindow(calls, id)))
  {
    var calls' := calls[c := Call(calls[c].id, pc)];
    if d :| d in calls && d != c && calls[d].id == id && calls[d].pc.Opened? {
      assert calls'[d] == calls[d];
      assert Holds(calls[d].pc);
    }
    if calls[c].id == id && pc.Opened? {
      assert calls'[c].pc.Opened?;
    }
  }

  lemma AccountsKeepOpens(r: Registry, r': Registry, c: nat, id: Id)
    requires OpensInv(r) && Accounts(r, r', c)
    requires Holds(r.calls[c].pc) ==>
               forall d :: d in r.calls && d != c && r.calls[d].id == r.calls[c].id ==> !Holds(r.calls[d].pc)
    ensures Count(r'.opens, id) ==
            (if id in r'.contexts then 1 else 0) + (if InWindow(r'.calls, id) then 1 else 0) + Count(r'.dropped, id)
  {
    WindowAfter(r.calls, c, r'.calls[c].pc, id);
    hide InWindow;
    assert Count(r.opens, id) ==
           (if id in r.contexts then 1 else 0) + (if InWindow(r.calls, id) then 1 else 0) + Count(r.dropped, id);
  }

  lemma ArrivalKeepsWindow(calls: map<nat, Call>, c: nat, call: Call, id: Id)
    requires c !in calls && !call.pc.Opened?
    ensures InWindow(calls[c := call], id) <==> InWindow(calls, id)
  {
    if d :| d in calls && calls[d].id == id && calls[d].pc.Opened? {
      assert calls[c := call][d] == calls[d];
    }
  }

  lemma KeepsOpens(r: Registry, step: Step)
    requires Inv(r) && Enabled(r, step)
    ensures OpensInv(Apply(r, step))
  {
    var r' := Apply(r, step);
    if step.Arrive? {
      forall id ensures InWindow(r'.calls, id) <==> InWindow(r.calls, id) {
        ArrivalKeepsWindow(r.calls, step.call, Call(step.id, Looking), id);
      }
      hide InWindow;
    } else {
      if Holds(r.calls[step.call].pc) { Alone(r, step.call); }
      StepAccounts(r, step);
      hide LocksInv, ContextsInv, Accounts, InWindow, Apply;
      forall id
        ensures Count(r'.opens, id) ==
                (if id in r'.contexts then 1 else 0) + (if InWindow(r'.calls, id) then 1 else 0) + Count(r'.dropped, id)
      {
        AccountsKeepOpens(r, r', step.call, id);
      }
    }
  }

  lemma OpenedIsUnregistered(r: Registry, c: nat)
    requires Inv(r) && c in r.calls
    ensures r.calls[c].pc.Opening? || r.calls[c].pc.Opened? ==> r.calls[c].id !in r.contexts
  {
  }

  lemma Keeps(r: Registry, step: Step)
    requires Inv(r) && Enabled(r, step)
    ensures Inv(Apply(r, step))
  {
    hide LocksInv, ContextsInv, OpensInv, Apply;
    KeepsLocks(r, step);
    KeepsContexts(r, step);
    KeepsOpens(r, step);
  }

  // ----- runs -----

  ghost predicate Run(states: seq<Registry>, steps: seq<Step>) {
    && |states| == |steps| + 1 && Init(states[0])
    && forall k :: 0 <= k < |steps| ==> Enabled(states[k], steps[k]) && states[k + 1] == Apply(states[k], steps[k])
  }

  lemma {:induction false} RunInv(states: seq<Registry>, steps: seq<Step>, k: nat)
    requires Run(states, steps) && k < |states|
    ensures Inv(states[k])
  {
    hide Apply, Enabled, LocksInv, ContextsInv;
    if k == 0 {
      assert LocksInv(map[], map[], map[]) && ContextsInv(map[], map[]) by { EmptyInv(); }
    } else {
      RunInv(states, steps, k - 1);
      Keeps(states[k - 1], steps[k - 1]);
    }
  }

  lemma EmptyInv()
    ensures LocksInv(map[], map[], map[]) && ContextsInv(map[], map[])
  {
  }

  lemma StepKeepsRegistered(r: Registry, step: Step, id: Id)
    requires Inv(r) && Enabled(r, step) && id in r.contexts
    ensures id in Apply(r, step).contexts && Apply(r, step).contexts[id] == r.contexts[id]
  {
    if step.Register? {
      OpenedIsUnregistered(r, step.call);
    }
  }

  /** A registered context is never replaced, in any interleaving. */
  lemma {:induction false} NeverReplaced(states: seq<Registry>, steps: seq<Step>, i: nat, j: nat, id: Id)
    requires Run(states, steps) && i <= j < |states| && id in states[i].contexts
    ensures id in states[j].contexts && states[j].contexts[id] == states[i].contexts[id]
    decreases j - i
  {
    hide Apply, Enabled, Inv;
    if i < j {
      RunInv(states, steps, i);
      StepKeepsRegistered(states[i], steps[i], id);
      NeverReplaced(states, steps, i + 1, j, id);
    }
  }

  /** All calls that succeed for one id, at whatever times, return the same context. */
  lemma OneContextPerVault(states: seq<Registry>, steps: seq<Step>, i: nat, j: nat, c: nat, d: nat)
    requires Run(states, steps) && i <= j < |states|
    requires c in states[i].calls && states[i].calls[c].pc.Returned?
    requires d in states[j].calls && states[j].calls[d].pc.Returned? && states[j].calls[d].id == states[i].calls[c].id
    ensures states[i].calls[c].pc.context == states[j].calls[d].pc.context
  {
    RunInv(states, steps, i);
    RunInv(states, steps, j);
    NeverReplaced(states, steps, i, j, states[i].calls[c].id);
  }

  /**
   * Openings that succeed for one id: at most one, plus one for every call that was dropped between its opening
   * and its registration; so at most one exactly when none, or only an unregistered one, was dropped.
   */
  lemma OpensAreAccountedFor(states: seq<Registry>, steps: seq<Step>, k: nat, id: Id)
    requires Run(states, steps) && k < |states|
    ensures Count(states[k].opens, id) ==
            (if id in states[k].contexts then 1 else 0) + (if InWindow(states[k].calls, id) then 1 else 0) +
            Count(states[k].dropped, id)
    ensures !(id in states[k].contexts && InWindow(states[k].calls, id))
    ensures Count(states[k].dropped, id) == 0 ==> Count(states[k].opens, id) <= 1
  {
    RunInv(states, steps, k);
  }

  ghost predicate Steps(r: Registry, steps: seq<Step>, r': Registry)
    decreases |steps|
  {
    if |steps| == 0 then r' == r else Enabled(r, steps[0]) && Steps(Apply(r, steps[0]), steps[1..], r')
  }

  lemma {:induction false} StepsThen(r: Registry, a: seq<Step>, r1: Registry, b: seq<Step>, r2: Registry)
    requires Steps(r, a, r1) && Steps(r1, b, r2)
    ensures Steps(r, a + b, r2)
    decreases |a|
  {
    hide Enabled, Apply;
    if |a| == 0 {
      assert a + b == b;
    } else {
      assert (a + b)[1..] == a[1..] + b;
      StepsThen(Apply(r, a[0]), a[1..], r1, b, r2);
    }
  }

  lemma OneStep(r: Registry, step: Step)
    requires Enabled(r, step)
    ensures Steps(r, [step], Apply(r, step))
  {
    assert Steps(Apply(r, step), [step][1..], Apply(r, step));
  }

  lemma ThreeSteps(r: Registry, a: Step, b: Step, c: Step)
    requires Enabled(r, a) && Enabled(Apply(r, a), b) && Enabled(Apply(Apply(r, a), b), c)
    ensures Steps(r, [a, b, c], Apply(Apply(Apply(r, a), b), c))
  {
    hide Enabled, Apply;
    OneStep(r, a);
    OneStep(Apply(r, a), b);
    OneStep(Apply(Apply(r, a), b), c);
    hide Steps;
    StepsThen(r, [a], Apply(r, a), [b], Apply(Apply(r, a), b));
    StepsThen(r, [a] + [b], Apply(Apply(r, a), b), [c], Apply(Apply(Apply(r, a), b), c));
    assert [a] + [b] + [c] == [a, b, c];
  }

  lemma FourSteps(r: Registry, a: Step, b: Step, c: Step, d: Step, r': Registry)
    requires Enabled(r, a) && Enabled(Apply(r, a), b) && Enabled(Apply(Apply(r, a), b), c)
    requires var r3 := Apply(Apply(Apply(r, a), b), c); Enabled(r3, d) && r' == Apply(r3, d)
    ensures Steps(r, [a, b, c, d], r')
  {
    hide Enabled, Apply;
    ThreeSteps(r, a, b, c);
    var r3 := Apply(Apply(Apply(r, a), b), c);
    OneStep(r3, d);
    hide Steps;
    StepsThen(r, [a, b, c], r3, [d], r');
    assert [a, b, c] + [d] == [a, b, c, d];
  }

  /** A call that meets nobody gets to hold the lock of its id. */
  lemma GetsTheLock(r: Registry, c: nat, id: Id) returns (r': Registry)
    requires c !in r.calls && id !in r.contexts
    requires (if id in r.locks then r.locks[id] else |r.locks|) !in r.holders
    ensures Steps(r, [Arrive(c, id), FirstLook(c, true), FetchLock(c), TakeLock(c)], r')
    ensures c in r'.calls && r'.calls[c].id == id && r'.calls[c].pc.Holding?
    ensures r'.contexts == r.contexts && r'.opens == r.opens && r'.dropped == r.dropped
    ensures r'.calls[c].pc.lock in r'.holders && r'.holders == r.holders[r'.calls[c].pc.lock := c]
    ensures id in r'.locks && r'.locks[id] == r'.calls[c].pc.lock && r'.calls == r.calls[c := r'.calls[c]]
  {
    hide Steps;
    r' := Apply(Apply(Apply(Apply(r, Arrive(c, id)), FirstLook(c, true)), FetchLock(c)), TakeLock(c));
    FourSteps(r, Arrive(c, id), FirstLook(c, true), FetchLock(c), TakeLock(c), r');
  }

  /** And then opens the vault; dropped right after, it leaves the lock free and nothing registered. */
  lemma OpensAndIsDropped(r: Registry, c: nat, id: Id, context: Context) returns (r': Registry)
    requires c in r.calls && r.calls[c].id == id && r.calls[c].pc.Holding? && id !in r.contexts
    ensures Steps(r, [SecondLook(c, true), OpenOk(c, context), DropCall(c)], r')
    ensures r'.contexts == r.contexts && Count(r'.opens, id) == Count(r.opens, id) + 1
    ensures r'.holders == r.holders - {r.calls[c].pc.lock} && r'.locks == r.locks && r'.calls.Keys == r.calls.Keys
  {
    hide Steps;
    r' := Apply(Apply(Apply(r, SecondLook(c, true)), OpenOk(c, context)), DropCall(c));
    ThreeSteps(r, SecondLook(c, true), OpenOk(c, context), DropCall(c));
  }

  /** A vault that is opened twice: each of two calls is dropped between opening and registering. */
  lemma DroppedOpeningIsRepeated(id: Id, context: Context) returns (steps: seq<Step>, r': Registry)
    ensures Steps(Registry(map[], map[], map[], map[], map[], map[]), steps, r')
    ensures Count(r'.opens, id) == 2
  {
    var r0 := Registry(map[], map[], map[], map[], map[], map[]);
    var r1 := GetsTheLock(r0, 0, id);
    var r2 := OpensAndIsDropped(r1, 0, id, context);
    assert r1.calls.Keys == {0};
    var r3 := GetsTheLock(r2, 1, id);
    r' := OpensAndIsDropped(r3, 1, id, context);
    var a, b := [Arrive(0, id), FirstLook(0, true), FetchLock(0), TakeLock(0)], [SecondLook(0, true), OpenOk(0, context), DropCall(0)];
    var c, d := [Arrive(1, id), FirstLook(1, true), FetchLock(1), TakeLock(1)], [SecondLook(1, true), OpenOk(1, context), DropCall(1)];
    hide Steps;
    StepsThen(r0, a, r1, b, r2);
    StepsThen(r2, c, r3, d, r');
    StepsThen(r0, a + b, r2, c + d, r');
    steps := (a + b) + (c + d);
  }

  // ----- how a call ends -----

  /** Looking the vault up, with or without its lock; the watcher is started on a hit. */
  predicate LooksUp(step: Step) {
    step.FirstLook? || step.SecondLook?
  }

  /** What a step makes of its call: a hit is returned unless the watcher fails, an opening is returned once registered. */
  ghost predicate CallAfter(contexts: map<Id, Context>, before: Call, step: Step, after: Call) {
    && after.id == before.id
    && (LooksUp(step) ==>
          if before.id in contexts then after.pc == if step.watcherOk then Returned(contexts[before.id]) else Failed
          else if step.FirstLook? then after.pc == Missed else after.pc.Opening?)
    && (step.FetchLock? ==> after.pc.Waiting?)
    && (step.TakeLock? ==> after.pc.Holding?)
    && (step.OpenOk? ==> after.pc.Opened? && after.pc.context == step.context)
    && (step.Register? ==> before.pc.Opened? && after.pc == Returned(before.pc.context))
    && (step.OpenFails? || step.DropCall? ==> after.pc == Failed)
  }

  lemma LookStep(r: Registry, step: Step, r': Registry)
    requires Enabled(r, step) && LooksUp(step) && r' == Apply(r, step)
    ensures r'.calls == r.calls[step.call := r'.calls[step.call]]
    ensures CallAfter(r.contexts, r.calls[step.call], step, r'.calls[step.call])
  {
    var c := step.call;
    hide Leave;
    if r.calls[c].id in r.contexts {
      LeaveCalls(r, c, if step.watcherOk then Returned(r.contexts[r.calls[c].id]) else Failed);
    } else if step.FirstLook? {
      assert r'.calls == r.calls[c := Call(r.calls[c].id, Missed)];
    } else {
      assert r'.calls == r.calls[c := Call(r.calls[c].id, Opening(r.calls[c].pc.lock))];
    }
  }

  lemma LockStep(r: Registry, step: Step, r': Registry)
    requires Enabled(r, step) && (step.FetchLock? || step.TakeLock? || step.OpenOk?) && r' == Apply(r, step)
    ensures r'.calls == r.calls[step.call := r'.calls[step.call]]
    ensures CallAfter(r.contexts, r.calls[step.call], step, r'.calls[step.call])
  {
    match step
    case FetchLock(_) =>
    case TakeLock(_) =>
    case OpenOk(_, _) =>
  }

  lemma LastStep(r: Registry, step: Step, r': Registry)
    requires Enabled(r, step) && (step.OpenFails? || step.Register? || step.DropCall?) && r' == Apply(r, step)
    ensures r'.calls == r.calls[step.call := r'.calls[step.call]]
    ensures CallAfter(r.contexts, r.calls[step.call], step, r'.calls[step.call])
  {
    hide Leave;
    match step
    case OpenFails(c) => LeaveCalls(r, c, Failed);
    case Register(c) =>
      var context := r.calls[c].pc.context;
      LeaveCalls(r.(contexts := r.contexts[r.calls[c].id := context]), c, Returned(context));
    case DropCall(c) =>
      var id := r.calls[c].id;
      LeaveCalls(
        if r.calls[c].pc.Opened? then r.(dropped := r.dropped[id := Count(r.dropped, id) + 1]) else r, c, Failed);
  }

  lemma CallStep(r: Registry, step: Step, r': Registry)
    requires Enabled(r, step) && !step.Arrive? && r' == Apply(r, step)
    ensures step.call in r.calls && step.call in r'.calls && r'.calls == r.calls[step.call := r'.calls[step.call]]
    ensures CallAfter(r.contexts, r.calls[step.call], step, r'.calls[step.call])
  {
    assert step.call in r.calls;
    hide Apply, CallAfter;
    if LooksUp(step) {
      LookStep(r, step, r');
    } else if step.FetchLock? || step.TakeLock? || step.OpenOk? {
      LockStep(r, step, r');
    } else {
      LastStep(r, step, r');
    }
  }

  /** Only a registration adds a context, and it adds the one that its call opened. */
  lemma ContextStep(r: Registry, step: Step, r': Registry)
    requires Enabled(r, step) && r' == Apply(r, step)
    ensures r'.contexts ==
            if step.Register? then r.contexts[r.calls[step.call].id := r.calls[step.call].pc.context] else r.contexts
  {
    hide Leave;
    match step
    case Arrive(_, _) =>
    case FirstLook(c, watcherOk) =>
      LeaveCalls(r, c, if watcherOk && r.calls[c].id in r.contexts then Returned(r.contexts[r.calls[c].id]) else Failed);
    case FetchLock(_) =>
    case TakeLock(_) =>
    case SecondLook(c, watcherOk) =>
      LeaveCalls(r, c, if watcherOk && r.calls[c].id in r.contexts then Returned(r.contexts[r.calls[c].id]) else Failed);
    case OpenOk(_, _) =>
    case OpenFails(c) => LeaveCalls(r, c, Failed);
    case Register(c) =>
      var context := r.calls[c].pc.context;
      LeaveCalls(r.(contexts := r.contexts[r.calls[c].id := context]), c, Returned(context));
    case DropCall(c) =>
      var id := r.calls[c].id;
      LeaveCalls(
        if r.calls[c].pc.Opened? then r.(dropped := r.dropped[id := Count(r.dropped, id) + 1]) else r, c, Failed);
  }

  /**
   * At every step of every run: a call returns exactly when it finds its vault registered and can start the watcher,
   * or registers what it opened; a call that has ended holds no lock; and no other call is touched.
   */
  lemma CallEnds(states: seq<Registry>, steps: seq<Step>, k: nat)
    requires Run(states, steps) && k < |steps| && !steps[k].Arrive?
    ensures var c := steps[k].call;
            && c in states[k].calls && c in states[k + 1].calls
            && CallAfter(states[k].contexts, states[k].calls[c], steps[k], states[k + 1].calls[c])
            && (Finished(states[k + 1].calls[c].pc) ==>
                  NoLockHeld(states[k + 1].holders, c))
            && states[k + 1].calls == states[k].calls[c := states[k + 1].calls[c]]
  {
    CallStep(states[k], steps[k], states[k + 1]);
    RunInv(states, steps, k + 1);
    assert LocksInv(states[k + 1].locks, states[k + 1].holders, states[k + 1].calls);
    hide Run, Apply, Inv, CallAfter;
  }

  predicate NoLockHeld(holders: map<nat, nat>, c: nat) {
    forall lock: nat :: lock in holders ==> holders[lock] != c
  }

  // ----- one call on its own -----

  /** The shared tables as one call sees them when no other call interferes. */
  class Tables {
    var contexts: map<Id, Context>
    var locks: map<Id, nat>

    constructor ()
      ensures contexts == map[] && locks == map[]
    {
      contexts, locks := map[], map[];
    }

    /** `outcome` is what opening the vault would yield, `watcherOk` whether its watcher can be started. */
    method EnsureVault(id: Id, outcome: Option<Context>, watch: bool, watcherOk: bool) returns (r: Option<Context>)
      modifies this
      ensures id in old(contexts) ==> contexts == old(contexts) && locks == old(locks)
      ensures id in old(contexts) ==> r == (if !watch || watcherOk then Some(contexts[id]) else None)
      ensures id !in old(contexts) ==> r == outcome && id in locks
      ensures id !in old(contexts) ==>
                contexts == (if outcome.Some? then old(contexts)[id := outcome.value] else old(contexts))
      ensures r.Some? ==> id in contexts && contexts[id] == r.value
    {
      if id in contexts {
        return if !watch || watcherOk then Some(contexts[id]) else None;
      }
      if id !in locks {
        locks := locks[id := |locks|];
      }
      if outcome.Some? {
        contexts := contexts[id := outcome.value];
      }
      r := outcome;
    }
  }
}
