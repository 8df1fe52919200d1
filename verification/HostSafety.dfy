/** What the host protocol guarantees in every interleaving: no dangling instance, whole
    registrations, clean callback replacement, and the worker's once-only protocol. */
module HostSafety {
  import opened Prelude
  import opened HostModel
  import opened HostLocks
  import opened HostLifecycle
  import opened HostCallbacks
  import opened HostWorker
  import opened HostInvariant

  // ------------------------------------------------------------------ no dangling instance

  /** No step a thread of a reachable state can attempt uses an instance that is not allocated; and a
      create called from a callback always finds an instance active. */
  lemma NoFault(states: seq<State>, moves: seq<Move>, k: nat, t: Tid, c: Choice)
    requires IsRun(states, moves) && k < |states| && t in states[k].threads
    ensures Exec(states[k].sh, t, states[k].threads[t], c) != Fault
  {
    Invariant(states, moves, k);
    ExecGood(states[k].sh, t, states[k].threads[t], c);
  }

  /** The instances that activations name or carry as copied callbacks are all in `alive`. */
  predicate NamesOnly(fs: Frames, alive: set<InstId>) {
    fs.Push? ==>
      && NamesOnly(fs.rest, alive)
      && match fs.top
         case Leaf(_, _) => true
         case Notify(_, pc) => pc.NFire? && pc.target.Some? ==> pc.target.value in alive
         case Register(i, _, _) => i in alive
         case StartCall(i, _) => i in alive
         case CreateCall(_) => true
         case Closure(_, i, _) => i in alive
         case Client(_, i, _, _) => i in alive
  }

  lemma {:induction false} ReferToAlive(fs: Frames, i: InstId, alive: set<InstId>)
    requires ReferTo(fs, i) && i in alive
    ensures NamesOnly(fs, alive)
  {
    if fs.Push? { ReferToAlive(fs.rest, i, alive); }
  }

  /** A thread past create's check, that is inside create's critical section. */
  predicate InCreate(st: Stack) { st.base.Create? && st.base.cpc != CrWant }

  /** Slots and callback copies in flight name allocated instances only; outside create's critical
      section a non-null slot names the active instance. */
  lemma NoDangling(states: seq<State>, moves: seq<Move>, k: nat)
    requires IsRun(states, moves) && k < |states|
    ensures var s := states[k];
            && (forall x | x in s.sh.core.slots :: s.sh.core.slots[x] in s.sh.cbs.Keys)
            && (forall t | t in s.threads :: NamesOnly(s.threads[t].frames, s.sh.cbs.Keys))
            && ((forall t | t in s.threads :: !InCreate(s.threads[t])) ==>
                  forall x | x in s.sh.core.slots :: s.sh.core.active == Some(s.sh.core.slots[x]))
  {
    var s := states[k];
    Invariant(states, moves, k);
    forall t | t in s.threads ensures NamesOnly(s.threads[t].frames, s.sh.cbs.Keys) {
      if s.threads[t].frames.Push? {
        HomeAllocated(s.sh, t, s.threads[t]);
        ReferToAlive(s.threads[t].frames, s.threads[t].base.inst, s.sh.cbs.Keys);
      }
    }
    if s.sh.core.life.Creating? {
      CreatorInside(s);
    }
  }

  lemma CreatorInside(s: State)
    requires Inv(s) && s.sh.core.life.Creating?
    ensures s.sh.core.life.tid in s.threads && InCreate(s.threads[s.sh.core.life.tid])
  {
    var t := s.sh.core.life.tid;
    assert Owns(s.sh, Singleton, t) && Singleton in s.sh.owner;
    assert ThreadOk(t, s.threads[t], s.sh);
    assert Singleton in Held(s.threads[t]) && s.threads[t].frames.Empty?;
  }

  /** The slot a destroy clears is its own, and so is the active instance it forgets: no destroy
      ever clears a newer instance's slots. */
  lemma DestroyClearsItsOwn(states: seq<State>, moves: seq<Move>, k: nat, t: Tid, i: InstId)
    requires IsRun(states, moves) && k < |states| && t in states[k].threads
    requires states[k].threads[t].base.Destroy? && states[k].threads[t].base.inst == i
    ensures var s, pc := states[k], states[k].threads[t].base.dpc;
            && (pc.DsSlotIn? ==> Cleared(pc.dk) in s.sh.core.slots && s.sh.core.slots[Cleared(pc.dk)] == i)
            && (pc.DsInSingleton? ==> s.sh.core.active == Some(i) && s.sh.core.slots == map[])
  {
    Invariant(states, moves, k);
    assert ThreadOk(t, states[k].threads[t], states[k].sh);
    ClearsItsOwn(t, i, states[k].threads[t].base.dpc, states[k].sh.core);
  }

  lemma ClearsItsOwn(t: Tid, i: InstId, pc: DestroyPc, c: Core)
    requires CoreOk(c) && DestroyOk(t, i, pc, c)
    ensures pc.DsSlotIn? ==> Cleared(pc.dk) in c.slots && c.slots[Cleared(pc.dk)] == i
    ensures pc.DsInSingleton? ==> c.active == Some(i) && c.slots == map[]
  {
    assert pc.DsSlotIn? ==> ClearIndex(Cleared(pc.dk)) == pc.dk;
    assert pc.DsInSingleton? ==> forall x: Slot :: x !in c.slots;
  }

  // ------------------------------------------------------------------ whole registrations

  predicate Among(f: Frame, fs: Frames) {
    fs.Push? && (fs.top == f || Among(f, fs.rest))
  }

  lemma {:induction false} AmongCb(f: Frame, fs: Frames, cb: Callbacks)
    requires Among(f, fs) && FramesCb(fs, cb)
    ensures FrameCb(f, cb)
  {
    if fs.top != f { AmongCb(f, fs.rest, cb); }
  }

  lemma {:induction false} AmongRefers(f: Frame, fs: Frames, i: InstId)
    requires Among(f, fs) && ReferTo(fs, i)
    ensures RefersTo(f, i)
  {
    if fs.top != f { AmongRefers(f, fs.rest, i); }
  }

  lemma {:induction false} LockedClientHolds(f: Frame, fs: Frames, b: Base, lax: bool)
    requires Among(f, fs) && Shape(fs, b, lax) && f.Client? && f.kind != LineConfig
    ensures Callback(f.inst) in HeldByFrames(fs)
  {
    if fs.top != f {
      LockedClientHolds(f, fs.rest, b, lax);
    } else {
      assert Closure(f.kind, f.inst, CCalled) == fs.rest.top;
    }
  }

  /** Every running client callback got its function and its context from one registration; the
      serial-out, signal and log callbacks run under the instance's callback mutex, and with the
      newest registration. */
  lemma RegistrationsWhole(states: seq<State>, moves: seq<Move>, k: nat, t: Tid, f: Frame)
    requires IsRun(states, moves) && k < |states| && t in states[k].threads
    requires f.Client? && Among(f, states[k].threads[t].frames)
    ensures f.fn == f.ctx && f.inst in states[k].sh.cbs && f.fn <= states[k].sh.cbs[f.inst].gen
    ensures f.kind != LineConfig ==>
              f.fn == states[k].sh.cbs[f.inst].gen && Owns(states[k].sh, Callback(f.inst), t)
  {
    Invariant(states, moves, k);
    var s := states[k];
    var st := s.threads[t];
    assert ThreadOk(t, st, s.sh);
    HomeAllocated(s.sh, t, st);
    AmongCb(f, st.frames, s.sh.cbs[st.base.inst]);
    AmongRefers(f, st.frames, st.base.inst);
    if f.kind != LineConfig {
      LockedClientHolds(f, st.frames, st.base, s.sh.lax);
      assert Callback(f.inst) in Held(st);
    }
  }

  /** When set_callbacks gives its mutex back, the instance has exactly the callbacks it was given, each
      and the context from this registration. */
  lemma RegistrationComplete(states: seq<State>, moves: seq<Move>, k: nat, t: Tid, i: InstId, mask: set<Slot>)
    requires IsRun(states, moves) && k < |states| && t in states[k].threads
    requires var fs := states[k].threads[t].frames; fs.Push? && fs.top == Register(i, mask, RWrite(5))
    ensures i in states[k].sh.cbs
    ensures var cb := states[k].sh.cbs[i];
            cb.fns.Keys == mask && cb.ctx == cb.gen && forall x | x in mask :: cb.fns[x] == cb.gen
  {
    Invariant(states, moves, k);
    var st := states[k].threads[t];
    assert ThreadOk(t, st, states[k].sh);
    HomeAllocated(states[k].sh, t, st);
    var cb := states[k].sh.cbs[i];
    assert forall x: Slot :: WriteIndex(x) < 5 && (x in cb.fns.Keys <==> x in mask);
  }

  /** Whether a HAL routine's critical section leads to a call of its callback. */
  predicate Notifies(sh: Shared, op: NotifyOp) {
    match op
    case Write(data) => |data| > 0
    case SetPin(pin, v) => !(pin in sh.pins && sh.pins[pin] == v)
    case SetLine(line) => line.baud != sh.serial.line.baud || line.config != sh.serial.line.config
    case SetBaud(baud) => baud != sh.serial.line.baud
    case LogMessage => true
  }

  /** A HAL routine inside its critical section: if what it does calls for it, its own next two steps
      release the mutex and call the closure of the active instance; otherwise they return. */
  lemma NotifyCallsIff(states: seq<State>, moves: seq<Move>, k: nat, t: Tid, op: NotifyOp, rest: Frames)
    requires IsRun(states, moves) && k < |states| && t in states[k].threads
    requires states[k].threads[t].frames == Push(Notify(op, NIn), rest)
    ensures var sh, b := states[k].sh, states[k].threads[t].base;
            var o := Exec(sh, t, states[k].threads[t], Go);
            && o.Next? && NotifyLock(op) !in o.sh.owner && sh.core.active.Some?
            && var p := Exec(o.sh, t, o.stack, Go);
               var called := Push(Closure(NotifySlot(op), sh.core.active.value, CWant), Push(Notify(op, NDone), rest));
               p.Next? && p.sh == o.sh && p.stack.frames == if Notifies(sh, op) then called else rest
  {
    Invariant(states, moves, k);
    var sh, st := states[k].sh, states[k].threads[t];
    assert st == Stack(st.base, Push(Notify(op, NIn), rest));
    assert ThreadOk(t, st, sh);
    Home(sh, t, st);
    assert SlotSet(sh.core.life, NotifySlot(op));
    assert NotifyLock(op) in Held(st);
    assert Owns(sh, NotifyLock(op), t);
  }

  /** A closure past its lock: with no callback of its kind registered it returns; otherwise its own next
      step (for line-config its next two, which give the mutex back) calls that callback, with the
      function and the context registered at that moment. */
  lemma ClosureCallsIffRegistered(states: seq<State>, moves: seq<Move>, k: nat, t: Tid, x: Slot, i: InstId,
      rest: Frames)
    requires IsRun(states, moves) && k < |states| && t in states[k].threads
    requires states[k].threads[t].frames == Push(Closure(x, i, CIn), rest)
    ensures i in states[k].sh.cbs
    ensures var sh, b := states[k].sh, states[k].threads[t].base;
            var fns, ctx := sh.cbs[i].fns, sh.cbs[i].ctx;
            var o := Exec(sh, t, states[k].threads[t], Go);
            && o.Next?
            && (x !in fns ==> o.stack == Stack(b, rest) && Callback(i) !in o.sh.owner)
            && (x in fns && x != LineConfig ==>
                  && o.stack == Stack(b, Push(Client(x, i, fns[x], ctx), Push(Closure(x, i, CCalled), rest)))
                  && Callback(i) in o.sh.owner)
            && (x in fns && x == LineConfig ==>
                  var p := Exec(o.sh, t, o.stack, Go);
                  && p.Next? && Callback(i) !in p.sh.owner
                  && p.stack == Stack(b, Push(Client(x, i, fns[x], ctx), Push(Closure(x, i, CUnlocked), rest))))
  {
    Invariant(states, moves, k);
    var st := states[k].threads[t];
    assert st == Stack(st.base, Push(Closure(x, i, CIn), rest));
    assert ThreadOk(t, st, states[k].sh);
    HomeAllocated(states[k].sh, t, st);
    assert Callback(i) in Held(st);
    assert Owns(states[k].sh, Callback(i), t);
  }

  // ------------------------------------------------------------------ callback replacement

  /** A line-config callback of a registration older than `n`, snapshotted or running. */
  predicate StaleLine(f: Frame, i: InstId, n: nat) {
    || (f.Closure? && f.cinst == i && f.cpc.CSnapped? && f.cpc.fn < n)
    || (f.Client? && f.inst == i && f.kind == LineConfig && f.fn < n)
  }

  /** A serial-out, signal or log callback of instance `i`. */
  predicate LockedOf(f: Frame, i: InstId) { f.Client? && f.inst == i && f.kind != LineConfig }

  predicate HasStaleLine(fs: Frames, i: InstId, n: nat) {
    fs.Push? && (StaleLine(fs.top, i, n) || HasStaleLine(fs.rest, i, n))
  }

  function StaleThreads(s: State, i: InstId, n: nat): set<Tid> {
    set t | t in s.threads && HasStaleLine(s.threads[t].frames, i, n)
  }

  predicate Superseded(s: State, i: InstId, n: nat) {
    i < s.sh.core.nextInst && (i in s.sh.cbs ==> n <= s.sh.cbs[i].gen)
  }

  predicate StaleKept(fs: Frames, o: Outcome, i: InstId, n: nat) {
    o.Next? && HasStaleLine(o.stack.frames, i, n) ==> HasStaleLine(fs, i, n)
  }

  lemma NotifyStale(sh: Shared, t: Tid, b: Base, op: NotifyOp, pc: NotifyPc, rest: Frames, i: InstId, n: nat)
    ensures StaleKept(Push(Notify(op, pc), rest), StepNotify(sh, t, b, op, pc, rest), i, n)
  {
    assert HasStaleLine(Push(Notify(op, NDone), rest), i, n) == HasStaleLine(rest, i, n);
  }

  lemma ClosureStale(sh: Shared, t: Tid, b: Base, k: Slot, j: InstId, pc: ClosurePc, rest: Frames, i: InstId, n: nat)
    requires j in sh.cbs && FrameCb(Closure(k, j, pc), sh.cbs[j])
    requires i in sh.cbs ==> n <= sh.cbs[i].gen
    ensures StaleKept(Push(Closure(k, j, pc), rest), StepClosure(sh, t, b, k, j, pc, rest), i, n)
  {
    assert forall q: ClosurePc | !q.CSnapped? ::
      HasStaleLine(Push(Closure(k, j, q), rest), i, n) == HasStaleLine(rest, i, n);
  }

  lemma StaleFrameStep(sh: Shared, t: Tid, st: Stack, c: Choice, i: InstId, n: nat)
    requires SharedOk(sh) && ThreadOk(t, st, sh) && st.frames.Push?
    requires i in sh.cbs ==> n <= sh.cbs[i].gen
    ensures StaleKept(st.frames, Exec(sh, t, st, c), i, n)
  {
    HomeAllocated(sh, t, st);
    var b, rest := st.base, st.frames.rest;
    match st.frames.top
    case Leaf(op, pc) => assert StaleKept(st.frames, StepLeaf(sh, t, b, op, pc, rest), i, n);
    case Notify(op, pc) => NotifyStale(sh, t, b, op, pc, rest, i, n);
    case Register(j, m, pc) => assert StaleKept(st.frames, StepRegister(sh, t, b, j, m, pc, rest), i, n);
    case StartCall(j, pc) => assert StaleKept(st.frames, StepStart(sh, t, b, j, pc, rest), i, n);
    case CreateCall(pc) => assert StaleKept(st.frames, StepCreateCall(sh, t, b, pc, rest), i, n);
    case Closure(k, j, pc) => ClosureStale(sh, t, b, k, j, pc, rest, i, n);
    case Client(k, j, _, _) => assert StaleKept(st.frames, StepClient(sh, b, k, j, st.frames, rest, c), i, n);
  }

  /** A step with no activation pushes none that a line-config callback runs in. */
  lemma StaleBaseStep(sh: Shared, t: Tid, b: Base, c: Choice, i: InstId, n: nat)
    ensures var o := Exec(sh, t, Stack(b, Empty), c); o.Next? ==> !HasStaleLine(o.stack.frames, i, n)
  {
    match b
    case Idle => assert StepIdle(sh, c).Next? ==> !HasStaleLine(StepIdle(sh, c).stack.frames, i, n);
    case InCall(_) =>
    case Create(pc) => assert StepCreate(sh, t, pc).Next? ==> StepCreate(sh, t, pc).stack.frames == Empty;
    case Destroy(j, pc) => assert StepDestroy(sh, t, j, pc).Next? ==> StepDestroy(sh, t, j, pc).stack.frames == Empty;
    case Worker(j, pc) => assert StepWorker(sh, t, j, pc, c).Next? ==>
        !HasStaleLine(StepWorker(sh, t, j, pc, c).stack.frames, i, n);
    case Gone =>
  }

  lemma StaleStep(s: State, s': State, t: Tid, c: Choice, i: InstId, n: nat)
    requires Inv(s) && Step(s, s', t, c) && Superseded(s, i, n)
    ensures StaleThreads(s', i, n) <= StaleThreads(s, i, n)
  {
    var st := s.threads[t];
    if st.frames.Push? {
      StaleFrameStep(s.sh, t, st, c, i, n);
    } else {
      StaleBaseStep(s.sh, t, st.base, c, i, n);
    }
  }

  /** Instance numbers are never handed out twice, and only a worker about to call loop() counts
      one. */
  ghost predicate History(sh: Shared, b: Base, o: Outcome) {
    o.Next? ==>
      && sh.core.nextInst <= o.sh.core.nextInst
      && (forall i | i in o.sh.cbs && i !in sh.cbs :: sh.core.nextInst <= i)
      && (forall i | i in sh.core.works && i in o.sh.core.works && i < sh.core.nextInst ::
            || o.sh.core.works[i].loops == sh.core.works[i].loops
            || (b == Worker(i, WEnter) && o.sh.core.works[i].loops == sh.core.works[i].loops + 1))
  }

  lemma LeafHistory(sh: Shared, t: Tid, b: Base, op: LeafOp, pc: LeafPc, rest: Frames)
    ensures History(sh, b, StepLeaf(sh, t, b, op, pc, rest))
  {
  }

  lemma NotifyHistory(sh: Shared, t: Tid, b: Base, op: NotifyOp, pc: NotifyPc, rest: Frames)
    ensures History(sh, b, StepNotify(sh, t, b, op, pc, rest))
  {
  }

  lemma RegisterHistory(sh: Shared, t: Tid, b: Base, i: InstId, mask: set<Slot>, pc: RegisterPc, rest: Frames)
    ensures History(sh, b, StepRegister(sh, t, b, i, mask, pc, rest))
  {
  }

  lemma ClosureHistory(sh: Shared, t: Tid, b: Base, k: Slot, i: InstId, pc: ClosurePc, rest: Frames)
    ensures History(sh, b, StepClosure(sh, t, b, k, i, pc, rest))
  {
  }

  lemma FrameHistory(sh: Shared, t: Tid, st: Stack, c: Choice)
    requires st.frames.Push?
    ensures History(sh, st.base, Exec(sh, t, st, c))
  {
    var b, rest := st.base, st.frames.rest;
    match st.frames.top
    case Leaf(op, pc) => LeafHistory(sh, t, b, op, pc, rest);
    case Notify(op, pc) => NotifyHistory(sh, t, b, op, pc, rest);
    case Register(i, m, pc) => RegisterHistory(sh, t, b, i, m, pc, rest);
    case StartCall(i, pc) => StartHistory(sh, t, b, i, pc, rest);
    case CreateCall(pc) => assert History(sh, b, StepCreateCall(sh, t, b, pc, rest));
    case Closure(k, i, pc) => ClosureHistory(sh, t, b, k, i, pc, rest);
    case Client(k, i, _, _) => assert History(sh, b, StepClient(sh, b, k, i, st.frames, rest, c));
  }

  lemma IdleHistory(sh: Shared, t: Tid, c: Choice)
    ensures History(sh, Idle, StepIdle(sh, c)) && History(sh, Idle, StepBeginDestroy(sh, t, c))
  {
  }

  lemma CreateHistory(sh: Shared, t: Tid, pc: CreatePc)
    ensures History(sh, Create(pc), StepCreate(sh, t, pc))
  {
  }

  lemma StartHistory(sh: Shared, t: Tid, b: Base, i: InstId, pc: StartPc, rest: Frames)
    ensures History(sh, b, StepStart(sh, t, b, i, pc, rest))
  {
  }

  lemma DestroyHistory(sh: Shared, t: Tid, i: InstId, pc: DestroyPc)
    ensures History(sh, Destroy(i, pc), StepDestroy(sh, t, i, pc))
  {
  }

  lemma WorkerHistory(sh: Shared, t: Tid, i: InstId, pc: WorkerPc, c: Choice)
    ensures History(sh, Worker(i, pc), StepWorker(sh, t, i, pc, c))
  {
  }

  lemma ExecHistory(sh: Shared, t: Tid, st: Stack, c: Choice)
    ensures History(sh, st.base, Exec(sh, t, st, c))
  {
    if st.frames.Push? {
      FrameHistory(sh, t, st, c);
    } else {
      match st.base
      case Idle => IdleHistory(sh, t, c);
      case InCall(_) =>
      case Create(pc) => CreateHistory(sh, t, pc);
      case Destroy(i, pc) => DestroyHistory(sh, t, i, pc);
      case Worker(i, pc) => WorkerHistory(sh, t, i, pc, c);
      case Gone =>
    }
  }

  lemma SupersededStep(s: State, s': State, t: Tid, c: Choice, i: InstId, n: nat)
    requires Inv(s) && Step(s, s', t, c) && Superseded(s, i, n)
    ensures Superseded(s', i, n)
  {
    ExecGood(s.sh, t, s.threads[t], c);
    ExecHistory(s.sh, t, s.threads[t], c);
  }

  lemma ReplacementStep(states: seq<State>, moves: seq<Move>, k: nat, i: InstId, n: nat)
    requires IsRun(states, moves) && k < |moves| && Superseded(states[k], i, n)
    ensures Superseded(states[k + 1], i, n)
    ensures StaleThreads(states[k + 1], i, n) <= StaleThreads(states[k], i, n)
  {
    Invariant(states, moves, k);
    assert StepAt(states, moves, k);
    StaleStep(states[k], states[k + 1], moves[k].t, moves[k].c, i, n);
    SupersededStep(states[k], states[k + 1], moves[k].t, moves[k].c, i, n);
  }

  /** Once registration `n` of instance `i` has been made (state `j`), no serial-out, signal or log
      callback of an older registration runs at any later point, and the only older line-config
      calls still possible are those some thread had already snapshotted. */
  lemma {:induction false} ReplacementIsClean(states: seq<State>, moves: seq<Move>, j: nat, k: nat, i: InstId, n: nat)
    requires IsRun(states, moves) && j <= k < |states|
    requires Superseded(states[j], i, n)
    ensures Superseded(states[k], i, n)
    ensures forall t, f | t in states[k].threads && Among(f, states[k].threads[t].frames) && LockedOf(f, i) ::
              n <= f.fn
    ensures StaleThreads(states[k], i, n) <= StaleThreads(states[j], i, n)
    decreases k
  {
    if j < k {
      ReplacementIsClean(states, moves, j, k - 1, i, n);
      ReplacementStep(states, moves, k - 1, i, n);
    }
    forall t, f | t in states[k].threads && Among(f, states[k].threads[t].frames) && LockedOf(f, i)
      ensures n <= f.fn
    {
      RegistrationsWhole(states, moves, k, t, f);
    }
  }

  // ------------------------------------------------------------------ the worker's protocol

  /** At most one start of an instance succeeds, setup() begins at most once and before any loop(),
      and at most one loop() begins after destroy has cleared `running`. */
  lemma WorkerProtocol(states: seq<State>, moves: seq<Move>, k: nat, i: InstId)
    requires IsRun(states, moves) && k < |states| && i in states[k].sh.core.works
    ensures var w := states[k].sh.core.works[i];
            && w.wins <= 1 && w.setups <= w.wins
            && (w.loops > 0 ==> w.setups == 1)
            && w.late <= 1
  {
    Invariant(states, moves, k);
    assert CountsOk(states[k].sh.core.works[i]);
  }

  /** Past its loop. */
  predicate Leaving(b: Base, i: InstId) { b == Worker(i, WExit) || b == Worker(i, WFinish) }

  /** The worker goes on as long as it may: it has ended, or is on its way out, only if destroy has cleared
      `running` or the sketch has thrown; and once it has ended `running` is reset. */
  lemma WorkerLeavesOnlyIf(states: seq<State>, moves: seq<Move>, k: nat, t: Tid, i: InstId)
    requires IsRun(states, moves) && k < |states| && i in states[k].sh.core.works
    ensures var w := states[k].sh.core.works[i]; w.finished ==> !w.running && (w.cleared || w.threw)
    ensures var w := states[k].sh.core.works[i];
            (t in states[k].threads && Leaving(states[k].threads[t].base, i)) ==> w.cleared || w.threw
  {
    Invariant(states, moves, k);
    assert CountsOk(states[k].sh.core.works[i]);
    if t in states[k].threads { assert ThreadOk(t, states[k].threads[t], states[k].sh); }
  }

  /** At its check of `running`, with destroy not having cleared it, the worker's next two steps begin a
      loop(); with it cleared, the next step is the way out. */
  lemma LoopContinuesIff(states: seq<State>, moves: seq<Move>, k: nat, t: Tid, i: InstId)
    requires IsRun(states, moves) && k < |states| && t in states[k].threads
    requires states[k].threads[t] == Stack(Worker(i, WCheck), Empty)
    ensures i in states[k].sh.core.works
    ensures var sh, w := states[k].sh, states[k].sh.core.works[i];
            var o := Exec(sh, t, states[k].threads[t], Go);
            && o.Next?
            && (w.cleared ==> o.stack == Stack(Worker(i, WExit), Empty))
            && (!w.cleared ==>
                  var p := Exec(o.sh, t, o.stack, Go);
                  p.Next? && p.stack == Stack(Worker(i, WLoop), Empty) && p.sh.core.works[i].loops == w.loops + 1)
  {
    Invariant(states, moves, k);
    assert ThreadOk(t, states[k].threads[t], states[k].sh);
    assert CountsOk(states[k].sh.core.works[i]);
  }

  /** A loop() call begins only in the worker of an allocated instance, after its setup(), never
      after the sketch has thrown, and at most once after destroy cleared `running`. */
  lemma LoopBegins(states: seq<State>, moves: seq<Move>, k: nat, i: InstId)
    requires IsRun(states, moves) && k < |moves|
    requires i in states[k].sh.core.works && i in states[k + 1].sh.core.works
    requires states[k + 1].sh.core.works[i].loops != states[k].sh.core.works[i].loops
    ensures var w := states[k].sh.core.works[i];
            && states[k + 1].sh.core.works[i].loops == w.loops + 1
            && w.setups == 1 && !w.threw && (w.cleared ==> w.late == 0)
            && w.worker == Some(moves[k].t)
  {
    Invariant(states, moves, k);
    var s, t, c := states[k], moves[k].t, moves[k].c;
    assert StepAt(states, moves, k);
    assert ThreadOk(t, s.threads[t], s.sh);
    ExecHistory(s.sh, t, s.threads[t], c);
  }

  /** After destroy has returned, the instance's worker is gone for good: the instance is never
      allocated again, and no thread is its worker. */
  lemma {:induction false} DestroyedStaysDestroyed(states: seq<State>, moves: seq<Move>, j: nat, k: nat, i: InstId)
    requires IsRun(states, moves) && j <= k < |states|
    requires i < states[j].sh.core.nextInst && i !in states[j].sh.core.works
    ensures i < states[k].sh.core.nextInst && i !in states[k].sh.core.works
    ensures forall t | t in states[k].threads ::
              !(states[k].threads[t].base.Worker? && states[k].threads[t].base.inst == i)
    decreases k
  {
    if j < k {
      DestroyedStaysDestroyed(states, moves, j, k - 1, i);
      DestroyedStep(states, moves, k - 1, i);
    }
    NoWorkerOf(states, moves, k, i);
  }

  lemma DestroyedStep(states: seq<State>, moves: seq<Move>, k: nat, i: InstId)
    requires IsRun(states, moves) && k < |moves|
    requires i < states[k].sh.core.nextInst && i !in states[k].sh.core.works
    ensures i < states[k + 1].sh.core.nextInst && i !in states[k + 1].sh.core.works
  {
    var s, s', m := states[k], states[k + 1], moves[k];
    assert LifeGlobal(s.sh) by { Invariant(states, moves, k); }
    assert LifeGlobal(s'.sh) by { Invariant(states, moves, k + 1); }
    assert Step(s, s', m.t, m.c) by { assert StepAt(states, moves, k); }
    NotReallocated(s, s', m.t, m.c, i);
  }

  lemma NoWorkerOf(states: seq<State>, moves: seq<Move>, k: nat, i: InstId)
    requires IsRun(states, moves) && k < |states| && i !in states[k].sh.core.works
    ensures forall t | t in states[k].threads ::
              !(states[k].threads[t].base.Worker? && states[k].threads[t].base.inst == i)
  {
    Invariant(states, moves, k);
    var s := states[k];
    forall t | t in s.threads ensures !(s.threads[t].base.Worker? && s.threads[t].base.inst == i) {
      assert ThreadOk(t, s.threads[t], s.sh);
    }
  }

  lemma NotReallocated(s: State, s': State, t: Tid, c: Choice, i: InstId)
    requires LifeGlobal(s.sh) && LifeGlobal(s'.sh) && Step(s, s', t, c)
    requires i < s.sh.core.nextInst && i !in s.sh.core.works
    ensures i < s'.sh.core.nextInst && i !in s'.sh.core.works
  {
    ExecHistory(s.sh, t, s.threads[t], c);
    assert i !in s.sh.cbs.Keys;
    assert i !in s'.sh.cbs.Keys;
  }
}
