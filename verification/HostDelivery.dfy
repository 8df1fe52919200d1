/** No lost wake-up, on runs of the whole host protocol: with a serial-out handler registered by the
    time of start and in every later registration, and handlers that return only after finding the
    receive queue empty, bytes in the queue mean that a worker is inside write(), its wake-up or the
    handler. */
module HostDelivery {
  import opened HostModel
  import opened HostLocks
  import opened HostLifecycle
  import opened HostInvariant

  // ------------------------------------------------------------------ the hosts in question

  predicate RegistersHandler(f: Frame) { f.Register? ==> DataReady in f.mask }

  /** Every registration made names a serial-out handler. */
  predicate HandlerIn(c: Choice) {
    match c
    case Call(f) => RegistersHandler(f)
    case CallApi(_, f) => RegistersHandler(f)
    case _ => true
  }

  predicate HasHandler(sh: Shared, i: InstId) { i in sh.cbs && DataReady in sh.cbs[i].fns }

  /** start is called with a handler registered. */
  predicate StartsWithHandler(s: State, m: Move) {
    match m.c
    case Call(f) => StartServed(s.sh, f)
    case CallApi(_, f) => StartServed(s.sh, f)
    case _ => true
  }

  predicate StartServed(sh: Shared, f: Frame) { f.StartCall? ==> HasHandler(sh, f.sinst) }

  /** A serial-out handler is running. */
  predicate Handling(fs: Frames) {
    fs.Push? && ((fs.top.Client? && fs.top.kind == DataReady) || Handling(fs.rest))
  }

  predicate HandlingAt(s: State, t: Tid) { t in s.threads && Handling(s.threads[t].frames) }

  /** The move returns from a serial-out handler. */
  predicate HandlerReturns(s: State, m: Move) {
    && m.c == Go && m.t in s.threads
    && var fs := s.threads[m.t].frames;
       fs.Push? && fs.top.Client? && fs.top.kind == DataReady
  }

  /** At some point `j` since the handler that runs in `t` at `k` began, the queue was empty. */
  predicate SawEmpty(states: seq<State>, j: nat, k: nat, t: Tid)
    requires j <= k < |states|
  {
    states[j].sh.serial.rx == [] && forall m | j <= m <= k :: HandlingAt(states[m], t)
  }

  predicate Drained(states: seq<State>, k: nat, t: Tid)
    requires k < |states|
  {
    exists j :: 0 <= j <= k && SawEmpty(states, j, k, t)
  }

  predicate HostMove(states: seq<State>, k: nat, m: Move)
    requires k < |states|
  {
    && HandlerIn(m.c)
    && StartsWithHandler(states[k], m)
    && (HandlerReturns(states[k], m) ==> Drained(states, k, m.t))
  }

  ghost predicate DrainingHost(states: seq<State>, moves: seq<Move>)
    requires |states| == |moves| + 1
  {
    forall k | 0 <= k < |moves| :: HostMove(states, k, moves[k])
  }

  // ------------------------------------------------------------------ handlers stay registered

  predicate MasksOk(fs: Frames) {
    fs.Push? ==> RegistersHandler(fs.top) && MasksOk(fs.rest)
  }

  /** A thread that starts or runs an instance finds a handler registered on it. */
  predicate Served(sh: Shared, st: Stack) {
    && (st.base.Worker? ==> HasHandler(sh, st.base.inst))
    && (st.frames.Push? ==> StartServed(sh, st.frames.top))
  }

  predicate HandlersStay(sh: Shared, sh': Shared) {
    forall i | HasHandler(sh, i) && i in sh'.cbs :: HasHandler(sh', i)
  }

  /** Inside write's critical section, about to leave bytes in the queue. */
  predicate WritesNow(st: Stack) {
    && st.frames.Push? && st.frames.top.Notify? && st.frames.top.npc == NIn
    && st.frames.top.nop.Write? && st.frames.top.nop.data != []
  }

  /** A step keeps handlers registered, and only write's critical section fills an empty queue. */
  predicate Effect(sh: Shared, st: Stack, o: Outcome) {
    o.Next? ==>
      && MasksOk(o.stack.frames)
      && HandlersStay(sh, o.sh)
      && (sh.serial.rx == [] && o.sh.serial.rx != [] ==> WritesNow(st))
  }

  lemma LeafDoes(sh: Shared, t: Tid, b: Base, op: LeafOp, pc: LeafPc, rest: Frames)
    requires MasksOk(rest)
    ensures Effect(sh, Stack(b, Push(Leaf(op, pc), rest)), StepLeaf(sh, t, b, op, pc, rest))
  {
  }

  lemma NotifyDoes(sh: Shared, t: Tid, b: Base, op: NotifyOp, pc: NotifyPc, rest: Frames)
    requires MasksOk(rest)
    ensures Effect(sh, Stack(b, Push(Notify(op, pc), rest)), StepNotify(sh, t, b, op, pc, rest))
  {
  }

  lemma RegisterDoes(sh: Shared, t: Tid, b: Base, i: InstId, mask: set<Slot>, pc: RegisterPc, rest: Frames)
    requires MasksOk(rest) && DataReady in mask
    ensures Effect(sh, Stack(b, Push(Register(i, mask, pc), rest)), StepRegister(sh, t, b, i, mask, pc, rest))
  {
  }

  lemma ClosureDoes(sh: Shared, t: Tid, b: Base, k: Slot, i: InstId, pc: ClosurePc, rest: Frames)
    requires MasksOk(rest)
    ensures Effect(sh, Stack(b, Push(Closure(k, i, pc), rest)), StepClosure(sh, t, b, k, i, pc, rest))
  {
  }

  lemma ClientDoes(sh: Shared, t: Tid, b: Base, k: Slot, i: InstId, fn: nat, ctx: nat, rest: Frames, c: Choice)
    requires MasksOk(rest) && HandlerIn(c)
    ensures Effect(sh, Stack(b, Push(Client(k, i, fn, ctx), rest)),
              StepClient(sh, b, k, i, Push(Client(k, i, fn, ctx), rest), rest, c))
  {
  }

  lemma IdleDoes(sh: Shared, t: Tid, c: Choice)
    requires HandlerIn(c)
    ensures Effect(sh, Stack(Idle, Empty), StepIdle(sh, c)) &&
              Effect(sh, Stack(Idle, Empty), StepBeginDestroy(sh, t, c))
  {
  }

  lemma CreateDoes(sh: Shared, t: Tid, pc: CreatePc)
    requires LifeGlobal(sh)
    ensures Effect(sh, Stack(Create(pc), Empty), StepCreate(sh, t, pc))
  {
    assert sh.core.nextInst !in sh.core.works.Keys;
  }

  lemma StartDoes(sh: Shared, t: Tid, b: Base, i: InstId, pc: StartPc, rest: Frames)
    requires MasksOk(rest)
    ensures Effect(sh, Stack(b, Push(StartCall(i, pc), rest)), StepStart(sh, t, b, i, pc, rest))
  {
  }

  lemma CreateCallDoes(sh: Shared, t: Tid, b: Base, pc: LeafPc, rest: Frames)
    requires MasksOk(rest)
    ensures Effect(sh, Stack(b, Push(CreateCall(pc), rest)), StepCreateCall(sh, t, b, pc, rest))
  {
  }

  lemma DestroyDoes(sh: Shared, t: Tid, i: InstId, pc: DestroyPc)
    ensures Effect(sh, Stack(Destroy(i, pc), Empty), StepDestroy(sh, t, i, pc))
  {
  }

  lemma WorkerDoes(sh: Shared, t: Tid, i: InstId, pc: WorkerPc, c: Choice)
    requires HandlerIn(c)
    ensures Effect(sh, Stack(Worker(i, pc), Empty), StepWorker(sh, t, i, pc, c))
  {
  }

  lemma StepEffect(sh: Shared, t: Tid, st: Stack, c: Choice)
    requires LifeGlobal(sh) && MasksOk(st.frames) && HandlerIn(c)
    ensures Effect(sh, st, Exec(sh, t, st, c))
  {
    if st.frames.Push? { FrameDoes(sh, t, st, c); } else { BaseDoes(sh, t, st.base, c); }
  }

  lemma FrameDoes(sh: Shared, t: Tid, st: Stack, c: Choice)
    requires st.frames.Push? && MasksOk(st.frames) && HandlerIn(c)
    ensures Effect(sh, st, Exec(sh, t, st, c))
  {
    var b, rest := st.base, st.frames.rest;
    assert st == Stack(b, Push(st.frames.top, rest));
    match st.frames.top
    case Leaf(op, pc) => LeafDoes(sh, t, b, op, pc, rest);
    case Notify(op, pc) => NotifyDoes(sh, t, b, op, pc, rest);
    case Register(i, mask, pc) => RegisterDoes(sh, t, b, i, mask, pc, rest);
    case StartCall(i, pc) => StartDoes(sh, t, b, i, pc, rest);
    case CreateCall(pc) => CreateCallDoes(sh, t, b, pc, rest);
    case Closure(k, i, pc) => ClosureDoes(sh, t, b, k, i, pc, rest);
    case Client(k, i, fn, ctx) => ClientDoes(sh, t, b, k, i, fn, ctx, rest, c);
  }

  lemma BaseDoes(sh: Shared, t: Tid, b: Base, c: Choice)
    requires LifeGlobal(sh) && HandlerIn(c)
    ensures Effect(sh, Stack(b, Empty), Exec(sh, t, Stack(b, Empty), c))
  {
    match b
    case Idle => IdleDoes(sh, t, c);
    case InCall(_) =>
    case Create(pc) => CreateDoes(sh, t, pc);
    case Destroy(i, pc) => DestroyDoes(sh, t, i, pc);
    case Worker(i, pc) => WorkerDoes(sh, t, i, pc, c);
    case Gone =>
  }

  /** The thread's next stack is served too, and so is the worker it may spawn. */
  lemma FrameServed(sh: Shared, t: Tid, st: Stack, m: Choice)
    requires st.frames.Push? && Served(sh, st) && CallerBelow(st.frames.rest)
    requires m.Call? ==> StartServed(sh, m.frame)
    ensures var o := Exec(sh, t, st, m);
            o.Next? ==> Served(sh, o.stack) && (o.spawn.Some? ==> HasHandler(sh, o.spawn.value))
  {
    var b, rest := st.base, st.frames.rest;
    if !st.frames.top.StartCall? { FramesKeepCore(sh, t, st, m); }
    match st.frames.top
    case Leaf(op, pc) => assert StepLeaf(sh, t, b, op, pc, rest).Next? ==>
        Served(sh, StepLeaf(sh, t, b, op, pc, rest).stack);
    case Notify(op, pc) => assert StepNotify(sh, t, b, op, pc, rest).Next? ==>
        Served(sh, StepNotify(sh, t, b, op, pc, rest).stack);
    case Register(i, k, pc) => assert StepRegister(sh, t, b, i, k, pc, rest).Next? ==>
        Served(sh, StepRegister(sh, t, b, i, k, pc, rest).stack);
    case StartCall(i, pc) => assert StepStart(sh, t, b, i, pc, rest).Next? ==>
        Served(sh, StepStart(sh, t, b, i, pc, rest).stack);
    case CreateCall(pc) => assert StepCreateCall(sh, t, b, pc, rest).Next? ==>
        Served(sh, StepCreateCall(sh, t, b, pc, rest).stack);
    case Closure(k, i, pc) => assert StepClosure(sh, t, b, k, i, pc, rest).Next? ==>
        Served(sh, StepClosure(sh, t, b, k, i, pc, rest).stack);
    case Client(k, i, _, _) =>
      var o := StepClient(sh, b, k, i, st.frames, rest, m);
      assert o.Next? ==> Served(sh, o.stack);
  }

  lemma BaseServed(sh: Shared, t: Tid, b: Base, c: Choice)
    requires Served(sh, Stack(b, Empty))
    requires c.CallApi? ==> StartServed(sh, c.frame)
    ensures var o := Exec(sh, t, Stack(b, Empty), c); o.Next? ==> Served(sh, o.stack) && o.spawn.None?
  {
    BaseSpawnsNothing(sh, t, b, c);
    match b
    case Idle => assert StepIdle(sh, c).Next? ==> Served(sh, StepIdle(sh, c).stack);
    case InCall(_) =>
    case Create(pc) => assert StepCreate(sh, t, pc).Next? ==> Served(sh, StepCreate(sh, t, pc).stack);
    case Destroy(i, pc) => assert StepDestroy(sh, t, i, pc).Next? ==> Served(sh, StepDestroy(sh, t, i, pc).stack);
    case Worker(i, pc) => assert StepWorker(sh, t, i, pc, c).Next? ==> Served(sh, StepWorker(sh, t, i, pc, c).stack);
    case Gone =>
  }

  // ------------------------------------------------------------------ who may fill the queue

  /** A serial-out handler runs on a worker, and so does write(). */
  lemma {:induction false} HandlingOnWorker(fs: Frames, b: Base, lax: bool)
    requires Shape(fs, b, lax) && Handling(fs)
    ensures b.Worker?
  {
    if fs.top.Client? && fs.top.kind == DataReady {
      assert Shape(fs.rest, b, lax) && Shape(fs.rest.rest, b, lax);
      assert Under(fs.rest.top, fs.rest.rest, b, lax);
      assert Under(fs.rest.rest.top, fs.rest.rest.rest, b, lax);
    } else {
      HandlingOnWorker(fs.rest, b, lax);
    }
  }

  lemma WriterAlone(s: State, u: Tid, t: Tid)
    requires Inv(s) && u in s.threads && WritesNow(s.threads[u])
    ensures !HandlingAt(s, t)
  {
    assert ThreadOk(u, s.threads[u], s.sh);
    assert Under(s.threads[u].frames.top, s.threads[u].frames.rest, s.threads[u].base, s.sh.lax);
    assert s.threads[u].base.Worker? && !Handling(s.threads[u].frames.rest);
    if t in s.threads && t != u {
      assert ThreadOk(t, s.threads[t], s.sh);
      assert !s.threads[t].base.Worker?;
      if Handling(s.threads[t].frames) { HandlingOnWorker(s.threads[t].frames, s.threads[t].base, s.sh.lax); }
    }
  }

  lemma EmptyStep(s: State, s': State, m: Move, t: Tid)
    requires Inv(s) && Step(s, s', m.t, m.c) && MasksOk(s.threads[m.t].frames) && HandlerIn(m.c)
    requires s.sh.serial.rx == [] && HandlingAt(s, t)
    ensures s'.sh.serial.rx == []
  {
    StepEffect(s.sh, m.t, s.threads[m.t], m.c);
    assert !WritesNow(s.threads[m.t]) by {
      if WritesNow(s.threads[m.t]) { WriterAlone(s, m.t, t); }
    }
  }

  // ------------------------------------------------------------------ the invariant

  /** Between the end of write's critical section and the return of the handler it wakes. */
  predicate Delivering(fs: Frames) {
    || Handling(fs)
    || (&& fs.Push? && fs.top.Notify? && fs.top.nop.Write? && fs.top.npc.NFire? && fs.top.npc.target.Some?)
    || (fs.Push? && fs.top.Closure? && fs.top.ckind == DataReady && (fs.top.cpc == CWant || fs.top.cpc == CIn))
  }

  predicate SomeDelivering(s: State) {
    exists t | t in s.threads :: Delivering(s.threads[t].frames)
  }

  ghost predicate Ready(s: State) {
    && (forall t | t in s.threads :: MasksOk(s.threads[t].frames) && Served(s.sh, s.threads[t]))
    && (s.sh.serial.rx != [] ==> SomeDelivering(s))
  }

  /** A step at the top of a handler's stack leaves the handler where it is. */
  lemma HandlingKept(sh: Shared, t: Tid, st: Stack, c: Choice)
    requires st.frames.Push? && Handling(st.frames)
    requires !(c == Go && st.frames.top.Client? && st.frames.top.kind == DataReady)
    ensures var o := Exec(sh, t, st, c); o.Next? ==> Handling(o.stack.frames)
  {
    var b, rest := st.base, st.frames.rest;
    match st.frames.top
    case Leaf(op, pc) => assert StepLeaf(sh, t, b, op, pc, rest).Next? ==>
        Handling(StepLeaf(sh, t, b, op, pc, rest).stack.frames);
    case Notify(op, pc) => assert StepNotify(sh, t, b, op, pc, rest).Next? ==>
        Handling(StepNotify(sh, t, b, op, pc, rest).stack.frames);
    case StartCall(i, pc) => assert StepStart(sh, t, b, i, pc, rest).Next? ==>
        Handling(StepStart(sh, t, b, i, pc, rest).stack.frames);
    case CreateCall(pc) =>
      assert StepCreateCall(sh, t, b, pc, rest).Next? ==> Handling(StepCreateCall(sh, t, b, pc, rest).stack.frames);
    case Register(i, m, pc) => assert StepRegister(sh, t, b, i, m, pc, rest).Next? ==>
        Handling(StepRegister(sh, t, b, i, m, pc, rest).stack.frames);
    case Closure(k, i, pc) => assert StepClosure(sh, t, b, k, i, pc, rest).Next? ==>
        Handling(StepClosure(sh, t, b, k, i, pc, rest).stack.frames);
    case Client(k, i, _, _) => assert StepClient(sh, b, k, i, st.frames, rest, c).Next? ==>
        Handling(StepClient(sh, b, k, i, st.frames, rest, c).stack.frames);
  }

  /** A step of a delivering thread, other than the handler's return, goes on delivering. */
  lemma DeliveringKept(sh: Shared, t: Tid, st: Stack, c: Choice)
    requires SharedOk(sh) && ThreadOk(t, st, sh) && Served(sh, st) && Delivering(st.frames)
    requires !(c == Go && st.frames.top.Client? && st.frames.top.kind == DataReady)
    ensures var o := Exec(sh, t, st, c); o.Next? ==> Delivering(o.stack.frames)
  {
    if Handling(st.frames) {
      HandlingKept(sh, t, st, c);
    } else {
      var b, rest := st.base, st.frames.rest;
      match st.frames.top
      case Notify(op, pc) => assert StepNotify(sh, t, b, op, pc, rest).stack.frames.top.Closure?;
      case Closure(k, i, pc) => ClosureDelivers(sh, t, b, i, pc, rest);
    }
  }

  lemma ClosureDelivers(sh: Shared, t: Tid, b: Base, i: InstId, pc: ClosurePc, rest: Frames)
    requires SharedOk(sh) && ThreadOk(t, Stack(b, Push(Closure(DataReady, i, pc), rest)), sh)
    requires b.Worker? ==> HasHandler(sh, b.inst)
    requires pc == CWant || pc == CIn
    ensures var o := StepClosure(sh, t, b, DataReady, i, pc, rest); o.Next? ==> Delivering(o.stack.frames)
  {
    assert Under(Closure(DataReady, i, pc), rest, b, sh.lax);
    assert Shape(rest, b, sh.lax) && Under(rest.top, rest.rest, b, sh.lax);
    assert b.Worker? && i == b.inst;
  }

  /** write's critical section, leaving bytes, ends in calling the wake-up. */
  lemma WriteDelivers(sh: Shared, t: Tid, st: Stack, c: Choice)
    requires SharedOk(sh) && ThreadOk(t, st, sh) && WritesNow(st)
    ensures var o := Exec(sh, t, st, c); o.Next? ==> Delivering(o.stack.frames)
  {
    assert Under(st.frames.top, st.frames.rest, st.base, sh.lax);
    assert st.base.Worker?;
    assert SlotSet(sh.core.life, DataReady);
    var o := StepNotify(sh, t, st.base, st.frames.top.nop, NIn, st.frames.rest);
    assert o.stack.frames.top.npc.target.Some?;
  }

  lemma ThreadMasks(s: State, s': State, m: Move, t: Tid)
    requires Inv(s) && Ready(s) && Step(s, s', m.t, m.c) && t in s'.threads && HandlerIn(m.c)
    ensures MasksOk(s'.threads[t].frames) && HandlersStay(s.sh, s'.sh)
  {
    StepEffect(s.sh, m.t, s.threads[m.t], m.c);
  }

  lemma ThreadServed(s: State, s': State, m: Move, t: Tid)
    requires Inv(s) && Ready(s) && Step(s, s', m.t, m.c) && t in s'.threads && StartsWithHandler(s, m)
    ensures Served(s.sh, s'.threads[t])
  {
    var st := s.threads[m.t];
    assert ThreadOk(m.t, st, s.sh);
    if st.frames.Push? {
      assert Under(st.frames.top, st.frames.rest, st.base, s.sh.lax);
      FrameServed(s.sh, m.t, st, m.c);
    } else {
      BaseServed(s.sh, m.t, st.base, m.c);
    }
  }

  /** The instances a thread is served on are still allocated, and so still have their handler. */
  lemma StillServed(s: State, s': State, t: Tid)
    requires Inv(s') && t in s'.threads && HandlersStay(s.sh, s'.sh) && Served(s.sh, s'.threads[t])
    ensures Served(s'.sh, s'.threads[t])
  {
    var st := s'.threads[t];
    assert ThreadOk(t, st, s'.sh);
    assert forall i :: i in s'.sh.core.works <==> i in s'.sh.cbs.Keys;
    if st.frames.Push? { assert RefersTo(st.frames.top, st.base.inst); HomeAllocated(s'.sh, t, st); }
  }

  lemma QueueServed(s: State, s': State, m: Move)
    requires Inv(s) && Ready(s) && Step(s, s', m.t, m.c)
    requires HandlerIn(m.c) && (HandlerReturns(s, m) ==> s.sh.serial.rx == [])
    ensures s'.sh.serial.rx != [] ==> SomeDelivering(s')
  {
    var st := s.threads[m.t];
    assert ThreadOk(m.t, st, s.sh);
    if s'.sh.serial.rx != [] {
      if s.sh.serial.rx == [] {
        StepEffect(s.sh, m.t, st, m.c);
        WriteDelivers(s.sh, m.t, st, m.c);
        assert Delivering(s'.threads[m.t].frames);
      } else {
        var t :| t in s.threads && Delivering(s.threads[t].frames);
        if t == m.t { DeliveringKept(s.sh, t, st, m.c); }
        assert t < s.sh.nextTid;
        assert Delivering(s'.threads[t].frames);
      }
    }
  }

  lemma ReadyStep(s: State, s': State, m: Move)
    requires Inv(s) && Ready(s) && Step(s, s', m.t, m.c) && Inv(s')
    requires HandlerIn(m.c) && StartsWithHandler(s, m) && (HandlerReturns(s, m) ==> s.sh.serial.rx == [])
    ensures Ready(s')
  {
    forall t | t in s'.threads ensures MasksOk(s'.threads[t].frames) && Served(s'.sh, s'.threads[t]) {
      ThreadMasks(s, s', m, t);
      ThreadServed(s, s', m, t);
      StillServed(s, s', t);
    }
    QueueServed(s, s', m);
  }

  /** What a running handler has once seen is still true: the queue is empty. */
  ghost predicate SeenHolds(states: seq<State>, k: nat)
    requires k < |states|
  {
    forall t | Drained(states, k, t) :: states[k].sh.serial.rx == []
  }

  lemma DrainedBefore(states: seq<State>, k: nat, t: Tid)
    requires k + 1 < |states| && Drained(states, k + 1, t)
    ensures states[k + 1].sh.serial.rx == [] || (Drained(states, k, t) && HandlingAt(states[k], t))
  {
    var j :| 0 <= j <= k + 1 && SawEmpty(states, j, k + 1, t);
    if j <= k { assert SawEmpty(states, j, k, t); }
  }

  lemma SeenStep(states: seq<State>, k: nat, m: Move)
    requires k + 1 < |states| && SeenHolds(states, k)
    requires Inv(states[k]) && Ready(states[k]) && Step(states[k], states[k + 1], m.t, m.c) && HandlerIn(m.c)
    ensures SeenHolds(states, k + 1)
  {
    var n := k + 1;
    forall t | Drained(states, n, t) ensures states[n].sh.serial.rx == [] {
      DrainedBefore(states, k, t);
      if states[n].sh.serial.rx != [] { EmptyStep(states[k], states[n], m, t); }
    }
  }

  lemma {:induction false} AlwaysReady(states: seq<State>, moves: seq<Move>, k: nat)
    requires IsRun(states, moves) && DrainingHost(states, moves) && k < |states|
    requires states[0].sh.serial.rx == []
    ensures Ready(states[k]) && SeenHolds(states, k)
  {
    if k > 0 {
      AlwaysReady(states, moves, k - 1);
      Invariant(states, moves, k - 1);
      Invariant(states, moves, k);
      assert StepAt(states, moves, k - 1);
      assert HostMove(states, k - 1, moves[k - 1]);
      SeenStep(states, k - 1, moves[k - 1]);
      ReadyStep(states[k - 1], states[k], moves[k - 1]);
    }
  }

  /** For such hosts, in every state of every run that starts with an empty queue: bytes in the queue
      mean that some worker is past write's critical section and its handler has not yet returned. */
  lemma NoLostWakeup(states: seq<State>, moves: seq<Move>, k: nat)
    requires IsRun(states, moves) && DrainingHost(states, moves) && k < |states|
    requires states[0].sh.serial.rx == []
    ensures states[k].sh.serial.rx != [] ==> SomeDelivering(states[k])
  {
    AlwaysReady(states, moves, k);
  }
}
