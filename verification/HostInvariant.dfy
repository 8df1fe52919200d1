/** The whole invariant of the host protocol, and its proof over every interleaving. */
module HostInvariant {
  import opened Prelude
  import opened HostModel
  import opened HostLocks
  import opened HostLifecycle
  import opened HostCallbacks
  import opened HostWorker

  ghost predicate SharedOk(sh: Shared) {
    LifeGlobal(sh) && UniformUnlessHeld(sh) && WorkGlobal(sh.core)
  }

  ghost predicate ThreadOk(u: Tid, st: Stack, sh: Shared) {
    LocksOk(u, st, sh) && LifeLocal(u, st, sh.core) && CbLocal(st, sh.cbs) && WorkLocal(st, sh.core)
  }

  /** What a step of `t` may change in what the other threads see. */
  ghost predicate Moves(sh: Shared, sh': Shared, t: Tid) {
    OthersOwn(sh, sh', t) && CoreMove(sh.core, sh'.core, t) && CbMove(sh, sh', t) && WorkMove(sh.core, sh'.core, t)
  }

  ghost predicate AllGood(sh: Shared, t: Tid, o: Outcome) {
    LocksGood(sh, t, o) && LifeGood(sh, t, o) && CbGood(sh, t, o) && WorkGood(sh, t, o)
  }

  /** An unfinished worker's thread exists and is running that worker. */
  predicate WorkersPresent(s: State) {
    forall i | i in s.sh.core.works && s.sh.core.works[i].worker.Some? && !s.sh.core.works[i].finished ::
      var w := s.sh.core.works[i].worker.value;
      w in s.threads && s.threads[w].base.Worker? && s.threads[w].base.inst == i
  }

  ghost predicate Inv(s: State) {
    && SharedOk(s.sh)
    && (forall u | u in s.threads :: u < s.sh.nextTid && ThreadOk(u, s.threads[u], s.sh))
    && (forall l | l in s.sh.owner :: s.sh.owner[l] in s.threads)
    && WorkersPresent(s)
  }

  // ------------------------------------------------------------------ one step of one thread

  predicate KeepsCore(sh: Shared, b: Base, o: Outcome) {
    o.Next? ==> o.sh.core == sh.core && o.stack.base == b && o.spawn.None? && o.sh.nextTid == sh.nextTid
  }

  lemma LeafKeepsCore(sh: Shared, t: Tid, b: Base, op: LeafOp, pc: LeafPc, rest: Frames)
    ensures KeepsCore(sh, b, StepLeaf(sh, t, b, op, pc, rest))
  {
  }

  lemma NotifyKeepsCore(sh: Shared, t: Tid, b: Base, op: NotifyOp, pc: NotifyPc, rest: Frames)
    ensures KeepsCore(sh, b, StepNotify(sh, t, b, op, pc, rest))
  {
  }

  lemma FramesKeepCore(sh: Shared, t: Tid, st: Stack, c: Choice)
    requires st.frames.Push? && !st.frames.top.StartCall?
    ensures KeepsCore(sh, st.base, Exec(sh, t, st, c))
  {
    var b, rest := st.base, st.frames.rest;
    match st.frames.top
    case Leaf(op, pc) => LeafKeepsCore(sh, t, b, op, pc, rest);
    case Notify(op, pc) => NotifyKeepsCore(sh, t, b, op, pc, rest);
    case Register(i, m, pc) => assert KeepsCore(sh, b, StepRegister(sh, t, b, i, m, pc, rest));
    case CreateCall(pc) => assert KeepsCore(sh, b, StepCreateCall(sh, t, b, pc, rest));
    case Closure(k, i, pc) => assert KeepsCore(sh, b, StepClosure(sh, t, b, k, i, pc, rest));
    case Client(k, i, f, x) => assert KeepsCore(sh, b, StepClient(sh, b, k, i, st.frames, rest, c));
  }

  lemma StartGood(sh: Shared, t: Tid, b: Base, i: InstId, pc: StartPc, rest: Frames)
    requires SharedOk(sh) && ThreadOk(t, Stack(b, Push(StartCall(i, pc), rest)), sh)
    ensures AllGood(sh, t, StepStart(sh, t, b, i, pc, rest))
  {
    assert Under(StartCall(i, pc), rest, b, sh.lax) && CallerBelow(rest);
    StartLocks(sh, t, b, i, pc, rest);
    StartLife(sh, t, b, i, pc, rest);
    StartCb(sh, t, b, i, pc, rest);
    StartWork(sh, t, b, i, pc, rest);
  }

  lemma CreateCallGood(sh: Shared, t: Tid, b: Base, pc: LeafPc, rest: Frames)
    requires SharedOk(sh) && ThreadOk(t, Stack(b, Push(CreateCall(pc), rest)), sh)
    ensures AllGood(sh, t, StepCreateCall(sh, t, b, pc, rest))
  {
    assert Under(CreateCall(pc), rest, b, sh.lax) && CallerBelow(rest);
    CreateCallLocks(sh, t, b, pc, rest);
    CreateCallLife(sh, t, b, pc, rest);
    CreateCallCb(sh, t, b, pc, rest);
    Home(sh, t, Stack(b, Push(CreateCall(pc), rest)));
    CreateCallStays(sh, t, b, pc, rest);
    StaysWork(sh, t, Stack(b, Push(CreateCall(pc), rest)), StepCreateCall(sh, t, b, pc, rest));
  }

  /** The activations that leave the core alone. */
  lemma FrameStays(sh: Shared, t: Tid, st: Stack, c: Choice)
    requires LifeGlobal(sh) && LifeLocal(t, st, sh.core) && st.frames.Push? && CallerBelow(st.frames.rest)
    requires !st.frames.top.StartCall? && !st.frames.top.CreateCall?
    ensures Stays(sh, st.base, Exec(sh, t, st, c))
  {
    var b, rest := st.base, st.frames.rest;
    Home(sh, t, st);
    assert st == Stack(b, Push(st.frames.top, rest));
    match st.frames.top
    case Leaf(op, pc) => LeafStays(sh, t, b, op, pc, rest);
    case Notify(op, pc) => NotifyStays(sh, t, b, op, pc, rest);
    case Register(i, m, pc) => RegisterStays(sh, t, b, i, m, pc, rest);
    case Closure(k, i, pc) => ClosureStays(sh, t, b, k, i, pc, rest);
    case Client(k, i, f, x) => ClientStays(sh, t, b, k, i, f, x, rest, c);
  }

  /** Their layers about mutexes and registrations. */
  lemma FrameLocksCb(sh: Shared, t: Tid, st: Stack, c: Choice)
    requires SharedOk(sh) && ThreadOk(t, st, sh) && st.frames.Push?
    requires !st.frames.top.StartCall? && !st.frames.top.CreateCall?
    ensures LocksGood(sh, t, Exec(sh, t, st, c)) && CbGood(sh, t, Exec(sh, t, st, c))
  {
    var b, rest := st.base, st.frames.rest;
    HomeAllocated(sh, t, st);
    assert Under(st.frames.top, rest, b, sh.lax);
    assert st == Stack(b, Push(st.frames.top, rest));
    match st.frames.top
    case Leaf(op, pc) => LeafLocks(sh, t, b, op, pc, rest); LeafCb(sh, t, b, op, pc, rest);
    case Notify(op, pc) => NotifyLocks(sh, t, b, op, pc, rest); NotifyCb(sh, t, b, op, pc, rest);
    case Register(i, m, pc) => RegisterLocks(sh, t, b, i, m, pc, rest); RegisterCb(sh, t, b, i, m, pc, rest);
    case Closure(k, i, pc) => ClosureLocks(sh, t, b, k, i, pc, rest); ClosureCb(sh, t, b, k, i, pc, rest);
    case Client(k, i, f, x) => ClientLocks(sh, t, b, k, i, f, x, rest, c); ClientCb(sh, t, b, k, i, f, x, rest, c);
  }

  /** A step that leaves the core alone keeps the worker layer. */
  lemma StaysWork(sh: Shared, t: Tid, st: Stack, o: Outcome)
    requires (st.base.InCall? || st.base.Worker?) && Stays(sh, st.base, o)
    requires WorkGlobal(sh.core) && WorkLocal(st, sh.core)
    ensures WorkGood(sh, t, o)
  {
    WorkKept(sh.core, t);
  }

  lemma FrameGood(sh: Shared, t: Tid, st: Stack, c: Choice)
    requires SharedOk(sh) && ThreadOk(t, st, sh) && st.frames.Push?
    ensures AllGood(sh, t, Exec(sh, t, st, c))
  {
    var b, rest := st.base, st.frames.rest;
    assert st == Stack(b, Push(st.frames.top, rest));
    match st.frames.top
    case StartCall(i, pc) => StartGood(sh, t, b, i, pc, rest);
    case CreateCall(pc) => CreateCallGood(sh, t, b, pc, rest);
    case _ =>
      assert Under(st.frames.top, rest, b, sh.lax);
      FrameStays(sh, t, st, c);
      FramesLife(sh, t, st, Exec(sh, t, st, c));
      StaysWork(sh, t, st, Exec(sh, t, st, c));
      FrameLocksCb(sh, t, st, c);
  }

  lemma BaseGood(sh: Shared, t: Tid, b: Base, c: Choice)
    requires SharedOk(sh) && ThreadOk(t, Stack(b, Empty), sh)
    ensures AllGood(sh, t, Exec(sh, t, Stack(b, Empty), c))
  {
    match b
    case Idle => IdleLocks(sh, t, c); IdleLife(sh, t, c); IdleCb(sh, t, c); IdleWork(sh, t, c);
    case InCall(i) => ReturnGood(sh, t, i);
    case Create(pc) => CreateLocks(sh, t, pc); CreateLife(sh, t, pc); CreateCb(sh, t, pc); CreateWork(sh, t, pc);
    case Destroy(i, pc) =>
      DestroyLocks(sh, t, i, pc); DestroyLife(sh, t, i, pc); DestroyCb(sh, t, i, pc); DestroyWork(sh, t, i, pc);
    case Worker(i, pc) =>
      WorkerLocks(sh, t, i, pc, c); WorkerLife(sh, t, i, pc, c); WorkerCb(sh, t, i, pc, c); WorkerWork(sh, t, i, pc, c);
    case Gone =>
  }

  lemma ReturnGood(sh: Shared, t: Tid, i: InstId)
    requires SharedOk(sh) && ThreadOk(t, Stack(InCall(i), Empty), sh)
    ensures AllGood(sh, t, To(sh, Idle, Empty))
  {
    BaseLocks(sh, t, InCall(i), To(sh, Idle, Empty));
    CoreKept(sh.core, t);
    CbKept(Keep, sh, t, To(sh, Idle, Empty));
    WorkKept(sh.core, t);
  }

  lemma ExecGood(sh: Shared, t: Tid, st: Stack, c: Choice)
    requires SharedOk(sh) && ThreadOk(t, st, sh)
    ensures AllGood(sh, t, Exec(sh, t, st, c))
  {
    if st.frames.Push? { FrameGood(sh, t, st, c); } else { BaseGood(sh, t, st.base, c); }
  }

  // ------------------------------------------------------------------ the other threads

  lemma OtherStable(u: Tid, st: Stack, sh: Shared, sh': Shared, t: Tid)
    requires u != t
    requires SharedOk(sh) && SharedOk(sh') && ThreadOk(u, st, sh) && Moves(sh, sh', t)
    requires sh'.core.life.Leaving? && sh.core.life.Live? ==> st.base != InCall(sh.core.life.inst)
    ensures ThreadOk(u, st, sh')
  {
    assert OwnsExactly(u, st, sh');
    LifeStable(u, st, sh.core, sh'.core, t);
    if st.frames.Push? {
      HomeAllocated(sh, u, st);
      HomeAllocated(sh', u, st);
    }
    CbStable(u, st, sh, sh', t);
    WorkStable(u, st, sh.core, sh'.core, t);
  }

  /** Where the unfinished workers of the next state come from. */
  ghost predicate WorkersTracked(sh: Shared, t: Tid, b: Base, o: Outcome) {
    o.Next? ==>
      && (o.spawn.Some? ==> o.sh.nextTid == sh.nextTid + 1)
      && (o.spawn.None? ==> o.sh.nextTid == sh.nextTid)
      && forall i | i in o.sh.core.works && o.sh.core.works[i].worker.Some? && !o.sh.core.works[i].finished ::
           || (o.spawn == Some(i) && o.sh.core.works[i].worker == Some(sh.nextTid))
           || (&& i in sh.core.works && sh.core.works[i].worker == o.sh.core.works[i].worker
               && !sh.core.works[i].finished
               && (b.Worker? && b.inst == i ==> o.stack.base.Worker? && o.stack.base.inst == i))
  }

  /** Only the spawning step of a start adds a thread; only a host begins a destroy. */
  ghost predicate BaseFacts(sh: Shared, t: Tid, b: Base, c: Choice, o: Outcome) {
    && WorkersTracked(sh, t, b, o)
    && (o.Next? && sh.core.life.Live? && o.sh.core.life.Leaving? ==>
        b.Idle? && c.CallDestroy? && c.inst == sh.core.life.inst)
  }

  lemma IdleFacts(sh: Shared, t: Tid, c: Choice)
    ensures BaseFacts(sh, t, Idle, c, StepIdle(sh, c)) && BaseFacts(sh, t, Idle, c, StepBeginDestroy(sh, t, c))
  {
  }

  lemma CreateFacts(sh: Shared, t: Tid, pc: CreatePc, c: Choice)
    ensures BaseFacts(sh, t, Create(pc), c, StepCreate(sh, t, pc))
  {
  }

  lemma StartFacts(sh: Shared, t: Tid, b: Base, i: InstId, pc: StartPc, rest: Frames, c: Choice)
    ensures BaseFacts(sh, t, b, c, StepStart(sh, t, b, i, pc, rest))
  {
    var o := StepStart(sh, t, b, i, pc, rest);
    if o.Next? {
      StartWorkers(sh, t, b, i, pc, rest);
      if pc == StSpawn { SpawnFacts(sh, t, b, c, i, o); } else { SameFacts(sh, t, b, c, o); }
    }
  }

  /** start leaves the worker threads of all instances alone until it spawns its own. */
  lemma StartWorkers(sh: Shared, t: Tid, b: Base, i: InstId, pc: StartPc, rest: Frames)
    ensures var o := StepStart(sh, t, b, i, pc, rest);
            o.Next? ==>
              && o.stack.base == b && o.sh.core.life == sh.core.life
              && o.sh.core.works.Keys == sh.core.works.Keys && i in sh.core.works
              && (forall j | j in sh.core.works && (j != i || pc != StSpawn) ::
                    && o.sh.core.works[j].worker == sh.core.works[j].worker
                    && o.sh.core.works[j].finished == sh.core.works[j].finished)
              && (if pc == StSpawn
                  then && o.spawn == Some(i) && o.sh.core.works[i].worker == Some(sh.nextTid)
                       && o.sh.nextTid == sh.nextTid + 1
                  else o.spawn.None? && o.sh.nextTid == sh.nextTid)
  {
  }

  lemma SpawnFacts(sh: Shared, t: Tid, b: Base, c: Choice, i: InstId, o: Outcome)
    requires o.Next? && o.spawn == Some(i) && o.sh.nextTid == sh.nextTid + 1
    requires o.stack.base == b && o.sh.core.life == sh.core.life && o.sh.core.works.Keys == sh.core.works.Keys
    requires i in o.sh.core.works && o.sh.core.works[i].worker == Some(sh.nextTid)
    requires forall j | j in sh.core.works && j != i ::
               && o.sh.core.works[j].worker == sh.core.works[j].worker
               && o.sh.core.works[j].finished == sh.core.works[j].finished
    ensures BaseFacts(sh, t, b, c, o)
  {
  }

  lemma SameFacts(sh: Shared, t: Tid, b: Base, c: Choice, o: Outcome)
    requires o.Next? && o.spawn.None? && o.sh.nextTid == sh.nextTid
    requires o.stack.base == b && o.sh.core.life == sh.core.life && o.sh.core.works.Keys == sh.core.works.Keys
    requires forall j | j in sh.core.works ::
               && o.sh.core.works[j].worker == sh.core.works[j].worker
               && o.sh.core.works[j].finished == sh.core.works[j].finished
    ensures BaseFacts(sh, t, b, c, o)
  {
  }

  lemma DestroyFacts(sh: Shared, t: Tid, i: InstId, pc: DestroyPc, c: Choice)
    ensures BaseFacts(sh, t, Destroy(i, pc), c, StepDestroy(sh, t, i, pc))
  {
  }

  lemma WorkerFacts(sh: Shared, t: Tid, i: InstId, pc: WorkerPc, c: Choice)
    ensures BaseFacts(sh, t, Worker(i, pc), c, StepWorker(sh, t, i, pc, c))
  {
  }

  lemma ExecFacts(sh: Shared, t: Tid, st: Stack, c: Choice)
    requires LifeLocal(t, st, sh.core)
    ensures BaseFacts(sh, t, st.base, c, Exec(sh, t, st, c))
  {
    if st.frames.Push? {
      if st.frames.top.StartCall? {
        StartFacts(sh, t, st.base, st.frames.top.sinst, st.frames.top.spc, st.frames.rest, c);
      } else {
        FramesKeepCore(sh, t, st, c);
      }
    } else {
      match st.base
      case Idle => IdleFacts(sh, t, c);
      case InCall(_) =>
      case Create(pc) => CreateFacts(sh, t, pc, c);
      case Destroy(i, pc) => DestroyFacts(sh, t, i, pc, c);
      case Worker(i, pc) => WorkerFacts(sh, t, i, pc, c);
      case Gone =>
    }
  }

  // ------------------------------------------------------------------ preservation and runs

  /** The thread a successful start spawns begins as the worker of its instance, holding nothing. */
  lemma SpawnedOk(sh: Shared, t: Tid, b: Base, i: InstId, rest: Frames)
    requires SharedOk(sh) && ThreadOk(t, Stack(b, Push(StartCall(i, StSpawn), rest)), sh)
    requires forall l :: !Owns(sh, l, sh.nextTid)
    ensures ThreadOk(sh.nextTid, Stack(Worker(i, WBegin), Empty), StepStart(sh, t, b, i, StSpawn, rest).sh)
  {
    var sh' := StepStart(sh, t, b, i, StSpawn, rest).sh;
    SpawnedLocks(sh, sh', i);
    SpawnedWork(sh, t, b, i, rest);
  }

  lemma SpawnedLocks(sh: Shared, sh': Shared, i: InstId)
    requires sh'.owner == sh.owner && forall l :: !Owns(sh, l, sh.nextTid)
    ensures LocksOk(sh.nextTid, Stack(Worker(i, WBegin), Empty), sh')
  {
    assert Held(Stack(Worker(i, WBegin), Empty)) == {};
    assert forall l :: Owns(sh', l, sh.nextTid) ==> Owns(sh, l, sh.nextTid);
  }

  lemma SpawnedWork(sh: Shared, t: Tid, b: Base, i: InstId, rest: Frames)
    requires SharedOk(sh) && ThreadOk(t, Stack(b, Push(StartCall(i, StSpawn), rest)), sh)
    ensures var sh', st := StepStart(sh, t, b, i, StSpawn, rest).sh, Stack(Worker(i, WBegin), Empty);
            && LifeLocal(sh.nextTid, st, sh'.core) && WorkLocal(st, sh'.core)
            && sh'.owner == sh.owner && CbLocal(st, sh'.cbs)
  {
    assert i in sh.core.works && CountsOk(sh.core.works[i]) && IdentityOk(sh.core.works[i]);
  }

  lemma OthersOk(s: State, s': State, t: Tid, c: Choice, u: Tid)
    requires Inv(s) && Step(s, s', t, c) && u in s.threads && u != t
    requires SharedOk(s'.sh) && Moves(s.sh, s'.sh, t)
    ensures ThreadOk(u, s.threads[u], s'.sh)
  {
    ExecFacts(s.sh, t, s.threads[t], c);
    OtherStable(u, s.threads[u], s.sh, s'.sh, t);
  }

  lemma SpawnOk(s: State, t: Tid, c: Choice)
    requires Inv(s) && t in s.threads
    ensures var o := Exec(s.sh, t, s.threads[t], c);
            o.Next? && o.spawn.Some? ==> ThreadOk(s.sh.nextTid, Stack(Worker(o.spawn.value, WBegin), Empty), o.sh)
  {
    var o := Exec(s.sh, t, s.threads[t], c);
    if o.Next? && o.spawn.Some? {
      OnlyStartSpawns(s.sh, t, s.threads[t], c);
      var st := s.threads[t];
      assert st == Stack(st.base, Push(StartCall(o.spawn.value, StSpawn), st.frames.rest));
      SpawnedOk(s.sh, t, st.base, o.spawn.value, st.frames.rest);
    }
  }

  lemma OnlyStartSpawns(sh: Shared, t: Tid, st: Stack, c: Choice)
    ensures var o := Exec(sh, t, st, c);
            o.Next? && o.spawn.Some? ==> st.frames.Push? && st.frames.top == StartCall(o.spawn.value, StSpawn)
  {
    if st.frames.Push? {
      if !st.frames.top.StartCall? { FramesKeepCore(sh, t, st, c); }
    } else {
      BaseSpawnsNothing(sh, t, st.base, c);
    }
  }

  lemma BaseSpawnsNothing(sh: Shared, t: Tid, b: Base, c: Choice)
    ensures var o := Exec(sh, t, Stack(b, Empty), c); o.Next? ==> o.spawn.None?
  {
    match b
    case Create(pc) => assert StepCreate(sh, t, pc).Next? ==> StepCreate(sh, t, pc).spawn.None?;
    case Destroy(i, pc) => assert StepDestroy(sh, t, i, pc).Next? ==> StepDestroy(sh, t, i, pc).spawn.None?;
    case Worker(i, pc) => assert StepWorker(sh, t, i, pc, c).Next? ==> StepWorker(sh, t, i, pc, c).spawn.None?;
    case _ =>
  }

  lemma ThreadsOk(s: State, s': State, t: Tid, c: Choice)
    requires Inv(s) && Step(s, s', t, c)
    ensures forall u | u in s'.threads :: u < s'.sh.nextTid && ThreadOk(u, s'.threads[u], s'.sh)
  {
    ExecGood(s.sh, t, s.threads[t], c);
    ExecFacts(s.sh, t, s.threads[t], c);
    SpawnOk(s, t, c);
    forall u | u in s'.threads ensures u < s'.sh.nextTid && ThreadOk(u, s'.threads[u], s'.sh) {
      if u != t && u in s.threads { OthersOk(s, s', t, c, u); }
    }
  }

  lemma WorkersStay(s: State, s': State, t: Tid, c: Choice)
    requires WorkersPresent(s) && Step(s, s', t, c) && s.sh.nextTid !in s.threads
    requires WorkersTracked(s.sh, t, s.threads[t].base, Exec(s.sh, t, s.threads[t], c))
    ensures WorkersPresent(s')
  {
  }

  lemma Preserved(s: State, s': State, t: Tid, c: Choice)
    requires Inv(s) && Step(s, s', t, c)
    ensures Inv(s')
  {
    ExecGood(s.sh, t, s.threads[t], c);
    ExecFacts(s.sh, t, s.threads[t], c);
    ThreadsOk(s, s', t, c);
    WorkersStay(s, s', t, c);
    OwnersPresent(s, s', t, c);
  }

  lemma OwnersPresent(s: State, s': State, t: Tid, c: Choice)
    requires forall l | l in s.sh.owner :: s.sh.owner[l] in s.threads
    requires Step(s, s', t, c) && OthersOwn(s.sh, s'.sh, t)
    ensures forall l | l in s'.sh.owner :: s'.sh.owner[l] in s'.threads
  {
    forall l | l in s'.sh.owner ensures s'.sh.owner[l] in s'.threads {
      var u := s'.sh.owner[l];
      assert Owns(s'.sh, l, u);
      assert u != t ==> Owns(s.sh, l, u);
    }
  }

  lemma Initially(s: State)
    requires Init(s)
    ensures Inv(s)
  {
  }

  /** The invariant holds in every state of every execution. */
  lemma {:induction false} Invariant(states: seq<State>, moves: seq<Move>, k: nat)
    requires IsRun(states, moves) && k < |states|
    ensures Inv(states[k])
  {
    if k == 0 {
      Initially(states[0]);
    } else {
      Invariant(states, moves, k - 1);
      assert StepAt(states, moves, k - 1);
      Preserved(states[k - 1], states[k], moves[k - 1].t, moves[k - 1].c);
    }
  }
}
