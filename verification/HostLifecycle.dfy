/** The lifecycle layer of the host protocol: where the singleton stands, which slots are set,
    which instances are allocated, and why nothing ever refers to one that is not. */
module HostLifecycle {
  import opened Prelude
  import opened HostModel
  import opened HostLocks

  function InstallIndex(x: Slot): nat {
    match x case DataReady => 0 case Signal => 1 case LineConfig => 2 case Sink => 3
  }
  function ClearIndex(x: Slot): nat {
    match x case DataReady => 0 case LineConfig => 1 case Signal => 2 case Sink => 3
  }

  /** Which slots are non-null at each point of the singleton's life. */
  predicate SlotSet(life: Life, x: Slot) {
    match life
    case Vacant => false
    case Creating(_, _, k) => InstallIndex(x) < k
    case Live(_) => true
    case Leaving(_, _) => true
    case Closing(_, _, k) => ClearIndex(x) >= k
  }

  ghost predicate SlotsMatch(life: Life, slots: map<Slot, InstId>) {
    forall x: Slot :: (x in slots <==> SlotSet(life, x)) && (x in slots ==> slots[x] == life.inst)
  }

  /** `worker` and `starter` exclude each other, and either implies `started`. */
  predicate IdentityOk(w: Work) {
    && (w.worker.Some? ==> w.started && w.starter.None?)
    && (w.starter.Some? ==> w.started)
    && (w.finished ==> w.worker.Some?)
  }

  ghost predicate CoreOk(c: Core) {
    && c.active == (if c.life.Live? || c.life.Leaving? || c.life.Closing? then Some(c.life.inst) else None)
    && SlotsMatch(c.life, c.slots)
    && (c.life.Vacant? || c.life.inst !in c.doomed)
    && (forall i :: i in c.works <==> i in c.doomed || (!c.life.Vacant? && i == c.life.inst))
    && (c.life.Creating? || c.life.Closing? ==> c.life.k <= 4)
    && (forall i | i in c.works :: i < c.nextInst && IdentityOk(c.works[i]))
  }

  /** A create past its check holds the singleton mutex. */
  predicate CreatorHolds(sh: Shared) {
    sh.core.life.Creating? ==> Owns(sh, Singleton, sh.core.life.tid)
  }

  ghost predicate LifeGlobal(sh: Shared) {
    CoreOk(sh.core) && sh.cbs.Keys == sh.core.works.Keys && CreatorHolds(sh)
  }

  // ------------------------------------------------------------------ one thread

  /** Every instance the activation refers to, or carries in a copied callback, is `i`. */
  predicate RefersTo(f: Frame, i: InstId) {
    match f
    case Leaf(_, _) => true
    case Notify(_, pc) => pc.NFire? && pc.target.Some? ==> pc.target.value == i
    case Register(j, _, _) => j == i
    case StartCall(j, _) => j == i
    case CreateCall(_) => true
    case Closure(_, j, _) => j == i
    case Client(_, j, _, _) => j == i
  }

  predicate ReferTo(fs: Frames, i: InstId) {
    fs.Push? ==> RefersTo(fs.top, i) && ReferTo(fs.rest, i)
  }

  predicate CreateOk(u: Tid, pc: CreatePc, life: Life) {
    match pc
    case CrWant => true
    case CrCheck => !(life.Creating? && life.tid == u)
    case CrSlotWant(i, k) => k < 4 && life == Creating(u, i, k)
    case CrSlotIn(i, k) => k < 4 && life == Creating(u, i, k)
    case CrPublish(i) => life == Creating(u, i, 4)
  }

  predicate DestroyOk(u: Tid, i: InstId, pc: DestroyPc, c: Core) {
    match pc
    case DsClear => c.life == Leaving(u, i)
    case DsJoin => c.life == Leaving(u, i)
    case DsSlotWant(k) => k < 4 && c.life == Closing(u, i, k)
    case DsSlotIn(k) => k < 4 && c.life == Closing(u, i, k)
    case DsWantSingleton => c.life == Closing(u, i, 4)
    case DsInSingleton => c.life == Closing(u, i, 4)
    case DsDelete => i in c.doomed && c.doomed[i] == u
  }

  predicate BaseLife(u: Tid, b: Base, c: Core) {
    match b
    case Idle => true
    case Gone => true
    case InCall(i) => c.life == Live(i)
    case Create(pc) => CreateOk(u, pc, c.life)
    case Destroy(i, pc) => i in c.works && DestroyOk(u, i, pc, c)
    case Worker(i, pc) =>
      && i in c.works && (c.life.Live? || c.life.Leaving?) && c.life.inst == i
      && c.works[i].worker == Some(u) && !c.works[i].finished
  }

  predicate LifeLocal(u: Tid, st: Stack, c: Core) {
    && BaseLife(u, st.base, c)
    && (st.frames.Push? ==> (st.base.InCall? || st.base.Worker?) && ReferTo(st.frames, st.base.inst))
    && StarterOk(u, st.frames, c)
  }

  /** A start past its exchange is the one that won it. */
  predicate StarterOk(u: Tid, fs: Frames, c: Core) {
    fs.Push? && fs.top.StartCall? && fs.top.spc != StExchange ==>
      fs.top.sinst in c.works && c.works[fs.top.sinst].starter == Some(u)
  }

  // ------------------------------------------------------------------ what others may see change

  predicate LifeMove(c: Core, c': Core, t: Tid) {
    || c'.life == c.life
    || match c.life
       case Vacant => c'.life.Creating? && c'.life.tid == t
       case Live(i) => c'.life == Leaving(t, i)
       case Creating(u, i, _) => u == t && (c'.life == Live(i) || (c'.life.Creating? && c'.life.tid == t))
       case Closing(u, _, _) => u == t && (c'.life == Vacant || (c'.life.Closing? && c'.life.tid == t))
       case Leaving(u, i) => u == t && c'.life == Closing(t, i, 0) && i in c.works && Joinable(c.works[i])
  }

  predicate IdentityMove(w: Work, w': Work, t: Tid) {
    || (w'.started == w.started && w'.starter == w.starter && w'.worker == w.worker && w'.finished == w.finished)
    || (!w.started && w'.worker == w.worker)
    || w.starter == Some(t)
    || w.worker == Some(t)
  }

  ghost predicate CoreMove(c: Core, c': Core, t: Tid) {
    && LifeMove(c, c', t)
    && (forall i | i in c.doomed && c.doomed[i] != t :: i in c'.doomed && c'.doomed[i] == c.doomed[i])
    && (forall i | i in c.works && !(i in c.doomed && c.doomed[i] == t) ::
          i in c'.works && IdentityMove(c.works[i], c'.works[i], t))
  }

  /** No fault; the outcome keeps the layer's invariant and its promise to other threads. */
  ghost predicate LifeGood(sh: Shared, t: Tid, o: Outcome) {
    && !o.Fault?
    && (o.Next? ==> LifeGlobal(o.sh) && LifeLocal(t, o.stack, o.sh.core) && CoreMove(sh.core, o.sh.core, t))
  }

  lemma LifeStable(u: Tid, st: Stack, c: Core, c': Core, t: Tid)
    requires u != t
    requires CoreOk(c) && LifeLocal(u, st, c) && CoreMove(c, c', t)
    requires c'.life.Leaving? && c.life.Live? ==> st.base != InCall(c.life.inst)
    ensures LifeLocal(u, st, c')
  {
  }

  // ------------------------------------------------------------------ every step, by kind

  lemma CoreKept(c: Core, t: Tid)
    ensures CoreMove(c, c, t)
  {
  }

  /** The allocated instances include whatever a thread inside a call or a worker refers to. */
  lemma HomeAllocated(sh: Shared, t: Tid, st: Stack)
    requires LifeGlobal(sh) && LifeLocal(t, st, sh.core) && st.frames.Push?
    ensures st.base.inst in sh.core.works && st.base.inst in sh.cbs
  {
    assert st.base.inst in sh.core.works.Keys;
  }

  /** start calls nothing, so no activation stands on one. */
  predicate CallerBelow(rest: Frames) { rest.Push? ==> !rest.top.StartCall? }

  /** A step of an activation leaves the core alone and what the stack refers to. */
  predicate Stays(sh: Shared, b: Base, o: Outcome)
    requires b.InCall? || b.Worker?
  {
    && !o.Fault?
    && (o.Next? ==>
          && o.sh.core == sh.core && o.sh.cbs.Keys == sh.cbs.Keys
          && o.stack.base == b && ReferTo(o.stack.frames, b.inst)
          && (o.stack.frames.Push? && o.stack.frames.top.StartCall? ==> o.stack.frames.top.spc == StExchange))
  }

  lemma FramesLife(sh: Shared, t: Tid, st: Stack, o: Outcome)
    requires LifeGlobal(sh) && LifeLocal(t, st, sh.core) && st.frames.Push?
    requires Stays(sh, st.base, o)
    ensures LifeGood(sh, t, o)
  {
    CoreKept(sh.core, t);
  }

  /** Where there is an activation, its instance is allocated and every slot that is set is its. */
  lemma Home(sh: Shared, t: Tid, st: Stack)
    requires LifeGlobal(sh) && LifeLocal(t, st, sh.core) && st.frames.Push?
    ensures st.base.inst in sh.cbs
    ensures forall x | x in sh.core.slots :: sh.core.slots[x] == st.base.inst
    ensures sh.core.active == Some(st.base.inst)
  {
    HomeAllocated(sh, t, st);
  }

  lemma LeafStays(sh: Shared, t: Tid, b: Base, op: LeafOp, pc: LeafPc, rest: Frames)
    requires (b.InCall? || b.Worker?) && ReferTo(Push(Leaf(op, pc), rest), b.inst)
    requires CallerBelow(rest)
    requires forall x | x in sh.core.slots :: sh.core.slots[x] == b.inst
    ensures Stays(sh, b, StepLeaf(sh, t, b, op, pc, rest))
  {
  }

  lemma NotifyStays(sh: Shared, t: Tid, b: Base, op: NotifyOp, pc: NotifyPc, rest: Frames)
    requires (b.InCall? || b.Worker?) && ReferTo(Push(Notify(op, pc), rest), b.inst)
    requires CallerBelow(rest)
    requires forall x | x in sh.core.slots :: sh.core.slots[x] == b.inst
    ensures Stays(sh, b, StepNotify(sh, t, b, op, pc, rest))
  {
  }

  lemma ClosureStays(sh: Shared, t: Tid, b: Base, k: Slot, i: InstId, pc: ClosurePc, rest: Frames)
    requires (b.InCall? || b.Worker?) && ReferTo(Push(Closure(k, i, pc), rest), b.inst)
    requires CallerBelow(rest)
    requires forall x | x in sh.core.slots :: sh.core.slots[x] == b.inst
    requires i in sh.cbs
    ensures Stays(sh, b, StepClosure(sh, t, b, k, i, pc, rest))
  {
  }

  lemma RegisterStays(sh: Shared, t: Tid, b: Base, i: InstId, mask: set<Slot>, pc: RegisterPc, rest: Frames)
    requires (b.InCall? || b.Worker?) && ReferTo(Push(Register(i, mask, pc), rest), b.inst)
    requires CallerBelow(rest)
    requires forall x | x in sh.core.slots :: sh.core.slots[x] == b.inst
    requires i in sh.cbs
    ensures Stays(sh, b, StepRegister(sh, t, b, i, mask, pc, rest))
  {
  }

  lemma ClientStays(sh: Shared, t: Tid, b: Base, k: Slot, i: InstId, fn: nat, ctx: nat, rest: Frames, c: Choice)
    requires (b.InCall? || b.Worker?) && ReferTo(Push(Client(k, i, fn, ctx), rest), b.inst)
    requires CallerBelow(rest)
    requires forall x | x in sh.core.slots :: sh.core.slots[x] == b.inst
    ensures Stays(sh, b, StepClient(sh, b, k, i, Push(Client(k, i, fn, ctx), rest), rest, c))
  {
  }

  lemma CreateCallStays(sh: Shared, t: Tid, b: Base, pc: LeafPc, rest: Frames)
    requires (b.InCall? || b.Worker?) && ReferTo(Push(CreateCall(pc), rest), b.inst)
    requires CallerBelow(rest) && sh.core.active.Some?
    ensures Stays(sh, b, StepCreateCall(sh, t, b, pc, rest))
  {
  }

  lemma CreateCallLife(sh: Shared, t: Tid, b: Base, pc: LeafPc, rest: Frames)
    requires LifeGlobal(sh) && LifeLocal(t, Stack(b, Push(CreateCall(pc), rest)), sh.core)
    requires CallerBelow(rest)
    ensures LifeGood(sh, t, StepCreateCall(sh, t, b, pc, rest))
  {
    Home(sh, t, Stack(b, Push(CreateCall(pc), rest)));
    CreateCallStays(sh, t, b, pc, rest);
    FramesLife(sh, t, Stack(b, Push(CreateCall(pc), rest)), StepCreateCall(sh, t, b, pc, rest));
  }

  lemma IdleLife(sh: Shared, t: Tid, c: Choice)
    requires LifeGlobal(sh)
    ensures LifeGood(sh, t, StepIdle(sh, c)) && LifeGood(sh, t, StepBeginDestroy(sh, t, c))
  {
    CoreKept(sh.core, t);
  }

  lemma CreateLife(sh: Shared, t: Tid, pc: CreatePc)
    requires LifeGlobal(sh) && LifeLocal(t, Stack(Create(pc), Empty), sh.core)
    requires OwnsExactly(t, Stack(Create(pc), Empty), sh)
    ensures LifeGood(sh, t, StepCreate(sh, t, pc))
  {
    CoreKept(sh.core, t);
    match pc
    case CrWant =>
    case CrCheck => CheckLife(sh, t);
    case CrSlotWant(_, _) =>
    case CrSlotIn(i, k) => InstallLife(sh, t, i, k);
    case CrPublish(_) =>
  }

  lemma CheckLife(sh: Shared, t: Tid)
    requires LifeGlobal(sh) && OwnsExactly(t, Stack(Create(CrCheck), Empty), sh)
    requires CreateOk(t, CrCheck, sh.core.life)
    ensures LifeGood(sh, t, StepCreate(sh, t, CrCheck))
  {
    assert Owns(sh, Singleton, t) by { assert Singleton in Held(Stack(Create(CrCheck), Empty)); }
    if sh.core.active.Some? {
      CoreKept(sh.core, t);
    } else {
      assert sh.core.life.Vacant?;
      AllocateLife(sh, t);
    }
  }

  lemma AllocateLife(sh: Shared, t: Tid)
    requires LifeGlobal(sh) && Owns(sh, Singleton, t) && sh.core.life.Vacant?
    ensures LifeGood(sh, t, StepCreate(sh, t, CrCheck))
  {
    var c, i := sh.core, sh.core.nextInst;
    var c' := c.(works := c.works[i := NOT_STARTED], nextInst := i + 1, life := Creating(t, i, 0));
    AllocateCore(c, t);
    assert StepCreate(sh, t, CrCheck).sh == WithCallbacks(sh, i, NO_CALLBACKS).(core := c');
  }

  lemma AllocateCore(c: Core, t: Tid)
    requires CoreOk(c) && c.life.Vacant?
    ensures var i := c.nextInst;
            var c' := c.(works := c.works[i := NOT_STARTED], nextInst := i + 1, life := Creating(t, i, 0));
            CoreOk(c') && CoreMove(c, c', t)
  {
    assert c.nextInst !in c.works;
  }

  lemma InstallLife(sh: Shared, t: Tid, i: InstId, k: nat)
    requires LifeGlobal(sh) && CreateOk(t, CrSlotIn(i, k), sh.core.life)
    ensures LifeGood(sh, t, StepCreate(sh, t, CrSlotIn(i, k)))
  {
    var o := StepCreate(sh, t, CrSlotIn(i, k));
    assert forall x: Slot :: x == Installed(k) <==> InstallIndex(x) == k;
    assert SlotsMatch(o.sh.core.life, o.sh.core.slots);
  }

  /** A step that changes no more than the worker record of `i` (and hands out a thread number). */
  lemma WorkLife(sh: Shared, t: Tid, i: InstId, w: Work, o: Outcome)
    requires o.Next? && i in sh.core.works
    requires o.sh == WithWork(sh, i, w).(nextTid := o.sh.nextTid)
    requires IdentityOk(w) && IdentityMove(sh.core.works[i], w, t)
    requires LifeLocal(t, o.stack, o.sh.core)
    ensures LifeGlobal(sh) ==> LifeGood(sh, t, o)
  {
  }

  lemma StartLife(sh: Shared, t: Tid, b: Base, i: InstId, pc: StartPc, rest: Frames)
    requires LifeGlobal(sh) && LifeLocal(t, Stack(b, Push(StartCall(i, pc), rest)), sh.core)
    requires CallerBelow(rest)
    ensures LifeGood(sh, t, StepStart(sh, t, b, i, pc, rest))
  {
    HomeAllocated(sh, t, Stack(b, Push(StartCall(i, pc), rest)));
    var o := StepStart(sh, t, b, i, pc, rest);
    if pc == StExchange && sh.core.works[i].started {
      CoreKept(sh.core, t);
    } else {
      WorkLife(sh, t, i, o.sh.core.works[i], o);
    }
  }

  lemma DestroyLife(sh: Shared, t: Tid, i: InstId, pc: DestroyPc)
    requires LifeGlobal(sh) && LifeLocal(t, Stack(Destroy(i, pc), Empty), sh.core)
    ensures LifeGood(sh, t, StepDestroy(sh, t, i, pc))
  {
    CoreKept(sh.core, t);
    match pc
    case DsClear =>
      var o := StepDestroy(sh, t, i, pc);
      WorkLife(sh, t, i, o.sh.core.works[i], o);
    case DsJoin =>
    case DsSlotWant(_) =>
    case DsSlotIn(k) => ClearLife(sh, t, i, k);
    case DsWantSingleton =>
    case DsInSingleton => ForgetLife(sh, t, i);
    case DsDelete => DeleteLife(sh, t, i);
  }

  lemma ClearLife(sh: Shared, t: Tid, i: InstId, k: nat)
    requires LifeGlobal(sh) && i in sh.core.works && DestroyOk(t, i, DsSlotIn(k), sh.core)
    ensures LifeGood(sh, t, StepDestroy(sh, t, i, DsSlotIn(k)))
  {
    var o := StepDestroy(sh, t, i, DsSlotIn(k));
    assert forall x: Slot :: x == Cleared(k) <==> ClearIndex(x) == k;
    assert SlotsMatch(o.sh.core.life, o.sh.core.slots);
  }

  lemma ForgetLife(sh: Shared, t: Tid, i: InstId)
    requires LifeGlobal(sh) && i in sh.core.works && DestroyOk(t, i, DsInSingleton, sh.core)
    ensures LifeGood(sh, t, StepDestroy(sh, t, i, DsInSingleton))
  {
  }

  lemma DeleteLife(sh: Shared, t: Tid, i: InstId)
    requires LifeGlobal(sh) && i in sh.core.works && DestroyOk(t, i, DsDelete, sh.core)
    ensures LifeGood(sh, t, StepDestroy(sh, t, i, DsDelete))
  {
  }

  /** setup() or loop() calling, returning or throwing. */
  lemma BodyLife(sh: Shared, t: Tid, i: InstId, pc: WorkerPc, c: Choice)
    requires LifeGlobal(sh) && LifeLocal(t, Stack(Worker(i, pc), Empty), sh.core)
    ensures LifeGood(sh, t, StepBody(sh, i, pc, c))
  {
    var o := StepBody(sh, i, pc, c);
    if o.Next? { WorkLife(sh, t, i, o.sh.core.works[i], o); }
  }

  lemma WorkerLife(sh: Shared, t: Tid, i: InstId, pc: WorkerPc, c: Choice)
    requires LifeGlobal(sh) && LifeLocal(t, Stack(Worker(i, pc), Empty), sh.core)
    ensures LifeGood(sh, t, StepWorker(sh, t, i, pc, c))
  {
    if pc == WSetup || pc == WLoop {
      BodyLife(sh, t, i, pc, c);
    } else {
      var o := StepWorker(sh, t, i, pc, c);
      WorkLife(sh, t, i, o.sh.core.works[i], o);
    }
  }
}
