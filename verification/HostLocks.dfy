/** The mutex layer of the host protocol: which mutexes a stack holds, the shape of stacks, and
    the proof that every step keeps `owner` and the stacks in agreement. */
module HostLocks {
  import opened HostModel

  // ------------------------------------------------------------------ mutexes held

  function HeldByFrame(f: Frame): set<Lock> {
    match f
    case Leaf(op, pc) => if pc == In then {LeafLock(op)} else {}
    case Notify(op, pc) => if pc == NIn then {NotifyLock(op)} else {}
    case Register(i, _, pc) => if pc.RWrite? then {Callback(i)} else {}
    case StartCall(_, _) => {}
    case CreateCall(pc) => if pc == In then {Singleton} else {}
    case Closure(_, i, pc) => if pc.CIn? || pc.CCalled? then {Callback(i)} else {}
    case Client(_, _, _, _) => {}
  }

  function HeldByFrames(fs: Frames): set<Lock> {
    match fs
    case Empty => {}
    case Push(f, rest) => HeldByFrame(f) + HeldByFrames(rest)
  }

  function HeldByBase(b: Base): set<Lock> {
    match b
    case Create(pc) => (
      match pc
      case CrWant => {}
      case CrSlotIn(_, k) => {Singleton, SlotLock(Installed(k))}
      case _ => {Singleton})
    case Destroy(_, pc) => (
      match pc
      case DsSlotIn(k) => {SlotLock(Cleared(k))}
      case DsInSingleton => {Singleton}
      case _ => {})
    case _ => {}
  }

  function Held(st: Stack): set<Lock> { HeldByBase(st.base) + HeldByFrames(st.frames) }

  /** No two activations on one stack hold the same mutex. */
  predicate NoDup(fs: Frames) {
    fs.Push? ==> HeldByFrame(fs.top) !! HeldByFrames(fs.rest) && NoDup(fs.rest)
  }

  // ------------------------------------------------------------------ shape of a stack

  predicate Body(b: Base) { b.Worker? && (b.wpc == WSetup || b.wpc == WLoop) }

  /** What the activation `f` stands on: its caller, at the point of the call. */
  predicate Under(f: Frame, rest: Frames, b: Base, lax: bool) {
    match f
    case Leaf(op, _) => if rest.Push? then rest.top.Client? else b.InCall? || Body(b)
    case Notify(op, _) =>
      if rest.Push? then rest.top.Client? && op.SetPin? && (rest.top.kind == LineConfig || lax)
      else (b.InCall? && op.SetPin?) || Body(b)
    case Register(_, _, _) =>
      if rest.Push? then rest.top.Client? && (rest.top.kind == LineConfig || lax) else b.InCall?
    case StartCall(_, _) => if rest.Push? then rest.top.Client? else b.InCall?
    case CreateCall(_) => rest.Push? && rest.top.Client?
    case Closure(k, _, pc) =>
      (pc.CSnapped? ==> k == LineConfig) &&
      if rest.Push? then rest.top.Notify? && rest.top.npc == NDone && NotifySlot(rest.top.nop) == k
      else k == Sink && b.Worker? && b.wpc == WExit
    case Client(k, i, _, _) =>
      rest.Push? && rest.top == Closure(k, i, if k == LineConfig then CUnlocked else CCalled)
  }

  predicate Shape(fs: Frames, b: Base, lax: bool) {
    match fs
    case Empty => true
    case Push(f, rest) => (b.InCall? || b.Worker?) && Under(f, rest, b, lax) && Shape(rest, b, lax)
  }

  predicate Owns(sh: Shared, l: Lock, u: Tid) { l in sh.owner && sh.owner[l] == u }

  ghost predicate OwnsExactly(u: Tid, st: Stack, sh: Shared) {
    forall l :: l in Held(st) <==> Owns(sh, l, u)
  }

  /** The mutex layer's invariant of one thread. */
  ghost predicate LocksOk(u: Tid, st: Stack, sh: Shared) {
    && Shape(st.frames, st.base, sh.lax)
    && NoDup(st.frames)
    && OwnsExactly(u, st, sh)
  }

  /** What a step of `t` never does: change what another thread owns, or the client policy. */
  ghost predicate OthersOwn(sh: Shared, sh': Shared, t: Tid) {
    sh'.lax == sh.lax && forall l, u | u != t :: Owns(sh, l, u) <==> Owns(sh', l, u)
  }

  ghost predicate LocksGood(sh: Shared, t: Tid, o: Outcome) {
    o.Next? ==> LocksOk(t, o.stack, o.sh) && OthersOwn(sh, o.sh, t)
  }

  // ------------------------------------------------------------------ how a step moves mutexes

  /** None, one acquired, or one released. */
  datatype LockMove = Keep | Take(l: Lock) | Give(l: Lock)

  function OwnerAfter(m: LockMove, owner: map<Lock, Tid>, t: Tid): map<Lock, Tid> {
    match m
    case Keep => owner
    case Take(l) => owner[l := t]
    case Give(l) => owner - {l}
  }

  predicate HeldAfter(m: LockMove, held: set<Lock>, held': set<Lock>) {
    match m
    case Keep => held' == held
    case Take(l) => held' == held + {l}
    case Give(l) => l in held && held' == held - {l}
  }

  lemma Moved(m: LockMove, sh: Shared, sh': Shared, t: Tid, st: Stack, st': Stack)
    requires OwnsExactly(t, st, sh)
    requires m.Take? ==> m.l !in sh.owner
    requires sh'.owner == OwnerAfter(m, sh.owner, t) && sh'.lax == sh.lax
    requires HeldAfter(m, Held(st), Held(st'))
    ensures OwnsExactly(t, st', sh') && OthersOwn(sh, sh', t)
  {
    assert m.Give? ==> Owns(sh, m.l, t);
    forall l ensures l in Held(st') <==> Owns(sh', l, t) {
      assert l in Held(st) <==> Owns(sh, l, t);
    }
  }

  /** The top activation takes `l`, or gives it back, leaving the frames `fs'`. */
  lemma TopMoved(m: LockMove, sh: Shared, sh': Shared, t: Tid, st: Stack, fs': Frames)
    requires LocksOk(t, st, sh) && st.frames.Push?
    requires m.Take? ==> m.l !in sh.owner && HeldByFrames(fs') == HeldByFrames(st.frames) + {m.l}
    requires m.Give? ==> HeldByFrame(st.frames.top) == {m.l} && HeldByFrames(fs') == HeldByFrames(st.frames.rest)
    requires m.Keep? ==> HeldByFrames(fs') == HeldByFrames(st.frames)
    requires sh'.owner == OwnerAfter(m, sh.owner, t) && sh'.lax == sh.lax
    ensures OwnsExactly(t, Stack(st.base, fs'), sh') && OthersOwn(sh, sh', t)
    ensures m.Take? ==> m.l !in HeldByFrames(st.frames)
  {
    assert HeldByBase(st.base) == {};
    assert Held(st) == HeldByFrames(st.frames);
    assert m.Take? ==> (m.l in Held(st) <==> Owns(sh, m.l, t));
    Moved(m, sh, sh', t, st, Stack(st.base, fs'));
  }

  // ------------------------------------------------------------------ every step, by kind

  lemma LeafLocks(sh: Shared, t: Tid, b: Base, op: LeafOp, pc: LeafPc, rest: Frames)
    requires LocksOk(t, Stack(b, Push(Leaf(op, pc), rest)), sh)
    ensures LocksGood(sh, t, StepLeaf(sh, t, b, op, pc, rest))
  {
    var o := StepLeaf(sh, t, b, op, pc, rest);
    if o.Next? {
      var l := LeafLock(op);
      TopMoved(if pc == Want then Take(l) else Give(l), sh, o.sh, t, Stack(b, Push(Leaf(op, pc), rest)),
          o.stack.frames);
    }
  }

  lemma NotifyLocks(sh: Shared, t: Tid, b: Base, op: NotifyOp, pc: NotifyPc, rest: Frames)
    requires LocksOk(t, Stack(b, Push(Notify(op, pc), rest)), sh)
    ensures LocksGood(sh, t, StepNotify(sh, t, b, op, pc, rest))
  {
    var o := StepNotify(sh, t, b, op, pc, rest);
    if o.Next? {
      var l := NotifyLock(op);
      var m := if pc == NWant then Take(l) else if pc == NIn then Give(l) else Keep;
      TopMoved(m, sh, o.sh, t, Stack(b, Push(Notify(op, pc), rest)), o.stack.frames);
    }
  }

  lemma ClosureLocks(sh: Shared, t: Tid, b: Base, k: Slot, i: InstId, pc: ClosurePc, rest: Frames)
    requires LocksOk(t, Stack(b, Push(Closure(k, i, pc), rest)), sh)
    ensures LocksGood(sh, t, StepClosure(sh, t, b, k, i, pc, rest))
  {
    var o := StepClosure(sh, t, b, k, i, pc, rest);
    if o.Next? {
      var l := Callback(i);
      var m := if pc == CWant then Take(l)
               else if pc == CCalled || (pc == CIn && (k == LineConfig || k !in sh.cbs[i].fns)) then Give(l) else Keep;
      TopMoved(m, sh, o.sh, t, Stack(b, Push(Closure(k, i, pc), rest)), o.stack.frames);
    }
  }

  lemma RegisterLocks(sh: Shared, t: Tid, b: Base, i: InstId, mask: set<Slot>, pc: RegisterPc, rest: Frames)
    requires LocksOk(t, Stack(b, Push(Register(i, mask, pc), rest)), sh)
    ensures LocksGood(sh, t, StepRegister(sh, t, b, i, mask, pc, rest))
  {
    var o := StepRegister(sh, t, b, i, mask, pc, rest);
    if o.Next? {
      var m := if pc == RWant then Take(Callback(i)) else if pc.k < 5 then Keep else Give(Callback(i));
      TopMoved(m, sh, o.sh, t, Stack(b, Push(Register(i, mask, pc), rest)), o.stack.frames);
    }
  }

  lemma StartLocks(sh: Shared, t: Tid, b: Base, i: InstId, pc: StartPc, rest: Frames)
    requires LocksOk(t, Stack(b, Push(StartCall(i, pc), rest)), sh)
    ensures LocksGood(sh, t, StepStart(sh, t, b, i, pc, rest))
  {
    var o := StepStart(sh, t, b, i, pc, rest);
    if o.Next? {
      TopMoved(Keep, sh, o.sh, t, Stack(b, Push(StartCall(i, pc), rest)), o.stack.frames);
    }
  }

  lemma CreateCallLocks(sh: Shared, t: Tid, b: Base, pc: LeafPc, rest: Frames)
    requires LocksOk(t, Stack(b, Push(CreateCall(pc), rest)), sh)
    ensures LocksGood(sh, t, StepCreateCall(sh, t, b, pc, rest))
  {
    var o := StepCreateCall(sh, t, b, pc, rest);
    if o.Next? {
      var m := if pc == Want then Take(Singleton) else Give(Singleton);
      TopMoved(m, sh, o.sh, t, Stack(b, Push(CreateCall(pc), rest)), o.stack.frames);
    }
  }

  lemma ClientLocks(sh: Shared, t: Tid, b: Base, k: Slot, i: InstId, fn: nat, ctx: nat, rest: Frames, c: Choice)
    requires LocksOk(t, Stack(b, Push(Client(k, i, fn, ctx), rest)), sh)
    ensures LocksGood(sh, t, StepClient(sh, b, k, i, Push(Client(k, i, fn, ctx), rest), rest, c))
  {
    var st := Stack(b, Push(Client(k, i, fn, ctx), rest));
    var o := StepClient(sh, b, k, i, st.frames, rest, c);
    if o.Next? {
      TopMoved(Keep, sh, o.sh, t, st, o.stack.frames);
    }
  }

  /** What the base of an otherwise empty stack does to the mutexes. */
  function BaseMove(sh: Shared, b: Base): LockMove {
    match b
    case Create(pc) => (
      match pc
      case CrWant => Take(Singleton)
      case CrCheck => if sh.core.active.Some? then Give(Singleton) else Keep
      case CrSlotWant(_, k) => Take(SlotLock(Installed(k)))
      case CrSlotIn(_, k) => Give(SlotLock(Installed(k)))
      case CrPublish(_) => Give(Singleton))
    case Destroy(_, pc) => (
      match pc
      case DsSlotWant(k) => Take(SlotLock(Cleared(k)))
      case DsSlotIn(k) => Give(SlotLock(Cleared(k)))
      case DsWantSingleton => Take(Singleton)
      case DsInSingleton => Give(Singleton)
      case _ => Keep)
    case _ => Keep
  }

  lemma BaseLocks(sh: Shared, t: Tid, b: Base, o: Outcome)
    requires LocksOk(t, Stack(b, Empty), sh)
    requires o.Next? ==> var m := BaseMove(sh, b);
                         && (m.Take? ==> m.l !in sh.owner)
                         && o.sh.owner == OwnerAfter(m, sh.owner, t) && o.sh.lax == sh.lax
                         && HeldAfter(m, HeldByBase(b), HeldByBase(o.stack.base))
                         && HeldByFrames(o.stack.frames) == {}
                         && Shape(o.stack.frames, o.stack.base, sh.lax) && NoDup(o.stack.frames)
    ensures LocksGood(sh, t, o)
  {
    if o.Next? {
      assert Held(Stack(b, Empty)) == HeldByBase(b);
      assert Held(o.stack) == HeldByBase(o.stack.base);
      Moved(BaseMove(sh, b), sh, o.sh, t, Stack(b, Empty), o.stack);
    }
  }

  lemma IdleLocks(sh: Shared, t: Tid, c: Choice)
    requires LocksOk(t, Stack(Idle, Empty), sh)
    ensures LocksGood(sh, t, StepIdle(sh, c)) && LocksGood(sh, t, StepBeginDestroy(sh, t, c))
  {
    BaseLocks(sh, t, Idle, StepIdle(sh, c));
    BaseLocks(sh, t, Idle, StepBeginDestroy(sh, t, c));
  }

  lemma CreateLocks(sh: Shared, t: Tid, pc: CreatePc)
    requires LocksOk(t, Stack(Create(pc), Empty), sh)
    ensures LocksGood(sh, t, StepCreate(sh, t, pc))
  {
    BaseLocks(sh, t, Create(pc), StepCreate(sh, t, pc));
  }

  lemma DestroyLocks(sh: Shared, t: Tid, i: InstId, pc: DestroyPc)
    requires LocksOk(t, Stack(Destroy(i, pc), Empty), sh)
    ensures LocksGood(sh, t, StepDestroy(sh, t, i, pc))
  {
    BaseLocks(sh, t, Destroy(i, pc), StepDestroy(sh, t, i, pc));
  }

  lemma WorkerLocks(sh: Shared, t: Tid, i: InstId, pc: WorkerPc, c: Choice)
    requires LocksOk(t, Stack(Worker(i, pc), Empty), sh)
    ensures LocksGood(sh, t, StepWorker(sh, t, i, pc, c))
  {
    BaseLocks(sh, t, Worker(i, pc), StepWorker(sh, t, i, pc, c));
  }
}
