/** The registration layer of the host protocol: no client callback ever runs with a function
    pointer and a context from different registrations, although set_callbacks writes its five
    fields one at a time. */
module HostCallbacks {
  import opened HostModel
  import opened HostLocks
  import opened HostLifecycle

  /** Every function pointer and the context come from the newest registration. */
  predicate Uniform(cb: Callbacks) {
    cb.ctx == cb.gen && forall k | k in cb.fns :: cb.fns[k] == cb.gen
  }

  function WriteIndex(x: Slot): nat {
    match x case DataReady => 0 case Signal => 1 case Sink => 2 case LineConfig => 3
  }

  /** set_callbacks has written its first `k` fields: the pointers in `mask`, and null for the others. */
  predicate PartlyWritten(cb: Callbacks, mask: set<Slot>, k: nat) {
    && k <= 5
    && (forall x: Slot | WriteIndex(x) < k :: (x in cb.fns <==> x in mask) && (x in cb.fns ==> cb.fns[x] == cb.gen))
    && (k == 5 ==> cb.ctx == cb.gen)
  }

  /** What the activation knows of the callback fields `cb` of the instance it runs for. */
  predicate FrameCb(f: Frame, cb: Callbacks) {
    match f
    case Leaf(_, _) => true
    case Notify(_, _) => true
    case StartCall(_, _) => true
    case CreateCall(_) => true
    case Register(_, mask, pc) => pc.RWrite? ==> PartlyWritten(cb, mask, pc.k)
    case Closure(k, _, pc) =>
      (pc.CIn? || pc.CCalled? ==> Uniform(cb)) && (pc.CSnapped? ==> pc.fn == pc.ctx <= cb.gen)
    case Client(k, _, fn, ctx) => fn == ctx && (if k == LineConfig then fn <= cb.gen else fn == cb.gen)
  }

  predicate FramesCb(fs: Frames, cb: Callbacks) {
    fs.Push? ==> FrameCb(fs.top, cb) && FramesCb(fs.rest, cb)
  }

  predicate UniformUnlessHeld(sh: Shared) {
    forall i | i in sh.cbs :: Callback(i) in sh.owner || Uniform(sh.cbs[i])
  }

  predicate CbLocal(st: Stack, cbs: map<InstId, Callbacks>) {
    st.frames.Push? && (st.base.InCall? || st.base.Worker?) && st.base.inst in cbs ==>
      FramesCb(st.frames, cbs[st.base.inst])
  }

  /** Registrations only get newer, and never change under another thread's mutex. */
  ghost predicate CbMove(sh: Shared, sh': Shared, t: Tid) {
    forall i | i in sh.cbs && i in sh'.cbs ::
      && sh.cbs[i].gen <= sh'.cbs[i].gen
      && (Callback(i) in sh.owner && sh.owner[Callback(i)] != t ==> sh'.cbs[i] == sh.cbs[i])
  }

  ghost predicate CbGood(sh: Shared, t: Tid, o: Outcome) {
    o.Next? ==> UniformUnlessHeld(o.sh) && CbLocal(o.stack, o.sh.cbs) && CbMove(sh, o.sh, t)
  }

  lemma {:induction false} FramesCbStable(fs: Frames, b: Base, lax: bool, i: InstId, cb: Callbacks, cb': Callbacks)
    requires Shape(fs, b, lax) && ReferTo(fs, i)
    requires FramesCb(fs, cb) && cb.gen <= cb'.gen
    requires Callback(i) in HeldByFrames(fs) ==> cb' == cb
    ensures FramesCb(fs, cb')
  {
    if fs.Push? {
      FramesCbStable(fs.rest, b, lax, i, cb, cb');
    }
  }

  lemma CbStable(u: Tid, st: Stack, sh: Shared, sh': Shared, t: Tid)
    requires u != t
    requires LocksOk(u, st, sh) && LifeLocal(u, st, sh.core)
    requires st.frames.Push? ==> st.base.inst in sh.cbs && st.base.inst in sh'.cbs
    requires CbLocal(st, sh.cbs) && CbMove(sh, sh', t)
    ensures CbLocal(st, sh'.cbs)
  {
    if st.frames.Push? {
      var i := st.base.inst;
      if Callback(i) in HeldByFrames(st.frames) {
        assert Callback(i) in Held(st);
        assert Owns(sh, Callback(i), u);
      }
      FramesCbStable(st.frames, st.base, sh.lax, i, sh.cbs[i], sh'.cbs[i]);
    }
  }

  // ------------------------------------------------------------------ every step, by kind

  /** Steps that change no callback fields. A callback mutex is released only when uniform. */
  lemma CbKept(m: LockMove, sh: Shared, t: Tid, o: Outcome)
    requires o.Next? && o.sh.cbs == sh.cbs && o.sh.owner == OwnerAfter(m, sh.owner, t)
    requires m.Give? && m.l.Callback? && m.l.inst in sh.cbs ==> Uniform(sh.cbs[m.l.inst])
    requires CbLocal(o.stack, sh.cbs)
    ensures UniformUnlessHeld(sh) ==> CbGood(sh, t, o)
  {
  }

  lemma LeafCb(sh: Shared, t: Tid, b: Base, op: LeafOp, pc: LeafPc, rest: Frames)
    requires UniformUnlessHeld(sh) && CbLocal(Stack(b, Push(Leaf(op, pc), rest)), sh.cbs)
    ensures CbGood(sh, t, StepLeaf(sh, t, b, op, pc, rest))
  {
    var o := StepLeaf(sh, t, b, op, pc, rest);
    if o.Next? { CbKept(if pc == Want then Take(LeafLock(op)) else Give(LeafLock(op)), sh, t, o); }
  }

  lemma NotifyCb(sh: Shared, t: Tid, b: Base, op: NotifyOp, pc: NotifyPc, rest: Frames)
    requires UniformUnlessHeld(sh) && CbLocal(Stack(b, Push(Notify(op, pc), rest)), sh.cbs)
    ensures CbGood(sh, t, StepNotify(sh, t, b, op, pc, rest))
  {
    var o := StepNotify(sh, t, b, op, pc, rest);
    var l := NotifyLock(op);
    if o.Next? { CbKept(if pc == NWant then Take(l) else if pc == NIn then Give(l) else Keep, sh, t, o); }
  }

  lemma ClosureCb(sh: Shared, t: Tid, b: Base, k: Slot, i: InstId, pc: ClosurePc, rest: Frames)
    requires UniformUnlessHeld(sh) && CbLocal(Stack(b, Push(Closure(k, i, pc), rest)), sh.cbs)
    requires (b.InCall? || b.Worker?) && b.inst == i && i in sh.cbs && (pc.CSnapped? ==> k == LineConfig)
    ensures CbGood(sh, t, StepClosure(sh, t, b, k, i, pc, rest))
  {
    var o := StepClosure(sh, t, b, k, i, pc, rest);
    var l := Callback(i);
    if pc == CWant {
      if o.Next? { CbKept(Take(l), sh, t, o); }
    } else if pc == CCalled || (pc == CIn && (k == LineConfig || k !in sh.cbs[i].fns)) {
      CbKept(Give(l), sh, t, o);
    } else {
      CbKept(Keep, sh, t, o);
    }
  }

  lemma RegisterCb(sh: Shared, t: Tid, b: Base, i: InstId, mask: set<Slot>, pc: RegisterPc, rest: Frames)
    requires UniformUnlessHeld(sh) && CbLocal(Stack(b, Push(Register(i, mask, pc), rest)), sh.cbs)
    requires (b.InCall? || b.Worker?) && b.inst == i && i in sh.cbs
    requires LocksOk(t, Stack(b, Push(Register(i, mask, pc), rest)), sh) && ReferTo(rest, i)
    ensures CbGood(sh, t, StepRegister(sh, t, b, i, mask, pc, rest))
  {
    var st := Stack(b, Push(Register(i, mask, pc), rest));
    var o := StepRegister(sh, t, b, i, mask, pc, rest);
    if pc.RWrite? && pc.k == 5 {
      CbKept(Give(Callback(i)), sh, t, o);
    } else if o.Next? {
      if pc == RWant {
        assert Callback(i) in Held(st) <==> Owns(sh, Callback(i), t);
      } else {
        assert Callback(i) in Held(st);
        assert Owns(sh, Callback(i), t);
        assert pc.k < 4 ==> forall x: Slot :: x == Written(pc.k) <==> WriteIndex(x) == pc.k;
      }
      FramesCbStable(rest, b, sh.lax, i, sh.cbs[i], o.sh.cbs[i]);
    }
  }

  lemma ClientCb(sh: Shared, t: Tid, b: Base, k: Slot, i: InstId, fn: nat, ctx: nat, rest: Frames, c: Choice)
    requires UniformUnlessHeld(sh) && CbLocal(Stack(b, Push(Client(k, i, fn, ctx), rest)), sh.cbs)
    ensures CbGood(sh, t, StepClient(sh, b, k, i, Push(Client(k, i, fn, ctx), rest), rest, c))
  {
    var o := StepClient(sh, b, k, i, Push(Client(k, i, fn, ctx), rest), rest, c);
    if o.Next? { CbKept(Keep, sh, t, o); }
  }

  lemma IdleCb(sh: Shared, t: Tid, c: Choice)
    requires UniformUnlessHeld(sh)
    ensures CbGood(sh, t, StepIdle(sh, c)) && CbGood(sh, t, StepBeginDestroy(sh, t, c))
  {
    if StepIdle(sh, c).Next? { CbKept(Keep, sh, t, StepIdle(sh, c)); }
  }

  lemma CreateCb(sh: Shared, t: Tid, pc: CreatePc)
    requires UniformUnlessHeld(sh) && LifeGlobal(sh)
    ensures CbGood(sh, t, StepCreate(sh, t, pc))
  {
    var o := StepCreate(sh, t, pc);
    if pc == CrCheck && sh.core.active.None? {
      AllocateCb(sh, t);
    } else if o.Next? {
      CbKept(BaseMove(sh, Create(pc)), sh, t, o);
    }
  }

  lemma AllocateCb(sh: Shared, t: Tid)
    requires UniformUnlessHeld(sh) && LifeGlobal(sh) && sh.core.active.None?
    ensures CbGood(sh, t, StepCreate(sh, t, CrCheck))
  {
    assert sh.core.nextInst !in sh.cbs.Keys;
  }

  lemma StartCb(sh: Shared, t: Tid, b: Base, i: InstId, pc: StartPc, rest: Frames)
    requires UniformUnlessHeld(sh) && CbLocal(Stack(b, Push(StartCall(i, pc), rest)), sh.cbs)
    ensures CbGood(sh, t, StepStart(sh, t, b, i, pc, rest))
  {
    var o := StepStart(sh, t, b, i, pc, rest);
    if o.Next? { CbKept(Keep, sh, t, o); }
  }

  lemma CreateCallCb(sh: Shared, t: Tid, b: Base, pc: LeafPc, rest: Frames)
    requires UniformUnlessHeld(sh) && CbLocal(Stack(b, Push(CreateCall(pc), rest)), sh.cbs)
    ensures CbGood(sh, t, StepCreateCall(sh, t, b, pc, rest))
  {
    var o := StepCreateCall(sh, t, b, pc, rest);
    if o.Next? { CbKept(if pc == Want then Take(Singleton) else Give(Singleton), sh, t, o); }
  }

  lemma DestroyCb(sh: Shared, t: Tid, i: InstId, pc: DestroyPc)
    requires UniformUnlessHeld(sh)
    ensures CbGood(sh, t, StepDestroy(sh, t, i, pc))
  {
    var o := StepDestroy(sh, t, i, pc);
    if o.Next? && pc != DsDelete { CbKept(BaseMove(sh, Destroy(i, pc)), sh, t, o); }
  }

  lemma WorkerCb(sh: Shared, t: Tid, i: InstId, pc: WorkerPc, c: Choice)
    requires UniformUnlessHeld(sh)
    ensures CbGood(sh, t, StepWorker(sh, t, i, pc, c))
  {
    var o := StepWorker(sh, t, i, pc, c);
    if o.Next? { CbKept(Keep, sh, t, o); }
  }
}
