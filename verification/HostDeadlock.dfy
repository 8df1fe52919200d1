/** Deadlock in the host protocol, whatever callbacks call (destroy apart): a waiting cycle exists
    exactly when some thread waits for a mutex it holds itself, and that happens exactly when a
    callback that runs under the callback mutex calls set_callbacks, or set_pin with a value that
    changes the pin. Hosts whose locked callbacks call only the other entry points never do. */
module HostDeadlock {
  import opened Prelude
  import opened HostModel
  import opened HostLocks
  import opened HostLifecycle
  import opened HostInvariant

  /** HAL mutexes below the singleton mutex below the callback mutexes. */
  function Rank(l: Lock): nat { if l.Callback? then 2 else if l.Singleton? then 1 else 0 }

  /** The mutex the thread's next step acquires. */
  function Wanted(st: Stack): Option<Lock> {
    match st.frames
    case Push(f, _) => (
      match f
      case Leaf(op, pc) => if pc == Want then Some(LeafLock(op)) else None
      case Notify(op, pc) => if pc == NWant then Some(NotifyLock(op)) else None
      case Register(i, _, pc) => if pc == RWant then Some(Callback(i)) else None
      case StartCall(_, _) => None
      case CreateCall(pc) => if pc == Want then Some(Singleton) else None
      case Closure(_, i, pc) => if pc == CWant then Some(Callback(i)) else None
      case Client(_, _, _, _) => None)
    case Empty => (
      match st.base
      case Create(pc) => (
        match pc
        case CrWant => Some(Singleton)
        case CrSlotWant(_, k) => Some(SlotLock(Installed(k)))
        case _ => None)
      case Destroy(_, pc) => (
        match pc
        case DsSlotWant(k) => Some(SlotLock(Cleared(k)))
        case DsWantSingleton => Some(Singleton)
        case _ => None)
      case _ => None)
  }

  predicate Joining(st: Stack) { st.frames.Empty? && st.base.Destroy? && st.base.dpc == DsJoin }

  /** `u` cannot go on before `v` does: `v` owns the mutex `u` wants, or `u` joins worker `v`. */
  predicate WaitsFor(s: State, u: Tid, v: Tid) {
    && u in s.threads && v in s.threads
    && var st := s.threads[u];
       || (Wanted(st).Some? && Owns(s.sh, Wanted(st).value, v))
       || (&& Joining(st) && st.base.inst in s.sh.core.works
           && s.sh.core.works[st.base.inst].worker == Some(v) && !s.sh.core.works[st.base.inst].finished)
  }

  function Height(st: Stack): nat {
    if Joining(st) then 4 else if Wanted(st).Some? then 1 + Rank(Wanted(st).value) else 0
  }

  /** A thread whose next acquisition is a mutex it already holds. */
  predicate SelfBlocked(st: Stack) { Wanted(st).Some? && Wanted(st).value in Held(st) }

  // ------------------------------------------------------------------ the rank argument

  /** Below the top, a stack holds at most the callback mutex of its own instance. */
  lemma {:induction false} BelowHoldsOwn(fs: Frames, b: Base, lax: bool, i: InstId)
    requires Shape(fs, b, lax) && ReferTo(fs, i)
    requires fs.Push? ==> fs.top.Client? || (fs.top.Notify? && fs.top.npc == NDone) || fs.top.Closure?
    ensures forall l | l in HeldByFrames(fs) :: l == Callback(i)
  {
    if fs.Push? {
      BelowHoldsOwn(fs.rest, b, lax, i);
    }
  }

  /** A thread that wants a mutex, and does not hold it, holds only mutexes of higher rank. */
  lemma HeldRankAbove(u: Tid, st: Stack, sh: Shared)
    requires LocksOk(u, st, sh) && LifeLocal(u, st, sh.core)
    requires Wanted(st).Some? && !SelfBlocked(st)
    ensures forall l | l in Held(st) :: Rank(Wanted(st).value) < Rank(l)
  {
    if st.frames.Push? {
      assert HeldByBase(st.base) == {};
      BelowHoldsOwn(st.frames.rest, st.base, sh.lax, st.base.inst);
    }
  }

  /** A thread waits only for threads of lower height, or for one that waits for itself. */
  lemma WaitingDescends(s: State, u: Tid, v: Tid)
    requires Inv(s) && WaitsFor(s, u, v) && !SelfBlocked(s.threads[v])
    ensures Height(s.threads[v]) < Height(s.threads[u])
  {
    var st, sv := s.threads[u], s.threads[v];
    assert ThreadOk(u, st, s.sh) && ThreadOk(v, sv, s.sh);
    if Wanted(st).Some? {
      assert Wanted(st).value in Held(sv);
      if Wanted(sv).Some? { HeldRankAbove(v, sv, s.sh); }
    } else {
      assert s.threads[v].base.Worker?;
    }
  }

  /** `path` is a chain of waiting threads. */
  predicate WaitPath(s: State, path: seq<Tid>) {
    |path| > 0 && forall k | 0 <= k < |path| - 1 :: WaitsFor(s, path[k], path[k + 1])
  }

  /** Threads waiting in a circle; a circle of one waits for itself. */
  predicate Returns(s: State, path: seq<Tid>) {
    |path| >= 2 && WaitPath(s, path) && path[0] == path[|path| - 1]
  }

  predicate SomeSelfBlocked(s: State) { exists t | t in s.threads :: SelfBlocked(s.threads[t]) }

  /** Lower in height. */
  predicate Below(s: State, u: Tid, v: Tid) {
    u in s.threads && v in s.threads && Height(s.threads[v]) < Height(s.threads[u])
  }

  /** Whoever waits is above whom it waits for. */
  ghost predicate Descending(s: State) { forall u, v | WaitsFor(s, u, v) :: Below(s, u, v) }

  lemma AllDescend(s: State)
    requires Inv(s) && !SomeSelfBlocked(s)
    ensures Descending(s)
  {
    forall u, v | WaitsFor(s, u, v) ensures Below(s, u, v) { WaitingDescends(s, u, v); }
  }

  /** So along a chain the height falls. */
  lemma {:induction false} PathDescends(s: State, path: seq<Tid>, k: nat)
    requires Descending(s) && WaitPath(s, path) && 1 <= k < |path|
    ensures Below(s, path[0], path[k])
    decreases k
  {
    assert WaitsFor(s, path[k - 1], path[k]);
    assert Below(s, path[k - 1], path[k]);
    if k > 1 { PathDescends(s, path, k - 1); }
  }

  lemma SelfBlockedWaits(s: State, t: Tid)
    requires Inv(s) && t in s.threads && SelfBlocked(s.threads[t])
    ensures WaitsFor(s, t, t)
  {
    assert ThreadOk(t, s.threads[t], s.sh);
    assert Owns(s.sh, Wanted(s.threads[t]).value, t);
  }

  /** In every reachable state, whatever callbacks call: some chain of waiting threads, of any length,
      returns to where it began if and only if some thread waits for a mutex it holds. */
  lemma WaitingCycleIff(states: seq<State>, moves: seq<Move>, k: nat)
    requires IsRun(states, moves) && k < |states|
    ensures (exists path :: Returns(states[k], path)) <==> SomeSelfBlocked(states[k])
  {
    Invariant(states, moves, k);
    var s := states[k];
    if SomeSelfBlocked(s) {
      var t :| t in s.threads && SelfBlocked(s.threads[t]);
      SelfBlockedWaits(s, t);
      assert Returns(s, [t, t]);
    } else {
      AllDescend(s);
      forall path ensures !Returns(s, path) {
        if |path| >= 2 && WaitPath(s, path) { PathDescends(s, path, |path| - 1); }
      }
    }
  }

  // ------------------------------------------------------------------ which calls do it

  /** A callback that runs under the callback mutex. */
  predicate LockedClient(f: Frame) { f.Client? && f.kind != LineConfig }

  /** In set_callbacks, or at the signal closure of a set_pin, called from a locked callback. */
  predicate OwnLockCall(st: Stack) {
    && st.frames.Push? && st.frames.rest.Push?
    && var rest := st.frames.rest;
       match st.frames.top
       case Register(_, _, pc) => pc == RWant && LockedClient(rest.top)
       case Closure(k, _, pc) =>
         && k == Signal && pc == CWant && rest.top.Notify? && rest.top.nop.SetPin?
         && rest.rest.Push? && LockedClient(rest.rest.top)
       case _ => false
  }

  /** The line-config callback runs with no mutex held. */
  lemma LineClientHoldsNothing(fs: Frames, b: Base, lax: bool)
    requires fs.Push? && fs.top.Client? && fs.top.kind == LineConfig && Shape(fs, b, lax)
    ensures HeldByFrames(fs) == {}
  {
    var closure := fs.rest;
    assert Shape(closure, b, lax) && closure.top == Closure(LineConfig, fs.top.inst, CUnlocked);
    assert Under(closure.top, closure.rest, b, lax);
    var notify := closure.rest;
    assert Shape(notify, b, lax);
    assert Under(notify.top, notify.rest, b, lax);
    assert notify.rest.Empty?;
    assert HeldByFrames(notify) == {};
    assert HeldByFrames(closure) == {};
  }

  lemma LockedClientHoldsOwn(fs: Frames, b: Base, lax: bool, i: InstId)
    requires fs.Push? && LockedClient(fs.top) && Shape(fs, b, lax) && ReferTo(fs, i)
    ensures Callback(i) in HeldByFrames(fs)
  {
    assert fs.rest.top == Closure(fs.top.kind, fs.top.inst, CCalled);
    assert HeldByFrame(fs.rest.top) == {Callback(i)};
  }

  /** The callback mutex is held below a client's call exactly when the client is a locked one. */
  lemma ClientHoldsIff(fs: Frames, b: Base, lax: bool, i: InstId)
    requires fs.Push? && fs.top.Client? && Shape(fs, b, lax) && ReferTo(fs, i)
    ensures Callback(i) in HeldByFrames(fs) <==> LockedClient(fs.top)
  {
    if LockedClient(fs.top) { LockedClientHoldsOwn(fs, b, lax, i); } else { LineClientHoldsNothing(fs, b, lax); }
  }

  lemma OwnLockIff(u: Tid, st: Stack, sh: Shared)
    requires LocksOk(u, st, sh) && LifeLocal(u, st, sh.core)
    ensures SelfBlocked(st) <==> OwnLockCall(st)
  {
    if st.frames.Push? {
      var b, rest, i := st.base, st.frames.rest, st.base.inst;
      assert HeldByBase(b) == {};
      match st.frames.top
      case Leaf(op, pc) => BelowHoldsOwn(rest, b, sh.lax, i);
      case Notify(op, pc) => BelowHoldsOwn(rest, b, sh.lax, i);
      case StartCall(_, _) =>
      case CreateCall(pc) => BelowHoldsOwn(rest, b, sh.lax, i);
      case Register(j, _, pc) => if rest.Push? { ClientHoldsIff(rest, b, sh.lax, i); }
      case Closure(_, j, pc) =>
        if rest.Push? {
          assert Shape(rest, b, sh.lax) && Shape(rest.rest, b, sh.lax);
          assert ReferTo(rest, i) && ReferTo(rest.rest, i);
          assert Under(rest.top, rest.rest, b, sh.lax);
          assert HeldByFrames(rest) == HeldByFrames(rest.rest);
          if rest.rest.Push? { ClientHoldsIff(rest.rest, b, sh.lax, i); }
        }
      case Client(_, _, _, _) =>
    }
  }

  /** In every reachable state a thread waits for a mutex it holds if and only if it is in
      set_callbacks, or in the signal closure of a set_pin, called from a locked callback. */
  lemma SelfBlockedIff(states: seq<State>, moves: seq<Move>, k: nat, t: Tid)
    requires IsRun(states, moves) && k < |states| && t in states[k].threads
    ensures SelfBlocked(states[k].threads[t]) <==> OwnLockCall(states[k].threads[t])
  {
    Invariant(states, moves, k);
    assert ThreadOk(t, states[k].threads[t], states[k].sh);
    OwnLockIff(t, states[k].threads[t], states[k].sh);
  }

  /** The stack of `t` after `n` steps of its own, the callback in it returning when it can. */
  function OwnSteps(sh: Shared, t: Tid, st: Stack, n: nat): Option<Stack>
    decreases n
  {
    if n == 0 then Some(st)
    else match Exec(sh, t, st, Go)
      case Next(sh', st', _) => OwnSteps(sh', t, st', n - 1)
      case _ => None
  }

  /** Now or within two more steps of its own, the thread waits for a mutex it holds. */
  predicate RunsIntoOwnLock(sh: Shared, t: Tid, st: Stack) {
    exists n :: 0 <= n <= 2 && OwnSteps(sh, t, st, n).Some? && SelfBlocked(OwnSteps(sh, t, st, n).value)
  }

  /** A call at the point that decides: set_pin in its critical section, any other at its start. */
  predicate Deciding(f: Frame) {
    Plain(f) || (f.Register? && f.rpc == RWant) || (f.Notify? && f.nop.SetPin? && f.npc == NIn)
  }

  /** A call that goes through no callback mutex. */
  predicate Plain(f: Frame) { f.Leaf? || f.StartCall? || f.CreateCall? }

  lemma PlainNeverBlocks(sh: Shared, t: Tid, b: Base, f: Frame, below: Frames)
    requires Plain(f) && HeldByBase(b) == {} && below.Push? && below.top.Client?
    requires below.rest.Push? && below.rest.top.Closure? && below.rest.top.cpc == CCalled
    requires forall l | l in HeldByFrames(below) :: l.Callback?
    ensures !RunsIntoOwnLock(sh, t, Stack(b, Push(f, below)))
  {
    var st := Stack(b, Push(f, below));
    forall n | 0 <= n <= 2 && OwnSteps(sh, t, st, n).Some? ensures !SelfBlocked(OwnSteps(sh, t, st, n).value) {
      if n == 0 {
        assert OwnSteps(sh, t, st, 0) == Some(st);
        assert Held(st) == HeldByFrame(f) + HeldByFrames(below);
        assert f.Leaf? ==> !LeafLock(f.lop).Callback?;
      } else {
        PlainOwnSteps(sh, t, b, f, below, n);
      }
    }
  }

  /** After a step of its own such a call wants no mutex, nor does the client it returns to. */
  lemma PlainOwnSteps(sh: Shared, t: Tid, b: Base, f: Frame, below: Frames, n: nat)
    requires Plain(f) && below.Push? && below.top.Client? && 1 <= n <= 2
    requires below.rest.Push? && below.rest.top.Closure? && below.rest.top.cpc == CCalled
    requires OwnSteps(sh, t, Stack(b, Push(f, below)), n).Some?
    ensures Wanted(OwnSteps(sh, t, Stack(b, Push(f, below)), n).value).None?
  {
    var st := Stack(b, Push(f, below));
    var o1 := Exec(sh, t, st, Go);
    PlainStep(sh, t, b, f, below);
    assert OwnSteps(sh, t, st, n) == OwnSteps(o1.sh, t, o1.stack, n - 1);
    if n == 1 {
      assert OwnSteps(o1.sh, t, o1.stack, 0) == Some(o1.stack);
    } else {
      var o2 := Exec(o1.sh, t, o1.stack, Go);
      assert OwnSteps(o1.sh, t, o1.stack, 1) == OwnSteps(o2.sh, t, o2.stack, 0) == Some(o2.stack);
      if o1.stack == Stack(b, below) {
        assert o2.stack == Stack(b, below.rest);
      } else {
        PlainStep(o1.sh, t, b, o1.stack.frames.top, below);
      }
    }
  }

  lemma PlainStep(sh: Shared, t: Tid, b: Base, f: Frame, below: Frames)
    requires Plain(f) && below.Push? && below.top.Client?
    ensures var o := Exec(sh, t, Stack(b, Push(f, below)), Go);
            o.Next? ==>
              && (|| o.stack == Stack(b, below)
                  || (o.stack.frames.Push? && Plain(o.stack.frames.top) &&
                      o.stack == Stack(b, Push(o.stack.frames.top, below))))
              && Wanted(o.stack).None?
  {
    match f
    case Leaf(op, pc) =>
      var o := StepLeaf(sh, t, b, op, pc, below);
      assert o.Next? ==> o.stack == Stack(b, if pc == Want then Push(Leaf(op, In), below) else below);
    case StartCall(i, pc) =>
      var o := StepStart(sh, t, b, i, pc, below);
      assert o.Next? ==> o.stack.frames == below || (o.stack.frames.top.StartCall? && o.stack.frames.rest == below);
    case CreateCall(pc) =>
      var o := StepCreateCall(sh, t, b, pc, below);
      assert o.Next? ==> o.stack == Stack(b, if pc == Want then Push(CreateCall(In), below) else below);
  }

  // ------------------------------------------------------------------ progress

  /** Outside the library, or a worker that has returned. */
  predicate Quiet(st: Stack) { st.frames.Empty? && (st.base.Idle? || st.base.Gone?) }

  predicate Waiting(s: State, u: Tid)
    requires u in s.threads
  {
    var st := s.threads[u];
    || (Wanted(st).Some? && Wanted(st).value in s.sh.owner)
    || (Joining(st) && st.base.inst in s.sh.core.works && !Joinable(s.sh.core.works[st.base.inst]))
  }

  lemma FrameCanGo(sh: Shared, t: Tid, st: Stack)
    requires SharedOk(sh) && ThreadOk(t, st, sh) && st.frames.Push?
    requires Wanted(st).Some? ==> Wanted(st).value !in sh.owner
    ensures Exec(sh, t, st, Go).Next?
  {
    HomeAllocated(sh, t, st);
    var b, rest := st.base, st.frames.rest;
    match st.frames.top
    case Leaf(op, pc) => assert StepLeaf(sh, t, b, op, pc, rest).Next?;
    case Notify(op, pc) => assert StepNotify(sh, t, b, op, pc, rest).Next?;
    case Register(i, m, pc) => assert StepRegister(sh, t, b, i, m, pc, rest).Next?;
    case StartCall(i, pc) => assert StepStart(sh, t, b, i, pc, rest).Next?;
    case CreateCall(pc) => assert StepCreateCall(sh, t, b, pc, rest).Next?;
    case Closure(k, i, pc) => assert StepClosure(sh, t, b, k, i, pc, rest).Next?;
    case Client(k, i, _, _) => assert StepClient(sh, b, k, i, st.frames, rest, Go).Next?;
  }

  lemma BaseCanGo(sh: Shared, t: Tid, b: Base)
    requires SharedOk(sh) && ThreadOk(t, Stack(b, Empty), sh) && !b.Idle? && !b.Gone?
    requires Wanted(Stack(b, Empty)).Some? ==> Wanted(Stack(b, Empty)).value !in sh.owner
    requires Joining(Stack(b, Empty)) ==> b.inst in sh.core.works && Joinable(sh.core.works[b.inst])
    ensures Exec(sh, t, Stack(b, Empty), Go).Next?
  {
    match b
    case InCall(_) =>
    case Create(pc) => assert StepCreate(sh, t, pc).Next?;
    case Destroy(i, pc) => assert StepDestroy(sh, t, i, pc).Next?;
    case Worker(i, pc) => assert StepWorker(sh, t, i, pc, Go).Next?;
  }

  lemma WaitedFor(s: State, u: Tid) returns (v: Tid)
    requires Inv(s) && u in s.threads && Waiting(s, u)
    ensures v in s.threads && WaitsFor(s, u, v) && !Quiet(s.threads[v])
  {
    var st := s.threads[u];
    assert ThreadOk(u, st, s.sh);
    if Wanted(st).Some? {
      v := s.sh.owner[Wanted(st).value];
      assert Owns(s.sh, Wanted(st).value, v);
      assert ThreadOk(v, s.threads[v], s.sh);
      assert Wanted(st).value in Held(s.threads[v]);
    } else {
      v := s.sh.core.works[st.base.inst].worker.value;
    }
  }

  lemma PathCons(s: State, u: Tid, rest: seq<Tid>)
    requires WaitPath(s, rest) && WaitsFor(s, u, rest[0])
    ensures WaitPath(s, [u] + rest) && ([u] + rest)[|rest|] == rest[|rest| - 1]
  {
    var path := [u] + rest;
    forall k | 0 <= k < |path| - 1 ensures WaitsFor(s, path[k], path[k + 1]) {
      if k > 0 { assert WaitsFor(s, rest[k - 1], rest[k]); }
    }
  }

  /** Following the waiting leads to a thread inside the library that can step, or to one that waits
      for itself. */
  lemma {:induction false} FollowWaiting(s: State, u: Tid) returns (path: seq<Tid>)
    requires Inv(s) && u in s.threads && !Quiet(s.threads[u])
    ensures WaitPath(s, path) && path[0] == u
    ensures var t := path[|path| - 1];
            && t in s.threads && !Quiet(s.threads[t])
            && (SelfBlocked(s.threads[t]) || Exec(s.sh, t, s.threads[t], Go).Next?)
    decreases Height(s.threads[u])
  {
    if SelfBlocked(s.threads[u]) {
      path := [u];
    } else if Waiting(s, u) {
      var v := WaitedFor(s, u);
      if SelfBlocked(s.threads[v]) {
        path := [u, v];
      } else {
        WaitingDescends(s, u, v);
        var rest := FollowWaiting(s, v);
        path := [u] + rest;
        PathCons(s, u, rest);
      }
    } else {
      path := [u];
      NotWaitingCanGo(s, u);
    }
  }

  lemma NotWaitingCanGo(s: State, u: Tid)
    requires Inv(s) && u in s.threads && !Quiet(s.threads[u]) && !Waiting(s, u)
    ensures Exec(s.sh, u, s.threads[u], Go).Next?
  {
    assert ThreadOk(u, s.threads[u], s.sh);
    if s.threads[u].frames.Push? {
      FrameCanGo(s.sh, u, s.threads[u]);
    } else {
      assert s.threads[u] == Stack(s.threads[u].base, Empty);
      BaseCanGo(s.sh, u, s.threads[u].base);
    }
  }

  /** The thread can take a step of its own. */
  ghost predicate CanStep(s: State, t: Tid) { exists c, s' :: Step(s, s', t, c) }

  lemma NextMeansStep(s: State, t: Tid)
    requires t in s.threads && Exec(s.sh, t, s.threads[t], Go).Next?
    ensures CanStep(s, t)
  {
    var o := Exec(s.sh, t, s.threads[t], Go);
    var spawned := if o.spawn.Some? then map[s.sh.nextTid := Stack(Worker(o.spawn.value, WBegin), Empty)] else map[];
    var threads := s.threads[t := o.stack] + spawned;
    assert Step(s, State(o.sh, threads), t, Go);
  }

  /** Whatever callbacks call: from any thread inside the library, and any running worker, the chain
      of whom it waits for ends at a thread that can step if and only if that one does not wait for
      itself. */
  lemma WaitChain(states: seq<State>, moves: seq<Move>, k: nat, u: Tid) returns (path: seq<Tid>)
    requires IsRun(states, moves) && k < |states|
    requires u in states[k].threads && !Quiet(states[k].threads[u])
    ensures WaitPath(states[k], path) && path[0] == u
    ensures var t := path[|path| - 1];
            && t in states[k].threads && !Quiet(states[k].threads[t])
            && (CanStep(states[k], t) <==> !SelfBlocked(states[k].threads[t]))
  {
    Invariant(states, moves, k);
    var s := states[k];
    path := FollowWaiting(s, u);
    var t := path[|path| - 1];
    if SelfBlocked(s.threads[t]) {
      assert ThreadOk(t, s.threads[t], s.sh);
      forall c, s' ensures !Step(s, s', t, c) { SelfBlockedStays(s.sh, t, s.threads[t], c); }
    } else {
      NextMeansStep(s, t);
    }
  }

  // ------------------------------------------------------------------ strict clients

  lemma StrictNeverSelfBlocked(s: State)
    requires Inv(s) && !s.sh.lax
    ensures !SomeSelfBlocked(s)
  {
    forall t | t in s.threads ensures !SelfBlocked(s.threads[t]) {
      var st := s.threads[t];
      assert ThreadOk(t, st, s.sh);
      OwnLockIff(t, st, s.sh);
      if st.frames.Push? && st.frames.rest.Push? {
        assert Shape(st.frames.rest, st.base, false);
        assert Under(st.frames.top, st.frames.rest, st.base, false);
        assert Under(st.frames.rest.top, st.frames.rest.rest, st.base, false);
      }
    }
  }

  /** Hosts whose locked callbacks call neither set_pin nor set_callbacks: no chain of waiting threads ever
      returns, so no thread re-acquires a mutex it holds and no set of threads waits in a circle. */
  lemma NoWaitingCycle(states: seq<State>, moves: seq<Move>, k: nat, path: seq<Tid>)
    requires IsRun(states, moves) && k < |states| && !states[k].sh.lax
    ensures !Returns(states[k], path)
  {
    Invariant(states, moves, k);
    StrictNeverSelfBlocked(states[k]);
    WaitingCycleIff(states, moves, k);
  }

  /** Deadlock freedom for such hosts: whoever a thread inside the library, or a running worker, is
      waiting for in the end can step. */
  lemma NoDeadlock(states: seq<State>, moves: seq<Move>, k: nat, u: Tid) returns (path: seq<Tid>)
    requires IsRun(states, moves) && k < |states| && !states[k].sh.lax
    requires u in states[k].threads && !Quiet(states[k].threads[u])
    ensures WaitPath(states[k], path) && path[0] == u && CanStep(states[k], path[|path| - 1])
  {
    Invariant(states, moves, k);
    StrictNeverSelfBlocked(states[k]);
    path := WaitChain(states, moves, k, u);
  }

  // ------------------------------------------------------------------ for ever

  lemma SelfBlockedStays(sh: Shared, t: Tid, st: Stack, c: Choice)
    requires LocksOk(t, st, sh) && SelfBlocked(st)
    ensures !Exec(sh, t, st, c).Next?
  {
    assert Owns(sh, Wanted(st).value, t);
    assert st.frames.Push?;
    var b, rest := st.base, st.frames.rest;
    match st.frames.top
    case Leaf(op, pc) => assert !StepLeaf(sh, t, b, op, pc, rest).Next?;
    case Notify(op, pc) => assert !StepNotify(sh, t, b, op, pc, rest).Next?;
    case Register(i, m, pc) => assert !StepRegister(sh, t, b, i, m, pc, rest).Next?;
    case StartCall(_, _) =>
    case CreateCall(pc) => assert !StepCreateCall(sh, t, b, pc, rest).Next?;
    case Closure(k, i, pc) => assert !StepClosure(sh, t, b, k, i, pc, rest).Next?;
    case Client(_, _, _, _) =>
  }

  lemma SelfBlockedStep(s: State, s': State, m: Move, t: Tid)
    requires Inv(s) && Step(s, s', m.t, m.c) && t in s.threads && SelfBlocked(s.threads[t])
    ensures t in s'.threads && s'.threads[t] == s.threads[t]
  {
    assert ThreadOk(t, s.threads[t], s.sh) && t < s.sh.nextTid;
    SelfBlockedStays(s.sh, t, s.threads[t], m.c);
  }

  lemma FrozenNext(states: seq<State>, moves: seq<Move>, k: nat, t: Tid)
    requires IsRun(states, moves) && k < |moves|
    requires t in states[k].threads && SelfBlocked(states[k].threads[t])
    ensures t in states[k + 1].threads && states[k + 1].threads[t] == states[k].threads[t]
  {
    Invariant(states, moves, k);
    assert StepAt(states, moves, k);
    SelfBlockedStep(states[k], states[k + 1], moves[k], t);
  }

  lemma {:induction false} SelfBlockedFrozen(states: seq<State>, moves: seq<Move>, j: nat, k: nat, t: Tid)
    requires IsRun(states, moves) && j <= k < |states|
    requires t in states[j].threads && SelfBlocked(states[j].threads[t])
    ensures t in states[k].threads && states[k].threads[t] == states[j].threads[t]
    decreases k
  {
    if j < k {
      SelfBlockedFrozen(states, moves, j, k - 1, t);
      FrozenNext(states, moves, k - 1, t);
    }
  }

  /** Once a thread waits for a mutex it holds, at every later point of the run it is where it was,
      still waiting for it. */
  lemma SelfBlockedForever(states: seq<State>, moves: seq<Move>, j: nat, k: nat, t: Tid)
    requires IsRun(states, moves) && j <= k < |states|
    requires t in states[j].threads && SelfBlocked(states[j].threads[t])
    ensures t in states[k].threads && states[k].threads[t] == states[j].threads[t] && WaitsFor(states[k], t, t)
  {
    SelfBlockedFrozen(states, moves, j, k, t);
    Invariant(states, moves, k);
    SelfBlockedWaits(states[k], t);
  }

  // ------------------------------------------------------------------ from the call to the block

  lemma SetPinTwoSteps(sh: Shared, t: Tid, b: Base, i: InstId, pin: int, value: int, below: Frames)
    requires Callback(i) in HeldByFrames(below) && HeldByBase(b) == {} && below.Push? && below.top.Client?
    requires Signal in sh.core.slots && sh.core.slots[Signal] == i
    ensures var o1 := StepNotify(sh, t, b, SetPin(pin, value), NIn, below);
            && o1.Next? && o1.stack.base == b && o1.stack.frames.Push?
            && o1.stack.frames.rest == below && o1.stack.frames.top.Notify?
            && var o2 := StepNotify(o1.sh, t, b, o1.stack.frames.top.nop, o1.stack.frames.top.npc, below);
               && o2.Next?
               && (SelfBlocked(o2.stack) <==> pin !in sh.pins || sh.pins[pin] != value)
  {
    assert HeldByFrames(Push(Notify(SetPin(pin, value), NDone), below)) == HeldByFrames(below);
    assert HeldByFrames(Push(Closure(Signal, i, CWant), Push(Notify(SetPin(pin, value), NDone), below))) ==
        HeldByFrames(below);
  }

  lemma ClientFacts(sh: Shared, t: Tid, b: Base, op: NotifyOp, pc: NotifyPc, client: Frame, rest: Frames)
    requires SharedOk(sh) && ThreadOk(t, Stack(b, Push(Notify(op, pc), Push(client, rest))), sh)
    requires client.Client? && client.kind != LineConfig
    ensures (b.InCall? || b.Worker?) && HeldByBase(b) == {}
    ensures Callback(b.inst) in HeldByFrames(Push(client, rest))
    ensures Signal in sh.core.slots && sh.core.slots[Signal] == b.inst
  {
    assert Shape(Push(client, rest), b, sh.lax) && ReferTo(Push(client, rest), b.inst);
    assert Under(client, rest, b, sh.lax);
    assert ReferTo(rest, b.inst);
    assert HeldByFrame(rest.top) == {Callback(b.inst)};
  }

  /** set_pin from a locked callback: two steps after its critical section it waits for its own mutex
      if and only if the write changes the pin. */
  lemma SetPinRuns(sh: Shared, t: Tid, b: Base, pin: int, value: int, client: Frame, rest: Frames)
    requires SharedOk(sh) && ThreadOk(t, Stack(b, Push(Notify(SetPin(pin, value), NIn), Push(client, rest))), sh)
    requires LockedClient(client)
    ensures RunsIntoOwnLock(sh, t, Stack(b, Push(Notify(SetPin(pin, value), NIn), Push(client, rest))))
       <==> pin !in sh.pins || sh.pins[pin] != value
  {
    var op, below := SetPin(pin, value), Push(client, rest);
    var st := Stack(b, Push(Notify(op, NIn), below));
    ClientFacts(sh, t, b, op, NIn, client, rest);
    SetPinTwoSteps(sh, t, b, b.inst, pin, value, below);
    var o1 := Exec(sh, t, st, Go);
    var o2 := Exec(o1.sh, t, o1.stack, Go);
    assert OwnSteps(sh, t, st, 0) == Some(st) && !SelfBlocked(st);
    assert OwnSteps(o1.sh, t, o1.stack, 0) == Some(o1.stack);
    assert OwnSteps(sh, t, st, 1) == Some(o1.stack) && !SelfBlocked(o1.stack);
    assert OwnSteps(o2.sh, t, o2.stack, 0) == Some(o2.stack);
    assert OwnSteps(o1.sh, t, o1.stack, 1) == Some(o2.stack);
    assert OwnSteps(sh, t, st, 2) == Some(o2.stack);
  }

  /** The exact condition, over every run: a call made by a callback that runs under the callback
      mutex comes to wait for that very mutex if and only if it is set_callbacks, or set_pin with a
      value that changes the pin. */
  lemma LockedCallBlocksIff(states: seq<State>, moves: seq<Move>, k: nat, t: Tid, f: Frame, client: Frame, rest: Frames)
    requires IsRun(states, moves) && k < |states| && t in states[k].threads
    requires states[k].threads[t].frames == Push(f, Push(client, rest)) && LockedClient(client) && Deciding(f)
    ensures var sh := states[k].sh;
            (RunsIntoOwnLock(sh, t, states[k].threads[t])
             <==> f.Register? || (f.Notify? && (f.nop.pin !in sh.pins || sh.pins[f.nop.pin] != f.nop.value)))
  {
    Invariant(states, moves, k);
    var s := states[k];
    var b := s.threads[t].base;
    var st := Stack(b, Push(f, Push(client, rest)));
    assert s.threads[t] == st;
    assert ThreadOk(t, st, s.sh);
    if Plain(f) {
      BelowHoldsOwn(Push(client, rest), b, s.sh.lax, b.inst);
      PlainNeverBlocks(s.sh, t, b, f, Push(client, rest));
    } else if f.Register? {
      OwnLockIff(t, st, s.sh);
      assert OwnSteps(s.sh, t, st, 0) == Some(st);
    } else {
      SetPinRuns(s.sh, t, b, f.nop.pin, f.nop.value, client, rest);
    }
  }
}
