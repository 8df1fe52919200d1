/** The client restriction of HostDeadlock is needed: a host whose signal callback calls set_pin with
    a changing value reaches a state in which nothing can ever move again. */
module HostSelfLock {
  import opened Prelude
  import opened HostModel
  import opened HostLocks
  import opened HostRuns
  import opened HostDeadlock

  /** create(), then set_callbacks with a signal callback. */
  lemma WithSignalCallback() returns (r: Run, sh: Shared, th: Threads)
    ensures At(r, sh, th) && th == map[0 := HOST] && r.states[0].sh.lax
    ensures sh.owner == map[] && sh.core.life == Live(0) && sh.lax
    ensures 0 in sh.cbs && Signal in sh.cbs[0].fns && sh.pins == map[]
    ensures Signal in sh.core.slots && sh.core.slots[Signal] == 0
  {
    r, sh, th := FirstCreated(true);
    r, sh, th := RegisterAll(r, sh, th, 0, 0, {Signal});
    assert th == map[0 := HOST];
  }

  /** From `below`, set_pin with a changing value runs up to the signal closure's lock. */
  lemma PinUpToClosure(r: Run, sh: Shared, th: Threads, pin: int, value: int, below: Frames)
      returns (r': Run, sh': Shared, th': Threads)
    requires At(r, sh, th) && 0 in th && th[0] == Stack(InCall(0), Push(Notify(SetPin(pin, value), NWant), below))
    requires PinsLock !in sh.owner && (pin !in sh.pins || sh.pins[pin] != value)
    requires Signal in sh.core.slots && sh.core.slots[Signal] == 0
    ensures At(r', sh', th') && r'.states[0] == r.states[0] && sh' == sh.(pins := sh.pins[pin := value])
    ensures th' == th[0 := Stack(InCall(0),
              Push(Closure(Signal, 0, CWant), Push(Notify(SetPin(pin, value), NDone), below)))]
  {
    var op := SetPin(pin, value);
    var sh1 := Acquired(sh, PinsLock, 0);
    sh' := Released(NotifyEffect(sh1, op), PinsLock);
    assert sh'.owner == sh.owner;
    r', th' := Advance(r, sh, th, 0, Go, sh1, Stack(InCall(0), Push(Notify(op, NIn), below)));
    r', th' := Advance(r', sh1, th', 0, Go, sh', Stack(InCall(0), Push(Notify(op, NFire(Some(0))), below)));
    r', th' := Advance(r', sh', th', 0, Go, sh',
                    Stack(InCall(0), Push(Closure(Signal, 0, CWant), Push(Notify(op, NDone), below))));
  }

  /** create, set_callbacks(on_signal), set_pin(5, 1) from the host, up to the call of on_signal. */
  lemma InSignalCallback() returns (r: Run, sh: Shared, th: Threads, client: Frame)
    ensures At(r, sh, th) && r.states[0].sh.lax && client.Client? && client.kind == Signal && client.inst == 0
    ensures th == map[0 := Stack(InCall(0),
              Push(client, Push(Closure(Signal, 0, CCalled), Push(Notify(SetPin(5, 1), NDone), Empty))))]
    ensures sh.owner == map[Callback(0) := 0] && 0 in sh.cbs && sh.lax && sh.pins == map[5 := 1]
    ensures Signal in sh.core.slots && sh.core.slots[Signal] == 0
  {
    r, sh, th := WithSignalCallback();
    var f := Notify(SetPin(5, 1), NWant);
    r, th := Advance(r, sh, th, 0, CallApi(0, f), sh, Stack(InCall(0), Push(f, Empty)));
    r, sh, th := PinUpToClosure(r, sh, th, 5, 1, Empty);
    var below := Push(Notify(SetPin(5, 1), NDone), Empty);
    var sh1 := Acquired(sh, Callback(0), 0);
    assert sh1.owner == map[Callback(0) := 0];
    r, th := Advance(r, sh, th, 0, Go, sh1, Stack(InCall(0), Push(Closure(Signal, 0, CIn), below)));
    client := Client(Signal, 0, sh.cbs[0].fns[Signal], sh.cbs[0].ctx);
    r, th := Advance(r, sh1, th, 0, Go, sh1, Stack(InCall(0), Push(client, Push(Closure(Signal, 0, CCalled), below))));
    sh := sh1;
    assert map[][5 := 1] == map[5 := 1];
  }

  /** And on_signal calls set_pin(5, 0). */
  lemma SignalCallbackCallsSetPin() returns (r: Run, sh: Shared, st: Stack)
    ensures At(r, sh, map[0 := st]) && r.states[0].sh.lax
    ensures SelfBlocked(st) && st.frames.Push? && st.frames.top == Closure(Signal, 0, CWant)
    ensures sh.owner == map[Callback(0) := 0] && 0 in sh.cbs
  {
    var th, client;
    r, sh, th, client := InSignalCallback();
    var calling := th[0].frames;
    var g := Notify(SetPin(5, 0), NWant);
    r, th := Advance(r, sh, th, 0, Call(g), sh, Stack(InCall(0), Push(g, calling)));
    r, sh, th := PinUpToClosure(r, sh, th, 5, 0, calling);
    st := Stack(InCall(0), Push(Closure(Signal, 0, CWant), Push(Notify(SetPin(5, 0), NDone), calling)));
    assert th == map[0 := st];
    assert Callback(0) in HeldByFrame(Closure(Signal, 0, CCalled));
    assert Callback(0) in HeldByFrames(calling.rest) && Callback(0) in HeldByFrames(calling);
    assert HeldByFrames(st.frames.rest) == HeldByFrame(st.frames.rest.top) + HeldByFrames(calling);
  }

  /** The counterexample: a run, from a start with one host thread, to a state in which that thread
      waits for itself and no thread can take any step. */
  lemma LaxClientDeadlocks() returns (states: seq<State>, moves: seq<Move>)
    ensures IsRun(states, moves) && states[0].sh.lax
    ensures var last := states[|moves|];
            && WaitsFor(last, 0, 0)
            && forall t, c, s' :: !Step(last, s', t, c)
  {
    var r, sh, st := SignalCallbackCallsSetPin();
    states, moves := r.states, r.moves;
    var last := states[|moves|];
    assert Owns(sh, Callback(0), 0);
    forall t, c, s' ensures !Step(last, s', t, c) {
      if t in last.threads {
        assert t == 0;
        assert StepClosure(sh, 0, st.base, Signal, 0, CWant, st.frames.rest) == Blocked;
      }
    }
  }
}
