/** The pin machine of Pins is what runs of the whole host protocol do to the pins: every run of the
    protocol is, step by step, a run of that machine, so its results hold of the protocol. */
module HostPins {
  import opened Prelude
  import opened HostModel
  import opened HostLocks
  import opened HostLifecycle
  import opened HostInvariant
  import opened HostSteps
  import C = Changes
  import P = Pins

  type PinState = P.State

  /** Where a thread is in digital_write. Past the decision not to call, it is out of it. */
  function PcOf(st: Stack): P.Pc {
    if st.frames.Push? && st.frames.top.Notify? && st.frames.top.nop.SetPin? then
      var op := st.frames.top.nop;
      match st.frames.top.npc
      case NWant => P.Want(op.pin, op.value)
      case NIn => P.In(op.pin, op.value)
      case NFire(target) => if target.Some? then P.Fire(op.pin, op.value) else P.Outside
      case NDone => P.Outside
    else P.Outside
  }

  // ------------------------------------------------------------------ one step

  predicate CallsSetPin(f: Frame, pin: int, v: int) { f == Notify(SetPin(pin, v), NWant) }

  predicate Begins(c: Choice, pin: int, v: int) {
    match c
    case Call(f) => CallsSetPin(f, pin, v)
    case CallApi(_, f) => CallsSetPin(f, pin, v)
    case _ => false
  }

  /** What the pin machine makes of a step. */
  predicate Simulated(sh: Shared, st: Stack, c: Choice, o: Outcome) {
    o.Next? ==>
      match PcOf(st)
      case Outside =>
        && o.sh.pins == sh.pins
        && (PcOf(o.stack).Outside? || (PcOf(o.stack).Want? && Begins(c, PcOf(o.stack).pin, PcOf(o.stack).v)))
      case Want(pin, v) => o.sh.pins == sh.pins && PcOf(o.stack) == P.In(pin, v) && PinsLock !in sh.owner
      case In(pin, v) =>
        && o.sh.pins == sh.pins[pin := v]
        && PcOf(o.stack) == if P.Recorded(sh.pins, pin) != Some(v) then P.Fire(pin, v) else P.Outside
      case Fire(_, _) => o.sh.pins == sh.pins && PcOf(o.stack) == P.Outside
  }

  lemma LeafSimulated(sh: Shared, t: Tid, b: Base, op: LeafOp, pc: LeafPc, rest: Frames, c: Choice)
    requires CallerOut(rest)
    ensures Simulated(sh, Stack(b, Push(Leaf(op, pc), rest)), c, StepLeaf(sh, t, b, op, pc, rest))
  {
  }

  lemma NotifySimulated(sh: Shared, t: Tid, b: Base, op: NotifyOp, pc: NotifyPc, rest: Frames, c: Choice)
    requires CallerOut(rest) && Signal in sh.core.slots
    ensures Simulated(sh, Stack(b, Push(Notify(op, pc), rest)), c, StepNotify(sh, t, b, op, pc, rest))
  {
  }

  lemma FrameSimulated(sh: Shared, t: Tid, st: Stack, c: Choice)
    requires st.frames.Push? && CallerOut(st.frames.rest) && Signal in sh.core.slots
    ensures Simulated(sh, st, c, Exec(sh, t, st, c))
  {
    var b, rest := st.base, st.frames.rest;
    assert st == Stack(b, Push(st.frames.top, rest));
    match st.frames.top
    case Leaf(op, pc) => LeafSimulated(sh, t, b, op, pc, rest, c);
    case Notify(op, pc) => NotifySimulated(sh, t, b, op, pc, rest, c);
    case _ =>
      CallApart(sh, t, st, c);
  }

  lemma ExecSimulated(sh: Shared, t: Tid, st: Stack, c: Choice)
    requires SharedOk(sh) && ThreadOk(t, st, sh)
    ensures Simulated(sh, st, c, Exec(sh, t, st, c))
  {
    if st.frames.Push? {
      assert Under(st.frames.top, st.frames.rest, st.base, sh.lax);
      assert SlotSet(sh.core.life, Signal);
      FrameSimulated(sh, t, st, c);
    } else {
      assert st == Stack(st.base, Empty);
      BaseApart(sh, t, st.base, c);
    }
  }

  // ------------------------------------------------------------------ runs

  /** Every call of set_pin, and of digitalWrite by the sketch, is one the policy allows. */
  predicate Allowed(m: Move, may: P.Policy) {
    match m.c
    case Call(f) => FrameAllowed(m.t, f, may)
    case CallApi(_, f) => FrameAllowed(m.t, f, may)
    case _ => true
  }

  predicate FrameAllowed(t: Tid, f: Frame, may: P.Policy) { f.Notify? && f.nop.SetPin? ==> may(t, f.nop.pin) }

  predicate Obeys(moves: seq<Move>, may: P.Policy) { forall k | 0 <= k < |moves| :: Allowed(moves[k], may) }

  /** The write (or the event) that the step of a thread at `pc` makes. */
  function WriteOf(pc: P.Pc): seq<(int, int)> { if pc.In? then [(pc.pin, pc.v)] else [] }

  function EventOf(pc: P.Pc): seq<(int, int)> { if pc.Fire? then [(pc.pin, pc.v)] else [] }

  function PcAt(s: State, t: Tid): P.Pc { if t in s.threads then PcOf(s.threads[t]) else P.Outside }

  /** The pin writes of the run's first `k` steps, in the order of their critical sections. */
  function PinWrites(states: seq<State>, moves: seq<Move>, k: nat): seq<(int, int)>
    requires k <= |moves| && |states| == |moves| + 1
  {
    if k == 0 then [] else PinWrites(states, moves, k - 1) + WriteOf(PcAt(states[k - 1], moves[k - 1].t))
  }

  /** The calls of a copied signal callback among them. */
  function PinEvents(states: seq<State>, moves: seq<Move>, k: nat): seq<(int, int)>
    requires k <= |moves| && |states| == |moves| + 1
  {
    if k == 0 then [] else PinEvents(states, moves, k - 1) + EventOf(PcAt(states[k - 1], moves[k - 1].t))
  }

  /** The pin machine's view of the k-th state; `threads` are those that ever exist. */
  function View(states: seq<State>, moves: seq<Move>, k: nat, threads: set<Tid>): PinState
    requires k <= |moves| && |states| == |moves| + 1
  {
    P.State(states[k].sh.pins, map t | t in threads :: PcAt(states[k], t), states[0].sh.pins,
            PinWrites(states, moves, k), PinEvents(states, moves, k))
  }

  lemma NobodyInside(s: State, threads: set<Tid>)
    requires Inv(s) && PinsLock !in s.sh.owner
    ensures forall t | t in threads :: !PcAt(s, t).In?
  {
    forall t | t in threads && t in s.threads ensures !PcOf(s.threads[t]).In? {
      var st := s.threads[t];
      assert ThreadOk(t, st, s.sh);
      assert PcOf(st).In? ==> PinsLock in HeldByFrame(st.frames.top);
      assert PinsLock in Held(st) <==> Owns(s.sh, PinsLock, t);
    }
  }

  /** Only the moving thread's place changes; a new worker starts outside. */
  lemma OthersStay(s: State, s': State, m: Move, u: Tid)
    requires Inv(s) && Step(s, s', m.t, m.c) && u != m.t
    ensures PcAt(s', u) == PcAt(s, u)
  {
    assert m.t < s.sh.nextTid && s.sh.nextTid !in s.threads;
  }

  /** A step of the protocol is a step of the pin machine, or none. */
  lemma StepSimulated(states: seq<State>, moves: seq<Move>, k: nat, threads: set<Tid>, may: P.Policy)
    requires k < |moves| && |states| == |moves| + 1 && StepAt(states, moves, k)
    requires Inv(states[k]) && moves[k].t in threads && Allowed(moves[k], may)
    ensures var v, v' := View(states, moves, k, threads), View(states, moves, k + 1, threads);
            v' == v || P.ThreadStep(v, v', moves[k].t, may)
  {
    var s, s', m := states[k], states[k + 1], moves[k];
    var v, v' := View(states, moves, k, threads), View(states, moves, k + 1, threads);
    var pc, pc' := PcAt(s, m.t), PcAt(s', m.t);
    assert ThreadOk(m.t, s.threads[m.t], s.sh);
    ExecSimulated(s.sh, m.t, s.threads[m.t], m.c);
    assert pc' == PcOf(Exec(s.sh, m.t, s.threads[m.t], m.c).stack) by { assert m.t < s.sh.nextTid; }
    assert v'.pcs == v.pcs[m.t := pc'] by {
      forall u | u in threads ensures v'.pcs[u] == v.pcs[m.t := pc'][u] {
        if u != m.t { OthersStay(s, s', m, u); }
      }
    }
    Matches(v, v', m.t, may, pc, pc', m.c, s, threads);
  }

  /** The four cases, on the views alone. */
  lemma Matches(v: PinState, v': PinState, t: Tid, may: P.Policy, pc: P.Pc, pc': P.Pc, c: Choice, s: State,
      threads: set<Tid>)
    requires Inv(s) && t in v.pcs && v.pcs[t] == pc && v.pcs.Keys == threads
    requires v.pcs == (map u | u in threads :: PcAt(s, u)) && v.value == s.sh.pins
    requires v' == v.(value := v'.value, pcs := v.pcs[t := pc'],
                      writes := v.writes + WriteOf(pc), events := v.events + EventOf(pc))
    requires Allowed(Move(t, c), may)
    requires match pc
             case Outside => v'.value == v.value && (pc'.Outside? || (pc'.Want? && Begins(c, pc'.pin, pc'.v)))
             case Want(pin, w) => v'.value == v.value && pc' == P.In(pin, w) && PinsLock !in s.sh.owner
             case In(pin, w) =>
               && v'.value == v.value[pin := w]
               && pc' == (if P.Recorded(v.value, pin) != Some(w) then P.Fire(pin, w) else P.Outside)
             case Fire(_, _) => v'.value == v.value && pc' == P.Outside
    ensures v' == v || P.ThreadStep(v, v', t, may)
  {
    Unit(v.writes);
    Unit(v.events);
    match pc
    case Outside =>
      if pc'.Outside? { assert v.pcs[t := pc'] == v.pcs; } else { assert P.Begins(v, v', t, pc'.pin, pc'.v); }
    case Want(_, _) => NobodyInside(s, threads);
    case _ =>
  }

  lemma ThreadsStay(states: seq<State>, moves: seq<Move>, k: nat)
    requires k < |moves| && |states| == |moves| + 1 && StepAt(states, moves, k)
    ensures moves[k].t in states[k].threads && states[k].threads.Keys <= states[k + 1].threads.Keys
  {
  }

  lemma {:induction false} ThreadsGrow(states: seq<State>, moves: seq<Move>, j: nat, k: nat)
    requires IsRun(states, moves) && j <= k < |states|
    ensures states[j].threads.Keys <= states[k].threads.Keys
    decreases k
  {
    if j < k {
      ThreadsGrow(states, moves, j, k - 1);
      assert StepAt(states, moves, k - 1);
      ThreadsStay(states, moves, k - 1);
    }
  }

  /** A run of the pin machine that ends in the view of the k-th state. */
  ghost predicate Shadows(run: seq<PinState>, states: seq<State>, moves: seq<Move>, k: nat, threads: set<Tid>,
      may: P.Policy)
    requires k <= |moves| && |states| == |moves| + 1
  {
    && P.IsRun(run, may) && run[|run| - 1] == View(states, moves, k, threads)
    && run[0].pcs.Keys == threads && run[0].initial == states[0].sh.pins
  }

  lemma ShadowStart(states: seq<State>, moves: seq<Move>, threads: set<Tid>, may: P.Policy)
    requires |states| == |moves| + 1 && Init(states[0])
    ensures Shadows([View(states, moves, 0, threads)], states, moves, 0, threads, may)
  {
  }

  lemma ShadowStep(run: seq<PinState>, states: seq<State>, moves: seq<Move>, k: nat, threads: set<Tid>, may: P.Policy)
      returns (longer: seq<PinState>)
    requires k < |moves| && |states| == |moves| + 1 && StepAt(states, moves, k)
    requires Shadows(run, states, moves, k, threads, may)
    requires Inv(states[k]) && moves[k].t in threads && Allowed(moves[k], may)
    ensures Shadows(longer, states, moves, k + 1, threads, may)
  {
    StepSimulated(states, moves, k, threads, may);
    var v, v' := View(states, moves, k, threads), View(states, moves, k + 1, threads);
    if v' == v { longer := run; } else { longer := P.Extend(run, v, v', moves[k].t, may); }
  }

  /** Every run of the protocol is a run of the pin machine. */
  lemma {:induction false} Simulation(states: seq<State>, moves: seq<Move>, k: nat, threads: set<Tid>, may: P.Policy)
      returns (run: seq<PinState>)
    requires IsRun(states, moves) && k < |states| && Obeys(moves, may)
    requires states[k].threads.Keys <= threads
    ensures Shadows(run, states, moves, k, threads, may)
    decreases k
  {
    if k == 0 {
      ShadowStart(states, moves, threads, may);
      run := [View(states, moves, 0, threads)];
    } else {
      ThreadsGrow(states, moves, k - 1, k);
      run := Simulation(states, moves, k - 1, threads, may);
      Invariant(states, moves, k - 1);
      assert StepAt(states, moves, k - 1);
      ThreadsStay(states, moves, k - 1);
      run := ShadowStep(run, states, moves, k - 1, threads, may);
    }
  }

  /** The event of `pin` that `w` is about to raise. */
  function DueOn(s: State, pin: int, w: Tid): seq<int> {
    if PcAt(s, w).Fire? && PcAt(s, w).pin == pin then [PcAt(s, w).v] else []
  }

  /** In every run of the protocol, whatever instances come and go: where one thread at most writes a
      pin, its events, with the one about to be raised, are its writes with repeats removed, starting
      from what the table held when the process began; and the table holds its last write. */
  lemma PinEventsAreEdges(states: seq<State>, moves: seq<Move>, k: nat, may: P.Policy, pin: int, w: Tid)
    requires IsRun(states, moves) && k < |states| && Obeys(moves, may)
    requires P.OnlyWriter(states[k].threads.Keys, may, pin, w)
    ensures P.OnPin(PinEvents(states, moves, k), pin) + DueOn(states[k], pin, w)
         == C.Edges(P.Recorded(states[0].sh.pins, pin), P.OnPin(PinWrites(states, moves, k), pin))
    ensures P.Recorded(states[k].sh.pins, pin)
         == C.Latest(P.Recorded(states[0].sh.pins, pin), P.OnPin(PinWrites(states, moves, k), pin))
  {
    var run := Simulation(states, moves, k, states[k].threads.Keys, may);
    ShadowResult(run, states, moves, k, may, pin, w);
  }

  lemma ShadowResult(run: seq<PinState>, states: seq<State>, moves: seq<Move>, k: nat, may: P.Policy, pin: int, w: Tid)
    requires k <= |moves| && |states| == |moves| + 1
    requires Shadows(run, states, moves, k, states[k].threads.Keys, may)
    requires P.OnlyWriter(states[k].threads.Keys, may, pin, w)
    ensures P.OnPin(PinEvents(states, moves, k), pin) + DueOn(states[k], pin, w)
         == C.Edges(P.Recorded(states[0].sh.pins, pin), P.OnPin(PinWrites(states, moves, k), pin))
    ensures P.Recorded(states[k].sh.pins, pin)
         == C.Latest(P.Recorded(states[0].sh.pins, pin), P.OnPin(PinWrites(states, moves, k), pin))
  {
    var n := |run| - 1;
    P.PinEventsAreEdges(run, n, may, pin, w);
    P.TableIsLastWrite(run, n, may, pin);
    assert P.Pending(run[n], pin, w) == DueOn(states[k], pin, w);
  }
}
