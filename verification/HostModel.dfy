/** The instance lifecycle and callback protocol of native/wrapper/src/zimodem_host.cpp over the
    process-global HAL state (serial_port.cpp, pins.cpp, log.cpp), as a small-step transition
    system. One step is one lock acquisition, one critical-section body with its release, one
    access to an atomic, or one call or return. Memory is sequentially consistent. */
module HostModel {
  import opened Prelude
  import opened SerialData

  type Tid = nat
  type InstId = nat

  // ------------------------------------------------------------------ locks

  datatype Lock = Singleton | Callback(inst: InstId) | SerialLock | PinsLock | LogLock

  /** The four process-global callback slots; the same four names tell client callbacks apart. */
  datatype Slot = DataReady | Signal | LineConfig | Sink

  /** The order in which set_callbacks writes the function pointers of its fields. */
  function Written(k: nat): Slot {
    if k == 0 then DataReady else if k == 1 then Signal else if k == 2 then Sink else LineConfig
  }

  /** The order in which create installs the slots. */
  function Installed(k: nat): Slot {
    if k == 0 then DataReady else if k == 1 then Signal else if k == 2 then LineConfig else Sink
  }

  /** The order in which destroy clears them. */
  function Cleared(k: nat): Slot {
    if k == 0 then DataReady else if k == 1 then LineConfig else if k == 2 then Signal else Sink
  }

  function SlotLock(k: Slot): Lock {
    match k
    case DataReady => SerialLock
    case LineConfig => SerialLock
    case Signal => PinsLock
    case Sink => LogLock
  }

  // ------------------------------------------------------------------ instances

  /** The callback fields of `zimodem_instance`. A present key is a non-null function pointer;
      each pointer and the context carry the number of the registration that wrote them.
      `gen` numbers the registrations in the order they took `callback_mutex`. */
  datatype Callbacks = Callbacks(fns: map<Slot, nat>, ctx: nat, gen: nat)

  /** The worker side of an instance. `starter` is the thread whose `started.exchange` won and
      that has not spawned yet. The last six fields are history: successful starts, setup() and
      loop() calls begun, whether destroy cleared `running`, the loop() calls begun after that,
      and whether the sketch threw. */
  datatype Work = Work(started: bool, running: bool, starter: Option<Tid>, worker: Option<Tid>,
                       finished: bool, wins: nat, setups: nat, loops: nat, cleared: bool,
                       late: nat, threw: bool)

  const NO_CALLBACKS := Callbacks(map[], 0, 0)
  const NOT_STARTED := Work(false, false, None, None, false, 0, 0, 0, false, 0, false)

  // ------------------------------------------------------------------ threads

  /** Routines that only take one HAL mutex and return. */
  datatype LeafOp = Feed(data: seq<byte>) | RxAvailable | RxRead | GetLine
                  | Available | Read | Peek | PinMode(mpin: int, mode: int) | DigitalRead(rpin: int)

  /** HAL routines that copy a callback slot under their mutex and call the copy after it. */
  datatype NotifyOp = Write(data: seq<byte>) | SetPin(pin: int, value: int)
                    | SetLine(line: Line) | SetBaud(baud: nat) | LogMessage

  datatype LeafPc = Want | In
  datatype NotifyPc = NWant | NIn | NFire(target: Option<InstId>) | NDone
  datatype RegisterPc = RWant | RWrite(k: nat)
  datatype StartPc = StExchange | StSetRunning | StSpawn
  datatype ClosurePc = CWant | CIn | CCalled | CSnapped(fn: nat, ctx: nat) | CUnlocked

  datatype Frame =
    | Leaf(lop: LeafOp, lpc: LeafPc)
    | Notify(nop: NotifyOp, npc: NotifyPc)
    | Register(rinst: InstId, mask: set<Slot>, rpc: RegisterPc)  // zimodem_host_set_callbacks
    | StartCall(sinst: InstId, spc: StartPc)                      // zimodem_host_start
    | CreateCall(ccpc: LeafPc)                                    // create, called from a callback
    | Closure(ckind: Slot, cinst: InstId, cpc: ClosurePc)         // a lambda installed by create
    | Client(kind: Slot, inst: InstId, fn: nat, ctx: nat)         // the host's own callback code

  datatype Frames = Empty | Push(top: Frame, rest: Frames)

  datatype CreatePc = CrWant | CrCheck | CrSlotWant(ci: InstId, ck: nat) | CrSlotIn(ci: InstId, ck: nat)
                    | CrPublish(ci: InstId)
  datatype DestroyPc = DsClear | DsJoin | DsSlotWant(dk: nat) | DsSlotIn(dk: nat)
                     | DsWantSingleton | DsInSingleton | DsDelete
  datatype WorkerPc = WBegin | WSetup | WCheck | WEnter | WLoop | WExit | WFinish

  /** What runs below the frames of a thread. */
  datatype Base =
    | Idle                             // a host thread outside the library
    | InCall(inst: InstId)             // a host thread inside an API call on `inst`
    | Create(cpc: CreatePc)
    | Destroy(inst: InstId, dpc: DestroyPc)
    | Worker(inst: InstId, wpc: WorkerPc)
    | Gone                             // a worker that has returned

  datatype Stack = Stack(base: Base, frames: Frames)

  // ------------------------------------------------------------------ shared state

  /** Where the singleton stands. `Leaving` is a destroy that may still be joining the worker,
      `Closing` one that has joined and cleared the first `k` slots. */
  datatype Life = Vacant | Creating(tid: Tid, inst: InstId, k: nat) | Live(inst: InstId)
                | Leaving(tid: Tid, inst: InstId) | Closing(tid: Tid, inst: InstId, k: nat)

  /** What create, start, destroy and the worker change: the singleton pointer, the slots and the
      worker half of each allocated instance. `life` and `doomed` (instances no longer active but
      not yet deleted) are bookkeeping; the rest is the code's own state. */
  datatype Core = Core(
    active: Option<InstId>,
    slots: map<Slot, InstId>,
    works: map<InstId, Work>,
    life: Life,
    doomed: map<InstId, Tid>,
    nextInst: InstId)

  /** `cbs` is the callback half of each allocated instance, `serial` and `pins` the HAL's data.
      `lax` says what host callbacks may call: see MayCall. */
  datatype Shared = Shared(
    lax: bool,
    owner: map<Lock, Tid>,
    core: Core,
    cbs: map<InstId, Callbacks>,
    serial: Data,
    pins: map<int, int>,
    nextTid: Tid)

  datatype State = State(sh: Shared, threads: map<Tid, Stack>)

  function Acquired(sh: Shared, l: Lock, t: Tid): Shared { sh.(owner := sh.owner[l := t]) }
  function Released(sh: Shared, l: Lock): Shared { sh.(owner := sh.owner - {l}) }
  function WithCallbacks(sh: Shared, i: InstId, cb: Callbacks): Shared { sh.(cbs := sh.cbs[i := cb]) }
  function WithWork(sh: Shared, i: InstId, w: Work): Shared {
    sh.(core := sh.core.(works := sh.core.works[i := w]))
  }
  function WithLife(sh: Shared, life: Life): Shared { sh.(core := sh.core.(life := life)) }

  // ------------------------------------------------------------------ steps

  /** What resolves the nondeterminism of a step: the call a client makes, or how a body ends. */
  datatype Choice = Go | Call(frame: Frame) | Throw
                  | CallCreate | CallApi(inst: InstId, frame: Frame) | CallDestroy(inst: InstId)

  /** `Fault` is a use of an instance that is not allocated, or a create called from a callback that
      finds no active instance. */
  datatype Outcome = Blocked | Fault | Next(sh: Shared, stack: Stack, spawn: Option<InstId>)

  function To(sh: Shared, base: Base, frames: Frames): Outcome {
    Next(sh, Stack(base, frames), None)
  }

  function LeafLock(op: LeafOp): Lock {
    if op.PinMode? || op.DigitalRead? then PinsLock else SerialLock
  }

  function LeafEffect(sh: Shared, op: LeafOp): Shared {
    match op
    case Feed(data) => sh.(serial := Fed(sh.serial, data))
    case RxRead => sh.(serial := RxTaken(sh.serial))
    case Read => sh.(serial := InputTaken(sh.serial))
    case _ => sh
  }

  function StepLeaf(sh: Shared, t: Tid, base: Base, op: LeafOp, pc: LeafPc, rest: Frames): Outcome {
    match pc
    case Want =>
      if LeafLock(op) in sh.owner then Blocked
      else To(Acquired(sh, LeafLock(op), t), base, Push(Leaf(op, In), rest))
    case In => To(Released(LeafEffect(sh, op), LeafLock(op)), base, rest)
  }

  function NotifySlot(op: NotifyOp): Slot {
    match op
    case Write(_) => DataReady
    case SetPin(_, _) => Signal
    case SetLine(_) => LineConfig
    case SetBaud(_) => LineConfig
    case LogMessage => Sink
  }

  function NotifyLock(op: NotifyOp): Lock { SlotLock(NotifySlot(op)) }

  /** Whether the critical section decides to call the copied callback. */
  predicate Fires(sh: Shared, op: NotifyOp) {
    match op
    case Write(data) => data != []
    case SetPin(p, v) => p !in sh.pins || sh.pins[p] != v
    case SetLine(line) => sh.serial.line != line
    case SetBaud(baud) => sh.serial.line.baud != baud
    case LogMessage => true
  }

  function NotifyEffect(sh: Shared, op: NotifyOp): Shared {
    match op
    case Write(data) => sh.(serial := Queued(sh.serial, data))
    case SetPin(p, v) => sh.(pins := sh.pins[p := v])
    case SetLine(line) => sh.(serial := sh.serial.(line := line))
    case SetBaud(baud) => sh.(serial := sh.serial.(line := sh.serial.line.(baud := baud)))
    case LogMessage => sh
  }

  function StepNotify(sh: Shared, t: Tid, base: Base, op: NotifyOp, pc: NotifyPc, rest: Frames): Outcome {
    match pc
    case NWant =>
      if NotifyLock(op) in sh.owner then Blocked
      else To(Acquired(sh, NotifyLock(op), t), base, Push(Notify(op, NIn), rest))
    case NIn =>
      var k := NotifySlot(op);
      var target := if Fires(sh, op) && k in sh.core.slots then Some(sh.core.slots[k]) else None;
      To(Released(NotifyEffect(sh, op), NotifyLock(op)), base, Push(Notify(op, NFire(target)), rest))
    case NFire(target) =>
      if target.None? then To(sh, base, rest)
      else To(sh, base, Push(Closure(NotifySlot(op), target.value, CWant), Push(Notify(op, NDone), rest)))
    case NDone => To(sh, base, rest)
  }

  function StepClosure(sh: Shared, t: Tid, base: Base, k: Slot, i: InstId, pc: ClosurePc, rest: Frames): Outcome {
    match pc
    case CWant =>
      if i !in sh.cbs then Fault
      else if Callback(i) in sh.owner then Blocked
      else To(Acquired(sh, Callback(i), t), base, Push(Closure(k, i, CIn), rest))
    case CIn =>
      if i !in sh.cbs then Fault
      else
        var cb := sh.cbs[i];
        if k !in cb.fns then To(Released(sh, Callback(i)), base, rest)
        else if k == LineConfig then
          To(Released(sh, Callback(i)), base, Push(Closure(k, i, CSnapped(cb.fns[k], cb.ctx)), rest))
        else
          To(sh, base, Push(Client(k, i, cb.fns[k], cb.ctx), Push(Closure(k, i, CCalled), rest)))
    case CCalled => if i !in sh.cbs then Fault else To(Released(sh, Callback(i)), base, rest)
    case CSnapped(fn, ctx) =>
      To(sh, base, Push(Client(k, i, fn, ctx), Push(Closure(k, i, CUnlocked), rest)))
    case CUnlocked => To(sh, base, rest)
  }

  /** One field of set_callbacks per step; field 4 is `user_context`. */
  function FieldWritten(cb: Callbacks, mask: set<Slot>, k: nat): Callbacks
    requires k < 5
  {
    if k == 4 then cb.(ctx := cb.gen)
    else if Written(k) in mask then cb.(fns := cb.fns[Written(k) := cb.gen])
    else cb.(fns := cb.fns - {Written(k)})
  }

  function StepRegister(sh: Shared, t: Tid, base: Base, i: InstId, mask: set<Slot>, pc: RegisterPc,
      rest: Frames): Outcome {
    if i !in sh.cbs then Fault
    else match pc
      case RWant =>
        if Callback(i) in sh.owner then Blocked
        else
          var cb := sh.cbs[i];
          To(WithCallbacks(Acquired(sh, Callback(i), t), i, cb.(gen := cb.gen + 1)), base,
             Push(Register(i, mask, RWrite(0)), rest))
      case RWrite(k) =>
        if k < 5 then
          To(WithCallbacks(sh, i, FieldWritten(sh.cbs[i], mask, k)), base,
             Push(Register(i, mask, RWrite(k + 1)), rest))
        else To(Released(sh, Callback(i)), base, rest)
  }

  function StepStart(sh: Shared, t: Tid, base: Base, i: InstId, pc: StartPc, rest: Frames): Outcome {
    if i !in sh.core.works then Fault
    else
      var w := sh.core.works[i];
      match pc
      case StExchange =>
        if w.started then To(sh, base, rest)  // returns -1
        else To(WithWork(sh, i, w.(started := true, starter := Some(t))), base, Push(StartCall(i, StSetRunning), rest))
      case StSetRunning => To(WithWork(sh, i, w.(running := true)), base, Push(StartCall(i, StSpawn), rest))
      case StSpawn =>
        Next(WithWork(sh, i, w.(starter := None, worker := Some(sh.nextTid), wins := w.wins + 1))
             .(nextTid := sh.nextTid + 1), Stack(base, rest), Some(i))
  }

  /** create called from a callback: an instance is active, so it returns nullptr. */
  function StepCreateCall(sh: Shared, t: Tid, base: Base, pc: LeafPc, rest: Frames): Outcome {
    match pc
    case Want =>
      if Singleton in sh.owner then Blocked
      else To(Acquired(sh, Singleton, t), base, Push(CreateCall(In), rest))
    case In => if sh.core.active.Some? then To(Released(sh, Singleton), base, rest) else Fault
  }

  predicate HostLeaf(op: LeafOp) { op.Feed? || op.RxAvailable? || op.RxRead? || op.GetLine? }

  /** The frame a call to a non-lifecycle API entry point on instance `i` starts with. */
  predicate ApiEntry(i: InstId, f: Frame) {
    match f
    case Leaf(op, pc) => pc == Want && HostLeaf(op)
    case Notify(op, pc) => pc == NWant && op.SetPin?
    case Register(j, _, pc) => pc == RWant && j == i
    case StartCall(j, pc) => pc == StExchange && j == i
    case _ => false
  }

  /** What a client callback of kind `k` may call. All may call create, start, write_serial,
      rx_available, rx_read and get_line_config; the line-config callback, which runs without
      `callback_mutex`, also set_pin and set_callbacks. A lax client calls those from anywhere. */
  predicate MayCall(lax: bool, k: Slot, i: InstId, f: Frame) {
    || f == CreateCall(Want)
    || (ApiEntry(i, f) && (f.Leaf? || f.StartCall? || k == LineConfig || lax))
  }

  function StepClient(sh: Shared, base: Base, k: Slot, i: InstId, frames: Frames, rest: Frames, c: Choice): Outcome {
    if c == Go then To(sh, base, rest)
    else if c.Call? && MayCall(sh.lax, k, i, c.frame) then To(sh, base, Push(c.frame, frames))
    else Blocked
  }

  /** What the sketch's setup() and loop() may call. */
  predicate SketchEntry(f: Frame) {
    (f.Leaf? && f.lpc == Want) || (f.Notify? && f.npc == NWant)
  }

  function StepIdle(sh: Shared, c: Choice): Outcome {
    match c
    case CallCreate => To(sh, Create(CrWant), Empty)
    case CallApi(i, f) =>
      if sh.core.life == Live(i) && ApiEntry(i, f) then To(sh, InCall(i), Push(f, Empty)) else Blocked
    case _ => Blocked
  }

  function StepBeginDestroy(sh: Shared, t: Tid, c: Choice): Outcome {
    if c.CallDestroy? && sh.core.life == Live(c.inst)
    then To(WithLife(sh, Leaving(t, c.inst)), Destroy(c.inst, DsClear), Empty) else Blocked
  }

  function StepCreate(sh: Shared, t: Tid, pc: CreatePc): Outcome {
    match pc
    case CrWant =>
      if Singleton in sh.owner then Blocked
      else To(Acquired(sh, Singleton, t), Create(CrCheck), Empty)
    case CrCheck =>
      if sh.core.active.Some? then To(Released(sh, Singleton), Idle, Empty)  // returns nullptr
      else
        var i := sh.core.nextInst;
        var core := sh.core.(works := sh.core.works[i := NOT_STARTED], nextInst := i + 1, life := Creating(t, i, 0));
        To(WithCallbacks(sh, i, NO_CALLBACKS).(core := core), Create(CrSlotWant(i, 0)), Empty)
    case CrSlotWant(i, k) =>
      if k >= 4 || SlotLock(Installed(k)) in sh.owner then Blocked
      else To(Acquired(sh, SlotLock(Installed(k)), t), Create(CrSlotIn(i, k)), Empty)
    case CrSlotIn(i, k) =>
      if k >= 4 then Blocked
      else
        var core := sh.core.(slots := sh.core.slots[Installed(k) := i], life := Creating(t, i, k + 1));
        To(Released(sh, SlotLock(Installed(k))).(core := core),
           Create(if k == 3 then CrPublish(i) else CrSlotWant(i, k + 1)), Empty)
    case CrPublish(i) =>
      To(Released(sh, Singleton).(core := sh.core.(active := Some(i), life := Live(i))), Idle, Empty)
  }


  predicate Joinable(w: Work) { w.worker.Some? ==> w.finished }

  function StepDestroy(sh: Shared, t: Tid, i: InstId, pc: DestroyPc): Outcome {
    if i !in sh.core.works then Fault
    else
      var w := sh.core.works[i];
      match pc
      case DsClear => To(WithWork(sh, i, w.(running := false, cleared := true)), Destroy(i, DsJoin), Empty)
      case DsJoin =>
        if Joinable(w) then To(WithLife(sh, Closing(t, i, 0)), Destroy(i, DsSlotWant(0)), Empty) else Blocked
      case DsSlotWant(k) =>
        if k >= 4 || SlotLock(Cleared(k)) in sh.owner then Blocked
        else To(Acquired(sh, SlotLock(Cleared(k)), t), Destroy(i, DsSlotIn(k)), Empty)
      case DsSlotIn(k) =>
        if k >= 4 then Blocked
        else
          var core := sh.core.(slots := sh.core.slots - {Cleared(k)}, life := Closing(t, i, k + 1));
          To(Released(sh, SlotLock(Cleared(k))).(core := core),
             Destroy(i, if k == 3 then DsWantSingleton else DsSlotWant(k + 1)), Empty)
      case DsWantSingleton =>
        if Singleton in sh.owner then Blocked
        else To(Acquired(sh, Singleton, t), Destroy(i, DsInSingleton), Empty)
      case DsInSingleton =>
        var core := sh.core.(active := if sh.core.active == Some(i) then None else sh.core.active,
                             life := Vacant, doomed := sh.core.doomed[i := t]);
        To(Released(sh, Singleton).(core := core), Destroy(i, DsDelete), Empty)
      case DsDelete =>
        var core := sh.core.(works := sh.core.works - {i}, doomed := sh.core.doomed - {i});
        To(sh.(core := core, cbs := sh.cbs - {i}), Idle, Empty)
  }

  function StepWorker(sh: Shared, t: Tid, i: InstId, pc: WorkerPc, c: Choice): Outcome {
    if i !in sh.core.works then Fault
    else
      var w := sh.core.works[i];
      match pc
      case WBegin => To(WithWork(sh, i, w.(setups := w.setups + 1)), Worker(i, WSetup), Empty)
      case WSetup => StepBody(sh, i, pc, c)
      case WCheck => To(sh, Worker(i, if w.running then WEnter else WExit), Empty)
      case WEnter =>
        To(WithWork(sh, i, w.(loops := w.loops + 1, late := w.late + if w.cleared then 1 else 0)),
           Worker(i, WLoop), Empty)
      case WLoop => StepBody(sh, i, pc, c)
      case WExit => To(WithWork(sh, i, w.(running := false)), Worker(i, WFinish), Empty)
      case WFinish => To(WithWork(sh, i, w.(finished := true)), Gone, Empty)
  }

  /** setup() or loop() calls into the HAL, returns, or throws; a throw is reported through
      `inst->log`, which is what the log closure runs, and ends the worker. */
  function StepBody(sh: Shared, i: InstId, pc: WorkerPc, c: Choice): Outcome
    requires i in sh.core.works
  {
    match c
    case Go => To(sh, Worker(i, WCheck), Empty)
    case Throw =>
      To(WithWork(sh, i, sh.core.works[i].(threw := true)), Worker(i, WExit), Push(Closure(Sink, i, CWant), Empty))
    case Call(f) => if SketchEntry(f) then To(sh, Worker(i, pc), Push(f, Empty)) else Blocked
    case _ => Blocked
  }

  /** One step of thread `t`, whose stack is `st`. */
  function Exec(sh: Shared, t: Tid, st: Stack, c: Choice): Outcome {
    match st.frames
    case Push(f, rest) => (
      match f
      case Leaf(op, pc) => StepLeaf(sh, t, st.base, op, pc, rest)
      case Notify(op, pc) => StepNotify(sh, t, st.base, op, pc, rest)
      case Register(i, mask, pc) => StepRegister(sh, t, st.base, i, mask, pc, rest)
      case StartCall(i, pc) => StepStart(sh, t, st.base, i, pc, rest)
      case CreateCall(pc) => StepCreateCall(sh, t, st.base, pc, rest)
      case Closure(k, i, pc) => StepClosure(sh, t, st.base, k, i, pc, rest)
      case Client(k, i, _, _) => StepClient(sh, st.base, k, i, st.frames, rest, c))
    case Empty => (
      match st.base
      case Idle => if c.CallDestroy? then StepBeginDestroy(sh, t, c) else StepIdle(sh, c)
      case InCall(_) => To(sh, Idle, Empty)
      case Create(pc) => StepCreate(sh, t, pc)
      case Destroy(i, pc) => StepDestroy(sh, t, i, pc)
      case Worker(i, pc) => StepWorker(sh, t, i, pc, c)
      case Gone => Blocked)
  }

  /** The stated assumption on hosts: destroy(h) is not called while another thread of the host is
      inside a call on h. (That no call follows destroy(h) is the Live test of StepIdle.) */
  predicate NoOverlap(s: State, t: Tid, c: Choice) {
    c.CallDestroy? ==>
      forall u | u in s.threads && u != t :: s.threads[u].base != InCall(c.inst)
  }

  ghost predicate Step(s: State, s': State, t: Tid, c: Choice) {
    && t in s.threads
    && NoOverlap(s, t, c)
    && var o := Exec(s.sh, t, s.threads[t], c);
       && o.Next?
       && s'.sh == o.sh
       && s'.threads == (if o.spawn.Some?
                         then s.threads[t := o.stack][s.sh.nextTid := Stack(Worker(o.spawn.value, WBegin), Empty)]
                         else s.threads[t := o.stack])
  }

  /** Any number of host threads, no instance yet; HAL queues, pins and line settings arbitrary. */
  ghost predicate Init(s: State) {
    && s.sh.owner == map[] && s.sh.cbs == map[]
    && s.sh.core == Core(None, map[], map[], Vacant, map[], s.sh.core.nextInst)
    && forall t | t in s.threads :: t < s.sh.nextTid && s.threads[t] == Stack(Idle, Empty)
  }

  datatype Move = Move(t: Tid, c: Choice)

  ghost predicate StepAt(states: seq<State>, moves: seq<Move>, k: nat)
    requires k < |moves| && |states| == |moves| + 1
  {
    Step(states[k], states[k + 1], moves[k].t, moves[k].c)
  }

  /** `states` is an execution: it starts initially and `moves[k]` leads from state k to k+1. */
  ghost predicate IsRun(states: seq<State>, moves: seq<Move>) {
    && |states| == |moves| + 1
    && Init(states[0])
    && forall k | 0 <= k < |moves| :: StepAt(states, moves, k)
  }
}
