/** Building runs of the host protocol step by step, for the theorems that exhibit one. */
module HostRuns {
  import opened Prelude
  import opened SerialData
  import opened HostModel

  datatype Run = Run(states: seq<State>, moves: seq<Move>)

  type Threads = map<Tid, Stack>

  /** A run that has come to `sh` and `th`. */
  ghost predicate At(r: Run, sh: Shared, th: Threads) {
    && IsRun(r.states, r.moves)
    && r.states[|r.moves|] == State(sh, th)
  }

  const HOST := Stack(Idle, Empty)

  lemma Append(r: Run, s: State, m: Move) returns (r': Run)
    requires IsRun(r.states, r.moves) && Step(r.states[|r.moves|], s, m.t, m.c)
    ensures At(r', s.sh, s.threads) && r'.states[0] == r.states[0]
  {
    r' := Run(r.states + [s], r.moves + [m]);
    forall k | 0 <= k < |r'.moves| ensures StepAt(r'.states, r'.moves, k) {
      if k < |r.moves| { assert StepAt(r.states, r.moves, k); }
    }
  }

  lemma Advance(r: Run, sh: Shared, th: Threads, t: Tid, c: Choice, sh': Shared, st': Stack)
      returns (r': Run, th': Threads)
    requires At(r, sh, th) && t in th && Exec(sh, t, th[t], c) == Next(sh', st', None)
    requires NoOverlap(State(sh, th), t, c)
    ensures At(r', sh', th') && th' == th[t := st'] && r'.states[0] == r.states[0]
  {
    th' := th[t := st'];
    r' := Append(r, State(sh', th'), Move(t, c));
  }

  /** A step that spawns the worker of instance `i`. */
  lemma Spawn(r: Run, sh: Shared, th: Threads, t: Tid, sh': Shared, st': Stack, i: InstId)
      returns (r': Run, th': Threads)
    requires At(r, sh, th) && t in th && Exec(sh, t, th[t], Go) == Next(sh', st', Some(i))
    ensures At(r', sh', th') && th' == th[t := st'][sh.nextTid := Stack(Worker(i, WBegin), Empty)]
    ensures r'.states[0] == r.states[0]
  {
    th' := th[t := st'][sh.nextTid := Stack(Worker(i, WBegin), Empty)];
    r' := Append(r, State(sh', th'), Move(t, Go));
  }

  // ------------------------------------------------------------------ create

  /** create's critical section from its k-th slot on. */
  lemma {:induction false} InstallRest(r: Run, sh: Shared, th: Threads, t: Tid, i: InstId, k: nat)
      returns (r': Run, sh': Shared, th': Threads)
    requires k < 4 && At(r, sh, th) && t in th && th[t] == Stack(Create(CrSlotWant(i, k)), Empty)
    requires sh.owner == map[Singleton := t] && forall x: Slot | Slots(x) < k ::
              x in sh.core.slots && sh.core.slots[x] == i
    ensures At(r', sh', th') && th' == th[t := HOST] && r'.states[0] == r.states[0]
    ensures Created(sh, sh', i)
    decreases 4 - k
  {
    var sh1;
    r', sh1, th' := Install(r, sh, th, t, i, k);
    assert forall x: Slot | Slots(x) < k + 1 :: x == Installed(k) || Slots(x) < k;
    if k < 3 {
      r', sh', th' := InstallRest(r', sh1, th', t, i, k + 1);
    } else {
      sh' := Released(sh1, Singleton).(core := sh1.core.(active := Some(i), life := Live(i)));
      r', th' := Advance(r', sh1, th', t, Go, sh', HOST);
    }
  }

  /** create installs its k-th slot. */
  lemma Install(r: Run, sh: Shared, th: Threads, t: Tid, i: InstId, k: nat)
      returns (r': Run, sh': Shared, th': Threads)
    requires k < 4 && At(r, sh, th) && t in th && th[t] == Stack(Create(CrSlotWant(i, k)), Empty)
    requires sh.owner == map[Singleton := t]
    ensures At(r', sh', th') && r'.states[0] == r.states[0]
    ensures th' == th[t := Stack(Create(if k < 3 then CrSlotWant(i, k + 1) else CrPublish(i)), Empty)]
    ensures sh' == sh.(core := sh.core.(slots := sh.core.slots[Installed(k) := i], life := Creating(t, i, k + 1)))
  {
    var l := SlotLock(Installed(k));
    var sh1 := Acquired(sh, l, t);
    r', th' := Advance(r, sh, th, t, Go, sh1, Stack(Create(CrSlotIn(i, k)), Empty));
    sh' := sh.(core := sh.core.(slots := sh.core.slots[Installed(k) := i], life := Creating(t, i, k + 1)));
    assert sh1.owner - {l} == sh.owner;
    r', th' := Advance(r', sh1, th', t, Go, sh',
        Stack(Create(if k < 3 then CrSlotWant(i, k + 1) else CrPublish(i)), Empty));
  }

  function Slots(x: Slot): nat {
    match x case DataReady => 0 case Signal => 1 case LineConfig => 2 case Sink => 3
  }

  /** What create's slot writes and its publication leave of `sh`. */
  predicate Created(sh: Shared, sh': Shared, i: InstId) {
    && sh' == sh.(owner := map[], core := sh.core.(active := Some(i), life := Live(i), slots := sh'.core.slots))
    && forall x: Slot :: x in sh'.core.slots && sh'.core.slots[x] == i
  }

  /** create() when no instance is active. */
  lemma CreateAll(r: Run, sh: Shared, th: Threads, t: Tid) returns (r': Run, sh': Shared, th': Threads)
    requires At(r, sh, th) && t in th && th[t] == HOST
    requires sh.owner == map[] && sh.core.active.None?
    ensures At(r', sh', th') && th' == th && r'.states[0] == r.states[0]
    ensures var i := sh.core.nextInst;
            Created(WithCallbacks(sh, i, NO_CALLBACKS)
                      .(core := sh.core.(works := sh.core.works[i := NOT_STARTED], nextInst := i + 1)), sh', i)
  {
    var i := sh.core.nextInst;
    r', th' := Advance(r, sh, th, t, CallCreate, sh, Stack(Create(CrWant), Empty));
    var sh1 := Acquired(sh, Singleton, t);
    r', th' := Advance(r', sh, th', t, Go, sh1, Stack(Create(CrCheck), Empty));
    var core := sh.core.(works := sh.core.works[i := NOT_STARTED], nextInst := i + 1, life := Creating(t, i, 0));
    var sh2 := WithCallbacks(sh1, i, NO_CALLBACKS).(core := core);
    r', th' := Advance(r', sh1, th', t, Go, sh2, Stack(Create(CrSlotWant(i, 0)), Empty));
    r', sh', th' := InstallRest(r', sh2, th', t, i, 0);
    assert th' == th;
  }

  // ------------------------------------------------------------------ set_callbacks

  function WriteOrder(x: Slot): nat {
    match x case DataReady => 0 case Signal => 1 case Sink => 2 case LineConfig => 3
  }

  /** set_callbacks from its k-th field on. */
  lemma {:induction false} RegisterRest(r: Run, sh: Shared, th: Threads, t: Tid, i: InstId, mask: set<Slot>, k: nat)
      returns (r': Run, sh': Shared, th': Threads)
    requires k <= 5 && i in sh.cbs && At(r, sh, th) && t in th
    requires th[t] == Stack(InCall(i), Push(Register(i, mask, RWrite(k)), Empty)) && sh.owner == map[Callback(i) := t]
    requires forall x: Slot | WriteOrder(x) < k ::
               (x in sh.cbs[i].fns <==> x in mask) && (x in mask ==> sh.cbs[i].fns[x] == sh.cbs[i].gen)
    requires k == 5 ==> sh.cbs[i].ctx == sh.cbs[i].gen
    ensures At(r', sh', th') && th' == th[t := Stack(InCall(i), Empty)] && r'.states[0] == r.states[0]
    ensures i in sh'.cbs && sh'.cbs[i].gen == sh.cbs[i].gen && Registered(sh'.cbs[i], mask)
    ensures sh' == sh.(owner := map[], cbs := sh.cbs[i := sh'.cbs[i]])
    decreases 5 - k
  {
    if k < 5 {
      var sh1 := WithCallbacks(sh, i, FieldWritten(sh.cbs[i], mask, k));
      assert k < 4 ==> forall x: Slot | WriteOrder(x) < k + 1 :: x == Written(k) || WriteOrder(x) < k;
      r', th' := Advance(r, sh, th, t, Go, sh1, Stack(InCall(i), Push(Register(i, mask, RWrite(k + 1)), Empty)));
      r', sh', th' := RegisterRest(r', sh1, th', t, i, mask, k + 1);
    } else {
      sh' := Released(sh, Callback(i));
      assert sh.owner - {Callback(i)} == map[];
      r', th' := Advance(r, sh, th, t, Go, sh', Stack(InCall(i), Empty));
    }
  }

  /** Exactly the callbacks in `mask`, all of the newest registration. */
  predicate Registered(cb: Callbacks, mask: set<Slot>) {
    && (forall x: Slot :: x in cb.fns <==> x in mask)
    && (forall x | x in mask :: cb.fns[x] == cb.gen) && cb.ctx == cb.gen
  }

  /** A host's call of set_callbacks. */
  lemma RegisterAll(r: Run, sh: Shared, th: Threads, t: Tid, i: InstId, mask: set<Slot>)
      returns (r': Run, sh': Shared, th': Threads)
    requires At(r, sh, th) && t in th && th[t] == HOST && sh.owner == map[] && sh.core.life == Live(i) && i in sh.cbs
    ensures At(r', sh', th') && th' == th && r'.states[0] == r.states[0]
    ensures i in sh'.cbs && sh'.cbs[i].gen == sh.cbs[i].gen + 1 && Registered(sh'.cbs[i], mask)
    ensures sh' == sh.(cbs := sh.cbs[i := sh'.cbs[i]])
  {
    var f := Register(i, mask, RWant);
    r', th' := Advance(r, sh, th, t, CallApi(i, f), sh, Stack(InCall(i), Push(f, Empty)));
    var cb := sh.cbs[i];
    var sh1 := WithCallbacks(Acquired(sh, Callback(i), t), i, cb.(gen := cb.gen + 1));
    assert sh1.owner == map[Callback(i) := t];
    r', th' := Advance(r', sh, th', t, Go, sh1, Stack(InCall(i), Push(Register(i, mask, RWrite(0)), Empty)));
    r', sh', th' := RegisterRest(r', sh1, th', t, i, mask, 0);
    r', th' := Advance(r', sh', th', t, Go, sh', HOST);
    assert th' == th;
  }

  // ------------------------------------------------------------------ start

  /** A worker that has been spawned as thread `u` and has not begun. */
  function Spawned(u: Tid): Work { Work(true, true, None, Some(u), false, 1, 0, 0, false, 0, false) }

  /** A host's first call of start. */
  lemma StartAll(r: Run, sh: Shared, th: Threads, t: Tid, i: InstId) returns (r': Run, sh': Shared, th': Threads)
    requires At(r, sh, th) && t in th && th[t] == HOST && sh.core.life == Live(i)
    requires i in sh.core.works && sh.core.works[i] == NOT_STARTED && sh.nextTid !in th
    ensures At(r', sh', th') && th' == th[sh.nextTid := Stack(Worker(i, WBegin), Empty)] && r'.states[0] == r.states[0]
    ensures sh' == WithWork(sh, i, Spawned(sh.nextTid)).(nextTid := sh.nextTid + 1)
  {
    var f := StartCall(i, StExchange);
    r', th' := Advance(r, sh, th, t, CallApi(i, f), sh, Stack(InCall(i), Push(f, Empty)));
    var w := NOT_STARTED.(started := true, starter := Some(t));
    var sh1 := WithWork(sh, i, w);
    r', th' := Advance(r', sh, th', t, Go, sh1, Stack(InCall(i), Push(StartCall(i, StSetRunning), Empty)));
    var sh2 := WithWork(sh1, i, w.(running := true));
    r', th' := Advance(r', sh1, th', t, Go, sh2, Stack(InCall(i), Push(StartCall(i, StSpawn), Empty)));
    sh' := WithWork(sh, i, Spawned(sh.nextTid)).(nextTid := sh.nextTid + 1);
    assert sh.core.works[i := w][i := w.(running := true)][i := Spawned(sh.nextTid)] ==
        sh.core.works[i := Spawned(sh.nextTid)];
    r', th' := Spawn(r', sh2, th', t, sh', Stack(InCall(i), Empty), i);
    r', th' := Advance(r', sh', th', t, Go, sh', HOST);
    assert th' == th[sh.nextTid := Stack(Worker(i, WBegin), Empty)];
  }

  /** One host thread, no instance, and create(): instance 0. */
  lemma FirstCreated(lax: bool) returns (r: Run, sh: Shared, th: Threads)
    ensures At(r, sh, th) && th == map[0 := HOST] && r.states[0].sh.lax == lax && r.states[0].sh.serial.rx == []
    ensures sh.owner == map[] && sh.core.active == Some(0) && sh.core.life == Live(0) &&
              sh.cbs == map[0 := NO_CALLBACKS] && sh.lax == lax
    ensures sh.core.works == map[0 := NOT_STARTED] && sh.core.nextInst == 1 && sh.nextTid == 1
    ensures sh.core.doomed == map[] && sh.pins == map[] && sh.serial == Data([], [], Line(0, 0))
    ensures forall x: Slot :: x in sh.core.slots && sh.core.slots[x] == 0
  {
    var core := Core(None, map[], map[], Vacant, map[], 0);
    var sh0 := Shared(lax, map[], core, map[], Data([], [], Line(0, 0)), map[], 1);
    th := map[0 := HOST];
    r := Run([State(sh0, th)], []);
    r, sh, th := CreateAll(r, sh0, th, 0);
  }
}
