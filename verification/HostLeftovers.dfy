/** A run of the host protocol in which a second instance finds, in its receive queue, a byte that the
    first one's setup() wrote and no handler took. */
module HostLeftovers {
  import opened Prelude
  import opened HostModel
  import opened HostRuns

  const RUNNING := Work(true, true, None, Some(1), false, 1, 0, 0, false, 0, false)

  /** create() and start(): the worker is thread 1. */
  lemma Started() returns (r: Run, sh: Shared, th: Threads)
    ensures At(r, sh, th) && th == map[0 := HOST, 1 := Stack(Worker(0, WBegin), Empty)] &&
              r.states[0].sh.serial.rx == []
    ensures sh.owner == map[] && sh.core.life == Live(0) && sh.cbs == map[0 := NO_CALLBACKS]
    ensures sh.core.works == map[0 := RUNNING] && sh.core.nextInst == 1 && sh.core.doomed == map[] && sh.serial.rx == []
    ensures sh.core.active == Some(0)
    ensures forall x: Slot :: x in sh.core.slots && sh.core.slots[x] == 0
  {
    r, sh, th := FirstCreated(false);
    r, sh, th := StartAll(r, sh, th, 0, 0);
    assert sh.core.works == map[0 := RUNNING];
    assert th == map[0 := HOST, 1 := Stack(Worker(0, WBegin), Empty)];
  }

  function InSetup(frames: Frames): Stack { Stack(Worker(0, WSetup), frames) }

  /** setup() calls write with one byte; nobody has registered a handler. */
  lemma Written() returns (r: Run, sh: Shared, th: Threads)
    ensures At(r, sh, th) && th == map[0 := HOST, 1 := Stack(Worker(0, WCheck), Empty)] &&
              r.states[0].sh.serial.rx == []
    ensures sh.owner == map[] && sh.core.life == Live(0) && sh.core.active == Some(0) && 0 in sh.cbs
    ensures sh.core.works == map[0 := RUNNING.(setups := 1)] && sh.core.nextInst == 1 && sh.core.doomed == map[]
    ensures sh.serial.rx == [65]
  {
    r, sh, th := Started();
    var sh1 := WithWork(sh, 0, RUNNING.(setups := 1));
    r, th := Advance(r, sh, th, 1, Go, sh1, InSetup(Empty));
    assert sh1.core.works == map[0 := RUNNING.(setups := 1)];
    r, sh, th := WriteOne(r, sh1, th);
    r, th := Advance(r, sh, th, 1, Go, sh, Stack(Worker(0, WCheck), Empty));
    assert th == map[0 := HOST, 1 := Stack(Worker(0, WCheck), Empty)];
  }

  /** The write and its wake-up, which finds no callback. */
  lemma WriteOne(r: Run, sh: Shared, th: Threads) returns (r': Run, sh': Shared, th': Threads)
    requires At(r, sh, th) && 1 in th && th[1] == InSetup(Empty)
    requires sh.owner == map[] && sh.cbs == map[0 := NO_CALLBACKS] && 0 in sh.core.works && sh.serial.rx == []
    requires DataReady in sh.core.slots && sh.core.slots[DataReady] == 0
    ensures At(r', sh', th') && th' == th && r'.states[0] == r.states[0]
    ensures sh' == sh.(serial := sh.serial.(rx := [65]))
  {
    var op: NotifyOp := NotifyOp.Write([65]);
    r', th' := Advance(r, sh, th, 1, Call(Notify(op, NWant)), sh, InSetup(Push(Notify(op, NWant), Empty)));
    var sh1 := Acquired(sh, SerialLock, 1);
    r', th' := Advance(r', sh, th', 1, Go, sh1, InSetup(Push(Notify(op, NIn), Empty)));
    sh' := sh.(serial := sh.serial.(rx := [65]));
    assert sh1.owner - {SerialLock} == sh.owner;
    r', th' := Advance(r', sh1, th', 1, Go, sh', InSetup(Push(Notify(op, NFire(Some(0))), Empty)));
    r', th' := WakeNobody(r', sh', th', op);
    assert th' == th;
  }

  /** The wake-up's closure finds no callback registered, and write returns. */
  lemma WakeNobody(r: Run, sh: Shared, th: Threads, op: NotifyOp) returns (r': Run, th': Threads)
    requires At(r, sh, th) && 1 in th && th[1] == InSetup(Push(Notify(op, NFire(Some(0))), Empty)) && op.Write?
    requires sh.owner == map[] && sh.cbs == map[0 := NO_CALLBACKS]
    ensures At(r', sh, th') && th' == th[1 := InSetup(Empty)] && r'.states[0] == r.states[0]
  {
    var done := Push(Notify(op, NDone), Empty);
    r', th' := Advance(r, sh, th, 1, Go, sh, InSetup(Push(Closure(DataReady, 0, CWant), done)));
    var sh1 := Acquired(sh, Callback(0), 1);
    r', th' := Advance(r', sh, th', 1, Go, sh1, InSetup(Push(Closure(DataReady, 0, CIn), done)));
    assert sh1.owner - {Callback(0)} == sh.owner;
    r', th' := Advance(r', sh1, th', 1, Go, sh, InSetup(done));
    r', th' := Advance(r', sh, th', 1, Go, sh, InSetup(Empty));
  }

  const ENDED := RUNNING.(setups := 1, running := false, cleared := true, finished := true)

  const STOPPED := RUNNING.(setups := 1, running := false, cleared := true)

  /** destroy() clears `running`; the worker sees it. */
  lemma Stopped() returns (r: Run, sh: Shared, th: Threads)
    ensures At(r, sh, th) && r.states[0].sh.serial.rx == []
    ensures th == map[0 := Stack(Destroy(0, DsJoin), Empty), 1 := Stack(Worker(0, WExit), Empty)]
    ensures sh.owner == map[] && sh.core.life == Leaving(0, 0) && sh.core.active == Some(0) && 0 in sh.cbs
    ensures sh.core.works == map[0 := STOPPED] && sh.core.nextInst == 1 && sh.core.doomed == map[]
    ensures sh.serial.rx == [65]
  {
    r, sh, th := Written();
    var sh1 := WithLife(sh, Leaving(0, 0));
    r, th := Advance(r, sh, th, 0, CallDestroy(0), sh1, Stack(Destroy(0, DsClear), Empty));
    sh := WithWork(sh1, 0, STOPPED);
    r, th := Advance(r, sh1, th, 0, Go, sh, Stack(Destroy(0, DsJoin), Empty));
    r, th := Advance(r, sh, th, 1, Go, sh, Stack(Worker(0, WExit), Empty));
    assert th == map[0 := Stack(Destroy(0, DsJoin), Empty), 1 := Stack(Worker(0, WExit), Empty)];
    assert sh.core.works == map[0 := STOPPED];
  }

  /** The worker ends, and destroy joins it. */
  lemma Joined() returns (r: Run, sh: Shared, th: Threads)
    ensures At(r, sh, th) && th == map[0 := Stack(Destroy(0, DsSlotWant(0)), Empty), 1 := Stack(Gone, Empty)]
    ensures r.states[0].sh.serial.rx == []
    ensures sh.owner == map[] && sh.core.life == Closing(0, 0, 0) && sh.core.active == Some(0) && 0 in sh.cbs
    ensures sh.core.works == map[0 := ENDED] && sh.core.nextInst == 1 && sh.core.doomed == map[]
    ensures sh.serial.rx == [65]
  {
    r, sh, th := Stopped();
    var sh1 := WithWork(sh, 0, STOPPED);
    r, th := Advance(r, sh, th, 1, Go, sh1, Stack(Worker(0, WFinish), Empty));
    var sh2 := WithWork(sh1, 0, ENDED);
    r, th := Advance(r, sh1, th, 1, Go, sh2, Stack(Gone, Empty));
    sh := WithLife(sh2, Closing(0, 0, 0));
    r, th := Advance(r, sh2, th, 0, Go, sh, Stack(Destroy(0, DsSlotWant(0)), Empty));
    assert th == map[0 := Stack(Destroy(0, DsSlotWant(0)), Empty), 1 := Stack(Gone, Empty)];
    assert sh.core.works == map[0 := ENDED];
  }

  /** destroy() clears its k-th slot and those after it. */
  lemma {:induction false} ClearRest(r: Run, sh: Shared, th: Threads, k: nat)
      returns (r': Run, sh': Shared, th': Threads)
    requires k < 4 && At(r, sh, th) && 0 in th && th[0] == Stack(Destroy(0, DsSlotWant(k)), Empty)
    requires sh.owner == map[] && 0 in sh.core.works
    ensures At(r', sh', th') && th' == th[0 := Stack(Destroy(0, DsWantSingleton), Empty)] && r'.states[0] == r.states[0]
    ensures sh' == sh.(core := sh.core.(slots := sh'.core.slots, life := Closing(0, 0, 4)))
    decreases 4 - k
  {
    var l := SlotLock(Cleared(k));
    var sh1 := Acquired(sh, l, 0);
    r', th' := Advance(r, sh, th, 0, Go, sh1, Stack(Destroy(0, DsSlotIn(k)), Empty));
    sh' := sh.(core := sh.core.(slots := sh.core.slots - {Cleared(k)}, life := Closing(0, 0, k + 1)));
    assert sh1.owner - {l} == sh.owner;
    var next := if k < 3 then DsSlotWant(k + 1) else DsWantSingleton;
    r', th' := Advance(r', sh1, th', 0, Go, sh', Stack(Destroy(0, next), Empty));
    if k < 3 {
      r', sh', th' := ClearRest(r', sh', th', k + 1);
    }
  }

  /** The last three steps of destroy(). */
  lemma Forget(r: Run, sh: Shared, th: Threads) returns (r': Run, sh': Shared, th': Threads)
    requires At(r, sh, th) && 0 in th && th[0] == Stack(Destroy(0, DsWantSingleton), Empty)
    requires sh.owner == map[] && sh.core.active == Some(0) && 0 in sh.core.works
    ensures At(r', sh', th') && th' == th[0 := HOST] && r'.states[0] == r.states[0]
    ensures sh'.owner == map[] && sh'.core.active == None && sh'.core.nextInst == sh.core.nextInst
    ensures sh'.core.works == sh.core.works - {0} && sh'.serial == sh.serial
  {
    var sh1 := Acquired(sh, Singleton, 0);
    r', th' := Advance(r, sh, th, 0, Go, sh1, Stack(Destroy(0, DsInSingleton), Empty));
    var sh2 := sh.(core := sh.core.(active := None, life := Vacant, doomed := sh.core.doomed[0 := 0]));
    assert sh1.owner - {Singleton} == sh.owner;
    r', th' := Advance(r', sh1, th', 0, Go, sh2, Stack(Destroy(0, DsDelete), Empty));
    var core := sh2.core.(works := sh2.core.works - {0}, doomed := sh2.core.doomed - {0});
    sh' := sh2.(core := core, cbs := sh2.cbs - {0});
    r', th' := Advance(r', sh2, th', 0, Go, sh', HOST);
  }

  /** destroy() returns. */
  lemma FirstDestroyed() returns (r: Run, sh: Shared, th: Threads)
    ensures At(r, sh, th) && th == map[0 := HOST, 1 := Stack(Gone, Empty)] && r.states[0].sh.serial.rx == []
    ensures sh.owner == map[] && sh.core.active == None && sh.core.nextInst == 1 && sh.core.works == map[]
    ensures sh.serial.rx == [65]
  {
    r, sh, th := Joined();
    r, sh, th := ClearRest(r, sh, th, 0);
    r, sh, th := Forget(r, sh, th);
    assert th == map[0 := HOST, 1 := Stack(Gone, Empty)];
    assert sh.core.works == map[];
  }

  /** The run: the process begins with an empty queue; in its last state a second instance is live and
      not started, no thread is in a call, and the queue holds the first instance's byte. */
  lemma SecondFindsBytes() returns (states: seq<State>, moves: seq<Move>)
    ensures IsRun(states, moves) && states[0].sh.serial.rx == []
    ensures var last := states[|moves|];
            && last.sh.core.life == Live(1) && last.sh.core.works == map[1 := NOT_STARTED]
            && (forall t | t in last.threads ::
                last.threads[t].frames.Empty? && (last.threads[t].base.Idle? || last.threads[t].base.Gone?))
            && last.sh.serial.rx == [65]
  {
    var r, sh, th := FirstDestroyed();
    r, sh, th := CreateAll(r, sh, th, 0);
    states, moves := r.states, r.moves;
    assert map[][1 := NOT_STARTED] == map[1 := NOT_STARTED];
  }
}
