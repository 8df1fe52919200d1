/** Runs of the host protocol in which the worker does what it is for: it runs loop(), which changes the
    line settings and is reported through the line-config callback, and an exception of loop() is
    reported through the log callback. */
module HostLoops {
  import opened Prelude
  import opened SerialData
  import opened HostModel
  import opened HostRuns

  const MASK: set<Slot> := {LineConfig, Sink}
  const NEW_LINE := Line(9600, 0x800001c)

  /** create, set_callbacks and start; then setup() returns and the first loop() begins. */
  lemma LoopBegun() returns (r: Run, sh: Shared, th: Threads)
    ensures At(r, sh, th) && th == map[0 := HOST, 1 := InLoop(Empty)]
    ensures sh.owner == map[] && 0 in sh.cbs && Registered(sh.cbs[0], MASK) && sh.serial.line == Line(0, 0)
    ensures sh.core.works == map[0 := Spawned(1).(setups := 1, loops := 1)]
    ensures forall x: Slot :: x in sh.core.slots && sh.core.slots[x] == 0
  {
    r, sh, th := FirstCreated(false);
    r, sh, th := RegisterAll(r, sh, th, 0, 0, MASK);
    r, sh, th := StartAll(r, sh, th, 0, 0);
    r, sh, th := SetupReturns(r, sh, th);
    assert th == map[0 := HOST, 1 := InLoop(Empty)];
  }

  function InLoop(frames: Frames): Stack { Stack(Worker(0, WLoop), frames) }

  lemma SetupReturns(r: Run, sh: Shared, th: Threads) returns (r': Run, sh': Shared, th': Threads)
    requires At(r, sh, th) && 1 in th && th[1] == Stack(Worker(0, WBegin), Empty) &&
              sh.core.works == map[0 := Spawned(1)]
    ensures At(r', sh', th') && th' == th[1 := InLoop(Empty)]
    ensures sh' == sh.(core := sh.core.(works := map[0 := Spawned(1).(setups := 1, loops := 1)]))
  {
    var sh1 := WithWork(sh, 0, Spawned(1).(setups := 1));
    r', th' := Advance(r, sh, th, 1, Go, sh1, Stack(Worker(0, WSetup), Empty));
    r', th' := Advance(r', sh1, th', 1, Go, sh1, Stack(Worker(0, WCheck), Empty));
    r', th' := Advance(r', sh1, th', 1, Go, sh1, Stack(Worker(0, WEnter), Empty));
    sh' := WithWork(sh1, 0, Spawned(1).(setups := 1, loops := 1));
    r', th' := Advance(r', sh1, th', 1, Go, sh', InLoop(Empty));
    assert sh'.core.works == map[0 := Spawned(1).(setups := 1, loops := 1)];
  }

  /** A run in which a loop() has begun, with no destroy and no exception: loop() does run. */
  lemma LoopRuns() returns (states: seq<State>, moves: seq<Move>)
    ensures IsRun(states, moves)
    ensures var last := states[|moves|];
            && 0 in last.sh.core.works && last.sh.core.works[0].loops == 1
            && !last.sh.core.works[0].cleared && !last.sh.core.works[0].threw
            && 1 in last.threads && last.threads[1].base == Worker(0, WLoop)
  {
    var r, sh, th := LoopBegun();
    states, moves := r.states, r.moves;
  }

  /** loop() sets the line; up to the call of the line-config callback. */
  lemma LineReported() returns (r: Run, sh: Shared, th: Threads, below: Frames)
    ensures At(r, sh, th) && sh.owner == map[] && sh.serial.line == NEW_LINE
    ensures 0 in sh.cbs && Registered(sh.cbs[0], MASK) && 0 in sh.core.works
    ensures below == Push(Notify(SetLine(NEW_LINE), NDone), Empty)
    ensures var cb := sh.cbs[0]; var client := Client(LineConfig, 0, cb.gen, cb.gen);
            th == map[0 := HOST, 1 := InLoop(Push(client, Push(Closure(LineConfig, 0, CUnlocked), below)))]
  {
    r, sh, th := LoopBegun();
    var op := SetLine(NEW_LINE);
    below := Push(Notify(op, NDone), Empty);
    r, th := Advance(r, sh, th, 1, Call(Notify(op, NWant)), sh, InLoop(Push(Notify(op, NWant), Empty)));
    var sh1 := Acquired(sh, SerialLock, 1);
    r, th := Advance(r, sh, th, 1, Go, sh1, InLoop(Push(Notify(op, NIn), Empty)));
    var sh2 := sh.(serial := sh.serial.(line := NEW_LINE));
    assert sh1.owner - {SerialLock} == sh.owner;
    r, th := Advance(r, sh1, th, 1, Go, sh2, InLoop(Push(Notify(op, NFire(Some(0))), Empty)));
    r, th := Advance(r, sh2, th, 1, Go, sh2, InLoop(Push(Closure(LineConfig, 0, CWant), below)));
    r, th := CallLine(r, sh2, th, below);
    sh := sh2;
    assert th[0] == HOST;
  }

  /** The line-config closure: lock, snapshot, unlock, call. */
  lemma CallLine(r: Run, sh: Shared, th: Threads, below: Frames) returns (r': Run, th': Threads)
    requires At(r, sh, th) && 1 in th && th[1] == InLoop(Push(Closure(LineConfig, 0, CWant), below))
    requires sh.owner == map[] && 0 in sh.cbs && Registered(sh.cbs[0], MASK)
    ensures At(r', sh, th')
    ensures var client := Client(LineConfig, 0, sh.cbs[0].gen, sh.cbs[0].gen);
            th' == th[1 := InLoop(Push(client, Push(Closure(LineConfig, 0, CUnlocked), below)))]
  {
    var gen := sh.cbs[0].gen;
    assert LineConfig in MASK;
    var sh1 := Acquired(sh, Callback(0), 1);
    r', th' := Advance(r, sh, th, 1, Go, sh1, InLoop(Push(Closure(LineConfig, 0, CIn), below)));
    assert sh1.owner - {Callback(0)} == sh.owner;
    r', th' := Advance(r', sh1, th', 1, Go, sh, InLoop(Push(Closure(LineConfig, 0, CSnapped(gen, gen)), below)));
    var calling := Push(Client(LineConfig, 0, gen, gen), Push(Closure(LineConfig, 0, CUnlocked), below));
    r', th' := Advance(r', sh, th', 1, Go, sh, InLoop(calling));
  }

  /** A run in which loop() has changed the line and the host's line-config callback is running, with no
      mutex held. */
  lemma LineCallbackRuns() returns (states: seq<State>, moves: seq<Move>)
    ensures IsRun(states, moves)
    ensures var last := states[|moves|];
            && 1 in last.threads && last.threads[1].base == Worker(0, WLoop)
            && last.threads[1].frames.Push? && last.threads[1].frames.top.Client?
            && last.threads[1].frames.top.kind == LineConfig
            && last.sh.serial.line == Line(9600, 0x800001c) && last.sh.owner == map[]
  {
    var r, sh, th, below := LineReported();
    states, moves := r.states, r.moves;
  }

  /** A run in which that callback has returned, loop() has thrown, and the host's log callback is
      running, under the callback mutex. */
  lemma ThrowIsLogged() returns (states: seq<State>, moves: seq<Move>)
    ensures IsRun(states, moves)
    ensures var last := states[|moves|];
            && 1 in last.threads && last.threads[1].base == Worker(0, WExit)
            && last.threads[1].frames.Push? && last.threads[1].frames.top.Client?
            && last.threads[1].frames.top.kind == Sink
            && 0 in last.sh.core.works && last.sh.core.works[0].threw && last.sh.owner == map[Callback(0) := 1]
  {
    var r, sh, th, below := LineReported();
    r, th := Advance(r, sh, th, 1, Go, sh, InLoop(Push(Closure(LineConfig, 0, CUnlocked), below)));
    r, th := Advance(r, sh, th, 1, Go, sh, InLoop(below));
    r, th := Advance(r, sh, th, 1, Go, sh, InLoop(Empty));
    r, sh, th := Throws(r, sh, th);
    states, moves := r.states, r.moves;
  }

  lemma Throws(r: Run, sh: Shared, th: Threads) returns (r': Run, sh': Shared, th': Threads)
    requires At(r, sh, th) && 1 in th && th[1] == InLoop(Empty) && 0 in sh.core.works
    requires sh.owner == map[] && 0 in sh.cbs && Registered(sh.cbs[0], MASK)
    ensures At(r', sh', th') && 1 in th'
    ensures th'[1] == Stack(Worker(0, WExit),
              Push(Client(Sink, 0, sh.cbs[0].gen, sh.cbs[0].gen), Push(Closure(Sink, 0, CCalled), Empty)))
    ensures 0 in sh'.core.works && sh'.core.works[0].threw && sh'.owner == map[Callback(0) := 1]
  {
    var gen := sh.cbs[0].gen;
    assert Sink in MASK;
    var sh1 := WithWork(sh, 0, sh.core.works[0].(threw := true));
    r', th' := Advance(r, sh, th, 1, Throw, sh1, Stack(Worker(0, WExit), Push(Closure(Sink, 0, CWant), Empty)));
    sh' := Acquired(sh1, Callback(0), 1);
    assert sh'.owner == map[Callback(0) := 1];
    r', th' := Advance(r', sh1, th', 1, Go, sh', Stack(Worker(0, WExit), Push(Closure(Sink, 0, CIn), Empty)));
    var calling := Push(Client(Sink, 0, gen, gen), Push(Closure(Sink, 0, CCalled), Empty));
    r', th' := Advance(r', sh', th', 1, Go, sh', Stack(Worker(0, WExit), calling));
  }
}
