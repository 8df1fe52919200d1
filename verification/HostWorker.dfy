/** The worker layer of the host protocol: starts, setup(), loop() and the race with destroy. */
module HostWorker {
  import opened Prelude
  import opened HostModel
  import opened HostLifecycle

  predicate CountsOk(w: Work) {
    && w.wins == (if w.worker.Some? then 1 else 0)
    && (w.worker.None? ==> w.setups == 0 && w.loops == 0 && !w.threw)
    && (w.cleared ==> !w.running)
    && (!w.cleared ==> w.late == 0)
    && w.late <= 1
    && w.setups <= 1
    && (w.loops > 0 ==> w.setups == 1)
    && (w.finished ==> !w.running && (w.threw || w.cleared))
  }

  predicate WorkGlobal(c: Core) {
    && (forall i | i in c.works :: CountsOk(c.works[i]))
    && ((c.life.Live? || c.life.Creating?) && c.life.inst in c.works ==> !c.works[c.life.inst].cleared)
  }

  /** What the worker's program counter says about the history of its instance. */
  predicate WorkerOk(pc: WorkerPc, w: Work) {
    && (pc == WBegin ==> w.setups == 0)
    && (pc != WBegin ==> w.setups == 1)
    && (pc == WBegin || pc == WSetup ==> w.loops == 0)
    && (pc == WEnter && w.cleared ==> w.late == 0)
    && (w.threw ==> pc == WExit || pc == WFinish)
    && (pc == WFinish ==> !w.running)
    && (if pc == WExit || pc == WFinish then w.threw || w.cleared else w.running || w.cleared)
  }

  /** A start about to spawn has set `running`, and nothing but a destroy resets it meanwhile. */
  predicate SpawnReady(fs: Frames, c: Core) {
    fs.Push? && fs.top.StartCall? && fs.top.spc == StSpawn && fs.top.sinst in c.works ==>
      c.works[fs.top.sinst].running || c.works[fs.top.sinst].cleared
  }

  predicate WorkLocal(st: Stack, c: Core) {
    && SpawnReady(st.frames, c)
    && match st.base
       case Worker(i, pc) => i in c.works ==> WorkerOk(pc, c.works[i])
       case Destroy(i, pc) => i in c.works && pc != DsClear ==> c.works[i].cleared
       case _ => true
  }

  /** Another thread changes at most the two flags of a running worker; it never un-clears, and resets
      `running` only by clearing. */
  predicate CountMove(w: Work, w': Work, t: Tid) {
    && (w.cleared ==> w'.cleared)
    && (|| w.worker == Some(t) || w.starter == Some(t) || !w.started
        || (&& w' == w.(running := w'.running, cleared := w'.cleared)
            && (w'.running == w.running || (w'.cleared && !w'.running))))
  }

  predicate WorkMove(c: Core, c': Core, t: Tid) {
    forall i | i in c.works && i in c'.works :: CountMove(c.works[i], c'.works[i], t)
  }

  predicate WorkGood(sh: Shared, t: Tid, o: Outcome) {
    o.Next? ==> WorkGlobal(o.sh.core) && WorkLocal(o.stack, o.sh.core) && WorkMove(sh.core, o.sh.core, t)
  }

  lemma WorkStable(u: Tid, st: Stack, c: Core, c': Core, t: Tid)
    requires u != t
    requires CoreOk(c) && LifeLocal(u, st, c) && WorkGlobal(c) && WorkLocal(st, c)
    requires WorkMove(c, c', t)
    ensures WorkLocal(st, c')
  {
  }

  lemma WorkKept(c: Core, t: Tid)
    ensures WorkMove(c, c, t)
  {
  }

  lemma WorkChanged(sh: Shared, sh': Shared, t: Tid, i: InstId, w: Work)
    requires WorkGlobal(sh.core) && i in sh.core.works && sh'.core == sh.core.(works := sh.core.works[i := w])
    requires CountsOk(w) && CountMove(sh.core.works[i], w, t) && w.cleared == sh.core.works[i].cleared
    ensures WorkGlobal(sh'.core) && WorkMove(sh.core, sh'.core, t)
  {
  }

  lemma IdleWork(sh: Shared, t: Tid, c: Choice)
    requires WorkGlobal(sh.core)
    ensures WorkGood(sh, t, StepIdle(sh, c)) && WorkGood(sh, t, StepBeginDestroy(sh, t, c))
  {
    WorkKept(sh.core, t);
  }

  lemma CreateWork(sh: Shared, t: Tid, pc: CreatePc)
    requires LifeGlobal(sh) && WorkGlobal(sh.core) && CreateOk(t, pc, sh.core.life)
    ensures WorkGood(sh, t, StepCreate(sh, t, pc))
  {
    WorkKept(sh.core, t);
  }

  lemma StartWork(sh: Shared, t: Tid, b: Base, i: InstId, pc: StartPc, rest: Frames)
    requires CoreOk(sh.core) && LifeLocal(t, Stack(b, Push(StartCall(i, pc), rest)), sh.core)
    requires WorkGlobal(sh.core) && WorkLocal(Stack(b, Push(StartCall(i, pc), rest)), sh.core) && CallerBelow(rest)
    ensures WorkGood(sh, t, StepStart(sh, t, b, i, pc, rest))
  {
    var o := StepStart(sh, t, b, i, pc, rest);
    if o.Next? { WorkChanged(sh, o.sh, t, i, o.sh.core.works[i]); }
  }

  lemma DestroyWork(sh: Shared, t: Tid, i: InstId, pc: DestroyPc)
    requires CoreOk(sh.core) && BaseLife(t, Destroy(i, pc), sh.core)
    requires WorkGlobal(sh.core) && WorkLocal(Stack(Destroy(i, pc), Empty), sh.core)
    ensures WorkGood(sh, t, StepDestroy(sh, t, i, pc))
  {
  }

  lemma WorkerWork(sh: Shared, t: Tid, i: InstId, pc: WorkerPc, c: Choice)
    requires CoreOk(sh.core) && BaseLife(t, Worker(i, pc), sh.core)
    requires WorkGlobal(sh.core) && WorkLocal(Stack(Worker(i, pc), Empty), sh.core)
    ensures WorkGood(sh, t, StepWorker(sh, t, i, pc, c))
  {
    var o := StepWorker(sh, t, i, pc, c);
    if o.Next? { WorkChanged(sh, o.sh, t, i, o.sh.core.works[i]); }
  }
}
