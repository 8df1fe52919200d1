/** What the steps of the host protocol that are not HAL routines leave alone: the queues, the line
    settings and the pins; and that a HAL routine is entered only by a call. */
module HostSteps {
  import opened HostModel

  /** No HAL routine is on top but one that was just called, or one that waits for its callback. */
  predicate TopFresh(c: Choice, fs: Frames) {
    fs.Push? && fs.top.Notify? && fs.top.npc != NDone ==>
      fs.top.npc == NWant && (c == Call(fs.top) || (c.CallApi? && c.frame == fs.top))
  }

  /** The caller below is not in a HAL routine, or waits in it for its callback. */
  predicate CallerOut(rest: Frames) { rest.Push? && rest.top.Notify? ==> rest.top.npc == NDone }

  predicate Apart(sh: Shared, c: Choice, out: bool, o: Outcome) {
    o.Next? ==> o.sh.serial == sh.serial && o.sh.pins == sh.pins && (out ==> TopFresh(c, o.stack.frames))
  }

  lemma RegisterApart(sh: Shared, t: Tid, b: Base, i: InstId, mask: set<Slot>, pc: RegisterPc, rest: Frames, c: Choice)
    ensures Apart(sh, c, CallerOut(rest), StepRegister(sh, t, b, i, mask, pc, rest))
  {
  }

  lemma StartApart(sh: Shared, t: Tid, b: Base, i: InstId, pc: StartPc, rest: Frames, c: Choice)
    ensures Apart(sh, c, CallerOut(rest), StepStart(sh, t, b, i, pc, rest))
  {
  }

  lemma ClosureApart(sh: Shared, t: Tid, b: Base, k: Slot, i: InstId, pc: ClosurePc, rest: Frames, c: Choice)
    ensures Apart(sh, c, CallerOut(rest), StepClosure(sh, t, b, k, i, pc, rest))
  {
  }

  /** The activations that are not HAL routines. */
  lemma CallApart(sh: Shared, t: Tid, st: Stack, c: Choice)
    requires st.frames.Push? && !st.frames.top.Leaf? && !st.frames.top.Notify?
    ensures Apart(sh, c, CallerOut(st.frames.rest), Exec(sh, t, st, c))
  {
    var b, rest := st.base, st.frames.rest;
    match st.frames.top
    case Register(i, m, pc) => RegisterApart(sh, t, b, i, m, pc, rest, c);
    case StartCall(i, pc) => StartApart(sh, t, b, i, pc, rest, c);
    case CreateCall(pc) => assert Apart(sh, c, CallerOut(rest), StepCreateCall(sh, t, b, pc, rest));
    case Closure(k, i, pc) => ClosureApart(sh, t, b, k, i, pc, rest, c);
    case Client(k, i, _, _) => assert Apart(sh, c, CallerOut(rest), StepClient(sh, b, k, i, st.frames, rest, c));
  }

  lemma CreateApart(sh: Shared, t: Tid, pc: CreatePc, c: Choice)
    ensures Apart(sh, c, true, StepCreate(sh, t, pc))
  {
  }

  lemma DestroyApart(sh: Shared, t: Tid, i: InstId, pc: DestroyPc, c: Choice)
    ensures Apart(sh, c, true, StepDestroy(sh, t, i, pc))
  {
  }

  lemma WorkerApart(sh: Shared, t: Tid, i: InstId, pc: WorkerPc, c: Choice)
    ensures Apart(sh, c, true, StepWorker(sh, t, i, pc, c))
  {
  }

  /** Creating, destroying and running an instance, and the host's calls. */
  lemma BaseApart(sh: Shared, t: Tid, b: Base, c: Choice)
    ensures Apart(sh, c, true, Exec(sh, t, Stack(b, Empty), c))
  {
    match b
    case Idle => assert Apart(sh, c, true, StepIdle(sh, c)) && Apart(sh, c, true, StepBeginDestroy(sh, t, c));
    case InCall(_) =>
    case Create(pc) => CreateApart(sh, t, pc, c);
    case Destroy(i, pc) => DestroyApart(sh, t, i, pc, c);
    case Worker(i, pc) => WorkerApart(sh, t, i, pc, c);
    case Gone =>
  }
}
