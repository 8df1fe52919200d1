/** Line settings over runs of the whole host protocol: the settings in force are the last ones a
    begin() asked for, and the calls of the line-config callback are the changes, in order, across
    instances. */
module HostLines {
  import opened Prelude
  import opened SerialData
  import opened HostModel
  import opened HostLocks
  import opened HostLifecycle
  import opened HostInvariant
  import opened HostSteps
  import C = Changes

  // ------------------------------------------------------------------ one step

  predicate LineOp(op: NotifyOp) { op.SetLine? || op.SetBaud? }

  /** The settings a begin() asks for: a begin(baud) keeps the config word in force. */
  function LineAsked(op: NotifyOp, line: Line): Line
    requires LineOp(op)
  {
    if op.SetLine? then op.line else Line(op.baud, line.config)
  }

  predicate AtLine(st: Stack) { st.frames.Push? && st.frames.top.Notify? && LineOp(st.frames.top.nop) }

  /** What the step of this stack asks for, in its critical section. */
  function Asks(sh: Shared, st: Stack): seq<Line> {
    if AtLine(st) && st.frames.top.npc == NIn then [LineAsked(st.frames.top.nop, sh.serial.line)] else []
  }

  /** What the step of this stack reports, calling its copy of the line-config callback. */
  function Reports(sh: Shared, st: Stack): seq<Line> {
    if AtLine(st) && st.frames.top.npc.NFire? && st.frames.top.npc.target.Some?
    then [LineAsked(st.frames.top.nop, sh.serial.line)] else []
  }

  predicate Effect(sh: Shared, st: Stack, o: Outcome) {
    o.Next? ==>
      if Asks(sh, st) != [] then
        && o.sh.serial.line == Asks(sh, st)[0]
        && Reports(o.sh, o.stack) == if o.sh.serial.line != sh.serial.line then [o.sh.serial.line] else []
      else o.sh.serial.line == sh.serial.line && Reports(o.sh, o.stack) == []
  }

  lemma NotifyEffects(sh: Shared, t: Tid, b: Base, op: NotifyOp, pc: NotifyPc, rest: Frames)
    requires CallerOut(rest) && LineConfig in sh.core.slots
    ensures Effect(sh, Stack(b, Push(Notify(op, pc), rest)), StepNotify(sh, t, b, op, pc, rest))
  {
  }

  lemma LeafEffects(sh: Shared, t: Tid, b: Base, op: LeafOp, pc: LeafPc, rest: Frames)
    requires CallerOut(rest)
    ensures Effect(sh, Stack(b, Push(Leaf(op, pc), rest)), StepLeaf(sh, t, b, op, pc, rest))
  {
  }

  lemma ExecEffect(sh: Shared, t: Tid, st: Stack, c: Choice)
    requires SharedOk(sh) && ThreadOk(t, st, sh)
    ensures Effect(sh, st, Exec(sh, t, st, c))
  {
    if st.frames.Push? {
      assert Under(st.frames.top, st.frames.rest, st.base, sh.lax);
      assert SlotSet(sh.core.life, LineConfig);
      var f, rest := st.frames.top, st.frames.rest;
      assert st == Stack(st.base, Push(f, rest));
      if f.Notify? {
        NotifyEffects(sh, t, st.base, f.nop, f.npc, rest);
      } else if f.Leaf? {
        LeafEffects(sh, t, st.base, f.lop, f.lpc, rest);
      } else {
        CallApart(sh, t, st, c);
      }
    } else {
      assert st == Stack(st.base, Empty);
      BaseApart(sh, t, st.base, c);
    }
  }

  // ------------------------------------------------------------------ who sets the line

  /** Only the sketch calls begin(), and at most one worker runs the sketch. */
  lemma OneLineThread(s: State, t: Tid, u: Tid)
    requires Inv(s) && t in s.threads && u in s.threads && AtLine(s.threads[t]) && AtLine(s.threads[u])
    ensures t == u
  {
    OnWorker(s, t);
    OnWorker(s, u);
    assert ThreadOk(t, s.threads[t], s.sh) && ThreadOk(u, s.threads[u], s.sh);
  }

  lemma OnWorker(s: State, t: Tid)
    requires Inv(s) && t in s.threads && AtLine(s.threads[t])
    ensures s.threads[t].base.Worker?
  {
    var st := s.threads[t];
    assert ThreadOk(t, st, s.sh);
    assert Under(st.frames.top, st.frames.rest, st.base, s.sh.lax);
  }

  // ------------------------------------------------------------------ runs

  function Mover(states: seq<State>, moves: seq<Move>, k: nat): Stack
    requires k < |moves| && |states| == |moves| + 1
  {
    if moves[k].t in states[k].threads then states[k].threads[moves[k].t] else Stack(Gone, Empty)
  }

  /** The settings asked for in the first `k` steps, in the order of the critical sections. */
  function Asked(states: seq<State>, moves: seq<Move>, k: nat): seq<Line>
    requires k <= |moves| && |states| == |moves| + 1
  {
    if k == 0 then [] else Asked(states, moves, k - 1) + Asks(states[k - 1].sh, Mover(states, moves, k - 1))
  }

  /** The calls of the line-config callback among them. */
  function Events(states: seq<State>, moves: seq<Move>, k: nat): seq<Line>
    requires k <= |moves| && |states| == |moves| + 1
  {
    if k == 0 then [] else Events(states, moves, k - 1) + Reports(states[k - 1].sh, Mover(states, moves, k - 1))
  }

  predicate Reporting(s: State, t: Tid) { t in s.threads && Reports(s.sh, s.threads[t]) != [] }

  /** The changes so far are the events, and the one that a thread is about to report. */
  ghost predicate Balanced(s: State, first: Line, asked: seq<Line>, events: seq<Line>) {
    && C.Latest(Some(first), asked) == Some(s.sh.serial.line)
    && (forall t | Reporting(s, t) :: events + Reports(s.sh, s.threads[t]) == C.Edges(Some(first), asked))
    && ((forall t :: !Reporting(s, t)) ==> events == C.Edges(Some(first), asked))
  }

  /** Threads other than the mover keep their stack; a new worker has an empty one. */
  predicate Elsewhere(s: State, s': State, t: Tid) {
    t in s'.threads ==> if t in s.threads then s'.threads[t] == s.threads[t] else s'.threads[t].frames == Empty
  }

  lemma OnlyMoverChanges(s: State, s': State, m: Move)
    requires Inv(s) && Step(s, s', m.t, m.c)
    ensures forall t | t != m.t :: Elsewhere(s, s', t)
    ensures m.t in s'.threads && s'.threads[m.t] == Exec(s.sh, m.t, s.threads[m.t], m.c).stack
    ensures s.threads.Keys <= s'.threads.Keys
  {
    assert m.t < s.sh.nextTid && s.sh.nextTid !in s.threads;
  }

  /** While one thread is inside begin()'s critical section, nobody is about to report. */
  lemma NobodyReports(s: State, t: Tid)
    requires Inv(s) && t in s.threads && Asks(s.sh, s.threads[t]) != []
    ensures forall u :: !Reporting(s, u)
  {
    assert Reports(s.sh, s.threads[t]) == [];
    forall u ensures !Reporting(s, u) {
      if Reporting(s, u) { OneLineThread(s, u, t); }
    }
  }

  /** And after its step, at most that thread is. */
  lemma OnlyAskerReports(s: State, s': State, m: Move)
    requires Inv(s) && Step(s, s', m.t, m.c) && Asks(s.sh, s.threads[m.t]) != []
    ensures forall u | Reporting(s', u) :: u == m.t
  {
    OnlyMoverChanges(s, s', m);
    forall u | u != m.t ensures !Reporting(s', u) {
      assert Elsewhere(s, s', u);
      if u in s.threads && AtLine(s.threads[u]) { OneLineThread(s, u, m.t); }
    }
  }

  /** A step in some critical section of begin(). */
  lemma AskKeeps(s: State, s': State, m: Move, first: Line, asked: seq<Line>, events: seq<Line>)
    requires Inv(s) && Step(s, s', m.t, m.c) && Balanced(s, first, asked, events)
    requires Asks(s.sh, s.threads[m.t]) != []
    ensures Balanced(s', first, asked + Asks(s.sh, s.threads[m.t]), events)
  {
    var st, x := s.threads[m.t], s'.sh.serial.line;
    assert Asks(s.sh, st) == [x] && Reporting(s', m.t) == (x != s.sh.serial.line)
        && (Reporting(s', m.t) ==> Reports(s'.sh, s'.threads[m.t]) == [x]) by {
      assert ThreadOk(m.t, st, s.sh);
      ExecEffect(s.sh, m.t, st, m.c);
      OnlyMoverChanges(s, s', m);
    }
    NobodyReports(s, m.t);
    OnlyAskerReports(s, s', m);
    C.EdgesSnoc(Some(first), asked, x);
  }

  /** Any other step: the line stays, and the mover, if it was about to report, now has. */
  lemma OtherKeeps(s: State, s': State, m: Move, first: Line, asked: seq<Line>, events: seq<Line>)
    requires Inv(s) && Step(s, s', m.t, m.c) && Balanced(s, first, asked, events)
    requires Asks(s.sh, s.threads[m.t]) == []
    ensures Balanced(s', first, asked, events + Reports(s.sh, s.threads[m.t]))
  {
    var st := s.threads[m.t];
    assert ThreadOk(m.t, st, s.sh);
    ExecEffect(s.sh, m.t, st, m.c);
    OnlyMoverChanges(s, s', m);
    Unit(events);
    assert !Reporting(s', m.t);
    forall t | t != m.t ensures Reporting(s', t) <==> Reporting(s, t) { assert Elsewhere(s, s', t); }
    if Reports(s.sh, st) != [] {
      assert Reporting(s, m.t);
      forall t ensures !Reporting(s', t) {
        if t != m.t && Reporting(s, t) { OneLineThread(s, t, m.t); }
      }
    } else {
      forall t | Reporting(s', t) ensures Reports(s'.sh, s'.threads[t]) == Reports(s.sh, s.threads[t]) {
        assert Elsewhere(s, s', t);
      }
    }
  }

  ghost predicate BalancedAt(states: seq<State>, moves: seq<Move>, k: nat)
    requires k <= |moves| && |states| == |moves| + 1
  {
    Balanced(states[k], states[0].sh.serial.line, Asked(states, moves, k), Events(states, moves, k))
  }

  lemma BalancedNext(states: seq<State>, moves: seq<Move>, k: nat)
    requires k < |moves| && |states| == |moves| + 1 && StepAt(states, moves, k) && Inv(states[k])
    requires BalancedAt(states, moves, k)
    ensures BalancedAt(states, moves, k + 1)
  {
    var s, m, first := states[k], moves[k], states[0].sh.serial.line;
    var asked, events := Asked(states, moves, k), Events(states, moves, k);
    if Asks(s.sh, s.threads[m.t]) != [] {
      AskKeeps(s, states[k + 1], m, first, asked, events);
      Unit(events);
    } else {
      OtherKeeps(s, states[k + 1], m, first, asked, events);
      Unit(asked);
    }
  }

  lemma RunBalancedNext(states: seq<State>, moves: seq<Move>, k: nat)
    requires IsRun(states, moves) && k < |moves| && BalancedAt(states, moves, k)
    ensures BalancedAt(states, moves, k + 1)
  {
    Invariant(states, moves, k);
    assert StepAt(states, moves, k);
    BalancedNext(states, moves, k);
  }

  lemma {:induction false} AlwaysBalanced(states: seq<State>, moves: seq<Move>, k: nat)
    requires IsRun(states, moves) && k < |states|
    ensures BalancedAt(states, moves, k)
    decreases k
  {
    if k == 0 {
      StartsBalanced(states, moves);
    } else {
      AlwaysBalanced(states, moves, k - 1);
      RunBalancedNext(states, moves, k - 1);
    }
  }

  lemma StartsBalanced(states: seq<State>, moves: seq<Move>)
    requires |states| == |moves| + 1 && Init(states[0])
    ensures BalancedAt(states, moves, 0)
  {
  }

  /** In every run: the settings in force are the last that were asked for, whatever instance asked; and
      the calls of the line-config callback, with the one that a worker is about to make, are what was
      asked for with repeats removed, starting from what the process began with. */
  lemma LineEventsAreEdges(states: seq<State>, moves: seq<Move>, k: nat)
    requires IsRun(states, moves) && k < |states|
    ensures C.Latest(Some(states[0].sh.serial.line), Asked(states, moves, k)) == Some(states[k].sh.serial.line)
    ensures forall t | Reporting(states[k], t) ::
              Events(states, moves, k) + Reports(states[k].sh, states[k].threads[t])
              == C.Edges(Some(states[0].sh.serial.line), Asked(states, moves, k))
    ensures (forall t :: !Reporting(states[k], t)) ==>
              Events(states, moves, k) == C.Edges(Some(states[0].sh.serial.line), Asked(states, moves, k))
  {
    AlwaysBalanced(states, moves, k);
  }
}
