/** The account of both queues over runs of the whole host protocol: any number of instances, workers
    and readers, whatever callbacks call. */
module HostBytes {
  import opened Prelude
  import opened HostModel
  import opened HostLifecycle
  import opened HostInvariant
  import opened HostSteps
  import HostSafety
  import HostDelivery

  // ------------------------------------------------------------------ what one step does

  /** The payload that a step of this stack pushes in write's or feed_input's critical section. */
  function Writes(st: Stack): seq<seq<byte>> {
    if st.frames.Push? && st.frames.top.Notify? && st.frames.top.npc == NIn && st.frames.top.nop.Write?
    then [st.frames.top.nop.data] else []
  }

  function Feeds(st: Stack): seq<seq<byte>> {
    if st.frames.Push? && st.frames.top.Leaf? && st.frames.top.lpc == In && st.frames.top.lop.Feed?
    then [st.frames.top.lop.data] else []
  }

  predicate Inside(st: Stack, op: LeafOp) { st.frames.Push? && st.frames.top == Leaf(op, In) }

  function First(queue: seq<byte>): seq<byte> { if queue == [] then [] else [queue[0]] }

  /** The byte that a step of this stack takes in rx_read's or read's critical section. */
  function Takes(sh: Shared, st: Stack): seq<byte> { if Inside(st, RxRead) then First(sh.serial.rx) else [] }

  function Reads(sh: Shared, st: Stack): seq<byte> { if Inside(st, Read) then First(sh.serial.input) else [] }

  predicate Accounts(sh: Shared, st: Stack, o: Outcome) {
    o.Next? ==>
      && sh.serial.rx + Flatten(Writes(st)) == Takes(sh, st) + o.sh.serial.rx
      && sh.serial.input + Flatten(Feeds(st)) == Reads(sh, st) + o.sh.serial.input
  }

  /** Nothing pushed, nothing taken. */
  lemma Untouched(sh: Shared, st: Stack, o: Outcome)
    requires o.Next? ==> o.sh.serial.rx == sh.serial.rx && o.sh.serial.input == sh.serial.input
    requires Writes(st) == [] && Feeds(st) == [] && !Inside(st, RxRead) && !Inside(st, Read)
    ensures Accounts(sh, st, o)
  {
    Unit(sh.serial.rx);
    Unit(sh.serial.input);
  }

  lemma FlattenOne(part: seq<byte>)
    ensures Flatten([part]) == part
  {
    assert [part][1..] == [];
  }

  lemma FeedAccounts(sh: Shared, t: Tid, b: Base, data: seq<byte>, rest: Frames)
    ensures Accounts(sh, Stack(b, Push(Leaf(Feed(data), In), rest)), StepLeaf(sh, t, b, Feed(data), In, rest))
  {
    FlattenOne(data);
    Unit(sh.serial.rx);
    Unit(StepLeaf(sh, t, b, Feed(data), In, rest).sh.serial.input);
  }

  lemma Popped(queue: seq<byte>, left: seq<byte>)
    requires left == if queue == [] then [] else queue[1..]
    ensures queue + Flatten([]) == First(queue) + left
  {
    Unit(queue);
  }

  lemma NotTouched(queue: seq<byte>)
    ensures queue + Flatten([]) == [] + queue
  {
    Unit(queue);
  }

  lemma RxReadAccounts(sh: Shared, t: Tid, b: Base, rest: Frames)
    ensures Accounts(sh, Stack(b, Push(Leaf(RxRead, In), rest)), StepLeaf(sh, t, b, RxRead, In, rest))
  {
    NotTouched(sh.serial.input);
    Popped(sh.serial.rx, StepLeaf(sh, t, b, RxRead, In, rest).sh.serial.rx);
  }

  lemma ReadAccounts(sh: Shared, t: Tid, b: Base, rest: Frames)
    ensures Accounts(sh, Stack(b, Push(Leaf(Read, In), rest)), StepLeaf(sh, t, b, Read, In, rest))
  {
    NotTouched(sh.serial.rx);
    Popped(sh.serial.input, StepLeaf(sh, t, b, Read, In, rest).sh.serial.input);
  }

  lemma LeafAccounts(sh: Shared, t: Tid, b: Base, op: LeafOp, pc: LeafPc, rest: Frames)
    ensures Accounts(sh, Stack(b, Push(Leaf(op, pc), rest)), StepLeaf(sh, t, b, op, pc, rest))
  {
    if pc == In && op.Feed? {
      FeedAccounts(sh, t, b, op.data, rest);
    } else if pc == In && op.RxRead? {
      RxReadAccounts(sh, t, b, rest);
    } else if pc == In && op.Read? {
      ReadAccounts(sh, t, b, rest);
    } else {
      Untouched(sh, Stack(b, Push(Leaf(op, pc), rest)), StepLeaf(sh, t, b, op, pc, rest));
    }
  }

  lemma NotifyAccounts(sh: Shared, t: Tid, b: Base, op: NotifyOp, pc: NotifyPc, rest: Frames)
    ensures Accounts(sh, Stack(b, Push(Notify(op, pc), rest)), StepNotify(sh, t, b, op, pc, rest))
  {
    var st, o := Stack(b, Push(Notify(op, pc), rest)), StepNotify(sh, t, b, op, pc, rest);
    if pc == NIn && op.Write? {
      FlattenOne(op.data);
      Unit(o.sh.serial.rx);
      Unit(sh.serial.input);
    } else {
      Untouched(sh, st, o);
    }
  }

  lemma FramesAccount(sh: Shared, t: Tid, st: Stack, c: Choice)
    requires st.frames.Push?
    ensures Accounts(sh, st, Exec(sh, t, st, c))
  {
    var b, rest := st.base, st.frames.rest;
    assert st == Stack(b, Push(st.frames.top, rest));
    match st.frames.top
    case Leaf(op, pc) => LeafAccounts(sh, t, b, op, pc, rest);
    case Notify(op, pc) => NotifyAccounts(sh, t, b, op, pc, rest);
    case _ =>
      CallApart(sh, t, st, c);
      Untouched(sh, st, Exec(sh, t, st, c));
  }

  lemma ExecAccounts(sh: Shared, t: Tid, st: Stack, c: Choice)
    ensures Accounts(sh, st, Exec(sh, t, st, c))
  {
    if st.frames.Push? {
      FramesAccount(sh, t, st, c);
    } else {
      BaseApart(sh, t, st.base, c);
      Untouched(sh, st, Exec(sh, t, st, c));
    }
  }

  // ------------------------------------------------------------------ what a run does

  /** The stack that moves at step `k`. */
  function Mover(states: seq<State>, moves: seq<Move>, k: nat): Stack
    requires k < |moves| && |states| == |moves| + 1
  {
    if moves[k].t in states[k].threads then states[k].threads[moves[k].t] else Stack(Gone, Empty)
  }

  /** The payloads of the write calls, in the order of their critical sections. */
  function Written(states: seq<State>, moves: seq<Move>, k: nat): seq<seq<byte>>
    requires k <= |moves| && |states| == |moves| + 1
  {
    if k == 0 then [] else Written(states, moves, k - 1) + Writes(Mover(states, moves, k - 1))
  }

  /** The payloads of the write_serial calls, likewise. */
  function Fed(states: seq<State>, moves: seq<Move>, k: nat): seq<seq<byte>>
    requires k <= |moves| && |states| == |moves| + 1
  {
    if k == 0 then [] else Fed(states, moves, k - 1) + Feeds(Mover(states, moves, k - 1))
  }

  /** The bytes taken by rx_read, whichever thread called it. */
  function Taken(states: seq<State>, moves: seq<Move>, k: nat): seq<byte>
    requires k <= |moves| && |states| == |moves| + 1
  {
    if k == 0 then [] else Taken(states, moves, k - 1) + Takes(states[k - 1].sh, Mover(states, moves, k - 1))
  }

  /** The bytes the sketch has read. */
  function ReadBySketch(states: seq<State>, moves: seq<Move>, k: nat): seq<byte>
    requires k <= |moves| && |states| == |moves| + 1
  {
    if k == 0 then [] else ReadBySketch(states, moves, k - 1) + Reads(states[k - 1].sh, Mover(states, moves, k - 1))
  }

  lemma FlattenAppend(parts: seq<seq<byte>>, more: seq<seq<byte>>)
    requires |more| <= 1
    ensures Flatten(parts + more) == Flatten(parts) + Flatten(more)
  {
    if more == [] {
      Unit(parts);
      Unit(Flatten(parts));
    } else {
      assert more == [more[0]];
      FlattenOne(more[0]);
      FlattenSnoc(parts, more[0]);
    }
  }

  lemma MoveAccounts(states: seq<State>, moves: seq<Move>, k: nat)
    requires k < |moves| && |states| == |moves| + 1 && StepAt(states, moves, k)
    ensures var s, s', st := states[k].sh, states[k + 1].sh, Mover(states, moves, k);
            && s.serial.rx + Flatten(Writes(st)) == Takes(s, st) + s'.serial.rx
            && s.serial.input + Flatten(Feeds(st)) == Reads(s, st) + s'.serial.input
  {
    ExecAccounts(states[k].sh, moves[k].t, Mover(states, moves, k), moves[k].c);
  }

  /** One more step of an account: first + in == out + now, then in' arrives and out' leaves. */
  lemma Carry(first: seq<byte>, arrived: seq<byte>, left: seq<byte>, now: seq<byte>,
              arrives: seq<byte>, leaves: seq<byte>, next: seq<byte>)
    requires first + arrived == left + now && now + arrives == leaves + next
    ensures first + (arrived + arrives) == (left + leaves) + next
  {
    Assoc(first, arrived, arrives);
    Assoc(left, now, arrives);
    Assoc(left, leaves, next);
  }

  /** What the two queues held first, and everything that has come and gone since. */
  ghost predicate Balanced(states: seq<State>, moves: seq<Move>, k: nat)
    requires k <= |moves| && |states| == |moves| + 1
  {
    && states[0].sh.serial.rx + Flatten(Written(states, moves, k)) ==
         Taken(states, moves, k) + states[k].sh.serial.rx
    && states[0].sh.serial.input + Flatten(Fed(states, moves, k)) ==
         ReadBySketch(states, moves, k) + states[k].sh.serial.input
  }

  lemma StartsBalanced(states: seq<State>, moves: seq<Move>)
    requires |states| == |moves| + 1
    ensures Balanced(states, moves, 0)
  {
    Unit(states[0].sh.serial.rx);
    Unit(states[0].sh.serial.input);
  }

  lemma NextBalanced(states: seq<State>, moves: seq<Move>, k: nat)
    requires IsRun(states, moves) && k < |moves| && Balanced(states, moves, k)
    ensures Balanced(states, moves, k + 1)
  {
    assert StepAt(states, moves, k);
    MoveAccounts(states, moves, k);
    var s, s', st := states[k].sh.serial, states[k + 1].sh.serial, Mover(states, moves, k);
    assert Flatten(Written(states, moves, k + 1)) == Flatten(Written(states, moves, k)) + Flatten(Writes(st)) by {
      FlattenAppend(Written(states, moves, k), Writes(st));
    }
    assert Flatten(Fed(states, moves, k + 1)) == Flatten(Fed(states, moves, k)) + Flatten(Feeds(st)) by {
      FlattenAppend(Fed(states, moves, k), Feeds(st));
    }
    Carry(states[0].sh.serial.rx, Flatten(Written(states, moves, k)), Taken(states, moves, k), s.rx,
          Flatten(Writes(st)), Takes(states[k].sh, st), s'.rx);
    Carry(states[0].sh.serial.input, Flatten(Fed(states, moves, k)), ReadBySketch(states, moves, k), s.input,
          Flatten(Feeds(st)), Reads(states[k].sh, st), s'.input);
  }

  lemma AlwaysBalanced(states: seq<State>, moves: seq<Move>, k: nat)
    requires IsRun(states, moves) && k < |states|
    ensures Balanced(states, moves, k)
  {
    StartsBalanced(states, moves);
    var n := 0;
    while n < k
      invariant n <= k && Balanced(states, moves, n)
    {
      NextBalanced(states, moves, n);
      n := n + 1;
    }
  }

  /** In every run, whatever instances come and go and whoever reads: what the receive queue held
      first, then everything written, is everything taken, then what the queue holds. No byte is lost,
      invented, duplicated or reordered, across instances too. */
  lemma RxAccount(states: seq<State>, moves: seq<Move>, k: nat)
    requires IsRun(states, moves) && k < |states|
    ensures states[0].sh.serial.rx + Flatten(Written(states, moves, k)) ==
              Taken(states, moves, k) + states[k].sh.serial.rx
  {
    AlwaysBalanced(states, moves, k);
  }

  /** The same for host to modem: the input is never torn, and what the sketch has read and has still
      to read is a concatenation of whole write_serial payloads, in the order of the calls' critical
      sections. */
  lemma InputAccount(states: seq<State>, moves: seq<Move>, k: nat)
    requires IsRun(states, moves) && k < |states|
    ensures states[0].sh.serial.input + Flatten(Fed(states, moves, k)) ==
              ReadBySketch(states, moves, k) + states[k].sh.serial.input
  {
    AlwaysBalanced(states, moves, k);
  }

  // ------------------------------------------------------------------ what follows

  /** The receive queue is empty if and only if everything ever queued has been taken. */
  lemma EmptyIffTaken(states: seq<State>, moves: seq<Move>, k: nat)
    requires IsRun(states, moves) && k < |states|
    ensures states[k].sh.serial.rx == []
       <==> Taken(states, moves, k) == states[0].sh.serial.rx + Flatten(Written(states, moves, k))
  {
    RxAccount(states, moves, k);
    var all := states[0].sh.serial.rx + Flatten(Written(states, moves, k));
    assert |all| == |Taken(states, moves, k)| + |states[k].sh.serial.rx|;
    if states[k].sh.serial.rx == [] { Unit(Taken(states, moves, k)); }
  }

  /** The instance that a create publishes finds an empty receive queue if and only if everything
      queued before, by whatever instance, has been taken. */
  lemma CreatedFindsEmptyIff(states: seq<State>, moves: seq<Move>, k: nat, i: InstId)
    requires IsRun(states, moves) && k < |moves|
    requires Mover(states, moves, k) == Stack(Create(CrPublish(i)), Empty)
    ensures states[k + 1].sh.core.active == Some(i) && states[k + 1].sh.serial == states[k].sh.serial
    ensures states[k + 1].sh.serial.rx == []
       <==> Taken(states, moves, k) == states[0].sh.serial.rx + Flatten(Written(states, moves, k))
  {
    assert StepAt(states, moves, k);
    BaseApart(states[k].sh, moves[k].t, Create(CrPublish(i)), moves[k].c);
    EmptyIffTaken(states, moves, k);
  }

  /** Before the first instance is allocated nothing has touched the queues: the first instance of a
      process finds what the process began with. */
  lemma {:induction false} FirstFindsInitial(states: seq<State>, moves: seq<Move>, k: nat)
    requires IsRun(states, moves) && k < |states|
    requires states[k].sh.core.nextInst == states[0].sh.core.nextInst
    ensures states[k].sh.serial == states[0].sh.serial && states[k].sh.cbs == map[]
  {
    if k > 0 {
      Invariant(states, moves, k - 1);
      Invariant(states, moves, k);
      assert StepAt(states, moves, k - 1);
      NumbersGrow(states, moves, 0, k - 1);
      FirstStep(states[k - 1], states[k], moves[k - 1]);
      FirstFindsInitial(states, moves, k - 1);
      NoneYet(states[k - 1], states[k], moves[k - 1]);
    }
  }

  lemma FirstStep(s: State, s': State, m: Move)
    requires Step(s, s', m.t, m.c)
    ensures s.sh.core.nextInst <= s'.sh.core.nextInst
    ensures forall i | i in s'.sh.cbs && i !in s.sh.cbs :: s.sh.core.nextInst <= i
  {
    HostSafety.ExecHistory(s.sh, m.t, s.threads[m.t], m.c);
  }

  lemma {:induction false} NumbersGrow(states: seq<State>, moves: seq<Move>, j: nat, k: nat)
    requires IsRun(states, moves) && j <= k < |states|
    ensures states[j].sh.core.nextInst <= states[k].sh.core.nextInst
    decreases k
  {
    if j < k {
      NumbersGrow(states, moves, j, k - 1);
      assert StepAt(states, moves, k - 1);
      FirstStep(states[k - 1], states[k], moves[k - 1]);
    }
  }

  /** With no instance allocated no thread has an activation, and a step that allocates none leaves the
      queues alone. */
  lemma NoneYet(s: State, s': State, m: Move)
    requires Inv(s) && Inv(s') && Step(s, s', m.t, m.c) && s.sh.cbs == map[]
    requires s'.sh.core.nextInst == s.sh.core.nextInst
    ensures s'.sh.serial == s.sh.serial && s'.sh.cbs == map[]
  {
    var st := s.threads[m.t];
    assert ThreadOk(m.t, st, s.sh);
    assert st.frames.Empty? by {
      if st.frames.Push? { HomeAllocated(s.sh, m.t, st); }
    }
    BaseApart(s.sh, m.t, st.base, m.c);
    FirstStep(s, s', m);
    AllocatedBelow(s');
    assert forall i :: i !in s'.sh.cbs;
  }

  lemma AllocatedBelow(s: State)
    requires Inv(s)
    ensures forall i | i in s.sh.cbs :: i < s.sh.core.nextInst
  {
    assert forall i | i in s.sh.cbs.Keys :: i in s.sh.core.works;
  }

  /** For hosts whose serial-out handlers drain the queue: whenever no worker is between its push and
      its handler's return, everything written has been taken, in order. */
  lemma AllTaken(states: seq<State>, moves: seq<Move>, k: nat)
    requires IsRun(states, moves) && HostDelivery.DrainingHost(states, moves) && k < |states|
    requires states[0].sh.serial.rx == [] && !HostDelivery.SomeDelivering(states[k])
    ensures Taken(states, moves, k) == Flatten(Written(states, moves, k))
  {
    HostDelivery.NoLostWakeup(states, moves, k);
    EmptyIffTaken(states, moves, k);
    Unit(Flatten(Written(states, moves, k)));
  }
}
