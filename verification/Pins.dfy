/** native/hal/src/pins.cpp: the pin table, sequentially as the class it is and concurrently as a
    transition system in which every pin has one writing thread. */
module Pins {
  import opened Prelude
  import opened Changes

  /** The values written to (or reported for) one pin, in order. */
  function OnPin(log: seq<(int, int)>, pin: int): seq<int> {
    if log == [] then [] else (if log[0].0 == pin then [log[0].1] else []) + OnPin(log[1..], pin)
  }

  lemma {:induction false} OnPinSnoc(log: seq<(int, int)>, e: (int, int), pin: int)
    ensures OnPin(log + [e], pin) == if e.0 == pin then OnPin(log, pin) + [e.1] else OnPin(log, pin)
  {
    if log != [] {
      assert (log + [e])[1..] == log[1..] + [e];
      OnPinSnoc(log[1..], e, pin);
    }
  }

  function Recorded(values: map<int, int>, pin: int): Option<int> {
    if pin in values then Some(values[pin]) else None
  }

  /** The pin's events are its writes with repeats removed, and the table holds its last write. */
  predicate Reported(value: map<int, int>, writes: seq<(int, int)>, events: seq<(int, int)>, pin: int) {
    && OnPin(events, pin) == Edges(None, OnPin(writes, pin))
    && Latest(None, OnPin(writes, pin)) == Recorded(value, pin)
  }

  function EventsAfter(value: map<int, int>, events: seq<(int, int)>, pin: int, v: int): seq<(int, int)> {
    if Recorded(value, pin) == Some(v) then events else events + [(pin, v)]
  }

  lemma ReportedAfter(value: map<int, int>, writes: seq<(int, int)>, events: seq<(int, int)>, pin: int, v: int, p: int)
    requires Reported(value, writes, events, p) && Reported(value, writes, events, pin)
    ensures Reported(value[pin := v], writes + [(pin, v)], EventsAfter(value, events, pin, v), p)
  {
    OnPinSnoc(writes, (pin, v), p);
    OnPinSnoc(events, (pin, v), p);
    EdgesSnoc(None, OnPin(writes, p), v);
  }

  // ------------------------------------------------------------------ the table

  class PinTable {
    var mode: map<int, int>
    var value: map<int, int>

    // History, with the signal callback registered.
    ghost var writes: seq<(int, int)>
    ghost var events: seq<(int, int)>

    ghost predicate Valid() reads this {
      forall pin :: Reported(value, writes, events, pin)
    }

    constructor ()
      ensures Valid() && value == map[] && writes == [] && events == []
    {
      mode, value := map[], map[];
      writes, events := [], [];
    }

    method PinMode(pin: int, m: int)
      requires Valid()
      modifies `mode
      ensures Valid() && mode == old(mode)[pin := m]
    {
      mode := mode[pin := m];
    }

    method DigitalWrite(pin: int, v: int)
      requires Valid()
      modifies `value, `writes, `events
      ensures Valid() && value == old(value)[pin := v] && writes == old(writes) + [(pin, v)]
      ensures events == EventsAfter(old(value), old(events), pin, v)
    {
      var changed := pin !in value || value[pin] != v;
      ghost var value', writes', events' := value[pin := v], writes + [(pin, v)], EventsAfter(value, events, pin, v);
      forall p ensures Reported(value', writes', events', p) {
        assert Reported(value, writes, events, p) && Reported(value, writes, events, pin);
        ReportedAfter(value, writes, events, pin, v, p);
      }
      value := value[pin := v];
      writes := writes + [(pin, v)];
      if changed {
        events := events + [(pin, v)];
      }
    }

    /** The last value written to the pin, or 0 if it was never written. */
    method DigitalRead(pin: int) returns (v: int)
      requires Valid()
      ensures v == (match Latest(None, OnPin(writes, pin)) case None => 0 case Some(last) => last)
    {
      assert Reported(value, writes, events, pin);
      v := if pin in value then value[pin] else 0;
    }
  }

  // ------------------------------------------------------------------ under every interleaving

  type Tid = nat

  /** Which thread may write which pin. */
  type Policy = (Tid, int) -> bool

  /** A digital_write: waiting for the mutex, inside it, past it with the copied callback still to
      be called, or none in progress. The mutex is free when no thread is inside. */
  datatype Pc = Outside | Want(pin: int, v: int) | In(pin: int, v: int) | Fire(pin: int, v: int)

  /** `initial` is the table at the start (it survives instances); `writes` in mutex order. */
  datatype State = State(value: map<int, int>, pcs: map<Tid, Pc>,
                         initial: map<int, int>, writes: seq<(int, int)>, events: seq<(int, int)>)

  predicate Quiet(s: State) { forall t | t in s.pcs :: s.pcs[t].Outside? }

  predicate Free(s: State) { forall t | t in s.pcs :: !s.pcs[t].In? }

  ghost predicate Init(s: State) {
    s.value == s.initial && s.writes == [] && s.events == [] && Quiet(s)
  }

  predicate Begins(s: State, s': State, t: Tid, pin: int, v: int) { s' == s.(pcs := s.pcs[t := Want(pin, v)]) }

  /** One step of thread `t`. */
  ghost predicate ThreadStep(s: State, s': State, t: Tid, may: Policy) {
    t in s.pcs &&
    match s.pcs[t]
    case Outside => exists pin, v :: Begins(s, s', t, pin, v) && may(t, pin)
    case Want(pin, v) => Free(s) && s' == s.(pcs := s.pcs[t := In(pin, v)])
    case In(pin, v) =>
      s' == s.(value := s.value[pin := v], writes := s.writes + [(pin, v)],
               pcs := s.pcs[t := if Recorded(s.value, pin) != Some(v) then Fire(pin, v) else Outside])
    case Fire(pin, v) => s' == s.(events := s.events + [(pin, v)], pcs := s.pcs[t := Outside])
  }

  ghost predicate Step(s: State, s': State, may: Policy) { exists t :: ThreadStep(s, s', t, may) }

  ghost predicate StepAt(run: seq<State>, k: nat, may: Policy) requires k + 1 < |run| { Step(run[k], run[k + 1], may) }

  ghost predicate IsRun(run: seq<State>, may: Policy) {
    |run| > 0 && Init(run[0]) && forall k | 0 <= k < |run| - 1 :: StepAt(run, k, may)
  }

  lemma {:induction false} Fixed(run: seq<State>, k: nat, may: Policy)
    requires IsRun(run, may) && k < |run|
    ensures run[k].initial == run[0].initial && run[k].pcs.Keys == run[0].pcs.Keys
  {
    if k > 0 {
      Fixed(run, k - 1, may);
      assert StepAt(run, k - 1, may);
    }
  }

  // ------------------------------------------------------------------ one pin with one writer

  /** Of `threads`, at most `w` may write the pin. */
  predicate OnlyWriter(threads: set<Tid>, may: Policy, pin: int, w: Tid) {
    forall t | t in threads && may(t, pin) :: t == w
  }

  /** The event of `pin` that `w` has decided on but not yet raised. */
  function Pending(s: State, pin: int, w: Tid): seq<int> {
    if w in s.pcs && s.pcs[w].Fire? && s.pcs[w].pin == pin then [s.pcs[w].v] else []
  }

  predicate OnPinOnly(s: State, pin: int, w: Tid) {
    forall t | t in s.pcs && !s.pcs[t].Outside? && s.pcs[t].pin == pin :: t == w
  }

  ghost predicate PinOk(s: State, pin: int, w: Tid) {
    && OnPinOnly(s, pin, w)
    && OnPin(s.events, pin) + Pending(s, pin, w) == Edges(Recorded(s.initial, pin), OnPin(s.writes, pin))
  }

  /** The table holds the pin's last write, however many threads write it. */
  predicate TableOk(s: State, pin: int) {
    Latest(Recorded(s.initial, pin), OnPin(s.writes, pin)) == Recorded(s.value, pin)
  }

  lemma StepKeepsTable(s: State, s': State, t: Tid, may: Policy, pin: int)
    requires TableOk(s, pin) && ThreadStep(s, s', t, may)
    ensures TableOk(s', pin)
  {
    if s.pcs[t].In? { OnPinSnoc(s.writes, (s.pcs[t].pin, s.pcs[t].v), pin); }
  }

  /** A write leaves the other pins alone. */
  lemma WriteKeepsOthers(s: State, s': State, t: Tid, may: Policy, pin: int, w: Tid)
    requires PinOk(s, pin, w) && ThreadStep(s, s', t, may) && s.pcs[t].In? && s.pcs[t].pin != pin
    ensures PinOk(s', pin, w)
  {
    OnPinSnoc(s.writes, (s.pcs[t].pin, s.pcs[t].v), pin);
    assert Pending(s', pin, w) == Pending(s, pin, w);
  }

  /** A write of the pin itself: its event, if it changes anything, is pending. */
  lemma WriteKeepsPin(s: State, s': State, t: Tid, may: Policy, pin: int, w: Tid)
    requires PinOk(s, pin, w) && TableOk(s, pin) && ThreadStep(s, s', t, may) && s.pcs[t].In? && s.pcs[t].pin == pin
    ensures PinOk(s', pin, w)
  {
    var v := s.pcs[t].v;
    var first, done := Recorded(s.initial, pin), OnPin(s.writes, pin);
    assert t == w;
    assert OnPin(s'.writes, pin) == done + [v] by { OnPinSnoc(s.writes, (pin, v), pin); }
    EdgesSnoc(first, done, v);
    assert Pending(s, pin, w) == [] && OnPin(s.events, pin) + [] == OnPin(s.events, pin);
    assert Pending(s', pin, w) == if Recorded(s.value, pin) == Some(v) then [] else [v];
  }

  lemma FireKeepsPin(s: State, s': State, t: Tid, may: Policy, pin: int, w: Tid)
    requires PinOk(s, pin, w) && ThreadStep(s, s', t, may) && s.pcs[t].Fire?
    ensures PinOk(s', pin, w)
  {
    var p, v := s.pcs[t].pin, s.pcs[t].v;
    OnPinSnoc(s.events, (p, v), pin);
    if pin == p {
      assert t == w && Pending(s, pin, w) == [v] && Pending(s', pin, w) == [];
      assert OnPin(s.events, pin) + [v] + [] == OnPin(s.events, pin) + [v];
    } else {
      assert Pending(s', pin, w) == Pending(s, pin, w);
    }
  }

  lemma StepKeepsPin(s: State, s': State, t: Tid, may: Policy, pin: int, w: Tid)
    requires PinOk(s, pin, w) && TableOk(s, pin) && ThreadStep(s, s', t, may) && OnlyWriter(s.pcs.Keys, may, pin, w)
    ensures PinOk(s', pin, w)
  {
    match s.pcs[t]
    case In(p, _) =>
      if p == pin { WriteKeepsPin(s, s', t, may, pin, w); } else { WriteKeepsOthers(s, s', t, may, pin, w); }
    case Fire(_, _) => FireKeepsPin(s, s', t, may, pin, w);
    case _ => assert Pending(s', pin, w) == Pending(s, pin, w);
  }

  /** With any number of threads writing any pins: the table holds each pin's last write. */
  lemma {:induction false} TableIsLastWrite(run: seq<State>, k: nat, may: Policy, pin: int)
    requires IsRun(run, may) && k < |run|
    ensures run[k].initial == run[0].initial
    ensures Recorded(run[k].value, pin) == Latest(Recorded(run[0].initial, pin), OnPin(run[k].writes, pin))
  {
    Fixed(run, k, may);
    if k > 0 {
      TableIsLastWrite(run, k - 1, may, pin);
      Fixed(run, k - 1, may);
      assert StepAt(run, k - 1, may);
      var t :| ThreadStep(run[k - 1], run[k], t, may);
      StepKeepsTable(run[k - 1], run[k], t, may, pin);
    }
  }

  lemma {:induction false} PinInvariant(run: seq<State>, k: nat, may: Policy, pin: int, w: Tid)
    requires IsRun(run, may) && k < |run| && OnlyWriter(run[0].pcs.Keys, may, pin, w)
    ensures PinOk(run[k], pin, w)
  {
    if k > 0 {
      PinInvariant(run, k - 1, may, pin, w);
      TableIsLastWrite(run, k - 1, may, pin);
      Fixed(run, k - 1, may);
      assert StepAt(run, k - 1, may);
      var t :| ThreadStep(run[k - 1], run[k], t, may);
      StepKeepsPin(run[k - 1], run[k], t, may, pin, w);
    }
  }

  /** Where one thread at most may write the pin - whoever writes the others - under every interleaving:
      the pin's events, with the one its writer is about to raise, are its writes with repeats removed,
      starting from what the table held. */
  lemma PinEventsAreEdges(run: seq<State>, k: nat, may: Policy, pin: int, w: Tid)
    requires IsRun(run, may) && k < |run| && OnlyWriter(run[0].pcs.Keys, may, pin, w)
    ensures OnPin(run[k].events, pin) + Pending(run[k], pin, w)
         == Edges(Recorded(run[0].initial, pin), OnPin(run[k].writes, pin))
    ensures Quiet(run[k]) ==> Faithful(run[k], pin)
  {
    Fixed(run, k, may);
    PinInvariant(run, k, may, pin, w);
  }

  // ------------------------------------------------------------------ and exactly then

  predicate Faithful(s: State, pin: int) {
    OnPin(s.events, pin) == Edges(Recorded(s.initial, pin), OnPin(s.writes, pin))
  }

  /** A run of these threads from this table that ends with no write in progress. */
  ghost predicate QuietRun(run: seq<State>, threads: set<Tid>, initial: map<int, int>, may: Policy) {
    IsRun(run, may) && run[0].pcs.Keys == threads && run[0].initial == initial && Quiet(run[|run| - 1])
  }

  ghost predicate AlwaysFaithful(threads: set<Tid>, initial: map<int, int>, may: Policy, pin: int) {
    forall run | QuietRun(run, threads, initial, may) :: Faithful(run[|run| - 1], pin)
  }

  predicate OneWriter(threads: set<Tid>, may: Policy, pin: int) {
    forall t, u | t in threads && u in threads && may(t, pin) && may(u, pin) :: t == u
  }

  /** The exact condition: whatever the table holds at first and whoever may write the other pins, the
      pin's events are its writes with repeats removed in every run if and only if no two threads may
      write it. */
  lemma EdgesIffOneWriter(threads: set<Tid>, initial: map<int, int>, may: Policy, pin: int)
    ensures AlwaysFaithful(threads, initial, may, pin) <==> OneWriter(threads, may, pin)
  {
    if OneWriter(threads, may, pin) {
      var w := if exists t :: t in threads && may(t, pin) then var t :| t in threads && may(t, pin); t else 0;
      forall run | QuietRun(run, threads, initial, may) ensures Faithful(run[|run| - 1], pin) {
        PinEventsAreEdges(run, |run| - 1, may, pin, w);
      }
    } else {
      var t, u :| t in threads && u in threads && may(t, pin) && may(u, pin) && t != u;
      var run := TwoWritersReorder(threads, initial, may, pin, t, u);
      assert !Faithful(run[|run| - 1], pin);
    }
  }

  lemma Extend(run: seq<State>, s: State, s': State, t: Tid, may: Policy) returns (longer: seq<State>)
    requires IsRun(run, may) && run[|run| - 1] == s && ThreadStep(s, s', t, may)
    ensures IsRun(longer, may) && longer[|longer| - 1] == s' && longer[0] == run[0]
  {
    longer := run + [s'];
    forall k | 0 <= k < |longer| - 1 ensures StepAt(longer, k, may) {
      if k < |run| - 1 { assert StepAt(run, k, may); }
    }
  }

  /** A changing write up to where its event is due. */
  lemma WriteUpToFire(run: seq<State>, s: State, t: Tid, may: Policy, pin: int, v: int)
      returns (longer: seq<State>, s': State)
    requires IsRun(run, may) && run[|run| - 1] == s
    requires Free(s) && t in s.pcs && s.pcs[t] == Outside && may(t, pin) && Recorded(s.value, pin) != Some(v)
    ensures IsRun(longer, may) && longer[|longer| - 1] == s' && longer[0] == run[0]
    ensures s' == s.(value := s.value[pin := v], writes := s.writes + [(pin, v)], pcs := s.pcs[t := Fire(pin, v)])
  {
    var s1 := s.(pcs := s.pcs[t := Want(pin, v)]);
    assert Begins(s, s1, t, pin, v);
    longer := Extend(run, s, s1, t, may);
    var s2 := s1.(pcs := s1.pcs[t := In(pin, v)]);
    longer := Extend(longer, s1, s2, t, may);
    s' := s2.(value := s.value[pin := v], writes := s.writes + [(pin, v)], pcs := s2.pcs[t := Fire(pin, v)]);
    assert s'.pcs == s.pcs[t := Fire(pin, v)];
    longer := Extend(longer, s2, s', t, may);
  }

  lemma Raise(run: seq<State>, s: State, t: Tid, may: Policy) returns (longer: seq<State>, s': State)
    requires IsRun(run, may) && run[|run| - 1] == s && t in s.pcs && s.pcs[t].Fire?
    ensures IsRun(longer, may) && longer[|longer| - 1] == s' && longer[0] == run[0]
    ensures s' == s.(events := s.events + [(s.pcs[t].pin, s.pcs[t].v)], pcs := s.pcs[t := Outside])
  {
    s' := s.(events := s.events + [(s.pcs[t].pin, s.pcs[t].v)], pcs := s.pcs[t := Outside]);
    longer := Extend(run, s, s', t, may);
  }

  /** Any two threads that may write the same pin can raise their events in the opposite order to their
      writes, whatever the table holds at first and whatever other threads there are. */
  lemma TwoWritersReorder(threads: set<Tid>, initial: map<int, int>, may: Policy, pin: int, t: Tid, u: Tid)
      returns (run: seq<State>)
    requires t in threads && u in threads && t != u && may(t, pin) && may(u, pin)
    ensures QuietRun(run, threads, initial, may)
    ensures var last := run[|run| - 1];
            && |OnPin(last.writes, pin)| == 2 && OnPin(last.writes, pin)[0] != OnPin(last.writes, pin)[1]
            && OnPin(last.events, pin) == [OnPin(last.writes, pin)[1], OnPin(last.writes, pin)[0]]
            && !Faithful(last, pin)
  {
    var a := if pin in initial then initial[pin] + 1 else 0;
    var b := a + 1;
    var s := State(initial, map x | x in threads :: Outside, initial, [], []);
    run := [s];
    run, s := WriteUpToFire(run, s, t, may, pin, a);
    run, s := WriteUpToFire(run, s, u, may, pin, b);
    run, s := Raise(run, s, u, may);
    run, s := Raise(run, s, t, may);
    PairOnPin(pin, a, b);
    PairOnPin(pin, b, a);
    PairEdges(Recorded(initial, pin), a, b);
    assert s.writes == [(pin, a), (pin, b)] && s.events == [(pin, b), (pin, a)];
  }

  lemma PairOnPin(pin: int, a: int, b: int)
    ensures OnPin([(pin, a), (pin, b)], pin) == [a, b]
  {
    OnPinSnoc([(pin, a)], (pin, b), pin);
    assert [(pin, a)] + [(pin, b)] == [(pin, a), (pin, b)];
  }

  lemma PairEdges(first: Option<int>, a: int, b: int)
    requires first != Some(a) && a != b
    ensures Edges(first, [a, b]) == [a, b]
  {
    EdgesSnoc(first, [a], b);
    assert [a] + [b] == [a, b];
  }
}
