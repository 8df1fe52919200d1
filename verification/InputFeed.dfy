/** Host-to-modem input: concurrent write_serial calls push whole payloads, byte by byte, under the
    serial mutex, while the worker reads one byte per acquisition
    (native/hal/src/serial_port.cpp, feed_input and read). */
module InputFeed {
  import opened Prelude

  type Tid = nat

  datatype CallerPc = Outside | Want(payload: seq<byte>) | In(payload: seq<byte>, k: nat)
  datatype ReaderPc = RAway | RWant | RIn
  datatype Holder = Nobody | Caller(t: Tid) | Reader

  /** `issued` is what each caller has called with, in program order; `fed` the completed payloads,
      each with its caller, in the order of the mutex; `read` every byte the worker has read. */
  datatype State = State(lock: Holder, input: seq<byte>, callers: map<Tid, CallerPc>, reader: ReaderPc,
                         initial: seq<byte>, issued: map<Tid, seq<seq<byte>>>,
                         fed: seq<(Tid, seq<byte>)>, read: seq<byte>)

  ghost predicate Init(s: State) {
    && s.lock == Nobody && s.reader == RAway && s.input == s.initial && s.fed == [] && s.read == []
    && s.issued.Keys == s.callers.Keys
    && forall t | t in s.callers :: s.callers[t] == Outside && s.issued[t] == []
  }

  predicate Calls(s: State, s': State, t: Tid, payload: seq<byte>)
    requires t in s.issued
  {
    s' == s.(callers := s.callers[t := Want(payload)], issued := s.issued[t := s.issued[t] + [payload]])
  }

  ghost predicate CallerStep(s: State, s': State, t: Tid) {
    t in s.callers && t in s.issued &&
    match s.callers[t]
    case Outside => exists payload :: Calls(s, s', t, payload)
    case Want(payload) => s.lock == Nobody && s' == s.(lock := Caller(t), callers := s.callers[t := In(payload, 0)])
    case In(payload, k) =>
      if k < |payload| then
        s' == s.(input := s.input + [payload[k]], callers := s.callers[t := In(payload, k + 1)])
      else
        s' == s.(lock := Nobody, fed := s.fed + [(t, payload)], callers := s.callers[t := Outside])
  }

  ghost predicate ReaderStep(s: State, s': State) {
    match s.reader
    case RAway => s' == s.(reader := RWant)
    case RWant => s.lock == Nobody && s' == s.(lock := Reader, reader := RIn)
    case RIn =>
      if s.input == [] then s' == s.(lock := Nobody, reader := RAway)
      else s' == s.(lock := Nobody, input := s.input[1..], read := s.read + [s.input[0]], reader := RAway)
  }

  ghost predicate Step(s: State, s': State) {
    ReaderStep(s, s') || exists t :: CallerStep(s, s', t)
  }

  ghost predicate StepAt(run: seq<State>, k: nat) requires k + 1 < |run| { Step(run[k], run[k + 1]) }

  ghost predicate IsRun(run: seq<State>) {
    |run| > 0 && Init(run[0]) && forall k | 0 <= k < |run| - 1 :: StepAt(run, k)
  }

  // ------------------------------------------------------------------ invariant

  function Payloads(fed: seq<(Tid, seq<byte>)>): seq<seq<byte>> {
    if fed == [] then [] else [fed[0].1] + Payloads(fed[1..])
  }

  /** The completed payloads of caller `t`, in mutex order. */
  function Of(fed: seq<(Tid, seq<byte>)>, t: Tid): seq<seq<byte>> {
    if fed == [] then [] else (if fed[0].0 == t then [fed[0].1] else []) + Of(fed[1..], t)
  }

  /** The part of a payload that the caller inside the mutex has pushed so far. */
  function Torn(s: State): seq<byte> {
    if s.lock.Caller? && s.lock.t in s.callers && s.callers[s.lock.t].In? &&
        s.callers[s.lock.t].k <= |s.callers[s.lock.t].payload|
    then s.callers[s.lock.t].payload[..s.callers[s.lock.t].k] else []
  }

  predicate CallerOk(s: State, t: Tid)
    requires t in s.callers
  {
    && t in s.issued
    && (s.callers[t].In? <==> s.lock == Caller(t))
    && (s.callers[t].In? ==> s.callers[t].k <= |s.callers[t].payload|)
    && s.issued[t] == Of(s.fed, t) + (if s.callers[t].Outside? then [] else [s.callers[t].payload])
  }

  predicate Inv(s: State) {
    && (s.reader == RIn <==> s.lock == Reader)
    && (s.lock.Caller? ==> s.lock.t in s.callers)
    && (forall t | t in s.callers :: CallerOk(s, t))
    && s.read + s.input == s.initial + Flatten(Payloads(s.fed)) + Torn(s)
  }

  lemma {:induction false} PayloadsSnoc(fed: seq<(Tid, seq<byte>)>, e: (Tid, seq<byte>))
    ensures Payloads(fed + [e]) == Payloads(fed) + [e.1]
  {
    if fed != [] {
      assert (fed + [e])[1..] == fed[1..] + [e];
      PayloadsSnoc(fed[1..], e);
    }
  }

  lemma {:induction false} OfSnoc(fed: seq<(Tid, seq<byte>)>, e: (Tid, seq<byte>), t: Tid)
    ensures Of(fed + [e], t) == if e.0 == t then Of(fed, t) + [e.1] else Of(fed, t)
  {
    if fed != [] {
      assert (fed + [e])[1..] == fed[1..] + [e];
      OfSnoc(fed[1..], e, t);
    }
  }

  lemma ReaderKeeps(s: State, s': State)
    requires Inv(s) && ReaderStep(s, s')
    ensures Inv(s')
  {
    forall t | t in s'.callers ensures CallerOk(s', t) { assert CallerOk(s, t); }
    if s.reader == RIn && s.input != [] {
      assert s'.read + s'.input == s.read + s.input;
    }
  }

  lemma PushKeeps(s: State, s': State, t: Tid)
    requires Inv(s) && CallerStep(s, s', t) && s.callers[t].In? && s.callers[t].k < |s.callers[t].payload|
    ensures Inv(s')
  {
    forall u | u in s'.callers ensures CallerOk(s', u) { assert CallerOk(s, u); }
    assert CallerOk(s, t);
    var payload, k := s.callers[t].payload, s.callers[t].k;
    assert payload[..k + 1] == payload[..k] + [payload[k]];
    assert s'.read + s'.input == (s.read + s.input) + [payload[k]];
    assert Torn(s') == Torn(s) + [payload[k]];
    assert s'.initial + Flatten(Payloads(s'.fed)) + Torn(s') ==
        (s.initial + Flatten(Payloads(s.fed)) + Torn(s)) + [payload[k]];
  }

  lemma ReleaseKeeps(s: State, s': State, t: Tid)
    requires Inv(s) && CallerStep(s, s', t) && s.callers[t].In? && s.callers[t].k >= |s.callers[t].payload|
    ensures Inv(s')
  {
    assert CallerOk(s, t);
    var payload := s.callers[t].payload;
    forall u | u in s'.callers ensures CallerOk(s', u) {
      assert CallerOk(s, u);
      OfSnoc(s.fed, (t, payload), u);
    }
    PayloadsSnoc(s.fed, (t, payload));
    FlattenSnoc(Payloads(s.fed), payload);
    assert Torn(s) == payload && Torn(s') == [];
    assert s'.initial + Flatten(Payloads(s'.fed)) + [] == s.initial + Flatten(Payloads(s.fed)) + payload;
  }

  lemma EnterKeeps(s: State, s': State, t: Tid)
    requires Inv(s) && CallerStep(s, s', t) && !s.callers[t].In?
    ensures Inv(s')
  {
    forall u | u in s'.callers ensures CallerOk(s', u) { assert CallerOk(s, u); }
    assert CallerOk(s, t);
    assert Torn(s') == Torn(s);
  }

  lemma {:induction false} Invariant(run: seq<State>, k: nat)
    requires IsRun(run) && k < |run|
    ensures Inv(run[k]) && run[k].initial == run[0].initial
  {
    if k > 0 {
      Invariant(run, k - 1);
      assert StepAt(run, k - 1);
      var s, s' := run[k - 1], run[k];
      if ReaderStep(s, s') {
        ReaderKeeps(s, s');
      } else {
        var t :| CallerStep(s, s', t);
        if !s.callers[t].In? { EnterKeeps(s, s', t); }
        else if s.callers[t].k < |s.callers[t].payload| { PushKeeps(s, s', t); }
        else { ReleaseKeeps(s, s', t); }
      }
    }
  }

  /** Input is never torn: whenever no caller is inside feed_input, what has been read followed by
      what waits is (after what was there at first) a concatenation of whole payloads, in an order
      that respects each caller's own: the payloads of a caller are the ones it has issued, all but
      possibly the call in progress. */
  lemma WholePayloads(run: seq<State>, k: nat, t: Tid)
    requires IsRun(run) && k < |run| && t in run[k].callers
    ensures !run[k].lock.Caller? ==> run[k].read + run[k].input == run[0].initial + Flatten(Payloads(run[k].fed))
    ensures t in run[k].issued && Of(run[k].fed, t) <= run[k].issued[t]
    ensures run[k].callers[t].Outside? ==> Of(run[k].fed, t) == run[k].issued[t]
  {
    Invariant(run, k);
    assert CallerOk(run[k], t);
    assert run[0].initial + Flatten(Payloads(run[k].fed)) + [] == run[0].initial + Flatten(Payloads(run[k].fed));
  }
}
