/** Modem-to-host delivery: serial::write pushes under the serial mutex and then calls the wake-up
    callback, whose handler drains the queue with rx_available and rx_read (the managed
    OnSerialOutNative loop). Any number of other host threads may read the queue too, or take the
    callback mutex for other reasons. One step per acquisition, per byte pushed, or per critical
    section with its release. */
module Delivery {
  import opened Prelude

  datatype Who = Worker | Host(id: nat)

  /** Where the worker is. `Deliver` is the handler past its loop, raising its event if it has
      bytes; `Unlock` the closure giving the callback mutex back. */
  datatype WorkerPc =
    | Away                                  // in the sketch, outside write()
    | WantPush(data: seq<byte>)
    | InPush(data: seq<byte>, k: nat)
    | WantCallback
    | WantAvailable | InAvailable
    | WantRead | InRead
    | Deliver
    | Unlock

  datatype HostPc = Outside | HWantRead | HInRead | HWantCallback | HInCallback

  /** `initial`, `written`, `taken` and `events` are history: what the queue held at first, every
      byte written, every byte dequeued with its taker, and the batches the handler raised. */
  datatype State = State(
    serial: Option<Who>,
    callback: Option<Who>,
    rx: seq<byte>,
    pc: WorkerPc,
    batch: seq<byte>,
    hosts: map<nat, HostPc>,
    initial: seq<byte>,
    written: seq<byte>,
    taken: seq<(Who, byte)>,
    events: seq<seq<byte>>)

  ghost predicate Init(s: State) {
    && s.serial == None && s.callback == None && s.pc == Away && s.batch == []
    && s.rx == s.initial && s.written == [] && s.taken == [] && s.events == []
    && forall h | h in s.hosts :: s.hosts[h] == Outside
  }

  ghost predicate WorkerStep(s: State, s': State) {
    match s.pc
    case Away => exists data :: s' == s.(pc := WantPush(data))
    case WantPush(data) => s.serial == None && s' == s.(serial := Some(Worker), pc := InPush(data, 0))
    case InPush(data, k) =>
      if k < |data| then s' == s.(rx := s.rx + [data[k]], written := s.written + [data[k]], pc := InPush(data, k + 1))
      else s' == s.(serial := None, pc := if |data| > 0 then WantCallback else Away)
    case WantCallback => s.callback == None && s' == s.(callback := Some(Worker), pc := WantAvailable)
    case WantAvailable => s.serial == None && s' == s.(serial := Some(Worker), pc := InAvailable)
    case InAvailable => s' == s.(serial := None, pc := if s.rx != [] then WantRead else Deliver)
    case WantRead => s.serial == None && s' == s.(serial := Some(Worker), pc := InRead)
    case InRead =>
      if s.rx == [] then s' == s.(serial := None, pc := Deliver)
      else s' == s.(serial := None, rx := s.rx[1..], batch := s.batch + [s.rx[0]],
                    taken := s.taken + [(Worker, s.rx[0])], pc := WantAvailable)
    case Deliver =>
      s' == s.(events := if s.batch != [] then s.events + [s.batch] else s.events, batch := [], pc := Unlock)
    case Unlock => s' == s.(callback := None, pc := Away)
  }

  ghost predicate HostStep(s: State, s': State, h: nat) {
    h in s.hosts &&
    match s.hosts[h]
    case Outside => s' == s.(hosts := s.hosts[h := HWantRead]) || s' == s.(hosts := s.hosts[h := HWantCallback])
    case HWantRead => s.serial == None && s' == s.(serial := Some(Host(h)), hosts := s.hosts[h := HInRead])
    case HInRead =>
      if s.rx == [] then s' == s.(serial := None, hosts := s.hosts[h := Outside])
      else s' == s.(serial := None, rx := s.rx[1..], taken := s.taken + [(Host(h), s.rx[0])],
                    hosts := s.hosts[h := Outside])
    case HWantCallback => s.callback == None && s' == s.(callback := Some(Host(h)), hosts := s.hosts[h := HInCallback])
    case HInCallback => s' == s.(callback := None, hosts := s.hosts[h := Outside])
  }

  ghost predicate Step(s: State, s': State) {
    WorkerStep(s, s') || exists h :: HostStep(s, s', h)
  }

  ghost predicate StepAt(run: seq<State>, k: nat) requires k + 1 < |run| { Step(run[k], run[k + 1]) }

  ghost predicate IsRun(run: seq<State>) {
    |run| > 0 && Init(run[0]) && forall k | 0 <= k < |run| - 1 :: StepAt(run, k)
  }

  // ------------------------------------------------------------------ invariant

  /** Between its first push and the point where its drain has seen the queue empty. */
  predicate Draining(pc: WorkerPc) {
    match pc
    case Away => false
    case WantPush(_) => false
    case InPush(_, k) => k > 0
    case Deliver => false
    case Unlock => false
    case _ => true
  }

  function Bytes(log: seq<(Who, byte)>): seq<byte> {
    if log == [] then [] else [log[0].1] + Bytes(log[1..])
  }

  /** What taker `w` received, in the order it received it. */
  function Got(log: seq<(Who, byte)>, w: Who): seq<byte> {
    if log == [] then [] else (if log[0].0 == w then [log[0].1] else []) + Got(log[1..], w)
  }

  predicate HoldsSerial(pc: WorkerPc) { pc.InPush? || pc.InAvailable? || pc.InRead? }

  predicate Inv(s: State) {
    && (HoldsSerial(s.pc) <==> s.serial == Some(Worker))
    && (forall h | h in s.hosts :: s.hosts[h] == HInRead <==> s.serial == Some(Host(h)))
    && s.initial + s.written == Bytes(s.taken) + s.rx
    && Flatten(s.events) + s.batch == Got(s.taken, Worker)
    && (s.rx != [] ==> Draining(s.pc) || s.written == [])
    && (s.pc.InPush? && s.pc.k > 0 ==> s.written != [])
    && (s.pc == Away || s.pc.WantPush? || s.pc.InPush? || s.pc == WantCallback || s.pc == Unlock ==> s.batch == [])
    && (s.pc.InPush? ==> s.pc.k <= |s.pc.data|)
  }

  lemma {:induction false} BytesSnoc(log: seq<(Who, byte)>, e: (Who, byte))
    ensures Bytes(log + [e]) == Bytes(log) + [e.1]
  {
    if log != [] {
      assert (log + [e])[1..] == log[1..] + [e];
      BytesSnoc(log[1..], e);
    }
  }

  lemma {:induction false} GotSnoc(log: seq<(Who, byte)>, e: (Who, byte), w: Who)
    ensures Got(log + [e], w) == Got(log, w) + (if e.0 == w then [e.1] else [])
  {
    if log != [] {
      assert (log + [e])[1..] == log[1..] + [e];
      GotSnoc(log[1..], e, w);
    }
  }

  lemma TakeKeeps(s: State, w: Who)
    requires s.rx != []
    ensures Bytes(s.taken + [(w, s.rx[0])]) + s.rx[1..] == Bytes(s.taken) + s.rx
    ensures Got(s.taken + [(w, s.rx[0])], Worker) == Got(s.taken, Worker) + (if w == Worker then [s.rx[0]] else [])
  {
    BytesSnoc(s.taken, (w, s.rx[0]));
    GotSnoc(s.taken, (w, s.rx[0]), Worker);
  }

  lemma PushKeeps(s: State, s': State)
    requires Inv(s) && WorkerStep(s, s') && s.pc.InPush?
    ensures Inv(s')
  {
    if s.pc.k < |s.pc.data| {
      assert s'.initial + s'.written == (s.initial + s.written) + [s.pc.data[s.pc.k]];
      assert Bytes(s.taken) + s'.rx == (Bytes(s.taken) + s.rx) + [s.pc.data[s.pc.k]];
    }
  }

  lemma ReadKeeps(s: State, s': State)
    requires Inv(s) && WorkerStep(s, s') && s.pc == InRead
    ensures Inv(s')
  {
    if s.rx != [] {
      TakeKeeps(s, Worker);
      assert Flatten(s.events) + s'.batch == (Flatten(s.events) + s.batch) + [s.rx[0]];
    }
  }

  lemma DeliverKeeps(s: State, s': State)
    requires Inv(s) && WorkerStep(s, s') && s.pc == Deliver
    ensures Inv(s')
  {
    FlattenSnoc(s.events, s.batch);
    assert Flatten(s'.events) + [] == Flatten(s.events) + s.batch;
  }

  lemma WorkerKeeps(s: State, s': State)
    requires Inv(s) && WorkerStep(s, s')
    ensures Inv(s')
  {
    match s.pc
    case InPush(_, _) => PushKeeps(s, s');
    case InRead => ReadKeeps(s, s');
    case Deliver => DeliverKeeps(s, s');
    case _ =>
  }

  lemma HostKeeps(s: State, s': State, h: nat)
    requires Inv(s) && HostStep(s, s', h)
    ensures Inv(s')
  {
    if s.hosts[h] == HInRead && s.rx != [] {
      TakeKeeps(s, Host(h));
    }
  }

  lemma {:induction false} Invariant(run: seq<State>, k: nat)
    requires IsRun(run) && k < |run|
    ensures Inv(run[k]) && run[k].initial == run[0].initial
  {
    if k > 0 {
      Invariant(run, k - 1);
      assert StepAt(run, k - 1);
      if WorkerStep(run[k - 1], run[k]) {
        WorkerKeeps(run[k - 1], run[k]);
      } else {
        var h :| HostStep(run[k - 1], run[k], h);
        HostKeeps(run[k - 1], run[k], h);
      }
    }
  }

  // ------------------------------------------------------------------ results

  /** No lost wake-up, under every interleaving with other readers: once a byte has been written
      (and from the start, if the queue began empty), a non-empty queue means the worker is between
      its push and the end of its drain. */
  lemma NoLostWakeup(run: seq<State>, k: nat)
    requires IsRun(run) && k < |run|
    ensures run[k].rx != [] && (run[0].initial == [] || run[k].written != []) ==> Draining(run[k].pc)
  {
    Invariant(run, k);
  }

  /** What the queue can hold while the worker is not draining: nothing, or what is left of the
      bytes an earlier instance left behind. */
  lemma LeftoversOnly(run: seq<State>, k: nat)
    requires IsRun(run) && k < |run| && !Draining(run[k].pc) && run[k].rx != []
    ensures run[k].written == [] && run[0].initial == Bytes(run[k].taken) + run[k].rx
  {
    Invariant(run, k);
    assert run[k].initial + [] == run[k].initial;
  }

  /** Every byte written is dequeued exactly once, by one taker, in order; none is invented; and what
      the handler has raised and collected is exactly what it dequeued. */
  lemma ExactDelivery(run: seq<State>, k: nat)
    requires IsRun(run) && k < |run|
    ensures run[0].initial + run[k].written == Bytes(run[k].taken) + run[k].rx
    ensures Flatten(run[k].events) + run[k].batch == Got(run[k].taken, Worker)
  {
    Invariant(run, k);
  }

  predicate OnlyWorker(log: seq<(Who, byte)>) { forall e | e in log :: e.0 == Worker }

  lemma {:induction false} OnlyWorkerGot(log: seq<(Who, byte)>)
    requires OnlyWorker(log)
    ensures Got(log, Worker) == Bytes(log)
  {
    if log != [] {
      assert log[0] in log;
      OnlyWorkerGot(log[1..]);
    }
  }

  /** With no other reader and an initially empty queue, delivered batches, then the batch being
      collected, then the queue, are the bytes written; and whenever the worker is back in the
      sketch everything written has been delivered. */
  lemma SoleHandler(run: seq<State>, k: nat)
    requires IsRun(run) && k < |run| && OnlyWorker(run[k].taken) && run[0].initial == []
    ensures Flatten(run[k].events) + run[k].batch + run[k].rx == run[k].written
    ensures run[k].pc == Away ==> Flatten(run[k].events) == run[k].written
  {
    Invariant(run, k);
    OnlyWorkerGot(run[k].taken);
    assert run[k].written == [] + run[k].written;
  }
}
