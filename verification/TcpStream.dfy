/** The byte stream behind one TcpSocket (native/hal/src/net.cpp:180-227): the one-byte pushback in
    front of what the kernel holds, and what a read() or peek_byte() makes of each kernel answer. */
module TcpStream {
  import opened Prelude

  /** `peeked_` (-1: none) and the kernel's receive buffer. */
  datatype Stream = Stream(pushback: int, pending: seq<byte>)

  predicate Sound(s: Stream) { -1 <= s.pushback < 256 }

  function Pushed(b: int): seq<byte>
    requires -1 <= b < 256
  {
    if b >= 0 then [b as byte] else []
  }

  /** What the reader has still to see, in order. */
  function Unread(s: Stream): seq<byte>
    requires Sound(s)
  {
    Pushed(s.pushback) + s.pending
  }

  /** Answers of recv: data, orderly close, nothing yet, hard error. */
  datatype Received = Got(data: seq<byte>) | PeerClosed | WouldBlock | Failed

  /** The answers recv may give for room for `n > 0` bytes. */
  predicate Possible(pending: seq<byte>, n: nat, r: Received) {
    match r
    case Got(data) => 1 <= |data| <= n && data <= pending
    case PeerClosed => pending == []
    case WouldBlock => pending == []
    case Failed => true
  }

  function Left(pending: seq<byte>, r: Received): seq<byte>
    requires r.Got? ==> r.data <= pending
  {
    if r.Got? then pending[|r.data|..] else pending
  }

  /** recv is skipped when the pushback alone fills the buffer. */
  predicate NeedsRecv(s: Stream, len: nat) { len > 1 || (len == 1 && s.pushback < 0) }

  function Room(s: Stream, len: nat): int { if s.pushback >= 0 then len - 1 else len }

  ghost predicate Answers(s: Stream, len: nat, r: Received) {
    NeedsRecv(s, len) ==> Possible(s.pending, Room(s, len), r)
  }

  // ------------------------------------------------------------------ read

  /** The bytes put into the caller's buffer, whatever the return value. */
  function Stored(s: Stream, len: nat, r: Received): seq<byte>
    requires Sound(s) && len > 0
  {
    Pushed(s.pushback) + if NeedsRecv(s, len) && r.Got? then r.data else []
  }

  function Returned(s: Stream, len: nat, r: Received): int
    requires Sound(s) && len > 0
  {
    if !NeedsRecv(s, len) then 1
    else match r
      case Got(data) => |Pushed(s.pushback)| + |data|
      case PeerClosed => if s.pushback >= 0 then 1 else -1
      case WouldBlock => |Pushed(s.pushback)|
      case Failed => -1
  }

  function AfterRead(s: Stream, len: nat, r: Received): Stream
    requires Sound(s) && len > 0 && Answers(s, len, r)
  {
    Stream(-1, if NeedsRecv(s, len) then Left(s.pending, r) else s.pending)
  }

  /** The bytes the caller may look at: as many as the return value says. */
  function Delivered(s: Stream, len: nat, r: Received): seq<byte>
    requires Sound(s) && len > 0
  {
    if Returned(s, len, r) < 0 then [] else Stored(s, len, r)
  }

  predicate Loses(s: Stream, len: nat, r: Received) { s.pushback >= 0 && len > 1 && r == Failed }

  /** Without a hard error behind the pushback, what a read delivers followed by what is left is
      what there was. */
  lemma ReadKeeps(s: Stream, len: nat, r: Received)
    requires Sound(s) && len > 0 && Answers(s, len, r) && !Loses(s, len, r)
    ensures Delivered(s, len, r) + Unread(AfterRead(s, len, r)) == Unread(s)
  {
    var p, after := Pushed(s.pushback), AfterRead(s, len, r).pending;
    assert Unread(AfterRead(s, len, r)) == after by { Unit(after); }
    if NeedsRecv(s, len) && r.Got? {
      assert s.pending == r.data + after;
      Assoc(p, r.data, after);
    } else {
      assert Stored(s, len, r) == p by { Unit(p); }
      assert Returned(s, len, r) < 0 ==> p == [];
    }
  }

  lemma ReturnsLength(s: Stream, len: nat, r: Received)
    requires Sound(s) && len > 0 && Answers(s, len, r)
    ensures |Stored(s, len, r)| <= len
    ensures Returned(s, len, r) == -1 || Returned(s, len, r) == |Stored(s, len, r)|
  {
  }

  /** read removes a prefix of the stream: what it delivers followed by what is left is what there
      was - unless recv fails hard while a byte is pushed back and more than that byte was wanted.
      Then, and only then, the pushed-back byte is lost. */
  lemma ReadIsPrefixIff(s: Stream, len: nat, r: Received)
    requires Sound(s) && len > 0 && Answers(s, len, r)
    ensures (Delivered(s, len, r) + Unread(AfterRead(s, len, r)) == Unread(s)) <==>
              !(s.pushback >= 0 && len > 1 && r == Failed)
    ensures s.pushback >= 0 && len > 1 && r == Failed ==>
              Returned(s, len, r) == -1 && [s.pushback as byte] + Unread(AfterRead(s, len, r)) == Unread(s)
    ensures |Delivered(s, len, r)| <= len
    ensures Returned(s, len, r) == if Returned(s, len, r) < 0 then -1 else |Delivered(s, len, r)|
  {
    ReturnsLength(s, len, r);
    if Loses(s, len, r) {
      assert Unread(AfterRead(s, len, r)) == s.pending;
      assert |Unread(s)| == 1 + |s.pending|;
    } else {
      ReadKeeps(s, len, r);
    }
  }

  /** What each return value means, both ways. With nothing pushed back: -1 exactly for an orderly close
      or a hard error, 0 exactly for "nothing yet". With a byte pushed back: -1 exactly for a hard error
      met behind it, never 0. */
  lemma ReturnMeans(s: Stream, len: nat, r: Received)
    requires Sound(s) && len > 0 && Answers(s, len, r)
    ensures s.pushback < 0 ==> (Returned(s, len, r) == -1 <==> r == PeerClosed || r == Failed)
    ensures s.pushback >= 0 ==> (Returned(s, len, r) == -1 <==> len > 1 && r == Failed)
    ensures Returned(s, len, r) == 0 <==> s.pushback < 0 && r == WouldBlock
    ensures Returned(s, len, r) > 0 <==> (s.pushback >= 0 && !(len > 1 && r == Failed)) || (s.pushback < 0 && r.Got?)
    ensures s.pushback < 0 && r.Got? ==> Returned(s, len, r) == |r.data| && Delivered(s, len, r) == r.data
    ensures s.pushback >= 0 && Returned(s, len, r) >= 0 ==>
              && Returned(s, len, r) == (if len > 1 && r.Got? then 1 + |r.data| else 1)
              && Delivered(s, len, r) != [] && Delivered(s, len, r)[0] == s.pushback
  {
    if s.pushback < 0 && r.Got? { Unit(r.data); }
  }

  /** The same the other way about: a read that returns -1 lost a byte if and only if one was pushed
      back; with nothing pushed back, -1 means an orderly close with nothing left, or a hard error. */
  lemma MinusOneMeans(s: Stream, len: nat, r: Received)
    requires Sound(s) && len > 0 && Answers(s, len, r) && Returned(s, len, r) == -1
    ensures Unread(AfterRead(s, len, r)) != Unread(s) <==> s.pushback >= 0
    ensures r == Failed || (r == PeerClosed && Unread(s) == [])
  {
    ReadIsPrefixIff(s, len, r);
    if s.pushback < 0 { assert Unread(s) == s.pending; }
    else { assert |Unread(s)| == 1 + |s.pending|; }
  }

  /** The loss does happen: "AB" on its way, 'A' peeked at, then a two-byte read meets a hard error. */
  lemma PushbackCanBeLost() returns (s: Stream, len: nat, r: Received)
    ensures Sound(s) && len > 0 && Answers(s, len, r)
    ensures Unread(s) == [65, 66] && Returned(s, len, r) == -1 && Unread(AfterRead(s, len, r)) == [66]
  {
    s, len, r := Stream(65, [66]), 2, Failed;
  }

  /** A one-byte read delivers one byte and returns 1, or delivers nothing. */
  lemma ReadOfOne(s: Stream, r: Received)
    requires Sound(s) && Answers(s, 1, r)
    ensures Returned(s, 1, r) == 1 ==> |Delivered(s, 1, r)| == 1 && Stored(s, 1, r) == Delivered(s, 1, r)
    ensures Returned(s, 1, r) != 1 ==> Delivered(s, 1, r) == []
  {
  }

  // ------------------------------------------------------------------ peek_byte

  /** peek_byte with nothing pushed back: a one-byte read whose byte is pushed back again. */
  function AfterPeek(s: Stream, r: Received): Stream
    requires Sound(s) && Answers(s, 1, r)
  {
    if s.pushback >= 0 then s
    else if Returned(s, 1, r) == 1 then AfterRead(s, 1, r).(pushback := Stored(s, 1, r)[0])
    else AfterRead(s, 1, r)
  }

  function PeekReturned(s: Stream, r: Received): int
    requires Sound(s) && Answers(s, 1, r)
  {
    if s.pushback >= 0 then s.pushback
    else if Returned(s, 1, r) == 1 then Stored(s, 1, r)[0]
    else -1
  }

  /** With nothing pushed back: the byte taken goes back in front of the rest. */
  lemma FreshPeek(s: Stream, r: Received)
    requires Sound(s) && Answers(s, 1, r) && s.pushback < 0
    ensures Sound(AfterPeek(s, r)) && Unread(AfterPeek(s, r)) == Unread(s) == s.pending
    ensures PeekReturned(s, r) == if r.Got? then s.pending[0] as int else -1
    ensures PeekReturned(s, r) >= 0 ==> AfterPeek(s, r).pushback == PeekReturned(s, r)
  {
    Unit(s.pending);
    if r.Got? {
      assert r.data == [s.pending[0]];
      assert Stored(s, 1, r) == r.data by { Unit(r.data); }
    }
  }

  /** Whatever recv answers, a pushed-back byte is stored first. */
  lemma StoredFirst(s: Stream, len: nat, r: Received)
    requires Sound(s) && s.pushback >= 0 && len > 0
    ensures Stored(s, len, r) != [] && Stored(s, len, r)[0] == s.pushback
    ensures Unread(s) != [] && Unread(s)[0] == s.pushback
  {
  }

  /** peek_byte never changes the stream, and what it returns is what the next read, of any length
      and whatever recv answers then, stores first. */
  lemma PeekKeepsStream(s: Stream, r: Received, len: nat, next: Received)
    requires Sound(s) && Answers(s, 1, r) && len > 0
    ensures Sound(AfterPeek(s, r)) && Unread(AfterPeek(s, r)) == Unread(s)
    ensures PeekReturned(s, r) >= 0 ==> Unread(s) != [] && Unread(s)[0] == PeekReturned(s, r)
    ensures PeekReturned(s, r) >= 0 ==> Stored(AfterPeek(s, r), len, next)[0] == PeekReturned(s, r)
    ensures PeekReturned(s, r) == -1 ==> Unread(s) == [] || r == Failed
  {
    if s.pushback < 0 { FreshPeek(s, r); }
    if PeekReturned(s, r) >= 0 { StoredFirst(AfterPeek(s, r), len, next); }
  }

  // ------------------------------------------------------------------ a connection's whole life

  datatype Call = Arrives(data: seq<byte>) | Reads(len: nat, r: Received) | Peeks(r: Received)

  /** The stream, every byte that arrived and every byte read() handed out. */
  datatype History = History(s: Stream, arrived: seq<byte>, delivered: seq<byte>)

  const CONNECTED := History(Stream(-1, []), [], [])

  ghost predicate Legal(s: Stream, c: Call) {
    match c
    case Arrives(_) => true
    case Reads(len, r) => len > 0 ==> Answers(s, len, r)
    case Peeks(r) => Answers(s, 1, r)
  }

  ghost function After(h: History, c: Call): History
    requires Sound(h.s) && Legal(h.s, c)
  {
    match c
    case Arrives(data) => h.(s := h.s.(pending := h.s.pending + data), arrived := h.arrived + data)
    case Reads(len, r) =>
      if len == 0 then h
      else h.(s := AfterRead(h.s, len, r), delivered := h.delivered + Delivered(h.s, len, r))
    case Peeks(r) => h.(s := AfterPeek(h.s, r))
  }

  /** The hard error behind a pushed-back byte. */
  predicate Drops(h: History, c: Call) { c.Reads? && Loses(h.s, c.len, c.r) }

  ghost predicate StepAt(run: seq<History>, calls: seq<Call>, k: nat)
    requires k < |calls| && |run| == |calls| + 1
  {
    Sound(run[k].s) && Legal(run[k].s, calls[k]) && run[k + 1] == After(run[k], calls[k])
  }

  ghost predicate IsRun(run: seq<History>, calls: seq<Call>) {
    |run| == |calls| + 1 && run[0] == CONNECTED && forall k | 0 <= k < |calls| :: StepAt(run, calls, k)
  }

  function Losses(run: seq<History>, calls: seq<Call>, k: nat): nat
    requires k <= |calls| <= |run|
  {
    if k == 0 then 0 else Losses(run, calls, k - 1) + if Drops(run[k - 1], calls[k - 1]) then 1 else 0
  }

  ghost predicate Balanced(h: History, lost: nat) {
    && Sound(h.s)
    && |h.delivered| + |Unread(h.s)| + lost == |h.arrived|
    && (lost == 0 ==> h.delivered + Unread(h.s) == h.arrived)
  }

  lemma ReadBalanced(h: History, len: nat, r: Received, lost: nat)
    requires Balanced(h, lost) && len > 0 && Answers(h.s, len, r)
    ensures Balanced(After(h, Reads(len, r)), lost + if Loses(h.s, len, r) then 1 else 0)
  {
    ReadIsPrefixIff(h.s, len, r);
    Assoc(h.delivered, Delivered(h.s, len, r), Unread(AfterRead(h.s, len, r)));
    if Loses(h.s, len, r) { assert |Unread(h.s)| == 1 + |Unread(AfterRead(h.s, len, r))|; }
  }

  lemma ArrivalBalanced(h: History, data: seq<byte>, lost: nat)
    requires Balanced(h, lost)
    ensures Balanced(After(h, Arrives(data)), lost)
  {
    Assoc(Pushed(h.s.pushback), h.s.pending, data);
    Assoc(h.delivered, Unread(h.s), data);
  }

  lemma {:induction false} RunBalanced(run: seq<History>, calls: seq<Call>, k: nat)
    requires IsRun(run, calls) && k < |run|
    ensures Balanced(run[k], Losses(run, calls, k))
  {
    if k > 0 {
      RunBalanced(run, calls, k - 1);
      assert StepAt(run, calls, k - 1);
      var h, lost := run[k - 1], Losses(run, calls, k - 1);
      match calls[k - 1]
      case Arrives(data) => ArrivalBalanced(h, data, lost);
      case Reads(len, r) => if len > 0 { ReadBalanced(h, len, r, lost); }
      case Peeks(r) => PeekKeepsStream(h.s, r, 1, r);
    }
  }

  lemma {:induction false} LossesZeroIff(run: seq<History>, calls: seq<Call>, k: nat)
    requires k <= |calls| <= |run|
    ensures Losses(run, calls, k) == 0 <==> forall j | 0 <= j < k :: !Drops(run[j], calls[j])
  {
    if k > 0 { LossesZeroIff(run, calls, k - 1); }
  }

  /** Over every sequence of arrivals, reads and peeks, what was delivered followed by what is unread
      is what arrived, if and only if no read met a hard error behind a pushed-back byte; every such
      read costs exactly one byte. */
  lemma ExactIffNoLoss(run: seq<History>, calls: seq<Call>, k: nat)
    requires IsRun(run, calls) && k < |run|
    ensures Sound(run[k].s)
    ensures run[k].delivered + Unread(run[k].s) == run[k].arrived <==> forall j | 0 <= j < k :: !Drops(run[j], calls[j])
    ensures |run[k].delivered| + |Unread(run[k].s)| + Losses(run, calls, k) == |run[k].arrived|
  {
    RunBalanced(run, calls, k);
    LossesZeroIff(run, calls, k);
    assert |run[k].delivered + Unread(run[k].s)| == |run[k].delivered| + |Unread(run[k].s)|;
  }
}
