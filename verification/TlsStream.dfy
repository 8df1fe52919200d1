/** The state of one TLS client (native/hal/src/tls.cpp) and what each of its routines makes of an
    answer of the TLS engine, over every sequence of calls. */
module TlsStream {
  import opened Prelude

  const RECORD_ROOM := 1536

  /** `rx`, `rxpos`, `handshaked`, `fatal`; with, as history, every byte the engine has decrypted,
      the bytes read() has handed out, and the unread ones close() has thrown away. */
  datatype Session = Session(rx: seq<byte>, rxpos: nat, handshaked: bool, fatal: bool,
                             decrypted: seq<byte>, delivered: seq<byte>, discarded: seq<byte>)

  const NEW_SESSION := Session([], 0, false, false, [], [], [])

  predicate Sound(s: Session) { s.rxpos <= |s.rx| }

  function Unread(s: Session): seq<byte>
    requires Sound(s)
  {
    s.rx[s.rxpos..]
  }

  /** mbedtls_ssl_read: some bytes, WANT_READ or WANT_WRITE, or anything else (the session's end). */
  datatype Answer = Chunk(data: seq<byte>) | Want | Ended

  predicate Possible(a: Answer) { a.Chunk? ==> 1 <= |a.data| <= RECORD_ROOM }

  /** pump refills an empty buffer, unless the session is over. */
  predicate Asks(s: Session) { s.rxpos >= |s.rx| && !s.fatal }

  function Pumped(s: Session, a: Answer): Session {
    if !Asks(s) then s
    else
      var cleared := s.(rx := [], rxpos := 0);
      match a
      case Chunk(data) => cleared.(rx := data, decrypted := s.decrypted + data)
      case Want => cleared
      case Ended => cleared.(fatal := true)
  }

  function Min(a: nat, b: nat): nat { if a < b then a else b }

  /** A call, with what its environment answers. A failed connect has closed the TCP socket. */
  datatype Call =
    | Available(a: Answer)
    | Read(len: nat, a: Answer)
    | PeekByte(a: Answer)
    | Write(len: nat, broken: bool)
    | Connect(ok: bool)
    | Close

  predicate Legal(c: Call) {
    match c
    case Available(a) => Possible(a)
    case Read(_, a) => Possible(a)
    case PeekByte(a) => Possible(a)
    case _ => true
  }

  /** The bytes a read of `len` takes from a pumped session. */
  function Taken(s: Session, len: nat): seq<byte>
    requires Sound(s)
  {
    Unread(s)[..Min(len, |Unread(s)|)]
  }

  function After(s: Session, c: Call): Session
    requires Sound(s)
  {
    match c
    case Available(a) => if s.handshaked then Pumped(s, a) else s
    case PeekByte(a) => if s.handshaked then Pumped(s, a) else s
    case Read(len, a) =>
      if !s.handshaked || len == 0 then s
      else
        var p := Pumped(s, a);
        var got := Taken(p, len);
        p.(rxpos := p.rxpos + |got|, delivered := p.delivered + got)
    case Write(len, broken) => if s.handshaked && len > 0 && broken then s.(fatal := true) else s
    case Connect(ok) => if ok then s.(handshaked := true) else s
    case Close => s.(handshaked := false, fatal := true, rx := [], rxpos := 0, discarded := Unread(s) + s.discarded)
  }

  /** The integer a call returns (reads, peeks and counts). */
  function Returned(s: Session, c: Call): int
    requires Sound(s)
  {
    match c
    case Available(a) => if s.handshaked then |Unread(Pumped(s, a))| else 0
    case PeekByte(a) =>
      if s.handshaked && Unread(Pumped(s, a)) != [] then Unread(Pumped(s, a))[0] else -1
    case Read(len, a) =>
      if !s.handshaked || len == 0 then 0
      else
        var p := Pumped(s, a);
        if Unread(p) == [] then (if p.fatal then -1 else 0) else |Taken(p, len)|
    case _ => 0
  }

  /** connected(), whatever the TCP socket says. */
  predicate MayBeConnected(s: Session) { s.handshaked && !s.fatal }

  // ------------------------------------------------------------------ conservation

  /** Nothing decrypted is lost, duplicated or reordered, close() apart, which throws the unread rest
      away; a session is over before anything is thrown away. */
  ghost predicate Conserved(s: Session) {
    && Sound(s)
    && s.decrypted == s.delivered + Unread(s) + s.discarded
    && (s.discarded != [] ==> s.fatal && s.rx == [])
  }

  lemma PumpConserves(s: Session, a: Answer)
    requires Conserved(s)
    ensures Conserved(Pumped(s, a)) && Pumped(s, a).discarded == s.discarded && Pumped(s, a).delivered == s.delivered
  {
    if Asks(s) {
      assert Unread(s) == [] && s.delivered + [] + [] == s.delivered;
      if a.Chunk? { assert Unread(Pumped(s, a)) == a.data && s.delivered + a.data + [] == s.delivered + a.data; }
    }
  }

  lemma TakeConserves(p: Session, len: nat)
    requires Conserved(p)
    ensures var got := Taken(p, len); Conserved(p.(rxpos := p.rxpos + |got|, delivered := p.delivered + got))
  {
    var got := Taken(p, len);
    CutTwice(p.rx, p.rxpos, p.rxpos + |got|);
    assert got == p.rx[p.rxpos..p.rxpos + |got|];
    Assoc(p.delivered, got, p.rx[p.rxpos + |got|..]);
  }

  lemma CallConserves(s: Session, c: Call)
    requires Conserved(s) && Legal(c)
    ensures Conserved(After(s, c))
    ensures c != Close ==> After(s, c).discarded == s.discarded
  {
    match c
    case Available(a) => PumpConserves(s, a);
    case PeekByte(a) => PumpConserves(s, a);
    case Read(len, a) =>
      PumpConserves(s, a);
      TakeConserves(Pumped(s, a), len);
    case Close =>
      assert s.delivered + [] == s.delivered;
      Assoc(s.delivered, Unread(s), s.discarded);
    case _ =>
  }

  // ------------------------------------------------------------------ prediction

  /** What available() says is what a read then returns, and its bytes are the next of the stream,
      however the engine would answer; after 0 a read returns nothing but what arrives in between,
      and -1 only if the session is over. */
  lemma AvailablePredictsRead(s: Session, a: Answer, len: nat, next: Answer)
    requires Sound(s) && s.handshaked && len > 0 && Possible(a) && Possible(next)
    ensures var n, t := Returned(s, Available(a)), After(s, Available(a));
            && (n > 0 ==> Returned(t, Read(len, next)) == if len < n then len else n)
            && (n > 0 ==> After(t, Read(len, next)).delivered == t.delivered + Unread(t)[..if len < n then len else n])
            && (n == 0 && t.fatal ==> Returned(t, Read(len, next)) == -1)
            && (n == 0 && !t.fatal && next == Want ==> Returned(t, Read(len, next)) == 0)
  {
  }

  /** The byte peek_byte returns is the first a read then hands out, however the engine would answer;
      a second peek returns it again. */
  lemma PeekPredictsRead(s: Session, a: Answer, len: nat, next: Answer)
    requires Sound(s) && s.handshaked && len > 0 && Possible(a) && Possible(next)
    ensures var b, t := Returned(s, PeekByte(a)), After(s, PeekByte(a));
            && (b >= 0 <==> Returned(s, Available(a)) > 0)
            && (b >= 0 ==> Returned(t, PeekByte(next)) == b && After(t, PeekByte(next)) == t)
            && (b >= 0 ==> Returned(t, Read(len, next)) > 0 && After(t, Read(len, next)).delivered[|t.delivered|] == b)
  {
    var t := After(s, PeekByte(a));
    if Unread(t) != [] {
      assert Taken(t, len)[0] == Unread(t)[0];
      assert (t.delivered + Taken(t, len))[|t.delivered|] == Taken(t, len)[0];
    }
  }

  /** Without a handshake the engine is not asked: nothing is available, nothing read, no byte to see,
      and no call of these or of write changes anything. */
  lemma SilentBeforeHandshake(s: Session, a: Answer, len: nat, broken: bool)
    requires Sound(s) && !s.handshaked
    ensures Returned(s, Available(a)) == 0 && Returned(s, Read(len, a)) == 0 && Returned(s, PeekByte(a)) == -1
    ensures After(s, Available(a)) == After(s, Read(len, a)) == After(s, PeekByte(a)) ==
              After(s, Write(len, broken)) == s
  {
  }

  // ------------------------------------------------------------------ runs

  ghost predicate StepAt(run: seq<Session>, calls: seq<Call>, k: nat)
    requires k < |calls| && |run| == |calls| + 1
  {
    Sound(run[k]) && Legal(calls[k]) && run[k + 1] == After(run[k], calls[k])
  }

  ghost predicate IsRun(run: seq<Session>, calls: seq<Call>) {
    |run| == |calls| + 1 && run[0] == NEW_SESSION && forall k | 0 <= k < |calls| :: StepAt(run, calls, k)
  }

  /** In every run, what was decrypted is what was delivered, then what is unread; with nothing thrown
      away as long as close() has not been called. */
  lemma {:induction false} ExactStream(run: seq<Session>, calls: seq<Call>, k: nat)
    requires IsRun(run, calls) && k < |run|
    ensures Conserved(run[k])
    ensures Close !in calls[..k] ==> run[k].decrypted == run[k].delivered + Unread(run[k])
  {
    if k > 0 {
      ExactStream(run, calls, k - 1);
      assert StepAt(run, calls, k - 1);
      CallConserves(run[k - 1], calls[k - 1]);
      assert calls[..k] == calls[..k - 1] + [calls[k - 1]];
    }
    if Close !in calls[..k] {
      NothingDiscarded(run, calls, k);
      assert run[k].delivered + Unread(run[k]) + [] == run[k].delivered + Unread(run[k]);
    }
  }

  lemma {:induction false} NothingDiscarded(run: seq<Session>, calls: seq<Call>, k: nat)
    requires IsRun(run, calls) && k < |run| && Close !in calls[..k]
    ensures run[k].discarded == []
  {
    if k > 0 {
      assert calls[..k] == calls[..k - 1] + [calls[k - 1]];
      NothingDiscarded(run, calls, k - 1);
      assert StepAt(run, calls, k - 1);
    }
  }

  /** In every run, a read returns -1 only when the session is over and every byte decrypted has been
      delivered (or thrown away by close()), and then always. */
  lemma MinusOneIffDrained(run: seq<Session>, calls: seq<Call>, k: nat)
    requires IsRun(run, calls) && k < |calls| && calls[k].Read? && calls[k].len > 0 && run[k].handshaked
    ensures Sound(run[k])
    ensures var s := run[k + 1];
            Returned(run[k], calls[k]) == -1 <==> s.fatal && s.decrypted == run[k].delivered + s.discarded
  {
    ExactStream(run, calls, k);
    assert StepAt(run, calls, k);
    PumpConserves(run[k], calls[k].a);
    var p, s := Pumped(run[k], calls[k].a), run[k + 1];
    assert s.decrypted == p.decrypted && s.discarded == p.discarded && s.fatal == p.fatal;
    assert |p.decrypted| == |p.delivered| + |Unread(p)| + |p.discarded|;
    assert p.delivered + [] + p.discarded == p.delivered + p.discarded;
  }

  /** In every run, once the session is over - by the peer's doing, an error, or close() - it stays
      over: connected() is never true again, whatever is called, a successful connect() included, and
      nothing more is ever decrypted. */
  lemma {:induction false} FatalIsForever(run: seq<Session>, calls: seq<Call>, k: nat, m: nat)
    requires IsRun(run, calls) && k <= m < |run| && run[k].fatal
    ensures run[m].fatal && !MayBeConnected(run[m]) && run[m].decrypted == run[k].decrypted
    decreases m
  {
    if k < m {
      FatalIsForever(run, calls, k, m - 1);
      assert StepAt(run, calls, m - 1);
    }
  }

  /** The call ends the session: close(), an engine read answered with anything but data or "not now",
      or an engine write that fails. */
  predicate Ends(s: Session, c: Call) {
    match c
    case Available(a) => s.handshaked && Asks(s) && a == Ended
    case PeekByte(a) => s.handshaked && Asks(s) && a == Ended
    case Read(len, a) => s.handshaked && len > 0 && Asks(s) && a == Ended
    case Write(len, broken) => s.handshaked && len > 0 && broken
    case Connect(_) => false
    case Close => true
  }

  /** A session is over if and only if some earlier call ended it; connect() is not a way back. */
  lemma {:induction false} FatalIff(run: seq<Session>, calls: seq<Call>, k: nat)
    requires IsRun(run, calls) && k < |run|
    ensures run[k].fatal <==> exists j :: 0 <= j < k && Ends(run[j], calls[j])
  {
    if k > 0 {
      FatalIff(run, calls, k - 1);
      assert StepAt(run, calls, k - 1);
      assert run[k].fatal <==> run[k - 1].fatal || Ends(run[k - 1], calls[k - 1]);
    }
  }

  /** The j-th of the first `k` calls connected, and no close() has followed. */
  predicate UpSince(calls: seq<Call>, j: nat, k: nat) {
    j < k <= |calls| && calls[j] == Connect(true) && Close !in calls[j..k]
  }

  lemma UpSinceStep(calls: seq<Call>, j: nat, k: nat)
    requires k < |calls|
    ensures UpSince(calls, j, k + 1) <==>
              if j == k then calls[k] == Connect(true) else UpSince(calls, j, k) && calls[k] != Close
  {
    if j <= k { assert calls[j..k + 1] == calls[j..k] + [calls[k]]; }
  }

  /** The handshake flag is set by a successful connect() and cleared by close() only. */
  lemma {:induction false} HandshakedIff(run: seq<Session>, calls: seq<Call>, k: nat)
    requires IsRun(run, calls) && k < |run|
    ensures run[k].handshaked <==> exists j :: UpSince(calls, j, k)
  {
    if k > 0 {
      var n, c := k - 1, calls[k - 1];
      HandshakedIff(run, calls, n);
      assert StepAt(run, calls, n);
      forall j: nat
        ensures UpSince(calls, j, k) <==> if j == n then c == Connect(true) else UpSince(calls, j, n) && c != Close
      {
        UpSinceStep(calls, j, n);
      }
      assert UpSince(calls, n, k) <==> c == Connect(true);
    }
  }

  /** What a successful connect() promises - that the client then is connected, as far as the TLS
      session goes - holds if and only if no call before it, in the whole life of the object, ended a
      session. */
  lemma ConnectUsableIff(run: seq<Session>, calls: seq<Call>, k: nat)
    requires IsRun(run, calls) && k < |calls| && calls[k] == Connect(true)
    ensures MayBeConnected(run[k + 1]) <==> forall j | 0 <= j < k :: !Ends(run[j], calls[j])
  {
    FatalIff(run, calls, k);
    assert StepAt(run, calls, k);
  }

  /** The same at any later moment: connected() can be true if and only if the last successful
      connect() has not been closed since and no call so far has ended a session. */
  lemma ConnectedIff(run: seq<Session>, calls: seq<Call>, k: nat)
    requires IsRun(run, calls) && k < |run|
    ensures MayBeConnected(run[k]) <==>
              && (exists j :: UpSince(calls, j, k))
              && (forall j | 0 <= j < k :: !Ends(run[j], calls[j]))
  {
    FatalIff(run, calls, k);
    HandshakedIff(run, calls, k);
  }

  /** It does fail: connect, close, connect again. The second connect() succeeds, connected() stays
      false, and whatever the engine has, a read returns -1. */
  lemma ReconnectFails() returns (run: seq<Session>, calls: seq<Call>)
    ensures IsRun(run, calls) && calls == [Connect(true), Close, Connect(true)]
    ensures Sound(run[3]) && run[3].handshaked && !MayBeConnected(run[3])
    ensures forall len, a | len > 0 :: Returned(run[3], Read(len, a)) == -1
  {
    calls := [Connect(true), Close, Connect(true)];
    var s1 := After(NEW_SESSION, calls[0]);
    var s2 := After(s1, calls[1]);
    var s3 := After(s2, calls[2]);
    run := [NEW_SESSION, s1, s2, s3];
    forall k | 0 <= k < |calls| ensures StepAt(run, calls, k) {}
  }

  /** It does stay: connect, then a connect that fails. */
  lemma FailedConnectLeavesFlag() returns (run: seq<Session>, calls: seq<Call>)
    ensures IsRun(run, calls) && calls == [Connect(true), Connect(false)] && run[2].handshaked
  {
    calls := [Connect(true), Connect(false)];
    var s1 := After(NEW_SESSION, calls[0]);
    run := [NEW_SESSION, s1, After(s1, calls[1])];
    forall k | 0 <= k < |calls| ensures StepAt(run, calls, k) {}
  }

  /** A failed connect() leaves the session fields as they are: on an object whose session was up, the
      handshake flag stays set although the TCP socket is closed now, and the next read asks the
      engine; on a new or closed object the flag is off. */
  lemma FailedConnectIff(run: seq<Session>, calls: seq<Call>, k: nat)
    requires IsRun(run, calls) && k < |calls| && calls[k] == Connect(false)
    ensures run[k + 1] == run[k]
    ensures run[k + 1].handshaked <==> exists j :: UpSince(calls, j, k)
  {
    assert StepAt(run, calls, k);
    HandshakedIff(run, calls, k);
  }

  /** So a TlsSocket is good for one connection: whatever is called after close(), connected() stays
      false and every read of a later connection returns -1 without a byte. */
  lemma ReconnectIsDead(run: seq<Session>, calls: seq<Call>, k: nat, m: nat)
    requires IsRun(run, calls) && k < m < |run| && calls[k] == Close
    ensures Sound(run[m]) && !MayBeConnected(run[m]) && run[m].delivered == run[k].delivered
    ensures forall len, a | len > 0 && run[m].handshaked :: Returned(run[m], Read(len, a)) == -1
  {
    assert StepAt(run, calls, k);
    DeadIsSilent(run, calls, k + 1, m);
  }

  /** Over and drained, nothing is delivered any more. */
  lemma {:induction false} DeadIsSilent(run: seq<Session>, calls: seq<Call>, k: nat, m: nat)
    requires IsRun(run, calls) && k <= m < |run|
    requires run[k].fatal && Sound(run[k]) && Unread(run[k]) == []
    ensures run[m].fatal && Sound(run[m]) && Unread(run[m]) == [] && run[m].delivered == run[k].delivered
    decreases m
  {
    if k < m {
      DeadIsSilent(run, calls, k, m - 1);
      assert StepAt(run, calls, m - 1);
    }
  }
}
