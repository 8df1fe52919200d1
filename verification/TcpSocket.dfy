/** native/hal/src/net.cpp: the TcpSocket and TcpListener classes over an OS that answers as it
    likes, and the WiFiClient sharing of native/hal/include/zimodem_hal/arduino/WiFiClient.h. */
module TcpSocket {
  import opened Prelude
  import opened Handles
  import T = TcpStream

  /** What the kernel holds for an open handle: the bytes already received from it, those still in
      its buffer, and those sent. */
  datatype Conn = Conn(taken: seq<byte>, pending: seq<byte>, sent: seq<byte>)

  const NEW_CONN := Conn([], [], [])

  /** More input may arrive on a connection at any time; nothing else changes by itself. */
  predicate Grown(c: Conn, d: Conn) {
    d.taken == c.taken && c.pending <= d.pending && d.sent == c.sent
  }

  /** Every byte that arrived on a connection is handed out, still unread (the pushback first), or
      counted lost; with none lost, in order. */
  ghost predicate Accounted(delivered: seq<byte>, lost: nat, pushback: int, c: Conn)
    requires -1 <= pushback < 256
  {
    var unread := T.Unread(T.Stream(pushback, c.pending));
    && |delivered| + lost + |unread| == |c.taken| + |c.pending|
    && (lost == 0 ==> delivered + unread == c.taken + c.pending)
  }

  lemma ArrivalAccounted(delivered: seq<byte>, lost: nat, pushback: int, c: Conn, d: Conn)
    requires -1 <= pushback < 256 && Accounted(delivered, lost, pushback, c) && Grown(c, d)
    ensures Accounted(delivered, lost, pushback, d)
  {
    var more := d.pending[|c.pending|..];
    var p := T.Pushed(pushback);
    assert d.pending == c.pending + more;
    Assoc(p, c.pending, more);
    Assoc(delivered, p + c.pending, more);
    Assoc(c.taken, c.pending, more);
  }

  /** What one read does to the account: `c` is the connection as recv meets it, `d` as it leaves
      it. */
  lemma ReadAccounted(delivered: seq<byte>, lost: nat, c: Conn, d: Conn, was: T.Stream, len: nat, r: T.Received)
    requires T.Sound(was) && len > 0 && T.Answers(was, len, r) && was.pending == c.pending
    requires Accounted(delivered, lost, was.pushback, c)
    requires d.pending == T.AfterRead(was, len, r).pending && d.taken + d.pending == c.taken + c.pending
    ensures var missed := if was.pushback >= 0 && T.Returned(was, len, r) == -1 then 1 else 0;
            Accounted(delivered + T.Delivered(was, len, r), lost + missed, -1, d)
  {
    T.ReadIsPrefixIff(was, len, r);
    var got, after := T.Delivered(was, len, r), T.Unread(T.AfterRead(was, len, r));
    assert |d.taken| + |d.pending| == |d.taken + d.pending| == |c.taken + c.pending|;
    assert was == T.Stream(was.pushback, c.pending) && T.AfterRead(was, len, r) == T.Stream(-1, d.pending);
    assert (delivered + got) + after == delivered + (got + after);
  }

  /** Handing a byte back undoes handing it out. */
  lemma PushBackAccounted(delivered: seq<byte>, b: byte, lost: nat, c: Conn)
    requires Accounted(delivered + [b], lost, -1, c)
    ensures Accounted(delivered, lost, b, c)
  {
    assert T.Pushed(-1) + c.pending == c.pending;
    assert (delivered + [b]) + c.pending == delivered + ([b] + c.pending);
  }

  /** What the system answered: to a name lookup, a socket or accept call, a connect (or bind and
      listen), a poll of a listener, a recv with room for so many bytes, a recv that only looks, an
      ioctl, and a send of these bytes. */
  datatype Reply =
    | Resolved(found: bool) | Made(h: int) | Dialled(to: int, done: bool) | Polled(pending: bool)
    | Received(room: int, r: T.Received) | Probed(r: T.Received) | Counted(ok: bool) | Sent(data: seq<byte>, n: int)

  /** The answers that make up an attempt to connect. */
  function Dialling(a: Attempt): seq<Reply> {
    match a
    case NoAddress => [Resolved(false)]
    case NoSocket => [Resolved(true), Made(-1)]
    case Refused(h) => [Resolved(true), Made(h), Dialled(h, false)]
    case Established(h) => [Resolved(true), Made(h), Dialled(h, true)]
  }

  /** The operating system. Every choice is its own; `log` records them. */
  class Kernel {
    ghost var os: Os
    var conns: map<int, Conn>
    ghost var log: seq<Reply>

    ghost predicate Valid() reads this {
      conns.Keys == os.open && forall h | h in conns :: h >= 0
    }

    method Socket() returns (h: int)
      requires Valid()
      modifies this
      ensures Valid() && log == old(log) + [Made(h)]
      ensures h == INVALID ==> os == old(os) && conns == old(conns)
      ensures h != INVALID ==> Fresh(old(os), h) && os == OsOpen(old(os), h) && conns == old(conns)[h := NEW_CONN]
    {
      h := *;
      if h < 0 || h in conns {
        h := INVALID;
      } else {
        os, conns := OsOpen(os, h), conns[h := NEW_CONN];
      }
      log := log + [Made(h)];
    }

    method CloseNative(h: int)
      requires Valid()
      modifies `os, `conns
      ensures Valid() && os == OsClose(old(os), h) && conns == old(conns) - {h}
    {
      os, conns := OsClose(os, h), conns - {h};
    }

    method Resolve() returns (ok: bool)
      modifies `log
      ensures log == old(log) + [Resolved(ok)]
    {
      ok := *;
      log := log + [Resolved(ok)];
    }

    /** connect, bind and listen: no effect on the handles. */
    method Succeeds(h: int) returns (ok: bool)
      modifies `log
      ensures log == old(log) + [Dialled(h, ok)]
    {
      ok := *;
      log := log + [Dialled(h, ok)];
    }

    /** select on a listening handle. */
    method Poll(h: int) returns (pending: bool)
      modifies `log
      ensures log == old(log) + [Polled(pending)]
    {
      pending := *;
      log := log + [Polled(pending)];
    }

    method Arrive(h: int)
      requires Valid() && h in conns
      modifies `conns
      ensures Valid() && conns == old(conns)[h := conns[h]] && Grown(old(conns)[h], conns[h])
    {
      var more: seq<byte> := *;
      conns := conns[h := conns[h].(pending := conns[h].pending + more)];
    }

    /** FIONREAD; a failing ioctl reads as 0. */
    method BytesAvailable(h: int) returns (n: nat, ghost ok: bool)
      requires Valid() && h in conns
      modifies `conns, `log
      ensures Valid() && conns == old(conns)[h := conns[h]] && Grown(old(conns)[h], conns[h])
      ensures log == old(log) + [Counted(ok)]
      ensures n == if ok then |conns[h].pending| else 0
    {
      Arrive(h);
      var success: bool := *;
      n := if success then |conns[h].pending| else 0;
      ok := success;
      log := log + [Counted(ok)];
    }

    /** recv into room for `room` bytes, after whatever has arrived by then. */
    method Recv(h: int, room: nat) returns (r: T.Received, ghost pending: seq<byte>)
      requires Valid() && h in conns && room > 0
      modifies `conns, `log
      ensures log == old(log) + [Received(room, r)]
      ensures Valid() && old(conns)[h].pending <= pending && T.Possible(pending, room, r)
      ensures conns == old(conns)[h := conns[h]] && conns[h].sent == old(conns)[h].sent
      ensures conns[h].pending == T.Left(pending, r)
      ensures conns[h].taken + conns[h].pending == old(conns)[h].taken + pending
    {
      Arrive(h);
      var c := conns[h];
      pending := c.pending;
      var broken: bool := *;
      var closed: bool := *;
      var want: nat := *;
      if broken {
        r := T.Failed;
      } else if c.pending == [] {
        r := if closed then T.PeerClosed else T.WouldBlock;
      } else {
        var n := if 1 <= want <= room && want <= |c.pending| then want else 1;
        r := T.Got(c.pending[..n]);
        conns := conns[h := c.(taken := c.taken + c.pending[..n], pending := c.pending[n..])];
        assert c.pending[..n] + c.pending[n..] == c.pending;
      }
      log := log + [Received(room, r)];
    }

    /** recv of one byte with MSG_PEEK: nothing is taken. */
    method Probe(h: int) returns (r: T.Received)
      requires Valid() && h in conns
      modifies `conns, `log
      ensures Valid() && conns == old(conns)[h := conns[h]] && Grown(old(conns)[h], conns[h])
      ensures T.Possible(conns[h].pending, 1, r) && log == old(log) + [Probed(r)]
    {
      Arrive(h);
      var broken: bool := *;
      var closed: bool := *;
      if broken {
        r := T.Failed;
      } else if conns[h].pending == [] {
        r := if closed then T.PeerClosed else T.WouldBlock;
      } else {
        r := T.Got(conns[h].pending[..1]);
      }
      log := log + [Probed(r)];
    }

    method Send(h: int, data: seq<byte>) returns (n: int)
      requires Valid() && h in conns
      modifies `conns, `log
      ensures Valid() && -1 <= n <= |data| && log == old(log) + [Sent(data, n)]
      ensures conns == old(conns)[h := old(conns)[h].(sent := old(conns)[h].sent + if n > 0 then data[..n] else [])]
    {
      n := *;
      n := if -1 <= n <= |data| then n else -1;
      conns := conns[h := conns[h].(sent := conns[h].sent + if n > 0 then data[..n] else [])];
      log := log + [Sent(data, n)];
    }
  }

  class TcpSocket {
    const kernel: Kernel
    var handle: int
    var peeked: int

    // History of the present connection: what read() has handed out, and how many bytes it lost.
    ghost var delivered: seq<byte>
    ghost var lost: nat

    function Value(): Sock reads this { Sock(handle, peeked) }

    ghost function Stream(): T.Stream
      reads this, kernel
    {
      T.Stream(peeked, if handle in kernel.conns then kernel.conns[handle].pending else [])
    }

    ghost predicate Valid() reads this, kernel {
      && kernel.Valid() && WellFormed(Value())
      && (handle != INVALID ==> handle in kernel.conns && Accounted(delivered, lost, peeked, kernel.conns[handle]))
    }

    constructor (kernel: Kernel)
      requires kernel.Valid()
      ensures Valid() && this.kernel == kernel && Value() == CLOSED
    {
      this.kernel := kernel;
      handle, peeked := INVALID, -1;
      delivered, lost := [], 0;
    }

    /** adopt(): wraps a handle accept() made, or the invalid one. */
    constructor Adopt(kernel: Kernel, h: int)
      requires kernel.Valid() && h >= INVALID
      requires h != INVALID ==> h in kernel.conns && kernel.conns[h] == NEW_CONN
      ensures Valid() && this.kernel == kernel && Value() == Sock(h, -1)
    {
      this.kernel := kernel;
      handle, peeked := h, -1;
      delivered, lost := [], 0;
    }

    /** The move constructor. */
    constructor Moved(other: TcpSocket)
      requires other.Valid()
      modifies other
      ensures Valid() && kernel == other.kernel && Value() == old(other.Value())
      ensures delivered == old(other.delivered) && lost == old(other.lost)
      ensures other.Valid() && other.Value() == CLOSED
    {
      kernel := other.kernel;
      handle, peeked := other.handle, other.peeked;
      delivered, lost := other.delivered, other.lost;
      new;
      other.handle, other.peeked := INVALID, -1;
    }

    /** Move assignment; nothing happens when moved to itself. */
    method MoveFrom(other: TcpSocket)
      requires Valid() && other.Valid() && kernel == other.kernel
      requires this != other ==> handle == INVALID || handle != other.handle
      modifies this, other, kernel
      ensures Valid() && other.Valid()
      ensures this == other ==> Value() == old(Value()) && kernel.os == old(kernel.os)
      ensures this != other ==>
                Value() == old(other.Value()) && other.Value() == CLOSED && delivered == old(other.delivered)
      ensures this != other ==> kernel.os == CloseSock(old(kernel.os), old(Value())).0
      ensures kernel.log == old(kernel.log)
      ensures this != other ==> kernel.conns == old(kernel.conns) - {old(handle)}
    {
      if this != other {
        Close();
        handle, peeked := other.handle, other.peeked;
        delivered, lost := other.delivered, other.lost;
        other.handle, other.peeked := INVALID, -1;
      }
    }

    /** close(), and the destructor. */
    method Close()
      requires Valid()
      modifies this, kernel
      ensures Valid() && (kernel.os, Value()) == CloseSock(old(kernel.os), old(Value()))
      ensures handle == -1 && peeked == -1 && kernel.log == old(kernel.log)
      ensures kernel.conns == old(kernel.conns) - {old(handle)}
    {
      if handle != INVALID {
        kernel.CloseNative(handle);
        handle := INVALID;
      }
      peeked := -1;
    }

    method Connect() returns (ok: bool, ghost attempt: Attempt)
      requires Valid()
      modifies this, kernel
      ensures Valid() && Possible(old(kernel.os), old(Value()), attempt)
      ensures (kernel.os, Value()) == OpenSock(old(kernel.os), old(Value()), attempt)
      ensures ok == attempt.Established? && kernel.log == old(kernel.log) + Dialling(attempt)
      ensures if ok then handle == attempt.h && handle in kernel.os.open else handle == -1
      ensures ok ==> delivered == [] && lost == 0 && T.Unread(Stream()) == []
      ensures kernel.conns == (old(kernel.conns) - {old(handle)}) + if ok then map[handle := NEW_CONN] else map[]
    {
      Close();
      var resolved := kernel.Resolve();
      if !resolved {
        return false, NoAddress;
      }
      var s := kernel.Socket();
      if s == INVALID {
        return false, NoSocket;
      }
      var connected := kernel.Succeeds(s);
      if !connected {
        kernel.CloseNative(s);
        return false, Refused(s);
      }
      handle := s;
      delivered, lost := [], 0;
      return true, Established(s);
    }

    predicate IsOpen() reads this { handle != INVALID }

    /** False on a closed socket, after an orderly close with the kernel's buffer empty (a pushed-back
        byte notwithstanding) and on a hard error; it changes nothing. */
    method Connected() returns (up: bool, ghost r: T.Received)
      requires Valid()
      modifies kernel`conns, kernel`log
      ensures kernel.log == old(kernel.log) + if IsOpen() then [Probed(r)] else []
      ensures Valid() && kernel.os == old(kernel.os)
      ensures !IsOpen() ==> !up && kernel.conns == old(kernel.conns)
      ensures IsOpen() ==>
                && kernel.conns == old(kernel.conns)[handle := kernel.conns[handle]]
                && Grown(old(kernel.conns)[handle], kernel.conns[handle])
      ensures IsOpen() ==> T.Possible(kernel.conns[handle].pending, 1, r) && up == !(r.PeerClosed? || r.Failed?)
    {
      if !IsOpen() {
        return false, T.Failed;
      }
      var answer := kernel.Probe(handle);
      ArrivalAccounted(delivered, lost, peeked, old(kernel.conns)[handle], kernel.conns[handle]);
      return !(answer.PeerClosed? || answer.Failed?), answer;
    }

    /** The length of the stream, when FIONREAD succeeds; the pushback alone, when it fails. */
    method Available() returns (n: nat, ghost ok: bool)
      requires Valid()
      modifies kernel`conns, kernel`log
      ensures kernel.log == old(kernel.log) + if IsOpen() then [Counted(ok)] else []
      ensures Valid() && kernel.os == old(kernel.os)
      ensures !IsOpen() ==> n == 0 && kernel.conns == old(kernel.conns)
      ensures IsOpen() ==>
                && kernel.conns == old(kernel.conns)[handle := kernel.conns[handle]]
                && Grown(old(kernel.conns)[handle], kernel.conns[handle])
      ensures IsOpen() && ok ==> n == |T.Unread(Stream())|
      ensures IsOpen() && !ok ==> n == if peeked >= 0 then 1 else 0
    {
      if !IsOpen() {
        return 0, false;
      }
      var fromSocket: nat;
      fromSocket, ok := kernel.BytesAvailable(handle);
      ArrivalAccounted(delivered, lost, peeked, old(kernel.conns)[handle], kernel.conns[handle]);
      n := fromSocket + if peeked >= 0 then 1 else 0;
    }

    /** Reads up to `len` bytes to the front of `buf`. `was` is the stream met, `r` recv's answer, which
        is asked for exactly when the pushback does not fill the buffer. With nothing pushed back, -1
        means an orderly close or an error; 0 means that nothing is there yet; a pushed-back byte is
        enough to return 1, unless recv fails. */
    method Read(buf: array<byte>, len: nat) returns (n: int, ghost was: T.Stream, ghost r: T.Received)
      requires Valid() && len <= buf.Length
      modifies this`peeked, this`delivered, this`lost, kernel`conns, kernel`log, buf
      ensures Valid() && kernel.os == old(kernel.os)
      ensures kernel.log == old(kernel.log)
                            + if IsOpen() && (len > 1 || (len == 1 && old(peeked) < 0))
                              then [Received(if old(peeked) >= 0 then len - 1 else len, r)] else []
      ensures IsOpen() && len > 0 && old(peeked) < 0 ==>
                && (n == -1 <==> r == T.PeerClosed || r == T.Failed)
                && (n == 0 <==> r == T.WouldBlock)
                && (r.Got? ==> n == |r.data| <= len && buf[..n] == r.data)
      ensures IsOpen() && len > 0 && old(peeked) >= 0 ==>
                && (n == -1 <==> len > 1 && r == T.Failed)
                && (n != -1 ==> n == (if len > 1 && r.Got? then 1 + |r.data| else 1) && buf[0] as int == old(peeked))
      ensures !IsOpen() || len == 0 ==>
                && n == 0 && Value() == old(Value()) && kernel.conns == old(kernel.conns)
                && delivered == old(delivered) && lost == old(lost) && buf[..] == old(buf[..])
      ensures IsOpen() && len > 0 ==>
                && T.Sound(was) && was.pushback == old(peeked) && old(Stream()).pending <= was.pending
                && T.Answers(was, len, r)
                && n == T.Returned(was, len, r) && Stream() == T.AfterRead(was, len, r)
                && n <= len && (n > 0 ==> buf[..n] == T.Delivered(was, len, r))
                && |T.Stored(was, len, r)| <= len
                && (forall i | |T.Stored(was, len, r)| <= i < buf.Length :: buf[i] == old(buf[i]))
                && delivered == old(delivered) + T.Delivered(was, len, r)
                && lost == old(lost) + (if old(peeked) >= 0 && n == -1 then 1 else 0)
                && kernel.conns == old(kernel.conns)[handle := kernel.conns[handle]]
                && kernel.conns[handle].sent == old(kernel.conns)[handle].sent
                && old(kernel.conns)[handle].taken + was.pending ==
                    kernel.conns[handle].taken + kernel.conns[handle].pending
    {
      was, r := Stream(), T.Failed;
      if !IsOpen() || len == 0 {
        return 0, was, r;
      }
      n, was, r := Fetch(buf, len);
      T.ReturnMeans(was, len, r);
      ghost var before, met := old(kernel.conns)[handle], old(kernel.conns)[handle].(pending := was.pending);
      T.ReadIsPrefixIff(was, len, r);
      ArrivalAccounted(delivered, lost, was.pushback, before, met);
      ReadAccounted(delivered, lost, met, kernel.conns[handle], was, len, r);
      delivered := delivered + T.Delivered(was, len, r);
      lost := lost + if was.pushback >= 0 && n == -1 then 1 else 0;
    }

    /** What recv does to the caller's buffer. */
    static method StoreAt(buf: array<byte>, at: nat, data: seq<byte>)
      requires at + |data| <= buf.Length
      modifies buf
      ensures buf[..at + |data|] == old(buf[..at]) + data
      ensures forall i | at + |data| <= i < buf.Length :: buf[i] == old(buf[i])
    {
      forall i | 0 <= i < |data| { buf[at + i] := data[i]; }
    }

    /** The body of read() past its guard, without the history. */
    method Fetch(buf: array<byte>, len: nat) returns (n: int, ghost was: T.Stream, ghost r: T.Received)
      requires Valid() && IsOpen() && 0 < len <= buf.Length
      modifies this`peeked, kernel`conns, kernel`log, buf
      ensures kernel.Valid() && WellFormed(Value())
      ensures kernel.log == old(kernel.log)
                            + if len > 1 || old(peeked) < 0
                              then [Received(if old(peeked) >= 0 then len - 1 else len, r)] else []
      ensures T.Sound(was) && was.pushback == old(peeked) && old(Stream()).pending <= was.pending
      ensures T.Answers(was, len, r)
      ensures n == T.Returned(was, len, r) && Stream() == T.AfterRead(was, len, r)
      ensures |T.Stored(was, len, r)| <= len && buf[..|T.Stored(was, len, r)|] == T.Stored(was, len, r)
      ensures forall i | |T.Stored(was, len, r)| <= i < buf.Length :: buf[i] == old(buf[i])
      ensures kernel.conns == old(kernel.conns)[handle := kernel.conns[handle]]
      ensures kernel.conns[handle].sent == old(kernel.conns)[handle].sent
      ensures old(kernel.conns)[handle].taken + was.pending == kernel.conns[handle].taken + kernel.conns[handle].pending
    {
      was, r := Stream(), T.Failed;
      var written := 0;
      if peeked >= 0 {
        buf[written] := peeked;
        written := written + 1;
        peeked := -1;
        if written == len {
          return 1, was, r;
        }
      }
      assert buf[..written] == T.Pushed(was.pushback);
      var answer: T.Received;
      ghost var pending: seq<byte>;
      answer, pending := kernel.Recv(handle, len - written);
      was, r := was.(pending := pending), answer;
      match answer
      case Got(data) =>
        StoreAt(buf, written, data);
        n := written + |data|;
      case PeerClosed => n := if written > 0 then written else -1;
      case WouldBlock => n := written;
      case Failed => n := -1;
    }

    /** Returns the next byte without consuming it, or -1. */
    method PeekByte() returns (b: int, ghost was: T.Stream, ghost r: T.Received)
      requires Valid()
      modifies this`peeked, this`delivered, this`lost, kernel`conns, kernel`log
      ensures Valid() && kernel.os == old(kernel.os) && delivered == old(delivered) && lost == old(lost)
      ensures kernel.log == old(kernel.log) + if IsOpen() && old(peeked) < 0 then [Received(1, r)] else []
      ensures IsOpen() && old(peeked) >= 0 ==> b == old(peeked)
      ensures IsOpen() && old(peeked) < 0 ==> if r.Got? then |r.data| == 1 && b == r.data[0] as int else b == -1
      ensures !IsOpen() ==> b == -1 && Value() == old(Value()) && kernel.conns == old(kernel.conns)
      ensures IsOpen() ==>
                && T.Sound(was) && was.pushback == old(peeked) && old(Stream()).pending <= was.pending
                && T.Answers(was, 1, r)
                && b == T.PeekReturned(was, r) && Stream() == T.AfterPeek(was, r)
                && T.Unread(Stream()) == T.Unread(was)
                && kernel.conns == old(kernel.conns)[handle := kernel.conns[handle]]
    {
      was, r := Stream(), T.Failed;
      if peeked >= 0 {
        T.PeekKeepsStream(was, r, 1, r);
        return peeked, was, r;
      }
      b, was, r := PeekFresh();
    }

    /** With nothing pushed back: reads one byte and pushes it back. */
    method PeekFresh() returns (b: int, ghost was: T.Stream, ghost r: T.Received)
      requires Valid() && peeked < 0
      modifies this`peeked, this`delivered, this`lost, kernel`conns, kernel`log
      ensures Valid() && kernel.os == old(kernel.os) && delivered == old(delivered) && lost == old(lost)
      ensures kernel.log == old(kernel.log) + if IsOpen() && old(peeked) < 0 then [Received(1, r)] else []
      ensures IsOpen() ==> if r.Got? then |r.data| == 1 && b == r.data[0] as int else b == -1
      ensures !IsOpen() ==> b == -1 && Value() == old(Value()) && kernel.conns == old(kernel.conns)
      ensures IsOpen() ==>
                && T.Sound(was) && was.pushback == old(peeked) && old(Stream()).pending <= was.pending
                && T.Answers(was, 1, r)
                && b == T.PeekReturned(was, r) && Stream() == T.AfterPeek(was, r)
                && T.Unread(Stream()) == T.Unread(was)
                && kernel.conns == old(kernel.conns)[handle := kernel.conns[handle]]
    {
      var one := new byte[1];
      var n: int;
      n, was, r := Read(one, 1);
      if IsOpen() {
        T.PeekKeepsStream(was, r, 1, r);
        T.ReadOfOne(was, r);
      }
      if n == 1 {
        assert one[..1] == [one[0]];
        PushBackAccounted(old(delivered), one[0], lost, kernel.conns[handle]);
        peeked := one[0];
        delivered := old(delivered);
        b := one[0];
      } else {
        b := -1;
      }
    }

    /** Bytes the kernel took, from the front of `data`; 0 on a closed socket or an error. Everything
        is offered to it, once. */
    method Write(data: seq<byte>) returns (n: nat)
      requires Valid()
      modifies kernel`conns, kernel`log
      ensures if IsOpen() && data != []
              then |kernel.log| > 0 && kernel.log[|kernel.log| - 1].Sent?
                   && kernel.log == old(kernel.log) + [Sent(data, kernel.log[|kernel.log| - 1].n)]
                   && n == (if kernel.log[|kernel.log| - 1].n > 0 then kernel.log[|kernel.log| - 1].n else 0)
              else kernel.log == old(kernel.log)
      ensures Valid() && kernel.os == old(kernel.os) && n <= |data|
      ensures !IsOpen() ==> n == 0 && kernel.conns == old(kernel.conns)
      ensures IsOpen() ==> var c := old(kernel.conns)[handle];
                kernel.conns == old(kernel.conns)[handle := c.(sent := c.sent + data[..n])]
    {
      if !IsOpen() || |data| == 0 {
        if IsOpen() {
          assert old(kernel.conns)[handle].sent + data[..0] == old(kernel.conns)[handle].sent;
          assert old(kernel.conns)[handle := old(kernel.conns)[handle]] == old(kernel.conns);
        }
        return 0;
      }
      var sent := kernel.Send(handle, data);
      n := if sent > 0 then sent else 0;
    }
  }

  class TcpListener {
    const kernel: Kernel
    var handle: int

    ghost predicate Valid() reads this, kernel {
      kernel.Valid() && handle >= INVALID && (handle != INVALID ==> handle in kernel.conns)
    }

    constructor (kernel: Kernel)
      requires kernel.Valid()
      ensures Valid() && this.kernel == kernel && handle == INVALID
    {
      this.kernel, handle := kernel, INVALID;
    }

    method Close()
      requires Valid()
      modifies this, kernel
      ensures Valid() && (kernel.os, Sock(handle, -1)) == CloseSock(old(kernel.os), Sock(old(handle), -1))
      ensures handle == -1 && kernel.log == old(kernel.log)
      ensures kernel.conns == old(kernel.conns) - {old(handle)}
    {
      if handle != INVALID {
        kernel.CloseNative(handle);
        handle := INVALID;
      }
    }

    method Listen() returns (ok: bool, ghost attempt: Attempt)
      requires Valid()
      modifies this, kernel
      ensures Valid() && attempt != NoAddress && Possible(old(kernel.os), Sock(old(handle), -1), attempt)
      ensures (kernel.os, Sock(handle, -1)) == OpenSock(old(kernel.os), Sock(old(handle), -1), attempt)
      ensures ok == attempt.Established? && kernel.log == old(kernel.log) + Dialling(attempt)[1..]
      ensures if ok then handle == attempt.h && handle in kernel.os.open else handle == -1
    {
      Close();
      var s := kernel.Socket();
      if s == INVALID {
        return false, NoSocket;
      }
      var listening := kernel.Succeeds(s);
      if !listening {
        kernel.CloseNative(s);
        return false, Refused(s);
      }
      handle := s;
      return true, Established(s);
    }

    /** An open socket for a pending client, or a closed one. A client that is pending is accepted. */
    method Accept() returns (s: TcpSocket)
      requires Valid()
      modifies kernel
      ensures Valid() && fresh(s) && s.Valid() && s.kernel == kernel && s.peeked == -1
      ensures s.handle == INVALID ==> kernel.os == old(kernel.os)
      ensures if handle == -1 then s.handle == -1 && kernel.log == old(kernel.log)
              else || (kernel.log == old(kernel.log) + [Polled(false)] && s.handle == -1)
                   || kernel.log == old(kernel.log) + [Polled(true), Made(s.handle)]
      ensures s.handle != INVALID ==>
                handle != INVALID && Fresh(old(kernel.os), s.handle) && kernel.os == OsOpen(old(kernel.os), s.handle)
    {
      var pending := false;
      if handle != INVALID {
        pending := kernel.Poll(handle);
      }
      if !pending {
        s := new TcpSocket.Adopt(kernel, INVALID);
        return;
      }
      var h := kernel.Socket();
      s := new TcpSocket.Adopt(kernel, h);
    }
  }

  /** A WiFiClient: a pointer to a socket that its copies share. */
  class WiFiClient {
    var socket: TcpSocket

    constructor (kernel: Kernel)
      requires kernel.Valid()
      ensures fresh(socket) && socket.Valid() && socket.kernel == kernel && socket.Value() == CLOSED
    {
      socket := new TcpSocket(kernel);
    }

    /** Takes over a socket: the one moved in is left closed. */
    constructor From(s: TcpSocket)
      requires s.Valid()
      modifies s
      ensures fresh(socket) && socket.Valid() && socket.kernel == s.kernel && socket.Value() == old(s.Value())
      ensures socket.delivered == old(s.delivered) && s.Valid() && s.Value() == CLOSED
    {
      socket := new TcpSocket.Moved(s);
    }

    constructor CopyOf(other: WiFiClient)
      ensures socket == other.socket
    {
      socket := other.socket;
    }

    /** read(): one byte, or -1 for nothing yet, end of stream and error alike. */
    method Read() returns (b: int, ghost was: T.Stream, ghost r: T.Received)
      requires socket.Valid()
      modifies socket`peeked, socket`delivered, socket`lost, socket.kernel`conns, socket.kernel`log
      ensures socket.kernel.log == old(socket.kernel.log)
                                   + if socket.IsOpen() && old(socket.peeked) < 0 then [Received(1, r)] else []
      ensures socket.IsOpen() && old(socket.peeked) >= 0 ==> b == old(socket.peeked)
      ensures socket.IsOpen() && old(socket.peeked) < 0 ==>
                if r.Got? then |r.data| == 1 && b == r.data[0] as int else b == -1
      ensures socket.Valid() && socket.Value().handle == old(socket.Value().handle) && socket.lost == old(socket.lost)
      ensures b >= 0 ==> b < 256 && socket.IsOpen() && socket.delivered == old(socket.delivered) + [b as byte]
      ensures b < 0 ==> b == -1 && socket.delivered == old(socket.delivered)
      ensures old(T.Unread(socket.Stream())) != [] && socket.IsOpen() ==>
                b == old(T.Unread(socket.Stream()))[0] || r == T.Failed
    {
      var one := new byte[1];
      var n: int;
      n, was, r := socket.Read(one, 1);
      if socket.IsOpen() {
        T.ReadIsPrefixIff(was, 1, r);
        assert n == 1 ==> one[..1] == [one[0]];
      }
      b := if n == 1 then one[0] else -1;
    }

    /** connect() and stop() act on the socket every copy shares. */
    method Connect() returns (ok: bool, ghost attempt: Attempt)
      requires socket.Valid()
      modifies socket, socket.kernel
      ensures socket == old(socket) && socket.Valid() && Possible(old(socket.kernel.os), old(socket.Value()), attempt)
      ensures (socket.kernel.os, socket.Value()) == OpenSock(old(socket.kernel.os), old(socket.Value()), attempt)
      ensures ok == attempt.Established? && ok == socket.IsOpen()
      ensures socket.kernel.log == old(socket.kernel.log) + Dialling(attempt)
    {
      ok, attempt := socket.Connect();
    }

    method Stop()
      requires socket.Valid()
      modifies socket, socket.kernel
      ensures socket == old(socket) && socket.Valid()
      ensures (socket.kernel.os, socket.Value()) == CloseSock(old(socket.kernel.os), old(socket.Value()))
      ensures !socket.IsOpen() && old(socket.handle) !in socket.kernel.conns
    {
      socket.Close();
    }
  }
}
