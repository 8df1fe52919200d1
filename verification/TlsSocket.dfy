/** native/hal/src/tls.cpp: the TlsSocket class over a TLS engine that answers as it likes and a
    monotone millisecond clock. */
module TlsSocket {
  import opened Prelude
  import H = Handles
  import T = TcpStream
  import opened TlsStream
  import opened TcpSocket

  const HANDSHAKE_MS := 15_000
  const WRITE_MS := 10_000
  const POLL_MS := 2

  /** mbedtls_ssl_write: some bytes accepted, WANT_READ or WANT_WRITE, or an error. */
  datatype Written = Accepted(n: nat) | Busy | Broken

  /** mbedtls_ssl_handshake: 0, WANT_READ or WANT_WRITE, or an error. */
  datatype Shake = Done | Pending | Broke

  class TlsSocket {
    const tcp: TcpSocket
    var rx: seq<byte>
    var rxpos: nat
    var handshaked: bool
    var fatal: bool

    // The environment and the history.
    var clock: nat
    ghost var decrypted: seq<byte>
    ghost var delivered: seq<byte>
    ghost var discarded: seq<byte>
    ghost var accepted: seq<byte> // what the engine has taken to send
    ghost var received: seq<Answer>  // the answers to its reads
    ghost var setups: seq<bool>   // how seeding, configuring and setting it up went
    ghost var writes: nat         // calls of the engine's write, and the last one's answer
    ghost var lastWrite: Written
    ghost var handshakes: nat     // calls of its handshake, and the last one's answer
    ghost var lastShake: Shake

    ghost function Value(): Session reads this {
      Session(rx, rxpos, handshaked, fatal, decrypted, delivered, discarded)
    }

    ghost predicate Valid() reads this, tcp, tcp.kernel { tcp.Valid() && Conserved(Value()) }

    constructor (kernel: Kernel)
      requires kernel.Valid()
      ensures Valid() && fresh(tcp) && tcp.kernel == kernel && tcp.Value() == H.CLOSED && Value() == NEW_SESSION
    {
      tcp := new TcpSocket(kernel);
      rx, rxpos, handshaked, fatal, clock := [], 0, false, false, 0;
      decrypted, delivered, discarded, accepted := [], [], [], [];
      received, setups, writes, lastWrite, handshakes, lastShake := [], [], 0, Busy, 0, Pending;
    }

    // ---------------------------------------------------------------- environment

    method Now() returns (t: nat)
      modifies `clock
      ensures t == clock && old(clock) <= clock
    {
      var later: int := *;
      clock := if later > clock then later else clock;
      t := clock;
    }

    method Sleep(ms: nat)
      modifies `clock
      ensures old(clock) + ms <= clock
    {
      var woken: int := *;
      clock := if woken > clock + ms then woken else clock + ms;
    }

    method SslRead() returns (a: Answer)
      modifies `clock, `decrypted, `received
      ensures Possible(a) && old(clock) <= clock && received == old(received) + [a]
      ensures decrypted == old(decrypted) + if a.Chunk? then a.data else []
    {
      var _ := Now();
      var data: seq<byte> := *;
      var over: bool := *;
      a := if 1 <= |data| <= RECORD_ROOM then Chunk(data) else if over then Ended else Want;
      decrypted := decrypted + if a.Chunk? then a.data else [];
      received := received + [a];
    }

    /** Seeding the generator, defaulting the configuration and setting up the session. */
    method Prepare() returns (ok: bool)
      modifies `setups
      ensures setups == old(setups) + [ok]
    {
      ok := *;
      setups := setups + [ok];
    }

    method SslWrite(data: seq<byte>) returns (w: Written)
      requires data != []
      modifies `clock, `accepted, `writes, `lastWrite
      ensures writes == old(writes) + 1 && lastWrite == w
      ensures old(clock) <= clock && (w.Accepted? ==> 1 <= w.n <= |data|)
      ensures accepted == old(accepted) + if w.Accepted? then data[..w.n] else []
    {
      var _ := Now();
      var n: int := *;
      var broken: bool := *;
      w := if 1 <= n <= |data| then Accepted(n) else if broken then Broken else Busy;
      accepted := accepted + if w.Accepted? then data[..w.n] else [];
      writes, lastWrite := writes + 1, w;
    }

    method SslHandshake() returns (r: Shake)
      modifies `clock, `handshakes, `lastShake
      ensures old(clock) <= clock && handshakes == old(handshakes) + 1 && lastShake == r
    {
      var _ := Now();
      r := *;
      handshakes, lastShake := handshakes + 1, r;
    }

    // ---------------------------------------------------------------- receiving

    method Pump() returns (ghost a: Answer)
      requires Conserved(Value())
      modifies `rx, `rxpos, `fatal, `clock, `decrypted, `received
      ensures received == old(received) + if old(rxpos) >= |old(rx)| && !old(fatal) then [a] else []
      ensures Possible(a) && Value() == Pumped(old(Value()), a) && Conserved(Value())
    {
      a := Want;
      PumpConserves(Value(), a);
      if rxpos < |rx| || fatal {
        return;
      }
      ghost var before := Value();
      rx, rxpos := [], 0;
      var n := SslRead();
      a := n;
      PumpConserves(before, n);
      match n
      case Chunk(data) => rx := data;
      case Want =>
      case Ended => fatal := true;
    }

    method Available() returns (n: nat, ghost a: Answer)
      requires Valid()
      modifies `rx, `rxpos, `fatal, `clock, `decrypted, `received
      ensures received == old(received) + if handshaked && old(rxpos) >= |old(rx)| && !old(fatal) then [a] else []
      ensures Valid() && Possible(a)
      ensures Value() == After(old(Value()), Call.Available(a)) && n == Returned(old(Value()), Call.Available(a))
    {
      if !handshaked {
        return 0, Want;
      }
      a := Pump();
      n := |rx| - rxpos;
    }

    method Read(buf: array<byte>, len: nat) returns (n: int, ghost a: Answer)
      requires Valid() && len <= buf.Length
      modifies `rx, `rxpos, `fatal, `clock, `decrypted, `delivered, `received, buf
      ensures received == old(received)
                       + if handshaked && len > 0 && old(rxpos) >= |old(rx)| && !old(fatal) then [a] else []
      ensures Valid() && Possible(a)
      ensures Value() == After(old(Value()), Call.Read(len, a)) && n == Returned(old(Value()), Call.Read(len, a))
      ensures -1 <= n <= len
      ensures delivered == old(delivered) + if n > 0 then buf[..n] else []
      ensures forall i | 0 <= i < buf.Length && i >= n :: buf[i] == old(buf[i])
    {
      if !handshaked || len == 0 {
        return 0, Want;
      }
      a := Pump();
      n := Serve(buf, len);
    }

    /** read() past its pump: as much of the buffer as there is and is wanted. */
    method Serve(buf: array<byte>, len: nat) returns (n: int)
      requires Conserved(Value()) && 0 < len <= buf.Length
      modifies `rxpos, `delivered, buf
      ensures var p := old(Value()); var got := Taken(p, len);
              Value() == p.(rxpos := p.rxpos + |got|, delivered := p.delivered + got) && Conserved(Value())
      ensures n == if Unread(old(Value())) == [] then (if fatal then -1 else 0) else |Taken(old(Value()), len)|
      ensures -1 <= n <= len && delivered == old(delivered) + if n > 0 then buf[..n] else []
      ensures forall i | 0 <= i < buf.Length && i >= n :: buf[i] == old(buf[i])
    {
      ghost var pumped := Value();
      var avail := |rx| - rxpos;
      if avail == 0 {
        assert Taken(pumped, len) == [] && delivered + [] == delivered;
        return if fatal then -1 else 0;
      }
      n := Min(len, avail);
      forall i | 0 <= i < n { buf[i] := rx[rxpos + i]; }
      assert buf[..n] == Taken(pumped, len);
      TakeConserves(pumped, len);
      delivered := delivered + buf[..n];
      rxpos := rxpos + n;
    }

    method PeekByte() returns (b: int, ghost a: Answer)
      requires Valid()
      modifies `rx, `rxpos, `fatal, `clock, `decrypted, `received
      ensures received == old(received) + if handshaked && old(rxpos) >= |old(rx)| && !old(fatal) then [a] else []
      ensures Valid() && Possible(a)
      ensures Value() == After(old(Value()), Call.PeekByte(a)) && b == Returned(old(Value()), Call.PeekByte(a))
    {
      if !handshaked {
        return -1, Want;
      }
      a := Pump();
      b := if rxpos < |rx| then rx[rxpos] else -1;
    }

    // ---------------------------------------------------------------- sending

    /** The engine accepts exactly `buf[..sent]`, in order. A short count means that it broke, and the
        session is over, or that a clock reading went past the deadline, ten seconds after the call
        began; and the engine is called at most |buf| + 5002 times, whatever it and the clock do. */
    method Write(buf: seq<byte>) returns (sent: nat, ghost broken: bool)
      requires Valid()
      modifies `fatal, `clock, `accepted, `writes, `lastWrite
      ensures Valid() && Value() == After(old(Value()), Call.Write(|buf|, broken))
      ensures sent <= |buf| && accepted == old(accepted) + buf[..sent]
      ensures !handshaked ==> sent == 0
      ensures broken <==> writes > old(writes) && lastWrite == Broken
      ensures handshaked && sent < |buf| ==> (broken && fatal) || clock > old(clock) + WRITE_MS
      ensures writes <= old(writes) + |buf| + WRITE_MS / POLL_MS + 2
    {
      sent, broken := 0, false;
      assert accepted + buf[..0] == accepted;
      if handshaked && |buf| > 0 {
        sent, broken := SendAll(buf);
      }
      CallConserves(old(Value()), Call.Write(|buf|, broken));
    }

    /** The loop of write(). */
    method SendAll(buf: seq<byte>) returns (sent: nat, ghost broken: bool)
      requires buf != []
      modifies `fatal, `clock, `accepted, `writes, `lastWrite
      ensures fatal == (old(fatal) || broken)
      ensures sent <= |buf| && accepted == old(accepted) + buf[..sent]
      ensures broken <==> writes > old(writes) && lastWrite == Broken
      ensures sent < |buf| ==> broken || clock > old(clock) + WRITE_MS
      ensures writes <= old(writes) + |buf| + WRITE_MS / POLL_MS + 2
    {
      sent, broken := 0, false;
      assert accepted + buf[..0] == accepted;
      var start := Now();
      var deadline := start + WRITE_MS;
      ghost var waits := 0;
      while sent < |buf|
        invariant 0 <= sent <= |buf| && accepted == old(accepted) + buf[..sent]
        invariant !broken && fatal == old(fatal) && old(writes) <= writes
        invariant writes > old(writes) ==> lastWrite != Broken
        invariant start + POLL_MS * waits <= clock && (waits > 0 ==> start + POLL_MS * (waits - 1) <= deadline)
        invariant writes <= old(writes) + sent + waits
        decreases |buf| - sent, if clock <= deadline then deadline + 1 - clock else 0
      {
        var w := SslWrite(buf[sent..]);
        AcceptedSoFar(old(accepted), buf, sent, w);
        match w
        case Accepted(n) =>
          sent := sent + n;
        case Busy =>
          var now := Now();
          if now > deadline {
            break;
          }
          Sleep(POLL_MS);
          waits := waits + 1;
        case Broken =>
          fatal, broken := true, true;
          break;
      }
    }

    /** What the engine accepts of the rest comes next in the buffer. */
    static lemma AcceptedSoFar(before: seq<byte>, buf: seq<byte>, sent: nat, w: Written)
      requires sent <= |buf| && (w.Accepted? ==> w.n <= |buf| - sent)
      ensures before + buf[..sent] + (if w.Accepted? then buf[sent..][..w.n] else [])
           == before + buf[..if w.Accepted? then sent + w.n else sent]
    {
      if w.Accepted? { assert buf[..sent] + buf[sent..][..w.n] == buf[..sent + w.n]; }
    }

    // ---------------------------------------------------------------- connecting

    /** True exactly when the handshake is done, the session not over, and the TCP socket open with
        neither an orderly close (its kernel buffer empty) nor a hard error to report: `probe` is
        recv's answer, asked for only when the rest holds. */
    method Connected() returns (up: bool, ghost probe: T.Received)
      requires Valid()
      modifies tcp.kernel`conns, tcp.kernel`log
      ensures tcp.kernel.log == old(tcp.kernel.log)
                                + if handshaked && !fatal && tcp.IsOpen() then [Probed(probe)] else []
      ensures Valid() && tcp.kernel.os == old(tcp.kernel.os)
      ensures up <==> handshaked && !fatal && tcp.IsOpen() && !(probe.PeerClosed? || probe.Failed?)
      ensures MayBeConnected(Value()) && tcp.IsOpen() ==>
                tcp.handle in tcp.kernel.conns && T.Possible(tcp.kernel.conns[tcp.handle].pending, 1, probe)
    {
      if !handshaked || fatal {
        return false, T.Failed;
      }
      up, probe := tcp.Connected();
    }

    /** True exactly when the TCP connection is made, the engine set up, and the handshake done; a
        handshake is given up only on an error or past its deadline, fifteen seconds. On any failure
        the TCP socket is closed and its handle given back; the session's fields stay as they were. */
    method Connect() returns (ok: bool, ghost attempt: H.Attempt, ghost prepared: bool)
      requires Valid()
      modifies this`handshaked, this`clock, this`setups, this`handshakes, this`lastShake, tcp, tcp.kernel
      ensures tcp.kernel.log == old(tcp.kernel.log) + Dialling(attempt)
      ensures setups == old(setups) + if attempt.Established? then [prepared] else []
      ensures Valid() && Value() == After(old(Value()), Call.Connect(ok))
      ensures H.Possible(old(tcp.kernel.os), old(tcp.Value()), attempt)
      ensures var (os, sock) := H.OpenSock(old(tcp.kernel.os), old(tcp.Value()), attempt);
              (tcp.kernel.os, tcp.Value()) == if ok then (os, sock) else H.CloseSock(os, sock)
      ensures ok <==> attempt.Established? && prepared && handshakes > old(handshakes) && lastShake == Done
      ensures attempt.Established? && prepared && !ok ==> lastShake == Broke || clock > old(clock) + HANDSHAKE_MS
      ensures handshakes <= old(handshakes) + HANDSHAKE_MS / POLL_MS + 2
    {
      prepared := false;
      ok, attempt := tcp.Connect();
      if !ok {
        return;
      }
      // Seeding, configuration and setup each may fail.
      var ready := Prepare();
      prepared := ready;
      if !ready {
        tcp.Close();
        return false, attempt, prepared;
      }
      var shaken := Handshake();
      if !shaken {
        tcp.Close();
        return false, attempt, prepared;
      }
      handshaked := true;
    }

    /** The handshake loop: the engine is called at most 7502 times, whatever it and the clock do. */
    method Handshake() returns (shaken: bool)
      modifies `clock, `handshakes, `lastShake
      ensures handshakes > old(handshakes) && (shaken <==> lastShake == Done)
      ensures !shaken ==> lastShake == Broke || clock > old(clock) + HANDSHAKE_MS
      ensures old(clock) <= clock && handshakes <= old(handshakes) + HANDSHAKE_MS / POLL_MS + 2
    {
      ghost var turns := 0;
      var start := Now();
      var deadline := start + HANDSHAKE_MS;
      while true
        invariant start + POLL_MS * turns <= clock && old(clock) <= start
        invariant handshakes == old(handshakes) + turns
        invariant turns > 0 ==> start + POLL_MS * (turns - 1) <= deadline
        decreases if clock <= deadline then deadline + 1 - clock else 0
      {
        turns := turns + 1;
        var r := SslHandshake();
        if r != Pending {
          return r == Done;
        }
        var now := Now();
        if now > deadline {
          return false;
        }
        Sleep(POLL_MS);
      }
    }

    method Close()
      requires Valid()
      modifies this`rx, this`rxpos, this`handshaked, this`fatal, this`discarded, tcp, tcp.kernel
      ensures Valid() && Value() == After(old(Value()), Call.Close)
      ensures (tcp.kernel.os, tcp.Value()) == H.CloseSock(old(tcp.kernel.os), old(tcp.Value()))
    {
      CallConserves(Value(), Call.Close);
      tcp.Close();
      discarded := rx[rxpos..] + discarded;
      handshaked, fatal, rx, rxpos := false, true, [], 0;
    }
  }
}
