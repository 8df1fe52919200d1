/** Ownership of OS socket handles (native/hal/src/net.cpp and the WiFiClient copies of
    native/hal/include/zimodem_hal/arduino/WiFiClient.h): which wrapper holds which handle, over
    every sequence of operations, with the OS free to hand out any number that is not open. */
module Handles {
  import opened Prelude

  const INVALID: int := -1

  // ------------------------------------------------------------------ the OS

  datatype Event = Opened(handle: int) | Closed(handle: int)

  /** The open handles, and every open and close ever asked for, in order. */
  datatype Os = Os(open: set<int>, log: seq<Event>)

  function OsOpen(os: Os, h: int): Os { Os(os.open + {h}, os.log + [Opened(h)]) }

  /** Total on purpose: a second close, or one of a foreign handle, would be recorded too. */
  function OsClose(os: Os, h: int): Os { Os(os.open - {h}, os.log + [Closed(h)]) }

  predicate Fresh(os: Os, h: int) { h >= 0 && h !in os.open }

  /** What the log leaves open; None if it ever opens an open handle or closes one that is not. */
  function Replay(log: seq<Event>): Option<set<int>> {
    if log == [] then Some({})
    else
      var before := Replay(log[..|log| - 1]);
      if before.None? then None
      else match log[|log| - 1]
        case Opened(h) => if h in before.value then None else Some(before.value + {h})
        case Closed(h) => if h in before.value then Some(before.value - {h}) else None
  }

  lemma ReplaySnoc(log: seq<Event>, e: Event)
    ensures Replay(log).None? ==> Replay(log + [e]).None?
    ensures Replay(log).Some? && e.Opened? && e.handle !in Replay(log).value ==>
              Replay(log + [e]) == Some(Replay(log).value + {e.handle})
    ensures Replay(log).Some? && e.Closed? && e.handle in Replay(log).value ==>
              Replay(log + [e]) == Some(Replay(log).value - {e.handle})
  {
    assert (log + [e])[..|log|] == log;
  }

  lemma CountSnoc(log: seq<Event>, e: Event)
    requires log != []
    ensures multiset(log)[e] == multiset(log[..|log| - 1])[e] + if log[|log| - 1] == e then 1 else 0
  {
    assert log == log[..|log| - 1] + [log[|log| - 1]];
  }

  /** In a log that replays, opens and closes of a handle alternate: at every moment it has been
      closed as often as opened, or once less, and then it is open. */
  lemma {:induction false} ReplayBrackets(log: seq<Event>, k: nat, h: int)
    requires Replay(log).Some? && k <= |log|
    ensures Replay(log[..k]).Some?
    ensures multiset(log[..k])[Opened(h)] ==
              multiset(log[..k])[Closed(h)] + if h in Replay(log[..k]).value then 1 else 0
    decreases |log|
  {
    if log != [] {
      var init, last := log[..|log| - 1], log[|log| - 1];
      if k < |log| {
        ReplayBrackets(init, k, h);
        assert init[..k] == log[..k];
      } else {
        ReplayBrackets(init, |init|, h);
        assert init[..|init|] == init && log[..k] == log;
        CountSnoc(log, Opened(h));
        CountSnoc(log, Closed(h));
      }
    }
  }

  // ------------------------------------------------------------------ one wrapper

  /** `handle_` and `peeked_` of a TcpSocket; a TcpListener has no pushback. */
  datatype Sock = Sock(handle: int, peeked: int)

  const CLOSED := Sock(INVALID, -1)

  predicate WellFormed(s: Sock) {
    && s.handle >= INVALID && -1 <= s.peeked < 256
    && (s.handle == INVALID ==> s.peeked == -1)
  }

  /** How an attempt to connect or to listen goes: the name does not resolve, no socket is to be
      had, connect (or bind, or listen) refuses the socket made, or it succeeds. */
  datatype Attempt = NoAddress | NoSocket | Refused(h: int) | Established(h: int)

  /** close(): TcpSocket and TcpListener alike. */
  function CloseSock(os: Os, s: Sock): (Os, Sock) {
    (if s.handle == INVALID then os else OsClose(os, s.handle), CLOSED)
  }

  /** connect() and listen(): close first, whatever becomes of the attempt. */
  function OpenSock(os: Os, s: Sock, a: Attempt): (Os, Sock) {
    var shut := CloseSock(os, s).0;
    match a
    case NoAddress => (shut, CLOSED)
    case NoSocket => (shut, CLOSED)
    case Refused(h) => (OsClose(OsOpen(shut, h), h), CLOSED)
    case Established(h) => (OsOpen(shut, h), Sock(h, -1))
  }

  /** The handle the attempt gets is any number not open by then, the one just closed included. */
  predicate Possible(os: Os, s: Sock, a: Attempt) {
    match a
    case Refused(h) => Fresh(CloseSock(os, s).0, h)
    case Established(h) => Fresh(CloseSock(os, s).0, h)
    case _ => true
  }

  // ------------------------------------------------------------------ all wrappers

  datatype Cell = Socket(id: nat) | Listener(id: nat)

  predicate Held(cells: map<Cell, Sock>, h: int) {
    exists c :: c in cells && cells[c].handle == h
  }

  ghost predicate Owned(os: Os, cells: map<Cell, Sock>) {
    && (forall c | c in cells :: WellFormed(cells[c]))
    && (forall a, b | a in cells && b in cells && a != b && cells[a].handle != INVALID ::
        cells[a].handle != cells[b].handle)
    && (forall h | h != INVALID :: h in os.open <==> Held(cells, h))
    && INVALID !in os.open
    && Replay(os.log) == Some(os.open)
  }

  predicate HeldByOther(cells: map<Cell, Sock>, c: Cell, h: int) {
    exists d :: d in cells && d != c && cells[d].handle == h
  }

  /** Who holds what, told apart by one cell; and after that cell changes or goes. */
  lemma HeldSplit(cells: map<Cell, Sock>, c: Cell, s: Sock)
    ensures forall h :: Held(cells, h) <==> (c in cells && cells[c].handle == h) || HeldByOther(cells, c, h)
    ensures forall h :: Held(cells[c := s], h) <==> s.handle == h || HeldByOther(cells, c, h)
    ensures forall h :: Held(cells - {c}, h) <==> HeldByOther(cells, c, h)
  {
    forall h
      ensures Held(cells[c := s], h) <==> s.handle == h || HeldByOther(cells, c, h)
      ensures Held(cells - {c}, h) <==> HeldByOther(cells, c, h)
    {
      var after, less := cells[c := s], cells - {c};
      if HeldByOther(cells, c, h) {
        var d :| d in cells && d != c && cells[d].handle == h;
        assert after[d].handle == h && less[d].handle == h;
      }
      assert after[c].handle == s.handle;
    }
  }

  lemma OwnedClose(os: Os, cells: map<Cell, Sock>, c: Cell)
    requires Owned(os, cells) && c in cells
    ensures var (o, s) := CloseSock(os, cells[c]); Owned(o, cells[c := s])
  {
    var h := cells[c].handle;
    HeldSplit(cells, c, CLOSED);
    if h != INVALID {
      assert Held(cells, h);
      ReplaySnoc(os.log, Closed(h));
    }
  }

  lemma OwnedOpen(os: Os, cells: map<Cell, Sock>, c: Cell, h: int)
    requires Owned(os, cells) && (c in cells ==> cells[c] == CLOSED) && Fresh(os, h)
    ensures Owned(OsOpen(os, h), cells[c := Sock(h, -1)])
  {
    HeldSplit(cells, c, Sock(h, -1));
    assert !Held(cells, h);
    ReplaySnoc(os.log, Opened(h));
  }

  lemma OwnedRefused(os: Os, cells: map<Cell, Sock>, h: int)
    requires Owned(os, cells) && Fresh(os, h)
    ensures Owned(OsClose(OsOpen(os, h), h), cells)
  {
    ReplaySnoc(os.log, Opened(h));
    ReplaySnoc(OsOpen(os, h).log, Closed(h));
    assert OsClose(OsOpen(os, h), h).open == os.open;
  }

  /** A failed attempt leaves nothing open; a successful one leaves exactly its own handle. */
  lemma OwnedAttempt(os: Os, cells: map<Cell, Sock>, c: Cell, a: Attempt)
    requires Owned(os, cells) && c in cells && Possible(os, cells[c], a)
    ensures var (o, s) := OpenSock(os, cells[c], a); Owned(o, cells[c := s])
  {
    OwnedClose(os, cells, c);
    var shut, after := CloseSock(os, cells[c]).0, cells[c := CLOSED];
    match a
    case Refused(h) => OwnedRefused(shut, after, h);
    case Established(h) =>
      OwnedOpen(shut, after, c, h);
      assert after[c := Sock(h, -1)] == cells[c := Sock(h, -1)];
    case _ =>
  }

  lemma OwnedMove(os: Os, cells: map<Cell, Sock>, to: Cell, from: Cell)
    requires Owned(os, cells) && from in cells && to != from && (to in cells ==> cells[to] == CLOSED)
    ensures Owned(os, cells[to := cells[from]][from := CLOSED])
  {
    var after := cells[to := cells[from]][from := CLOSED];
    forall g | g != INVALID ensures Held(after, g) <==> Held(cells, g) {
      if Held(after, g) {
        var d :| d in after && after[d].handle == g;
        assert cells[if d == to then from else d].handle == g;
      }
      if Held(cells, g) {
        var d :| d in cells && cells[d].handle == g;
        assert after[if d == from then to else d].handle == g;
      }
    }
  }

  lemma OwnedAdd(os: Os, cells: map<Cell, Sock>, c: Cell)
    requires Owned(os, cells) && c !in cells
    ensures Owned(os, cells[c := CLOSED])
  {
    HeldSplit(cells, c, CLOSED);
  }

  lemma OwnedDrop(os: Os, cells: map<Cell, Sock>, c: Cell)
    requires Owned(os, cells) && c in cells && cells[c] == CLOSED
    ensures Owned(os, cells - {c})
  {
    HeldSplit(cells, c, CLOSED);
  }

  lemma OwnedPeeked(os: Os, cells: map<Cell, Sock>, c: Cell, b: int)
    requires Owned(os, cells) && c in cells && cells[c].handle != INVALID && -1 <= b < 256
    ensures Owned(os, cells[c := cells[c].(peeked := b)])
  {
    var s := Sock(cells[c].handle, b);
    assert s == cells[c].(peeked := b);
    HeldSplit(cells, c, s);
    forall h ensures Held(cells[c := s], h) <==> Held(cells, h) {
      assert Held(cells[c := s], h) ==> s.handle == h || HeldByOther(cells, c, h);
      assert HeldByOther(cells, c, h) ==> Held(cells[c := s], h);
    }
  }

  // ------------------------------------------------------------------ the program's variables

  /** Sockets and listeners that exist, the WiFiClient variables with the socket each points to
      (None once moved from), and the sockets owned by such pointers. */
  datatype World = World(os: Os, cells: map<Cell, Sock>, clients: map<nat, Option<nat>>, shared: set<nat>)

  datatype Op =
    | Declare(cell: Cell)                      // default constructor
    | Destroy(cell: Cell)                      // destructor
    | Attempted(cell: Cell, attempt: Attempt)  // connect, listen
    | Shut(cell: Cell)                         // close
    | Accept(listener: nat, into: nat, h: int) // INVALID: none pending, or accept fails
    | MoveNew(into: nat, from: nat)            // move constructor
    | MoveAssign(to: nat, from: nat)           // move assignment, to itself perhaps
    | Peeked(id: nat, b: int)                  // read or peek_byte: -1 consumes the pushback
    | ClientNew(c: nat, id: nat)
    | ClientFrom(c: nat, id: nat, from: nat)   // the constructor that moves a socket in
    | ClientCopy(c: nat, from: nat)
    | ClientMove(c: nat, from: nat)
    | ClientAssign(c: nat, from: nat)          // copy assignment, to itself perhaps
    | ClientMoveAssign(c: nat, from: nat)      // move assignment, to itself perhaps
    | ClientConnect(c: nat, attempt: Attempt)
    | ClientStop(c: nat)
    | ClientDestroy(c: nat)

  predicate Referenced(clients: map<nat, Option<nat>>, id: nat) {
    exists c :: c in clients && clients[c] == Some(id)
  }

  predicate PointsAtSocket(w: World, c: nat) {
    c in w.clients && w.clients[c].Some? && Socket(w.clients[c].value) in w.cells
  }

  predicate Enabled(w: World, op: Op) {
    match op
    case Declare(cell) => cell !in w.cells
    case Destroy(cell) => cell in w.cells && (cell.Socket? ==> cell.id !in w.shared)
    case Attempted(cell, a) => cell in w.cells && Possible(w.os, w.cells[cell], a)
    case Shut(cell) => cell in w.cells
    case Accept(l, into, h) =>
      && Listener(l) in w.cells && Socket(into) !in w.cells
      && (h != INVALID ==> w.cells[Listener(l)].handle != INVALID && Fresh(w.os, h))
    case MoveNew(into, from) => Socket(into) !in w.cells && Socket(from) in w.cells
    case MoveAssign(to, from) => Socket(to) in w.cells && Socket(from) in w.cells
    case Peeked(id, b) => Socket(id) in w.cells && w.cells[Socket(id)].handle != INVALID && -1 <= b < 256
    case ClientNew(c, id) => c !in w.clients && Socket(id) !in w.cells
    case ClientFrom(c, id, from) => c !in w.clients && Socket(id) !in w.cells && Socket(from) in w.cells
    case ClientCopy(c, from) => c !in w.clients && from in w.clients
    case ClientMove(c, from) => c !in w.clients && from in w.clients
    case ClientAssign(c, from) => c in w.clients && from in w.clients
    case ClientMoveAssign(c, from) => c in w.clients && from in w.clients
    case ClientConnect(c, a) => PointsAtSocket(w, c) && Possible(w.os, w.cells[Socket(w.clients[c].value)], a)
    case ClientStop(c) => PointsAtSocket(w, c)
    case ClientDestroy(c) => c in w.clients
  }

  function Closing(w: World, cell: Cell): World
    requires cell in w.cells
  {
    var (o, s) := CloseSock(w.os, w.cells[cell]);
    w.(os := o, cells := w.cells[cell := s])
  }

  function Opening(w: World, cell: Cell, a: Attempt): World
    requires cell in w.cells
  {
    var (o, s) := OpenSock(w.os, w.cells[cell], a);
    w.(os := o, cells := w.cells[cell := s])
  }

  function Destroyed(w: World, cell: Cell): World
    requires cell in w.cells
  {
    var shut := Closing(w, cell);
    shut.(cells := shut.cells - {cell})
  }

  function Moving(w: World, to: nat, from: nat): World
    requires Socket(from) in w.cells
  {
    w.(cells := w.cells[Socket(to) := w.cells[Socket(from)]][Socket(from) := CLOSED])
  }

  /** A pointer let go of its socket: the last one destroys it. */
  function Released(w: World, target: Option<nat>): World {
    if target.Some? && Socket(target.value) in w.cells && !Referenced(w.clients, target.value)
    then Destroyed(w, Socket(target.value)).(shared := w.shared - {target.value})
    else w
  }

  function After(w: World, op: Op): World
    requires Enabled(w, op)
  {
    match op
    case Declare(cell) => w.(cells := w.cells[cell := CLOSED])
    case Destroy(cell) => Destroyed(w, cell)
    case Attempted(cell, a) => Opening(w, cell, a)
    case Shut(cell) => Closing(w, cell)
    case Accept(l, into, h) =>
      if h == INVALID then w.(cells := w.cells[Socket(into) := CLOSED])
      else w.(os := OsOpen(w.os, h), cells := w.cells[Socket(into) := Sock(h, -1)])
    case MoveNew(into, from) => Moving(w, into, from)
    case MoveAssign(to, from) => if to == from then w else Moving(Closing(w, Socket(to)), to, from)
    case Peeked(id, b) => w.(cells := w.cells[Socket(id) := w.cells[Socket(id)].(peeked := b)])
    case ClientNew(c, id) =>
      w.(cells := w.cells[Socket(id) := CLOSED], clients := w.clients[c := Some(id)], shared := w.shared + {id})
    case ClientFrom(c, id, from) =>
      Moving(w, id, from).(clients := w.clients[c := Some(id)], shared := w.shared + {id})
    case ClientCopy(c, from) => w.(clients := w.clients[c := w.clients[from]])
    case ClientMove(c, from) => w.(clients := w.clients[c := w.clients[from]][from := None])
    case ClientAssign(c, from) => Released(w.(clients := w.clients[c := w.clients[from]]), w.clients[c])
    case ClientMoveAssign(c, from) =>
      if c == from then w
      else Released(w.(clients := w.clients[c := w.clients[from]][from := None]), w.clients[c])
    case ClientConnect(c, a) => Opening(w, Socket(w.clients[c].value), a)
    case ClientStop(c) => Closing(w, Socket(w.clients[c].value))
    case ClientDestroy(c) => Released(w.(clients := w.clients - {c}), w.clients[c])
  }

  // ------------------------------------------------------------------ what the operations do

  /** The handle `h` closed, if it is one. */
  function LogClosed(h: int): seq<Event> { if h == -1 then [] else [Closed(h)] }

  /** A move hands the connection over, pushback and all: nothing is closed but what the target held, the
      source is left closed, and every other wrapper is untouched. Moved to itself, nothing changes. */
  lemma MoveTransfers(w: World, to: nat, from: nat)
    requires Enabled(w, MoveAssign(to, from))
    ensures var w', held := After(w, MoveAssign(to, from)), w.cells[Socket(to)].handle;
            if to == from then w' == w
            else
              && w'.cells == w.cells[Socket(to) := w.cells[Socket(from)]][Socket(from) := Sock(-1, -1)]
              && w'.os.log == w.os.log + LogClosed(held)
              && w'.os.open == w.os.open - (if held == -1 then {} else {held})
              && w'.clients == w.clients
  {
    Unit(w.os.log);
    if to != from {
      assert w.cells[Socket(to) := CLOSED][Socket(to) := w.cells[Socket(from)]] ==
          w.cells[Socket(to) := w.cells[Socket(from)]];
    }
  }

  /** So with a move into a new socket, and into the shared socket of a new client. */
  lemma NewTakesOver(w: World, id: nat, from: nat, c: nat)
    requires Enabled(w, MoveNew(id, from)) && c !in w.clients
    ensures var w' := After(w, MoveNew(id, from));
            w'.os == w.os && w'.cells == w.cells[Socket(id) := w.cells[Socket(from)]][Socket(from) := Sock(-1, -1)]
    ensures var w' := After(w, ClientFrom(c, id, from));
            && w'.os == w.os && w'.cells == w.cells[Socket(id) := w.cells[Socket(from)]][Socket(from) := Sock(-1, -1)]
            && w'.clients == w.clients[c := Some(id)]
  {
  }

  /** An attempt closes what was held; on success the wrapper holds the new handle and it is open; a
      socket made in vain is closed again; otherwise nothing is opened. */
  lemma AttemptOutcome(w: World, cell: Cell, a: Attempt)
    requires Enabled(w, Attempted(cell, a))
    ensures var w', held := After(w, Attempted(cell, a)), w.cells[cell].handle;
            var shut := w.os.open - (if held == -1 then {} else {held});
            match a
            case Established(h) =>
              && w'.cells == w.cells[cell := Sock(h, -1)] && w'.os.open == shut + {h}
              && w'.os.log == w.os.log + LogClosed(held) + [Opened(h)]
            case Refused(h) =>
              && w'.cells == w.cells[cell := Sock(-1, -1)] && w'.os.open == shut
              && w'.os.log == w.os.log + LogClosed(held) + [Opened(h)] + [Closed(h)]
            case _ =>
              && w'.cells == w.cells[cell := Sock(-1, -1)] && w'.os.open == shut
              && w'.os.log == w.os.log + LogClosed(held)
  {
    Unit(w.os.log);
  }

  /** accept wraps the handle it gets in a new socket; with none to get, the new socket is closed. */
  lemma AcceptOutcome(w: World, l: nat, into: nat, h: int)
    requires Enabled(w, Accept(l, into, h))
    ensures var w' := After(w, Accept(l, into, h));
            && w'.cells == w.cells[Socket(into) := Sock(h, -1)]
            && w'.os == if h == -1 then w.os else Os(w.os.open + {h}, w.os.log + [Opened(h)])
  {
  }

  /** Copies of a client point to one socket, and acting through one acts on it. */
  lemma CopiesShare(w: World, c: nat, from: nat, a: Attempt)
    requires Enabled(w, ClientCopy(c, from)) && PointsAtSocket(w, from)
    requires Possible(w.os, w.cells[Socket(w.clients[from].value)], a)
    ensures var w' := After(w, ClientCopy(c, from));
            && w'.os == w.os && w'.cells == w.cells && w'.clients == w.clients[c := w.clients[from]]
            && Enabled(w', ClientConnect(c, a))
            && var v := After(w', ClientConnect(c, a));
               v.cells[Socket(w.clients[from].value)] == if a.Established? then Sock(a.h, -1) else Sock(-1, -1)
  {
  }

  /** Shared sockets are exactly those some client points to. */
  ghost predicate Sharing(cells: map<Cell, Sock>, clients: map<nat, Option<nat>>, shared: set<nat>) {
    && (forall id: nat | id in shared :: Socket(id) in cells && Referenced(clients, id))
    && (forall c | c in clients && clients[c].Some? :: clients[c].value in shared)
  }

  ghost predicate Inv(w: World) {
    Owned(w.os, w.cells) && Sharing(w.cells, w.clients, w.shared)
  }

  lemma DestroyedOwned(w: World, cell: Cell)
    requires Owned(w.os, w.cells) && cell in w.cells
    ensures Owned(Destroyed(w, cell).os, Destroyed(w, cell).cells)
  {
    OwnedClose(w.os, w.cells, cell);
    OwnedDrop(Closing(w, cell).os, Closing(w, cell).cells, cell);
  }

  lemma MoveAssignOwned(w: World, to: nat, from: nat)
    requires Owned(w.os, w.cells) && Enabled(w, MoveAssign(to, from)) && to != from
    ensures var w' := After(w, MoveAssign(to, from)); Owned(w'.os, w'.cells)
  {
    OwnedClose(w.os, w.cells, Socket(to));
    var shut := Closing(w, Socket(to));
    OwnedMove(shut.os, shut.cells, Socket(to), Socket(from));
  }

  /** Every operation keeps each open handle in exactly one wrapper. */
  lemma StepOwned(w: World, op: Op)
    requires Inv(w) && Enabled(w, op)
    ensures Owned(After(w, op).os, After(w, op).cells)
  {
    match op
    case Declare(cell) => OwnedAdd(w.os, w.cells, cell);
    case Destroy(cell) => DestroyedOwned(w, cell);
    case Attempted(cell, a) => OwnedAttempt(w.os, w.cells, cell, a);
    case Shut(cell) => OwnedClose(w.os, w.cells, cell);
    case Accept(_, into, h) =>
      if h == INVALID { OwnedAdd(w.os, w.cells, Socket(into)); }
      else { OwnedOpen(w.os, w.cells, Socket(into), h); }
    case MoveNew(into, from) => OwnedMove(w.os, w.cells, Socket(into), Socket(from));
    case MoveAssign(to, from) => if to != from { MoveAssignOwned(w, to, from); }
    case Peeked(id, b) => OwnedPeeked(w.os, w.cells, Socket(id), b);
    case ClientNew(_, id) => OwnedAdd(w.os, w.cells, Socket(id));
    case ClientFrom(_, id, from) => OwnedMove(w.os, w.cells, Socket(id), Socket(from));
    case ClientCopy(_, _) =>
    case ClientMove(_, _) =>
    case ClientAssign(c, _) => if w.clients[c].Some? { DestroyedOwned(w, Socket(w.clients[c].value)); }
    case ClientMoveAssign(c, _) => if w.clients[c].Some? { DestroyedOwned(w, Socket(w.clients[c].value)); }
    case ClientConnect(c, a) => OwnedAttempt(w.os, w.cells, Socket(w.clients[c].value), a);
    case ClientStop(c) => OwnedClose(w.os, w.cells, Socket(w.clients[c].value));
    case ClientDestroy(c) => if w.clients[c].Some? { DestroyedOwned(w, Socket(w.clients[c].value)); }
  }

  /** The pointers gained by `clients'` over `clients` are copies of live ones. */
  lemma SharingReleased(w: World, clients': map<nat, Option<nat>>, target: Option<nat>)
    requires Sharing(w.cells, w.clients, w.shared)
    requires forall c | c in clients' && clients'[c].Some? :: clients'[c].value in w.shared
    requires forall id: nat | Referenced(w.clients, id) && target != Some(id) :: Referenced(clients', id)
    ensures var w' := Released(w.(clients := clients'), target); Sharing(w'.cells, w'.clients, w'.shared)
  {
    var w' := Released(w.(clients := clients'), target);
    forall c | c in clients' && clients'[c].Some? ensures clients'[c].value in w'.shared {
      assert Referenced(clients', clients'[c].value);
    }
    forall id: nat | id in w'.shared ensures Socket(id) in w'.cells && Referenced(clients', id) {
      assert id in w.shared;
    }
  }

  /** A pointer other than `c`'s is untouched when only `c` changes. */
  lemma StillReferenced(clients: map<nat, Option<nat>>, clients': map<nat, Option<nat>>, c: nat)
    requires forall d | d in clients && d != c :: d in clients' && clients'[d] == clients[d]
    ensures forall id: nat | Referenced(clients, id) && !(c in clients && clients[c] == Some(id)) ::
              Referenced(clients', id)
  {
    forall id: nat | Referenced(clients, id) && !(c in clients && clients[c] == Some(id))
      ensures Referenced(clients', id)
    {
      var d :| d in clients && clients[d] == Some(id);
      assert clients'[d] == Some(id);
    }
  }

  lemma MoveKeepsReferences(clients: map<nat, Option<nat>>, c: nat, from: nat)
    requires c != from && from in clients
    ensures forall id: nat | Referenced(clients, id) && !(c in clients && clients[c] == Some(id)) ::
              Referenced(clients[c := clients[from]][from := None], id)
  {
    var after := clients[c := clients[from]][from := None];
    forall id: nat | Referenced(clients, id) && !(c in clients && clients[c] == Some(id))
      ensures Referenced(after, id)
    {
      var d :| d in clients && clients[d] == Some(id);
      assert after[if d == from then c else d] == Some(id);
    }
  }

  lemma StepSharing(w: World, op: Op)
    requires Inv(w) && Enabled(w, op)
    ensures var w' := After(w, op); Sharing(w'.cells, w'.clients, w'.shared)
  {
    var w' := After(w, op);
    match op
    case ClientNew(c, id) =>
      StillReferenced(w.clients, w'.clients, c);
      assert w'.clients[c] == Some(id);
    case ClientFrom(c, id, _) =>
      StillReferenced(w.clients, w'.clients, c);
      assert w'.clients[c] == Some(id);
    case ClientCopy(c, _) => StillReferenced(w.clients, w'.clients, c);
    case ClientMove(c, from) => MoveKeepsReferences(w.clients, c, from);
    case ClientAssign(c, from) =>
      var clients' := w.clients[c := w.clients[from]];
      StillReferenced(w.clients, clients', c);
      SharingReleased(w, clients', w.clients[c]);
    case ClientMoveAssign(c, from) =>
      if c != from {
        MoveKeepsReferences(w.clients, c, from);
        SharingReleased(w, w.clients[c := w.clients[from]][from := None], w.clients[c]);
      }
    case ClientDestroy(c) =>
      var clients' := w.clients - {c};
      StillReferenced(w.clients, clients', c);
      SharingReleased(w, clients', w.clients[c]);
    case _ =>
  }

  // ------------------------------------------------------------------ runs

  const START := World(Os({}, []), map[], map[], {})

  ghost predicate StepAt(run: seq<World>, ops: seq<Op>, k: nat)
    requires k < |ops| && |run| == |ops| + 1
  {
    Enabled(run[k], ops[k]) && run[k + 1] == After(run[k], ops[k])
  }

  ghost predicate IsRun(run: seq<World>, ops: seq<Op>) {
    |run| == |ops| + 1 && run[0] == START && forall k | 0 <= k < |ops| :: StepAt(run, ops, k)
  }

  lemma {:induction false} Invariant(run: seq<World>, ops: seq<Op>, k: nat)
    requires IsRun(run, ops) && k < |run|
    ensures Inv(run[k])
  {
    if k > 0 {
      Invariant(run, ops, k - 1);
      assert StepAt(run, ops, k - 1);
      StepOwned(run[k - 1], ops[k - 1]);
      StepSharing(run[k - 1], ops[k - 1]);
    }
  }

  /** In every run: two live wrappers never hold the same handle, the open handles are exactly those
      held, and a pushed-back byte means an open socket. */
  lemma HandlesOwned(run: seq<World>, ops: seq<Op>, k: nat)
    requires IsRun(run, ops) && k < |run|
    ensures var w := run[k];
            && (forall a, b | a in w.cells && b in w.cells && a != b && w.cells[a].handle != INVALID ::
                w.cells[a].handle != w.cells[b].handle)
            && (forall h | h != INVALID :: h in w.os.open <==> Held(w.cells, h))
            && (forall c | c in w.cells && w.cells[c].peeked >= 0 :: w.cells[c].handle != INVALID)
  {
    Invariant(run, ops, k);
  }

  /** In every run and at every moment of it, a handle has been closed as often as it was opened, or
      once less while it is open: no handle is closed twice, and no close hits a handle that the OS
      has meanwhile given to another wrapper. */
  lemma ClosedExactlyOnce(run: seq<World>, ops: seq<Op>, k: nat, m: nat, h: int)
    requires IsRun(run, ops) && k < |run| && m <= |run[k].os.log|
    ensures var past := multiset(run[k].os.log[..m]);
            past[Closed(h)] <= past[Opened(h)] <= past[Closed(h)] + 1
    ensures m == |run[k].os.log| ==>
              var past := multiset(run[k].os.log);
              past[Opened(h)] == past[Closed(h)] + if h in run[k].os.open then 1 else 0
  {
    Invariant(run, ops, k);
    var log := run[k].os.log;
    ReplayBrackets(log, m, h);
    assert log[..|log|] == log;
  }

  /** When every local socket, listener and client of a run is gone, so is every shared socket, and
      each handle ever opened has been closed. */
  lemma NothingLeaks(run: seq<World>, ops: seq<Op>, k: nat)
    requires IsRun(run, ops) && k < |run|
    requires run[k].clients == map[]
    requires forall c | c in run[k].cells :: c.Socket? && c.id in run[k].shared
    ensures run[k].cells == map[] && run[k].os.open == {}
    ensures forall h :: multiset(run[k].os.log)[Opened(h)] == multiset(run[k].os.log)[Closed(h)]
  {
    Invariant(run, ops, k);
    var w := run[k];
    assert forall id: nat :: !Referenced(w.clients, id);
    assert forall id :: id !in w.shared;
    assert forall c :: c !in w.cells;
    assert w.cells == map[];
    assert forall h :: !Held(w.cells, h);
    assert forall h :: h !in w.os.open;
    forall h ensures multiset(w.os.log)[Opened(h)] == multiset(w.os.log)[Closed(h)] {
      ClosedExactlyOnce(run, ops, k, |w.os.log|, h);
    }
  }

  /** In every run, destroying a WiFiClient closes its connection if and only if it was the last copy
      to share it; every other open handle stays open. */
  lemma LastCopyCloses(run: seq<World>, ops: seq<Op>, k: nat, c: nat)
    requires IsRun(run, ops) && k < |run| && c in run[k].clients && run[k].clients[c].Some?
    ensures var w, id := run[k], run[k].clients[c].value;
            && Socket(id) in w.cells
            && var w', h := After(w, ClientDestroy(c)), w.cells[Socket(id)].handle;
            && (Socket(id) in w'.cells <==> Referenced(w.clients - {c}, id))
            && (h != INVALID ==> (h in w'.os.open <==> Referenced(w.clients - {c}, id)))
            && forall g | g != h :: g in w'.os.open <==> g in w.os.open
  {
    Invariant(run, ops, k);
    var id := run[k].clients[c].value;
    var h := run[k].cells[Socket(id)].handle;
    assert h != INVALID ==> Held(run[k].cells, h);
  }

  /** In every run, stop() through any copy closes the connection for all of them, and a stop() or a
      destruction of the others afterwards closes nothing more. */
  lemma StopReachesEveryCopy(run: seq<World>, ops: seq<Op>, k: nat, c: nat, d: nat)
    requires IsRun(run, ops) && k < |run| && c in run[k].clients && d in run[k].clients
    requires run[k].clients[c].Some? && run[k].clients[d] == run[k].clients[c]
    ensures Enabled(run[k], ClientStop(c))
    ensures var w' := After(run[k], ClientStop(c));
            && w'.cells[Socket(w'.clients[d].value)] == CLOSED
            && run[k].cells[Socket(w'.clients[d].value)].handle !in w'.os.open
            && Enabled(w', ClientStop(d)) && After(w', ClientStop(d)).os == w'.os
            && After(w', ClientDestroy(d)).os == w'.os
  {
    Invariant(run, ops, k);
  }
}
