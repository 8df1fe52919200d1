/** HardwareSerialCompat::readBytes (native/hal/include/zimodem_hal/arduino/HardwareSerial.h), with
    the host feeding input at any moment and a monotone millisecond clock. */
module ReadBytes {
  import opened Prelude

  /** What the loop does to its environment, in order: a look at the input that finds a byte (done
      with at time `at`) or finds none, a reading of the clock, and a sleep. */
  datatype Event = Got(b: byte, at: nat) | Nothing | Clock(t: nat) | Slept(ms: nat)

  /** When the last byte was got; `start` if none was. */
  function LastByteAt(log: seq<Event>, start: nat): nat {
    if log == [] then start
    else match log[|log| - 1]
      case Got(_, at) => at
      case _ => LastByteAt(log[..|log| - 1], start)
  }

  /** How many looks since the last byte have found nothing. */
  function Streak(log: seq<Event>): nat {
    if log == [] then 0
    else match log[|log| - 1]
      case Got(_, _) => 0
      case Nothing => Streak(log[..|log| - 1]) + 1
      case _ => Streak(log[..|log| - 1])
  }

  /** The number of empty looks among the events, no byte being got in any of them. */
  predicate NoByte(log: seq<Event>) { forall e | e in log :: !e.Got? }

  function EmptyLooks(log: seq<Event>): nat { multiset(log)[Nothing] }

  /** At no moment has the streak of empty looks passed `bound`. */
  predicate StreaksWithin(log: seq<Event>, bound: nat) {
    forall k | 0 <= k <= |log| :: Streak(log[..k]) <= bound
  }

  lemma Snoc(log: seq<Event>, e: Event, start: nat)
    ensures LastByteAt(log + [e], start) == if e.Got? then e.at else LastByteAt(log, start)
    ensures Streak(log + [e]) == if e.Got? then 0 else if e.Nothing? then Streak(log) + 1 else Streak(log)
    ensures forall bound | StreaksWithin(log, bound) && Streak(log + [e]) <= bound :: StreaksWithin(log + [e], bound)
  {
    assert (log + [e])[..|log|] == log;
    forall bound, k | StreaksWithin(log, bound) && Streak(log + [e]) <= bound && 0 <= k <= |log + [e]|
      ensures Streak((log + [e])[..k]) <= bound
    {
      if k <= |log| {
        assert (log + [e])[..k] == log[..k];
      } else {
        assert (log + [e])[..k] == log + [e];
      }
    }
  }

  /** Every sleep lasts one millisecond and comes right after a look that found nothing and the reading
      that followed it. */
  predicate SleepsOk(log: seq<Event>) {
    forall k | 0 <= k < |log| && log[k].Slept? ::
      log[k].ms == 1 && k >= 2 && log[k - 1].Clock? && log[k - 2] == Nothing
  }

  lemma SleepsSnoc(log: seq<Event>, e: Event)
    requires SleepsOk(log)
    requires e.Slept? ==> e.ms == 1 && |log| >= 2 && log[|log| - 1].Clock? && log[|log| - 2] == Nothing
    ensures SleepsOk(log + [e])
  {
    var longer := log + [e];
    forall k | 0 <= k < |longer| && longer[k].Slept?
      ensures longer[k].ms == 1 && k >= 2 && longer[k - 1].Clock? && longer[k - 2] == Nothing
    {
      if k < |log| { assert log[k].Slept?; }
    }
  }

  /** One turn of the loop: a look, then a reading. */
  lemma Turn(log: seq<Event>, look: Event, t: nat, start: nat, bound: nat)
    requires (look.Got? || look.Nothing?) && StreaksWithin(log, bound) && (look.Nothing? ==> Streak(log) < bound)
    requires SleepsOk(log)
    ensures var after := log + [look] + [Clock(t)];
            && LastByteAt(after, start) == (if look.Got? then look.at else LastByteAt(log, start))
            && Streak(after) == (if look.Got? then 0 else Streak(log) + 1)
            && StreaksWithin(after, bound) && SleepsOk(after)
            && |after| >= 2 && after[|after| - 2] == look && after[|after| - 1] == Clock(t)
  {
    assert Streak(log[..|log|]) <= bound && log[..|log|] == log;
    Snoc(log, look, start);
    Snoc(log + [look], Clock(t), start);
    SleepsSnoc(log, look);
    SleepsSnoc(log + [look], Clock(t));
  }

  /** And the sleep at the end of a turn that found nothing. */
  lemma TurnSleeps(log: seq<Event>, start: nat, bound: nat)
    requires |log| >= 2 && log[|log| - 2] == Nothing && log[|log| - 1].Clock?
    requires StreaksWithin(log, bound) && SleepsOk(log)
    ensures var after := log + [Slept(1)];
            && LastByteAt(after, start) == LastByteAt(log, start) && Streak(after) == Streak(log)
            && StreaksWithin(after, bound) && SleepsOk(after)
  {
    assert Streak(log[..|log|]) <= bound && log[..|log|] == log;
    Snoc(log, Slept(1), start);
    SleepsSnoc(log, Slept(1));
  }

  lemma Grown(log: seq<Event>, mine: seq<Event>, look: Event, reading: Event)
    ensures log + mine + [look] + [reading] == log + (mine + [look] + [reading])
  {
  }

  /** The empty looks in any stretch without a byte are part of the streak at its end. */
  lemma {:induction false} StretchInStreak(log: seq<Event>, i: nat)
    requires i <= |log| && NoByte(log[i..])
    ensures EmptyLooks(log[i..]) <= Streak(log)
    decreases |log|
  {
    if i < |log| {
      var init, last := log[..|log| - 1], log[|log| - 1];
      assert log[i..] == init[i..] + [last];
      assert last in log[i..];
      assert NoByte(init[i..]);
      StretchInStreak(init, i);
    }
  }

  /** So a bound on the streaks bounds the empty looks of every stretch without a byte. */
  lemma StreaksBoundStretches(log: seq<Event>, bound: nat, i: nat, j: nat)
    requires StreaksWithin(log, bound) && i <= j <= |log| && NoByte(log[i..j])
    ensures EmptyLooks(log[i..j]) <= bound
  {
    assert log[..j][i..] == log[i..j];
    StretchInStreak(log[..j], i);
  }

  /** The loop has given up for good reason: an empty look, then a reading at least `timeoutMs` past
      the last byte, or past `start` if there was none. */
  predicate TimedOut(log: seq<Event>, start: nat, timeoutMs: nat) {
    && |log| >= 2 && log[|log| - 2] == Nothing && log[|log| - 1].Clock?
    && LastByteAt(log, start) + timeoutMs <= log[|log| - 1].t
  }

  class Port {
    var input: seq<byte>
    var clock: nat
    ghost var fed: seq<byte>   // every byte the host has fed
    ghost var taken: seq<byte> // every byte read
    ghost var log: seq<Event>

    ghost predicate Valid() reads this { fed == taken + input }

    /** serial::read. The host may have fed any bytes, and time passed, since the last look. */
    method Read() returns (c: int)
      requires Valid()
      modifies this
      ensures Valid() && old(fed) <= fed && old(clock) <= clock
      ensures c == -1 <==> fed == old(taken)
      ensures c == -1 ==> taken == old(taken) && input == []
      ensures c != -1 ==> 0 <= c < 256 && taken == old(taken) + [c]
      ensures log == old(log) + [if c == -1 then Nothing else Got(c, clock)]
    {
      var arrived: seq<byte> := *;
      var later: int := *;
      input, clock := input + arrived, if later > clock then later else clock;
      fed := fed + arrived;
      if input == [] {
        c := -1;
        log := log + [Nothing];
      } else {
        c := input[0];
        input := input[1..];
        taken := taken + [c];
        log := log + [Got(c, clock)];
      }
    }

    method Now() returns (t: nat)
      modifies `clock, `log
      ensures t == clock && old(clock) <= clock && log == old(log) + [Clock(t)]
    {
      var later: int := *;
      clock := if later > clock then later else clock;
      t := clock;
      log := log + [Clock(t)];
    }

    method Sleep(ms: nat)
      modifies `clock, `log
      ensures old(clock) + ms <= clock && log == old(log) + [Slept(ms)]
    {
      var woken: int := *;
      clock := if woken > clock + ms then woken else clock + ms;
      log := log + [Slept(ms)];
    }

    /** Fills `buffer[..count]` with the next bytes of the input, in order, none skipped. `mine` is
        what this call has added to the log. It stops short only after a look that found nothing and
        a clock reading at least `timeoutMs` past the last byte (or the call); and it never looks at
        an empty input more than `timeoutMs + 1` times in a row, sleeping one millisecond after each such
        look and its reading and at no other time. */
    method ReadBytes(buffer: array<byte>, length: nat, timeoutMs: nat) returns (count: nat, ghost mine: seq<Event>)
      requires Valid() && length <= buffer.Length
      modifies this, buffer
      ensures Valid() && old(fed) <= fed
      ensures count <= length
      ensures taken == old(taken) + buffer[..count]
      ensures forall i | count <= i < buffer.Length :: buffer[i] == old(buffer[i])
      ensures log == old(log) + mine
      ensures count < length ==> TimedOut(mine, old(clock), timeoutMs)
      ensures StreaksWithin(mine, timeoutMs + 1) && SleepsOk(mine)
    {
      count, mine := 0, [];
      ghost var start := clock;
      var deadline := Now();
      mine := [Clock(deadline)];
      Snoc([], Clock(deadline), start);
      SleepsSnoc([], Clock(deadline));
      deadline := deadline + timeoutMs;
      while count < length
        invariant Valid() && old(fed) <= fed
        invariant 0 <= count <= length
        invariant taken == old(taken) + buffer[..count]
        invariant forall i | count <= i < buffer.Length :: buffer[i] == old(buffer[i])
        invariant log == old(log) + mine
        invariant LastByteAt(mine, start) + timeoutMs <= deadline <= clock + timeoutMs - Streak(mine)
        invariant Streak(mine) <= timeoutMs && StreaksWithin(mine, timeoutMs + 1) && SleepsOk(mine)
        decreases length - count, if deadline > clock then deadline - clock else 0
      {
        var c := Read();
        ghost var look := if c == -1 then Nothing else Got(c, clock);
        if c >= 0 {
          ghost var filled := buffer[..count];
          buffer[count] := c;
          count := count + 1;
          assert buffer[..count] == filled + [c];
          var now := Now();
          Turn(mine, look, now, start, timeoutMs + 1);
          Grown(old(log), mine, look, Clock(now));
          mine := mine + [look] + [Clock(now)];
          deadline := now + timeoutMs;
        } else {
          var now := Now();
          Turn(mine, look, now, start, timeoutMs + 1);
          Grown(old(log), mine, look, Clock(now));
          mine := mine + [look] + [Clock(now)];
          if now >= deadline {
            break;
          }
          Sleep(1);
          TurnSleeps(mine, start, timeoutMs + 1);
          Assoc(old(log), mine, [Slept(1)]);
          mine := mine + [Slept(1)];
        }
      }
    }
  }
}
