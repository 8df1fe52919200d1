/** native/hal/src/serial_port.cpp: the virtual UART's queues and line settings, with the wake-up
    and line-config callbacks recorded as history, and the API routines over them. */
module SerialPort {
  import opened Prelude
  import opened SerialData
  import opened Changes
  import opened LineSettings

  const NOT_CONFIGURED := Line(0, 0)

  class Uart {
    var input: seq<byte>
    var rx: seq<byte>
    var baud: nat
    var config: bv32

    // History, with both callbacks registered: calls of the data-ready callback, the settings each
    // begin() asked for, and the line-config callbacks fired.
    ghost var wakeups: nat
    ghost var asked: seq<Line>
    ghost var lineEvents: seq<Line>

    function Contents(): Data reads this { Data(input, rx, Line(baud, config)) }

    /** The settings in force are the last ones asked for, and the events are the changes. */
    ghost predicate Valid() reads this {
      && lineEvents == Edges(Some(NOT_CONFIGURED), asked)
      && Latest(Some(NOT_CONFIGURED), asked) == Some(Line(baud, config))
    }

    constructor ()
      ensures Valid() && Contents() == Data([], [], NOT_CONFIGURED)
      ensures wakeups == 0 && asked == [] && lineEvents == []
    {
      input, rx, baud, config := [], [], 0, 0;
      wakeups, asked, lineEvents := 0, [], [];
    }

    method FeedInput(data: seq<byte>)
      requires Valid()
      modifies `input
      ensures Valid() && Contents() == Fed(old(Contents()), data)
      ensures input == old(input) + data
    {
      var i := 0;
      while i < |data|
        invariant 0 <= i <= |data| && input == old(input) + data[..i]
      {
        input := input + [data[i]];
        i := i + 1;
      }
    }

    method Available() returns (n: nat)
      ensures n == |input|
    {
      n := |input|;
    }

    method Read() returns (b: int)
      requires Valid()
      modifies `input
      ensures Valid() && b == FrontOrMinusOne(old(input)) && Contents() == InputTaken(old(Contents()))
      ensures old(input) == [] ==> b == -1 && input == []
      ensures old(input) != [] ==> 0 <= b < 256 && old(input) == [b as byte] + input
    {
      if input == [] {
        b := -1;
      } else {
        b := input[0];
        input := input[1..];
      }
    }

    method Peek() returns (b: int)
      ensures b == FrontOrMinusOne(input)
      ensures if input == [] then b == -1 else b == input[0]
    {
      if input == [] { b := -1; } else { b := input[0]; }
    }

    /** Queues every byte, then wakes the host once if there was any. */
    method Write(data: seq<byte>) returns (n: nat)
      requires Valid()
      modifies `rx, `wakeups
      ensures Valid() && n == |data| && Contents() == Queued(old(Contents()), data)
      ensures rx == old(rx) + data
      ensures wakeups == old(wakeups) + if data == [] then 0 else 1
    {
      var i := 0;
      while i < |data|
        invariant 0 <= i <= |data| && rx == old(rx) + data[..i] && wakeups == old(wakeups)
      {
        rx := rx + [data[i]];
        i := i + 1;
      }
      if |data| > 0 {
        wakeups := wakeups + 1;
      }
      n := |data|;
    }

    method RxAvailable() returns (some: bool)
      ensures some <==> rx != []
    {
      some := rx != [];
    }

    method RxRead() returns (b: int)
      requires Valid()
      modifies `rx
      ensures Valid() && b == FrontOrMinusOne(old(rx)) && Contents() == RxTaken(old(Contents()))
      ensures old(rx) == [] ==> b == -1 && rx == []
      ensures old(rx) != [] ==> 0 <= b < 256 && old(rx) == [b as byte] + rx
    {
      if rx == [] {
        b := -1;
      } else {
        b := rx[0];
        rx := rx[1..];
      }
    }

    /** begin(baud, config): records the settings and fires the callback on a change. */
    method SetLineConfig(newBaud: nat, newConfig: bv32)
      requires Valid()
      modifies `baud, `config, `asked, `lineEvents
      ensures Valid() && asked == old(asked) + [Line(newBaud, newConfig)]
      ensures Line(baud, config) == Line(newBaud, newConfig)
      ensures var asks := Line(newBaud, newConfig);
              lineEvents == old(lineEvents) + if old(Line(baud, config)) == asks then [] else [asks]
    {
      EdgesSnoc(Some(NOT_CONFIGURED), asked, Line(newBaud, newConfig));
      asked := asked + [Line(newBaud, newConfig)];
      if baud == newBaud && config == newConfig {
        return;
      }
      baud, config := newBaud, newConfig;
      lineEvents := lineEvents + [Line(baud, config)];
    }

    /** begin(baud): keeps the recorded config word. */
    method SetLineBaud(newBaud: nat)
      requires Valid()
      modifies `baud, `asked, `lineEvents
      ensures Valid() && asked == old(asked) + [Line(newBaud, config)] && baud == newBaud
      ensures lineEvents == old(lineEvents) + if old(baud) == newBaud then [] else [Line(newBaud, config)]
    {
      EdgesSnoc(Some(NOT_CONFIGURED), asked, Line(newBaud, config));
      asked := asked + [Line(newBaud, config)];
      if baud == newBaud {
        return;
      }
      baud := newBaud;
      lineEvents := lineEvents + [Line(baud, config)];
    }

    /** zimodem_host_get_line_config with every out pointer present: whatever framing the sketch asked
        for comes back, field by field, and a baud rate below 2^31 as itself. */
    method GetLineConfig() returns (r: Settings)
      ensures r == Decoded(Line(baud, config))
      ensures baud < 0x8000_0000 ==> r.baud == baud
      ensures forall d: int, p: int, s: int, rest: bv32 | Framing(d, p, s) && config == Encoded(d, p, s, rest) ::
                r.dataBits == d && r.parity == p && r.stopBitsX10 == s
    {
      var dataBits, parity, stop := DecodeSerialConfig(config);
      r := Settings(ToInt32(baud), dataBits, parity, stop);
      forall d: int, p: int, s: int, rest: bv32 | Framing(d, p, s) && config == Encoded(d, p, s, rest)
        ensures r.dataBits == d && r.parity == p && r.stopBitsX10 == s
      {
        DecodeEncoded(d, p, s, rest);
      }
    }

    /** With one writer, whatever the sequence of begin() calls: events never repeat, and what the
        last event reported is what get_line_config reports now. */
    lemma LastEventIsCurrent()
      requires Valid()
      ensures forall k | 0 <= k < |lineEvents| - 1 :: lineEvents[k] != lineEvents[k + 1]
      ensures lineEvents != [] ==> Decoded(lineEvents[|lineEvents| - 1]) == Decoded(Line(baud, config))
      ensures lineEvents == [] ==> Line(baud, config) == NOT_CONFIGURED
    {
      EdgesAlternate(Some(NOT_CONFIGURED), asked);
    }
  }

  /** managed/ZiModem.Net/ZiModemDevice.cs: the handler of the payload-less wake-up. */
  class Device {
    const port: Uart
    ghost var raised: seq<seq<byte>>

    constructor (port: Uart)
      ensures this.port == port && raised == []
    {
      this.port := port;
      raised := [];
    }

    /** Drains the queue into one batch; raises an event only for a non-empty batch. */
    method OnSerialOut()
      requires port.Valid()
      modifies this, port`rx
      ensures port.Valid() && port.rx == []
      ensures raised == if old(port.rx) == [] then old(raised) else old(raised) + [old(port.rx)]
    {
      var buffer: seq<byte> := [];
      var more := port.RxAvailable();
      while more
        invariant port.Valid() && buffer + port.rx == old(port.rx) && raised == old(raised)
        invariant more <==> port.rx != []
        decreases |port.rx|
      {
        var b := port.RxRead();
        if b < 0 {
          break;
        }
        buffer := buffer + [b];
        more := port.RxAvailable();
      }
      assert buffer == buffer + port.rx;
      if |buffer| > 0 {
        raised := raised + [buffer];
      }
    }
  }
}
