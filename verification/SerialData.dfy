/** The shared data of the virtual UART: what native/hal/src/serial_port.cpp keeps under its
    one mutex, and what each of its routines does to that data inside the critical section. */
module SerialData {
  import opened Prelude

  /** Line settings: `unsigned long` baud (taken as a natural) and the raw 32-bit config word. */
  datatype Line = Line(baud: nat, config: bv32)

  /** `g_input` (host to modem), `g_rx_queue` (modem to host) and the recorded line settings. */
  datatype Data = Data(input: seq<byte>, rx: seq<byte>, line: Line)

  function Fed(d: Data, bytes: seq<byte>): Data { d.(input := d.input + bytes) }

  function Queued(d: Data, bytes: seq<byte>): Data { d.(rx := d.rx + bytes) }

  function InputTaken(d: Data): Data {
    if d.input == [] then d else d.(input := d.input[1..])
  }

  function RxTaken(d: Data): Data {
    if d.rx == [] then d else d.(rx := d.rx[1..])
  }

  /** `-1` when the queue is empty, otherwise its oldest byte. */
  function FrontOrMinusOne(queue: seq<byte>): int {
    if queue == [] then -1 else queue[0]
  }
}
