/** decode_serial_config and the integer widths of the line-settings ABI
    (native/wrapper/src/zimodem_host.cpp). */
module LineSettings {
  import opened SerialData

  const PARITY_NONE := 0
  const PARITY_ODD := 1
  const PARITY_EVEN := 2

  /** The ABI's view: `int` baud, data bits, parity and ten times the stop bits. */
  datatype Settings = Settings(baud: int, dataBits: int, parity: int, stopBitsX10: int)

  /** The `int` that keeps the low 32 bits of an unsigned value, two's complement. */
  function ToInt32(x: nat): (r: int)
    ensures -0x8000_0000 <= r < 0x8000_0000
    ensures x < 0x8000_0000 ==> r == x
  {
    (x + 0x8000_0000) % 0x1_0000_0000 - 0x8000_0000
  }

  function DataBits(config: bv32): (r: int)
    ensures 5 <= r <= 8
  {
    if config & 0x0C == 0x0C then 8 else if config & 0x0C == 0x08 then 7
    else if config & 0x0C == 0x04 then 6 else 5
  }

  function Parity(config: bv32): int {
    if config & 0x03 == 0x03 then PARITY_ODD
    else if config & 0x03 == 0x02 then PARITY_EVEN
    else PARITY_NONE
  }

  function StopBitsX10(config: bv32): int {
    if config & 0x30 == 0x30 then 20 else if config & 0x30 == 0x20 then 15 else 10
  }

  function Decoded(line: Line): Settings {
    Settings(ToInt32(line.baud), DataBits(line.config), Parity(line.config), StopBitsX10(line.config))
  }

  /** The two masked bits, shifted down, count the data bits from five. */
  lemma DataBitsShift(config: bv32)
    ensures DataBits(config) == 5 + ((config & 0x0C) >> 2) as int
  {
    var m := config & 0x0C;
    assert m == 0 || m == 4 || m == 8 || m == 12;
    assert (0 as bv32) >> 2 == 0 && (4 as bv32) >> 2 == 1 && (8 as bv32) >> 2 == 2 && (12 as bv32) >> 2 == 3;
  }

  /** decode_serial_config: the three out parameters, which here are always present. */
  method DecodeSerialConfig(config: bv32) returns (dataBits: int, parity: int, stopBitsX10: int)
    ensures dataBits == DataBits(config) && parity == Parity(config) && stopBitsX10 == StopBitsX10(config)
  {
    DataBitsShift(config);
    dataBits := 5 + ((config & 0x0C) >> 2) as int;
    match config & 0x03 {
      case 3 => parity := PARITY_ODD;
      case 2 => parity := PARITY_EVEN;
      case _ => parity := PARITY_NONE;
    }
    match config & 0x30 {
      case 0x30 => stopBitsX10 := 20;
      case 0x20 => stopBitsX10 := 15;
      case _ => stopBitsX10 := 10;
    }
  }

  /** The framings the ABI can report. */
  predicate Framing(dataBits: int, parity: int, stopBitsX10: int) {
    5 <= dataBits <= 8 && 0 <= parity <= 2 && stopBitsX10 in {10, 15, 20}
  }

  /** The ESP32 bitmap for a framing, `rest` supplying the bits the decoder ignores. The parity codes
      are the ABI's: 0 none, 1 odd, 2 even. */
  function Encoded(dataBits: int, parity: int, stopBitsX10: int, rest: bv32): bv32 {
    (rest & 0xFFFF_FFC0)
    | (if dataBits == 8 then 0x0C else if dataBits == 7 then 0x08 else if dataBits == 6 then 0x04 else 0x00)
    | (if parity == 1 then 0x03 else if parity == 2 then 0x02 else 0x00)
    | (if stopBitsX10 == 20 then 0x30 else if stopBitsX10 == 15 then 0x20 else 0x10)
  }

  /** Every framing the ABI can report survives encoding and decoding, whatever the other bits. */
  lemma DecodeEncoded(dataBits: int, parity: int, stopBitsX10: int, rest: bv32)
    requires Framing(dataBits, parity, stopBitsX10)
    ensures var c := Encoded(dataBits, parity, stopBitsX10, rest);
            DataBits(c) == dataBits && Parity(c) == parity && StopBitsX10(c) == stopBitsX10
  {
  }

  /** Through the whole view: a recorded line with that framing is reported as that framing. */
  lemma DecodedEncoded(baud: nat, dataBits: int, parity: int, stopBitsX10: int, rest: bv32)
    requires Framing(dataBits, parity, stopBitsX10) && baud < 0x8000_0000
    ensures var r := Decoded(Line(baud, Encoded(dataBits, parity, stopBitsX10, rest)));
            r.baud == baud && r.dataBits == dataBits && r.parity == parity && r.stopBitsX10 == stopBitsX10
  {
    DecodeEncoded(dataBits, parity, stopBitsX10, rest);
  }

  /** The firmware's default word 0x800001c is 8 data bits, no parity, one stop bit; its siblings with
      even and odd parity, and with two stop bits, differ in those fields alone. */
  lemma KnownWords(baud: nat)
    requires baud < 0x8000_0000
    ensures Decoded(Line(baud, 0x800001c)) == Settings(baud, 8, 0, 10)
    ensures Decoded(Line(baud, 0x800001e)) == Settings(baud, 8, 2, 10)
    ensures Decoded(Line(baud, 0x800001f)) == Settings(baud, 8, 1, 10)
    ensures Decoded(Line(baud, 0x800003c)) == Settings(baud, 8, 0, 20)
    ensures Decoded(Line(baud, 0)) == Settings(baud, 5, 0, 10)
  {
  }
}
