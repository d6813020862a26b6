/**
 * The configuration tool for BQTEK relay cards (`relconf`).  In settings
 * mode a card answers at the reserved slave address 0xFF; the tool reads
 * one configuration register, or writes one when a value is given, with a
 * hand-built six-byte request, and prints the value found at a fixed offset
 * of the response.
 */
module RelConf {
  import opened Bytes
  import opened Wrappers

  /** Length of the request (`REQ_FRAME_LEN`). */
  const REQ_FRAME_LEN: nat := 6

  /** Offset of the register value in a read response (`DATA_OFFSET_RD`) ... */
  const DATA_OFFSET_RD: nat := 3

  /** ... and in a write response (`DATA_OFFSET_WR`). */
  const DATA_OFFSET_WR: nat := 4

  /** The reserved address of a relay card in settings mode. */
  const SETTINGS_SLAVE_ADDR: byte := 0xFF

  const FC_READ_HOLDING_REGISTERS: byte := 0x03
  const FC_WRITE_SINGLE_REGISTER: byte := 0x06

  /** The register value of a read request: the number of registers to read. */
  const DEFAULT_REG_VAL: int := 1

  /** The request the command line asks for, before truncation to bytes. */
  datatype Command = Command(fc: byte, regAddr: int, regVal: int)

  /** The result of reading the command line. */
  datatype Setup =
    | Usage                   // no argument: usage text, exit 0
    | Ready(cmd: Command)

  /**
   * `relconf <reg_addr> [<reg_val>]` (the arguments after the program name,
   * already converted to integers): with a value the request is a Write
   * Single Register of that value, without one a Read Holding Registers of
   * one register.
   */
  function Parse(args: seq<int>): (s: Setup)
    ensures s == Usage <==> |args| == 0
    ensures s.Ready? ==> s.cmd.regAddr == args[0]
    ensures s.Ready? ==> (s.cmd.fc == FC_WRITE_SINGLE_REGISTER <==> |args| >= 2)
    ensures s.Ready? ==> (s.cmd.fc == FC_READ_HOLDING_REGISTERS <==> |args| == 1)
    ensures s.Ready? && |args| == 1 ==> s.cmd.regVal == DEFAULT_REG_VAL
    ensures s.Ready? && |args| >= 2 ==> s.cmd.regVal == args[1]
  {
    if |args| == 0 then Usage
    else
      var regAddr := args[0];
      if |args| > 1 then Ready(Command(FC_WRITE_SINGLE_REGISTER, regAddr, args[1]))
      else Ready(Command(FC_READ_HOLDING_REGISTERS, regAddr, DEFAULT_REG_VAL))
  }

  /**
   * `{ 0xFF, fc, 0x00, reg_addr, reg_val >> 8, reg_val }` as `uint8_t`s:
   * the address field carries only the low byte of the register address,
   * and the value field carries the value modulo 2^16.
   */
  function RawRequest(cmd: Command): (frame: seq<byte>)
    ensures |frame| == REQ_FRAME_LEN
    ensures frame[0] == SETTINGS_SLAVE_ADDR && frame[1] == cmd.fc
    ensures frame[2] == 0 && Word(frame[2], frame[3]) == cmd.regAddr % 0x100
    ensures Word(frame[4], frame[5]) == Trunc16(cmd.regVal)
  {
    WordOfTruncatedBytes(cmd.regVal);
    [SETTINGS_SLAVE_ADDR, cmd.fc, 0x00, Trunc8(cmd.regAddr), Trunc8(cmd.regVal / 0x100), Trunc8(cmd.regVal)]
  }

  /** Where the value sits in the response to a request with this function code. */
  function DataOffset(fc: byte): (offset: nat)
    ensures offset == DATA_OFFSET_RD <==> fc == FC_READ_HOLDING_REGISTERS
    ensures offset == DATA_OFFSET_WR <==> fc != FC_READ_HOLDING_REGISTERS
    ensures offset + 2 <= REQ_FRAME_LEN
  {
    if fc == FC_READ_HOLDING_REGISTERS then DATA_OFFSET_RD else DATA_OFFSET_WR
  }

  /** The value read from the response buffer: the big-endian pair at the data offset. */
  function ResponseValue(fc: byte, rsp: seq<byte>): (v: u16)
    requires |rsp| >= DATA_OFFSET_WR + 2
    ensures HighByte(v) == rsp[DataOffset(fc)] && LowByte(v) == rsp[DataOffset(fc) + 1]
  {
    if fc == FC_READ_HOLDING_REGISTERS then Word(rsp[DATA_OFFSET_RD], rsp[DATA_OFFSET_RD + 1])
    else Word(rsp[DATA_OFFSET_WR], rsp[DATA_OFFSET_WR + 1])
  }

  /**
   * A card that echoes a write request, as documented, makes the tool print
   * the value written, modulo 2^16.
   */
  lemma WriteEchoRoundTrip(cmd: Command, rsp: seq<byte>)
    requires cmd.fc == FC_WRITE_SINGLE_REGISTER
    requires |rsp| >= REQ_FRAME_LEN && rsp[..REQ_FRAME_LEN] == RawRequest(cmd)
    ensures ResponseValue(cmd.fc, rsp) == Trunc16(cmd.regVal)
  {
    var frame := RawRequest(cmd);
    assert rsp[4] == frame[4] && rsp[5] == frame[5];
  }

  /** The documented read response: address, function code, byte count 2, the value. */
  function ReadResponse(v: u16): seq<byte>
  {
    [SETTINGS_SLAVE_ADDR, FC_READ_HOLDING_REGISTERS, 2, HighByte(v), LowByte(v)]
  }

  /** The value a card returns in the documented read response is the value the tool prints. */
  lemma ReadResponseRoundTrip(v: u16, rsp: seq<byte>)
    requires |rsp| >= DATA_OFFSET_WR + 2 && rsp[..5] == ReadResponse(v)
    ensures ResponseValue(FC_READ_HOLDING_REGISTERS, rsp) == v
  {
    assert rsp[3] == HighByte(v) && rsp[4] == LowByte(v);
    WordOfBytes(v);
  }

  /** What the tool prints after the exchange. */
  datatype Report =
    | Value(regAddr: int, value: u16)   // "reg <addr>: 0x<value> (<value>)"
    | RequestError                       // "ERROR performing Modbus request"

  /** The exit status and, when a request was sent, the report. */
  datatype Completion = Completion(status: int, report: Option<Report>)

  /**
   * One run of the tool, given the arguments, the length returned by
   * `modbus_receive_confirmation` and the response buffer: the value is
   * reported exactly when the length is not -1, and the tool exits with 0
   * either way.
   */
  function Main(args: seq<int>, rspLength: int, rsp: seq<byte>): (c: Completion)
    requires |rsp| >= DATA_OFFSET_WR + 2
    ensures c.status == 0
    ensures c.report.None? <==> |args| == 0
    ensures c.report.Some? ==> (c.report.value.Value? <==> rspLength != -1)
    ensures c.report.Some? && c.report.value.Value? ==>
      c.report.value.regAddr == args[0] &&
      c.report.value.value == ResponseValue(if |args| >= 2 then FC_WRITE_SINGLE_REGISTER else FC_READ_HOLDING_REGISTERS, rsp)
  {
    match Parse(args)
    case Usage => Completion(0, None)
    case Ready(cmd) =>
      var regVal := ResponseValue(cmd.fc, rsp);
      if rspLength != -1 then Completion(0, Some(Value(cmd.regAddr, regVal)))
      else Completion(0, Some(RequestError))
  }
}
