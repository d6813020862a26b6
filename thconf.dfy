/**
 * The configuration tool for the PKTH100B temperature/humidity sensor
 * (`thconf`).  It changes the sensor's baud rate and slave address with a
 * non-standard extension of Write Single Register: a 9-byte request that
 * carries two extra data bytes, the new address and a baud-rate code.  The
 * change succeeded when the sensor echoes the first six request bytes.
 */
module ThConf {
  import opened Bytes
  import opened Wrappers

  /** Length of the configuration request (`REQ_FRAME_LEN`). */
  const REQ_FRAME_LEN: nat := 9

  /** Length of the echoed part of the response (`RSP_FRAME_LEN`). */
  const RSP_FRAME_LEN: nat := 6

  const FC_WRITE_SINGLE_REGISTER: byte := 0x06

  /** Lowest and highest slave address a sensor may be given. */
  const MIN_SLAVE_ADDR: int := 1
  const MAX_SLAVE_ADDR: int := 247

  /**
   * The sensor's baud-rate table, read from the code side: code 3 is
   * 1200 baud and each following code doubles the rate, up to code 7
   * (19200 baud).
   */
  function BaudrateOf(code: int): (rate: int)
    requires 3 <= code <= 7
    ensures rate >= 1200
  {
    if code == 3 then 1200 else 2 * BaudrateOf(code - 1)
  }

  /** A higher code selects a faster rate. */
  lemma {:induction false} BaudrateOfIncreasing(a: int, b: int)
    requires 3 <= a < b <= 7
    ensures BaudrateOf(a) < BaudrateOf(b)
    decreases b - a
  {
    if a < b - 1 {
      BaudrateOfIncreasing(a, b - 1);
    }
  }

  /** `check_baudrate`: the code of a supported baud rate, 0 for any other rate. */
  function CheckBaudrate(baudrate: int): (br: byte)
    ensures br == 0 || 3 <= br <= 7
    ensures br != 0 <==> baudrate in {1200, 2400, 4800, 9600, 19200}
  {
    match baudrate
    case 1200 => 3
    case 2400 => 4
    case 4800 => 5
    case 9600 => 6
    case 19200 => 7
    case _ => 0
  }

  /** Every code of the table is what `check_baudrate` gives for its rate. */
  lemma {:induction false} CheckBaudrateOfCode(code: int)
    requires 3 <= code <= 7
    ensures CheckBaudrate(BaudrateOf(code)) == code
  {
    if code > 3 {
      assert BaudrateOf(code) == 2 * BaudrateOf(code - 1);
      if code > 4 {
        assert BaudrateOf(code - 1) == 2 * BaudrateOf(code - 2);
        if code > 5 {
          assert BaudrateOf(code - 2) == 2 * BaudrateOf(code - 3);
          if code > 6 {
            assert BaudrateOf(code - 3) == 2 * BaudrateOf(code - 4);
          }
        }
      }
    }
  }

  /**
   * A rate that `check_baudrate` accepts is exactly the rate the table
   * gives for its code: the code identifies the rate.
   */
  lemma CheckBaudrateIsInverse(baudrate: int)
    requires CheckBaudrate(baudrate) != 0
    ensures BaudrateOf(CheckBaudrate(baudrate)) == baudrate
  {
    CheckBaudrateOfCode(3);
    CheckBaudrateOfCode(4);
    CheckBaudrateOfCode(5);
    CheckBaudrateOfCode(6);
    CheckBaudrateOfCode(7);
  }

  /** Distinct supported rates get distinct codes. */
  lemma CheckBaudrateInjective(a: int, b: int)
    requires CheckBaudrate(a) != 0 && CheckBaudrate(a) == CheckBaudrate(b)
    ensures a == b
  {
    CheckBaudrateIsInverse(a);
    CheckBaudrateIsInverse(b);
  }

  /** A slave address the tool accepts, for the current or the new address. */
  predicate ValidSlaveAddress(addr: int)
  {
    MIN_SLAVE_ADDR <= addr <= MAX_SLAVE_ADDR
  }

  /** Why the command line is refused; the tool returns -1 for each. */
  datatype ConfigError =
    | InvalidBaudrate(baudrate: int)
    | InvalidNewBaudrate(newBaudrate: int)
    | InvalidSlaveAddress(slaveAddr: int)
    | InvalidNewSlaveAddress(newSlaveAddr: int)

  /** The result of reading the command line, before the port is opened. */
  datatype Setup =
    | Usage                        // fewer than four arguments: usage text, exit 0
    | Rejected(error: ConfigError)
    | Ready(rawReq: seq<byte>)     // the request to send

  /** The nine-byte configuration request for valid parameters. */
  function RawRequest(slaveAddr: int, newSlaveAddr: int, brCode: byte): (frame: seq<byte>)
    requires ValidSlaveAddress(slaveAddr) && ValidSlaveAddress(newSlaveAddr)
    ensures |frame| == REQ_FRAME_LEN
  {
    [slaveAddr, FC_WRITE_SINGLE_REGISTER, 0x00, 0x00, 0x00, 0x01, 0x02, newSlaveAddr, brCode]
  }

  /**
   * Reads `<baudrate> <slave_addr> <new_baudrate> <new_slave_addr>` (the
   * arguments after the program name, already converted to integers),
   * checks them in that order and builds the request.
   */
  function Prepare(args: seq<int>): (s: Setup)
    ensures s == Usage <==> |args| < 4
    ensures |args| >= 4 ==>
      (s == Rejected(InvalidBaudrate(args[0])) <==> CheckBaudrate(args[0]) == 0) &&
      (s == Rejected(InvalidNewBaudrate(args[2])) <==>
         CheckBaudrate(args[0]) != 0 && CheckBaudrate(args[2]) == 0) &&
      (s == Rejected(InvalidSlaveAddress(args[1])) <==>
         CheckBaudrate(args[0]) != 0 && CheckBaudrate(args[2]) != 0 && !ValidSlaveAddress(args[1])) &&
      (s == Rejected(InvalidNewSlaveAddress(args[3])) <==>
         CheckBaudrate(args[0]) != 0 && CheckBaudrate(args[2]) != 0 && ValidSlaveAddress(args[1]) &&
         !ValidSlaveAddress(args[3]))
    ensures s.Ready? <==>
      |args| >= 4 && CheckBaudrate(args[0]) != 0 && CheckBaudrate(args[2]) != 0 &&
      ValidSlaveAddress(args[1]) && ValidSlaveAddress(args[3])
    ensures s.Ready? ==>
      |s.rawReq| == REQ_FRAME_LEN &&
      s.rawReq[0] == args[1] && s.rawReq[1] == FC_WRITE_SINGLE_REGISTER &&
      s.rawReq[2..7] == [0x00, 0x00, 0x00, 0x01, 0x02] &&
      s.rawReq[7] == args[3] &&
      3 <= s.rawReq[8] <= 7 && BaudrateOf(s.rawReq[8]) == args[2]
  {
    if |args| < 4 then Usage
    else
      var baudrate, slaveAddr, newBaudrate, newSlaveAddr := args[0], args[1], args[2], args[3];
      if CheckBaudrate(baudrate) == 0 then Rejected(InvalidBaudrate(baudrate))
      else
        var brCode := CheckBaudrate(newBaudrate);
        if brCode == 0 then Rejected(InvalidNewBaudrate(newBaudrate))
        else if slaveAddr < MIN_SLAVE_ADDR || slaveAddr > MAX_SLAVE_ADDR then Rejected(InvalidSlaveAddress(slaveAddr))
        else if newSlaveAddr < MIN_SLAVE_ADDR || newSlaveAddr > MAX_SLAVE_ADDR then Rejected(InvalidNewSlaveAddress(newSlaveAddr))
        else
          CheckBaudrateIsInverse(newBaudrate);
          Ready(RawRequest(slaveAddr, newSlaveAddr, brCode))
  }

  /** `memcmp(raw_req, rsp, RSP_FRAME_LEN) == 0`: the response echoes the first six request bytes. */
  function EchoMatches(rawReq: seq<byte>, rsp: seq<byte>): (ok: bool)
    requires |rawReq| == REQ_FRAME_LEN && |rsp| >= RSP_FRAME_LEN
    ensures ok <==> forall i :: 0 <= i < RSP_FRAME_LEN ==> rawReq[i] == rsp[i]
  {
    rawReq[..RSP_FRAME_LEN] == rsp[..RSP_FRAME_LEN]
  }

  /** The response the sensor documents: address, 0x06, register 0, value 1. */
  function DocumentedResponse(slaveAddr: byte): seq<byte>
  {
    [slaveAddr, FC_WRITE_SINGLE_REGISTER, 0x00, 0x00, 0x00, 0x01]
  }

  /**
   * For every accepted command line, the documented response of the
   * addressed sensor is recognised as success, and a response from any
   * other address, or with any other function code, is not.
   */
  lemma DocumentedResponseAccepted(args: seq<int>, rsp: seq<byte>)
    requires Prepare(args).Ready? && |rsp| >= RSP_FRAME_LEN
    ensures rsp[..RSP_FRAME_LEN] == DocumentedResponse(args[1]) ==> EchoMatches(Prepare(args).rawReq, rsp)
    ensures rsp[0] != args[1] || rsp[1] != FC_WRITE_SINGLE_REGISTER ==> !EchoMatches(Prepare(args).rawReq, rsp)
  {
    var req := Prepare(args).rawReq;
    if rsp[..RSP_FRAME_LEN] == DocumentedResponse(args[1]) {
      assert req[..RSP_FRAME_LEN] == DocumentedResponse(args[1]) by {
        assert req[2..7] == [0x00, 0x00, 0x00, 0x01, 0x02];
        assert req[2] == 0 && req[3] == 0 && req[4] == 0 && req[5] == 1;
      }
    }
  }

  /** What the tool reports after the exchange. */
  datatype Report =
    | Changed(newBaudrate: Option<int>, newSlaveAddr: Option<int>)   // "Successfully changed ..." and the new values
    | ConfigurationError                                               // "ERROR changing sensor configuration"

  /**
   * Success exactly when the echo matches; on success the new baud rate is
   * reported only if it differs from the old one, and likewise the new address.
   */
  function Confirm(args: seq<int>, rsp: seq<byte>): (rep: Report)
    requires Prepare(args).Ready? && |rsp| >= RSP_FRAME_LEN
    ensures rep.Changed? <==> EchoMatches(Prepare(args).rawReq, rsp)
    ensures rep.Changed? ==>
      (rep.newBaudrate.Some? <==> args[0] != args[2]) && (rep.newBaudrate.Some? ==> rep.newBaudrate.value == args[2]) &&
      (rep.newSlaveAddr.Some? <==> args[1] != args[3]) && (rep.newSlaveAddr.Some? ==> rep.newSlaveAddr.value == args[3])
  {
    if EchoMatches(Prepare(args).rawReq, rsp) then
      Changed(
        if args[0] != args[2] then Some(args[2]) else None,
        if args[1] != args[3] then Some(args[3]) else None)
    else ConfigurationError
  }

  /** The exit status and, when the request was sent, the report. */
  datatype Completion = Completion(status: int, report: Option<Report>)

  /**
   * One run of the tool, given the command-line arguments and the response
   * buffer: the request is sent (and a report made) only when every check
   * passed, and only a rejected command line exits with -1.
   */
  function Main(args: seq<int>, rsp: seq<byte>): (c: Completion)
    requires |rsp| >= RSP_FRAME_LEN
    ensures c.report.Some? <==> Prepare(args).Ready?
    ensures c.status == -1 <==> Prepare(args).Rejected?
    ensures c.status == 0 <==> !Prepare(args).Rejected?
    ensures c.report.Some? ==> (c.report.value.Changed? <==> EchoMatches(Prepare(args).rawReq, rsp))
    ensures c.report.Some? && c.report.value.Changed? ==>
      (c.report.value.newBaudrate.Some? <==> args[0] != args[2]) &&
      (c.report.value.newBaudrate.Some? ==> c.report.value.newBaudrate.value == args[2]) &&
      (c.report.value.newSlaveAddr.Some? <==> args[1] != args[3]) &&
      (c.report.value.newSlaveAddr.Some? ==> c.report.value.newSlaveAddr.value == args[3])
  {
    match Prepare(args)
    case Usage => Completion(0, None)
    case Rejected(_) => Completion(-1, None)
    case Ready(_) => Completion(0, Some(Confirm(args, rsp)))
  }
}
