/**
 * The Modbus RTU master (`mbm`): reads registers once or periodically, or
 * writes one or several registers.  Modelled here are the parsing of its
 * command line into the request parameters and the polling read loop.
 */
module Master {
  import opened Bytes
  import opened Wrappers

  /** Size of the local register table `tab_reg` and upper bound of `num_reg` (`MAX_REG`). */
  const MAX_REG: nat := 32

  /** The four operations, chosen by the first letter of the first argument. */
  datatype Mode =
    | ReadHolding     // 'r': function code 0x03
    | ReadInput       // 'R': function code 0x04
    | WriteSingle     // 'w': function code 0x06
    | WriteMultiple   // 'W': function code 0x10

  /** The mode a letter selects, if any. */
  function ModeOf(c: char): (m: Option<Mode>)
    ensures m.None? <==> c !in {'r', 'R', 'w', 'W'}
    ensures m == Some(ReadHolding) <==> c == 'r'
    ensures m == Some(ReadInput) <==> c == 'R'
    ensures m == Some(WriteSingle) <==> c == 'w'
    ensures m == Some(WriteMultiple) <==> c == 'W'
  {
    match c
    case 'r' => Some(ReadHolding)
    case 'R' => Some(ReadInput)
    case 'w' => Some(WriteSingle)
    case 'W' => Some(WriteMultiple)
    case _ => None
  }

  /** The request parameters after parsing. */
  datatype Params = Params(
    mode: Mode,
    baudrate: int,
    slaveAddr: int,
    startAddr: int,
    numReg: int,
    pollPeriod: int,
    regVal: Option<u16>,   // set in 'w' mode only; left uninitialised otherwise
    tabReg: seq<u16>)

  /** The result of parsing the command line. */
  datatype Parsed =
    | Usage                  // fewer than five arguments: usage text, exit 0
    | InvalidMode(c: char)   // "Invalid mode", exit -1, no port opened
    | Ready(params: Params)

  function Min(a: int, b: int): int
  {
    if a <= b then a else b
  }

  /**
   * Parses `mbm <mode> <baudrate> <slave_addr> <start_addr> ...`.  `mode` is
   * the first letter of the first argument and `args` the remaining
   * arguments, already converted to integers.  In read modes the next
   * argument is the register count and an optional one the poll period; in
   * 'w' mode the next is the value; in 'W' mode every remaining argument, up
   * to 32 of them, is a value.  The count is then clamped to 32.
   */
  method ParseCommandLine(mode: char, args: seq<int>) returns (p: Parsed)
    ensures p == Usage <==> |args| < 4
    ensures p.InvalidMode? <==> |args| >= 4 && ModeOf(mode).None?
    ensures p.Ready? ==>
      ModeOf(mode) == Some(p.params.mode) &&
      p.params.baudrate == args[0] && p.params.slaveAddr == args[1] && p.params.startAddr == args[2] &&
      p.params.numReg <= MAX_REG && |p.params.tabReg| == MAX_REG
    ensures p.Ready? && p.params.mode in {ReadHolding, ReadInput} ==>
      p.params.numReg == Min(args[3], MAX_REG) &&
      p.params.pollPeriod == (if |args| > 4 then args[4] else 0) &&
      p.params.regVal.None? && p.params.tabReg == seq(MAX_REG, _ => 0)
    ensures p.Ready? && p.params.mode == WriteSingle ==>
      p.params.numReg == 1 && p.params.pollPeriod == 0 &&
      p.params.regVal == Some(Trunc16(args[3])) && p.params.tabReg == seq(MAX_REG, _ => 0)
    ensures p.Ready? && p.params.mode == WriteMultiple ==>
      p.params.numReg == Min(|args| - 3, MAX_REG) && p.params.pollPeriod == 0 && p.params.regVal.None? &&
      (forall k :: 0 <= k < p.params.numReg ==> p.params.tabReg[k] == Trunc16(args[3 + k])) &&
      (forall k :: p.params.numReg <= k < MAX_REG ==> p.params.tabReg[k] == 0)
  {
    if |args| < 4 {
      return Usage;
    }
    // `i` is the argument cursor: args[i] is argv[i + 2]
    var i := 0;
    var baudrate := args[i];
    i := i + 1;
    var slaveAddr := args[i];
    i := i + 1;
    var startAddr := args[i];
    i := i + 1;
    var numReg := 1;
    var pollPeriod := 0;
    var regVal: Option<u16> := None;
    var tabReg := new u16[MAX_REG](_ => 0);
    var m: Mode;

    if mode == 'r' || mode == 'R' {
      m := if mode == 'r' then ReadHolding else ReadInput;
      numReg := args[i];
      i := i + 1;
      if |args| > i {
        pollPeriod := args[i];
        i := i + 1;
      }
    } else if mode == 'w' {
      m := WriteSingle;
      regVal := Some(Trunc16(args[i]));
      i := i + 1;
    } else if mode == 'W' {
      m := WriteMultiple;
      var k := 0;
      while k < MAX_REG && i < |args|
        invariant 0 <= k <= MAX_REG && i == 3 + k <= |args|
        invariant forall j :: 0 <= j < k ==> tabReg[j] == Trunc16(args[3 + j])
        invariant forall j :: k <= j < MAX_REG ==> tabReg[j] == 0
      {
        tabReg[k] := Trunc16(args[i]);
        k := k + 1;
        i := i + 1;
      }
      numReg := k;
    } else {
      return InvalidMode(mode);
    }

    if numReg > MAX_REG {
      numReg := MAX_REG;
    }
    p := Ready(Params(m, baudrate, slaveAddr, startAddr, numReg, pollPeriod, regVal, tabReg[..]));
  }

  /**
   * The `do ... while (poll_period)` read loop of the 'r' and 'R' modes.
   * `results` are the successive return values of `modbus_read_registers`
   * (or `modbus_read_input_registers`); the loop stops at the first read
   * that does not return `num_reg` registers, after one read when the poll
   * period is 0, and otherwise keeps reading (here: until `results` is used
   * up).  It returns the last read's result, which `mbm` uses as its exit
   * status, and the number of reads made.
   */
  method PollRegisters(numReg: int, pollPeriod: int, results: seq<int>) returns (rc: int, count: nat)
    requires |results| > 0
    ensures 1 <= count <= |results| && rc == results[count - 1]
    ensures forall j :: 0 <= j < count - 1 ==> results[j] == numReg
    ensures pollPeriod == 0 ==> count == 1
    ensures count < |results| ==> rc != numReg || pollPeriod == 0
  {
    count := 0;
    rc := 0;
    var more := true;
    while more
      invariant 0 <= count <= |results|
      invariant count > 0 ==> rc == results[count - 1]
      invariant forall j :: 0 <= j < count - 1 ==> results[j] == numReg
      invariant more ==> count < |results| && (count > 0 ==> rc == numReg && pollPeriod != 0)
      invariant !more ==> count > 0 && (pollPeriod == 0 ==> count == 1) &&
                          (count < |results| ==> rc != numReg || pollPeriod == 0)
      decreases |results| - count
    {
      rc := results[count];
      count := count + 1;
      if rc != numReg {
        // "Unable to read ... registers": leave the loop
        more := false;
      } else {
        // the values are printed and the loop sleeps for the poll period
        more := pollPeriod != 0 && count < |results|;
      }
    }
  }
}
