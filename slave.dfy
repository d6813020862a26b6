/**
 * The Modbus RTU slave (`mbs`): a responder that owns a map of 32 holding
 * registers and answers, frame by frame, Read Holding Registers (0x03),
 * Read Input Registers (0x04) and Write Single Register (0x06) requests
 * addressed to it.  Function and exception codes are those of the MODBUS
 * Application Protocol Specification V1.1b3 (sections 6.3, 6.4, 6.6 and 7).
 *
 * The per-frame behaviour is given twice: as the pure function `Transition`
 * (the specification, about which the lemmas below are proved) and as the
 * method `Responder.Step`, which works on the register array in place the
 * way the C program does and is proved to agree with `Transition`.
 */
module Slave {
  import opened Bytes

  /** Number of registers in the map (`MAX_REG`). */
  const MAX_REG: nat := 32

  /** Size of the receive buffer `query` (`MODBUS_TCP_MAX_ADU_LENGTH`). */
  const MAX_ADU_LENGTH: nat := 260

  /** Header length of the RTU back end: one address byte before the function code. */
  const RTU_HEADER_LENGTH: int := 1

  const FC_READ_HOLDING_REGISTERS: byte := 0x03
  const FC_READ_INPUT_REGISTERS: byte := 0x04
  const FC_WRITE_SINGLE_REGISTER: byte := 0x06

  const ILLEGAL_FUNCTION: byte := 0x01
  const ILLEGAL_DATA_ADDRESS: byte := 0x02
  const SLAVE_OR_SERVER_FAILURE: byte := 0x04

  /** The fields of one request, read from the receive buffer. */
  datatype Request = Request(slaveAddr: byte, fc: byte, regAddr: u16, regVal: u16)

  /** What the responder hands to the transport for one addressed request. */
  datatype Reply =
    | Normal(mapping: seq<u16>)   // `modbus_reply` with this response mapping
    | Exception(code: byte)       // `modbus_reply_exception` with this exception code

  /** What one iteration of the server loop does. */
  datatype Action =
    | Ignore               // receive failure or frame for another slave: nothing is sent
    | Respond(reply: Reply)
    | FatalStop            // the response mapping could not be allocated: `main` returns -1

  /**
   * One iteration's input from the environment: the result `rc` of
   * `modbus_receive`, the contents of the receive buffer, and whether
   * `modbus_mapping_new` succeeds in this iteration.
   */
  datatype Receive = Receive(rc: int, query: seq<byte>, mappingAllocated: bool)

  /** The register map and the action after one frame. */
  datatype Outcome = Outcome(action: Action, regMap: seq<u16>)

  /** The actions of a run of the server loop and the register map after it. */
  datatype Trace = Trace(actions: seq<Action>, regMap: seq<u16>)

  /** A header length for which the six request bytes fit in the receive buffer. */
  predicate ValidHeader(headerLength: int)
  {
    1 <= headerLength && headerLength + 5 <= MAX_ADU_LENGTH
  }

  /** A receive buffer of the size the C program declares. */
  predicate ValidReceive(r: Receive)
  {
    |r.query| == MAX_ADU_LENGTH
  }

  /**
   * Reads the request fields at fixed offsets from the buffer: the slave
   * address just before the function code, then the register address and
   * the register value (or count), each big-endian.
   */
  function Decode(query: seq<byte>, headerLength: int): (req: Request)
    requires ValidHeader(headerLength) && |query| == MAX_ADU_LENGTH
    ensures req.slaveAddr == query[headerLength - 1] && req.fc == query[headerLength]
    ensures HighByte(req.regAddr) == query[headerLength + 1] && LowByte(req.regAddr) == query[headerLength + 2]
    ensures HighByte(req.regVal) == query[headerLength + 3] && LowByte(req.regVal) == query[headerLength + 4]
  {
    Request(
      query[headerLength - 1],
      query[headerLength],
      Word(query[headerLength + 1], query[headerLength + 2]),
      Word(query[headerLength + 3], query[headerLength + 4]))
  }

  /** The six bytes a master puts on the wire for a request (address, function, two big-endian fields). */
  function Encode(req: Request): (bytes: seq<byte>)
    ensures |bytes| == 6
  {
    [req.slaveAddr, req.fc, HighByte(req.regAddr), LowByte(req.regAddr), HighByte(req.regVal), LowByte(req.regVal)]
  }

  /** Decoding a buffer that holds an encoded request at the header position gives that request back. */
  lemma DecodeEncode(req: Request, query: seq<byte>, headerLength: int)
    requires ValidHeader(headerLength) && |query| == MAX_ADU_LENGTH
    requires query[headerLength - 1..headerLength + 5] == Encode(req)
    ensures Decode(query, headerLength) == req
  {
    var e := Encode(req);
    var h := headerLength;
    assert query[h - 1] == e[0] && query[h] == e[1];
    assert query[h + 1] == e[2] && query[h + 2] == e[3];
    assert query[h + 3] == e[4] && query[h + 4] == e[5];
    var d := Decode(query, h);
    assert d.regAddr == req.regAddr by {
      WordOfBytes(req.regAddr);
      WordOfBytes(d.regAddr);
    }
    assert d.regVal == req.regVal by {
      WordOfBytes(req.regVal);
      WordOfBytes(d.regVal);
    }
  }

  /** Decoding reads exactly the six bytes from the address byte on: encoding the result restores them. */
  lemma EncodeDecode(query: seq<byte>, headerLength: int)
    requires ValidHeader(headerLength) && |query| == MAX_ADU_LENGTH
    ensures Encode(Decode(query, headerLength)) == query[headerLength - 1..headerLength + 5]
  {
  }

  /** A fresh response mapping: `MAX_REG` holding registers, all zero. */
  function EmptyMapping(): seq<u16>
  {
    seq(MAX_REG, _ => 0)
  }

  /** The value of `exception_code`, the response mapping and the register map after the switch on the function code. */
  datatype Dispatched = Dispatched(exceptionCode: byte, mapping: seq<u16>, regMap: seq<u16>)

  /**
   * The switch on the function code (the three handlers and the default
   * case): a supported code with an address inside the map succeeds,
   * a supported code with an address past it raises Illegal Data Address,
   * any other code raises Illegal Function.  Only a successful write
   * changes the map, and only at the written address; only a successful
   * read fills the response mapping, and only at the read address.
   */
  function Dispatch(regMap: seq<u16>, req: Request): (d: Dispatched)
    requires |regMap| == MAX_REG
    ensures |d.mapping| == MAX_REG && |d.regMap| == MAX_REG
    ensures d.exceptionCode == 0 <==> req.fc in {FC_READ_HOLDING_REGISTERS, FC_READ_INPUT_REGISTERS, FC_WRITE_SINGLE_REGISTER} && req.regAddr < MAX_REG
    ensures d.exceptionCode == ILLEGAL_FUNCTION <==> req.fc !in {FC_READ_HOLDING_REGISTERS, FC_READ_INPUT_REGISTERS, FC_WRITE_SINGLE_REGISTER}
    ensures d.exceptionCode == ILLEGAL_DATA_ADDRESS <==> req.fc in {FC_READ_HOLDING_REGISTERS, FC_READ_INPUT_REGISTERS, FC_WRITE_SINGLE_REGISTER} && req.regAddr >= MAX_REG
    ensures forall k :: 0 <= k < MAX_REG && (k != req.regAddr || req.fc != FC_WRITE_SINGLE_REGISTER) ==> d.regMap[k] == regMap[k]
    ensures req.fc == FC_WRITE_SINGLE_REGISTER && req.regAddr < MAX_REG ==> d.regMap[req.regAddr] == req.regVal
    ensures forall k :: 0 <= k < MAX_REG && (k != req.regAddr || d.exceptionCode != 0 || req.fc == FC_WRITE_SINGLE_REGISTER) ==> d.mapping[k] == 0
    ensures req.fc in {FC_READ_HOLDING_REGISTERS, FC_READ_INPUT_REGISTERS} && req.regAddr < MAX_REG ==> d.mapping[req.regAddr] == regMap[req.regAddr]
  {
    if req.fc == FC_READ_HOLDING_REGISTERS || req.fc == FC_READ_INPUT_REGISTERS then
      if req.regAddr < MAX_REG then Dispatched(0, EmptyMapping()[req.regAddr := regMap[req.regAddr]], regMap)
      else Dispatched(ILLEGAL_DATA_ADDRESS, EmptyMapping(), regMap)
    else if req.fc == FC_WRITE_SINGLE_REGISTER then
      if req.regAddr < MAX_REG then Dispatched(0, EmptyMapping(), regMap[req.regAddr := req.regVal])
      else Dispatched(ILLEGAL_DATA_ADDRESS, EmptyMapping(), regMap)
    else
      Dispatched(ILLEGAL_FUNCTION, EmptyMapping(), regMap)
  }

  /** Normal reply when no exception was raised, exception reply otherwise. */
  function ReplyOf(d: Dispatched): (r: Reply)
    ensures r.Exception? <==> d.exceptionCode != 0
    ensures r.Exception? ==> r.code == d.exceptionCode
    ensures r.Normal? ==> r.mapping == d.mapping
  {
    if d.exceptionCode == 0 then Normal(d.mapping) else Exception(d.exceptionCode)
  }

  /** Specification of one iteration of the server loop; the map is never resized. */
  function Transition(regMap: seq<u16>, ownAddr: int, headerLength: int, r: Receive): (out: Outcome)
    requires |regMap| == MAX_REG && ValidHeader(headerLength) && ValidReceive(r)
    ensures |out.regMap| == MAX_REG
  {
    if r.rc == -1 then Outcome(Ignore, regMap)
    else
      var req := Decode(r.query, headerLength);
      if req.slaveAddr != ownAddr then Outcome(Ignore, regMap)
      else if !r.mappingAllocated then Outcome(FatalStop, regMap)
      else
        var d := Dispatch(regMap, req);
        Outcome(Respond(ReplyOf(d)), d.regMap)
  }

  /** Specification of the server loop over a finite run of iterations; it ends at a fatal stop. */
  function Run(regMap: seq<u16>, ownAddr: int, headerLength: int, received: seq<Receive>): (t: Trace)
    requires |regMap| == MAX_REG && ValidHeader(headerLength)
    requires forall k :: 0 <= k < |received| ==> ValidReceive(received[k])
    ensures |t.regMap| == MAX_REG
    ensures |t.actions| <= |received| && (t.actions == [] <==> received == [])
    decreases |received|
  {
    if received == [] then Trace([], regMap)
    else
      var out := Transition(regMap, ownAddr, headerLength, received[0]);
      if out.action == FatalStop then Trace([FatalStop], out.regMap)
      else
        var rest := Run(out.regMap, ownAddr, headerLength, received[1..]);
        Trace([out.action] + rest.actions, rest.regMap)
  }

  /** The frame was received without error and is addressed to this slave. */
  predicate Addressed(ownAddr: int, headerLength: int, r: Receive)
    requires ValidHeader(headerLength) && ValidReceive(r)
  {
    r.rc != -1 && Decode(r.query, headerLength).slaveAddr == ownAddr
  }

  /** The frame is an addressed Write Single Register to register `a`, served with a mapping. */
  predicate WritesTo(ownAddr: int, headerLength: int, r: Receive, a: int)
    requires ValidHeader(headerLength) && ValidReceive(r)
  {
    Addressed(ownAddr, headerLength, r) && r.mappingAllocated &&
    Decode(r.query, headerLength).fc == FC_WRITE_SINGLE_REGISTER &&
    Decode(r.query, headerLength).regAddr == a
  }

  // ---------------------------------------------------------------------
  // Properties of one iteration
  // ---------------------------------------------------------------------

  /** A receive failure is only logged: nothing is sent and the map is unchanged. */
  lemma ReceiveErrorIsNoOp(regMap: seq<u16>, ownAddr: int, headerLength: int, r: Receive)
    requires |regMap| == MAX_REG && ValidHeader(headerLength) && ValidReceive(r)
    requires r.rc == -1
    ensures Transition(regMap, ownAddr, headerLength, r) == Outcome(Ignore, regMap)
  {
  }

  /**
   * A frame for another slave gets no reply of any kind, whatever its
   * function code, and leaves the map unchanged: the address filter runs
   * before the function code is looked at.
   */
  lemma UnaddressedIgnored(regMap: seq<u16>, ownAddr: int, headerLength: int, r: Receive)
    requires |regMap| == MAX_REG && ValidHeader(headerLength) && ValidReceive(r)
    requires r.rc != -1 && Decode(r.query, headerLength).slaveAddr != ownAddr
    ensures Transition(regMap, ownAddr, headerLength, r) == Outcome(Ignore, regMap)
  {
  }

  /** A slave configured with an address outside 0..255 never answers and never changes its map. */
  lemma OutOfRangeOwnAddressNeverAnswers(regMap: seq<u16>, ownAddr: int, headerLength: int, r: Receive)
    requires |regMap| == MAX_REG && ValidHeader(headerLength) && ValidReceive(r)
    requires ownAddr < 0 || ownAddr > 0xFF
    ensures Transition(regMap, ownAddr, headerLength, r) == Outcome(Ignore, regMap)
  {
  }

  /**
   * Exactly the addressed frames get one reply (when the response mapping
   * can be allocated), and it is an exception reply exactly when the
   * function code is unsupported or the register address is out of range.
   */
  lemma RespondsExactlyWhenAddressed(regMap: seq<u16>, ownAddr: int, headerLength: int, r: Receive)
    requires |regMap| == MAX_REG && ValidHeader(headerLength) && ValidReceive(r)
    ensures var out := Transition(regMap, ownAddr, headerLength, r);
            (out.action.Respond? <==> Addressed(ownAddr, headerLength, r) && r.mappingAllocated) &&
            (out.action == FatalStop <==> Addressed(ownAddr, headerLength, r) && !r.mappingAllocated)
    ensures var out := Transition(regMap, ownAddr, headerLength, r);
            var req := Decode(r.query, headerLength);
            out.action.Respond? ==>
              (out.action.reply.Exception? <==>
                 req.fc !in {FC_READ_HOLDING_REGISTERS, FC_READ_INPUT_REGISTERS, FC_WRITE_SINGLE_REGISTER} ||
                 req.regAddr >= MAX_REG)
  {
  }

  /**
   * Read Holding Registers and Read Input Registers in range: a normal reply
   * whose mapping holds the register's current value at the register's
   * address (every other cell of the fresh mapping is 0), and the map is
   * unchanged.
   */
  lemma ReadInRange(regMap: seq<u16>, ownAddr: int, headerLength: int, r: Receive)
    requires |regMap| == MAX_REG && ValidHeader(headerLength) && ValidReceive(r)
    requires Addressed(ownAddr, headerLength, r) && r.mappingAllocated
    requires Decode(r.query, headerLength).fc in {FC_READ_HOLDING_REGISTERS, FC_READ_INPUT_REGISTERS}
    requires Decode(r.query, headerLength).regAddr < MAX_REG
    ensures var a := Decode(r.query, headerLength).regAddr;
            var out := Transition(regMap, ownAddr, headerLength, r);
            out.regMap == regMap && out.action.Respond? && out.action.reply.Normal? &&
            |out.action.reply.mapping| == MAX_REG &&
            out.action.reply.mapping[a] == regMap[a] &&
            (forall k :: 0 <= k < MAX_REG && k != a ==> out.action.reply.mapping[k] == 0)
  {
  }

  /**
   * Write Single Register in range: the register takes the request's value,
   * every other register keeps its value, and the reply is a normal one.
   */
  lemma WriteInRange(regMap: seq<u16>, ownAddr: int, headerLength: int, r: Receive)
    requires |regMap| == MAX_REG && ValidHeader(headerLength) && ValidReceive(r)
    requires Addressed(ownAddr, headerLength, r) && r.mappingAllocated
    requires Decode(r.query, headerLength).fc == FC_WRITE_SINGLE_REGISTER
    requires Decode(r.query, headerLength).regAddr < MAX_REG
    ensures var req := Decode(r.query, headerLength);
            var out := Transition(regMap, ownAddr, headerLength, r);
            |out.regMap| == MAX_REG && out.regMap[req.regAddr] == req.regVal &&
            (forall k :: 0 <= k < MAX_REG && k != req.regAddr ==> out.regMap[k] == regMap[k]) &&
            out.action == Respond(Normal(EmptyMapping()))
  {
  }

  /** Reads and writes beyond the map raise Illegal Data Address and leave the map unchanged. */
  lemma OutOfRangeIllegalDataAddress(regMap: seq<u16>, ownAddr: int, headerLength: int, r: Receive)
    requires |regMap| == MAX_REG && ValidHeader(headerLength) && ValidReceive(r)
    requires Addressed(ownAddr, headerLength, r) && r.mappingAllocated
    requires Decode(r.query, headerLength).fc in {FC_READ_HOLDING_REGISTERS, FC_READ_INPUT_REGISTERS, FC_WRITE_SINGLE_REGISTER}
    requires Decode(r.query, headerLength).regAddr >= MAX_REG
    ensures Transition(regMap, ownAddr, headerLength, r) == Outcome(Respond(Exception(ILLEGAL_DATA_ADDRESS)), regMap)
  {
  }

  /** Any other function code raises Illegal Function and leaves the map unchanged. */
  lemma UnsupportedFunctionIllegalFunction(regMap: seq<u16>, ownAddr: int, headerLength: int, r: Receive)
    requires |regMap| == MAX_REG && ValidHeader(headerLength) && ValidReceive(r)
    requires Addressed(ownAddr, headerLength, r) && r.mappingAllocated
    requires Decode(r.query, headerLength).fc !in {FC_READ_HOLDING_REGISTERS, FC_READ_INPUT_REGISTERS, FC_WRITE_SINGLE_REGISTER}
    ensures Transition(regMap, ownAddr, headerLength, r) == Outcome(Respond(Exception(ILLEGAL_FUNCTION)), regMap)
  {
  }

  /**
   * The in-memory handlers never fail, so Slave or Server Failure is never
   * sent; the only exception codes are Illegal Function and Illegal Data Address.
   */
  lemma NeverServerFailure(regMap: seq<u16>, ownAddr: int, headerLength: int, r: Receive)
    requires |regMap| == MAX_REG && ValidHeader(headerLength) && ValidReceive(r)
    ensures var out := Transition(regMap, ownAddr, headerLength, r);
            out.action.Respond? && out.action.reply.Exception? ==>
              out.action.reply.code in {ILLEGAL_FUNCTION, ILLEGAL_DATA_ADDRESS}
    ensures Transition(regMap, ownAddr, headerLength, r).action != Respond(Exception(SLAVE_OR_SERVER_FAILURE))
  {
  }

  /** Only an addressed, in-range Write Single Register can change the map, and only at its register. */
  lemma OnlyWritesChangeTheMap(regMap: seq<u16>, ownAddr: int, headerLength: int, r: Receive, a: int)
    requires |regMap| == MAX_REG && ValidHeader(headerLength) && ValidReceive(r)
    requires 0 <= a < MAX_REG && !WritesTo(ownAddr, headerLength, r, a)
    ensures var out := Transition(regMap, ownAddr, headerLength, r);
            |out.regMap| == MAX_REG && out.regMap[a] == regMap[a]
  {
  }

  /** Repeating a read gives the same action and the same map: reads have no side effect. */
  lemma ReadIdempotent(regMap: seq<u16>, ownAddr: int, headerLength: int, r: Receive)
    requires |regMap| == MAX_REG && ValidHeader(headerLength) && ValidReceive(r)
    requires Decode(r.query, headerLength).fc in {FC_READ_HOLDING_REGISTERS, FC_READ_INPUT_REGISTERS}
    ensures var first := Transition(regMap, ownAddr, headerLength, r);
            first.regMap == regMap &&
            Transition(first.regMap, ownAddr, headerLength, r) == first
  {
  }

  /** A successful write is visible to the next read of the same register. */
  lemma ReadAfterWrite(regMap: seq<u16>, ownAddr: int, headerLength: int, w: Receive, rd: Receive)
    requires |regMap| == MAX_REG && ValidHeader(headerLength) && ValidReceive(w) && ValidReceive(rd)
    requires Addressed(ownAddr, headerLength, w) && w.mappingAllocated
    requires Addressed(ownAddr, headerLength, rd) && rd.mappingAllocated
    requires Decode(w.query, headerLength).fc == FC_WRITE_SINGLE_REGISTER
    requires Decode(rd.query, headerLength).fc in {FC_READ_HOLDING_REGISTERS, FC_READ_INPUT_REGISTERS}
    requires Decode(w.query, headerLength).regAddr == Decode(rd.query, headerLength).regAddr < MAX_REG
    ensures var afterWrite := Transition(regMap, ownAddr, headerLength, w).regMap;
            var read := Transition(afterWrite, ownAddr, headerLength, rd);
            read.action.Respond? && read.action.reply.Normal? &&
            read.action.reply.mapping[Decode(rd.query, headerLength).regAddr] == Decode(w.query, headerLength).regVal
  {
  }

  // ---------------------------------------------------------------------
  // Properties of a run of the server loop
  // ---------------------------------------------------------------------

  /** A register that no frame of the run writes keeps its value through the whole run. */
  lemma {:induction false} RunKeepsUnwritten(regMap: seq<u16>, ownAddr: int, headerLength: int, received: seq<Receive>, a: int)
    requires |regMap| == MAX_REG && ValidHeader(headerLength)
    requires forall k :: 0 <= k < |received| ==> ValidReceive(received[k])
    requires 0 <= a < MAX_REG
    requires forall k :: 0 <= k < |received| ==> !WritesTo(ownAddr, headerLength, received[k], a)
    ensures var t := Run(regMap, ownAddr, headerLength, received);
            |t.regMap| == MAX_REG && t.regMap[a] == regMap[a]
    decreases |received|
  {
    if received != [] {
      var out := Transition(regMap, ownAddr, headerLength, received[0]);
      OnlyWritesChangeTheMap(regMap, ownAddr, headerLength, received[0], a);
      if out.action != FatalStop {
        RunKeepsUnwritten(out.regMap, ownAddr, headerLength, received[1..], a);
      }
    }
  }

  /** A run of frames none of which is addressed to this slave sends nothing and changes nothing. */
  lemma {:induction false} RunOfUnaddressedFrames(regMap: seq<u16>, ownAddr: int, headerLength: int, received: seq<Receive>)
    requires |regMap| == MAX_REG && ValidHeader(headerLength)
    requires forall k :: 0 <= k < |received| ==> ValidReceive(received[k])
    requires forall k :: 0 <= k < |received| ==> !Addressed(ownAddr, headerLength, received[k])
    ensures Run(regMap, ownAddr, headerLength, received) == Trace(seq(|received|, _ => Ignore), regMap)
    decreases |received|
  {
    if received != [] {
      assert !Addressed(ownAddr, headerLength, received[0]);
      RunOfUnaddressedFrames(regMap, ownAddr, headerLength, received[1..]);
      assert [Ignore] + seq(|received| - 1, _ => Ignore) == seq(|received|, _ => Ignore);
    }
  }

  /** The run stops at the first fatal stop: a fatal stop can only be its last action. */
  lemma {:induction false} FatalStopEndsRun(regMap: seq<u16>, ownAddr: int, headerLength: int, received: seq<Receive>)
    requires |regMap| == MAX_REG && ValidHeader(headerLength)
    requires forall k :: 0 <= k < |received| ==> ValidReceive(received[k])
    ensures var t := Run(regMap, ownAddr, headerLength, received);
            |t.actions| <= |received| && |t.regMap| == MAX_REG &&
            (forall k :: 0 <= k < |t.actions| - 1 ==> t.actions[k] != FatalStop) &&
            (|t.actions| < |received| ==> |t.actions| > 0 && t.actions[|t.actions| - 1] == FatalStop)
    decreases |received|
  {
    if received != [] {
      var out := Transition(regMap, ownAddr, headerLength, received[0]);
      if out.action != FatalStop {
        FatalStopEndsRun(out.regMap, ownAddr, headerLength, received[1..]);
      }
    }
  }

  // ---------------------------------------------------------------------
  // The responder, with the register map held in an array
  // ---------------------------------------------------------------------

  /** The process-wide register map `reg_map` together with the slave's configuration. */
  class Responder {
    const ownAddr: int
    const headerLength: int
    const regMap: array<u16>

    ghost predicate Valid()
      reads this
    {
      regMap.Length == MAX_REG && ValidHeader(headerLength)
    }

    /** The map is zero at start-up, like the C global it models. */
    constructor (ownAddr: int, headerLength: int)
      requires ValidHeader(headerLength)
      ensures Valid() && fresh(regMap)
      ensures this.ownAddr == ownAddr && this.headerLength == headerLength
      ensures regMap[..] == seq(MAX_REG, _ => 0)
    {
      this.ownAddr := ownAddr;
      this.headerLength := headerLength;
      regMap := new u16[MAX_REG](_ => 0);
    }

    /** `read_reg`: copies one register out; it always reports success (0). */
    method ReadReg(regAddr: int) returns (status: int, regVal: u16)
      requires Valid() && 0 <= regAddr < MAX_REG
      ensures status == 0 && regVal == regMap[regAddr]
    {
      regVal := regMap[regAddr];
      status := 0;
    }

    /** `write_reg`: stores one register in place; it always reports success (0). */
    method WriteReg(regAddr: int, regVal: u16) returns (status: int)
      requires Valid() && 0 <= regAddr < MAX_REG
      modifies regMap
      ensures status == 0 && regMap[..] == old(regMap[..])[regAddr := regVal]
    {
      regMap[regAddr] := regVal;
      status := 0;
    }

    /** One iteration of the server loop, on the register array in place. */
    method Step(r: Receive) returns (action: Action)
      requires Valid() && ValidReceive(r)
      modifies regMap
      ensures var out := Transition(old(regMap[..]), ownAddr, headerLength, r);
              action == out.action && regMap[..] == out.regMap
      ensures action.Ignore? || action == FatalStop ==> regMap[..] == old(regMap[..])
    {
      if r.rc == -1 {
        // the receive failure is logged and the loop waits for the next frame
        return Ignore;
      }
      var req := Decode(r.query, headerLength);
      var regVal := req.regVal;
      var exceptionCode: byte := 0;

      if req.slaveAddr != ownAddr {
        return Ignore;
      }
      if !r.mappingAllocated {
        return FatalStop;
      }
      ghost var m0 := regMap[..];
      ghost var d := Dispatch(m0, req);
      var mapping := new u16[MAX_REG](_ => 0);
      assert mapping[..] == EmptyMapping();

      if req.fc == FC_READ_HOLDING_REGISTERS || req.fc == FC_READ_INPUT_REGISTERS {
        if req.regAddr < MAX_REG {
          var status;
          status, regVal := ReadReg(req.regAddr);
          if status != 0 {
            exceptionCode := SLAVE_OR_SERVER_FAILURE;
          } else {
            mapping[req.regAddr] := regVal;
          }
          assert mapping[..] == d.mapping;
        } else {
          exceptionCode := ILLEGAL_DATA_ADDRESS;
        }
      } else if req.fc == FC_WRITE_SINGLE_REGISTER {
        if req.regAddr < MAX_REG {
          var status := WriteReg(req.regAddr, regVal);
          if status != 0 {
            exceptionCode := SLAVE_OR_SERVER_FAILURE;
          }
        } else {
          exceptionCode := ILLEGAL_DATA_ADDRESS;
        }
      } else {
        exceptionCode := ILLEGAL_FUNCTION;
      }
      assert exceptionCode == d.exceptionCode && regMap[..] == d.regMap;

      if exceptionCode == 0 {
        action := Respond(Normal(mapping[..]));
      } else {
        action := Respond(Exception(exceptionCode));
      }
    }

    /**
     * The server loop over the frames received in one run: one `Step` per
     * frame, ending early when a step stops the program.
     */
    method Serve(received: seq<Receive>) returns (actions: seq<Action>)
      requires Valid() && forall k :: 0 <= k < |received| ==> ValidReceive(received[k])
      modifies regMap
      ensures var t := Run(old(regMap[..]), ownAddr, headerLength, received);
              actions == t.actions && regMap[..] == t.regMap
    {
      ghost var total := Run(regMap[..], ownAddr, headerLength, received);
      actions := [];
      var i := 0;
      var cont := true;
      while cont && i < |received|
        invariant 0 <= i <= |received|
        invariant cont ==> total == Trace(actions + Run(regMap[..], ownAddr, headerLength, received[i..]).actions,
                                          Run(regMap[..], ownAddr, headerLength, received[i..]).regMap)
        invariant !cont ==> total == Trace(actions, regMap[..])
        decreases |received| - i, cont
      {
        ghost var before := regMap[..];
        var action := Step(received[i]);
        assert received[i..][0] == received[i] && received[i..][1..] == received[i + 1..];
        actions := actions + [action];
        if action == FatalStop {
          cont := false;
        }
        i := i + 1;
      }
    }
  }

  // ---------------------------------------------------------------------
  // End-to-end scenarios: a responder with own address 5 on RTU framing
  // ---------------------------------------------------------------------

  /**
   * Writing 1234 (bytes 0x04 0xD2) to register 10 stores it, with a normal
   * reply; reading register 10 afterwards returns 1234.
   */
  lemma ScenarioWriteThenRead(m: seq<u16>, wq: seq<byte>, rq: seq<byte>)
    requires |m| == MAX_REG
    requires |wq| == MAX_ADU_LENGTH && wq[0] == 5 && wq[1] == 0x06 && wq[2] == 0 && wq[3] == 10 && wq[4] == 0x04 && wq[5] == 0xD2
    requires |rq| == MAX_ADU_LENGTH && rq[0] == 5 && rq[1] == 0x03 && rq[2] == 0 && rq[3] == 10
    ensures var a := Transition(m, 5, RTU_HEADER_LENGTH, Receive(8, wq, true));
            var b := Transition(a.regMap, 5, RTU_HEADER_LENGTH, Receive(8, rq, true));
            |a.regMap| == MAX_REG && a.regMap[10] == 1234 && a.action == Respond(Normal(EmptyMapping())) &&
            b.action.Respond? && b.action.reply.Normal? && b.action.reply.mapping[10] == 1234
  {
    var w := Decode(wq, RTU_HEADER_LENGTH);
    var rd := Decode(rq, RTU_HEADER_LENGTH);
    assert w.regAddr == 10 && w.regVal == 1234 by {
      WordOfBytes(w.regAddr);
      WordOfBytes(w.regVal);
    }
    assert rd.regAddr == 10 by {
      WordOfBytes(rd.regAddr);
    }
    WriteInRange(m, 5, RTU_HEADER_LENGTH, Receive(8, wq, true));
    ReadAfterWrite(m, 5, RTU_HEADER_LENGTH, Receive(8, wq, true), Receive(8, rq, true));
  }

  /** Reading register 40 of a 32-register map gives Illegal Data Address and changes nothing. */
  lemma ScenarioReadOutOfRange(m: seq<u16>, q: seq<byte>)
    requires |m| == MAX_REG
    requires |q| == MAX_ADU_LENGTH && q[0] == 5 && q[1] == 0x03 && q[2] == 0 && q[3] == 40
    ensures Transition(m, 5, RTU_HEADER_LENGTH, Receive(8, q, true)) == Outcome(Respond(Exception(ILLEGAL_DATA_ADDRESS)), m)
  {
    var req := Decode(q, RTU_HEADER_LENGTH);
    assert req.regAddr == 40 by {
      WordOfBytes(req.regAddr);
    }
    OutOfRangeIllegalDataAddress(m, 5, RTU_HEADER_LENGTH, Receive(8, q, true));
  }

  /** A frame addressed to slave 9 is not answered by slave 5, whatever it asks. */
  lemma ScenarioOtherSlave(m: seq<u16>, q: seq<byte>)
    requires |m| == MAX_REG
    requires |q| == MAX_ADU_LENGTH && q[0] == 9
    ensures Transition(m, 5, RTU_HEADER_LENGTH, Receive(8, q, true)) == Outcome(Ignore, m)
  {
    UnaddressedIgnored(m, 5, RTU_HEADER_LENGTH, Receive(8, q, true));
  }

  /** Function code 0x07 gives Illegal Function. */
  lemma ScenarioUnsupportedFunction(m: seq<u16>, q: seq<byte>)
    requires |m| == MAX_REG
    requires |q| == MAX_ADU_LENGTH && q[0] == 5 && q[1] == 0x07
    ensures Transition(m, 5, RTU_HEADER_LENGTH, Receive(8, q, true)) == Outcome(Respond(Exception(ILLEGAL_FUNCTION)), m)
  {
    UnsupportedFunctionIllegalFunction(m, 5, RTU_HEADER_LENGTH, Receive(8, q, true));
  }
}
