# Modbus-tools in Dafny

A model of the command-line Modbus RTU tools of `Modbus-tools`, with proofs of their behaviour.

- `slave.dfy` covers `mbs`, a Modbus RTU slave that emulates a device with 32 holding registers. Each received frame goes through four stages:
  - decode: the slave address, function code, register address and register value are read at fixed offsets of the receive buffer;
  - address filter: frames for other slaves are dropped silently;
  - dispatch: the function code is matched against Read Holding Registers (0x03), Read Input Registers (0x04) and Write Single Register (0x06), and every other code raises Illegal Function;
  - reply: a normal reply or an exception reply is sent.

  The register map is the array field of the class `Responder`. `Responder.Step` handles one frame in place, the way the C main loop does. It is proved equal to the pure function `Transition`, and the lemmas about the protocol are stated on `Transition`. `Responder.Serve` runs the loop over a finite sequence of received frames and is proved equal to `Run`.
- `thconf.dfy` covers `thconf`, the configuration tool for the PKTH100B sensor. It models the baud-rate code table, the order in which the command line is checked, the non-standard nine-byte configuration request, and the echo test that decides success.
- `relconf.dfy` covers `relconf`, the configuration tool for BQTEK relay cards. It models the choice between a read and a write, the six-byte raw request to address 0xFF, and where the reply value is read in the response.
- `master.dfy` covers `mbm`, the Modbus master. It models command-line parsing (mode letter, register count clamp, the value table of `W` mode) and the polling read loop.
- `bytes.dfy` holds the C integer conversions the tools rely on: `(uint8_t)`, `(uint16_t)` and `hi << 8 | lo`. `wrappers.dfy` holds `Option`.

The function and exception codes are those of the MODBUS Application Protocol Specification V1.1b3:
- function codes from sections 6.3, 6.4 and 6.6;
- exception codes 1 (Illegal Function), 2 (Illegal Data Address) and 4 (Slave or Server Failure) from section 7.

Notes on what the code does:
- A normal read reply is built from a fresh 32-register response mapping in which only cell `reg_addr` is filled, from the map (mbs.c:208, 231). The count field is decoded into `reg_val` but never used by a read: `read_reg` overwrites it (mbs.c:192, 225).
- Write Single Register passes an all-zero mapping to `modbus_reply` (mbs.c:241-249). The bytes the library then sends are not part of this model.
- A failure of `modbus_mapping_new` ends the program with -1 (mbs.c:209-215). The model calls this outcome `FatalStop`.
- The decoder performs no length check. It reads six bytes at fixed offsets of the 260-byte receive buffer, whatever the received length. The model therefore takes the whole buffer as input.

## Model

| member | source | states |
|---|---|---|
| Bytes.Trunc8 | Modbus-tools/relconf.c:127 | converting an `int` to `uint8_t` keeps it when it is in 0..255 and otherwise changes it by a multiple of 256 |
| Bytes.Trunc16 | Modbus-tools/mbm.c:82 | converting to `uint16_t` keeps a value in 0..65535 and otherwise changes it by a multiple of 65536 |
| Bytes.Word | Modbus-tools/mbs.c:191-192 | `hi << 8 \| lo` is the 16-bit value whose high byte is `hi` and whose low byte is `lo` |
| Bytes.WordOfBytes | Modbus-tools/mbs.c:191-192 | joining the high and low byte of a register gives the register back |
| Bytes.WordOfTruncatedBytes | Modbus-tools/relconf.c:127 | the bytes `(uint8_t)(x >> 8)` and `(uint8_t)x`, joined again, give `x` modulo 65536 |
| Slave.Decode | Modbus-tools/mbs.c:187-192 | the slave address and function code are the bytes at `header_length-1` and `header_length`; the register address and value are the big-endian pairs after them |
| Slave.DecodeEncode | Modbus-tools/mbs.c:187-192 | a buffer holding an encoded request at the header position decodes to that request |
| Slave.EncodeDecode | Modbus-tools/mbs.c:187-192 | decoding reads exactly the six bytes from the address byte on |
| Slave.Transition | Modbus-tools/mbs.c:165-283 | one iteration of the server loop never resizes the 32-register map |
| Slave.Dispatch | Modbus-tools/mbs.c:217-260 | the switch succeeds exactly for fc 0x03, 0x04 or 0x06 with `reg_addr` below 32; it raises Illegal Function exactly for any other fc and Illegal Data Address exactly for a supported fc with `reg_addr` of 32 or more; only a successful write changes the map, at `reg_addr` and to `reg_val`; only a successful read fills the response mapping, at `reg_addr` with the map's value |
| Slave.ReplyOf | Modbus-tools/mbs.c:262-280 | an exception reply is sent exactly when the switch set a non-zero exception code, and carries that code; otherwise the normal reply carries the response mapping |
| Slave.Run | Modbus-tools/mbs.c:165-283 | a finite run of the server loop takes at most one action per received frame, takes at least one action exactly when at least one frame was received, and keeps the map at 32 registers |
| Slave.ReceiveErrorIsNoOp | Modbus-tools/mbs.c:171-176 | when `modbus_receive` fails, nothing is sent and the map is unchanged |
| Slave.UnaddressedIgnored | Modbus-tools/mbs.c:200-204 | a frame for another slave gets no reply of any kind, even with a bad function code, and the map is unchanged |
| Slave.OutOfRangeOwnAddressNeverAnswers | Modbus-tools/mbs.c:201-201 | an own address outside 0..255 never matches the byte-wide slave address, so the slave never answers |
| Slave.RespondsExactlyWhenAddressed | Modbus-tools/mbs.c:200-280 | exactly the addressed frames get one reply, when the mapping is allocated; it is an exception reply exactly when the function is unsupported or the register is out of range |
| Slave.ReadInRange | Modbus-tools/mbs.c:220-233 | fc 0x03/0x04 with `reg_addr < 32`: normal reply whose mapping cell `reg_addr` is `reg_map[reg_addr]` and whose other cells are 0; the map is unchanged |
| Slave.WriteInRange | Modbus-tools/mbs.c:240-249 | fc 0x06 with `reg_addr < 32`: `reg_map[reg_addr]` becomes `reg_val`, every other cell keeps its value, normal reply |
| Slave.OutOfRangeIllegalDataAddress | Modbus-tools/mbs.c:234-253 | fc 0x03/0x04/0x06 with `reg_addr >= 32`: exception Illegal Data Address (2); the map is unchanged |
| Slave.UnsupportedFunctionIllegalFunction | Modbus-tools/mbs.c:256-258 | any other function code: exception Illegal Function (1); the map is unchanged |
| Slave.NeverServerFailure | Modbus-tools/mbs.c:222-254 | the in-memory handlers never fail, so Slave or Server Failure (4) is never sent; the only exception codes are 1 and 2 |
| Slave.OnlyWritesChangeTheMap | Modbus-tools/mbs.c:218-260 | a register changes only under an addressed Write Single Register to that register |
| Slave.ReadIdempotent | Modbus-tools/mbs.c:220-238 | a read leaves the map unchanged, so repeating it gives the same action |
| Slave.ReadAfterWrite | Modbus-tools/mbs.c:220-249 | a read that follows a write to the same register returns the written value |
| Slave.RunKeepsUnwritten | Modbus-tools/mbs.c:165-283 | over any run of the server loop, a register that no frame writes keeps its value |
| Slave.RunOfUnaddressedFrames | Modbus-tools/mbs.c:165-204 | a run of frames none of which is addressed to this slave sends nothing and leaves the map unchanged |
| Slave.FatalStopEndsRun | Modbus-tools/mbs.c:208-215 | a failed mapping allocation ends the loop; it can only be the last action of a run |
| Slave.ScenarioWriteThenRead | Modbus-tools/mbs.c:220-249 | writing 1234 to register 10 stores it with a normal reply, and a later read of register 10 returns 1234 |
| Slave.ScenarioReadOutOfRange | Modbus-tools/mbs.c:234-237 | reading register 40 gives Illegal Data Address and changes nothing |
| Slave.ScenarioOtherSlave | Modbus-tools/mbs.c:200-204 | slave 5 ignores a frame for slave 9 |
| Slave.ScenarioUnsupportedFunction | Modbus-tools/mbs.c:256-258 | function code 0x07 gives Illegal Function |
| Slave.Responder.constructor | Modbus-tools/mbs.c:51-51 | the register map holds 32 registers, all zero at start-up |
| Slave.Responder.ReadReg | Modbus-tools/mbs.c:54-62 | `read_reg` returns the register's current value and status 0 |
| Slave.Responder.WriteReg | Modbus-tools/mbs.c:65-73 | `write_reg` stores the value in place, changes no other register and returns 0 |
| Slave.Responder.Step | Modbus-tools/mbs.c:171-281 | one iteration on the array in place gives the action and new map of `Transition`; ignoring a frame or stopping leaves the map unchanged |
| Slave.Responder.Serve | Modbus-tools/mbs.c:165-283 | the server loop over a run of received frames gives the actions and final map of `Run` |
| ThConf.BaudrateOf | Modbus-tools/thconf.c:64-69 | the documented code table: code 3 is 1200 baud and each following code up to 7 doubles the rate, so every rate is at least 1200 |
| ThConf.BaudrateOfIncreasing | Modbus-tools/thconf.c:64-69 | a higher code of the table selects a strictly faster rate |
| ThConf.CheckBaudrate | Modbus-tools/thconf.c:91-116 | the result is non-zero exactly for 1200, 2400, 4800, 9600 and 19200, and is then a code in 3..7 |
| ThConf.CheckBaudrateOfCode | Modbus-tools/thconf.c:64-69 | each code 3..7 of the documented table is what `check_baudrate` returns for that code's rate |
| ThConf.CheckBaudrateIsInverse | Modbus-tools/thconf.c:95-115 | a rate that `check_baudrate` accepts is the table's rate for the returned code |
| ThConf.CheckBaudrateInjective | Modbus-tools/thconf.c:95-115 | distinct supported rates get distinct codes |
| ThConf.RawRequest | Modbus-tools/thconf.c:174-174 | the configuration request is nine bytes long |
| ThConf.Prepare | Modbus-tools/thconf.c:135-174 | usage with fewer than four arguments; otherwise rejection for the first failing check, in the order current baud, new baud, `slave_addr` in 1..247, `new_slave_addr` in 1..247; when all pass, the request is `[slave_addr, 0x06, 0, 0, 0, 1, 2, new_slave_addr, code]` with the code in 3..7 naming the new rate |
| ThConf.EchoMatches | Modbus-tools/thconf.c:241-241 | success exactly when the first six response bytes equal the first six request bytes |
| ThConf.DocumentedResponseAccepted | Modbus-tools/thconf.c:53-58 | the documented reply of the addressed sensor counts as success; a reply with another address or function code does not |
| ThConf.Confirm | Modbus-tools/thconf.c:241-252 | success exactly when the echo matches; on success a new baud rate or address is reported exactly when it differs from the old one |
| ThConf.Main | Modbus-tools/thconf.c:135-261 | the request is sent only when every check passed, before that nothing is opened; exit -1 exactly for a rejected command line; a sent request is reported as a success exactly when the response echoes it, with the new baud rate and the new address each reported exactly when it differs from the old one |
| RelConf.Parse | Modbus-tools/relconf.c:108-125 | with only a register address the request is Read Holding Registers of one register; with a value it is Write Single Register of that value |
| RelConf.RawRequest | Modbus-tools/relconf.c:127-127 | six bytes to slave 0xFF with the function code, a zero high address byte, the address modulo 256 and the value modulo 65536 big-endian |
| RelConf.DataOffset | Modbus-tools/relconf.c:88-89 | the value sits at offset 3 exactly for a Read Holding Registers request and at offset 4 for any other; either way its two bytes lie within the first six of the response |
| RelConf.ResponseValue | Modbus-tools/relconf.c:194-203 | the value is the big-endian pair at offset 3 for a read and at offset 4 for a write |
| RelConf.WriteEchoRoundTrip | Modbus-tools/relconf.c:199-203 | if the card echoes the write request, as documented, the printed value is `reg_val` modulo 65536 |
| RelConf.ReadResponseRoundTrip | Modbus-tools/relconf.c:194-198 | for the documented read reply, the printed value is the register value the card sent |
| RelConf.Main | Modbus-tools/relconf.c:192-222 | the value is reported exactly when `rsp_length != -1`; the exit status is 0 in both cases |
| Master.ModeOf | Modbus-tools/mbm.c:72-94 | `r`, `R`, `w` and `W` select the four modes; every other letter selects none |
| Master.ParseCommandLine | Modbus-tools/mbm.c:51-96 | usage below six `argv` entries; exit -1 for an unknown mode letter; otherwise `num_reg <= 32` in every mode. The read modes set `num_reg` and an optional `poll_period`, 0 by default; `w` truncates its value to 16 bits; `W` stores up to 32 truncated values in order and sets `num_reg` to their number |
| Master.PollRegisters | Modbus-tools/mbm.c:164-201 | the read loop runs once when `poll_period` is 0 and stops at the first read whose result differs from `num_reg`; it returns that result |

## Left out

- Everything done by libmodbus is outside the model, and a received frame is taken as given bytes. This covers:
  - creating and connecting the RTU context, the RTS direction control and its delay, and the timeouts;
  - RTU framing and CRC checks in `modbus_receive`;
  - the byte encoding of replies in `modbus_reply` and `modbus_reply_exception`, including the 0x80 flag on the function code and the library's own checks of the request against the response mapping (which holds no input registers, mbs.c:208);
  - `modbus_send_raw_request`, `modbus_receive_confirmation`, and the read and write calls of `mbm`.
- Start-up failures, which make each tool exit with -1, are not modelled because they come from the library. `thconf`, `relconf` and `mbm` open the port only after the checks modelled here.
- The `header_length` of the back end is a parameter of the slave. For RTU it is 1 (`RTU_HEADER_LENGTH`).
- The server loop `while (cont)` never ends. `Responder.Serve` models a finite run of it: one step per received frame, ending at a fatal stop.
- `syslog`/`printf` output, the `DEBUG` branches and the `usleep` between polls are not modelled. The printed results are abstract reports.
- `atoi` and `strtol` are not modelled. Arguments are taken as already-converted integers, and the mode of `mbm` as the first character of its first argument.
- Master.PollRegisters: with a non-zero poll period `mbm` polls without bound while the reads succeed. The model takes the read results as a finite sequence and stops when the sequence is used up.
- Master.ParseCommandLine: the C code leaves `reg_val` uninitialised outside `w` mode. The model marks it as absent (`None`).
- RelConf.RawRequest: the shift `reg_val >> 8` of a negative `int` is taken to be arithmetic, which is implementation-defined in C. The model writes it as Euclidean division by 256, which agrees.
- The execution of the `w` and `W` writes in `mbm` (mbm.c:204-229) is one library call each, followed by a message. It is not modelled beyond the parameters that are passed to the call.
