/** The bootloader session: the autobaud handshake and the four commands,
    each a fixed sequence of frame exchanges that stops at the first
    failure. Each is a function of the device script, as in Exchanges. */
module Session {
  import opened Results
  import opened Codec
  import opened Transport
  import opened Exchanges

  const SYNC: Byte := 0x7F
  const READ_MEMORY: Byte := 0x11
  const WRITE_MEMORY: Byte := 0x31
  const READOUT_PROTECT: Byte := 0x82
  const READOUT_UNPROTECT: Byte := 0x92
  /** Timeout of the completion ACK after a readout (un)protect. */
  const LONG_TIMEOUT: nat := 10000

  const AUTOBAUD_FAILED := "autobaud failed"
  const READ_PROTECTED := "read protection is enabled"
  const ADDRESS_REJECTED := "address is rejected by the device"
  const COUNT_REJECTED := "count is rejected by the device"
  const CHECKSUM_ERROR := "checksum error"
  const ALREADY_PROTECTED := "read protection is already enabled"
  const UNPROTECT_FAILED := "something went wrong"

  /** A run that stopped with the error of `r`. */
  function Fail<T>(r: Run<()>): Run<T>
    requires r.result.Err?
  {
    Run(Err(r.result.error), r.rest, r.events)
  }

  /** _do_autobaud: the raw sync byte, no checksum, then an ACK read. */
  function DoAutobaudRun(s: Script): Run<()> {
    var ack := ReceiveAckRun(s, DEFAULT_TIMEOUT);
    Run(match ack.result
        case Err(e) => Err(e)
        case Ok(true) => Ok(())
        case Ok(false) => Err(Protocol(AUTOBAUD_FAILED)),
        ack.rest, [Wrote([SYNC])] + ack.events)
  }

  /** setup: flush, then autobaud. */
  function SetupRun(s: Script): Run<()> {
    After([Flushed], DoAutobaudRun(s))
  }

  /** One `if not self._send_data_check_ack(data): raise CommandError(msg)`. */
  function CommandStep(s: Script, data: seq<Byte>, msg: string): Run<()> {
    var a := SendDataCheckAckRun(s, data);
    Run(match a.result
        case Err(e) => Err(e)
        case Ok(true) => Ok(())
        case Ok(false) => Err(Command(msg)),
        a.rest, a.events)
  }

  /** The address step of read_memory and write_memory: addr.to_bytes(4,
      "big"), which overflows outside 32 bits, sent and acknowledged. */
  function AddressStep(s: Script, addr: int): Run<()> {
    match ToBytesBig(addr, 4)
    case None => Run(Err(Overflow), s, [])
    case Some(address) => CommandStep(s, address, ADDRESS_REJECTED)
  }

  /** A length step: (value - 1).to_bytes(1, "big"), which overflows unless
      1 <= value <= 256, followed by `data`, sent and acknowledged. */
  function LengthStep(s: Script, value: int, data: seq<Byte>, msg: string): (r: Run<()>)
    ensures r.result.Ok? ==> 1 <= value <= 256
  {
    match ToBytesBig(value - 1, 1)
    case None => Run(Err(Overflow), s, [])
    case Some(n) =>
      ToBytesBigSpec(value - 1, 1);
      assert Pow256(1) == 256;
      CommandStep(s, n + data, msg)
  }

  /** read_memory(addr, count): the command step, then the rest. */
  function ReadMemoryRun(s: Script, addr: int, count: int): Run<seq<Byte>> {
    var cmd := CommandStep(s, [READ_MEMORY], READ_PROTECTED);
    if cmd.result.Err? then Fail(cmd)
    else After(cmd.events, ReadMemoryAddressStage(cmd.rest, addr, count))
  }

  /** read_memory once its command is acknowledged: the address step, then the rest. */
  function ReadMemoryAddressStage(s: Script, addr: int, count: int): Run<seq<Byte>> {
    var at := AddressStep(s, addr);
    if at.result.Err? then Fail(at)
    else After(at.events, ReadMemoryCountStage(at.rest, count))
  }

  /** read_memory once its address is acknowledged: the count step, then the
      payload with no ACK after it. */
  function ReadMemoryCountStage(s: Script, count: int): Run<seq<Byte>> {
    var len := LengthStep(s, count, [], COUNT_REJECTED);
    if len.result.Err? then Fail(len)
    else After(len.events, ReceiveBytesRun(len.rest, count))
  }

  /** write_memory(addr, data) as the source has it: the command step, then the rest. */
  function WriteMemoryAsWrittenRun(s: Script, addr: int, data: seq<Byte>): Run<()> {
    var cmd := CommandStep(s, [WRITE_MEMORY], READ_PROTECTED);
    if cmd.result.Err? then cmd
    else After(cmd.events, WriteMemoryAsWrittenAddressStage(cmd.rest, addr))
  }

  /** After the address is acknowledged the source evaluates the unbound
      name `count` and fails; `data` is never used. */
  function WriteMemoryAsWrittenAddressStage(s: Script, addr: int): Run<()> {
    var at := AddressStep(s, addr);
    if at.result.Err? then at
    else Run(Err(NameUnbound("count")), at.rest, at.events)
  }

  /** write_memory(addr, data) as intended: the command step, then the rest. */
  function WriteMemoryRun(s: Script, addr: int, data: seq<Byte>): Run<()> {
    var cmd := CommandStep(s, [WRITE_MEMORY], READ_PROTECTED);
    if cmd.result.Err? then cmd
    else After(cmd.events, WriteMemoryAddressStage(cmd.rest, addr, data))
  }

  /** The intended write_memory once its command is acknowledged: the address
      step, then the length byte len(data) - 1 and the data under one checksum. */
  function WriteMemoryAddressStage(s: Script, addr: int, data: seq<Byte>): Run<()> {
    var at := AddressStep(s, addr);
    if at.result.Err? then at
    else After(at.events, LengthStep(at.rest, |data|, data, CHECKSUM_ERROR))
  }

  /** readout_protect / readout_unprotect: the command, then a completion ACK
      read with the long timeout whose verdict is discarded. */
  function ReadoutRun(s: Script, command: Byte, msg: string): Run<()> {
    var cmd := CommandStep(s, [command], msg);
    if cmd.result.Err? then cmd
    else
      var done := ReceiveAckRun(cmd.rest, LONG_TIMEOUT);
      Run(if done.result.Err? then Err(done.result.error) else Ok(()),
          done.rest, cmd.events + done.events)
  }

  function ReadoutProtectRun(s: Script): Run<()> {
    ReadoutRun(s, READOUT_PROTECT, ALREADY_PROTECTED)
  }

  function ReadoutUnprotectRun(s: Script): Run<()> {
    ReadoutRun(s, READOUT_UNPROTECT, UNPROTECT_FAILED)
  }

  // ---- Wire frames, written out byte by byte ----

  /** A script whose first `k` reads each deliver one ACK. */
  function Acks(k: nat): Script {
    seq(k, _ => [ACK])
  }

  lemma TakeAck(k: nat, rest: Script)
    requires k > 0
    ensures Take(Acks(k) + rest, 1) == ([ACK], Acks(k - 1) + rest)
  {
    assert (Acks(k) + rest)[0] == [ACK];
    assert (Acks(k) + rest)[1..] == Acks(k - 1) + rest;
  }

  lemma TakeNak(rest: Script)
    ensures Take([[NAK]] + rest, 1) == ([NAK], rest)
  {
    assert ([[NAK]] + rest)[1..] == rest;
  }

  /** The first `n` replies of Acks(k) + rest are ACKs when n <= k. */
  lemma {:induction false} LeadingAcksOfAcks(k: nat, rest: Script, n: nat)
    requires n <= k
    ensures LeadingAcks(Acks(k) + rest, n) == n
    decreases n
  {
    if n > 0 {
      TakeAck(k, rest);
      LeadingAcksOfAcks(k - 1, rest, n - 1);
    }
  }

  /** The first `k` replies of Acks(k) + [[NAK]] + rest are ACKs and the next is not. */
  lemma {:induction false} LeadingAcksBeforeNak(k: nat, rest: Script, n: nat)
    ensures LeadingAcks(Acks(k) + [[NAK]] + rest, n) == if k < n then k else n
    decreases n
  {
    var s := Acks(k) + [[NAK]] + rest;
    if n > 0 {
      if k > 0 {
        assert s == Acks(k) + ([[NAK]] + rest);
        TakeAck(k, [[NAK]] + rest);
        assert Acks(k - 1) + ([[NAK]] + rest) == Acks(k - 1) + [[NAK]] + rest;
        LeadingAcksBeforeNak(k - 1, rest, n - 1);
      } else {
        assert s == [[NAK]] + rest;
        TakeNak(rest);
      }
    }
  }

  /** The 4-byte big-endian address followed by the XOR of its bytes. */
  function AddressFrame(addr: int): seq<Byte>
    requires 0 <= addr < 0x1_0000_0000
  {
    var a := ToBytesBig(addr, 4).value;
    a + [a[0] ^ a[1] ^ a[2] ^ a[3]]
  }

  /** The byte count - 1 followed by its complement. */
  function CountFrame(count: int): seq<Byte>
    requires 1 <= count <= 256
  {
    var n := (count - 1) as Byte;
    [n, !n]
  }

  /** The frames read_memory sends: command, address, count - 1. */
  function ReadMemoryFrames(addr: int, count: int): seq<seq<Byte>>
    requires 0 <= addr < 0x1_0000_0000 && 1 <= count <= 256
  {
    [[0x11, 0xEE], AddressFrame(addr), CountFrame(count)]
  }

  /** The frames the intended write_memory sends: command, address, data. */
  function WriteMemoryFrames(addr: int, data: seq<Byte>): seq<seq<Byte>>
    requires 0 <= addr < 0x1_0000_0000 && 1 <= |data| <= 256
  {
    var body := [(|data| - 1) as Byte] + data;
    [[0x31, 0xCE], AddressFrame(addr), body + [XorAll(body)]]
  }

  lemma ToBytesBigInRange(value: int)
    ensures ToBytesBig(value, 4).Some? <==> 0 <= value < 0x1_0000_0000
    ensures ToBytesBig(value - 1, 1).Some? <==> 1 <= value <= 256
    ensures ToBytesBig(value, 4).Some? ==> |ToBytesBig(value, 4).value| == 4
    ensures ToBytesBig(value - 1, 1).Some? ==>
      |ToBytesBig(value - 1, 1).value| == 1 && FromBytesBig(ToBytesBig(value - 1, 1).value) == value - 1
  {
    ToBytesBigSpec(value, 4);
    ToBytesBigSpec(value - 1, 1);
    assert Pow256(4) == 0x1_0000_0000;
    assert Pow256(1) == 256;
  }

  /** The address frame read_memory and write_memory send. */
  lemma AddressOnWire(addr: int)
    requires 0 <= addr < 0x1_0000_0000
    ensures ToBytesBig(addr, 4).Some?
    ensures Framed(ToBytesBig(addr, 4).value) == AddressFrame(addr)
  {
    ToBytesBigInRange(addr);
    FramedFour(ToBytesBig(addr, 4).value);
  }

  /** The one-byte length field: `value - 1` as a byte. */
  lemma LengthByte(value: int)
    requires 1 <= value <= 256
    ensures ToBytesBig(value - 1, 1) == Some([(value - 1) as Byte])
  {
    ToBytesBigInRange(value);
    var n := ToBytesBig(value - 1, 1).value;
    assert FromBytesBig(n) == n[0] as nat by { assert n[..0] == []; }
  }

  /** The one-byte command frames: the command and its complement. */
  lemma CommandFramesOnWire()
    ensures Framed([READ_MEMORY]) == [0x11, 0xEE]
    ensures Framed([WRITE_MEMORY]) == [0x31, 0xCE]
    ensures Framed([READOUT_PROTECT]) == [0x82, 0x7D]
    ensures Framed([READOUT_UNPROTECT]) == [0x92, 0x6D]
  {
  }

  /** The frames read_memory sends are the ones written out above. */
  lemma ReadFramesOnWire(addr: int, count: int)
    requires 0 <= addr < 0x1_0000_0000 && 1 <= count <= 256
    ensures ToBytesBig(addr, 4).Some? && ToBytesBig(count - 1, 1).Some?
    ensures Framed([READ_MEMORY]) == ReadMemoryFrames(addr, count)[0]
    ensures Framed(ToBytesBig(addr, 4).value) == ReadMemoryFrames(addr, count)[1]
    ensures Framed(ToBytesBig(count - 1, 1).value) == ReadMemoryFrames(addr, count)[2]
  {
    AddressOnWire(addr);
    LengthByte(count);
  }

  /** The frames the intended write_memory sends are the ones written out above. */
  lemma WriteFramesOnWire(addr: int, data: seq<Byte>)
    requires 0 <= addr < 0x1_0000_0000 && 1 <= |data| <= 256
    ensures ToBytesBig(addr, 4).Some? && ToBytesBig(|data| - 1, 1).Some?
    ensures Framed([WRITE_MEMORY]) == WriteMemoryFrames(addr, data)[0]
    ensures Framed(ToBytesBig(addr, 4).value) == WriteMemoryFrames(addr, data)[1]
    ensures Framed(ToBytesBig(|data| - 1, 1).value + data) == WriteMemoryFrames(addr, data)[2]
  {
    AddressOnWire(addr);
    LengthByte(|data|);
  }

  // ---- Properties of the steps ----

  /** A command step writes exactly its checksummed frame. */
  lemma CommandStepWrites(s: Script, data: seq<Byte>, msg: string)
    ensures Writes(CommandStep(s, data, msg).events) == [Framed(data)]
  {
    SendDataCheckAckWritesFrame(s, data);
  }

  /** A command step does one ACK read: it goes on only on ACK, a NAK is
      CommandError with the step's message, and a timeout or an unexpected
      byte is passed on as the ACK read raised it. */
  lemma CommandStepReply(s: Script, data: seq<Byte>, msg: string)
    ensures var r := CommandStep(s, data, msg);
      var (reply, rest) := Take(s, 1);
      && r.rest == rest
      && (r.result.Ok? <==> reply == [ACK])
      && (reply == [NAK] ==> r.result == Err(Command(msg)))
      && (AckResult(reply).Err? ==> r.result == Err(AckResult(reply).error))
      && (r.result.Err? ==> r.result.error.IsBootloaderError())
  {
  }

  /** A command step goes on exactly when its one reply is an ACK. */
  lemma CommandStepGate(s: Script, data: seq<Byte>, msg: string)
    ensures var r := CommandStep(s, data, msg);
      r.rest == Take(s, 1).1 && (r.result.Ok? <==> Take(s, 1).0 == [ACK])
  {
  }

  /** A command step whose reply is not an ACK ends with that reply's refusal. */
  lemma CommandStepRefused(s: Script, data: seq<Byte>, msg: string)
    ensures var r := CommandStep(s, data, msg);
      var (reply, rest) := Take(s, 1);
      reply != [ACK] ==> r.result == Err(Refusal(reply, msg)) && r.rest == rest
  {
  }

  /** An address in 32 bits is sent as its address frame; any other
      overflows before anything is written or read. */
  lemma AddressStepWrites(s: Script, addr: int)
    ensures 0 <= addr < 0x1_0000_0000 ==>
      Writes(AddressStep(s, addr).events) == [AddressFrame(addr)] &&
      AddressStep(s, addr) == CommandStep(s, ToBytesBig(addr, 4).value, ADDRESS_REJECTED)
    ensures !(0 <= addr < 0x1_0000_0000) ==> AddressStep(s, addr) == Run(Err(Overflow), s, [])
  {
    if 0 <= addr < 0x1_0000_0000 {
      assert ToBytesBig(addr, 4).Some? && Framed(ToBytesBig(addr, 4).value) == AddressFrame(addr) by {
        AddressOnWire(addr);
      }
      CommandStepWrites(s, ToBytesBig(addr, 4).value, ADDRESS_REJECTED);
    } else {
      assert ToBytesBig(addr, 4).None? by { ToBytesBigInRange(addr); }
    }
  }

  /** A length in 1..256 is sent as [length - 1] + data under one checksum;
      any other overflows before anything is written or read. */
  lemma LengthStepWrites(s: Script, value: int, data: seq<Byte>, msg: string)
    ensures 1 <= value <= 256 ==>
      Writes(LengthStep(s, value, data, msg).events) == [Framed([(value - 1) as Byte] + data)] &&
      LengthStep(s, value, data, msg) == CommandStep(s, [(value - 1) as Byte] + data, msg)
    ensures !(1 <= value <= 256) ==> LengthStep(s, value, data, msg) == Run(Err(Overflow), s, [])
  {
    if 1 <= value <= 256 {
      assert ToBytesBig(value - 1, 1) == Some([(value - 1) as Byte]) by { LengthByte(value); }
      CommandStepWrites(s, [(value - 1) as Byte] + data, msg);
    } else {
      assert ToBytesBig(value - 1, 1).None? by { ToBytesBigInRange(value); }
    }
  }

  lemma AfterWrites<T>(events: seq<Event>, r: Run<T>)
    ensures Writes(After(events, r).events) == Writes(events) + Writes(r.events)
  {
    WritesConcat(events, r.events);
  }

  lemma ReceiveBytesWritesNothing(s: Script, count: nat)
    ensures Writes(ReceiveBytesRun(s, count).events) == []
  {
    ReceiveBytesRequests(s, count);
    WritesOfReads(ReceiveBytesRun(s, count).events);
  }

  // ---- setup ----

  /** setup flushes, writes the raw sync byte 0x7F with no checksum, and
      reads one ACK: an ACK succeeds, a NAK is "autobaud failed". */
  lemma SetupOutcome(s: Script)
    ensures var r := SetupRun(s);
      var (reply, rest) := Take(s, 1);
      && r.events == [Flushed, Wrote([0x7F]), Got(1, DEFAULT_TIMEOUT, reply)]
      && Writes(r.events) == [[0x7F]]
      && r.rest == rest
      && (r.result == Ok(()) <==> reply == [ACK])
      && (reply == [NAK] ==> r.result == Err(Protocol(AUTOBAUD_FAILED)))
      && (reply == [] ==> r.result == Err(Timeout("receiving ACK")))
      && (reply != [] && reply[0] != ACK && reply[0] != NAK ==> r.result == Err(Unexpected(reply[0])))
      && (r.result.Err? ==> r.result.error.Timeout? || r.result.error.IsProtocolError())
  {
    var r := SetupRun(s);
    assert Writes(r.events) == [[0x7F]] by {
      WritesConcat([Flushed, Wrote([0x7F])], r.events[2..]);
      assert r.events == [Flushed, Wrote([0x7F])] + r.events[2..];
      assert Writes([Flushed, Wrote([0x7F])]) == [[0x7F]] by {
        assert [Flushed, Wrote([0x7F])][1..] == [Wrote([0x7F])];
      }
    }
  }

  /** Running setup twice against a device that acknowledges both times
      repeats the same exchange and succeeds both times. */
  lemma SetupTwice(tail: Script)
    ensures var first := SetupRun(Acks(2) + tail);
      var second := SetupRun(first.rest);
      && first.result == Ok(()) && second.result == Ok(())
      && first.events == second.events && second.rest == tail
  {
    var s := Acks(2) + tail;
    assert s[0] == [ACK] && s[1..] == [[ACK]] + tail;
    assert ([[ACK]] + tail)[1..] == tail;
  }

  /** How many of the next `n` one-byte reads of `s` are ACKs before the
      first one that is not. */
  function LeadingAcks(s: Script, n: nat): (k: nat)
    ensures k <= n
    decreases n
  {
    if n == 0 then 0
    else
      var t := Take(s, 1);
      if t.0 == [ACK] then 1 + LeadingAcks(t.1, n - 1) else 0
  }

  /** The script once `k` one-byte replies have been read from it. */
  function Skip(s: Script, k: nat): Script
    decreases k
  {
    if k == 0 then s else Skip(Take(s, 1).1, k - 1)
  }

  /** The error a step whose reply is not an ACK ends with: CommandError(msg)
      on a NAK, and otherwise whatever the ACK read raised. */
  function Refusal(reply: seq<Byte>, msg: string): (e: Error)
    ensures reply == [NAK] ==> e == Command(msg)
    ensures reply == [] ==> e == Timeout("receiving ACK")
    ensures reply != [] && reply[0] != ACK && reply[0] != NAK ==> e == Unexpected(reply[0])
    ensures e.IsBootloaderError()
  {
    match AckResult(reply)
    case Err(e) => e
    case Ok(_) => Command(msg)
  }

  // ---- read_memory ----

  /** The count stage writes the count frame and nothing else: the payload
      is only read. */
  lemma ReadMemoryCountStageWrites(s: Script, count: int)
    requires 1 <= count <= 256
    ensures Writes(ReadMemoryCountStage(s, count).events) == [Framed([(count - 1) as Byte])]
  {
    LengthStepWrites(s, count, [], COUNT_REJECTED);
    var len := LengthStep(s, count, [], COUNT_REJECTED);
    assert [(count - 1) as Byte] + [] == [(count - 1) as Byte];
    if len.result.Ok? {
      var payload := ReceiveBytesRun(len.rest, count);
      ReceiveBytesWritesNothing(len.rest, count);
      AfterWrites(len.events, payload);
    }
  }

  /** The count stage fails only with a BootloaderError; a success consumed
      one ACK and then exactly `count` bytes. */
  lemma ReadMemoryCountStageOutcome(s: Script, count: int)
    requires 1 <= count <= 256
    ensures var r := ReadMemoryCountStage(s, count);
      && (r.result.Err? ==> r.result.error.IsBootloaderError())
      && (r.result.Ok? ==> |r.result.value| == count && LeadingAcks(s, 1) == 1)
  {
    LengthStepWrites(s, count, [], COUNT_REJECTED);
    CommandStepReply(s, [(count - 1) as Byte] + [], COUNT_REJECTED);
    var len := LengthStep(s, count, [], COUNT_REJECTED);
    if len.result.Ok? {
      ReceiveBytesOutcome(len.rest, count);
    }
  }

  /** The address stage writes the address frame, and the count frame only
      when the address was acknowledged. */
  lemma ReadMemoryAddressStageWrites(s: Script, addr: int, count: int)
    requires 0 <= addr < 0x1_0000_0000 && 1 <= count <= 256
    ensures Writes(ReadMemoryAddressStage(s, addr, count).events)
      == [Framed(ToBytesBig(addr, 4).value)] +
         (if LeadingAcks(s, 1) == 1 then [Framed([(count - 1) as Byte])] else [])
  {
    AddressStepWrites(s, addr);
    AddressOnWire(addr);
    CommandStepGate(s, ToBytesBig(addr, 4).value, ADDRESS_REJECTED);
    var at := AddressStep(s, addr);
    if at.result.Ok? {
      var more := ReadMemoryCountStage(at.rest, count);
      ReadMemoryCountStageWrites(at.rest, count);
      AfterWrites(at.events, more);
    }
  }

  lemma ReadMemoryAddressStageOutcome(s: Script, addr: int, count: int)
    requires 0 <= addr < 0x1_0000_0000 && 1 <= count <= 256
    ensures var r := ReadMemoryAddressStage(s, addr, count);
      && (r.result.Err? ==> r.result.error.IsBootloaderError())
      && (r.result.Ok? ==> |r.result.value| == count && LeadingAcks(s, 2) == 2)
  {
    AddressStepWrites(s, addr);
    CommandStepReply(s, ToBytesBig(addr, 4).value, ADDRESS_REJECTED);
    var at := AddressStep(s, addr);
    if at.result.Ok? {
      ReadMemoryCountStageOutcome(at.rest, count);
    }
  }

  /** The first 2 + k of three frames, for k of 0 or 1. */
  lemma SliceOfThree<T>(a: T, b: T, c: T, k: nat)
    requires k <= 1
    ensures [a, b, c][..2 + k] == [a] + ([b] + (if k == 1 then [c] else []))
    ensures [a, b, c][..1] == [a]
  {
  }

  /** The frames read_memory checksums and sends, before they are written
      out byte by byte. */
  function ReadMemoryData(addr: int, count: int): seq<seq<Byte>>
    requires 0 <= addr < 0x1_0000_0000 && 1 <= count <= 256
  {
    [Framed([READ_MEMORY]), Framed(ToBytesBig(addr, 4).value), Framed([(count - 1) as Byte])]
  }

  lemma ReadMemoryWritesFramed(s: Script, addr: int, count: int)
    requires 0 <= addr < 0x1_0000_0000 && 1 <= count <= 256
    ensures Writes(ReadMemoryRun(s, addr, count).events)
         == ReadMemoryData(addr, count)[..1 + LeadingAcks(s, 2)]
  {
    var frames := ReadMemoryData(addr, count);
    var r := ReadMemoryRun(s, addr, count);
    var cmd := CommandStep(s, [READ_MEMORY], READ_PROTECTED);
    CommandStepWrites(s, [READ_MEMORY], READ_PROTECTED);
    CommandStepGate(s, [READ_MEMORY], READ_PROTECTED);
    var k := LeadingAcks(cmd.rest, 1);
    SliceOfThree(frames[0], frames[1], frames[2], k);
    if cmd.result.Ok? {
      var more := ReadMemoryAddressStage(cmd.rest, addr, count);
      assert r.events == cmd.events + more.events;
      assert LeadingAcks(s, 2) == 1 + k;
      ReadMemoryAddressStageWrites(cmd.rest, addr, count);
      AfterWrites(cmd.events, more);
    } else {
      assert r.events == cmd.events;
      assert LeadingAcks(s, 2) == 0;
    }
  }

  /** read_memory writes its three frames in order, each one only after the
      frame before it was acknowledged: the frames written are the first
      1 + (ACKs read before the first reply that is not one). */
  lemma ReadMemoryWrites(s: Script, addr: int, count: int)
    requires 0 <= addr < 0x1_0000_0000 && 1 <= count <= 256
    ensures Writes(ReadMemoryRun(s, addr, count).events)
         == ReadMemoryFrames(addr, count)[..1 + LeadingAcks(s, 2)]
  {
    ReadMemoryWritesFramed(s, addr, count);
    ReadFramesOnWire(addr, count);
    LengthByte(count);
    assert ReadMemoryData(addr, count) == ReadMemoryFrames(addr, count);
  }

  /** With both arguments in range read_memory fails only with a
      BootloaderError, and it succeeds only after three ACKs, with exactly
      `count` bytes. */
  lemma ReadMemoryOutcome(s: Script, addr: int, count: int)
    requires 0 <= addr < 0x1_0000_0000 && 1 <= count <= 256
    ensures var r := ReadMemoryRun(s, addr, count);
      && (r.result.Err? ==> r.result.error.IsBootloaderError())
      && (r.result.Ok? ==> |r.result.value| == count && LeadingAcks(s, 3) == 3)
  {
    CommandStepReply(s, [READ_MEMORY], READ_PROTECTED);
    var cmd := CommandStep(s, [READ_MEMORY], READ_PROTECTED);
    if cmd.result.Ok? {
      ReadMemoryAddressStageOutcome(cmd.rest, addr, count);
    }
  }

  /** A NAK of the count frame is "count is rejected by the device", and
      nothing after it is read. */
  lemma ReadMemoryCountStageNak(count: int, tail: Script)
    requires 1 <= count <= 256
    ensures ReadMemoryCountStage([[NAK]] + tail, count) == Fail(LengthStep([[NAK]] + tail, count, [], COUNT_REJECTED))
    ensures ReadMemoryCountStage([[NAK]] + tail, count).result == Err(Command(COUNT_REJECTED))
    ensures ReadMemoryCountStage([[NAK]] + tail, count).rest == tail
  {
    TakeNak(tail);
    LengthStepWrites([[NAK]] + tail, count, [], COUNT_REJECTED);
    CommandStepReply([[NAK]] + tail, [(count - 1) as Byte] + [], COUNT_REJECTED);
  }

  /** A count frame acknowledged and a payload delivered in non-empty chunks
      of `count` bytes in all: the payload is the result, nothing after it is read. */
  lemma ReadMemoryCountStageAcked(count: int, chunks: Script, tail: Script)
    requires 1 <= count <= 256
    requires forall i | 0 <= i < |chunks| :: chunks[i] != []
    requires |Flatten(chunks)| == count
    ensures var r := ReadMemoryCountStage([[ACK]] + chunks + tail, count);
      r.result == Ok(Flatten(chunks)) && r.rest == tail
  {
    var s := [[ACK]] + chunks + tail;
    assert s[0] == [ACK] && s[1..] == chunks + tail;
    LengthStepWrites(s, count, [], COUNT_REJECTED);
    CommandStepGate(s, [(count - 1) as Byte] + [], COUNT_REJECTED);
    ReceiveBytesChunks(chunks, tail, count);
  }

  /** A NAK of the address frame, or of the count frame after it, is the
      CommandError of that step, and nothing after it is read. */
  lemma ReadMemoryAddressStageNak(addr: int, count: int, k: nat, tail: Script)
    requires 0 <= addr < 0x1_0000_0000 && 1 <= count <= 256 && k < 2
    ensures var r := ReadMemoryAddressStage(Acks(k) + [[NAK]] + tail, addr, count);
      && r.result == Err(Command(if k == 0 then ADDRESS_REJECTED else COUNT_REJECTED))
      && r.rest == tail
  {
    var s := Acks(k) + [[NAK]] + tail;
    AddressStepWrites(s, addr);
    CommandStepReply(s, ToBytesBig(addr, 4).value, ADDRESS_REJECTED);
    if k == 0 {
      assert s == [[NAK]] + tail;
      TakeNak(tail);
    } else {
      assert s == Acks(1) + ([[NAK]] + tail);
      TakeAck(1, [[NAK]] + tail);
      assert Acks(0) + ([[NAK]] + tail) == [[NAK]] + tail;
      ReadMemoryCountStageNak(count, tail);
    }
  }

  lemma ReadMemoryAddressStageAcked(addr: int, count: int, chunks: Script, tail: Script)
    requires 0 <= addr < 0x1_0000_0000 && 1 <= count <= 256
    requires forall i | 0 <= i < |chunks| :: chunks[i] != []
    requires |Flatten(chunks)| == count
    ensures var r := ReadMemoryAddressStage(Acks(2) + chunks + tail, addr, count);
      r.result == Ok(Flatten(chunks)) && r.rest == tail
  {
    var s := Acks(2) + chunks + tail;
    assert s == Acks(2) + (chunks + tail);
    TakeAck(2, chunks + tail);
    assert Acks(1) + (chunks + tail) == [[ACK]] + chunks + tail;
    AddressStepWrites(s, addr);
    CommandStepGate(s, ToBytesBig(addr, 4).value, ADDRESS_REJECTED);
    ReadMemoryCountStageAcked(count, chunks, tail);
  }

  /** The first NAK stops read_memory with the CommandError of the step it
      answers: frames up to that step are written, nothing after it is read. */
  lemma ReadMemoryNak(addr: int, count: int, k: nat, tail: Script)
    requires 0 <= addr < 0x1_0000_0000 && 1 <= count <= 256 && k < 3
    ensures var r := ReadMemoryRun(Acks(k) + [[NAK]] + tail, addr, count);
      && r.result == Err(Command([READ_PROTECTED, ADDRESS_REJECTED, COUNT_REJECTED][k]))
      && r.rest == tail
      && Writes(r.events) == ReadMemoryFrames(addr, count)[..k + 1]
  {
    ReadMemoryNakWrites(addr, count, k, tail);
    ReadMemoryNakResult(addr, count, k, tail);
  }

  lemma ReadMemoryNakWrites(addr: int, count: int, k: nat, tail: Script)
    requires 0 <= addr < 0x1_0000_0000 && 1 <= count <= 256 && k < 3
    ensures Writes(ReadMemoryRun(Acks(k) + [[NAK]] + tail, addr, count).events) == ReadMemoryFrames(addr, count)[..k + 1]
  {
    ReadMemoryWrites(Acks(k) + [[NAK]] + tail, addr, count);
    LeadingAcksBeforeNak(k, tail, 2);
  }

  lemma ReadMemoryNakResult(addr: int, count: int, k: nat, tail: Script)
    requires 0 <= addr < 0x1_0000_0000 && 1 <= count <= 256 && k < 3
    ensures var r := ReadMemoryRun(Acks(k) + [[NAK]] + tail, addr, count);
      r.result == Err(Command([READ_PROTECTED, ADDRESS_REJECTED, COUNT_REJECTED][k])) && r.rest == tail
  {
    var s := Acks(k) + [[NAK]] + tail;
    var cmd := CommandStep(s, [READ_MEMORY], READ_PROTECTED);
    if k == 0 {
      assert cmd.result == Err(Command(READ_PROTECTED)) && cmd.rest == tail by {
        assert s == [[NAK]] + tail;
        TakeNak(tail);
        CommandStepReply(s, [READ_MEMORY], READ_PROTECTED);
      }
    } else {
      var next := Acks(k - 1) + [[NAK]] + tail;
      assert cmd.result.Ok? && cmd.rest == next by {
        assert s == Acks(1) + next;
        TakeAck(1, next);
        assert Acks(0) + next == next;
        CommandStepReply(s, [READ_MEMORY], READ_PROTECTED);
      }
      ReadMemoryAddressStageNak(addr, count, k - 1, tail);
    }
  }

  /** A device that acknowledges all three frames and then delivers `count`
      bytes in non-empty chunks: read_memory returns exactly those bytes,
      after writing the three frames, and reads nothing after them. */
  lemma ReadMemoryAcked(addr: int, count: int, chunks: Script, tail: Script)
    requires 0 <= addr < 0x1_0000_0000 && 1 <= count <= 256
    requires forall i | 0 <= i < |chunks| :: chunks[i] != []
    requires |Flatten(chunks)| == count
    ensures var r := ReadMemoryRun(Acks(3) + chunks + tail, addr, count);
      && r.result == Ok(Flatten(chunks))
      && r.rest == tail
      && Writes(r.events) == ReadMemoryFrames(addr, count)
  {
    ReadMemoryAckedWrites(addr, count, chunks + tail);
    assert Acks(3) + (chunks + tail) == Acks(3) + chunks + tail;
    ReadMemoryAckedResult(addr, count, chunks, tail);
  }

  /** After three ACKs read_memory has written all three frames. */
  lemma ReadMemoryAckedWrites(addr: int, count: int, rest: Script)
    requires 0 <= addr < 0x1_0000_0000 && 1 <= count <= 256
    ensures Writes(ReadMemoryRun(Acks(3) + rest, addr, count).events) == ReadMemoryFrames(addr, count)
  {
    ReadMemoryWrites(Acks(3) + rest, addr, count);
    LeadingAcksOfAcks(3, rest, 2);
    assert ReadMemoryFrames(addr, count)[..3] == ReadMemoryFrames(addr, count);
  }

  /** After three ACKs read_memory returns the payload chunks and reads no further. */
  lemma ReadMemoryAckedResult(addr: int, count: int, chunks: Script, tail: Script)
    requires 0 <= addr < 0x1_0000_0000 && 1 <= count <= 256
    requires forall i | 0 <= i < |chunks| :: chunks[i] != []
    requires |Flatten(chunks)| == count
    ensures var r := ReadMemoryRun(Acks(3) + chunks + tail, addr, count);
      r.result == Ok(Flatten(chunks)) && r.rest == tail
  {
    var s := Acks(3) + chunks + tail;
    var cmd := CommandStep(s, [READ_MEMORY], READ_PROTECTED);
    assert cmd.result.Ok? && cmd.rest == Acks(2) + chunks + tail by {
      assert s == Acks(3) + (chunks + tail);
      TakeAck(3, chunks + tail);
      assert Acks(2) + (chunks + tail) == Acks(2) + chunks + tail;
      CommandStepGate(s, [READ_MEMORY], READ_PROTECTED);
    }
    ReadMemoryAddressStageAcked(addr, count, chunks, tail);
  }

  /** An address outside 32 bits overflows once the command is acknowledged:
      only the command frame is written and nothing more is read. */
  lemma ReadMemoryAddressOverflow(s: Script, addr: int, count: int)
    requires !(0 <= addr < 0x1_0000_0000)
    ensures var r := ReadMemoryRun(s, addr, count);
      LeadingAcks(s, 1) == 1 ==>
        r.result == Err(Overflow) && r.rest == Take(s, 1).1 && Writes(r.events) == [[0x11, 0xEE]]
  {
    var r := ReadMemoryRun(s, addr, count);
    var cmd := CommandStep(s, [READ_MEMORY], READ_PROTECTED);
    if LeadingAcks(s, 1) == 1 {
      assert cmd.result.Ok? && cmd.rest == Take(s, 1).1 && Writes(cmd.events) == [[0x11, 0xEE]] by {
        CommandStepGate(s, [READ_MEMORY], READ_PROTECTED);
        CommandStepWrites(s, [READ_MEMORY], READ_PROTECTED);
        CommandFramesOnWire();
      }
      assert AddressStep(cmd.rest, addr) == Run(Err(Overflow), cmd.rest, []) by {
        AddressStepWrites(cmd.rest, addr);
      }
      assert r == Run(Err(Overflow), cmd.rest, cmd.events + []);
      assert cmd.events + [] == cmd.events;
    }
  }

  /** A count outside 1..256 overflows once the address is acknowledged:
      the command and address frames are written and nothing more is read. */
  lemma ReadMemoryCountOverflow(s: Script, addr: int, count: int)
    requires 0 <= addr < 0x1_0000_0000 && !(1 <= count <= 256)
    ensures var r := ReadMemoryRun(s, addr, count);
      LeadingAcks(s, 2) == 2 ==>
        r.result == Err(Overflow) && r.rest == Take(Take(s, 1).1, 1).1 &&
        Writes(r.events) == [[0x11, 0xEE], AddressFrame(addr)]
  {
    var r := ReadMemoryRun(s, addr, count);
    var cmd := CommandStep(s, [READ_MEMORY], READ_PROTECTED);
    if LeadingAcks(s, 2) == 2 {
      assert cmd.result.Ok? && cmd.rest == Take(s, 1).1 && Writes(cmd.events) == [[0x11, 0xEE]] by {
        CommandStepGate(s, [READ_MEMORY], READ_PROTECTED);
        CommandStepWrites(s, [READ_MEMORY], READ_PROTECTED);
        CommandFramesOnWire();
      }
      var at := AddressStep(cmd.rest, addr);
      assert at.result.Ok? && at.rest == Take(cmd.rest, 1).1 && Writes(at.events) == [AddressFrame(addr)] by {
        AddressStepWrites(cmd.rest, addr);
        CommandStepGate(cmd.rest, ToBytesBig(addr, 4).value, ADDRESS_REJECTED);
      }
      assert LengthStep(at.rest, count, [], COUNT_REJECTED) == Run(Err(Overflow), at.rest, []) by {
        LengthStepWrites(at.rest, count, [], COUNT_REJECTED);
      }
      assert r == Run(Err(Overflow), at.rest, cmd.events + (at.events + []));
      assert at.events + [] == at.events;
      WritesConcat(cmd.events, at.events);
    }
  }

  /** The count stage, when its reply is not an ACK, ends with that reply's
      refusal and reads nothing after it. */
  lemma ReadMemoryCountStageRefused(s: Script, count: int)
    requires 1 <= count <= 256 && LeadingAcks(s, 1) == 0
    ensures var r := ReadMemoryCountStage(s, count);
      r.result == Err(Refusal(Take(s, 1).0, COUNT_REJECTED)) && r.rest == Take(s, 1).1
  {
    LengthStepWrites(s, count, [], COUNT_REJECTED);
    CommandStepRefused(s, [(count - 1) as Byte] + [], COUNT_REJECTED);
  }

  /** The address stage ends at the first reply that is not an ACK, with
      the refusal of the step that reply answers. */
  lemma ReadMemoryAddressStageRefused(s: Script, addr: int, count: int)
    requires 0 <= addr < 0x1_0000_0000 && 1 <= count <= 256 && LeadingAcks(s, 2) < 2
    ensures var k := LeadingAcks(s, 2);
      var r := ReadMemoryAddressStage(s, addr, count);
      var (reply, rest) := Take(Skip(s, k), 1);
      r.result == Err(Refusal(reply, [ADDRESS_REJECTED, COUNT_REJECTED][k])) && r.rest == rest
  {
    AddressStepWrites(s, addr);
    CommandStepRefused(s, ToBytesBig(addr, 4).value, ADDRESS_REJECTED);
    var at := AddressStep(s, addr);
    if at.result.Ok? {
      ReadMemoryCountStageRefused(at.rest, count);
      assert Skip(s, 1) == at.rest;
    }
  }

  /** read_memory ends at the first reply that is not an ACK: a NAK is the
      CommandError of the step it answers, a timeout or an unexpected byte
      is passed on as the ACK read raised it, and nothing after that reply
      is read. */
  lemma ReadMemoryRefused(s: Script, addr: int, count: int)
    requires 0 <= addr < 0x1_0000_0000 && 1 <= count <= 256 && LeadingAcks(s, 3) < 3
    ensures var k := LeadingAcks(s, 3);
      var r := ReadMemoryRun(s, addr, count);
      var (reply, rest) := Take(Skip(s, k), 1);
      r.result == Err(Refusal(reply, [READ_PROTECTED, ADDRESS_REJECTED, COUNT_REJECTED][k])) && r.rest == rest
  {
    CommandStepRefused(s, [READ_MEMORY], READ_PROTECTED);
    var cmd := CommandStep(s, [READ_MEMORY], READ_PROTECTED);
    if cmd.result.Ok? {
      ReadMemoryAddressStageRefused(cmd.rest, addr, count);
      var k := LeadingAcks(cmd.rest, 2);
      assert Skip(s, k + 1) == Skip(cmd.rest, k);
    }
  }

  /** An unexpected byte in reply to the address frame ends read_memory with
      "unexpected response: %02x" for that byte, and nothing more is read. */
  lemma ReadMemoryUnexpectedReply(addr: int, count: int, b: Byte, tail: Script)
    requires 0 <= addr < 0x1_0000_0000 && 1 <= count <= 256 && b != ACK && b != NAK
    ensures var r := ReadMemoryRun([[ACK], [b]] + tail, addr, count);
      r.result == Err(Unexpected(b)) && r.rest == tail
  {
    var s := [[ACK], [b]] + tail;
    assert Take(s, 1) == ([ACK], [[b]] + tail) by { assert s[1..] == [[b]] + tail; }
    assert Take([[b]] + tail, 1) == ([b], tail) by { assert ([[b]] + tail)[1..] == tail; }
    assert LeadingAcks(s, 3) == 1;
    assert Skip(s, 1) == [[b]] + tail;
    ReadMemoryRefused(s, addr, count);
  }

  // ---- write_memory ----

  /** The frames the source's write_memory can send: command and address. */
  function WriteMemoryAsWrittenFrames(addr: int): seq<seq<Byte>>
    requires 0 <= addr < 0x1_0000_0000
  {
    [[0x31, 0xCE], AddressFrame(addr)]
  }

  /** write_memory as written sends the command frame, then the address frame
      only if the command was acknowledged, and never anything of `data`. */
  lemma WriteMemoryAsWrittenWrites(s: Script, addr: int, data: seq<Byte>)
    requires 0 <= addr < 0x1_0000_0000
    ensures Writes(WriteMemoryAsWrittenRun(s, addr, data).events)
         == WriteMemoryAsWrittenFrames(addr)[..1 + LeadingAcks(s, 1)]
  {
    var frames := WriteMemoryAsWrittenFrames(addr);
    var r := WriteMemoryAsWrittenRun(s, addr, data);
    var cmd := CommandStep(s, [WRITE_MEMORY], READ_PROTECTED);
    assert Writes(cmd.events) == [frames[0]] by {
      CommandStepWrites(s, [WRITE_MEMORY], READ_PROTECTED);
      CommandFramesOnWire();
    }
    CommandStepGate(s, [WRITE_MEMORY], READ_PROTECTED);
    if cmd.result.Ok? {
      var more := WriteMemoryAsWrittenAddressStage(cmd.rest, addr);
      assert r.events == cmd.events + more.events;
      assert Writes(more.events) == [frames[1]] by {
        AddressStepWrites(cmd.rest, addr);
      }
      AfterWrites(cmd.events, more);
      assert frames[..2] == frames;
    } else {
      assert r.events == cmd.events;
      assert frames[..1] == [frames[0]];
    }
  }

  /** write_memory as written never succeeds: with the command and the
      address acknowledged it stops at the unbound `count`; an address
      outside 32 bits overflows exactly when the command is acknowledged;
      otherwise it fails with a BootloaderError. */
  lemma WriteMemoryAsWrittenOutcome(s: Script, addr: int, data: seq<Byte>)
    ensures var r := WriteMemoryAsWrittenRun(s, addr, data);
      && r.result.Err?
      && (0 <= addr < 0x1_0000_0000 ==>
            (r.result.error == NameUnbound("count") <==> LeadingAcks(s, 2) == 2) &&
            (LeadingAcks(s, 2) < 2 ==> r.result.error.IsBootloaderError()))
      && (!(0 <= addr < 0x1_0000_0000) ==>
            (r.result.error == Overflow <==> LeadingAcks(s, 1) == 1) &&
            (LeadingAcks(s, 1) < 1 ==> r.result.error.IsBootloaderError()))
  {
    var cmd := CommandStep(s, [WRITE_MEMORY], READ_PROTECTED);
    CommandStepReply(s, [WRITE_MEMORY], READ_PROTECTED);
    AddressStepWrites(cmd.rest, addr);
    if cmd.result.Ok? && 0 <= addr < 0x1_0000_0000 {
      CommandStepReply(cmd.rest, ToBytesBig(addr, 4).value, ADDRESS_REJECTED);
    }
  }

  /** The frames the intended write_memory checksums and sends. */
  function WriteMemoryData(addr: int, data: seq<Byte>): seq<seq<Byte>>
    requires 0 <= addr < 0x1_0000_0000 && 1 <= |data| <= 256
  {
    [Framed([WRITE_MEMORY]), Framed(ToBytesBig(addr, 4).value), Framed([(|data| - 1) as Byte] + data)]
  }

  lemma WriteMemoryAddressStageWrites(s: Script, addr: int, data: seq<Byte>)
    requires 0 <= addr < 0x1_0000_0000 && 1 <= |data| <= 256
    ensures Writes(WriteMemoryAddressStage(s, addr, data).events)
      == [Framed(ToBytesBig(addr, 4).value)] +
         (if LeadingAcks(s, 1) == 1 then [Framed([(|data| - 1) as Byte] + data)] else [])
  {
    AddressStepWrites(s, addr);
    CommandStepGate(s, ToBytesBig(addr, 4).value, ADDRESS_REJECTED);
    var at := AddressStep(s, addr);
    if at.result.Ok? {
      var more := LengthStep(at.rest, |data|, data, CHECKSUM_ERROR);
      LengthStepWrites(at.rest, |data|, data, CHECKSUM_ERROR);
      AfterWrites(at.events, more);
    }
  }

  lemma WriteMemoryWritesFramed(s: Script, addr: int, data: seq<Byte>)
    requires 0 <= addr < 0x1_0000_0000 && 1 <= |data| <= 256
    ensures Writes(WriteMemoryRun(s, addr, data).events)
         == WriteMemoryData(addr, data)[..1 + LeadingAcks(s, 2)]
  {
    var frames := WriteMemoryData(addr, data);
    var r := WriteMemoryRun(s, addr, data);
    var cmd := CommandStep(s, [WRITE_MEMORY], READ_PROTECTED);
    CommandStepWrites(s, [WRITE_MEMORY], READ_PROTECTED);
    CommandStepGate(s, [WRITE_MEMORY], READ_PROTECTED);
    var k := LeadingAcks(cmd.rest, 1);
    SliceOfThree(frames[0], frames[1], frames[2], k);
    if cmd.result.Ok? {
      var more := WriteMemoryAddressStage(cmd.rest, addr, data);
      assert r.events == cmd.events + more.events;
      assert LeadingAcks(s, 2) == 1 + k;
      WriteMemoryAddressStageWrites(cmd.rest, addr, data);
      AfterWrites(cmd.events, more);
    } else {
      assert r.events == cmd.events;
      assert LeadingAcks(s, 2) == 0;
    }
  }

  /** The intended write_memory writes its three frames in order, each one
      only after the frame before it was acknowledged. */
  lemma WriteMemoryWrites(s: Script, addr: int, data: seq<Byte>)
    requires 0 <= addr < 0x1_0000_0000 && 1 <= |data| <= 256
    ensures Writes(WriteMemoryRun(s, addr, data).events)
         == WriteMemoryFrames(addr, data)[..1 + LeadingAcks(s, 2)]
  {
    WriteMemoryWritesFramed(s, addr, data);
    WriteFramesOnWire(addr, data);
    LengthByte(|data|);
    assert WriteMemoryData(addr, data) == WriteMemoryFrames(addr, data);
  }

  /** The data frame is checked as a whole: its bytes XOR to zero. */
  lemma WriteMemoryDataFrameChecks(addr: int, data: seq<Byte>)
    requires 0 <= addr < 0x1_0000_0000 && 1 <= |data| <= 256
    ensures var frame := WriteMemoryFrames(addr, data)[2];
      |frame| == |data| + 2 && frame[0] == (|data| - 1) as Byte &&
      frame[1..|data| + 1] == data && XorAll(frame) == 0
  {
    var body := [(|data| - 1) as Byte] + data;
    FramedXor(body);
    assert Framed(body) == WriteMemoryFrames(addr, data)[2];
  }

  lemma WriteMemoryAddressStageOutcome(s: Script, addr: int, data: seq<Byte>)
    requires 0 <= addr < 0x1_0000_0000 && 1 <= |data| <= 256
    ensures var r := WriteMemoryAddressStage(s, addr, data);
      && (r.result.Ok? <==> LeadingAcks(s, 2) == 2)
      && (r.result.Err? ==> r.result.error.IsBootloaderError())
  {
    AddressStepWrites(s, addr);
    CommandStepReply(s, ToBytesBig(addr, 4).value, ADDRESS_REJECTED);
    var at := AddressStep(s, addr);
    if at.result.Ok? {
      LengthStepWrites(at.rest, |data|, data, CHECKSUM_ERROR);
      CommandStepReply(at.rest, [(|data| - 1) as Byte] + data, CHECKSUM_ERROR);
    }
  }

  /** The intended write_memory succeeds exactly when all three frames are
      acknowledged, and otherwise fails with a BootloaderError. */
  lemma WriteMemoryOutcome(s: Script, addr: int, data: seq<Byte>)
    requires 0 <= addr < 0x1_0000_0000 && 1 <= |data| <= 256
    ensures var r := WriteMemoryRun(s, addr, data);
      && (r.result.Ok? <==> LeadingAcks(s, 3) == 3)
      && (r.result.Err? ==> r.result.error.IsBootloaderError())
  {
    CommandStepReply(s, [WRITE_MEMORY], READ_PROTECTED);
    var cmd := CommandStep(s, [WRITE_MEMORY], READ_PROTECTED);
    if cmd.result.Ok? {
      WriteMemoryAddressStageOutcome(cmd.rest, addr, data);
    }
  }

  /** Data of no bytes or of more than 256 overflows the length byte once the
      address is acknowledged: the data frame is never written. */
  lemma WriteMemoryLengthOverflow(s: Script, addr: int, data: seq<Byte>)
    requires 0 <= addr < 0x1_0000_0000 && !(1 <= |data| <= 256)
    ensures var r := WriteMemoryRun(s, addr, data);
      LeadingAcks(s, 2) == 2 ==>
        r.result == Err(Overflow) && r.rest == Take(Take(s, 1).1, 1).1 &&
        Writes(r.events) == [[0x31, 0xCE], AddressFrame(addr)]
  {
    var r := WriteMemoryRun(s, addr, data);
    var cmd := CommandStep(s, [WRITE_MEMORY], READ_PROTECTED);
    if LeadingAcks(s, 2) == 2 {
      assert cmd.result.Ok? && cmd.rest == Take(s, 1).1 && Writes(cmd.events) == [[0x31, 0xCE]] by {
        CommandStepGate(s, [WRITE_MEMORY], READ_PROTECTED);
        CommandStepWrites(s, [WRITE_MEMORY], READ_PROTECTED);
        CommandFramesOnWire();
      }
      var at := AddressStep(cmd.rest, addr);
      assert at.result.Ok? && at.rest == Take(cmd.rest, 1).1 && Writes(at.events) == [AddressFrame(addr)] by {
        AddressStepWrites(cmd.rest, addr);
        CommandStepGate(cmd.rest, ToBytesBig(addr, 4).value, ADDRESS_REJECTED);
      }
      assert LengthStep(at.rest, |data|, data, CHECKSUM_ERROR) == Run(Err(Overflow), at.rest, []) by {
        LengthStepWrites(at.rest, |data|, data, CHECKSUM_ERROR);
      }
      assert r == Run(Err(Overflow), at.rest, cmd.events + (at.events + []));
      assert at.events + [] == at.events;
      WritesConcat(cmd.events, at.events);
    }
  }

  /** An address outside 32 bits overflows in both versions of write_memory
      once the command is acknowledged: only [0x31, 0xCE] is written, and
      nothing after the command's reply is read. */
  lemma WriteMemoryAddressOverflow(s: Script, addr: int, data: seq<Byte>)
    requires !(0 <= addr < 0x1_0000_0000)
    ensures var r := WriteMemoryRun(s, addr, data);
      LeadingAcks(s, 1) == 1 ==>
        r.result == Err(Overflow) && r.rest == Take(s, 1).1 && Writes(r.events) == [[0x31, 0xCE]]
    ensures var r := WriteMemoryAsWrittenRun(s, addr, data);
      LeadingAcks(s, 1) == 1 ==>
        r.result == Err(Overflow) && r.rest == Take(s, 1).1 && Writes(r.events) == [[0x31, 0xCE]]
  {
    var cmd := CommandStep(s, [WRITE_MEMORY], READ_PROTECTED);
    if LeadingAcks(s, 1) == 1 {
      assert cmd.result.Ok? && cmd.rest == Take(s, 1).1 && Writes(cmd.events) == [[0x31, 0xCE]] by {
        CommandStepGate(s, [WRITE_MEMORY], READ_PROTECTED);
        CommandStepWrites(s, [WRITE_MEMORY], READ_PROTECTED);
        CommandFramesOnWire();
      }
      assert AddressStep(cmd.rest, addr) == Run(Err(Overflow), cmd.rest, []) by {
        AddressStepWrites(cmd.rest, addr);
      }
      assert cmd.events + [] == cmd.events;
    }
  }

  /** A device that acknowledges every frame tells the two versions apart:
      the source's write_memory stops with NameError after two frames and
      leaves the device's third ACK unread, the intended one writes the data
      frame, reads that ACK and succeeds. */
  lemma WriteMemoryAllAcked(addr: int, data: seq<Byte>, tail: Script)
    requires 0 <= addr < 0x1_0000_0000 && 1 <= |data| <= 256
    ensures var asWritten := WriteMemoryAsWrittenRun(Acks(3) + tail, addr, data);
      && asWritten.result == Err(NameUnbound("count"))
      && Writes(asWritten.events) == WriteMemoryFrames(addr, data)[..2]
      && asWritten.rest == Acks(1) + tail
    ensures var intended := WriteMemoryRun(Acks(3) + tail, addr, data);
      && intended.result == Ok(())
      && Writes(intended.events) == WriteMemoryFrames(addr, data)
      && intended.rest == tail
  {
    var s := Acks(3) + tail;
    LeadingAcksOfAcks(3, tail, 3);
    assert Writes(WriteMemoryAsWrittenRun(s, addr, data).events) == WriteMemoryFrames(addr, data)[..2] by {
      WriteMemoryAsWrittenWrites(s, addr, data);
      WriteFramesOnWire(addr, data);
    }
    assert Writes(WriteMemoryRun(s, addr, data).events) == WriteMemoryFrames(addr, data) by {
      WriteMemoryWrites(s, addr, data);
      assert WriteMemoryFrames(addr, data)[..3] == WriteMemoryFrames(addr, data);
    }
    WriteMemoryAsWrittenOutcome(s, addr, data);
    WriteMemoryOutcome(s, addr, data);
    var s1 := Acks(2) + tail;
    var s2 := Acks(1) + tail;
    assert Take(s, 1) == ([ACK], s1) by { TakeAck(3, tail); }
    assert Take(s1, 1) == ([ACK], s2) by { TakeAck(2, tail); }
    assert Take(s2, 1) == ([ACK], tail) by { TakeAck(1, tail); assert Acks(0) + tail == tail; }
    CommandStepGate(s, [WRITE_MEMORY], READ_PROTECTED);
    AddressStepWrites(s1, addr);
    CommandStepGate(s1, ToBytesBig(addr, 4).value, ADDRESS_REJECTED);
    LengthStepWrites(s2, |data|, data, CHECKSUM_ERROR);
    CommandStepGate(s2, [(|data| - 1) as Byte] + data, CHECKSUM_ERROR);
  }

  lemma WriteMemoryAddressStageNak(addr: int, data: seq<Byte>, k: nat, tail: Script)
    requires 0 <= addr < 0x1_0000_0000 && 1 <= |data| <= 256 && k < 2
    ensures var r := WriteMemoryAddressStage(Acks(k) + [[NAK]] + tail, addr, data);
      && r.result == Err(Command(if k == 0 then ADDRESS_REJECTED else CHECKSUM_ERROR))
      && r.rest == tail
  {
    var s := Acks(k) + [[NAK]] + tail;
    AddressStepWrites(s, addr);
    CommandStepReply(s, ToBytesBig(addr, 4).value, ADDRESS_REJECTED);
    if k == 0 {
      assert s == [[NAK]] + tail;
      TakeNak(tail);
    } else {
      assert s == Acks(1) + ([[NAK]] + tail);
      TakeAck(1, [[NAK]] + tail);
      assert Acks(0) + ([[NAK]] + tail) == [[NAK]] + tail;
      var at := AddressStep(s, addr);
      TakeNak(tail);
      LengthStepWrites(at.rest, |data|, data, CHECKSUM_ERROR);
      CommandStepReply(at.rest, [(|data| - 1) as Byte] + data, CHECKSUM_ERROR);
    }
  }

  /** The first NAK stops the intended write_memory with the CommandError of
      the step it answers; a NAK of the data frame is "checksum error". */
  lemma WriteMemoryNak(addr: int, data: seq<Byte>, k: nat, tail: Script)
    requires 0 <= addr < 0x1_0000_0000 && 1 <= |data| <= 256 && k < 3
    ensures var r := WriteMemoryRun(Acks(k) + [[NAK]] + tail, addr, data);
      && r.result == Err(Command([READ_PROTECTED, ADDRESS_REJECTED, CHECKSUM_ERROR][k]))
      && r.rest == tail
      && Writes(r.events) == WriteMemoryFrames(addr, data)[..k + 1]
  {
    WriteMemoryNakWrites(addr, data, k, tail);
    WriteMemoryNakResult(addr, data, k, tail);
  }

  lemma WriteMemoryNakWrites(addr: int, data: seq<Byte>, k: nat, tail: Script)
    requires 0 <= addr < 0x1_0000_0000 && 1 <= |data| <= 256 && k < 3
    ensures Writes(WriteMemoryRun(Acks(k) + [[NAK]] + tail, addr, data).events) == WriteMemoryFrames(addr, data)[..k + 1]
  {
    WriteMemoryWrites(Acks(k) + [[NAK]] + tail, addr, data);
    LeadingAcksBeforeNak(k, tail, 2);
  }

  lemma WriteMemoryNakResult(addr: int, data: seq<Byte>, k: nat, tail: Script)
    requires 0 <= addr < 0x1_0000_0000 && 1 <= |data| <= 256 && k < 3
    ensures var r := WriteMemoryRun(Acks(k) + [[NAK]] + tail, addr, data);
      r.result == Err(Command([READ_PROTECTED, ADDRESS_REJECTED, CHECKSUM_ERROR][k])) && r.rest == tail
  {
    var s := Acks(k) + [[NAK]] + tail;
    var cmd := CommandStep(s, [WRITE_MEMORY], READ_PROTECTED);
    if k == 0 {
      assert cmd.result == Err(Command(READ_PROTECTED)) && cmd.rest == tail by {
        assert s == [[NAK]] + tail;
        TakeNak(tail);
        CommandStepReply(s, [WRITE_MEMORY], READ_PROTECTED);
      }
    } else {
      var next := Acks(k - 1) + [[NAK]] + tail;
      assert cmd.result.Ok? && cmd.rest == next by {
        assert s == Acks(1) + next;
        TakeAck(1, next);
        assert Acks(0) + next == next;
        CommandStepReply(s, [WRITE_MEMORY], READ_PROTECTED);
      }
      WriteMemoryAddressStageNak(addr, data, k - 1, tail);
    }
  }

  /** The source's write_memory, when the command or the address is not
      ACKed, ends with the refusal of that step and reads nothing after it. */
  lemma WriteMemoryAsWrittenRefused(s: Script, addr: int, data: seq<Byte>)
    requires 0 <= addr < 0x1_0000_0000 && LeadingAcks(s, 2) < 2
    ensures var k := LeadingAcks(s, 2);
      var r := WriteMemoryAsWrittenRun(s, addr, data);
      var (reply, rest) := Take(Skip(s, k), 1);
      r.result == Err(Refusal(reply, [READ_PROTECTED, ADDRESS_REJECTED][k])) && r.rest == rest
  {
    CommandStepRefused(s, [WRITE_MEMORY], READ_PROTECTED);
    var cmd := CommandStep(s, [WRITE_MEMORY], READ_PROTECTED);
    if cmd.result.Ok? {
      AddressStepWrites(cmd.rest, addr);
      CommandStepRefused(cmd.rest, ToBytesBig(addr, 4).value, ADDRESS_REJECTED);
      assert Skip(s, 1) == cmd.rest;
    }
  }

  /** The intended address stage ends at the first reply that is not an
      ACK, with the refusal of the step that reply answers. */
  lemma WriteMemoryAddressStageRefused(s: Script, addr: int, data: seq<Byte>)
    requires 0 <= addr < 0x1_0000_0000 && 1 <= |data| <= 256 && LeadingAcks(s, 2) < 2
    ensures var k := LeadingAcks(s, 2);
      var r := WriteMemoryAddressStage(s, addr, data);
      var (reply, rest) := Take(Skip(s, k), 1);
      r.result == Err(Refusal(reply, [ADDRESS_REJECTED, CHECKSUM_ERROR][k])) && r.rest == rest
  {
    AddressStepWrites(s, addr);
    CommandStepRefused(s, ToBytesBig(addr, 4).value, ADDRESS_REJECTED);
    var at := AddressStep(s, addr);
    if at.result.Ok? {
      LengthStepWrites(at.rest, |data|, data, CHECKSUM_ERROR);
      CommandStepRefused(at.rest, [(|data| - 1) as Byte] + data, CHECKSUM_ERROR);
      assert Skip(s, 1) == at.rest;
    }
  }

  /** The intended write_memory ends at the first reply that is not an ACK:
      a NAK is the CommandError of the step it answers ("checksum error" for
      the data frame), a timeout or an unexpected byte is passed on as the
      ACK read raised it, and nothing after that reply is read. */
  lemma WriteMemoryRefused(s: Script, addr: int, data: seq<Byte>)
    requires 0 <= addr < 0x1_0000_0000 && 1 <= |data| <= 256 && LeadingAcks(s, 3) < 3
    ensures var k := LeadingAcks(s, 3);
      var r := WriteMemoryRun(s, addr, data);
      var (reply, rest) := Take(Skip(s, k), 1);
      r.result == Err(Refusal(reply, [READ_PROTECTED, ADDRESS_REJECTED, CHECKSUM_ERROR][k])) && r.rest == rest
  {
    CommandStepRefused(s, [WRITE_MEMORY], READ_PROTECTED);
    var cmd := CommandStep(s, [WRITE_MEMORY], READ_PROTECTED);
    if cmd.result.Ok? {
      WriteMemoryAddressStageRefused(cmd.rest, addr, data);
      var k := LeadingAcks(cmd.rest, 2);
      assert Skip(s, k + 1) == Skip(cmd.rest, k);
    }
  }

  // ---- readout_protect and readout_unprotect ----

  /** A readout command writes its one frame. A NAK of it is the command's
      CommandError; after an ACK one more byte is read with the long timeout,
      and any ACK or NAK there succeeds: only a timeout or an unexpected byte
      fails. */
  lemma ReadoutOutcome(s: Script, command: Byte, msg: string)
    ensures var r := ReadoutRun(s, command, msg);
      var (reply, rest) := Take(s, 1);
      var (done, after) := Take(rest, 1);
      && Writes(r.events) == [Framed([command])]
      && (reply == [NAK] ==> r.result == Err(Command(msg)) && r.rest == rest)
      && (AckResult(reply).Err? ==> r.result == Err(AckResult(reply).error) && r.rest == rest)
      && (reply == [ACK] ==>
            && r.events == [Wrote(Framed([command])), Got(1, DEFAULT_TIMEOUT, reply), Got(1, LONG_TIMEOUT, done)]
            && r.rest == after
            && (r.result == Ok(()) <==> AckResult(done).Ok?)
            && (r.result.Err? ==> r.result.error == AckResult(done).error))
      && (r.result.Err? ==> r.result.error.IsBootloaderError())
  {
    var r := ReadoutRun(s, command, msg);
    var cmd := CommandStep(s, [command], msg);
    CommandStepWrites(s, [command], msg);
    CommandStepReply(s, [command], msg);
    SendDataCheckAckWritesFrame(s, [command]);
    if cmd.result.Ok? {
      var done := ReceiveAckRun(cmd.rest, LONG_TIMEOUT);
      assert r.events == cmd.events + done.events;
      WritesConcat(cmd.events, done.events);
    }
  }

  /** readout_protect sends [0x82, 0x7D]; a NAK of it is "read protection is
      already enabled". */
  lemma ReadoutProtectOnWire(s: Script)
    ensures var r := ReadoutProtectRun(s);
      && Writes(r.events) == [[0x82, 0x7D]]
      && (Take(s, 1).0 == [NAK] ==> r.result == Err(Command("read protection is already enabled")))
  {
    ReadoutOutcome(s, READOUT_PROTECT, ALREADY_PROTECTED);
    CommandFramesOnWire();
  }

  /** readout_unprotect sends [0x92, 0x6D]; a NAK of it is "something went wrong". */
  lemma ReadoutUnprotectOnWire(s: Script)
    ensures var r := ReadoutUnprotectRun(s);
      && Writes(r.events) == [[0x92, 0x6D]]
      && (Take(s, 1).0 == [NAK] ==> r.result == Err(Command("something went wrong")))
  {
    ReadoutOutcome(s, READOUT_UNPROTECT, UNPROTECT_FAILED);
    CommandFramesOnWire();
  }

  /** The completion byte's verdict is discarded: a NAK after the accepted
      command succeeds as an ACK would, while an empty completion read
      fails with a timeout. */
  lemma ReadoutCompletion(command: Byte, msg: string, tail: Script)
    ensures var r := ReadoutRun([[ACK], [NAK]] + tail, command, msg);
      r.result == Ok(()) && r.rest == tail && r.events[2] == Got(1, LONG_TIMEOUT, [NAK])
    ensures var r := ReadoutRun([[ACK], [ACK]] + tail, command, msg);
      r.result == Ok(()) && r.rest == tail
    ensures ReadoutRun([[ACK]], command, msg).result == Err(Timeout("receiving ACK"))
  {
    var s1 := [[ACK], [NAK]] + tail;
    var s2 := [[ACK], [ACK]] + tail;
    assert s1[0] == [ACK] && s1[1..] == [[NAK]] + tail;
    assert s2[0] == [ACK] && s2[1..] == [[ACK]] + tail;
    TakeNak(tail);
    assert ([[ACK]] + tail)[1..] == tail;
    assert [[ACK]][1..] == [];
  }
}
