/** The Bootloader client: each method drives the port step by step and is
    proved to do exactly what its run function in Exchanges or Session says,
    against whatever the device sends. */
module Stm32 {
  import opened Results
  import opened Codec
  import opened Transport
  import opened Exchanges
  import opened Session

  /** What remains of a receive once `buffer` was collected by `events`. */
  function Continue(buffer: seq<Byte>, events: seq<Event>, r: Run<seq<Byte>>): Run<seq<Byte>> {
    Run(if r.result.Ok? then Ok(buffer + r.result.value) else r.result, r.rest, events + r.events)
  }

  /** One non-empty read moves its chunk from the rest of the receive to
      what was collected, keeping the receive as a whole the same. */
  lemma ContinueRead(buffer: seq<Byte>, events: seq<Event>, s: Script, count: nat)
    requires count > 0 && Take(s, count).0 != []
    ensures var (chunk, rest) := Take(s, count);
      Continue(buffer, events, ReceiveBytesRun(s, count))
        == Continue(buffer + chunk, events + [Got(count, DEFAULT_TIMEOUT, chunk)],
                    ReceiveBytesRun(rest, count - |chunk|))
  {
    var (chunk, rest) := Take(s, count);
    var more := ReceiveBytesRun(rest, count - |chunk|);
    var read := Got(count, DEFAULT_TIMEOUT, chunk);
    assert events + ([read] + more.events) == events + [read] + more.events;
    if more.result.Ok? {
      assert buffer + (chunk + more.result.value) == buffer + chunk + more.result.value;
    }
  }

  /** Logging `b` and then `c` after `a` is logging `b + c` after it. */
  lemma ConcatAssoc<T>(a: seq<T>, b: seq<T>, c: seq<T>)
    ensures a + b + c == a + (b + c)
  {
  }

  class Bootloader {
    /** The serial interface the client owns. */
    const port: Port

    constructor (port: Port)
      ensures this.port == port
    {
      this.port := port;
    }

    /** _receive_bytes: read until `count` bytes have arrived; an empty read
        is a timeout. */
    method ReceiveBytes(count: int) returns (r: Result<seq<Byte>>)
      modifies port
      ensures var run := ReceiveBytesRun(old(port.pending), if count < 0 then 0 else count);
        r == run.result && port.pending == run.rest && port.trace == old(port.trace) + run.events
    {
      ghost var whole := ReceiveBytesRun(port.pending, if count < 0 then 0 else count);
      ghost var done: seq<Event> := [];
      var buffer: seq<Byte> := [];
      var remaining := count;
      assert whole.events == [] + whole.events;
      assert whole.result.Ok? ==> whole.result.value == [] + whole.result.value;
      while remaining > 0
        invariant port.trace == old(port.trace) + done
        invariant whole == Continue(buffer, done, ReceiveBytesRun(port.pending, if remaining < 0 then 0 else remaining))
        decreases remaining
      {
        ghost var before := port.pending;
        var chunk := port.Read(remaining, DEFAULT_TIMEOUT);
        if chunk == [] {
          assert ReceiveBytesRun(before, remaining) == Run(Err(Timeout("receiving data")), port.pending, [Got(remaining, DEFAULT_TIMEOUT, [])]);
          return Err(Timeout("receiving data"));
        }
        ContinueRead(buffer, done, before, remaining);
        done := done + [Got(remaining, DEFAULT_TIMEOUT, chunk)];
        buffer := buffer + chunk;
        remaining := remaining - |chunk|;
      }
      assert buffer + [] == buffer && done + [] == done;
      return Ok(buffer);
    }

    /** _receive_ack(timeout): one byte, judged ACK, NAK or unexpected; no
        timeout given means the default one. */
    method ReceiveAck(timeout: Option<nat>) returns (r: Result<bool>)
      modifies port
      ensures var run := ReceiveAckRun(old(port.pending), if timeout.None? then DEFAULT_TIMEOUT else timeout.value);
        r == run.result && port.pending == run.rest && port.trace == old(port.trace) + run.events
    {
      var t := if timeout.None? then DEFAULT_TIMEOUT else timeout.value;
      var ack := port.Read(1, t);
      if ack == [] {
        return Err(Timeout("receiving ACK"));
      }
      if ack[0] == ACK {
        return Ok(true);
      }
      if ack[0] == NAK {
        return Ok(false);
      }
      return Err(Unexpected(ack[0]));
    }

    /** _send_data_check_ack(data): write the frame with its checksum, then
        read its ACK. */
    method SendDataCheckAck(data: seq<Byte>) returns (r: Result<bool>)
      modifies port
      ensures var run := SendDataCheckAckRun(old(port.pending), data);
        r == run.result && port.pending == run.rest && port.trace == old(port.trace) + run.events
    {
      var frame := AppendChecksum(data);
      port.Write(frame);
      r := ReceiveAck(None);
    }

    /** _receive_data_check_ack(count): a payload, then an ACK that must not
        be a NAK. */
    method ReceiveDataCheckAck(count: int) returns (r: Result<seq<Byte>>)
      modifies port
      ensures var run := ReceiveDataCheckAckRun(old(port.pending), if count < 0 then 0 else count);
        r == run.result && port.pending == run.rest && port.trace == old(port.trace) + run.events
    {
      var data := ReceiveBytes(count);
      if data.Err? {
        return data;
      }
      var ack := ReceiveAck(None);
      match ack
      case Err(e) => return Err(e);
      case Ok(acked) =>
        if !acked {
          return Err(Protocol("expected ACK; got NAK instead"));
        }
      return data;
    }

    /** _do_autobaud: the sync byte, then its ACK. */
    method DoAutobaud() returns (r: Result<()>)
      modifies port
      ensures var run := DoAutobaudRun(old(port.pending));
        r == run.result && port.pending == run.rest && port.trace == old(port.trace) + run.events
    {
      port.Write([SYNC]);
      var ack := ReceiveAck(None);
      match ack
      case Err(e) => return Err(e);
      case Ok(acked) =>
        if !acked {
          return Err(Protocol(AUTOBAUD_FAILED));
        }
      return Ok(());
    }

    /** setup: flush the port, then autobaud. */
    method Setup() returns (r: Result<()>)
      modifies port
      ensures var run := SetupRun(old(port.pending));
        r == run.result && port.pending == run.rest && port.trace == old(port.trace) + run.events
    {
      port.Flush();
      r := DoAutobaud();
    }

    /** One step of a command: send `data`; a NAK is CommandError(msg). */
    method Step(data: seq<Byte>, msg: string) returns (r: Result<()>)
      modifies port
      ensures var run := CommandStep(old(port.pending), data, msg);
        r == run.result && port.pending == run.rest && port.trace == old(port.trace) + run.events
    {
      var ok := SendDataCheckAck(data);
      match ok
      case Err(e) => return Err(e);
      case Ok(acked) =>
        if !acked {
          return Err(Command(msg));
        }
      return Ok(());
    }

    /** read_memory(addr, count): the command step, then the rest. */
    method ReadMemory(addr: int, count: int) returns (r: Result<seq<Byte>>)
      modifies port
      ensures var run := ReadMemoryRun(old(port.pending), addr, count);
        r == run.result && port.pending == run.rest && port.trace == old(port.trace) + run.events
    {
      ghost var s0, t0 := port.pending, port.trace;
      var cmd := Step([READ_MEMORY], READ_PROTECTED);
      ghost var c := CommandStep(s0, [READ_MEMORY], READ_PROTECTED);
      if cmd.Err? {
        return Err(cmd.error);
      }
      r := ReadMemoryFromAddress(addr, count);
      ConcatAssoc(t0, c.events, ReadMemoryAddressStage(c.rest, addr, count).events);
    }

    /** read_memory once the command is acknowledged: the address step, then the rest. */
    method ReadMemoryFromAddress(addr: int, count: int) returns (r: Result<seq<Byte>>)
      modifies port
      ensures var run := ReadMemoryAddressStage(old(port.pending), addr, count);
        r == run.result && port.pending == run.rest && port.trace == old(port.trace) + run.events
    {
      var address := ToBytesBig(addr, 4);
      if address.None? {
        assert old(port.trace) + [] == old(port.trace);
        return Err(Overflow);
      }
      ghost var s0, t0 := port.pending, port.trace;
      var at := Step(address.value, ADDRESS_REJECTED);
      if at.Err? {
        return Err(at.error);
      }
      ghost var a := CommandStep(s0, address.value, ADDRESS_REJECTED);
      r := ReadMemoryFromCount(count);
      ConcatAssoc(t0, a.events, ReadMemoryCountStage(a.rest, count).events);
    }

    /** read_memory once the address is acknowledged: the count step, then
        the payload, with no ACK read after it. */
    method ReadMemoryFromCount(count: int) returns (r: Result<seq<Byte>>)
      modifies port
      ensures var run := ReadMemoryCountStage(old(port.pending), count);
        r == run.result && port.pending == run.rest && port.trace == old(port.trace) + run.events
    {
      var n := ToBytesBig(count - 1, 1);
      if n.None? {
        assert old(port.trace) + [] == old(port.trace);
        return Err(Overflow);
      }
      assert n.value + [] == n.value;
      ghost var s0, t0 := port.pending, port.trace;
      var len := Step(n.value, COUNT_REJECTED);
      if len.Err? {
        return Err(len.error);
      }
      ghost var l := CommandStep(s0, n.value, COUNT_REJECTED);
      r := ReceiveBytes(count);
      ConcatAssoc(t0, l.events, ReceiveBytesRun(l.rest, count).events);
    }

    /** write_memory(addr, data) as the source has it: the third step
        evaluates the unbound name `count`. */
    method WriteMemoryAsWritten(addr: int, data: seq<Byte>) returns (r: Result<()>)
      modifies port
      ensures var run := WriteMemoryAsWrittenRun(old(port.pending), addr, data);
        r == run.result && port.pending == run.rest && port.trace == old(port.trace) + run.events
    {
      var cmd := Step([WRITE_MEMORY], READ_PROTECTED);
      if cmd.Err? {
        return cmd;
      }
      var address := ToBytesBig(addr, 4);
      if address.None? {
        return Err(Overflow);
      }
      var at := Step(address.value, ADDRESS_REJECTED);
      if at.Err? {
        return at;
      }
      return Err(NameUnbound("count"));
    }

    /** write_memory(addr, data) as intended: the length byte and the data
        go in one frame under one checksum. */
    method WriteMemory(addr: int, data: seq<Byte>) returns (r: Result<()>)
      modifies port
      ensures var run := WriteMemoryRun(old(port.pending), addr, data);
        r == run.result && port.pending == run.rest && port.trace == old(port.trace) + run.events
    {
      var cmd := Step([WRITE_MEMORY], READ_PROTECTED);
      if cmd.Err? {
        return cmd;
      }
      var address := ToBytesBig(addr, 4);
      if address.None? {
        return Err(Overflow);
      }
      var at := Step(address.value, ADDRESS_REJECTED);
      if at.Err? {
        return at;
      }
      ghost var t2 := port.trace;
      var n := ToBytesBig(|data| - 1, 1);
      if n.None? {
        assert t2 + [] == t2;
        return Err(Overflow);
      }
      r := Step(n.value + data, CHECKSUM_ERROR);
    }

    /** readout_protect: the command, then the completion ACK with the long
        timeout, whose verdict is not checked. */
    method ReadoutProtect() returns (r: Result<()>)
      modifies port
      ensures var run := ReadoutProtectRun(old(port.pending));
        r == run.result && port.pending == run.rest && port.trace == old(port.trace) + run.events
    {
      var cmd := Step([READOUT_PROTECT], ALREADY_PROTECTED);
      if cmd.Err? {
        return cmd;
      }
      var done := ReceiveAck(Some(LONG_TIMEOUT));
      if done.Err? {
        return Err(done.error);
      }
      return Ok(());
    }

    /** readout_unprotect: as readout_protect, with its own command and message. */
    method ReadoutUnprotect() returns (r: Result<()>)
      modifies port
      ensures var run := ReadoutUnprotectRun(old(port.pending));
        r == run.result && port.pending == run.rest && port.trace == old(port.trace) + run.events
    {
      var cmd := Step([READOUT_UNPROTECT], UNPROTECT_FAILED);
      if cmd.Err? {
        return cmd;
      }
      var done := ReceiveAck(Some(LONG_TIMEOUT));
      if done.Err? {
        return Err(done.error);
      }
      return Ok(());
    }
  }
}
