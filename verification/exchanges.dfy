/** The frame exchanger: single-byte ACK/NAK reads, fixed-length receives,
    and the two helpers that pair a send or a receive with an ACK check.
    Each exchange is a function of the device script it runs against,
    giving its result, the script left over and the events on the port. */
module Exchanges {
  import opened Results
  import opened Codec
  import opened Transport

  const ACK: Byte := 0x79
  const NAK: Byte := 0x1F
  /** The read timeout used when a caller names none. */
  const DEFAULT_TIMEOUT: nat := 250

  /** One exchange run against a script. */
  datatype Run<+T> = Run(result: Result<T>, rest: Script, events: seq<Event>)

  /** `r` preceded by `events` that happened before it. */
  function After<T>(events: seq<Event>, r: Run<T>): Run<T> {
    Run(r.result, r.rest, events + r.events)
  }

  /** How _receive_ack judges the reply to a one-byte read. */
  function AckResult(reply: seq<Byte>): (r: Result<bool>)
    ensures r == Ok(true) <==> reply != [] && reply[0] == ACK
    ensures r == Ok(false) <==> reply != [] && reply[0] == NAK
    ensures r.Err? && r.error.Timeout? <==> reply == []
    ensures r.Err? ==>
      if reply == [] then r.error == Timeout("receiving ACK") else r.error == Unexpected(reply[0])
  {
    if reply == [] then Err(Timeout("receiving ACK"))
    else if reply[0] == ACK then Ok(true)
    else if reply[0] == NAK then Ok(false)
    else Err(Unexpected(reply[0]))
  }

  /** _receive_ack(timeout): one read of one byte. */
  function ReceiveAckRun(s: Script, timeout: nat): Run<bool> {
    var (reply, rest) := Take(s, 1);
    Run(AckResult(reply), rest, [Got(1, timeout, reply)])
  }

  /** _receive_bytes(count): read the remaining count until none remains;
      an empty read fails the whole receive. */
  function ReceiveBytesRun(s: Script, count: nat): Run<seq<Byte>>
    decreases count
  {
    if count == 0 then Run(Ok([]), s, [])
    else
      var t := Take(s, count);
      var chunk, rest := t.0, t.1;
      var read := Got(count, DEFAULT_TIMEOUT, chunk);
      if chunk == [] then Run(Err(Timeout("receiving data")), rest, [read])
      else
        var more := ReceiveBytesRun(rest, count - |chunk|);
        Run(if more.result.Ok? then Ok(chunk + more.result.value) else more.result,
            more.rest, [read] + more.events)
  }

  /** _send_data_check_ack(data): write the checksummed frame, read its ACK. */
  function SendDataCheckAckRun(s: Script, data: seq<Byte>): Run<bool> {
    After([Wrote(Framed(data))], ReceiveAckRun(s, DEFAULT_TIMEOUT))
  }

  /** _receive_data_check_ack(count): a payload that must be followed by ACK. */
  function ReceiveDataCheckAckRun(s: Script, count: nat): Run<seq<Byte>> {
    var payload := ReceiveBytesRun(s, count);
    if payload.result.Err? then payload
    else
      var ack := ReceiveAckRun(payload.rest, DEFAULT_TIMEOUT);
      Run(match ack.result
          case Err(e) => Err(e)
          case Ok(true) => payload.result
          case Ok(false) => Err(Protocol("expected ACK; got NAK instead")),
          ack.rest, payload.events + ack.events)
  }

  // ---- Properties of the ACK read ----

  /** _receive_ack does exactly one read, of one byte, with the given
      timeout, and writes nothing. */
  lemma ReceiveAckReadsOnce(s: Script, timeout: nat)
    ensures var r := ReceiveAckRun(s, timeout);
      |r.events| == 1 && r.events[0].Got? && r.events[0].max == 1 &&
      r.events[0].timeout == timeout && Writes(r.events) == [] &&
      r.result == AckResult(r.events[0].bytes) &&
      Flatten(s) == r.events[0].bytes + Flatten(r.rest)
  {
  }

  // ---- Properties of the receive loop ----

  lemma PrefixCons(e: Event, es: seq<Event>, i: nat)
    requires 0 < i <= |es| + 1
    ensures ([e] + es)[..i] == [e] + es[..i - 1]
  {
  }

  /** A receive either delivers exactly `count` bytes, the script's next
      ones in order, or fails with a timeout. */
  lemma {:induction false} ReceiveBytesOutcome(s: Script, count: nat)
    ensures var r := ReceiveBytesRun(s, count);
      && (r.result.Ok? ==>
            && |r.result.value| == count
            && r.result.value == Received(r.events)
            && Flatten(s) == r.result.value + Flatten(r.rest))
      && (r.result.Err? ==>
            && r.result.error == Timeout("receiving data")
            && |Received(r.events)| < count)
    decreases count
  {
    var r := ReceiveBytesRun(s, count);
    if count > 0 {
      var t := Take(s, count);
      var read := Got(count, DEFAULT_TIMEOUT, t.0);
      assert Received([read]) == t.0 by {
        assert [read][1..] == [];
      }
      if t.0 == [] {
        assert r.events == [read];
      } else {
        var more := ReceiveBytesRun(t.1, count - |t.0|);
        assert r.events == [read] + more.events && r.rest == more.rest;
        assert r.result.Ok? <==> more.result.Ok?;
        ReceiveBytesOutcome(t.1, count - |t.0|);
        assert Received(r.events) == t.0 + Received(more.events) by {
          ReceivedConcat([read], more.events);
        }
        if more.result.Ok? {
          assert r.result.value == t.0 + more.result.value;
        }
      }
    }
  }

  /** Every read of a receive asks for exactly the bytes still missing, with
      the default timeout, and only a failing receive's last read is empty. */
  lemma {:induction false} ReceiveBytesRequests(s: Script, count: nat)
    ensures var r := ReceiveBytesRun(s, count);
      && (r.result.Err? ==> r.events != [])
      && forall i | 0 <= i < |r.events| ::
        && r.events[i].Got?
        && r.events[i].timeout == DEFAULT_TIMEOUT
        && r.events[i].max == count - |Received(r.events[..i])|
        && (r.events[i].bytes == [] <==> r.result.Err? && i == |r.events| - 1)
    decreases count
  {
    var r := ReceiveBytesRun(s, count);
    if count > 0 {
      var t := Take(s, count);
      var chunk, rest := t.0, t.1;
      var read := Got(count, DEFAULT_TIMEOUT, chunk);
      if chunk != [] {
        var more := ReceiveBytesRun(rest, count - |chunk|);
        ReceiveBytesRequests(rest, count - |chunk|);
        assert r.events == [read] + more.events;
        assert r.result.Err? <==> more.result.Err?;
        forall i | 0 < i < |r.events|
          ensures r.events[i] == more.events[i - 1]
          ensures |Received(r.events[..i])| == |chunk| + |Received(more.events[..i - 1])|
        {
          PrefixCons(read, more.events, i);
          ReceivedConcat([read], more.events[..i - 1]);
        }
        assert r.events[..0] == [];
      } else {
        assert r.events == [read];
        assert r.events[..0] == [];
      }
    }
  }

  /** A script that delivers exactly `count` bytes in non-empty chunks is
      received whole, one read per chunk, and nothing after it is read. */
  lemma {:induction false} ReceiveBytesChunks(chunks: Script, tail: Script, count: nat)
    requires forall i | 0 <= i < |chunks| :: chunks[i] != []
    requires |Flatten(chunks)| == count
    ensures var r := ReceiveBytesRun(chunks + tail, count);
      r.result == Ok(Flatten(chunks)) && r.rest == tail && |r.events| == |chunks|
    decreases |chunks|
  {
    var s := chunks + tail;
    if chunks != [] {
      assert s[0] == chunks[0] && s[1..] == chunks[1..] + tail;
      assert Take(s, count) == (chunks[0], chunks[1..] + tail);
      ReceiveBytesChunks(chunks[1..], tail, count - |chunks[0]|);
    } else {
      assert s == tail;
    }
  }

  /** An empty read fails the receive even when bytes were already collected. */
  lemma {:induction false} ReceiveBytesStall(chunks: Script, tail: Script, count: nat)
    requires forall i | 0 <= i < |chunks| :: chunks[i] != []
    requires |Flatten(chunks)| < count
    ensures var r := ReceiveBytesRun(chunks + [[]] + tail, count);
      r.result == Err(Timeout("receiving data")) && r.rest == tail && |r.events| == |chunks| + 1
    decreases |chunks|
  {
    var s := chunks + [[]] + tail;
    if chunks != [] {
      assert s[0] == chunks[0] && s[1..] == chunks[1..] + [[]] + tail;
      assert Take(s, count) == (chunks[0], chunks[1..] + [[]] + tail);
      ReceiveBytesStall(chunks[1..], tail, count - |chunks[0]|);
    } else {
      assert s == [[]] + tail;
    }
  }

  /** Three bytes then two for a request of five: done after two reads,
      the script's trailing empty chunk is never read. */
  lemma ReceiveThreeThenTwo(a: Byte, b: Byte, c: Byte, d: Byte, e: Byte)
    ensures ReceiveBytesRun([[a, b, c], [d, e], []], 5)
         == Run(Ok([a, b, c, d, e]), [[]],
                [Got(5, DEFAULT_TIMEOUT, [a, b, c]), Got(2, DEFAULT_TIMEOUT, [d, e])])
  {
    assert Take([[a, b, c], [d, e], []], 5) == ([a, b, c], [[d, e], []]);
    assert Take([[d, e], []], 2) == ([d, e], [[]]);
    var last := ReceiveBytesRun([[]], 0);
    assert last == Run(Ok([]), [[]], []);
    var second := ReceiveBytesRun([[d, e], []], 2);
    assert second.result == Ok([d, e] + []) && second.rest == [[]];
    assert second.events == [Got(2, DEFAULT_TIMEOUT, [d, e])] + [];
    var s := [[a, b, c], [d, e], []];
    assert Take(s, 5) == ([a, b, c], [[d, e], []]);
    assert 5 - |[a, b, c]| == 2;
    var first := ReceiveBytesRun(s, 5);
    assert first == Run(Ok([a, b, c] + second.result.value), second.rest,
                        [Got(5, DEFAULT_TIMEOUT, [a, b, c])] + second.events);
    assert [d, e] + [] == [d, e] && [a, b, c] + [d, e] == [a, b, c, d, e];
    assert [Got(5, DEFAULT_TIMEOUT, [a, b, c])] + ([Got(2, DEFAULT_TIMEOUT, [d, e])] + [])
        == [Got(5, DEFAULT_TIMEOUT, [a, b, c]), Got(2, DEFAULT_TIMEOUT, [d, e])];
  }

  // ---- Properties of the send/receive helpers ----

  /** _send_data_check_ack writes the checksummed frame once, then does one
      ACK read with the default timeout and returns its verdict. */
  lemma SendDataCheckAckWritesFrame(s: Script, data: seq<Byte>)
    ensures var r := SendDataCheckAckRun(s, data);
      var (reply, rest) := Take(s, 1);
      && r.events == [Wrote(Framed(data)), Got(1, DEFAULT_TIMEOUT, reply)]
      && Writes(r.events) == [Framed(data)]
      && r.result == AckResult(reply)
      && r.rest == rest
  {
    var r := SendDataCheckAckRun(s, data);
    WritesConcat([Wrote(Framed(data))], r.events[1..]);
    assert r.events == [Wrote(Framed(data))] + r.events[1..];
  }

  /** _receive_data_check_ack returns the payload only when the byte after it
      is ACK; a NAK there is a protocol error. */
  lemma ReceiveDataCheckAckOutcome(s: Script, count: nat)
    ensures var r := ReceiveDataCheckAckRun(s, count);
      var payload := ReceiveBytesRun(s, count);
      && Writes(r.events) == []
      && (r.result.Ok? ==>
            && payload.result == r.result && |r.result.value| == count
            && r.events == payload.events + [Got(1, DEFAULT_TIMEOUT, [ACK])])
      && (payload.result.Ok? ==>
            && r.rest == Take(payload.rest, 1).1
            && r.events == payload.events + [Got(1, DEFAULT_TIMEOUT, Take(payload.rest, 1).0)])
      && (payload.result.Ok? && Take(payload.rest, 1).0 == [ACK] ==>
            r.result == payload.result)
      && (payload.result.Ok? && Take(payload.rest, 1).0 == [NAK] ==>
            r.result == Err(Protocol("expected ACK; got NAK instead")))
      && (payload.result.Ok? && AckResult(Take(payload.rest, 1).0).Err? ==>
            r.result == Err(AckResult(Take(payload.rest, 1).0).error))
      && (payload.result.Err? ==> r == payload)
  {
    var payload := ReceiveBytesRun(s, count);
    ReceiveBytesOutcome(s, count);
    ReceiveBytesRequests(s, count);
    WritesOfReads(payload.events);
    if payload.result.Ok? {
      var ack := ReceiveAckRun(payload.rest, DEFAULT_TIMEOUT);
      WritesConcat(payload.events, ack.events);
      if ack.result == Ok(true) {
        assert Take(payload.rest, 1).0 == [ACK];
      }
    }
  }
}
