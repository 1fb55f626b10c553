/** The serial port the client talks through, as a scripted device: the
    bytes the device will send are queued as chunks, one chunk per read. */
module Transport {
  import opened Results

  /** What the client did on the port, in order. */
  datatype Event =
    | Flushed
    | Wrote(bytes: seq<Byte>)
    | Got(max: nat, timeout: nat, bytes: seq<Byte>)  // a read of at most `max` bytes and what it returned

  /** The device's replies: each chunk is what one read delivers; an empty
      chunk, or an exhausted script, is a read that timed out. */
  type Script = seq<seq<Byte>>

  /** All bytes of a script, in order. */
  function Flatten(s: Script): seq<Byte> {
    if s == [] then [] else s[0] + Flatten(s[1..])
  }

  /** One read of at most `max` bytes: the next chunk, cut to `max` bytes with
      the remainder left for the next read. Returns the bytes and the rest of
      the script. */
  function Take(s: Script, max: nat): (r: (seq<Byte>, Script))
    ensures |r.0| <= max
    ensures r.0 == [] <==> (s == [] || s[0] == [] || max == 0)
  {
    if s == [] then ([], [])
    else if |s[0]| <= max then (s[0], s[1..])
    else (s[0][..max], [s[0][max..]] + s[1..])
  }

  /** A read loses no bytes and invents none: what it returns followed by
      what is left is everything the script still had. */
  lemma TakeConserves(s: Script, max: nat)
    ensures Take(s, max).0 + Flatten(Take(s, max).1) == Flatten(s)
  {
    if s != [] && |s[0]| > max {
      var rest := [s[0][max..]] + s[1..];
      assert rest[1..] == s[1..];
      assert s[0][..max] + s[0][max..] == s[0];
    }
  }

  /** The bytes a sequence of events wrote, one frame per write. */
  function Writes(events: seq<Event>): seq<seq<Byte>> {
    if events == [] then []
    else (if events[0].Wrote? then [events[0].bytes] else []) + Writes(events[1..])
  }

  /** All bytes the reads among `events` returned, in order. */
  function Received(events: seq<Event>): seq<Byte> {
    if events == [] then []
    else (if events[0].Got? then events[0].bytes else []) + Received(events[1..])
  }

  lemma {:induction false} WritesConcat(a: seq<Event>, b: seq<Event>)
    ensures Writes(a + b) == Writes(a) + Writes(b)
  {
    if a == [] {
      assert a + b == b;
    } else {
      assert (a + b)[0] == a[0];
      assert (a + b)[1..] == a[1..] + b;
      WritesConcat(a[1..], b);
    }
  }

  lemma {:induction false} ReceivedConcat(a: seq<Event>, b: seq<Event>)
    ensures Received(a + b) == Received(a) + Received(b)
  {
    if a == [] {
      assert a + b == b;
    } else {
      assert (a + b)[0] == a[0];
      assert (a + b)[1..] == a[1..] + b;
      ReceivedConcat(a[1..], b);
    }
  }

  /** Events that are all reads write nothing. */
  lemma {:induction false} WritesOfReads(events: seq<Event>)
    requires forall i | 0 <= i < |events| :: events[i].Got?
    ensures Writes(events) == []
  {
    if events != [] {
      WritesOfReads(events[1..]);
    }
  }

  class Port {
    /** What the device has yet to send. */
    var pending: Script
    /** Everything done on the port so far. */
    ghost var trace: seq<Event>

    constructor (script: Script)
      ensures pending == script && trace == []
    {
      pending := script;
      trace := [];
    }

    /** hardware_read(max, timeout): at most `max` bytes, none on a timeout. */
    method Read(max: nat, timeout: nat) returns (chunk: seq<Byte>)
      modifies this
      ensures (chunk, pending) == Take(old(pending), max)
      ensures trace == old(trace) + [Got(max, timeout, chunk)]
    {
      var r := Take(pending, max);
      chunk, pending := r.0, r.1;
      trace := trace + [Got(max, timeout, chunk)];
    }

    /** hardware_write(bytes): every byte is sent. */
    method Write(bytes: seq<Byte>)
      modifies this
      ensures pending == old(pending)
      ensures trace == old(trace) + [Wrote(bytes)]
    {
      trace := trace + [Wrote(bytes)];
    }

    method Flush()
      modifies this
      ensures pending == old(pending)
      ensures trace == old(trace) + [Flushed]
    {
      trace := trace + [Flushed];
    }
  }
}
