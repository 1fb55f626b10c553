/** Error taxonomy of the bootloader client and the result type every
    operation returns instead of raising. */
module Results {

  type Byte = bv8

  /** A number below 256 converts to a byte and back unchanged. */
  lemma ByteRoundTrip(x: int)
    requires 0 <= x < 256
    ensures (x as Byte) as int == x
  {
  }

  /** The value of a lower-case hexadecimal digit. */
  function DigitValue(c: char): nat {
    if '0' <= c <= '9' then c as nat - '0' as nat
    else if 'a' <= c <= 'f' then c as nat - 'a' as nat + 10
    else 0
  }

  /** A byte as two lower-case hexadecimal digits, as "%02x" formats it:
      the high nibble first, then the low one. */
  function HexByte(b: Byte): (r: string)
    ensures |r| == 2
    ensures r[0] in "0123456789abcdef" && r[1] in "0123456789abcdef"
    ensures 16 * DigitValue(r[0]) + DigitValue(r[1]) == b as int
  {
    var n := b as int;
    DigitOfValue(n / 16);
    DigitOfValue(n % 16);
    [HEX_DIGITS[n / 16], HEX_DIGITS[n % 16]]
  }

  const HEX_DIGITS := "0123456789abcdef"

  /** Each digit of HEX_DIGITS has its own position as value. */
  lemma DigitOfValue(i: int)
    requires 0 <= i < 16
    ensures DigitValue(HEX_DIGITS[i]) == i
  {
  }

  datatype Option<+T> = None | Some(value: T)

  /** The three BootloaderError subclasses, each with the message the client
      raises it with, plus the two Python built-in errors the client can hit. */
  datatype Error =
    | Timeout(msg: string)       // TimeoutError: no byte arrived in time
    | Protocol(msg: string)      // ProtocolError: a NAK where the exchange needed an ACK
    | Unexpected(reply: Byte)   // ProtocolError: a reply that is neither ACK nor NAK
    | Command(msg: string)       // CommandError: the device NAKed a named step
    | Overflow                   // OverflowError of int.to_bytes: a value does not fit its field
    | NameUnbound(name: string)  // NameError: an undefined variable was evaluated
  {
    /** True for the errors that derive from BootloaderError. */
    predicate IsBootloaderError() {
      Timeout? || IsProtocolError() || Command?
    }

    /** True for the errors raised as ProtocolError. */
    predicate IsProtocolError() {
      Protocol? || Unexpected?
    }

    /** The message the error is raised with. */
    function Message(): string {
      match this
      case Timeout(msg) => msg
      case Protocol(msg) => msg
      case Unexpected(reply) => "unexpected response: " + HexByte(reply)
      case Command(msg) => msg
      case Overflow => "int too big to convert"
      case NameUnbound(name) => "name '" + name + "' is not defined"
    }
  }

  /** The message of an unexpected reply names the byte in hexadecimal. */
  lemma UnexpectedMessage(b: Byte)
    ensures var m := Unexpected(b).Message();
      && |m| == 23 && m[..21] == "unexpected response: " && m[21..] == HexByte(b)
      && m[21] in HEX_DIGITS && m[22] in HEX_DIGITS
      && 16 * DigitValue(m[21]) + DigitValue(m[22]) == b as int
  {
    var m := Unexpected(b).Message();
    assert m == "unexpected response: " + HexByte(b);
    assert m[21..] == HexByte(b);
  }

  datatype Result<+T> = Ok(value: T) | Err(error: Error)
}
