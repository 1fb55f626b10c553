# STM32 UART bootloader client, modelled in Dafny

This project models the protocol engine of `stm32.py`, the host side of the
STM32 USART bootloader protocol described in ST application note AN3155. It
covers the frame checksum, the ACK/NAK read, the chunked receive loop, the
two send/receive helpers, autobaud `setup`, and the commands `read_memory`,
`write_memory`, `readout_protect` and `readout_unprotect`.

The model has two layers.

- **Run functions.** Every operation is a pure function of a *device script*.
  The script lists what each successive read of the serial port delivers;
  an empty chunk, or an exhausted script, is a read that timed out. The
  function gives the operation's result (a value or a tagged error), the
  part of the script left unread, and the events on the port in order:
  writes, reads with their size and timeout, and flushes. The properties
  are lemmas about these functions (`Exchanges`, `Session`).
- **The `Bootloader` class.** It drives a `Port` object step by step, as the
  source does. Each method changes the port's pending script and its ghost
  event trace, and each is proved to do exactly what its run function says
  (`Stm32`). `read_memory` has one helper method per stage, so that each
  proof obligation stays small.

The files are:

- `results.dfy`: bytes, the error kinds and the result type;
- `codec.dfy`: the checksum and Python's `int.to_bytes(n, "big")`;
- `transport.dfy`: the scripted port;
- `exchanges.dfy`: ACK reads, the receive loop and the helpers;
- `session.dfy`: the commands and their wire frames;
- `bootloader.dfy`: the imperative client.

Errors are a datatype, not exceptions. There are the three BootloaderError
kinds:

- TimeoutError;
- ProtocolError, either a NAK where an ACK was needed, or an unexpected
  byte, which keeps the byte so that the message "unexpected response: %02x"
  can be rebuilt;
- CommandError, carrying the message of the step that was NAKed.

There are also the two Python built-in errors the source can run into.
`int.to_bytes` raises OverflowError when an address or a count does not
fit its field, so out-of-range arguments are an error path and not a
precondition. Evaluating an undefined name raises NameError.

Points where the code behaves differently from what its names, or AN3155,
suggest. The model follows the code in each:

- **A receive stops as soon as nothing remains.** The loop at
  `stm32.py:55-60` reads only while bytes are missing. A request of five
  bytes served as three and then two succeeds after two reads, and a third
  read is never made (`Exchanges.ReceiveThreeThenTwo`).
- **Address range.** The client has no explicit check on the address, but
  `addr.to_bytes(4, "big")` at `stm32.py:97` and 109 raises OverflowError
  outside 0 ≤ addr < 2^32. It does so after the command is ACKed and
  before the address is sent (`Session.ReadMemoryAddressOverflow`, and
  `Session.WriteMemoryAddressOverflow` for both versions of `write_memory`).
- **Readout completion.** AN3155 has the device send a second ACK, or a
  NAK, once the option bytes are rewritten. `stm32.py:120` and 126 read
  that byte with a 10000 timeout but discard the verdict. A NAK there
  returns normally; only a timeout or an unexpected byte fails
  (`Session.ReadoutCompletion`).
- **Autobaud on an unexpected byte.** "autobaud failed" (`stm32.py:89-90`)
  is raised only on a NAK. Any byte that is neither ACK nor NAK makes
  `_receive_ack` raise ProtocolError("unexpected response: %02x") first
  (`stm32.py:75`). The model gives `Unexpected(byte)` there
  (`Session.SetupOutcome`, `Results.UnexpectedMessage`).
- **`write_memory`.** The third step at `stm32.py:111` uses a name that is
  not bound; see Findings.

## Model

| member | source | states |
|---|---|---|
| Codec.AppendChecksum | stm32.py:16-25 | the frame is the data followed by one byte; for one byte that byte is its complement; otherwise the whole frame XORs to 0; the empty input gives [0x00]; the loop computes the left XOR fold |
| Codec.FramedXor | stm32.py:16-25 | a frame keeps its data as a prefix and has one more byte; a frame of other than one byte XORs to 0, and a one-byte frame XORs to 0xFF |
| Codec.FramedExamples | stm32.py:16-25 | [0x11] frames as [0x11, 0xEE], [1, 2, 3] as [1, 2, 3, 0] and [] as [0x00] |
| Codec.XorAllConcat | stm32.py:23-24 | the XOR fold of a concatenation is the XOR of the folds of its parts |
| Codec.ToBytesBigSpec | stm32.py:97 | to_bytes(value, n, "big") succeeds exactly when 0 <= value < 256^n, and then gives n bytes that read back as value |
| Results.HexByte | stm32.py:75 | "%02x" gives two lower-case hexadecimal digits, the high nibble's then the low nibble's, whose values give back the byte |
| Results.UnexpectedMessage | stm32.py:75 | the message of an unexpected reply is "unexpected response: " followed by HexByte of the byte: two characters, both lower-case hexadecimal digits, whose values encode the byte |
| Transport.Take | stm32.py:40-41 | a read returns at most the bytes asked for, and nothing exactly when the script is exhausted, the next chunk is empty, or nothing was asked for |
| Transport.TakeConserves | stm32.py:40-41 | the bytes a read returns, followed by what is left, are exactly what the script held: nothing is lost or invented |
| Transport.Port.Read | stm32.py:40-44 | one read of at most max bytes with the given timeout, logged with what it returned |
| Transport.Port.Write | stm32.py:46-49 | a write is logged and leaves the pending input alone |
| Transport.Port.Flush | stm32.py:37 | a flush is logged and leaves the pending input alone |
| Exchanges.AckResult | stm32.py:67-75 | an empty read is Timeout("receiving ACK"); 0x79 is true; 0x1F is false; any other byte is an unexpected-response ProtocolError with that byte; each in both directions |
| Exchanges.ReceiveAckReadsOnce | stm32.py:63-75 | _receive_ack does one read of one byte with the given timeout, writes nothing, and judges what it read |
| Stm32.Bootloader.ReceiveAck | stm32.py:63-75 | with no timeout given it waits 250; the result, what is left and the new trace are those of the ACK read |
| Exchanges.ReceiveBytesOutcome | stm32.py:51-61 | a receive returns exactly count bytes, which are the bytes its reads returned and the next bytes of the script in order, or fails with Timeout("receiving data") having collected fewer than count |
| Exchanges.ReceiveBytesRequests | stm32.py:55-60 | every read asks for exactly the bytes still missing, with the default timeout, and only the last read of a failing receive is empty |
| Exchanges.ReceiveBytesChunks | stm32.py:55-61 | count bytes delivered in non-empty chunks are received whole, one read per chunk, and nothing after them is read |
| Exchanges.ReceiveBytesStall | stm32.py:57-58 | an empty read is a timeout even when bytes were already collected |
| Exchanges.ReceiveThreeThenTwo | stm32.py:55-61 | three then two bytes for a request of five succeed after two reads; the empty third chunk is never read |
| Stm32.Bootloader.ReceiveBytes | stm32.py:51-61 | the loop returns what the receive function gives, leaving the port's script and trace as it says; a count below 1 reads nothing |
| Exchanges.SendDataCheckAckWritesFrame | stm32.py:77-79 | _send_data_check_ack writes the checksummed frame once, then does one ACK read with the default timeout and returns its verdict |
| Stm32.Bootloader.SendDataCheckAck | stm32.py:77-79 | writes the frame built by the checksum loop, then reads the ACK, as its run function says |
| Exchanges.ReceiveDataCheckAckOutcome | stm32.py:81-85 | a failed receive is passed on unchanged; after a successful one exactly one more byte is read with the default timeout; the payload, which has count bytes, is returned exactly when that byte is an ACK; a NAK is ProtocolError("expected ACK; got NAK instead"); a timeout or unexpected byte is that ACK read's error; nothing is written |
| Stm32.Bootloader.ReceiveDataCheckAck | stm32.py:81-85 | the receive, then the ACK check, as its run function says |
| Session.SetupOutcome | stm32.py:36-38 | setup flushes, writes the raw byte 0x7F with no checksum and reads one byte; it succeeds exactly on an ACK; a NAK is ProtocolError("autobaud failed"), any other byte is the unexpected-response ProtocolError with that byte, and an empty read is a timeout |
| Session.SetupTwice | stm32.py:36-38 | against a device that ACKs twice, setup run twice succeeds both times with the same exchange and consumes exactly the two ACKs |
| Stm32.Bootloader.DoAutobaud | stm32.py:87-90 | writes 0x7F, reads the ACK; a NAK is "autobaud failed", as its run function says |
| Stm32.Bootloader.Setup | stm32.py:36-38 | flush, then autobaud, as its run function says |
| Session.CommandStepReply | stm32.py:95-96 | a command step reads one byte and goes on only on an ACK; a NAK is CommandError with the step's message; a timeout or an unexpected byte is passed on exactly as the ACK read raised it; every failure is a BootloaderError |
| Session.CommandStepRefused | stm32.py:95-96 | a command step whose reply is not an ACK ends with that reply's refusal and reads nothing more |
| Session.Refusal | stm32.py:69-75 | the error a step ends with when its reply is not an ACK: CommandError with the step's message on a NAK, Timeout("receiving ACK") on an empty read, and the unexpected-response ProtocolError with the byte for any other byte |
| Session.AddressStepWrites | stm32.py:97-98 | a 32-bit address is sent as its address frame; any other address overflows before anything is written or read |
| Session.LengthStepWrites | stm32.py:99-100 | a length in 1..256 is sent as [length - 1] followed by the data under one checksum; any other length overflows before anything is written or read |
| Session.LengthStep | stm32.py:99 | the length step goes on only when (length - 1).to_bytes(1) fits, that is for 1 <= length <= 256 |
| Stm32.Bootloader.Step | stm32.py:95-96 | one `if not _send_data_check_ack(d): raise CommandError(msg)`, as its run function says |
| Session.AddressOnWire | stm32.py:97 | the address frame is the four big-endian bytes followed by their XOR |
| Session.ReadFramesOnWire | stm32.py:95-99 | the frames read_memory checksums are [0x11, 0xEE], the address frame and [count - 1, ~(count - 1)] |
| Session.ReadMemoryWrites | stm32.py:92-102 | read_memory writes its three frames in order, each only after the one before it was ACKed: the frames written are the first 1 + k, where k counts the ACKs among the first two replies before any reply that is not one |
| Session.ReadMemoryOutcome | stm32.py:92-102 | with both arguments in range, read_memory fails only with a BootloaderError, and succeeds only after three ACKs with exactly count bytes |
| Session.ReadMemoryNak | stm32.py:95-100 | the first NAK stops read_memory with the CommandError of the step it answers (read protection, address, count); the frames up to that step are written and nothing after it is read |
| Session.ReadMemoryAcked | stm32.py:92-102 | a device that ACKs three times and then sends count bytes in chunks: read_memory returns exactly those bytes after writing the three frames, and reads nothing after them (no trailing ACK) |
| Session.ReadMemoryAddressOverflow | stm32.py:97 | an address outside 32 bits overflows once the command is ACKed: only [0x11, 0xEE] is written and nothing more is read |
| Session.ReadMemoryCountOverflow | stm32.py:99 | a count outside 1..256 overflows once the address is ACKed: the command and address frames are written and nothing more is read |
| Session.ReadMemoryRefused | stm32.py:95-100 | for any chunking of the replies, read_memory ends at the first of its three replies that is not an ACK, with that reply's refusal under the message of the step it answers (read protection, address, count), and reads nothing after it |
| Session.ReadMemoryAddressStageRefused | stm32.py:97-100 | once the command is ACKed, the first of the next two replies that is not an ACK ends read_memory with its refusal, under the address or the count message |
| Session.ReadMemoryCountStageRefused | stm32.py:99-100 | once the address is ACKed, a reply to the count frame that is not an ACK ends read_memory with its refusal under the count message, and the payload is never read |
| Session.ReadMemoryUnexpectedReply | stm32.py:97-98 | a byte that is neither ACK nor NAK in reply to the address frame ends read_memory with the unexpected-response error for that byte, and nothing after it is read |
| Session.ReadMemoryCountStageOutcome | stm32.py:99-102 | for a count in 1..256, the count step and payload fail only with a BootloaderError and succeed only after an ACK, with exactly count bytes |
| Stm32.Bootloader.ReadMemory | stm32.py:92-102 | read_memory as its run function says |
| Stm32.Bootloader.ReadMemoryFromAddress | stm32.py:97-102 | the address step and the rest of read_memory, as its stage function says |
| Stm32.Bootloader.ReadMemoryFromCount | stm32.py:99-102 | the count step and the payload, as its stage function says |
| Session.WriteMemoryAsWrittenWrites | stm32.py:104-111 | the source's write_memory writes [0x31, 0xCE], then the address frame only if the command was ACKed, and never any byte of data |
| Session.WriteMemoryAsWrittenRefused | stm32.py:107-110 | the source's write_memory, when the command or the address reply is not an ACK, ends with that reply's refusal under the step's message and reads nothing after it |
| Session.WriteMemoryAsWrittenOutcome | stm32.py:104-111 | the source's write_memory never succeeds: for a 32-bit address it fails with NameError on count exactly when command and address were ACKed, and otherwise with a BootloaderError; for any other address it fails with OverflowError exactly when the command was ACKed, and otherwise with a BootloaderError |
| Stm32.Bootloader.WriteMemoryAsWritten | stm32.py:104-111 | write_memory as the source has it, as its run function says |
| Session.WriteMemoryAllAcked | stm32.py:111-112 | against a device that ACKs everything, the source's version fails with NameError after two frames and leaves the third ACK unread, while the intended version writes the data frame, reads that ACK and succeeds |
| Session.WriteMemoryWrites | stm32.py:104-112 | the intended write_memory writes [0x31, 0xCE], the address frame and [len - 1] + data + checksum in order, each only after the one before it was ACKed |
| Session.WriteMemoryOutcome | stm32.py:104-112 | for a 32-bit address and 1..256 data bytes, the intended write_memory succeeds exactly when all three frames are ACKed, and otherwise fails with a BootloaderError |
| Session.WriteMemoryAddressOverflow | stm32.py:107-109 | in both versions of write_memory, an address outside 32 bits gives OverflowError once the command is ACKed; only [0x31, 0xCE] has been written and nothing after the command's reply is read |
| Session.WriteMemoryRefused | stm32.py:107-112 | for any chunking of the replies, the intended write_memory ends at the first of its three replies that is not an ACK, with that reply's refusal under the step's message (read protection, address, checksum error), and reads nothing after it |
| Session.WriteMemoryAddressStageRefused | stm32.py:109-112 | once the command is ACKed, the first of the next two replies that is not an ACK ends the intended write_memory with its refusal, under the address or the checksum message |
| Session.WriteMemoryNak | stm32.py:107-112 | the first NAK stops the intended write_memory with its step's CommandError; a NAK of the data frame is "checksum error" |
| Session.WriteMemoryDataFrameChecks | stm32.py:111 | the data frame is len - 1, the data, then a byte that makes the whole frame XOR to 0 |
| Session.WriteMemoryLengthOverflow | stm32.py:111 | data of no bytes or of more than 256 overflows the length byte once the address is ACKed, so the data frame is never written |
| Stm32.Bootloader.WriteMemory | stm32.py:104-112 | the intended write_memory, as its run function says |
| Session.ReadoutOutcome | stm32.py:116-126 | a readout command writes its one frame; a NAK is its CommandError; a timeout or an unexpected reply to the frame is passed on as the ACK read raised it, with nothing more read; after an ACK one more byte is read with timeout 10000, and it succeeds exactly when that read is an ACK or a NAK |
| Session.ReadoutProtectOnWire | stm32.py:116-120 | readout_protect sends [0x82, 0x7D]; a NAK is "read protection is already enabled" |
| Session.ReadoutUnprotectOnWire | stm32.py:122-126 | readout_unprotect sends [0x92, 0x6D]; a NAK is "something went wrong" |
| Session.ReadoutCompletion | stm32.py:120 | a NAK on the completion read succeeds as an ACK would, while an empty completion read is a timeout |
| Stm32.Bootloader.ReadoutProtect | stm32.py:116-120 | readout_protect, as its run function says |
| Stm32.Bootloader.ReadoutUnprotect | stm32.py:122-126 | readout_unprotect, as its run function says |

## Left out

- The ChipWhisperer import and the `__init__` that builds and configures the serial adapter (baud rate, even parity), at stm32.py:1 and 30-34. This is a foreign hardware library. The client is given a `Port` built from a device script instead.
- Debug printing in `read` and `write` (stm32.py:42-43, 47-48). It is console output with no effect on the protocol. The methods call the port directly, and the `bytearray` conversion in `read` changes nothing the model can observe.
- The real-time meaning of timeouts. A timeout is a number recorded with each read. Whether a read times out is decided by the script.
- The effect of `flush` on bytes already in flight. A flush is a logged event and leaves the script unchanged.
- Python's exception class hierarchy (stm32.py:3-14). It becomes one error datatype with a predicate for "is a BootloaderError".
- Arguments of the wrong Python type, such as a non-integer address or count.
- Results.Error.Message: the text of an OverflowError is given as "int too big to convert" even for a negative value, where Python says "can't convert negative int to unsigned".
- Session.ReadMemoryOutcome: it states which replies were ACKs and how many bytes came back, not which script bytes were consumed. `Exchanges.ReceiveBytesOutcome` and `Session.ReadMemoryAcked` state the bytes.

## Findings

| source | as written | input that shows it | evidently intended | confidence | as-written member | corrected member |
|---|---|---|---|---|---|---|
| stm32.py:111 | `write_memory` builds its third frame from `count`, a name not bound in that method, so it raises NameError once the command and the address are ACKed; `data` is never sent | a device that ACKs every frame (`Acks(3) + tail`) | send `[len(data) - 1] + data` under one checksum, and raise CommandError("checksum error") on a NAK, as AN3155's Write Memory command describes | not executed | Session.WriteMemoryAllAcked | Session.WriteMemoryWrites |
