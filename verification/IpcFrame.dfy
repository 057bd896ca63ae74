/**
 Framing of diagnostics messages (src/ipc/frame.rs): a 20-byte header, then the payload. After the reply to a
 tracing request the same socket carries the trace, so not one byte past the message may be read.
 */
module IpcFrame {
  import opened Wire

  const HEADER_SIZE: nat := 20
  const MAX_PAYLOAD: nat := 65515

  const SERVER_SET: byte := 0xFF
  const SERVER_OK: byte := 0x00
  const SERVER_ERROR: byte := 0xFF

  datatype Message = Message(commandSet: byte, commandId: byte, payload: seq<byte>)

  datatype IpcError =
    | Disconnected
    | BadMagic(got: seq<byte>)
    | ShortMessage(size: u16)
    | PayloadTooLarge(length: nat)
    | Server(hresult: u32)
    | UnexpectedResponse(commandSet: byte, commandId: byte)

  datatype Reply<+T> = Read(value: T, rest: seq<byte>) | Refused(error: IpcError)

  function Magic(): (m: seq<byte>)
    ensures |m| == 14
  {
    Ascii("DOTNET_IPC_V1") + [0]
  }

  // ----- Specification

  function Header(size: u16, commandSet: byte, commandId: byte, reserved: seq<byte>): seq<byte> {
    Magic() + LE(size, 2) + [commandSet, commandId] + reserved
  }

  function MessageIn(s: seq<byte>): Reply<Message> {
    if |s| < HEADER_SIZE then Refused(Disconnected)
    else if s[..14] != Magic() then Refused(BadMagic(s[..14]))
    else
      var size := SizeField(s);
      if size < HEADER_SIZE then Refused(ShortMessage(size))
      else if |s| < size then Refused(Disconnected)
      else Read(Message(s[16], s[17], s[HEADER_SIZE..size]), s[size..])
  }

  function SizeField(s: seq<byte>): u16
    requires |s| >= HEADER_SIZE
  {
    PowersOf256();
    FromLE(s[14..16])
  }

  /** The payload of a success; the command set of a reply is looked at only to recognise an error. */
  function ResponseIn(s: seq<byte>): Reply<seq<byte>> {
    match MessageIn(s)
    case Refused(e) => Refused(e)
    case Read(m, rest) =>
      if m.commandSet == SERVER_SET && m.commandId == SERVER_ERROR then Refused(Server(Hresult(m.payload)))
      else if m.commandId != SERVER_OK then Refused(UnexpectedResponse(m.commandSet, m.commandId))
      else Read(m.payload, rest)
  }

  function Hresult(payload: seq<byte>): u32 {
    PowersOf256();
    if |payload| < 4 then 0 else FromLE(payload[..4])
  }

  // ----- The functions of the source

  method EncodeMessage(commandSet: byte, commandId: byte, payload: seq<byte>)
    returns (encoded: Option<seq<byte>>, error: Option<IpcError>)
    ensures encoded.Some? <==> |payload| <= 65515
    ensures error == if |payload| <= 65515 then None else Some(PayloadTooLarge(|payload|))
    ensures encoded.Some? ==> encoded.value == Header(HEADER_SIZE + |payload|, commandSet, commandId, [0, 0]) + payload
  {
    var total := HEADER_SIZE + |payload|;
    if total >= 0x1_0000 {
      return None, Some(PayloadTooLarge(|payload|));
    }
    var msg := Magic();
    msg := msg + LE(total, 2);
    msg := msg + [commandSet];
    msg := msg + [commandId];
    msg := msg + [0, 0];
    assert msg == Header(total, commandSet, commandId, [0, 0]);
    msg := msg + payload;
    return Some(msg), None;
  }

  /** The diagnostics socket: what it has yet to deliver. */
  class Socket {
    var unread: seq<byte>

    constructor (bytes: seq<byte>)
      ensures unread == bytes
    {
      unread := bytes;
    }

    method ReadExact(n: nat) returns (bytes: Option<seq<byte>>)
      modifies this
      ensures |old(unread)| < n ==> bytes.None?
      ensures |old(unread)| >= n ==> bytes == Some(old(unread)[..n]) && unread == old(unread)[n..]
    {
      if |unread| < n {
        unread := [];
        return None;
      }
      bytes := Some(unread[..n]);
      unread := unread[n..];
    }

    method ReadMessage() returns (m: Option<Message>, error: Option<IpcError>)
      modifies this
      ensures match MessageIn(old(unread))
              case Read(value, rest) => m == Some(value) && error == None && unread == rest
              case Refused(e) => m == None && error == Some(e)
    {
      var header := ReadExact(HEADER_SIZE);
      if header.None? {
        return None, Some(Disconnected);
      }
      var h := header.value;
      assert h[..14] == old(unread)[..14] && h[14..16] == old(unread)[14..16];
      if h[..14] != Magic() {
        return None, Some(BadMagic(h[..14]));
      }
      var size := SizeField(h);
      if size < HEADER_SIZE {
        return None, Some(ShortMessage(size));
      }
      var payload := ReadExact(size - HEADER_SIZE);
      if payload.None? {
        return None, Some(Disconnected);
      }
      assert payload.value == old(unread)[HEADER_SIZE..size];
      return Some(Message(h[16], h[17], payload.value)), None;
    }

    method ReadResponse() returns (payload: Option<seq<byte>>, error: Option<IpcError>)
      modifies this
      ensures match ResponseIn(old(unread))
              case Read(value, rest) => payload == Some(value) && error == None && unread == rest
              case Refused(e) => payload == None && error == Some(e)
    {
      var m, failure := ReadMessage();
      if m.None? {
        return None, failure;
      }
      var Message(commandSet, commandId, body) := m.value;
      if commandSet == SERVER_SET && commandId == SERVER_ERROR {
        return None, Some(Server(Hresult(body)));
      }
      if commandId != SERVER_OK {
        return None, Some(UnexpectedResponse(commandSet, commandId));
      }
      return Some(body), None;
    }
  }

  // ----- Properties

  /** A header byte by byte. */
  lemma HeaderBytes(size: u16, commandSet: byte, commandId: byte, reserved: seq<byte>)
    requires |reserved| == 2
    ensures Header(size, commandSet, commandId, reserved)
         == Ascii("DOTNET_IPC_V1") + [0, size % 256, size / 256, commandSet, commandId, reserved[0], reserved[1]]
  {
    assert LE(size, 2) == [size % 256, size / 256];
    assert reserved == [reserved[0], reserved[1]];
  }

  function Declared(s: seq<byte>): int
    requires |s| >= 20
  {
    s[14] as int + 256 * s[15] as int
  }

  /** Twenty bytes, fourteen of them the magic, and a size that covers them and is all there; or no message. */
  lemma MessageRefusedExactly(s: seq<byte>)
    ensures MessageIn(s).Read? <==>
              && |s| >= 20 && s[..14] == Ascii("DOTNET_IPC_V1") + [0]
              && 20 <= Declared(s) <= |s|
    ensures |s| >= 20 && s[..14] != Ascii("DOTNET_IPC_V1") + [0] ==> MessageIn(s) == Refused(BadMagic(s[..14]))
    ensures |s| >= 20 && s[..14] == Ascii("DOTNET_IPC_V1") + [0] && Declared(s) < 20 ==>
              MessageIn(s) == Refused(ShortMessage(Declared(s)))
    ensures |s| < 20 || (s[..14] == Ascii("DOTNET_IPC_V1") + [0] && Declared(s) > |s|) ==>
              MessageIn(s) == Refused(Disconnected)
  {
    if |s| >= 20 {
      assert s[14..16] == [s[14], s[15]];
      assert [s[14], s[15]][1..] == [s[15]] && [s[15]][1..] == [];
      assert FromLE([s[15]]) == s[15] as int + 256 * FromLE([]);
      assert FromLE([s[14], s[15]]) == Declared(s);
    }
  }

  lemma HeaderParts(size: u16, commandSet: byte, commandId: byte, reserved: seq<byte>, k: seq<byte>)
    requires |reserved| == 2
    ensures var s := Header(size, commandSet, commandId, reserved) + k;
            && |s| == HEADER_SIZE + |k|
            && s[..14] == Magic() && s[14..16] == LE(size, 2) && s[16] == commandSet && s[17] == commandId
            && s[HEADER_SIZE..] == k
  {
  }

  /** Whatever follows a message is left for the trace parser, whatever its reserved bytes hold. */
  lemma ReadUndoesEncode(m: Message, reserved: seq<byte>, k: seq<byte>)
    requires |m.payload| <= MAX_PAYLOAD && |reserved| == 2
    ensures MessageIn(Header(HEADER_SIZE + |m.payload|, m.commandSet, m.commandId, reserved) + m.payload + k) == Read(m, k)
  {
    var size := HEADER_SIZE + |m.payload|;
    var header := Header(size, m.commandSet, m.commandId, reserved);
    HeaderParts(size, m.commandSet, m.commandId, reserved, m.payload + k);
    assert header + m.payload + k == header + (m.payload + k);
    PowersOf256();
    FromLEUndoesLE(size, 2);
    var s := header + (m.payload + k);
    assert s[HEADER_SIZE..size] == m.payload;
    assert s[size..] == k;
  }

  /** Only encoded messages are read, and exactly their bytes are consumed. */
  lemma ReadIsEncoded(s: seq<byte>)
    requires MessageIn(s).Read?
    ensures var Read(m, k) := MessageIn(s);
            && |m.payload| <= MAX_PAYLOAD
            && s == Header(HEADER_SIZE + |m.payload|, m.commandSet, m.commandId, s[18..20]) + m.payload + k
  {
    var Read(m, k) := MessageIn(s);
    var size := SizeField(s);
    LEUndoesFromLE(s[14..16]);
    assert s[..HEADER_SIZE] == Header(size, m.commandSet, m.commandId, s[18..20]);
    assert s == s[..HEADER_SIZE] + s[HEADER_SIZE..size] + s[size..];
  }

  /** An error reply surfaces the code the server put first, and any other id than success is refused. */
  lemma ErrorsSurface(m: Message, k: seq<byte>)
    requires |m.payload| <= 65515
    ensures var reply := ResponseIn(Header(HEADER_SIZE + |m.payload|, m.commandSet, m.commandId, [0, 0]) + m.payload + k);
            && (reply.Read? <==> m.commandId == 0)
            && (reply.Read? ==> reply == Read(m.payload, k))
            && (reply.Refused? && m.commandSet == 0xFF && m.commandId == 0xFF ==>
                  reply.error == Server(Hresult(m.payload)))
            && (reply.Refused? && !(m.commandSet == 0xFF && m.commandId == 0xFF) ==>
                  reply.error == UnexpectedResponse(m.commandSet, m.commandId))
  {
    hide Header, MessageIn, Hresult;
    ReadUndoesEncode(m, [0, 0], k);
  }

  lemma HresultIsFirst(hresult: u32, more: seq<byte>)
    ensures Hresult(LE(hresult, 4) + more) == hresult
    ensures |more| < 4 ==> Hresult(more) == 0
  {
    PowersOf256();
    FromLEUndoesLE(hresult, 4);
    assert (LE(hresult, 4) + more)[..4] == LE(hresult, 4);
  }
}
