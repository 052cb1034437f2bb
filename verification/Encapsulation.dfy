/**
 Encapsulation packets: a 24-byte header followed by as many data bytes as the header
 says, and the way a reader cuts a byte stream into such packets.
 */
module Encapsulation {
  import opened Wire

  const HEADER_SIZE := 24
  const SEND_RR_DATA: u16 := 0x006F

  type SenderContext = c: bytes | |c| == 8 witness [0, 0, 0, 0, 0, 0, 0, 0]

  datatype EncapsPacket = EncapsPacket(
    command: u16,
    sessionHandle: u32,
    status: u32,
    senderContext: SenderContext,
    options: u32,
    data: bytes)

  function HeaderBytes(p: EncapsPacket): (h: bytes)
    ensures |h| == HEADER_SIZE
  {
    Put16(p.command) + Put16(|p.data|) + Put32(p.sessionHandle) + Put32(p.status) + p.senderContext + Put32(p.options)
  }

  /** The bytes of a packet; the length field is cut to 16 bits. */
  function PacketBytes(p: EncapsPacket): bytes {
    HeaderBytes(p) + p.data
  }

  /** EncapsPacket::send_rr_data: interface handle 0, a timeout, then the item list. */
  function SendRrData(sessionHandle: u32, timeout: u16, cpf: bytes): EncapsPacket {
    EncapsPacket(SEND_RR_DATA, sessionHandle, 0, [0, 0, 0, 0, 0, 0, 0, 0], 0, Put32(0) + Put16(timeout) + cpf)
  }

  /** EncapsPacket::encode. */
  method Encode(p: EncapsPacket) returns (out: bytes)
    ensures out == PacketBytes(p)
  {
    out := Put16(p.command);
    out := out + Put16(|p.data|);
    out := out + Put32(p.sessionHandle);
    out := out + Put32(p.status);
    out := out + p.senderContext;
    out := out + Put32(p.options);
    out := out + p.data;
  }

  /** How many bytes follow a header, as it announces them. */
  function LengthFromHeader(header: bytes): nat
    requires |header| >= HEADER_SIZE
  {
    Get16(header[2..])
  }

  function Decoded(data: bytes): Result<EncapsPacket> {
    if |data| < HEADER_SIZE || |data| - HEADER_SIZE != LengthFromHeader(data) then Err(InvalidPacket)
    else Ok(EncapsPacket(Get16(data), Get32(data[4..]), Get32(data[8..]), data[12..20], Get32(data[20..]), data[24..]))
  }

  /** EncapsPacket::decode. */
  method Decode(data: bytes) returns (r: Result<EncapsPacket>)
    ensures r == Decoded(data)
  {
    if |data| < HEADER_SIZE {
      return Err(InvalidPacket);
    }
    var buf := data;
    var command := Get16(buf);
    buf := buf[2..];
    var length := Get16(buf);
    buf := buf[2..];
    assert buf == data[4..];
    var sessionHandle := Get32(buf);
    buf := buf[4..];
    assert buf == data[8..];
    var status := Get32(buf);
    buf := buf[4..];
    var senderContext := buf[..8];
    assert senderContext == data[12..20];
    buf := buf[8..];
    assert buf == data[20..];
    var options := Get32(buf);
    buf := buf[4..];
    assert buf == data[24..];
    if |buf| != length {
      return Err(InvalidPacket);
    }
    return Ok(EncapsPacket(command, sessionHandle, status, senderContext, options, buf));
  }

  /** The fields behind an encoded header, for any bytes that follow. */
  lemma HeaderFields(p: EncapsPacket, rest: bytes)
    ensures var b := HeaderBytes(p) + rest;
            && Get16(b) == p.command && Get16(b[2..]) == |p.data| % 0x1_0000
            && Get32(b[4..]) == p.sessionHandle && Get32(b[8..]) == p.status
            && b[12..20] == p.senderContext && Get32(b[20..]) == p.options && b[24..] == rest
  {
    var b := HeaderBytes(p) + rest;
    var t4 := Put32(p.options) + rest;
    var t3 := p.senderContext + t4;
    var t2 := Put32(p.status) + t3;
    var t1 := Put32(p.sessionHandle) + t2;
    var t0 := Put16(|p.data|) + t1;
    Associate7(Put16(p.command), Put16(|p.data|), Put32(p.sessionHandle), Put32(p.status), p.senderContext,
               Put32(p.options), rest);
    assert b == Put16(p.command) + t0;
    GetPut16(p.command, t0);
    GetPut16(|p.data|, t1);
    DropTwice(b, 2, 2);
    Read32At(b, 4, p.sessionHandle, t2);
    Read32At(b, 8, p.status, t3);
    assert t3[8..] == t4;
    DropTwice(b, 12, 8);
    Read32At(b, 20, p.options, rest);
    assert b[12..20] == t3[..8] == p.senderContext;
  }

  /** A packet survives encoding and decoding exactly when its data fits the length field. */
  lemma DecodeOfEncode(p: EncapsPacket)
    ensures Decoded(PacketBytes(p)) == Ok(p) <==> |p.data| < 0x1_0000
  {
    HeaderFields(p, p.data);
  }

  // ---------------------------------------------------------------- cutting a stream

  /** One read of a reply: the header, then as many bytes as it announces. */
  function ReadFrame(stream: bytes): Option<(bytes, bytes)> {
    if |stream| < HEADER_SIZE then None
    else
      var end := HEADER_SIZE + LengthFromHeader(stream);
      if |stream| < end then None else Some((stream[..end], stream[end..]))
  }

  /** Whatever the stream holds, decode never rejects a frame cut this way, and nothing
      is lost or read twice. */
  lemma FrameAlwaysDecodes(stream: bytes)
    requires ReadFrame(stream).Some?
    ensures var (frame, rest) := ReadFrame(stream).value;
            Decoded(frame).Ok? && frame + rest == stream && |rest| < |stream|
  {
    var end := HEADER_SIZE + LengthFromHeader(stream);
    var frame := stream[..end];
    assert frame[2..4] == stream[2..4];
    assert LengthFromHeader(frame) == LengthFromHeader(stream);
  }

  function StreamBytes(packets: seq<EncapsPacket>): bytes {
    if packets == [] then [] else PacketBytes(packets[0]) + StreamBytes(packets[1..])
  }

  /** The packets at the front of a stream, and the bytes of an incomplete last one. */
  function Frames(stream: bytes): (r: (seq<EncapsPacket>, bytes))
    decreases |stream|
  {
    if ReadFrame(stream).None? then ([], stream)
    else
      FrameAlwaysDecodes(stream);
      var (frame, rest) := ReadFrame(stream).value;
      var (packets, left) := Frames(rest);
      ([Decoded(frame).value] + packets, left)
  }

  /** The reading loop of a session, over everything a peer has written. */
  method ReadFrames(stream: bytes) returns (packets: seq<EncapsPacket>, left: bytes)
    ensures (packets, left) == Frames(stream)
  {
    packets := [];
    left := stream;
    assert [] + Frames(stream).0 == Frames(stream).0;
    while ReadFrame(left).Some?
      invariant Frames(stream) == (packets + Frames(left).0, Frames(left).1)
      decreases |left|
    {
      FrameAlwaysDecodes(left);
      var header := left[..HEADER_SIZE];
      assert header[2..4] == left[2..4];
      var end := HEADER_SIZE + LengthFromHeader(header);
      var reply := Decode(left[..end]);
      assert packets + ([reply.value] + Frames(left[end..]).0) == packets + [reply.value] + Frames(left[end..]).0;
      packets := packets + [reply.value];
      left := left[end..];
    }
    assert packets + [] == packets;
  }

  lemma ReadFrameOfPacket(p: EncapsPacket, rest: bytes)
    requires |p.data| < 0x1_0000
    ensures ReadFrame(PacketBytes(p) + rest) == Some((PacketBytes(p), rest))
  {
    var stream := PacketBytes(p) + rest;
    assert stream == HeaderBytes(p) + (p.data + rest);
    HeaderFields(p, p.data + rest);
    var end := HEADER_SIZE + |p.data|;
    assert stream[..end] == PacketBytes(p) && stream[end..] == rest;
  }

  /** Any concatenation of packets whose data fits is cut back into those packets, with
      an incomplete packet at the end left over. */
  lemma {:induction false} StreamSplitsIntoItsPackets(packets: seq<EncapsPacket>, tail: bytes)
    requires forall i | 0 <= i < |packets| :: |packets[i].data| < 0x1_0000
    requires ReadFrame(tail).None?
    ensures Frames(StreamBytes(packets) + tail) == (packets, tail)
  {
    if packets == [] {
      assert StreamBytes(packets) + tail == tail;
    } else {
      var p := packets[0];
      var rest := StreamBytes(packets[1..]) + tail;
      assert StreamBytes(packets) + tail == PacketBytes(p) + rest;
      ReadFrameOfPacket(p, rest);
      DecodeOfEncode(p);
      StreamSplitsIntoItsPackets(packets[1..], tail);
      assert packets == [p] + packets[1..];
    }
  }
}
