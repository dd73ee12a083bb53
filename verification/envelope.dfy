/** The envelope of an NMEA 2000 frame: the header fields at fixed offsets,
    the 24-bit little-endian PGN, and the two payload windows cut out of the
    frame. */
module Envelope {
  import opened Slices

  /** Offset of the first payload byte (byte 14 is the data length). */
  const PayloadStart := 15
  /** Bytes after `Msg.data`: `Msg.data` ends three bytes before the end. */
  const DataTrailer := 3
  /** Bytes after the decoder's payload: it ends two bytes before the end. */
  const PayloadTrailer := 2
  /** The shortest frame both slices of `parse` accept. */
  const MinFrameLength := PayloadStart + DataTrailer

  /** The decoded envelope (`Msg`). `timeStamp` is whatever clock reading
      the caller supplies. */
  datatype Msg = Msg(
    packetLength: bv8,
    priority: bv8,
    pgn: bv32,
    destination: bv8,
    source: bv8,
    timeStamp: int,
    dataLength: bv8,
    data: Slice)

  /** `uint32(b5) | uint32(b6)<<8 | uint32(b7)<<16`, with Go's `uint32` as a
      32-bit vector. The three bytes are combined little-endian, so the PGN
      fits in 24 bits. */
  function Pgn(lo: bv8, mid: bv8, hi: bv8): (pgn: bv32)
    ensures pgn < 0x100_0000
  {
    (lo as bv32) | ((mid as bv32) << 8) | ((hi as bv32) << 16)
  }

  /** The three little-endian bytes of a 24-bit PGN: the inverse of `Pgn`. */
  function PgnBytes(pgn: bv32): (bytes: (bv8, bv8, bv8))
    requires pgn < 0x100_0000
    ensures Pgn(bytes.0, bytes.1, bytes.2) == pgn
  {
    ((pgn & 0xFF) as bv8, ((pgn >> 8) & 0xFF) as bv8, (pgn >> 16) as bv8)
  }

  /** Splitting a PGN built from three bytes gives back those bytes. */
  lemma PgnBytesOfPgn(lo: bv8, mid: bv8, hi: bv8)
    ensures PgnBytes(Pgn(lo, mid, hi)) == (lo, mid, hi)
  {
  }

  /** Two frames carry the same PGN exactly when their bytes 5-7 agree. */
  lemma PgnInjective(lo: bv8, mid: bv8, hi: bv8, lo': bv8, mid': bv8, hi': bv8)
    ensures Pgn(lo, mid, hi) == Pgn(lo', mid', hi') <==> (lo, mid, hi) == (lo', mid', hi')
  {
    if Pgn(lo, mid, hi) == Pgn(lo', mid', hi') {
      PgnBytesOfPgn(lo, mid, hi);
      PgnBytesOfPgn(lo', mid', hi');
    }
  }

  /** The PGN carried in frame bytes 5-7. */
  function PgnOf(frame: Slice): (pgn: bv32)
    requires frame.Valid() && frame.len >= 8
    ensures pgn < 0x100_0000
    ensures PgnBytes(pgn) == (frame.At(5), frame.At(6), frame.At(7))
  {
    PgnBytesOfPgn(frame.At(5), frame.At(6), frame.At(7));
    Pgn(frame.At(5), frame.At(6), frame.At(7))
  }

  /** The header part of `parse`: every envelope field and `Msg.data`. */
  function ParseMsg(frame: Slice, now: int): (msg: Msg)
    requires frame.Valid() && frame.len >= MinFrameLength
    ensures msg.packetLength == frame.At(3) && msg.priority == frame.At(4)
    ensures msg.pgn == PgnOf(frame) && msg.pgn < 0x100_0000
    ensures msg.destination == frame.At(8) && msg.source == frame.At(9)
    ensures msg.dataLength == frame.At(14) && msg.timeStamp == now
    ensures msg.data.Valid() && msg.data.backing == frame.backing
    ensures msg.data.Contents() == frame.Contents()[PayloadStart..frame.len - DataTrailer]
    ensures msg.data.len == frame.len - MinFrameLength
  {
    Msg(
      packetLength := frame.At(3),
      priority := frame.At(4),
      pgn := PgnOf(frame),
      destination := frame.At(8),
      source := frame.At(9),
      timeStamp := now,
      dataLength := frame.At(14),
      data := frame.Sub(PayloadStart, frame.len - DataTrailer))
  }

  /** The payload `parse` hands to the decoder: `frame[15:len(frame)-2]`. */
  function Payload(frame: Slice): (data: Slice)
    requires frame.Valid() && frame.len >= PayloadStart + PayloadTrailer
    ensures data.Valid() && data.backing == frame.backing
    ensures data.Contents() == frame.Contents()[PayloadStart..frame.len - PayloadTrailer]
    ensures data.Cap() == frame.Cap() - PayloadStart
  {
    frame.Sub(PayloadStart, frame.len - PayloadTrailer)
  }

  /** The decoder's payload is `Msg.data` followed by exactly one more byte,
      the byte just before the two-byte trailer. */
  lemma DataIsPayloadPrefix(frame: Slice, now: int)
    requires frame.Valid() && frame.len >= MinFrameLength
    ensures var data := ParseMsg(frame, now).data.Contents();
            Payload(frame).Contents() == data + [frame.At(frame.len - DataTrailer)]
  {
  }

  /** The first fifteen bytes of a frame, written forwards: three leading
      bytes the parser does not read, the seven header bytes 3-9, four more
      unread bytes 10-13 and the data length. */
  function HeaderBytes(
    lead: seq<bv8>, packetLength: bv8, priority: bv8, pgn: bv32,
    destination: bv8, source: bv8, gap: seq<bv8>, dataLength: bv8): (header: seq<bv8>)
    requires |lead| == 3 && |gap| == 4
    requires pgn < 0x100_0000
    ensures |header| == PayloadStart
  {
    var (lo, mid, hi) := PgnBytes(pgn);
    lead + [packetLength, priority, lo, mid, hi, destination, source] + gap + [dataLength]
  }

  /** The layout of a frame, written forwards: the header bytes, the data,
      one more payload byte and a two-byte trailer. */
  function BuildFrame(
    lead: seq<bv8>, packetLength: bv8, priority: bv8, pgn: bv32,
    destination: bv8, source: bv8, gap: seq<bv8>, dataLength: bv8,
    data: seq<bv8>, extra: bv8, trailer: seq<bv8>): (frame: seq<bv8>)
    requires |lead| == 3 && |gap| == 4 && |trailer| == PayloadTrailer
    requires pgn < 0x100_0000
    ensures |frame| == MinFrameLength + |data|
  {
    HeaderBytes(lead, packetLength, priority, pgn, destination, source, gap, dataLength)
      + (data + [extra] + trailer)
  }

  /** Parsing a built frame gives back every field it was built from. */
  lemma {:induction false} ParseBuildFrame(
    lead: seq<bv8>, packetLength: bv8, priority: bv8, pgn: bv32,
    destination: bv8, source: bv8, gap: seq<bv8>, dataLength: bv8,
    data: seq<bv8>, extra: bv8, trailer: seq<bv8>, now: int)
    requires |lead| == 3 && |gap| == 4 && |trailer| == PayloadTrailer
    requires pgn < 0x100_0000
    ensures var frame := Whole(BuildFrame(lead, packetLength, priority, pgn,
                                          destination, source, gap, dataLength,
                                          data, extra, trailer));
            var msg := ParseMsg(frame, now);
            && msg.packetLength == packetLength && msg.priority == priority
            && msg.pgn == pgn && msg.destination == destination
            && msg.source == source && msg.timeStamp == now
            && msg.dataLength == dataLength && msg.data.Contents() == data
            && Payload(frame).Contents() == data + [extra]
  {
  }

  /** Every frame the parser accepts is the built frame of what it parses
      out of it, its unread bytes and its trailer: the parser reads exactly
      the header bytes 3-9 and 14 and the payload window. */
  lemma {:induction false} BuildFrameOfParse(frame: seq<bv8>, now: int)
    requires |frame| >= MinFrameLength
    ensures var msg := ParseMsg(Whole(frame), now);
            var n := |frame|;
            frame == BuildFrame(frame[..3], msg.packetLength, msg.priority, msg.pgn,
                                msg.destination, msg.source, frame[10..14],
                                msg.dataLength, msg.data.Contents(), frame[n - 3],
                                frame[n - 2..])
  {
    var n := |frame|;
    var msg := ParseMsg(Whole(frame), now);
    assert msg.pgn == Pgn(frame[5], frame[6], frame[7]);
    HeaderOfFrame(frame);
    TailOfFrame(frame);
    assert msg.data.Contents() == frame[PayloadStart..n - DataTrailer];
    assert frame == frame[..PayloadStart] + frame[PayloadStart..];
  }

  /** A frame's first fifteen bytes are the header bytes of the fields they
      hold. */
  lemma HeaderOfFrame(frame: seq<bv8>)
    requires |frame| >= PayloadStart
    ensures frame[..PayloadStart]
         == HeaderBytes(frame[..3], frame[3], frame[4], Pgn(frame[5], frame[6], frame[7]),
                        frame[8], frame[9], frame[10..14], frame[14])
  {
    PgnBytesOfPgn(frame[5], frame[6], frame[7]);
    var header := HeaderBytes(frame[..3], frame[3], frame[4], Pgn(frame[5], frame[6], frame[7]),
                              frame[8], frame[9], frame[10..14], frame[14]);
    assert header == frame[..3] + frame[3..10] + frame[10..14] + [frame[14]];
    assert frame[..PayloadStart] == frame[..3] + frame[3..10] + frame[10..14] + [frame[14]];
  }

  /** A frame's bytes after the header are the data window, one byte and
      the two-byte trailer. */
  lemma TailOfFrame(frame: seq<bv8>)
    requires |frame| >= MinFrameLength
    ensures var n := |frame|;
            frame[PayloadStart..] ==
              frame[PayloadStart..n - DataTrailer] + [frame[n - DataTrailer]] + frame[n - PayloadTrailer..]
  {
  }
}
