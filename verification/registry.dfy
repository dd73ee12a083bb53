/** The PGN registry (`pgnMap`), the dispatcher `createDataType`, and `parse`,
    which cuts a frame apart and hands its payload to the dispatcher. */
module Registry {
  import opened Slices
  import opened Envelope
  import opened Wind

  /** The PGN of wind data, the only PGN the registry knows. */
  const WindDataPgn: bv32 := 130306

  /** The one failure of `createDataType`: no decoder for the PGN. */
  datatype Error = UnrecognizablePgn

  /** A decoder, or the reason there is none (Go's `(PGNData, error)`). */
  datatype Result<T> = Ok(value: T) | Err(error: Error)

  /** `pgnMap`. Each registered PGN maps to one decoder object, which is
      created once and shared by every decode of that PGN. The map is keyed
      by the PGN's numeric value. */
  class PgnMap {
    var decoders: map<int, WindData>

    ghost predicate Valid()
      reads this, decoders.Values
    {
      forall pgn | pgn in decoders :: decoders[pgn].Valid()
    }

    /** The initial registry: PGN 130306 maps to a zero `WindData`. */
    constructor ()
      ensures Valid()
      ensures decoders.Keys == {WindDataPgn as int}
      ensures fresh(decoders[WindDataPgn as int])
      ensures decoders[WindDataPgn as int].View() == WindRecord(0, [], [], 0, 0)
    {
      var wind := new WindData();
      decoders := map[WindDataPgn as int := wind];
    }

    /** `createDataType`: an unknown PGN fails and touches no decoder; a known
        one runs its decoder on `data` in place and returns that very
        object. Only that one decoder changes; the registry itself does not. */
    method CreateDataType(pgn: bv32, data: Slice) returns (r: Result<WindData>)
      requires Valid() && data.Valid()
      requires pgn as int in decoders ==> 1 <= data.len && 5 <= data.Cap()
      modifies if pgn as int in decoders then {decoders[pgn as int]} else {}
      ensures Valid()
      ensures pgn as int !in decoders ==> r == Err(UnrecognizablePgn)
      ensures pgn as int in decoders ==>
                && r == Ok(decoders[pgn as int])
                && r.value.View() == Decode(old(decoders[pgn as int].View()), data)
    {
      var key := pgn as int;
      if key !in decoders {
        return Err(UnrecognizablePgn);
      }
      var v := decoders[key];
      v.ParseData(data);
      return Ok(v);
    }

    /** `parse`: the envelope of `frame`, and the outcome of dispatching the
        payload `frame[15:len(frame)-2]` on the frame's PGN. The decoder's
        payload has one byte at least; for a known PGN the frame's capacity
        must reach byte 20 so that the decoder's re-slices stay legal. */
    method Parse(frame: Slice, now: int) returns (msg: Msg, t: Result<WindData>)
      requires Valid() && frame.Valid() && frame.len >= MinFrameLength
      requires PgnOf(frame) as int in decoders ==> frame.Cap() >= PayloadStart + 5
      modifies if PgnOf(frame) as int in decoders then {decoders[PgnOf(frame) as int]} else {}
      ensures Valid()
      ensures msg == ParseMsg(frame, now)
      ensures msg.pgn as int !in decoders ==> t == Err(UnrecognizablePgn)
      ensures msg.pgn as int in decoders ==>
                && t == Ok(decoders[msg.pgn as int])
                && t.value.View() == Decode(old(decoders[msg.pgn as int].View()), Payload(frame))
    {
      msg := ParseMsg(frame, now);
      var data := Payload(frame);
      t := CreateDataType(msg.pgn, data);
    }
  }

  /** Two decodes through the same registry return the same object, and it
      holds only what the second payload says. */
  method DecodeTwice(registry: PgnMap, first: Slice, second: Slice)
    returns (r1: Result<WindData>, r2: Result<WindData>)
    requires registry.Valid() && WindDataPgn as int in registry.decoders
    requires first.Valid() && 1 <= first.len && 5 <= first.Cap()
    requires second.Valid() && 1 <= second.len && 5 <= second.Cap()
    modifies registry.decoders[WindDataPgn as int]
    ensures registry.Valid()
    ensures r1 == r2 == Ok(registry.decoders[WindDataPgn as int])
    ensures r1.value.View() == Decode(old(registry.decoders[WindDataPgn as int].View()), second)
  {
    r1 := registry.CreateDataType(WindDataPgn, first);
    r2 := registry.CreateDataType(WindDataPgn, second);
    DecodeLastWins(old(registry.decoders[WindDataPgn as int].View()), first, second);
  }

  /** The sample frame of the program's entry point. */
  const SampleFrame: seq<bv8> :=
    [16, 2, 147, 19, 2, 2, 253, 1, 255, 36, 108, 176, 2, 0, 8,
     64, 15, 0, 102, 108, 248, 255, 255, 248, 16, 3]

  /** What the entry point computes: parse the sample frame with a fresh
      registry. */
  method DecodeSampleFrame(now: int) returns (msg: Msg, record: WindRecord)
    ensures msg.pgn == 130306 && msg.packetLength == 19 && msg.priority == 2
    ensures msg.destination == 255 && msg.source == 36 && msg.timeStamp == now
    ensures msg.dataLength == 8 && msg.data.Valid() && msg.data.len == 8
    ensures msg.data.Contents() == [64, 15, 0, 102, 108, 248, 255, 255]
    ensures record == WindRecord(64, [15, 0], [102, 108], 0, 0)
  {
    var registry := new PgnMap();
    var frame := Whole(SampleFrame);
    SampleEnvelope(now);
    SampleDecode();
    var t;
    msg, t := registry.Parse(frame, now);
    record := t.value.View();
  }

  /** The envelope of the sample frame. */
  lemma SampleEnvelope(now: int)
    ensures var msg := ParseMsg(Whole(SampleFrame), now);
            && msg.pgn == WindDataPgn && msg.packetLength == 19 && msg.priority == 2
            && msg.destination == 255 && msg.source == 36 && msg.timeStamp == now
            && msg.dataLength == 8 && msg.data.Valid() && msg.data.len == 8
            && msg.data.Contents() == [64, 15, 0, 102, 108, 248, 255, 255]
  {
    var frame := Whole(SampleFrame);
    var msg := ParseMsg(frame, now);
    assert frame.Contents() == SampleFrame;
    SamplePgn(frame);
    assert msg.data.Contents() == SampleFrame[PayloadStart..|SampleFrame| - DataTrailer];
  }

  /** Bytes 5-7 of the sample frame, 2, 253 and 1, make PGN 130306. */
  lemma SamplePgn(frame: Slice)
    requires frame.Valid() && frame.Contents() == SampleFrame
    ensures PgnOf(frame) == WindDataPgn
  {
    assert frame.At(5) == 2 && frame.At(6) == 253 && frame.At(7) == 1;
    assert Pgn(2, 253, 1) == WindDataPgn;
  }

  /** Decoding the sample payload over a zero record. */
  lemma SampleDecode()
    ensures Decode(WindRecord(0, [], [], 0, 0), Payload(Whole(SampleFrame)))
         == WindRecord(64, [15, 0], [102, 108], 0, 0)
  {
    var payload := Payload(Whole(SampleFrame));
    assert payload.Contents() == SampleFrame[15..24];
  }
}
