# NMEA 2000 frame decoder, modelled in Dafny

This project models the frame decoder of a small Go program that reads
NMEA 2000 frames. A frame is a byte buffer. The decoder has three parts:

- `parse` reads the envelope at fixed offsets. These are the packet length
  (byte 3), the priority (byte 4), a 24-bit little-endian PGN (bytes 5-7),
  the destination (byte 8), the source (byte 9) and the data length
  (byte 14). It cuts `Msg.Data = frame[15:len-3]` and the decoder payload
  `frame[15:len-2]`.
- `createDataType` looks the PGN up in `pgnMap` and fails on an unknown PGN.
  For a known PGN it runs that entry's `parseData` in place and returns the
  registry's own object.
- `(*WindData).parseData`, for PGN 130306, stores `data[0]` as the sequence
  id, and `data[1:3]` and `data[3:5]` as the wind speed and wind direction
  slices.

Modules:

- `Slices` (slices.dfy): Go `[]byte` semantics. A slice is a window onto a
  backing array. Indexing is bounded by its length. Re-slicing is bounded by
  its capacity, so `data[3:5]` is legal whenever `cap(data) >= 5`, even if
  `len(data) < 5`. Slice fields keep the backing array they were cut from.
- `Envelope` (envelope.dfy): the `Msg` record, the PGN computation (Go's
  `uint32` is a `bv32`), `ParseMsg` (the header half of `parse`) and
  `Payload`. `BuildFrame` writes the frame layout forwards. It is used only
  to state that parsing reads exactly the offsets above.
- `Wind` (wind.dfy): `WindData` is a class whose fields `ParseData`
  overwrites. `Decode` is the same update on values and is the
  specification of `ParseData`.
- `Registry` (registry.dfy): `PgnMap` is a class holding the map from PGN
  to the shared `WindData` object. It provides `CreateDataType` and `Parse`
  (the whole of `parse`). It also decodes the program's sample frame.

The sample frame of the program's entry point,
`16 2 147 19 2 2 253 1 255 36 108 176 2 0 8 64 15 0 102 108 248 255 255 248 16 3`,
carries PGN `2 | 253<<8 | 1<<16 = 130306`. Its payload `frame[15:24]`
starts with `64, 15, 0, 102, 108`. It decodes to sequence id 64, speed
bytes `[15, 0]` and direction bytes `[102, 108]`.

`parseData` needs `len(data) >= 1` and `cap(data) >= 5`, because Go bounds
an index by the length but a re-slice by the capacity. For a frame whose
PGN is registered, `parse` therefore needs the frame's capacity to reach 20
bytes. For a frame of length `n`, the payload is `frame[15:n-2]` and the
trailer is `frame[n-2:n]`. The sequence id is `frame[15]`, the speed is
`frame[16:18]` and the direction is `frame[18:20]`. So, length by length:

- `n = 18`: the payload is `frame[15]` alone. Both speed bytes
  `frame[16]`, `frame[17]` are the trailer. Both direction bytes
  `frame[18]`, `frame[19]` lie past `len(frame)`, inside the capacity only.
- `n = 19`: speed byte `frame[16]` is in the payload and `frame[17]` is the
  trailer. Direction byte `frame[18]` is the trailer and `frame[19]` lies
  past `len(frame)`, inside the capacity only.
- `n = 20`: the speed is in the payload. Both direction bytes `frame[18]`,
  `frame[19]` are the trailer.
- `n = 21`: direction byte `frame[18]` is payload byte 3 and `frame[19]` is
  the trailer.
- `n >= 22`: all five bytes are in the payload.

The model states this: `Decode` speaks of `data.backing`, and says that it
agrees with `data.Contents()` once `len(data) >= 5`.

## Model

| member | source | states |
|---|---|---|
| `Slices.Slice.Sub` | main.go:82-83 | re-slicing up to the capacity shares the backing array, has length `hi - lo` and capacity `cap - lo`, and shows the backing bytes at that window, which are the slice's own bytes when `hi <= len` |
| `Envelope.Pgn` | main.go:47 | the PGN combined from bytes 5-7 by OR and shifts is always below 2^24 |
| `Envelope.PgnBytes` | main.go:47 | splitting a 24-bit PGN into three little-endian bytes and recombining them gives the PGN back |
| `Envelope.PgnBytesOfPgn` | main.go:47 | recombining three bytes and splitting the PGN gives the three bytes back |
| `Envelope.PgnInjective` | main.go:47 | two frames carry the same PGN if and only if their bytes 5-7 agree |
| `Envelope.PgnOf` | main.go:47 | the frame's PGN is below 2^24, and its three little-endian bytes are exactly frame bytes 5, 6 and 7 |
| `Envelope.ParseMsg` | main.go:47-59 | needs at least 18 bytes; the packet length is byte 3, the priority byte 4, the PGN that of bytes 5-7 (below 2^24), the destination byte 8, the source byte 9, the data length byte 14, and the timestamp the given clock reading; `Msg.Data` is `frame[15..len-3)`, of length `len - 18`, on the frame's backing array |
| `Envelope.Payload` | main.go:61 | the decoder payload is `frame[15..len-2)` on the frame's backing array, with capacity `cap(frame) - 15` |
| `Envelope.DataIsPayloadPrefix` | main.go:58-61 | the decoder payload is `Msg.Data` followed by exactly one more byte, `frame[len-3]` |
| `Envelope.BuildFrame` | main.go:47-61 | a frame laid out as three unread bytes, header bytes 3-9, four unread bytes, the data length, the data, one payload byte and a two-byte trailer is 18 bytes longer than its data |
| `Envelope.ParseBuildFrame` | main.go:47-61 | parsing such a frame gives back the packet length, priority, PGN, destination, source, data length and data it was built from, the given timestamp, and the data plus the extra byte as payload |
| `Envelope.BuildFrameOfParse` | main.go:47-61 | every frame of 18 bytes or more is the frame built from its parsed fields, bytes 0-2 and 10-13, and its last three bytes; so the parser reads bytes 3-9 and 14 and the payload window, and nothing else |
| `Envelope.HeaderOfFrame` | main.go:47-58 | a frame's first fifteen bytes are bytes 0-2, the packet length, priority, the three PGN bytes, destination, source, bytes 10-13 and the data length, in that order |
| `Wind.Decode` | main.go:80-85 | the sequence id is payload byte 0; speed and direction are two bytes each and together are the five-byte window's bytes 1-4, even when that window reaches past `len(data)`; when `len(data) >= 5` they are `data[1..3)` and `data[3..5)`; wind reference and reserved bits are unchanged |
| `Wind.DecodeReadsFiveBytes` | main.go:81-83 | the decoded record depends only on the first five bytes of the payload window and on the two fields decoding leaves alone |
| `Wind.DecodeOfWindow` | main.go:81-83 | the decoded record is byte 0, bytes 1-2 and bytes 3-4 of the five-byte window at the payload's start, read from the backing array, with reference and reserved bits kept |
| `Wind.DecodeLastWins` | main.go:80-83 | decoding a second payload over the result of a first gives the same record as decoding the second alone |
| `Wind.WindData.constructor` | main.go:37 | `&WindData{}` holds a zero sequence id, nil speed and direction slices, and zero reference and reserved bits |
| `Wind.WindData.ParseData` | main.go:80-85 | stores `data[0]` and the re-slices `data[1:3]`, `data[3:5]` (sharing the payload's backing array); the object's new contents are `Decode` of its old contents; requires `len(data) >= 1` and `cap(data) >= 5` |
| `Registry.PgnMap.constructor` | main.go:36-39 | the registry maps only PGN 130306, to a fresh zero `WindData` |
| `Registry.PgnMap.CreateDataType` | main.go:69-78 | an unknown PGN gives the error and modifies no decoder; a known PGN returns the registry's own object, whose new contents are `Decode` of its old contents with this payload; nothing else changes |
| `Registry.PgnMap.Parse` | main.go:46-67 | the envelope is `ParseMsg` of the frame; the dispatch outcome is `CreateDataType` of the frame's PGN and `Payload` of the frame |
| `Registry.DecodeTwice` | main.go:69-78 | two decodes through the same registry return the same shared object, and that object holds what the second payload says |
| `Registry.DecodeSampleFrame` | main.go:41-44 | on the sample frame: PGN 130306, packet length 19, priority 2, destination 255, source 36, data length 8, `Msg.Data` of 8 bytes `64 15 0 102 108 248 255 255`, and a decoded record with sequence id 64, speed `[15, 0]`, direction `[102, 108]` |
| `Registry.SampleEnvelope` | main.go:46-59 | the envelope fields of the sample frame, as listed for `DecodeSampleFrame` |
| `Registry.SamplePgn` | main.go:42-47 | bytes 5-7 of the sample frame, `2 253 1`, make PGN 130306 |
| `Registry.SampleDecode` | main.go:80-83 | decoding the sample payload over a zero record gives sequence id 64, speed `[15, 0]` and direction `[102, 108]` |

## Left out

- Printing (`fmt.Println`) of the PGN, the message, errors and the decoded
  record. `Parse` returns the message and the dispatch outcome instead of
  printing them.
- `time.Now()`. The timestamp is a parameter `now` that `ParseMsg` copies
  into `Msg.timeStamp`.
- The text of the `fmt.Errorf` error. It is the single variant
  `UnrecognizablePgn`.
- Go runtime panics. Out-of-range indexing and slicing are `requires`
  clauses that follow Go's rules: an index must be below the length, and a
  slice bound must be within the capacity.
- `parse` takes a frame of any capacity. The sample frame is a slice
  literal, so its capacity equals its length.
- Aliasing through the backing array is captured only as a value. Slice
  fields record the backing array and the window they were cut from.
  Nothing in the program writes to a frame after parsing it, so a later
  write showing through a stored slice is not modelled.
- The `PGNData` interface has a single implementation, `WindData`. The
  registry maps PGNs to `WindData` objects.
- The following are not in the program, so the model leaves them out:
  - physical scaling of wind speed and direction
  - "data not available" sentinels
  - decoding of the wind reference and reserved bits
  - a check of the declared data length against the actual payload length
  - a generic bit-field extractor
