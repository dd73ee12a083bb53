/** The decoder for PGN 130306 (wind data). The decoder is an object whose
    fields `parseData` overwrites in place. */
module Wind {
  import opened Slices

  /** What a `WindData` object holds, as a value: the byte contents of its
      two slice fields, as printing the object would show them. */
  datatype WindRecord = WindRecord(
    sid: bv8,
    windSpeed: seq<bv8>,
    windDirection: seq<bv8>,
    windReference: bv16,
    reservedBits: bv16)

  /** The record after decoding `data` over `prev`: the sequence id is
      payload byte 0, the speed and direction are the two-byte windows at
      offsets 1 and 3 (re-sliced, so they may reach past `len(data)` up to
      `cap(data)`), and the reference and reserved bits keep their values. */
  function Decode(prev: WindRecord, data: Slice): (r: WindRecord)
    requires data.Valid() && 1 <= data.len && 5 <= data.Cap()
    ensures r.sid == data.Contents()[0]
    ensures |r.windSpeed| == 2 && |r.windDirection| == 2
    ensures r.windSpeed + r.windDirection == data.backing[data.offset + 1..data.offset + 5]
    ensures 5 <= data.len ==>
              r.windSpeed == data.Contents()[1..3] && r.windDirection == data.Contents()[3..5]
    ensures r.windReference == prev.windReference && r.reservedBits == prev.reservedBits
  {
    prev.(sid := data.At(0),
          windSpeed := data.Sub(1, 3).Contents(),
          windDirection := data.Sub(3, 5).Contents())
  }

  /** Decoding depends only on the payload's first five bytes (through its
      capacity) and on the fields it does not write. */
  lemma DecodeReadsFiveBytes(prev: WindRecord, data: Slice, prev': WindRecord, data': Slice)
    requires data.Valid() && 1 <= data.len && 5 <= data.Cap()
    requires data'.Valid() && 1 <= data'.len && 5 <= data'.Cap()
    requires data.backing[data.offset..data.offset + 5] == data'.backing[data'.offset..data'.offset + 5]
    requires prev.windReference == prev'.windReference && prev.reservedBits == prev'.reservedBits
    ensures Decode(prev, data) == Decode(prev', data')
  {
    DecodeOfWindow(prev, data);
    DecodeOfWindow(prev', data');
  }

  /** The decoded record, read off the five-byte window at the payload's
      start. */
  lemma DecodeOfWindow(prev: WindRecord, data: Slice)
    requires data.Valid() && 1 <= data.len && 5 <= data.Cap()
    ensures var w := data.backing[data.offset..data.offset + 5];
            Decode(prev, data) == WindRecord(w[0], w[1..3], w[3..5], prev.windReference, prev.reservedBits)
  {
    var w := data.backing[data.offset..data.offset + 5];
    assert data.At(0) == w[0];
    WindowPart(data.backing, data.offset, 1, 3);
    WindowPart(data.backing, data.offset, 3, 5);
  }

  /** A part of a five-byte window is the same part of the backing array. */
  lemma WindowPart(backing: seq<bv8>, offset: nat, lo: nat, hi: nat)
    requires offset + 5 <= |backing| && lo <= hi <= 5
    ensures backing[offset..offset + 5][lo..hi] == backing[offset + lo..offset + hi]
  {
    var w := backing[offset..offset + 5];
    assert forall i | 0 <= i < hi - lo :: w[lo..hi][i] == w[lo + i] == backing[offset + lo + i];
  }

  /** Decoding twice keeps only the second payload: the last decode wins. */
  lemma DecodeLastWins(prev: WindRecord, first: Slice, second: Slice)
    requires first.Valid() && 1 <= first.len && 5 <= first.Cap()
    requires second.Valid() && 1 <= second.len && 5 <= second.Cap()
    ensures Decode(Decode(prev, first), second) == Decode(prev, second)
  {
  }

  /** `WindData` (PGN 130306). */
  class WindData {
    var sid: bv8
    var windSpeed: Slice
    var windDirection: Slice
    var windReference: bv16
    var reservedBits: bv16

    ghost predicate Valid()
      reads this
    {
      windSpeed.Valid() && windDirection.Valid()
    }

    /** The object's current contents. */
    function View(): WindRecord
      reads this
      requires Valid()
    {
      WindRecord(sid, windSpeed.Contents(), windDirection.Contents(), windReference, reservedBits)
    }

    /** `&WindData{}`: every field holds its zero value. */
    constructor ()
      ensures Valid()
      ensures View() == WindRecord(0, [], [], 0, 0)
    {
      sid, windSpeed, windDirection, windReference, reservedBits := 0, Nil, Nil, 0, 0;
    }

    /** `parseData`: overwrite the sequence id and the two slice fields from
        the payload. The new slices share the payload's backing array. */
    method ParseData(data: Slice)
      requires Valid()
      requires data.Valid() && 1 <= data.len && 5 <= data.Cap()
      modifies this
      ensures Valid()
      ensures windSpeed == data.Sub(1, 3) && windDirection == data.Sub(3, 5)
      ensures View() == Decode(old(View()), data)
    {
      sid := data.At(0);
      windSpeed := data.Sub(1, 3);
      windDirection := data.Sub(3, 5);
    }
  }
}
