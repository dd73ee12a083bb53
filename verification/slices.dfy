/** Go byte slices (`[]byte`).

    A Go slice is a window onto a backing array: it has a length, which bounds
    indexing, and a capacity, which bounds re-slicing. `s[lo:hi]` is legal
    whenever `lo <= hi <= cap(s)`, so a re-slice may reach past `len(s)` into
    the rest of the backing array. The frame decoder relies on both rules, so
    they are modelled here rather than approximated by plain sequences. */
module Slices {

  /** A slice of `len` bytes starting at `offset` in `backing`. */
  datatype Slice = Slice(backing: seq<bv8>, offset: nat, len: nat) {

    predicate Valid() {
      offset + len <= |backing|
    }

    /** `cap(s)`: how far the slice may be re-sliced. */
    function Cap(): (c: nat)
      requires Valid()
      ensures len <= c
    {
      |backing| - offset
    }

    /** The bytes the slice shows. */
    function Contents(): (s: seq<bv8>)
      requires Valid()
      ensures |s| == len
    {
      backing[offset..offset + len]
    }

    /** `s[i]`, which Go allows only below `len(s)`. */
    function At(i: nat): (b: bv8)
      requires Valid() && i < len
      ensures b == Contents()[i]
    {
      backing[offset + i]
    }

    /** `s[lo:hi]`, which Go allows up to `cap(s)`; the result shares the
        backing array. */
    function Sub(lo: nat, hi: nat): (s: Slice)
      requires Valid() && lo <= hi <= Cap()
      ensures s.Valid() && s.backing == backing
      ensures s.len == hi - lo && s.Cap() == Cap() - lo
      ensures s.Contents() == backing[offset + lo..offset + hi]
      ensures hi <= len ==> s.Contents() == Contents()[lo..hi]
    {
      assert hi <= len ==>
        forall i | 0 <= i < hi - lo :: Contents()[lo..hi][i] == backing[offset + lo + i];
      Slice(backing, offset + lo, hi - lo)
    }
  }

  /** The zero value of a slice field (`nil`). */
  const Nil := Slice([], 0, 0)

  /** A slice over a whole array, as a slice literal produces: length and
      capacity are both the number of elements. */
  function Whole(s: seq<bv8>): (r: Slice)
    ensures r.Valid() && r.Contents() == s && r.Cap() == |s| == r.len
  {
    Slice(s, 0, |s|)
  }
}
