/**
  The byte loops msrp_increment_streamid and mmrp_increment_macaddr, which step a vector's
  first value in place.
 */
module FirstValues {
  import opened Mrpdu

  /** All bytes but the first are stepped as a counter; IncrementCounts says what that computes. */
  method IncrementInPlace(a: array<byte>)
    requires a.Length >= 1
    modifies a
    ensures a[..] == Increment(old(a[..]))
    ensures BigEndian(a[1..]) == (BigEndian(old(a[1..])) + 1) % Power256(a.Length - 1)
  {
    hide BigEndian, Power256;
    ghost var s := a[..];
    var i := a.Length - 1;
    while i > 0 && a[i] == 255
      invariant 0 <= i < a.Length
      invariant Carry(s, a.Length - 1) == Carry(a[..], i)
    {
      assert a[..][i] == a[i];
      ghost var before := a[..];
      a[i] := 0;
      assert a[..] == before[i := 0];
      i := i - 1;
    }
    if i > 0 {
      ghost var before := a[..];
      a[i] := a[i] + 1;
      assert a[..] == before[i := before[i] + 1];
    }
    IncrementCounts(s);
    assert a[..][1..] == a[1..] && s[1..] == old(a[1..]);
  }
}
