/**
  The Internet checksum of examples/simple_talker/simple_talker.c: one buffer, and a
  scatter/gather list of buffers. The host is little-endian, so a 16-bit load weighs the byte
  at an odd offset by 256.
 */
module InetChecksum {

  type byte = x: int | 0 <= x < 256

  /** The 32-bit accumulator; that every sum is one is the proof that it never wraps. */
  type u32 = x: int | 0 <= x < 0x1_0000_0000

  type u16 = x: int | 0 <= x < 0x1_0000

  /** A 16-bit load, or a pending byte joined with the next one. */
  function Pair(low: byte, high: byte): u16 {
    low as int + 256 * high as int
  }

  // ---------------------------------------------------------------- Sums

  function Weight(odd: bool): nat { if odd then 256 else 1 }

  function Flip(odd: bool, n: nat): bool { odd != (n % 2 == 1) }

  /** The sum of the 16-bit words of `b`, when `b` starts at an even or odd offset. */
  function WordSum(b: seq<byte>, odd: bool): nat {
    if b == [] then 0 else b[0] * Weight(odd) + WordSum(b[1..], !odd)
  }

  /** End-around carry: the 16-bit ones' complement value of a sum. */
  function Canonical(sum: nat): (r: u16) {
    if sum == 0 then 0 else (sum - 1) % 65535 + 1
  }

  function Fold(sum: u32): (r: u32) {
    sum % 65536 + sum / 65536
  }

  /** The checksum of a byte string, as RFC 1071 defines it in section 1. */
  function Checksum(b: seq<byte>): u16 {
    65535 - Canonical(WordSum(b, false))
  }

  lemma Remainder(x: nat, q: nat, r: nat)
    requires x == 65535 * q + r && r < 65535
    ensures x % 65535 == r
  {
  }

  lemma CanonicalShift(x: nat, q: nat)
    requires x > 0
    ensures Canonical(x + 65535 * q) == Canonical(x)
  {
    var d, r := (x - 1) / 65535, (x - 1) % 65535;
    Remainder(x + 65535 * q - 1, d + q, r);
  }

  lemma FoldKeeps(sum: u32, more: nat)
    ensures Canonical(Fold(sum) + more) == Canonical(sum + more)
    ensures sum >= 65536 ==> Fold(sum) < sum
  {
    hide Canonical;
    var q := sum / 65536;
    assert sum + more == Fold(sum) + more + 65535 * q;
    if sum > 0 {
      CanonicalShift(Fold(sum) + more, q);
    }
  }

  /** while (sum >> 16) sum = (sum & 0xFFFF) + (sum >> 16); return ~sum */
  method FoldAll(sum0: u32) returns (r: u16)
    ensures r == 65535 - Canonical(sum0)
  {
    var sum := sum0;
    while sum / 65536 != 0
      invariant Canonical(sum) == Canonical(sum0)
      decreases sum
    {
      FoldKeeps(sum, 0);
      sum := Fold(sum);
    }
    r := 65535 - sum;
  }

  function FoldHigh(sum: u32): (r: u32)
    ensures r < 0x8000_0000
  {
    if sum >= 0x8000_0000 then Fold(sum) else sum
  }

  lemma FoldHighKeeps(sum: u32, more: nat)
    ensures Canonical(FoldHigh(sum) + more) == Canonical(sum + more)
  {
    FoldKeeps(sum, more);
  }

  lemma TwoBytes(b: seq<byte>, i: nat)
    requires i + 1 < |b|
    ensures WordSum(b[i..], false) == Pair(b[i], b[i + 1]) + WordSum(b[i + 2..], false)
  {
    assert b[i..][1..] == b[i + 1..] && b[i + 1..][1..] == b[i + 2..];
  }

  lemma LastByte(b: seq<byte>, i: nat, odd: bool)
    requires i + 1 == |b|
    ensures WordSum(b[i..], odd) == b[i] * Weight(odd)
  {
    assert b[i..][1..] == [];
  }

  method InetChecksum(ip: seq<byte>) returns (r: u16)
    ensures r == Checksum(ip)
  {
    var sum: u32, i := 0, 0;
    while |ip| - i > 1
      invariant 0 <= i <= |ip| && sum < 0x8000_0000
      invariant Canonical(sum + WordSum(ip[i..], false)) == Canonical(WordSum(ip, false))
    {
      TwoBytes(ip, i);
      sum := sum + Pair(ip[i], ip[i + 1]);
      i := i + 2;
      FoldHighKeeps(sum, WordSum(ip[i..], false));
      sum := FoldHigh(sum);
    }
    if i < |ip| {
      LastByte(ip, i, false);
      sum := sum + ip[i];
    }
    r := FoldAll(sum);
  }

  // ---------------------------------------------------------------- Scatter/gather

  function Concat(bufs: seq<seq<byte>>): seq<byte> {
    if bufs == [] then [] else bufs[0] + Concat(bufs[1..])
  }

  predicate AllEmpty(bufs: seq<seq<byte>>) {
    forall i :: 0 <= i < |bufs| ==> bufs[i] == []
  }

  /** What the scatter/gather loop adds up: an empty buffer ends a pending odd byte early. */
  function GatherSum(bufs: seq<seq<byte>>, odd: bool): nat {
    if bufs == [] then 0
    else if bufs[0] == [] && odd then GatherSum(bufs[1..], false)
    else WordSum(bufs[0], odd) + GatherSum(bufs[1..], Flip(odd, |bufs[0]|))
  }

  /** No empty buffer at an odd offset has data after it. True of every list of non-empty buffers. */
  predicate Aligned(bufs: seq<seq<byte>>, odd: bool) {
    bufs == [] ||
    (if bufs[0] == [] && odd then AllEmpty(bufs[1..]) else Aligned(bufs[1..], Flip(odd, |bufs[0]|)))
  }

  lemma {:induction false} WordSumConcat(a: seq<byte>, b: seq<byte>, odd: bool)
    ensures WordSum(a + b, odd) == WordSum(a, odd) + WordSum(b, Flip(odd, |a|))
  {
    if a == [] {
      assert a + b == b;
    } else {
      assert (a + b)[1..] == a[1..] + b;
      WordSumConcat(a[1..], b, !odd);
    }
  }

  lemma {:induction false} EmptySums(bufs: seq<seq<byte>>, odd: bool)
    requires AllEmpty(bufs)
    ensures WordSum(Concat(bufs), odd) == 0 && GatherSum(bufs, odd) == 0
  {
    if bufs != [] {
      EmptySums(bufs[1..], odd);
      EmptySums(bufs[1..], false);
      assert [] + Concat(bufs[1..]) == Concat(bufs[1..]);
    }
  }

  /** For aligned lists the loop's total is the word sum of the concatenation. */
  lemma {:induction false} GatherIsFlat(bufs: seq<seq<byte>>, odd: bool)
    requires Aligned(bufs, odd)
    ensures GatherSum(bufs, odd) == WordSum(Concat(bufs), odd)
  {
    if bufs != [] {
      WordSumConcat(bufs[0], Concat(bufs[1..]), odd);
      if bufs[0] == [] && odd {
        EmptySums(bufs[1..], odd);
        EmptySums(bufs[1..], false);
      } else {
        GatherIsFlat(bufs[1..], Flip(odd, |bufs[0]|));
      }
    }
  }

  lemma {:induction false} NonEmptyAligned(bufs: seq<seq<byte>>, odd: bool)
    requires forall i :: 0 <= i < |bufs| ==> bufs[i] != []
    ensures Aligned(bufs, odd)
  {
    if bufs != [] {
      NonEmptyAligned(bufs[1..], Flip(odd, |bufs[0]|));
    }
  }

  // A list of the same shape, all zeros but for one byte, that shows an unaligned list go wrong.

  function Zeros(n: nat): (r: seq<byte>)
    ensures |r| == n
  {
    if n == 0 then [] else [0] + Zeros(n - 1)
  }

  function MarkFirst(bufs: seq<seq<byte>>): (r: seq<seq<byte>>)
    ensures |r| == |bufs| && forall i :: 0 <= i < |r| ==> |r[i]| == |bufs[i]|
  {
    if bufs == [] then []
    else if bufs[0] == [] then [[]] + MarkFirst(bufs[1..])
    else [[1] + Zeros(|bufs[0]| - 1)] + Blanks(bufs[1..])
  }

  function Blanks(bufs: seq<seq<byte>>): (r: seq<seq<byte>>)
    ensures |r| == |bufs| && forall i :: 0 <= i < |r| ==> |r[i]| == |bufs[i]|
  {
    if bufs == [] then [] else [Zeros(|bufs[0]|)] + Blanks(bufs[1..])
  }

  function Probe(bufs: seq<seq<byte>>, odd: bool): (r: seq<seq<byte>>)
    ensures |r| == |bufs| && forall i :: 0 <= i < |r| ==> |r[i]| == |bufs[i]|
  {
    if bufs == [] then []
    else if bufs[0] == [] && odd && !AllEmpty(bufs[1..]) then [[]] + MarkFirst(bufs[1..])
    else [Zeros(|bufs[0]|)] + Probe(bufs[1..], Flip(odd, |bufs[0]|))
  }

  lemma {:induction false} ZerosSum(n: nat, odd: bool)
    ensures WordSum(Zeros(n), odd) == 0
  {
    if n > 0 {
      assert Zeros(n)[1..] == Zeros(n - 1);
      ZerosSum(n - 1, !odd);
    }
  }

  lemma {:induction false} BlanksSum(bufs: seq<seq<byte>>, odd: bool)
    ensures WordSum(Concat(Blanks(bufs)), odd) == 0 && GatherSum(Blanks(bufs), odd) == 0
  {
    if bufs != [] {
      var rest := Blanks(bufs[1..]);
      assert Blanks(bufs)[1..] == rest;
      ZerosSum(|bufs[0]|, odd);
      WordSumConcat(Zeros(|bufs[0]|), Concat(rest), odd);
      BlanksSum(bufs[1..], Flip(odd, |bufs[0]|));
      BlanksSum(bufs[1..], false);
    }
  }

  lemma {:induction false} MarkFirstSum(bufs: seq<seq<byte>>, odd: bool)
    requires !AllEmpty(bufs)
    ensures WordSum(Concat(MarkFirst(bufs)), odd) == Weight(odd)
    ensures !odd ==> GatherSum(MarkFirst(bufs), odd) == 1
  {
    var r := MarkFirst(bufs);
    if bufs[0] == [] {
      assert r[1..] == MarkFirst(bufs[1..]);
      MarkFirstSum(bufs[1..], odd);
      assert [] + Concat(r[1..]) == Concat(r[1..]);
    } else {
      var n := |bufs[0]|;
      assert r[1..] == Blanks(bufs[1..]);
      assert ([1] + Zeros(n - 1))[1..] == Zeros(n - 1);
      ZerosSum(n - 1, !odd);
      WordSumConcat(r[0], Concat(r[1..]), odd);
      BlanksSum(bufs[1..], Flip(odd, n));
    }
  }

  lemma {:induction false} ProbeSum(bufs: seq<seq<byte>>, odd: bool)
    requires !Aligned(bufs, odd)
    ensures WordSum(Concat(Probe(bufs, odd)), odd) == 256 && GatherSum(Probe(bufs, odd), odd) == 1
  {
    var r := Probe(bufs, odd);
    if bufs[0] == [] && odd {
      assert r[1..] == MarkFirst(bufs[1..]);
      MarkFirstSum(bufs[1..], true);
      MarkFirstSum(bufs[1..], false);
      assert [] + Concat(r[1..]) == Concat(r[1..]);
    } else {
      var n := |bufs[0]|;
      assert r[1..] == Probe(bufs[1..], Flip(odd, n));
      ZerosSum(n, odd);
      WordSumConcat(Zeros(n), Concat(r[1..]), odd);
      ProbeSum(bufs[1..], Flip(odd, n));
    }
  }

  function GatherChecksum(bufs: seq<seq<byte>>): u16 {
    65535 - Canonical(GatherSum(bufs, false))
  }

  ghost predicate SameShape(a: seq<seq<byte>>, b: seq<seq<byte>>) {
    |a| == |b| && forall i :: 0 <= i < |a| ==> |a[i]| == |b[i]|
  }

  lemma {:induction false} AlignedByShape(a: seq<seq<byte>>, b: seq<seq<byte>>, odd: bool)
    requires SameShape(a, b)
    ensures Aligned(a, odd) == Aligned(b, odd)
  {
    if a != [] {
      assert SameShape(a[1..], b[1..]);
      assert AllEmpty(a[1..]) == AllEmpty(b[1..]);
      AlignedByShape(a[1..], b[1..], Flip(odd, |a[0]|));
    }
  }

  /**
    Splitting data into buffers of given lengths never changes the checksum, whatever the
    data, exactly when no empty buffer sits at an odd offset with data behind it.
   */
  lemma GatherChecksumIff(bufs: seq<seq<byte>>)
    ensures (forall b: seq<seq<byte>> | SameShape(bufs, b) :: GatherChecksum(b) == Checksum(Concat(b)))
       <==> Aligned(bufs, false)
  {
    if Aligned(bufs, false) {
      forall b: seq<seq<byte>> | SameShape(bufs, b) ensures GatherChecksum(b) == Checksum(Concat(b)) {
        AlignedByShape(bufs, b, false);
        GatherIsFlat(b, false);
      }
    } else {
      ProbeSum(bufs, false);
      assert SameShape(bufs, Probe(bufs, false));
    }
  }

  /** What the loop has yet to add: a pending byte counts at an even offset. */
  function Owing(pending: bool, residual: byte, bufs: seq<seq<byte>>): nat {
    (if pending then residual as int else 0) + GatherSum(bufs, pending)
  }

  lemma GatherStep(bufs: seq<seq<byte>>, i: nat, odd: bool)
    requires i < |bufs|
    ensures GatherSum(bufs[i..], odd)
         == if bufs[i] == [] && odd then GatherSum(bufs[i + 1..], false)
            else WordSum(bufs[i], odd) + GatherSum(bufs[i + 1..], Flip(odd, |bufs[i]|))
  {
    assert bufs[i..][0] == bufs[i] && bufs[i..][1..] == bufs[i + 1..];
  }

  lemma FirstByte(b: seq<byte>)
    requires b != []
    ensures WordSum(b, true) == 256 * b[0] + WordSum(b[1..], false)
  {
  }

  /** The words of one buffer from offset k on, up to a last odd byte. */
  method AddWords(b: seq<byte>, k0: nat, sum0: u32, ghost later: nat) returns (sum: u32, k: nat)
    requires k0 <= |b| && sum0 < 0x8000_0000 + 0x1_0000
    ensures k0 <= k <= |b| && |b| - k == (|b| - k0) % 2 && sum < 0x8000_0000 + 0x1_0000
    ensures Canonical(sum + WordSum(b[k..], false) + later) == Canonical(sum0 + WordSum(b[k0..], false) + later)
  {
    hide Canonical, WordSum;
    sum, k := sum0, k0;
    while |b| - k > 1
      invariant k0 <= k <= |b| && (|b| - k) % 2 == (|b| - k0) % 2 && sum < 0x8000_0000 + 0x1_0000
      invariant Canonical(sum + WordSum(b[k..], false) + later) == Canonical(sum0 + WordSum(b[k0..], false) + later)
    {
      FoldHighKeeps(sum, WordSum(b[k..], false) + later);
      TwoBytes(b, k);
      sum := FoldHigh(sum);
      sum := sum + Pair(b[k], b[k + 1]);
      k := k + 2;
    }
  }

  /** Whether a buffer leaves a last byte to be joined with the next buffer. */
  predicate Leaves(odd: bool, n: nat) {
    n > 0 && Flip(odd, n)
  }

  function Rest(odd: bool, b: seq<byte>): seq<byte> {
    if Leaves(odd, |b|) then [b[|b| - 1]] else []
  }

  /** What the scatter/gather list describes after the call: its bases and lengths are advanced as words are added. */
  function Leftover(bufs: seq<seq<byte>>, odd: bool): (r: seq<seq<byte>>)
    ensures |r| == |bufs| && forall i :: 0 <= i < |r| ==> |r[i]| <= 1
  {
    if bufs == [] then [] else [Rest(odd, bufs[0])] + Leftover(bufs[1..], Leaves(odd, |bufs[0]|))
  }

  lemma LeftoverStep(bufs: seq<seq<byte>>, i: nat, odd: bool)
    requires i < |bufs|
    ensures Leftover(bufs[i..], odd) == [Rest(odd, bufs[i])] + Leftover(bufs[i + 1..], Leaves(odd, |bufs[i]|))
  {
    hide Rest;
    assert bufs[i..][0] == bufs[i] && bufs[i..][1..] == bufs[i + 1..];
  }

  /**
    The list can be summed once: a second call sees only the last bytes that were left, and
    returns 0xFFFF if every buffer is of even length.
   */
  lemma {:induction false} SummedOnce(bufs: seq<seq<byte>>)
    requires forall i :: 0 <= i < |bufs| ==> |bufs[i]| % 2 == 0
    ensures AllEmpty(Leftover(bufs, false)) && GatherChecksum(Leftover(bufs, false)) == 0xFFFF
  {
    EvenLeavesNothing(bufs);
    EmptySums(Leftover(bufs, false), false);
  }

  lemma {:induction false} EvenLeavesNothing(bufs: seq<seq<byte>>)
    requires forall i :: 0 <= i < |bufs| ==> |bufs[i]| % 2 == 0
    ensures AllEmpty(Leftover(bufs, false))
  {
    if bufs != [] {
      EvenLeavesNothing(bufs[1..]);
    }
  }

  /** inet_checksum_sg; `iov` holds the bytes that base and length of each entry describe. */
  method InetChecksumGather(iov: array<seq<byte>>) returns (r: u16)
    modifies iov
    ensures r == GatherChecksum(old(iov[..])) && iov[..] == Leftover(old(iov[..]), false)
    ensures Aligned(old(iov[..]), false) ==> r == Checksum(Concat(old(iov[..])))
  {
    hide Canonical, GatherSum, Leftover, Aligned;
    ghost var bufs := iov[..];
    var sum: u32, pending: bool, residual: byte := GatherAll(iov);
    if pending {
      sum := sum + residual;
    }
    r := FoldAll(sum);
    if Aligned(bufs, false) {
      GatherIsFlat(bufs, false);
    }
  }

  /** The loop over the list. */
  method GatherAll(iov: array<seq<byte>>) returns (sum: u32, pending: bool, residual: byte)
    modifies iov
    ensures sum < 0x8000_0000 + 0x1_0000 && iov[..] == Leftover(old(iov[..]), false)
    ensures Canonical(sum + if pending then residual as int else 0) == Canonical(GatherSum(old(iov[..]), false))
  {
    hide Canonical, GatherSum, Leftover, Owing, Rest, Leaves;
    ghost var bufs := iov[..];
    sum, pending, residual := 0, false, 0;
    var i := 0;
    NothingOwing(bufs, residual);
    while i < iov.Length
      invariant 0 <= i <= iov.Length == |bufs| && sum < 0x8000_0000 + 0x1_0000
      invariant Canonical(sum + Owing(pending, residual, bufs[i..])) == Canonical(GatherSum(bufs, false))
      invariant iov[..i] + Leftover(bufs[i..], pending) == Leftover(bufs, false)
      invariant forall j :: i <= j < |bufs| ==> iov[j] == bufs[j]
    {
      LeftoverStep(bufs, i, pending);
      ghost var front, todo := iov[..i], Leftover(bufs[i + 1..], Leaves(pending, |bufs[i]|));
      var rest;
      sum, pending, residual, rest := GatherOne(iov[i], sum, pending, residual, bufs, i);
      iov[i] := rest;
      i := i + 1;
      assert iov[..i] == front + [rest];
      assert front + ([rest] + todo) == (front + [rest]) + todo;
    }
    NoneLeft(bufs, pending, residual);
    assert iov[..i] == iov[..];
  }

  lemma NothingOwing(bufs: seq<seq<byte>>, residual: byte)
    ensures Owing(false, residual, bufs[0..]) == GatherSum(bufs, false) && Leftover(bufs[0..], false) == Leftover(bufs, false)
  {
    assert bufs[0..] == bufs;
  }

  lemma NoneLeft(bufs: seq<seq<byte>>, pending: bool, residual: byte)
    ensures Leftover(bufs[|bufs|..], pending) == []
    ensures Owing(pending, residual, bufs[|bufs|..]) == if pending then residual as int else 0
  {
  }

  /** The pending byte of the previous buffer, joined with the first byte of this one if there is one. */
  method JoinPending(b: seq<byte>, sum0: u32, residual: byte, ghost later: nat) returns (sum: u32, k: nat)
    requires sum0 < 0x8000_0000 + 0x1_0000
    ensures sum < 0x8000_0000 + 0x1_0000 && k == (if b == [] then 0 else 1)
    ensures Canonical(sum + WordSum(b[k..], false) + later)
         == Canonical(sum0 + residual as int + WordSum(b, true) + later)
  {
    hide Canonical;
    FoldHighKeeps(sum0, residual as int + WordSum(b, true) + later);
    sum, k := FoldHigh(sum0), 0;
    if |b| > 0 {
      FirstByte(b);
      sum := sum + Pair(residual, b[0]);
      k := 1;
    } else {
      sum := sum + residual;
    }
  }

  /** One buffer of the list: pairs a pending byte with its first one, adds words, keeps a last byte. */
  method GatherOne(b: seq<byte>, sum0: u32, pending0: bool, residual0: byte, ghost bufs: seq<seq<byte>>, ghost i: nat)
    returns (sum: u32, pending: bool, residual: byte, rest: seq<byte>)
    requires i < |bufs| && bufs[i] == b && sum0 < 0x8000_0000 + 0x1_0000
    ensures sum < 0x8000_0000 + 0x1_0000
    ensures Canonical(sum + Owing(pending, residual, bufs[i + 1..])) == Canonical(sum0 + Owing(pending0, residual0, bufs[i..]))
    ensures pending == Leaves(pending0, |b|) && rest == Rest(pending0, b)
  {
    hide Canonical, GatherSum, WordSum;
    GatherStep(bufs, i, pending0);
    NoBytes(b);
    ghost var later := GatherSum(bufs[i + 1..], if b == [] then false else Flip(pending0, |b|));
    var k := 0;
    sum, pending, residual := sum0, false, residual0;
    assert b[0..] == b;
    if pending0 {
      sum, k := JoinPending(b, sum0, residual0, later);
    }
    sum, k := AddWords(b, k, sum, later);
    NoBytes(b[k..]);
    if k < |b| {
      LastByte(b, k, false);
      residual, pending := b[k], true;
    }
    rest := b[k..];
  }

  lemma NoBytes(b: seq<byte>)
    ensures b == [] ==> WordSum(b, false) == 0 && WordSum(b, true) == 0
  {
  }

  // ---------------------------------------------------------------- Storing the checksum

  lemma {:induction false} WordSumUpdate(b: seq<byte>, k: nat, x: byte, odd: bool)
    requires k < |b| && b[k] == 0
    ensures WordSum(b[k := x], odd) == WordSum(b, odd) + x * Weight(Flip(odd, k))
  {
    if k > 0 {
      assert b[k := x][1..] == b[1..][k - 1 := x];
      WordSumUpdate(b[1..], k - 1, x, !odd);
    } else {
      assert b[k := x][1..] == b[1..];
    }
  }

  function Stored(b: seq<byte>, k: nat, c: u16): seq<byte>
    requires k + 1 < |b|
  {
    b[k := c % 256][k + 1 := c / 256]
  }

  lemma Complement(sum: nat)
    ensures Canonical(sum + (65535 - Canonical(sum))) == 65535
  {
    if sum > 0 {
      var q := (sum - 1) / 65535;
      assert sum == 65535 * q + Canonical(sum);
      assert sum + (65535 - Canonical(sum)) == 65535 * (q + 1);
    }
  }

  /** Storing the checksum in a zeroed field at an even offset makes the checksum of the whole 0. */
  lemma StoredChecksumVerifies(b: seq<byte>, k: nat)
    requires k % 2 == 0 && k + 1 < |b| && b[k] == 0 && b[k + 1] == 0
    ensures Checksum(Stored(b, k, Checksum(b))) == 0
  {
    hide Canonical;
    var c := Checksum(b);
    WordSumUpdate(b, k, c % 256, false);
    WordSumUpdate(b[k := c % 256], k + 1, c / 256, false);
    assert WordSum(Stored(b, k, c), false) == WordSum(b, false) + c;
    Complement(WordSum(b, false));
  }
}
