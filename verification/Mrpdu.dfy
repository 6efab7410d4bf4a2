/**
  The MRPDU vector format of section 10.8.2 of IEEE 802.1Q-2011 as daemons/mrpd writes and
  reads it: packed event bytes, vector headers, first values and how a first value is
  incremented, for the one MVRP and the four MSRP attribute types.
 */
module Mrpdu {

  type byte = x: int | 0 <= x < 256

  /** AttributeEvent codes: 0 New, 1 JoinIn, 2 In, 3 JoinMt, 4 Mt, 5 Lv. */
  type event = x: int | 0 <= x < 6

  /** Listener declaration codes: 0 Ignore, 1 AskingFailed, 2 Ready, 3 ReadyFailed. */
  type substate = x: int | 0 <= x < 4

  const EV_NEW: event := 0
  const EV_JOININ: event := 1
  const EV_IN: event := 2
  const EV_JOINMT: event := 3
  const EV_MT: event := 4
  const EV_LV: event := 5

  const ENDMARK: seq<byte> := [0, 0]

  // ---------------------------------------------------------------- Packed events

  function EventAt(s: seq<event>, i: nat): event {
    if i < |s| then s[i] else 0
  }

  function SubstateAt(s: seq<substate>, i: nat): substate {
    if i < |s| then s[i] else 0
  }

  function Encode3(x: event, y: event, z: event): byte {
    (x * 6 + y) * 6 + z
  }

  function Encode4(w: substate, x: substate, y: substate, z: substate): byte {
    w * 64 + x * 16 + y * 4 + z
  }

  function Len3(n: nat): nat { (n + 2) / 3 }

  function Len4(n: nat): nat { (n + 3) / 4 }

  function Byte3(s: seq<event>, k: nat): byte {
    Encode3(EventAt(s, 3 * k), EventAt(s, 3 * k + 1), EventAt(s, 3 * k + 2))
  }

  function Byte4(s: seq<substate>, k: nat): byte {
    Encode4(SubstateAt(s, 4 * k), SubstateAt(s, 4 * k + 1), SubstateAt(s, 4 * k + 2), SubstateAt(s, 4 * k + 3))
  }

  function Pack3(s: seq<event>): (r: seq<byte>) {
    seq(Len3(|s|), k requires 0 <= k => Byte3(s, k))
  }

  function Pack4(s: seq<substate>): (r: seq<byte>) {
    seq(Len4(|s|), k requires 0 <= k => Byte4(s, k))
  }

  /** The k-th base-6 digit as the receiver extracts it; the first one can be 6 or 7. */
  function Digit3(b: byte, k: nat): nat
    requires k < 3
  {
    if k == 0 then b / 36
    else if k == 1 then (b - b / 36 * 36) / 6
    else b - 36 * (b / 36) - 6 * ((b - b / 36 * 36) / 6)
  }

  function Digit4(b: byte, k: nat): substate
    requires k < 4
  {
    if k == 0 then b / 64
    else if k == 1 then b / 16 - b / 64 * 4
    else if k == 2 then b / 4 - b / 16 * 4
    else b - b / 4 * 4
  }

  lemma DigitsOfEncode3(x: event, y: event, z: event)
    ensures Digit3(Encode3(x, y, z), 0) == x
    ensures Digit3(Encode3(x, y, z), 1) == y
    ensures Digit3(Encode3(x, y, z), 2) == z
  {
    var b := Encode3(x, y, z);
    assert b == 36 * x + (6 * y + z) && 6 * y + z < 36;
    assert b / 36 == x;
    assert (6 * y + z) / 6 == y;
  }

  lemma DigitsOfEncode4(w: substate, x: substate, y: substate, z: substate)
    ensures Digit4(Encode4(w, x, y, z), 0) == w
    ensures Digit4(Encode4(w, x, y, z), 1) == x
    ensures Digit4(Encode4(w, x, y, z), 2) == y
    ensures Digit4(Encode4(w, x, y, z), 3) == z
  {
    var b := Encode4(w, x, y, z);
    assert b / 64 == w && b / 16 == 4 * w + x && b / 4 == 16 * w + 4 * x + y;
  }

  /** Every event is the digit the receiver looks for, in the byte the receiver looks in. */
  lemma Unpack3(s: seq<event>, i: nat)
    requires i < |s|
    ensures i / 3 < |Pack3(s)| == Len3(|s|)
    ensures Digit3(Pack3(s)[i / 3], i % 3) == s[i]
    ensures Digit3(Pack3(s)[i / 3], 0) < 6
  {
    var k := i / 3;
    assert 3 * k + i % 3 == i;
    DigitsOfEncode3(EventAt(s, 3 * k), EventAt(s, 3 * k + 1), EventAt(s, 3 * k + 2));
  }

  lemma Unpack4(s: seq<substate>, i: nat)
    requires i < |s|
    ensures i / 4 < |Pack4(s)| == Len4(|s|)
    ensures Digit4(Pack4(s)[i / 4], i % 4) == s[i]
  {
    var k := i / 4;
    assert 4 * k + i % 4 == i;
    DigitsOfEncode4(SubstateAt(s, 4 * k), SubstateAt(s, 4 * k + 1), SubstateAt(s, 4 * k + 2), SubstateAt(s, 4 * k + 3));
  }

  // ---------------------------------------------------------------- Attribute types

  datatype Kind = Vid | TalkerAdv | TalkerFailed | Listener | Domain

  function AttributeType(kind: Kind): byte {
    match kind
    case Vid => 1
    case TalkerAdv => 1
    case TalkerFailed => 2
    case Listener => 3
    case Domain => 4
  }

  /** AttributeLength, the number of bytes of a FirstValue. */
  function FirstLength(kind: Kind): byte {
    match kind
    case Vid => 2
    case TalkerAdv => 25
    case TalkerFailed => 34
    case Listener => 8
    case Domain => 4
  }

  /** Bytes the emitters compare: for a talker the whole record, failure information included. */
  function KeyLength(kind: Kind): nat {
    if kind == TalkerAdv then 34 else FirstLength(kind)
  }

  /** The emitters' `vector_size`. */
  function VectorSize(kind: Kind): nat {
    match kind
    case Vid => 6
    case TalkerAdv => 28
    case TalkerFailed => 37
    case Listener => 13
    case Domain => 5
  }

  /** AttributeType and AttributeLength, and for MSRP the two bytes of AttributeListLength. */
  function HeaderLength(kind: Kind): nat {
    if kind == Vid then 2 else 4
  }

  predicate FourPacked(kind: Kind) { kind == Listener }

  predicate Aggregates(kind: Kind) { kind != Domain }

  // ---------------------------------------------------------------- First values

  function Carry(s: seq<byte>, i: nat): (r: seq<byte>)
    requires i < |s|
    ensures |r| == |s| && r[0] == s[0]
    ensures forall k :: i < k < |s| ==> r[k] == s[k]
    decreases i
  {
    if i == 0 then s
    else if s[i] != 255 then s[i := s[i] + 1]
    else Carry(s[i := 0], i - 1)
  }

  /** Adds one to a big-endian byte string without ever carrying into its first byte. */
  function Increment(s: seq<byte>): (r: seq<byte>)
    requires |s| >= 1
    ensures |r| == |s| && r[0] == s[0]
  {
    Carry(s, |s| - 1)
  }

  function BigEndian(s: seq<byte>): (v: nat) {
    if s == [] then 0 else BigEndian(s[..|s| - 1]) * 256 + s[|s| - 1]
  }

  function Power256(n: nat): (p: nat)
    ensures p >= 1
  {
    if n == 0 then 1 else 256 * Power256(n - 1)
  }

  lemma {:induction false} BigEndianBound(s: seq<byte>)
    ensures BigEndian(s) < Power256(|s|)
  {
    if s != [] {
      BigEndianBound(s[..|s| - 1]);
    }
  }

  lemma {:induction false} BigEndianInjective(a: seq<byte>, b: seq<byte>)
    requires |a| == |b| && BigEndian(a) == BigEndian(b)
    ensures a == b
  {
    if a != [] {
      var n := |a| - 1;
      assert a[n] == BigEndian(a) % 256 && b[n] == BigEndian(b) % 256;
      BigEndianInjective(a[..n], b[..n]);
      assert a == a[..n] + [a[n]] && b == b[..n] + [b[n]];
    }
  }

  lemma {:induction false} CarryTail(s: seq<byte>, t: seq<byte>, i: nat)
    requires i < |s|
    ensures Carry(s + t, i) == Carry(s, i) + t
    decreases i
  {
    if i != 0 && s[i] == 255 {
      assert (s + t)[i := 0] == s[i := 0] + t;
      CarryTail(s[i := 0], t, i - 1);
    } else if i != 0 {
      assert (s + t)[i := s[i] + 1] == s[i := s[i] + 1] + t;
    }
  }

  /** What the byte loop computes: all bytes but the first form a counter modulo 256^(n-1). */
  lemma {:induction false} IncrementCounts(s: seq<byte>)
    requires |s| >= 1
    ensures BigEndian(Increment(s)[1..]) == (BigEndian(s[1..]) + 1) % Power256(|s| - 1)
  {
    var n := |s|;
    if n == 1 {
      assert s[1..] == [];
    } else {
      var low := s[1..];
      var hi := s[..n - 1];
      assert low[..n - 2] == hi[1..] && low[n - 2] == s[n - 1];
      BigEndianBound(low);
      BigEndianBound(hi[1..]);
      var r := Increment(s);
      if s[n - 1] != 255 {
        assert r[1..][..n - 2] == low[..n - 2];
        assert BigEndian(r[1..]) == BigEndian(low) + 1;
        ModOnce(BigEndian(low) + 1, Power256(n - 1));
      } else {
        var z: seq<byte> := [0];
        assert s[n - 1 := 0] == hi + z;
        CarryTail(hi, z, n - 2);
        assert r == Increment(hi) + z;
        IncrementCounts(hi);
        assert r[1..][..n - 2] == Increment(hi)[1..];
        CarryOut(BigEndian(hi[1..]), Power256(n - 2), Power256(n - 1));
      }
    }
  }

  lemma ModOnce(a: nat, m: nat)
    requires 0 < m && a <= m
    ensures a % m == if a == m then 0 else a
  {
  }

  lemma CarryOut(hi: nat, p: nat, q: nat)
    requires hi < p && q == 256 * p
    ensures 256 * ((hi + 1) % p) == (256 * hi + 256) % q
  {
    ModOnce(hi + 1, p);
    ModOnce(256 * hi + 256, q);
  }

  function VidBytes(vid: nat): seq<byte>
    requires vid < 65536
  {
    [vid / 256, vid % 256]
  }

  function VidOf(s: seq<byte>): nat
    requires |s| >= 2
  {
    s[0] as int * 256 + s[1]
  }

  /** The attribute a vector describes right after the one with first value `key`. */
  function NextKey(kind: Kind, key: seq<byte>): (r: seq<byte>)
    requires |key| >= FirstLength(kind)
    ensures |r| == |key|
  {
    match kind
    case Vid => VidBytes((VidOf(key) + 1) % 65536) + key[2..]
    case Listener => Increment(key)
    case TalkerAdv | TalkerFailed => Increment(key[..8]) + Increment(key[8..14]) + key[14..]
    case Domain => [(key[0] as int + 1) % 256, (key[1] as int + 1) % 256] + key[2..]
  }

  /** Incrementing a record and sending its first value is sending the incremented first value. */
  lemma NextKeyOfPrefix(kind: Kind, key: seq<byte>)
    requires |key| == KeyLength(kind)
    ensures NextKey(kind, key)[..FirstLength(kind)] == NextKey(kind, key[..FirstLength(kind)])
  {
    var f := FirstLength(kind);
    if kind.TalkerAdv? || kind.TalkerFailed? {
      assert key[..f][..8] == key[..8] && key[..f][8..14] == key[8..14] && key[14..][..f - 14] == key[..f][14..];
    } else {
      assert key[..f] == key;
    }
  }

  // ---------------------------------------------------------------- Vectors

  datatype Vector = Vector(lva: bool, first: seq<byte>, events: seq<event>, substates: seq<substate>)

  predicate WellFormed(kind: Kind, v: Vector) {
    && |v.first| == FirstLength(kind)
    && |v.events| < 8192
    && |v.substates| == |v.events|
    && (v.lva || v.events != [])
  }

  function VectorHeader(lva: bool, n: nat): (r: seq<byte>)
    ensures |r| == 2
  {
    var h := n % 8192 + if lva then 8192 else 0;
    [h / 256, h % 256]
  }

  function VectorLength(kind: Kind, n: nat): (r: nat)
    ensures r > 2
  {
    2 + FirstLength(kind) + Len3(n) + if FourPacked(kind) then Len4(n) else 0
  }

  function EncodeVector(kind: Kind, v: Vector): (r: seq<byte>)
    requires WellFormed(kind, v)
    ensures |r| == VectorLength(kind, |v.events|)
  {
    VectorHeader(v.lva, |v.events|) + v.first + Pack3(v.events) +
    if FourPacked(kind) then Pack4(v.substates) else []
  }

  predicate AllWellFormed(kind: Kind, vs: seq<Vector>) {
    forall i :: 0 <= i < |vs| ==> WellFormed(kind, vs[i])
  }

  function EncodeVectors(kind: Kind, vs: seq<Vector>): (r: seq<byte>)
    requires AllWellFormed(kind, vs)
  {
    if vs == [] then [] else EncodeVector(kind, vs[0]) + EncodeVectors(kind, vs[1..])
  }

  function Word(n: nat): (r: seq<byte>)
    requires n < 65536
    ensures |r| == 2
  {
    [n / 256, n % 256]
  }

  /** One message: type, length, AttributeListLength for MSRP, the vectors, an end mark. */
  function EncodeMessage(kind: Kind, vs: seq<Vector>): (r: seq<byte>)
    requires AllWellFormed(kind, vs)
    requires |EncodeVectors(kind, vs)| + 2 < 65536
  {
    var body := EncodeVectors(kind, vs) + ENDMARK;
    [AttributeType(kind), FirstLength(kind)] + (if kind == Vid then [] else Word(|body|)) + body
  }
}
