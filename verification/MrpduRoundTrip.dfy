/**
  Reading an encoded message gives back exactly the attribute events that were encoded,
  whatever surrounds the message in the frame.
 */
module MrpduRoundTrip {
  import opened Mrpdu
  import opened MrpduParse

  /** The receivers ignore VIDs above 0xFFF and listener values whose substate is Ignore. */
  predicate Dispatched(kind: Kind, key: seq<byte>, sub: substate)
    requires |key| >= FirstLength(kind)
  {
    (kind == Vid ==> VidOf(key) <= 0xFFF) && (FourPacked(kind) ==> sub != 0)
  }

  function Single(kind: Kind, key: seq<byte>, ev: event, sub: substate): seq<Dispatch>
    requires |key| >= FirstLength(kind)
  {
    if Dispatched(kind, key, sub) then [Value(kind, key, ev, if FourPacked(kind) then sub else 0)] else []
  }

  /** What a vector says: the k-th event belongs to the first value incremented k times. */
  function VectorValues(kind: Kind, v: Vector, i: nat, key: seq<byte>): seq<Dispatch>
    requires |v.substates| == |v.events| && i <= |v.events| && |key| == FirstLength(kind)
    decreases |v.events| - i
  {
    if i == |v.events| then []
    else Single(kind, key, v.events[i], v.substates[i]) + VectorValues(kind, v, i + 1, NextKey(kind, key))
  }

  /** A vector of VIDs does not run past 0xFFFF. */
  predicate Straight(kind: Kind, v: Vector)
    requires |v.first| == FirstLength(kind)
  {
    kind == Vid ==> VidOf(v.first) + |v.events| <= 65536
  }

  predicate Readable(kind: Kind, vs: seq<Vector>) {
    forall i :: 0 <= i < |vs| ==> WellFormed(kind, vs[i]) && Straight(kind, vs[i])
  }

  /** The events of a list of vectors; only the first LeaveAll of a type counts. */
  function Meaning(kind: Kind, vs: seq<Vector>, saw: bool): seq<Dispatch>
    requires Readable(kind, vs)
  {
    if vs == [] then []
    else
      LeaveAllOf(kind, vs[0], saw) + VectorValues(kind, vs[0], 0, vs[0].first) +
      Meaning(kind, vs[1..], saw || vs[0].lva)
  }

  predicate Has(b: seq<byte>, pos: nat, s: seq<byte>) {
    pos + |s| <= |b| && b[pos..pos + |s|] == s
  }

  lemma HasAt(b: seq<byte>, pos: nat, s: seq<byte>, i: nat)
    requires Has(b, pos, s) && i < |s|
    ensures At(b, pos + i) == s[i]
  {
    assert b[pos..pos + |s|][i] == b[pos + i];
  }

  lemma HasSplit(b: seq<byte>, pos: nat, s: seq<byte>, t: seq<byte>)
    requires Has(b, pos, s + t)
    ensures Has(b, pos, s) && Has(b, pos + |s|, t)
  {
    var w := b[pos..pos + |s + t|];
    assert w[..|s|] == s && w[|s|..] == t;
    assert b[pos..pos + |s|] == w[..|s|];
    assert b[pos + |s|..pos + |s| + |t|] == w[|s|..];
  }

  // ---------------------------------------------------------------- One vector

  lemma VidCodes(vid: nat)
    requires vid < 65536
    ensures VidOf(VidBytes(vid)) == vid
    ensures vid < 65535 ==> NextKey(Vid, VidBytes(vid)) == VidBytes(vid + 1)
  {
  }

  lemma {:induction false} VidValuesRead(b: seq<byte>, base: nat, v: Vector, i: nat, vid: nat)
    requires |v.substates| == |v.events| && i <= |v.events|
    requires Has(b, base, Pack3(v.events))
    requires vid + (|v.events| - i) <= 65536 && vid < 65536
    ensures VidValues(b, base, i, |v.events|, vid) == VectorValues(Vid, v, i, VidBytes(vid))
    decreases |v.events| - i
  {
    if i < |v.events| {
      if vid > 0xFFF {
        DiscardedVids(b, base, i, |v.events|, vid);
        DiscardedMeaning(v, i, vid);
      } else {
        EventRead(b, base, v, i);
        VidCodes(vid);
        VidValuesRead(b, base, v, i + 1, vid + 1);
      }
    }
  }

  lemma EventRead(b: seq<byte>, base: nat, v: Vector, i: nat)
    requires i < |v.events| && Has(b, base, Pack3(v.events))
    ensures Digit3(At(b, base + i / 3), i % 3) == v.events[i] && Digit3(At(b, base + i / 3), 0) < 6
  {
    Unpack3(v.events, i);
    HasAt(b, base, Pack3(v.events), i / 3);
  }

  lemma {:induction false} DiscardedVids(b: seq<byte>, base: nat, i: nat, n: nat, vid: nat)
    requires i <= n && 0xFFF < vid < 65536
    ensures VidValues(b, base, i, n, vid) == []
    decreases n - i
  {
    if i < n {
      DiscardedVids(b, base, i + 1, n, vid);
    }
  }

  lemma {:induction false} DiscardedMeaning(v: Vector, i: nat, vid: nat)
    requires |v.substates| == |v.events| && i <= |v.events|
    requires 0xFFF < vid < 65536 && vid + (|v.events| - i) <= 65536
    ensures VectorValues(Vid, v, i, VidBytes(vid)) == []
    decreases |v.events| - i
  {
    if i < |v.events| {
      VidCodes(vid);
      if i + 1 < |v.events| {
        DiscardedMeaning(v, i + 1, vid + 1);
      }
    }
  }

  lemma {:induction false} KeyValuesRead(kind: Kind, b: seq<byte>, base3: nat, base4: nat, v: Vector, i: nat, key: seq<byte>)
    requires kind != Vid && |key| == FirstLength(kind)
    requires |v.substates| == |v.events| && i <= |v.events|
    requires Has(b, base3, Pack3(v.events))
    requires FourPacked(kind) ==> Has(b, base4, Pack4(v.substates))
    ensures KeyValues(kind, b, base3, base4, i, |v.events|, key, i) == VectorValues(kind, v, i, key)
    decreases |v.events| - i
  {
    hide Pack3, Pack4, Digit3, Digit4, NextKey;
    if i < |v.events| {
      EventRead(b, base3, v, i);
      if FourPacked(kind) {
        Unpack4(v.substates, i);
        HasAt(b, base4, Pack4(v.substates), i / 4);
      }
      KeyValuesRead(kind, b, base3, base4, v, i + 1, NextKey(kind, key));
    }
  }

  lemma HeaderRead(b: seq<byte>, pos: nat, lva: bool, n: nat)
    requires n < 8192 && Has(b, pos, VectorHeader(lva, n))
    ensures NumValues(WordAt(b, pos)) == n && HasLeaveAll(WordAt(b, pos)) == lva
    ensures WordAt(b, pos) == 0 <==> !lva && n == 0
  {
    HasAt(b, pos, VectorHeader(lva, n), 0);
    HasAt(b, pos, VectorHeader(lva, n), 1);
  }

  lemma FirstValueRead(kind: Kind, b: seq<byte>, pos: nat, first: seq<byte>)
    requires |first| == FirstLength(kind) && Has(b, pos, first)
    ensures FirstValue(kind, b, pos) == first
  {
    forall k | 0 <= k < |first| ensures FirstValue(kind, b, pos)[k] == first[k] {
      HasAt(b, pos, first, k);
    }
  }

  lemma VectorParts(kind: Kind, b: seq<byte>, pos: nat, v: Vector)
    requires WellFormed(kind, v) && Has(b, pos, EncodeVector(kind, v))
    ensures Has(b, pos, VectorHeader(v.lva, |v.events|))
    ensures Has(b, pos + 2, v.first)
    ensures Has(b, pos + 2 + FirstLength(kind), Pack3(v.events))
    ensures FourPacked(kind) ==> Has(b, pos + 2 + FirstLength(kind) + Len3(|v.events|), Pack4(v.substates))
  {
    var head := VectorHeader(v.lva, |v.events|);
    var fours: seq<byte> := if FourPacked(kind) then Pack4(v.substates) else [];
    var threes := Pack3(v.events);
    HasSplit(b, pos, head + v.first + threes, fours);
    HasSplit(b, pos, head + v.first, threes);
    HasSplit(b, pos, head, v.first);
  }

  lemma VidVectorRead(b: seq<byte>, pos: nat, v: Vector)
    requires WellFormed(Vid, v) && Straight(Vid, v) && v.events != []
    requires Has(b, pos, EncodeVector(Vid, v))
    ensures ValuesAt(Vid, b, pos, |v.events|) == VectorValues(Vid, v, 0, v.first)
  {
    VectorParts(Vid, b, pos, v);
    HasAt(b, pos + 2, v.first, 0);
    HasAt(b, pos + 2, v.first, 1);
    assert v.first == VidBytes(VidOf(v.first));
    VidValuesRead(b, pos + 4, v, 0, VidOf(v.first));
  }

  lemma VectorRead(kind: Kind, b: seq<byte>, pos: nat, v: Vector)
    requires WellFormed(kind, v) && Straight(kind, v) && v.events != []
    requires Has(b, pos, EncodeVector(kind, v))
    ensures ValuesAt(kind, b, pos, |v.events|) == VectorValues(kind, v, 0, v.first)
  {
    hide Pack3, Pack4, Digit3, Digit4, NextKey, VectorValues, KeyValues, EncodeVector;
    if kind == Vid {
      VidVectorRead(b, pos, v);
    } else {
      VectorParts(kind, b, pos, v);
      var f := FirstLength(kind);
      FirstValueRead(kind, b, pos + 2, v.first);
      KeyValuesRead(kind, b, pos + 2 + f, pos + 2 + f + Len3(|v.events|), v, 0, v.first);
    }
  }

  // ---------------------------------------------------------------- A list of vectors

  /** An empty LeaveAll vector ends the parse in MVRP, so only MSRP may continue after one. */
  predicate Continues(kind: Kind, vs: seq<Vector>) {
    kind == Vid ==> forall i :: 0 <= i < |vs| ==> vs[i].events != []
  }

  predicate AnyLva(vs: seq<Vector>) {
    exists i :: 0 <= i < |vs| && vs[i].lva
  }

  function LeaveAllOf(kind: Kind, v: Vector, saw: bool): seq<Dispatch> {
    if v.lva && !saw then [LeaveAll(kind)] else []
  }

  lemma VectorStaysIn(kind: Kind, b: seq<byte>, pos: nat, n: nat)
    requires pos + VectorLength(kind, n) + 2 <= |b|
    ensures !RunsOff(kind, b, pos, n)
    ensures n == 0 ==> VectorLength(kind, n) == 2 + FirstLength(kind)
  {
  }

  lemma NoValues(kind: Kind, v: Vector)
    requires WellFormed(kind, v) && v.events == []
    ensures VectorValues(kind, v, 0, v.first) == []
  {
  }

  lemma EndRead(kind: Kind, b: seq<byte>, pos: nat, saw: bool)
    requires Has(b, pos, ENDMARK)
    ensures ParseVectors(kind, b, pos, saw) == Parsed(true, pos, saw, [])
  {
    HasAt(b, pos, ENDMARK, 0);
    HasAt(b, pos, ENDMARK, 1);
  }

  /** Parsing at an encoded vector that is followed by at least an end mark. */
  lemma FirstVectorRead(kind: Kind, b: seq<byte>, pos: nat, v: Vector, saw: bool)
    requires WellFormed(kind, v) && Straight(kind, v) && (kind == Vid ==> v.events != [])
    requires Has(b, pos, EncodeVector(kind, v)) && pos + VectorLength(kind, |v.events|) + 2 <= |b|
    ensures ParseVectors(kind, b, pos, saw)
         == Before(LeaveAllOf(kind, v, saw) + VectorValues(kind, v, 0, v.first),
                   ParseVectors(kind, b, pos + VectorLength(kind, |v.events|), saw || v.lva))
  {
    hide Pack3, Pack4, VectorHeader, EncodeVector, ValuesAt, NumValues, HasLeaveAll, WordAt, VectorValues, RunsOff, VectorLength;
    VectorParts(kind, b, pos, v);
    HeaderRead(b, pos, v.lva, |v.events|);
    VectorStaysIn(kind, b, pos, |v.events|);
    if v.events != [] {
      VectorRead(kind, b, pos, v);
    } else {
      NoValues(kind, v);
    }
  }

  lemma {:induction false} VectorsRead(kind: Kind, b: seq<byte>, pos: nat, vs: seq<Vector>, saw: bool)
    requires Readable(kind, vs) && Continues(kind, vs)
    requires Has(b, pos, EncodeVectors(kind, vs) + ENDMARK)
    ensures ParseVectors(kind, b, pos, saw)
         == Parsed(true, pos + |EncodeVectors(kind, vs)|, saw || AnyLva(vs), Meaning(kind, vs, saw))
    decreases |vs|
  {
    hide VectorValues, EncodeVector, LeaveAllOf, AnyLva, VectorLength, ParseVectors;
    if vs == [] {
      assert EncodeVectors(kind, vs) + ENDMARK == ENDMARK;
      EndRead(kind, b, pos, saw);
      NoLva(vs);
    } else {
      var v, rest := vs[0], EncodeVectors(kind, vs[1..]) + ENDMARK;
      assert EncodeVectors(kind, vs) + ENDMARK == EncodeVector(kind, v) + rest;
      HasSplit(b, pos, EncodeVector(kind, v), rest);
      FirstVectorRead(kind, b, pos, v, saw);
      VectorsRead(kind, b, pos + VectorLength(kind, |v.events|), vs[1..], saw || v.lva);
      AnyLvaCons(vs);
    }
  }

  lemma NoLva(vs: seq<Vector>)
    requires vs == []
    ensures !AnyLva(vs)
  {
  }

  lemma AnyLvaCons(vs: seq<Vector>)
    requires vs != []
    ensures AnyLva(vs) == (vs[0].lva || AnyLva(vs[1..]))
  {
    if AnyLva(vs) && !vs[0].lva {
      var i :| 0 <= i < |vs| && vs[i].lva;
      assert vs[1..][i - 1].lva;
    }
    if AnyLva(vs[1..]) {
      var i :| 0 <= i < |vs[1..]| && vs[1..][i].lva;
      assert vs[i + 1].lva;
    }
  }
}
