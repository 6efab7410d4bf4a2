/**
  The receive loops of mvrp_recv_msg and msrp_recv_msg, byte by byte, proved against the
  meaning of a PDU for every byte string, well formed or not.
 */
module Receiver {
  import opened Mrpdu
  import opened MrpduParse

  function Digits3(packed: byte): (r: seq<nat>)
    ensures |r| == 3 && forall k :: 0 <= k < 3 ==> r[k] == Digit3(packed, k)
  {
    [Digit3(packed, 0), Digit3(packed, 1), Digit3(packed, 2)]
  }

  lemma ThreeAtATime(k: nat, j: nat)
    requires j < 3
    ensures (3 * k + j) / 3 == k && (3 * k + j) % 3 == j
  {
  }

  lemma VidValueStep(b: seq<byte>, base: nat, n: nat, k: nat, j: nat, vid: nat)
    requires j < 3 && 3 * k + j < n && vid < 65536
    ensures vid > 0xFFF ==> VidValues(b, base, 3 * k + j, n, vid) == VidValues(b, base, 3 * k + j + 1, n, vid)
    ensures vid <= 0xFFF ==>
              var d := Digit3(At(b, base + k), j);
              VidValues(b, base, 3 * k + j, n, vid)
              == (if d < 6 then [Value(Vid, VidBytes(vid), d, 0)] else []) + VidValues(b, base, 3 * k + j + 1, n, vid + 1)
  {
    hide Digit3;
    ThreeAtATime(k, j);
  }

  /** The one to three values of a packed byte. */
  method ReadVidGroup(b: seq<byte>, ghost base: nat, n: nat, vid0: nat, left: nat, ghost k: nat, vectevt: seq<nat>,
                      processed: nat, out0: seq<Dispatch>, ghost first: nat)
    returns (out: seq<Dispatch>, vid: nat)
    requires first < 65536 && vid0 < 65536 && left <= n && n - left == Min(3 * k, n)
    requires processed == (if left > 3 then 3 else left)
    requires vectevt == Digits3(At(b, base + k))
    requires VidValues(b, base, 0, n, first) == out0 + VidValues(b, base, n - left, n, vid0)
    ensures vid < 65536 && VidValues(b, base, 0, n, first) == out + VidValues(b, base, n - left + processed, n, vid)
  {
    hide Digit3, VidValues;
    out, vid := out0, vid0;
    var j := 0;
    while j < processed
      invariant 0 <= j <= processed && vid < 65536
      invariant VidValues(b, base, 0, n, first) == out + VidValues(b, base, n - left + j, n, vid)
    {
      VidValueStep(b, base, n, k, j, vid);
      if vid <= 0xFFF {
        if vectevt[j] < 6 {
          out := out + [Value(Vid, VidBytes(vid), vectevt[j], 0)];
        }
        vid := vid + 1;
      }
      j := j + 1;
    }
  }

  /** The events of an MVRP vector; `left` is the numvalues countdown. */
  method ReadVidValues(b: seq<byte>, base: nat, n: nat, first: nat) returns (out: seq<Dispatch>)
    requires first < 65536
    ensures out == VidValues(b, base, 0, n, first)
  {
    hide Digit3;
    var vid, left, k: nat := first, n, 0;
    out := [];
    while k <= Len3(n)
      invariant k <= Len3(n) + 1 && left <= n && n - left == Min(3 * k, n) && 0 <= vid < 65536
      invariant VidValues(b, base, 0, n, first) == out + VidValues(b, base, n - left, n, vid)
    {
      var processed := if left > 3 then 3 else left;
      out, vid := ReadVidGroup(b, base, n, vid, left, k, Digits3(At(b, base + k)), processed, out, first);
      left := left - processed;
      k := k + 1;
    }
  }

  /** The listener_vectevt array: the four-packed substates of a listener vector. */
  method ReadSubstates(b: seq<byte>, base: nat, n: nat) returns (subs: seq<substate>)
    ensures |subs| == n
    ensures forall i :: 0 <= i < n ==> subs[i] == Digit4(At(b, base + i / 4), i % 4)
  {
    hide Digit4;
    subs := [];
    var k, left := 0, n;
    while k < Len4(n)
      invariant 0 <= k <= Len4(n) && left <= n && n - left == Min(4 * k, n) == |subs|
      invariant forall i :: 0 <= i < |subs| ==> subs[i] == Digit4(At(b, base + i / 4), i % 4)
    {
      var packed := At(b, base + k);
      var processed := if left > 4 then 4 else left;
      var j := 0;
      while j < processed
        invariant 0 <= j <= processed && |subs| == n - left + j
        invariant forall i :: 0 <= i < |subs| ==> subs[i] == Digit4(At(b, base + i / 4), i % 4)
      {
        subs := subs + [Digit4(packed, j)];
        j := j + 1;
      }
      left := left - processed;
      k := k + 1;
    }
  }

  /** The events of an MSRP vector of any type. */
  method ReadKeyValues(kind: Kind, b: seq<byte>, base3: nat, base4: nat, n: nat, first: seq<byte>) returns (out: seq<Dispatch>)
    requires |first| == FirstLength(kind)
    ensures out == KeyValues(kind, b, base3, base4, 0, n, first, 0)
  {
    hide Digit3, Digit4, NextKey;
    var subs := [];
    if FourPacked(kind) {
      subs := ReadSubstates(b, base4, n);
    }
    var key, left, k, si: nat := first, n, 0, 0;
    out := [];
    while k <= Len3(n)
      invariant 0 <= k <= Len3(n) + 1 && left <= n && n - left == Min(3 * k, n)
      invariant |key| == FirstLength(kind) && si <= n - left
      invariant KeyValues(kind, b, base3, base4, 0, n, first, 0)
             == out + KeyValues(kind, b, base3, base4, n - left, n, key, si)
    {
      var vectevt := Digits3(At(b, base3 + k));
      var processed := if left > 3 then 3 else left;
      if vectevt[0] > 5 {
        if left > 0 {
          ThreeAtATime(k, 0);
        }
      } else {
        out, key, si := ReadGroup(kind, b, base3, base4, n, key, si, subs, left, k, vectevt, processed, out, first);
      }
      left := left - processed;
      k := k + 1;
    }
  }

  lemma KeyValueStep(kind: Kind, b: seq<byte>, base3: nat, base4: nat, n: nat, k: nat, j: nat, key: seq<byte>, si: nat)
    requires j < 3 && 3 * k + j < n && |key| == FirstLength(kind) && Digit3(At(b, base3 + k), 0) <= 5
    ensures KeyValues(kind, b, base3, base4, 3 * k + j, n, key, si)
         == var sub: substate := if FourPacked(kind) then Digit4(At(b, base4 + si / 4), si % 4) else 0;
            (if FourPacked(kind) && sub == 0 then [] else [Value(kind, key, Digit3(At(b, base3 + k), j), sub)]) +
            KeyValues(kind, b, base3, base4, 3 * k + j + 1, n, NextKey(kind, key), si + 1)
  {
    hide NextKey, Digit4;
    ThreeAtATime(k, j);
  }

  /** The one to three values of a packed byte that is in range. */
  method ReadGroup(kind: Kind, b: seq<byte>, ghost base3: nat, ghost base4: nat, n: nat, key0: seq<byte>, si0: nat,
                   subs: seq<substate>, left: nat, k: nat, vectevt: seq<nat>, processed: nat, out0: seq<Dispatch>,
                   ghost first: seq<byte>)
    returns (out: seq<Dispatch>, key: seq<byte>, si: nat)
    requires |first| == FirstLength(kind) == |key0| && left <= n && si0 <= n - left && n - left == Min(3 * k, n)
    requires processed == (if left > 3 then 3 else left)
    requires vectevt == Digits3(At(b, base3 + k)) && vectevt[0] <= 5
    requires FourPacked(kind) ==> |subs| == n && forall i :: 0 <= i < n ==> subs[i] == Digit4(At(b, base4 + i / 4), i % 4)
    requires KeyValues(kind, b, base3, base4, 0, n, first, 0) == out0 + KeyValues(kind, b, base3, base4, n - left, n, key0, si0)
    ensures |key| == FirstLength(kind) && si <= n - left + processed
    ensures KeyValues(kind, b, base3, base4, 0, n, first, 0)
         == out + KeyValues(kind, b, base3, base4, n - left + processed, n, key, si)
  {
    hide Digit3, Digit4, NextKey, KeyValues;
    out, key, si := out0, key0, si0;
    var j := 0;
    while j < processed
      invariant 0 <= j <= processed && |key| == FirstLength(kind) && si <= n - left + j
      invariant KeyValues(kind, b, base3, base4, 0, n, first, 0)
             == out + KeyValues(kind, b, base3, base4, n - left + j, n, key, si)
    {
      KeyValueStep(kind, b, base3, base4, n, k, j, key, si);
      InRange(At(b, base3 + k), j);
      if FourPacked(kind) {
        if subs[si] != 0 {
          out := out + [Value(kind, key, vectevt[j], subs[si])];
        }
      } else {
        out := out + [Value(kind, key, vectevt[j], 0)];
      }
      key, si := NextKey(kind, key), si + 1;
      j := j + 1;
    }
  }

  lemma InRange(packed: byte, j: nat)
    requires j < 3 && Digit3(packed, 0) <= 5
    ensures Digit3(packed, j) < 6
  {
  }

  // ---------------------------------------------------------------- Vectors and messages

  lemma BeforeConcat(a: seq<Dispatch>, c: seq<Dispatch>, p: Parsed)
    ensures Before(a, Before(c, p)) == Before(a + c, p)
  {
    assert a + (c + p.out) == (a + c) + p.out;
  }

  /** The vectors of one message, until its end mark or a malformed vector. */
  method ReadVectors(kind: Kind, b: seq<byte>, pos0: nat, saw0: bool) returns (p: Parsed)
    ensures p == ParseVectors(kind, b, pos0, saw0)
  {
    hide ValuesAt, NumValues, HasLeaveAll, VectorLength, RunsOff, ParseVectors, Announced, WordAt;
    var pos, saw, out: seq<Dispatch> := pos0, saw0, [];
    var going := true;
    p := Parsed(true, pos0, saw0, []);
    BeforeNothing(ParseVectors(kind, b, pos0, saw0));
    while going
      invariant going ==> ParseVectors(kind, b, pos0, saw0) == Before(out, ParseVectors(kind, b, pos, saw))
      invariant !going ==> p == ParseVectors(kind, b, pos0, saw0)
      decreases going, if pos < |b| then |b| - pos else 0
    {
      var header := WordAt(b, pos);
      NextVector(kind, b, pos, saw);
      if header == 0 {
        p, going := Parsed(true, pos, saw, out), false;
      } else {
        var n := NumValues(header);
        var la := Announced(kind, header, saw);
        var seen := saw || HasLeaveAll(header);
        if n == 0 && kind != Vid {
          BeforeConcat(out, la, ParseVectors(kind, b, pos + 2 + FirstLength(kind), seen));
          pos, saw, out := pos + 2 + FirstLength(kind), seen, out + la;
        } else if n == 0 || RunsOff(kind, b, pos, n) {
          p, going := Parsed(false, pos, seen, out + la), false;
        } else {
          var values := ReadValues(kind, b, pos, n);
          BeforeConcat(out, la + values, ParseVectors(kind, b, pos + VectorLength(kind, n), seen));
          pos, saw, out := pos + VectorLength(kind, n), seen, out + (la + values);
        }
      }
    }
  }

  lemma BeforeNothing(p: Parsed)
    ensures Before([], p) == p
  {
  }

  /** One vector: the end mark, the number of values and the end of the data decide how it goes on. */
  lemma NextVector(kind: Kind, b: seq<byte>, pos: nat, saw: bool)
    ensures var header := WordAt(b, pos);
            var n, la, seen := NumValues(header), Announced(kind, header, saw), saw || HasLeaveAll(header);
            ParseVectors(kind, b, pos, saw) ==
            if header == 0 then Parsed(true, pos, saw, [])
            else if n == 0 && kind != Vid then Before(la, ParseVectors(kind, b, pos + 2 + FirstLength(kind), seen))
            else if n == 0 || RunsOff(kind, b, pos, n) then Parsed(false, pos, seen, la)
            else Before(la + ValuesAt(kind, b, pos, n), ParseVectors(kind, b, pos + VectorLength(kind, n), seen))
    ensures WordAt(b, pos) != 0 ==> pos < |b| && VectorLength(kind, NumValues(WordAt(b, pos))) > 0
  {
    hide ValuesAt, NumValues, HasLeaveAll, RunsOff, Announced;
  }

  method ReadValues(kind: Kind, b: seq<byte>, pos: nat, n: nat) returns (values: seq<Dispatch>)
    ensures values == ValuesAt(kind, b, pos, n)
  {
    hide VidValues, KeyValues;
    var base := pos + 2 + FirstLength(kind);
    if kind == Vid {
      values := ReadVidValues(b, base, n, WordAt(b, pos + 2));
    } else {
      values := ReadKeyValues(kind, b, base, base + Len3(n), n, FirstValue(kind, b, pos + 2));
    }
  }

  lemma PrependConcat(a: seq<Dispatch>, c: seq<Dispatch>, r: Received)
    ensures Prepend(a, Prepend(c, r)) == Prepend(a + c, r)
  {
    assert a + (c + r.out) == (a + c) + r.out;
  }

  /** mvrp_recv_msg after the Ethernet checks: all messages of the PDU. */
  method ReadMvrp(version: byte, b: seq<byte>) returns (r: Received)
    ensures r == ParseMvrp(version, b, 0, 0, false)
  {
    hide ParseVectors, NumValues;
    var pos, endmarks, saw, out: seq<Dispatch> := 0, 0, false, [];
    var going := true;
    r := Received(true, []);
    while going
      invariant 0 <= pos && 0 <= endmarks
      invariant going ==> ParseMvrp(version, b, 0, 0, false) == Prepend(out, ParseMvrp(version, b, pos, endmarks, saw))
      invariant !going ==> r == ParseMvrp(version, b, 0, 0, false)
      decreases going, if pos < |b| then |b| - pos else 0
    {
      if pos + 2 >= |b| {
        r, going := Received(true, out), false;
      } else if WordAt(b, pos) == 0 {
        if endmarks == 0 {
          pos, endmarks := pos + 2, 1;
        } else {
          r, going := Received(true, out), false;
        }
      } else if b[pos] == AttributeType(Vid) {
        if b[pos + 1] != FirstLength(Vid) {
          r, going := Received(false, out), false;
        } else {
          var p := ReadVectors(Vid, b, pos + 2, saw);
          if p.ok {
            PrependConcat(out, p.out, ParseMvrp(version, b, p.pos, 0, p.saw));
            pos, endmarks, saw, out := p.pos, 0, p.saw, out + p.out;
          } else {
            r, going := Received(false, out + p.out), false;
          }
        }
      } else if version == 0 {
        r, going := Received(false, out), false;
      } else {
        pos, endmarks := pos + 4 + b[pos + 1] + Len3(NumValues(WordAt(b, pos + 2))), 0;
      }
    }
  }

  /** msrp_recv_msg after the Ethernet checks: all messages of the PDU. */
  method ReadMsrp(b: seq<byte>) returns (r: Received)
    ensures r == ParseMsrp(b, 0, 0, {})
  {
    hide ParseVectors, NumValues, ListLengthOk, VectorLength;
    var pos, endmarks, saw: set<Kind>, out: seq<Dispatch> := 0, 0, {}, [];
    var going := true;
    r := Received(true, []);
    while going
      invariant 0 <= pos && 0 <= endmarks
      invariant going ==> ParseMsrp(b, 0, 0, {}) == Prepend(out, ParseMsrp(b, pos, endmarks, saw))
      invariant !going ==> r == ParseMsrp(b, 0, 0, {})
      decreases going, if pos < |b| then |b| - pos else 0
    {
      if pos + 2 >= |b| {
        r, going := Received(true, out), false;
      } else if WordAt(b, pos) == 0 {
        if endmarks == 0 {
          pos, endmarks := pos + 2, 1;
        } else {
          r, going := Received(true, out), false;
        }
      } else if !(1 <= b[pos] <= 4) || b[pos + 1] != FirstLength(KindOfType(b[pos])) {
        r, going := Received(false, out), false;
      } else if !ListLengthOk(b, pos + 2) {
        pos, endmarks := pos + 4 + VectorLength(KindOfType(b[pos]), NumValues(WordAt(b, pos + 4))), 0;
      } else {
        var kind := KindOfType(b[pos]);
        var p := ReadVectors(kind, b, pos + 4, kind in saw);
        if p.ok {
          var seen := if p.saw then saw + {kind} else saw;
          PrependConcat(out, p.out, ParseMsrp(b, p.pos, 0, seen));
          pos, endmarks, saw, out := p.pos, 0, seen, out + p.out;
        } else {
          r, going := Received(false, out + p.out), false;
        }
      }
    }
  }
}
