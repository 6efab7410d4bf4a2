/**
  What a received MRPDU means: the events that mvrp_recv_msg and msrp_recv_msg dispatch, in
  order, for every byte string. `b` is the message list of the PDU; the receive buffer is
  zeroed, so bytes past the end read as 0.
 */
module MrpduParse {
  import opened Mrpdu

  datatype Dispatch =
    | LeaveAll(kind: Kind)
    | Value(kind: Kind, key: seq<byte>, ev: event, sub: substate)

  function At(b: seq<byte>, i: nat): byte {
    if i < |b| then b[i] else 0
  }

  function WordAt(b: seq<byte>, i: nat): nat {
    At(b, i) as int * 256 + At(b, i + 1)
  }

  function NumValues(header: nat): nat { header % 8192 }

  /** The LeaveAllEvent field, the top three bits of the header, is 1. */
  predicate HasLeaveAll(header: nat) { header / 8192 == 1 }

  // ---------------------------------------------------------------- Values of one vector

  /** The values of an MVRP vector; a VID above 0xFFF is discarded and not incremented. */
  function VidValues(b: seq<byte>, base: nat, i: nat, n: nat, vid: nat): seq<Dispatch>
    requires i <= n && vid < 65536
    decreases n - i
  {
    if i == n then []
    else if vid > 0xFFF then VidValues(b, base, i + 1, n, vid)
    else
      var d := Digit3(At(b, base + i / 3), i % 3);
      (if d < 6 then [Value(Vid, VidBytes(vid), d, 0)] else []) + VidValues(b, base, i + 1, n, vid + 1)
  }

  function Min(a: nat, b: nat): nat { if a < b then a else b }

  /**
    The values of an MSRP vector. A three-packed byte whose first event is out of range is
    dropped whole, without advancing the first value. `j` indexes the listener substates.
   */
  function KeyValues(kind: Kind, b: seq<byte>, base3: nat, base4: nat, i: nat, n: nat, key: seq<byte>, j: nat): seq<Dispatch>
    requires i <= n && |key| == FirstLength(kind)
    decreases n - i
  {
    if i == n then []
    else
      var packed := At(b, base3 + i / 3);
      if Digit3(packed, 0) > 5 then KeyValues(kind, b, base3, base4, Min(i - i % 3 + 3, n), n, key, j)
      else
        var sub := if FourPacked(kind) then Digit4(At(b, base4 + j / 4), j % 4) else 0;
        (if FourPacked(kind) && sub == 0 then [] else [Value(kind, key, Digit3(packed, i % 3), sub)]) +
        KeyValues(kind, b, base3, base4, i + 1, n, NextKey(kind, key), j + 1)
  }

  function FirstValue(kind: Kind, b: seq<byte>, pos: nat): (r: seq<byte>)
    ensures |r| == FirstLength(kind)
  {
    seq<byte>(FirstLength(kind), k requires 0 <= k => At(b, pos + k))
  }

  function ValuesAt(kind: Kind, b: seq<byte>, pos: nat, n: nat): seq<Dispatch> {
    var base := pos + 2 + FirstLength(kind);
    if kind == Vid then VidValues(b, base, 0, n, WordAt(b, pos + 2))
    else KeyValues(kind, b, base, base + Len3(n), 0, n, FirstValue(kind, b, pos + 2), 0)
  }

  // ---------------------------------------------------------------- Vectors of one message

  datatype Parsed = Parsed(ok: bool, pos: nat, saw: bool, out: seq<Dispatch>)

  function Before(out: seq<Dispatch>, p: Parsed): Parsed {
    p.(out := out + p.out)
  }

  predicate RunsOff(kind: Kind, b: seq<byte>, pos: nat, n: nat) {
    || pos + 2 + n / 3 + (if FourPacked(kind) then n / 4 else 0) >= |b|
    || (FourPacked(kind) && pos + VectorLength(kind, n) >= |b|)
  }

  function Announced(kind: Kind, header: nat, saw: bool): seq<Dispatch> {
    if HasLeaveAll(header) && !saw then [LeaveAll(kind)] else []
  }

  function ParseVectors(kind: Kind, b: seq<byte>, pos: nat, saw: bool): (p: Parsed)
    ensures p.pos >= pos
    decreases if pos < |b| then |b| - pos else 0
  {
    var header := WordAt(b, pos);
    var n := NumValues(header);
    var seen := saw || HasLeaveAll(header);
    if header == 0 then Parsed(true, pos, saw, [])
    else if n == 0 then
      if kind == Vid then Parsed(false, pos, seen, Announced(kind, header, saw))
      else Before(Announced(kind, header, saw), ParseVectors(kind, b, pos + 2 + FirstLength(kind), seen))
    else if RunsOff(kind, b, pos, n) then Parsed(false, pos, seen, Announced(kind, header, saw))
    else
      Before(Announced(kind, header, saw) + ValuesAt(kind, b, pos, n),
             ParseVectors(kind, b, pos + VectorLength(kind, n), seen))
  }

  // ---------------------------------------------------------------- Message lists

  datatype Received = Received(ok: bool, out: seq<Dispatch>)

  function Prepend(out: seq<Dispatch>, r: Received): Received {
    r.(out := out + r.out)
  }

  /** mvrp_recv_msg: one attribute type, no AttributeListLength, unknown types skipped for newer versions. */
  function ParseMvrp(version: byte, b: seq<byte>, pos: nat, endmarks: nat, saw: bool): Received
    decreases if pos < |b| then |b| - pos else 0
  {
    if pos + 2 >= |b| then Received(true, [])
    else if WordAt(b, pos) == 0 then
      if endmarks == 0 then ParseMvrp(version, b, pos + 2, 1, saw) else Received(true, [])
    else if b[pos] == AttributeType(Vid) then
      if b[pos + 1] != FirstLength(Vid) then Received(false, [])
      else
        var p := ParseVectors(Vid, b, pos + 2, saw);
        if p.ok then Prepend(p.out, ParseMvrp(version, b, p.pos, 0, p.saw)) else Received(false, p.out)
    else if version == 0 then Received(false, [])
    else
      ParseMvrp(version, b, pos + 4 + b[pos + 1] + Len3(NumValues(WordAt(b, pos + 2))), 0, saw)
  }

  function KindOfType(t: byte): Kind
    requires 1 <= t <= 4
  {
    if t == 1 then TalkerAdv else if t == 2 then TalkerFailed else if t == 3 then Listener else Domain
  }

  /** msrp_recv_msg_check_attrib_list_len, with `pos` the position of AttributeListLength. */
  predicate ListLengthOk(b: seq<byte>, pos: nat)
    requires pos >= 1
  {
    var n := WordAt(b, pos);
    n >= At(b, pos - 1) + 3 && pos + n < |b| && WordAt(b, pos + n) == 0
  }

  /** msrp_recv_msg; `saw` holds the types whose LeaveAll has already been dispatched. */
  function ParseMsrp(b: seq<byte>, pos: nat, endmarks: nat, saw: set<Kind>): Received
    decreases if pos < |b| then |b| - pos else 0
  {
    if pos + 2 >= |b| then Received(true, [])
    else if WordAt(b, pos) == 0 then
      if endmarks == 0 then ParseMsrp(b, pos + 2, 1, saw) else Received(true, [])
    else if !(1 <= b[pos] <= 4) then Received(false, [])
    else
      var kind := KindOfType(b[pos]);
      if b[pos + 1] != FirstLength(kind) then Received(false, [])
      else if !ListLengthOk(b, pos + 2) then
        ParseMsrp(b, pos + 4 + VectorLength(kind, NumValues(WordAt(b, pos + 4))), 0, saw)
      else
        var p := ParseVectors(kind, b, pos + 4, kind in saw);
        if p.ok then Prepend(p.out, ParseMsrp(b, p.pos, 0, if p.saw then saw + {kind} else saw))
        else Received(false, p.out)
  }
}
