/**
  What the vector emitters put on the wire: which attributes are sent, how contiguous ones
  are joined into vectors, and when the frame is too small. mvrp_emit_vidvectors and the
  three msrp_emit_*vectors functions are one algorithm over the attribute type.
 */
module Emission {
  import opened Mrp
  import opened Mrpdu

  /**
    An attribute as an emitter sees it: whether it has the emitted type, its key bytes, its
    transmit flags, the event to send (None for an applicant message no event encodes), and
    the listener substate.
   */
  datatype Item = Item(mine: bool, key: seq<byte>, tx: bool, optional: bool, ev: Option<event>, sub: substate)

  predicate Keyed(kind: Kind, items: seq<Item>) {
    forall i :: 0 <= i < |items| && items[i].mine ==> |items[i].key| == KeyLength(kind)
  }

  /** The attribute must be sent, so it starts a vector unless an earlier one covers it. */
  predicate Leads(item: Item) {
    item.mine && item.tx && !item.optional
  }

  predicate Extends(kind: Kind, items: seq<Item>, j: nat)
    requires 0 < j <= |items| && Keyed(kind, items) && items[j - 1].mine
  {
    && Aggregates(kind) && j < |items| && items[j].mine && items[j].tx
    && items[j].key == NextKey(kind, items[j - 1].key)
  }

  /** The first index past the run of contiguous attributes that contains index j - 1. */
  function RunEnd(kind: Kind, items: seq<Item>, j: nat): (e: nat)
    requires 0 < j <= |items| && Keyed(kind, items) && items[j - 1].mine
    ensures j <= e <= |items|
    ensures forall k :: j - 1 <= k < e ==> items[k].mine
    ensures forall k :: j <= k < e ==> items[k].tx && items[k].key == NextKey(kind, items[k - 1].key)
    ensures !Extends(kind, items, e)
    decreases |items| - j
  {
    if Extends(kind, items, j) then RunEnd(kind, items, j + 1) else j
  }

  predicate Sendable(items: seq<Item>, s: nat, e: nat)
    requires s <= e <= |items|
  {
    forall k :: s <= k < e ==> items[k].ev.Some?
  }

  function Events(items: seq<Item>, s: nat, e: nat): (r: seq<event>)
    requires s <= e <= |items| && Sendable(items, s, e)
    ensures |r| == e - s
  {
    seq<event>(e - s, k requires 0 <= k < e - s => items[s + k].ev.value)
  }

  function Substates(items: seq<Item>, s: nat, e: nat): (r: seq<substate>)
    requires s <= e <= |items|
    ensures |r| == e - s
  {
    seq<substate>(e - s, k requires 0 <= k < e - s => items[s + k].sub)
  }

  function VectorFor(kind: Kind, items: seq<Item>, s: nat, e: nat, lva: bool): Vector
    requires s < e <= |items| && Sendable(items, s, e)
    requires Keyed(kind, items) && items[s].mine
  {
    Vector(lva, items[s].key[..FirstLength(kind)], Events(items, s, e), Substates(items, s, e))
  }

  /** The vector of n values at `start` leaves room for an end mark; listeners keep a byte more. */
  predicate VectorFits(kind: Kind, n: nat, start: nat, limit: nat) {
    start + VectorLength(kind, n) + 2 + (if FourPacked(kind) && n % 4 == 0 then 1 else 0) <= limit
  }

  datatype Emitted = Oops | Emitted(vectors: seq<Vector>, stop: nat)

  function Cons(v: Vector, rest: Emitted): Emitted {
    match rest
    case Oops => Oops
    case Emitted(vs, stop) => Emitted([v] + vs, stop)
  }

  function StartOf(kind: Kind, pos: nat): nat {
    if pos == 0 then HeaderLength(kind) else pos
  }

  /** The vectors written from index `i` on, with the write pointer `pos` bytes into the message. */
  function EmitFrom(kind: Kind, items: seq<Item>, i: nat, pos: nat, limit: nat, lva: bool): Emitted
    requires i <= |items| && Keyed(kind, items)
    decreases |items| - i
  {
    if i == |items| || pos + VectorSize(kind) + 2 >= limit then Emitted([], i)
    else if !Leads(items[i]) then EmitFrom(kind, items, i + 1, pos, limit, lva)
    else
      var e, start := RunEnd(kind, items, i + 1), StartOf(kind, pos);
      if !Sendable(items, i, e) || !VectorFits(kind, e - i, start, limit) then Oops
      else
        Cons(VectorFor(kind, items, i, e, lva),
             EmitFrom(kind, items, e, start + VectorLength(kind, e - i), limit, false))
  }

  function EmptyLeaveAll(kind: Kind): Vector {
    Vector(true, seq<byte>(FirstLength(kind), _ => 0), [], [])
  }

  /** A message of no vectors is not written; a LeaveAll with nothing to say gets an empty vector. */
  function WithLeaveAll(kind: Kind, vs: seq<Vector>, sendEmpty: bool): seq<Vector> {
    if vs == [] && sendEmpty then [EmptyLeaveAll(kind)] else vs
  }

  /** The vectors of the message, or Oops when the caller must assume nothing was sent. */
  function EmitMessage(kind: Kind, items: seq<Item>, limit: nat, lva: bool, sendEmpty: bool): Emitted
    requires Keyed(kind, items)
  {
    if limit < VectorSize(kind) then Oops
    else
      match EmitFrom(kind, items, 0, 0, limit, lva)
      case Oops => Oops
      case Emitted(vs, stop) => Emitted(WithLeaveAll(kind, vs, sendEmpty), stop)
  }

  // ---------------------------------------------------------------- The bytes are well formed

  const MAX_FRAME_SIZE := 2000

  lemma VectorForWellFormed(kind: Kind, items: seq<Item>, s: nat, e: nat, lva: bool, start: nat, limit: nat)
    requires s < e <= |items| && Sendable(items, s, e)
    requires Keyed(kind, items) && items[s].mine
    requires VectorFits(kind, e - s, start, limit) && limit <= MAX_FRAME_SIZE
    ensures WellFormed(kind, VectorFor(kind, items, s, e, lva))
  {
  }

  lemma {:induction false} EmitFromWellFormed(kind: Kind, items: seq<Item>, i: nat, pos: nat, limit: nat, lva: bool)
    requires i <= |items| && Keyed(kind, items) && pos <= limit <= MAX_FRAME_SIZE
    requires EmitFrom(kind, items, i, pos, limit, lva).Emitted?
    ensures var vs := EmitFrom(kind, items, i, pos, limit, lva).vectors;
            AllWellFormed(kind, vs) && (vs != [] ==> StartOf(kind, pos) + |EncodeVectors(kind, vs)| + 2 <= limit)
    decreases |items| - i
  {
    hide VectorFits, EncodeVector, VectorFor, NextKey, RunEnd, Extends, Sendable, VectorSize, VectorLength, WellFormed, HeaderLength;
    if i == |items| || pos + VectorSize(kind) + 2 >= limit {
    } else if !Leads(items[i]) {
      EmitFromWellFormed(kind, items, i + 1, pos, limit, lva);
    } else {
      var e, start := RunEnd(kind, items, i + 1), StartOf(kind, pos);
      var next := start + VectorLength(kind, e - i);
      FitsInLimit(kind, e - i, start, limit);
      EmitFromWellFormed(kind, items, e, next, limit, false);
      VectorForWellFormed(kind, items, i, e, lva, start, limit);
      VectorForEvents(kind, items, i, e, lva);
      var v, vs := VectorFor(kind, items, i, e, lva), EmitFrom(kind, items, e, next, limit, false).vectors;
      assert ([v] + vs)[1..] == vs;
    }
  }

  lemma FitsInLimit(kind: Kind, n: nat, start: nat, limit: nat)
    requires VectorFits(kind, n, start, limit)
    ensures 0 < start + VectorLength(kind, n) <= limit - 2
  {
  }

  lemma VectorForEvents(kind: Kind, items: seq<Item>, s: nat, e: nat, lva: bool)
    requires s < e <= |items| && Sendable(items, s, e)
    requires Keyed(kind, items) && items[s].mine
    ensures VectorFor(kind, items, s, e, lva).events == Events(items, s, e)
  {
  }
}
