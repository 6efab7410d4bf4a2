/**
  When a message carries everything that was due: its size is the sum over the runs, and
  everything is written as soon as that sum leaves room for the two end marks.
 */
module EmissionFits {
  import opened Mrpdu
  import opened Emission

  /** Bytes needed for the vectors of all attributes that are due from index `i` on. */
  function FullSize(kind: Kind, items: seq<Item>, i: nat): nat
    requires i <= |items| && Keyed(kind, items)
    decreases |items| - i
  {
    if i == |items| then 0
    else if !Leads(items[i]) then FullSize(kind, items, i + 1)
    else
      var e := RunEnd(kind, items, i + 1);
      VectorLength(kind, e - i) + FullSize(kind, items, e)
  }

  predicate NoneDue(items: seq<Item>, i: nat) {
    forall k :: i <= k < |items| ==> !Leads(items[k])
  }

  lemma {:induction false} NoneDueSize(kind: Kind, items: seq<Item>, i: nat)
    requires i <= |items| && Keyed(kind, items) && NoneDue(items, i)
    ensures FullSize(kind, items, i) == 0
    decreases |items| - i
  {
    if i < |items| {
      NoneDueSize(kind, items, i + 1);
    }
  }

  lemma SmallestVector(kind: Kind, n: nat, start: nat, limit: nat)
    requires n > 0 && start + VectorLength(kind, n) + 4 < limit
    ensures VectorFits(kind, n, start, limit)
    ensures start + VectorSize(kind) + 2 < limit
  {
  }

  lemma StartOfNext(kind: Kind, start: nat, n: nat)
    ensures start + VectorLength(kind, n) > 0
  {
  }

  /** With room for the vectors and both end marks, no attribute that is due is left out. */
  lemma {:induction false} EverythingFits(kind: Kind, items: seq<Item>, i: nat, pos: nat, limit: nat, lva: bool)
    requires i <= |items| && Keyed(kind, items) && Sendable(items, i, |items|)
    requires StartOf(kind, pos) + FullSize(kind, items, i) + 4 < limit
    ensures var em := EmitFrom(kind, items, i, pos, limit, lva);
            em.Emitted? && NoneDue(items, em.stop)
    decreases |items| - i
  {
    hide VectorFits, VectorLength, VectorSize, HeaderLength, NextKey, Extends, VectorFor, Leads;
    if i == |items| {
    } else if !Leads(items[i]) {
      if pos + VectorSize(kind) + 2 >= limit {
        TightSize(kind, items, i, pos, limit);
      } else {
        EverythingFits(kind, items, i + 1, pos, limit, lva);
      }
    } else {
      var e, start := RunEnd(kind, items, i + 1), StartOf(kind, pos);
      SmallestVector(kind, e - i, start, limit);
      StartOfNext(kind, start, e - i);
      EverythingFits(kind, items, e, start + VectorLength(kind, e - i), limit, false);
    }
  }

  /** When not even a smallest vector fits but the total does, nothing is due any more. */
  lemma {:induction false} TightSize(kind: Kind, items: seq<Item>, i: nat, pos: nat, limit: nat)
    requires i <= |items| && Keyed(kind, items)
    requires StartOf(kind, pos) + FullSize(kind, items, i) + 4 < limit
    requires pos + VectorSize(kind) + 2 >= limit
    ensures NoneDue(items, i)
    decreases |items| - i
  {
    hide VectorLength, VectorSize, HeaderLength, NextKey, Extends, Leads;
    if i < |items| {
      if Leads(items[i]) {
        SmallestVector(kind, RunEnd(kind, items, i + 1) - i, StartOf(kind, pos), limit);
        assert false;
      } else {
        TightSize(kind, items, i + 1, pos, limit);
      }
    }
  }

  /** A complete emission has exactly the full size. */
  lemma {:induction false} CompleteSize(kind: Kind, items: seq<Item>, i: nat, pos: nat, limit: nat, lva: bool)
    requires i <= |items| && Keyed(kind, items) && pos <= limit <= MAX_FRAME_SIZE
    requires var em := EmitFrom(kind, items, i, pos, limit, lva); em.Emitted? && NoneDue(items, em.stop)
    requires AllWellFormed(kind, EmitFrom(kind, items, i, pos, limit, lva).vectors)
    ensures |EncodeVectors(kind, EmitFrom(kind, items, i, pos, limit, lva).vectors)| == FullSize(kind, items, i)
    decreases |items| - i
  {
    hide VectorFits, VectorLength, VectorSize, HeaderLength, NextKey, Extends, VectorFor, Leads, EncodeVector, WellFormed;
    if i == |items| || pos + VectorSize(kind) + 2 >= limit {
      NoneDueSize(kind, items, i);
    } else if !Leads(items[i]) {
      CompleteSize(kind, items, i + 1, pos, limit, lva);
    } else {
      var e, start := RunEnd(kind, items, i + 1), StartOf(kind, pos);
      var next := start + VectorLength(kind, e - i);
      FitsInLimit(kind, e - i, start, limit);
      EmitFromWellFormed(kind, items, e, next, limit, false);
      CompleteSize(kind, items, e, next, limit, false);
      var v, vs := VectorFor(kind, items, i, e, lva), EmitFrom(kind, items, e, next, limit, false).vectors;
      VectorForEvents(kind, items, i, e, lva);
      assert ([v] + vs)[0] == v && ([v] + vs)[1..] == vs;
    }
  }
}
