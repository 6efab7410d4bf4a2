/**
  The emitters' vectors, read back, are exactly the attributes that were due: every
  must-send attribute once, and optional ones only as continuations of a contiguous run.
 */
module EmissionMeaning {
  import opened Mrpdu
  import opened MrpduParse
  import opened MrpduRoundTrip
  import opened Emission

  function Range(s: nat, e: nat): (r: seq<nat>)
    requires s <= e
    ensures |r| == e - s && forall k :: 0 <= k < e - s ==> r[k] == s + k
  {
    seq<nat>(e - s, k requires 0 <= k => s + k)
  }

  /** The indices of the attributes in the vectors that cover [i, stop). */
  function SentIndices(kind: Kind, items: seq<Item>, i: nat, stop: nat): seq<nat>
    requires i <= |items| && stop <= |items| && Keyed(kind, items)
    decreases |items| - i
  {
    if i >= stop then []
    else if !Leads(items[i]) then SentIndices(kind, items, i + 1, stop)
    else
      var e := RunEnd(kind, items, i + 1);
      Range(i, e) + SentIndices(kind, items, e, stop)
  }

  function ValueOf(kind: Kind, item: Item): seq<Dispatch>
    requires |item.key| == KeyLength(kind) && item.ev.Some?
  {
    Single(kind, item.key[..FirstLength(kind)], item.ev.value, item.sub)
  }

  predicate Sent(kind: Kind, items: seq<Item>, indices: seq<nat>) {
    forall k :: 0 <= k < |indices| ==>
                  var j := indices[k]; j < |items| && |items[j].key| == KeyLength(kind) && items[j].ev.Some?
  }

  /** The events of the listed attributes, in list order. */
  function ValuesOf(kind: Kind, items: seq<Item>, indices: seq<nat>): seq<Dispatch>
    requires Sent(kind, items, indices)
  {
    if indices == [] then []
    else ValueOf(kind, items[indices[0]]) + ValuesOf(kind, items, indices[1..])
  }

  lemma {:induction false} ValuesOfConcat(kind: Kind, items: seq<Item>, a: seq<nat>, b: seq<nat>)
    requires Sent(kind, items, a) && Sent(kind, items, b)
    ensures Sent(kind, items, a + b)
    ensures ValuesOf(kind, items, a + b) == ValuesOf(kind, items, a) + ValuesOf(kind, items, b)
  {
    hide ValueOf;
    SentConcat(kind, items, a, b);
    if a == [] {
      assert a + b == b;
    } else {
      assert (a + b)[0] == a[0] && (a + b)[1..] == a[1..] + b;
      ValuesOfConcat(kind, items, a[1..], b);
    }
  }

  lemma SentConcat(kind: Kind, items: seq<Item>, a: seq<nat>, b: seq<nat>)
    requires Sent(kind, items, a) && Sent(kind, items, b)
    ensures Sent(kind, items, a + b)
  {
    hide KeyLength;
    forall k | 0 <= k < |a + b|
      ensures var j := (a + b)[k]; j < |items| && |items[j].key| == KeyLength(kind) && items[j].ev.Some?
    {
      assert (a + b)[k] == if k < |a| then a[k] else b[k - |a|];
    }
  }

  // ---------------------------------------------------------------- Which attributes are sent

  predicate Increasing(r: seq<nat>) {
    forall a, b :: 0 <= a < b < |r| ==> r[a] < r[b]
  }

  /** Position k of the list continues the run that position k - 1 belongs to. */
  predicate ContinuesRun(kind: Kind, items: seq<Item>, indices: seq<nat>, k: nat)
    requires k < |indices| && indices[k] < |items| && Keyed(kind, items)
  {
    var j := indices[k];
    && k > 0 && j > 0 && indices[k - 1] == j - 1 && items[j - 1].mine
    && items[j].key == NextKey(kind, items[j - 1].key)
  }

  predicate Justified(kind: Kind, items: seq<Item>, indices: seq<nat>, k: nat)
    requires k < |indices| && Keyed(kind, items)
  {
    var j := indices[k];
    j < |items| && items[j].mine && items[j].tx && (Leads(items[j]) || ContinuesRun(kind, items, indices, k))
  }

  lemma {:induction false} SentIncreasing(kind: Kind, items: seq<Item>, i: nat, stop: nat)
    requires i <= |items| && stop <= |items| && Keyed(kind, items)
    ensures var r := SentIndices(kind, items, i, stop);
            Increasing(r) && forall k :: 0 <= k < |r| ==> i <= r[k]
    decreases |items| - i
  {
    hide NextKey, Extends;
    if i < stop {
      SentIncreasing(kind, items, if Leads(items[i]) then RunEnd(kind, items, i + 1) else i + 1, stop);
    }
  }

  lemma {:induction false} SentCovers(kind: Kind, items: seq<Item>, i: nat, stop: nat, j: nat)
    requires i <= j < stop <= |items| && Keyed(kind, items) && Leads(items[j])
    ensures j in SentIndices(kind, items, i, stop)
    decreases |items| - i
  {
    hide NextKey, Extends;
    if !Leads(items[i]) {
      SentCovers(kind, items, i + 1, stop, j);
    } else {
      var e := RunEnd(kind, items, i + 1);
      var r := Range(i, e) + SentIndices(kind, items, e, stop);
      if j < e {
        assert r[j - i] == j;
      } else {
        SentCovers(kind, items, e, stop, j);
      }
    }
  }

  lemma JustifiedShift(kind: Kind, items: seq<Item>, head: seq<nat>, tail: seq<nat>, k: nat)
    requires k < |tail| && Keyed(kind, items) && Justified(kind, items, tail, k)
    ensures Justified(kind, items, head + tail, |head| + k)
  {
    hide NextKey;
    assert (head + tail)[|head| + k] == tail[k];
  }

  lemma RunJustified(kind: Kind, items: seq<Item>, i: nat, tail: seq<nat>, k: nat)
    requires i < |items| && Keyed(kind, items) && Leads(items[i])
    requires k < RunEnd(kind, items, i + 1) - i
    ensures Justified(kind, items, Range(i, RunEnd(kind, items, i + 1)) + tail, k)
  {
    hide NextKey, Extends;
    var e := RunEnd(kind, items, i + 1);
    var r := Range(i, e) + tail;
    assert r[k] == i + k;
    if k > 0 {
      assert r[k - 1] == i + k - 1;
      assert items[i + k].key == NextKey(kind, items[i + k - 1].key);
    }
  }

  lemma {:induction false} SentJustified(kind: Kind, items: seq<Item>, i: nat, stop: nat, k: nat)
    requires i <= |items| && stop <= |items| && Keyed(kind, items)
    requires k < |SentIndices(kind, items, i, stop)|
    ensures Justified(kind, items, SentIndices(kind, items, i, stop), k)
    decreases |items| - i
  {
    hide NextKey, Extends, Justified;
    if !Leads(items[i]) {
      SentJustified(kind, items, i + 1, stop, k);
    } else {
      var e := RunEnd(kind, items, i + 1);
      var tail := SentIndices(kind, items, e, stop);
      if k < e - i {
        RunJustified(kind, items, i, tail, k);
      } else {
        SentJustified(kind, items, e, stop, k - (e - i));
        JustifiedShift(kind, items, Range(i, e), tail, k - (e - i));
      }
    }
  }

  /**
    Sent indices are strictly increasing, so nothing is sent twice; every must-send attribute
    before `stop` is among them; anything else in them continues the run before it.
   */
  lemma SentExactly(kind: Kind, items: seq<Item>, i: nat, stop: nat)
    requires i <= |items| && stop <= |items| && Keyed(kind, items)
    ensures var r := SentIndices(kind, items, i, stop);
            && Increasing(r)
            && (forall k :: 0 <= k < |r| ==> Justified(kind, items, r, k))
            && (forall j :: i <= j < stop && Leads(items[j]) ==> j in r)
  {
    hide SentIndices, Justified, Leads;
    var r := SentIndices(kind, items, i, stop);
    SentIncreasing(kind, items, i, stop);
    forall k | 0 <= k < |r| ensures Justified(kind, items, r, k) {
      SentJustified(kind, items, i, stop, k);
    }
    forall j | i <= j < stop && Leads(items[j]) ensures j in r {
      SentCovers(kind, items, i, stop, j);
    }
  }

  // ---------------------------------------------------------------- What they mean

  /** VIDs in the list strictly ascend, so a contiguous run never wraps past 0xFFFF. */
  predicate Ascending(kind: Kind, items: seq<Item>)
    requires Keyed(kind, items)
  {
    kind == Vid ==>
      forall a, b :: 0 <= a < b < |items| && items[a].mine && items[b].mine ==> VidOf(items[a].key) < VidOf(items[b].key)
  }

  lemma NextVid(key: seq<byte>)
    requires |key| == 2
    ensures VidOf(NextKey(Vid, key)) == if VidOf(key) == 65535 then 0 else VidOf(key) + 1
  {
  }

  lemma {:induction false} RunIsStraight(items: seq<Item>, s: nat, e: nat, k: nat)
    requires Keyed(Vid, items) && Ascending(Vid, items) && s <= k < e <= |items|
    requires forall x :: s <= x < e ==> items[x].mine
    requires forall x :: s < x < e ==> items[x].key == NextKey(Vid, items[x - 1].key)
    ensures VidOf(items[k].key) == VidOf(items[s].key) + (k - s) <= 65535
  {
    hide NextKey;
    if k > s {
      RunIsStraight(items, s, e, k - 1);
      NextVid(items[k - 1].key);
    }
  }

  lemma VectorForStraight(kind: Kind, items: seq<Item>, s: nat, lva: bool)
    requires s < |items| && Keyed(kind, items) && Ascending(kind, items) && items[s].mine
    requires Sendable(items, s, RunEnd(kind, items, s + 1))
    ensures Straight(kind, VectorFor(kind, items, s, RunEnd(kind, items, s + 1), lva))
  {
    hide NextKey, RunEnd;
    if kind == Vid {
      var e := RunEnd(kind, items, s + 1);
      RunIsStraight(items, s, e, e - 1);
      assert items[s].key[..2] == items[s].key;
    }
  }

  lemma RunSent(kind: Kind, items: seq<Item>, s: nat, e: nat)
    requires s <= e <= |items| && Keyed(kind, items) && Sendable(items, s, e)
    requires forall x :: s <= x < e ==> items[x].mine
    ensures Sent(kind, items, Range(s, e))
  {
  }

  lemma {:induction false} RunMeaning(kind: Kind, items: seq<Item>, s: nat, e: nat, lva: bool, i: nat, key: seq<byte>)
    requires s < e <= |items| && Keyed(kind, items) && Sendable(items, s, e) && i <= e - s
    requires forall x :: s <= x < e ==> items[x].mine
    requires forall x :: s < x < e ==> items[x].key == NextKey(kind, items[x - 1].key)
    requires |key| == FirstLength(kind) && (i < e - s ==> key == items[s + i].key[..FirstLength(kind)])
    requires Sent(kind, items, Range(s + i, e))
    ensures VectorValues(kind, VectorFor(kind, items, s, e, lva), i, key) == ValuesOf(kind, items, Range(s + i, e))
    decreases e - s - i
  {
    hide NextKey, Single, Sent;
    if i < e - s {
      NextKeyOfPrefix(kind, items[s + i].key);
      assert Range(s + i, e)[1..] == Range(s + i + 1, e);
      RunSent(kind, items, s + i + 1, e);
      RunMeaning(kind, items, s, e, lva, i + 1, NextKey(kind, key));
    }
  }

  /** The run that starts at a leading attribute, read back as a vector. */
  lemma LeadMeaning(kind: Kind, items: seq<Item>, i: nat, lva: bool)
    requires i < |items| && Keyed(kind, items) && items[i].mine
    requires Sendable(items, i, RunEnd(kind, items, i + 1))
    ensures Sent(kind, items, Range(i, RunEnd(kind, items, i + 1)))
    ensures var e := RunEnd(kind, items, i + 1);
            var v := VectorFor(kind, items, i, e, lva);
            VectorValues(kind, v, 0, v.first) == ValuesOf(kind, items, Range(i, e))
  {
    hide NextKey, RunEnd, Extends, VectorValues, ValuesOf, Sent;
    var e := RunEnd(kind, items, i + 1);
    RunSent(kind, items, i, e);
    RunMeaning(kind, items, i, e, lva, 0, items[i].key[..FirstLength(kind)]);
  }

  lemma {:induction false} EmittedShape(kind: Kind, items: seq<Item>, i: nat, pos: nat, limit: nat, lva: bool)
    requires i <= |items| && Keyed(kind, items) && Ascending(kind, items)
    requires pos <= limit <= MAX_FRAME_SIZE
    requires EmitFrom(kind, items, i, pos, limit, lva).Emitted?
    ensures var Emitted(vs, stop) := EmitFrom(kind, items, i, pos, limit, lva);
            && i <= stop <= |items|
            && Readable(kind, vs)
            && (forall k :: 0 <= k < |vs| ==> vs[k].events != [] && (vs[k].lva <==> lva && k == 0))
    decreases |items| - i
  {
    hide VectorFits, NextKey, RunEnd, Extends, VectorLength, VectorSize, HeaderLength, WellFormed, Straight, VectorFor, Sendable, Ascending;
    if i == |items| || pos + VectorSize(kind) + 2 >= limit {
    } else if !Leads(items[i]) {
      EmittedShape(kind, items, i + 1, pos, limit, lva);
    } else {
      var e, start := RunEnd(kind, items, i + 1), StartOf(kind, pos);
      FitsInLimit(kind, e - i, start, limit);
      EmittedShape(kind, items, e, start + VectorLength(kind, e - i), limit, false);
      VectorForWellFormed(kind, items, i, e, lva, start, limit);
      VectorForStraight(kind, items, i, lva);
      VectorForParts(kind, items, i, e, lva);
    }
  }

  /** Adding the vector of the run at `i` in front of the rest adds that run's values in front. */
  lemma ConsMeaning(kind: Kind, items: seq<Item>, i: nat, lva: bool, saw: bool, vs: seq<Vector>, stop: nat)
    requires i < stop <= |items| && Keyed(kind, items) && Leads(items[i])
    requires Sendable(items, i, RunEnd(kind, items, i + 1))
    requires var e := RunEnd(kind, items, i + 1);
             && Readable(kind, vs) && Readable(kind, [VectorFor(kind, items, i, e, lva)] + vs)
             && Sent(kind, items, SentIndices(kind, items, e, stop))
             && Meaning(kind, vs, saw || lva) == ValuesOf(kind, items, SentIndices(kind, items, e, stop))
    ensures var v := VectorFor(kind, items, i, RunEnd(kind, items, i + 1), lva);
            && Sent(kind, items, SentIndices(kind, items, i, stop))
            && Meaning(kind, [v] + vs, saw)
            == LeaveAllOf(kind, v, saw) + ValuesOf(kind, items, SentIndices(kind, items, i, stop))
  {
    hide NextKey, RunEnd, Extends, VectorFor, VectorValues, Sendable, Readable, Sent, LeaveAllOf, ValuesOf, Meaning;
    var e := RunEnd(kind, items, i + 1);
    var v := VectorFor(kind, items, i, e, lva);
    LeadMeaning(kind, items, i, lva);
    VectorForParts(kind, items, i, e, lva);
    var tail := SentIndices(kind, items, e, stop);
    ValuesOfConcat(kind, items, Range(i, e), tail);
    MeaningCons(kind, v, vs, saw);
  }

  lemma MeaningCons(kind: Kind, v: Vector, vs: seq<Vector>, saw: bool)
    requires Readable(kind, [v] + vs) && Readable(kind, vs)
    requires |v.substates| == |v.events| && |v.first| == FirstLength(kind)
    ensures Meaning(kind, [v] + vs, saw)
         == LeaveAllOf(kind, v, saw) + VectorValues(kind, v, 0, v.first) + Meaning(kind, vs, saw || v.lva)
  {
    hide LeaveAllOf, VectorValues;
    assert ([v] + vs)[0] == v && ([v] + vs)[1..] == vs;
  }

  predicate Means(kind: Kind, items: seq<Item>, i: nat, em: Emitted, lva: bool, saw: bool)
    requires Keyed(kind, items) && i <= |items|
  {
    && em.Emitted? && em.stop <= |items| && Readable(kind, em.vectors)
    && Sent(kind, items, SentIndices(kind, items, i, em.stop))
    && Meaning(kind, em.vectors, saw)
       == (if em.vectors != [] && lva && !saw then [LeaveAll(kind)] else [])
          + ValuesOf(kind, items, SentIndices(kind, items, i, em.stop))
  }

  lemma MeansCons(kind: Kind, items: seq<Item>, i: nat, rest: Emitted, lva: bool, saw: bool)
    requires i < |items| && Keyed(kind, items) && Leads(items[i])
    requires Sendable(items, i, RunEnd(kind, items, i + 1))
    requires Means(kind, items, RunEnd(kind, items, i + 1), rest, false, saw || lva) && i < rest.stop
    requires Readable(kind, Cons(VectorFor(kind, items, i, RunEnd(kind, items, i + 1), lva), rest).vectors)
    ensures Means(kind, items, i, Cons(VectorFor(kind, items, i, RunEnd(kind, items, i + 1), lva), rest), lva, saw)
  {
    hide RunEnd, VectorFor, Sendable, Readable, Sent, Meaning, ValuesOf, SentIndices;
    var e := RunEnd(kind, items, i + 1);
    ConsMeaning(kind, items, i, lva, saw, rest.vectors, rest.stop);
    VectorForParts(kind, items, i, e, lva);
  }

  /** What was emitted means one LeaveAll if asked for, then the sent attributes' events. */
  lemma {:induction false} EmittedMeaning(kind: Kind, items: seq<Item>, i: nat, pos: nat, limit: nat, lva: bool, saw: bool)
    requires i <= |items| && Keyed(kind, items) && Ascending(kind, items)
    requires pos <= limit <= MAX_FRAME_SIZE
    requires EmitFrom(kind, items, i, pos, limit, lva).Emitted?
    ensures Means(kind, items, i, EmitFrom(kind, items, i, pos, limit, lva), lva, saw)
    decreases |items| - i
  {
    hide VectorFits, RunEnd, VectorLength, VectorSize, HeaderLength, VectorFor, Ascending, Sendable, Means, Readable;
    EmittedShape(kind, items, i, pos, limit, lva);
    if i == |items| || pos + VectorSize(kind) + 2 >= limit {
      NothingSent(kind, items, i, lva, saw);
    } else if !Leads(items[i]) {
      EmittedMeaning(kind, items, i + 1, pos, limit, lva, saw);
      EmittedShape(kind, items, i + 1, pos, limit, lva);
      MeansSkips(kind, items, i, EmitFrom(kind, items, i + 1, pos, limit, lva), lva, saw);
    } else {
      var e, start := RunEnd(kind, items, i + 1), StartOf(kind, pos);
      var next := start + VectorLength(kind, e - i);
      FitsInLimit(kind, e - i, start, limit);
      EmittedMeaning(kind, items, e, next, limit, false, saw || lva);
      EmittedShape(kind, items, e, next, limit, false);
      MeansCons(kind, items, i, EmitFrom(kind, items, e, next, limit, false), lva, saw);
    }
  }

  lemma NothingSent(kind: Kind, items: seq<Item>, i: nat, lva: bool, saw: bool)
    requires Keyed(kind, items) && i <= |items|
    ensures Means(kind, items, i, Emitted([], i), lva, saw)
  {
  }

  lemma MeansSkips(kind: Kind, items: seq<Item>, i: nat, em: Emitted, lva: bool, saw: bool)
    requires i < |items| && Keyed(kind, items) && !Leads(items[i])
    requires Means(kind, items, i + 1, em, lva, saw) && i < em.stop
    ensures Means(kind, items, i, em, lva, saw)
  {
    hide Sent, Meaning, ValuesOf, Readable;
  }

  lemma VectorForParts(kind: Kind, items: seq<Item>, s: nat, e: nat, lva: bool)
    requires s < e <= |items| && Sendable(items, s, e)
    requires Keyed(kind, items) && items[s].mine
    ensures var v := VectorFor(kind, items, s, e, lva);
            v.events != [] && |v.substates| == |v.events| && v.lva == lva && v.first == items[s].key[..FirstLength(kind)]
  {
  }
}
