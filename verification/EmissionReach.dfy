/**
  How far an emitter call writes: the offset just past the last byte it touches in the message
  it is building, followed check by check, and exactly when that stays inside its room.
 */
module EmissionReach {
  import opened Mrpdu
  import opened Emission

  // ---------------------------------------------------------------- One vector

  /**
    The loop that joins attributes from `j` on to the run that starts at `s`: whether it ends
    well, and where its write position is then. The position is checked only after an attribute
    has been joined.
   */
  function Inner(kind: Kind, items: seq<Item>, s: nat, j: nat, at: nat, limit: nat): (r: (bool, nat))
    requires s < j <= |items| && Keyed(kind, items) && items[j - 1].mine
    ensures r.1 >= at + (j - s) / 3
    decreases |items| - j
  {
    if !Extends(kind, items, j) then (true, at + (j - s) / 3)
    else if items[j].ev.None? then (false, at + (j - s) / 3)
    else if at + (j + 1 - s) / 3 + 2 > limit then (false, at + (j + 1 - s) / 3)
    else Inner(kind, items, s, j + 1, at, limit)
  }

  /** The three-packed events: the loop, then an unchecked byte for the events still pending. */
  function ThreeReach(kind: Kind, items: seq<Item>, s: nat, at: nat, limit: nat): (r: (bool, nat))
    requires s < |items| && Keyed(kind, items) && items[s].mine
    ensures r.1 >= at
  {
    if items[s].ev.None? then (false, at)
    else
      var inner := Inner(kind, items, s, s + 1, at, limit);
      if inner.0 then (true, at + Len3(RunEnd(kind, items, s + 1) - s)) else inner
  }

  /** The four-packed substates of n listeners, from the q-th group of four on. */
  function FourReach(n: nat, q: nat, at: nat, limit: nat): (r: (bool, nat))
    requires q <= n / 4
    ensures r.1 >= at + q
    decreases n / 4 - q
  {
    if q == n / 4 then (true, at + Len4(n))
    else if at + q + 2 > limit then (false, at + q)
    else if at + q + 4 > limit then (false, at + q + 1)
    else FourReach(n, q + 1, at, limit)
  }

  /** The vector of the run at `s`, with its first value just before `at`. */
  function RunReach(kind: Kind, items: seq<Item>, s: nat, at: nat, limit: nat): (r: nat)
    requires s < |items| && Keyed(kind, items) && items[s].mine
    ensures r >= at
  {
    var three := ThreeReach(kind, items, s, at, limit);
    if three.0 && FourPacked(kind) then FourReach(RunEnd(kind, items, s + 1) - s, 0, three.1, limit).1 else three.1
  }

  // ---------------------------------------------------------------- The whole call

  /** The walk over the list from index `i` on, with `pos` bytes of the message written. */
  function ReachFrom(kind: Kind, items: seq<Item>, i: nat, pos: nat, limit: nat): (r: nat)
    requires i <= |items| && Keyed(kind, items)
    ensures r >= pos
    decreases |items| - i
  {
    if i == |items| || pos + VectorSize(kind) + 2 >= limit then pos
    else if !Leads(items[i]) then ReachFrom(kind, items, i + 1, pos, limit)
    else
      var e, start := RunEnd(kind, items, i + 1), StartOf(kind, pos);
      if !Sendable(items, i, e) || !VectorFits(kind, e - i, start, limit)
      then RunReach(kind, items, i, start + 2 + FirstLength(kind), limit)
      else ReachFrom(kind, items, e, start + VectorLength(kind, e - i), limit)
  }

  /** A call also writes the type and length bytes, an empty LeaveAll vector and an end mark. */
  function Reach(kind: Kind, items: seq<Item>, limit: nat, lva: bool, sendEmpty: bool): nat
    requires Keyed(kind, items)
  {
    if limit < VectorSize(kind) then 0
    else
      var walked := ReachFrom(kind, items, 0, 0, limit);
      match EmitFrom(kind, items, 0, 0, limit, lva)
      case Oops => walked
      case Emitted(vs, _) =>
        if vs != [] then walked + 2
        else if sendEmpty then HeaderLength(kind) + FirstLength(kind) + 4
        else 2
  }

  // ---------------------------------------------------------------- Checked writes stay inside

  lemma {:induction false} InnerBound(kind: Kind, items: seq<Item>, s: nat, j: nat, at: nat, limit: nat)
    requires s < j <= |items| && Keyed(kind, items) && items[j - 1].mine && at + (j - s) / 3 + 2 <= limit
    ensures var r := Inner(kind, items, s, j, at, limit); r.1 < limit && (r.0 ==> r.1 + 2 <= limit)
    decreases |items| - j
  {
    hide NextKey;
    if Extends(kind, items, j) && items[j].ev.Some? && at + (j + 1 - s) / 3 + 2 <= limit {
      InnerBound(kind, items, s, j + 1, at, limit);
    }
  }

  lemma {:induction false} InnerOk(kind: Kind, items: seq<Item>, s: nat, j: nat, at: nat, limit: nat)
    requires s < j <= |items| && Keyed(kind, items) && items[j - 1].mine
    requires Sendable(items, s, RunEnd(kind, items, j))
    requires at + (RunEnd(kind, items, j) - s) / 3 + 2 <= limit
    ensures Inner(kind, items, s, j, at, limit) == (true, at + (RunEnd(kind, items, j) - s) / 3)
    decreases |items| - j
  {
    hide Sendable, Extends, Inner, RunEnd, Keyed;
    if Extends(kind, items, j) {
      ExtendsInside(kind, items, j);
      var e := RunEnd(kind, items, j);
      EventAtIndex(items, s, e, j);
      ThirdsGrow(j + 1 - s, e - s);
      InnerMore(kind, items, s, j, at, limit);
      InnerOk(kind, items, s, j + 1, at, limit);
    } else {
      InnerStop(kind, items, s, j, at, limit);
    }
  }

  lemma InnerMore(kind: Kind, items: seq<Item>, s: nat, j: nat, at: nat, limit: nat)
    requires s < j < |items| && Keyed(kind, items) && items[j - 1].mine && Extends(kind, items, j)
    requires items[j].mine && items[j].ev.Some? && at + (j + 1 - s) / 3 + 2 <= limit
    ensures Inner(kind, items, s, j, at, limit) == Inner(kind, items, s, j + 1, at, limit)
  {
    hide Extends;
  }

  lemma InnerStop(kind: Kind, items: seq<Item>, s: nat, j: nat, at: nat, limit: nat)
    requires s < j <= |items| && Keyed(kind, items) && items[j - 1].mine && !Extends(kind, items, j)
    ensures RunEnd(kind, items, j) == j && Inner(kind, items, s, j, at, limit) == (true, at + (j - s) / 3)
  {
    hide Extends;
  }

  lemma ExtendsInside(kind: Kind, items: seq<Item>, j: nat)
    requires 0 < j <= |items| && Keyed(kind, items) && items[j - 1].mine && Extends(kind, items, j)
    ensures j < |items| && items[j].mine && RunEnd(kind, items, j) == RunEnd(kind, items, j + 1) >= j + 1
  {
    hide NextKey;
  }

  lemma EventAtIndex(items: seq<Item>, s: nat, e: nat, j: nat)
    requires s <= j < e <= |items| && Sendable(items, s, e)
    ensures items[j].ev.Some?
  {
  }

  lemma ThirdsGrow(m: nat, n: nat)
    requires m <= n
    ensures m / 3 <= n / 3
  {
  }

  /** The loop ends well only at the end of the run. */
  lemma {:induction false} InnerEnd(kind: Kind, items: seq<Item>, s: nat, j: nat, at: nat, limit: nat)
    requires s < j <= |items| && Keyed(kind, items) && items[j - 1].mine
    requires Inner(kind, items, s, j, at, limit).0
    ensures Inner(kind, items, s, j, at, limit).1 == at + (RunEnd(kind, items, j) - s) / 3
    decreases |items| - j
  {
    hide NextKey;
    if Extends(kind, items, j) {
      InnerEnd(kind, items, s, j + 1, at, limit);
    }
  }

  lemma {:induction false} FourBound(n: nat, q: nat, at: nat, limit: nat)
    requires q <= n / 4 && at < limit && (q > 0 ==> at + q + 3 <= limit)
    ensures FourReach(n, q, at, limit).1 <= limit
    decreases n / 4 - q
  {
    if q < n / 4 && at + q + 2 <= limit && at + q + 4 <= limit {
      FourBound(n, q + 1, at, limit);
    }
  }

  lemma {:induction false} FourOk(n: nat, q: nat, at: nat, limit: nat)
    requires q <= n / 4 && (n / 4 > 0 ==> at + n / 4 + 3 <= limit)
    ensures FourReach(n, q, at, limit) == (true, at + Len4(n))
    decreases n / 4 - q
  {
    if q < n / 4 {
      FourOk(n, q + 1, at, limit);
    }
  }

  lemma Thirds(n: nat)
    ensures Len3(n) == n / 3 + (if n % 3 == 0 then 0 else 1)
  {
  }

  lemma ThreeBound(kind: Kind, items: seq<Item>, s: nat, at: nat, limit: nat)
    requires s < |items| && Keyed(kind, items) && items[s].mine && at + 2 <= limit
    ensures ThreeReach(kind, items, s, at, limit).1 < limit
  {
    hide Inner, Extends, RunEnd;
    InnerBound(kind, items, s, s + 1, at, limit);
    if Inner(kind, items, s, s + 1, at, limit).0 {
      InnerEnd(kind, items, s, s + 1, at, limit);
      Thirds(RunEnd(kind, items, s + 1) - s);
    }
  }

  /** A vector with room for an end mark right after its first value stays inside. */
  lemma RunBound(kind: Kind, items: seq<Item>, s: nat, at: nat, limit: nat)
    requires s < |items| && Keyed(kind, items) && items[s].mine && at + 2 <= limit
    ensures RunReach(kind, items, s, at, limit) <= limit
  {
    hide ThreeReach, FourReach, RunEnd;
    ThreeBound(kind, items, s, at, limit);
    var three := ThreeReach(kind, items, s, at, limit);
    if three.0 && FourPacked(kind) {
      FourBound(RunEnd(kind, items, s + 1) - s, 0, three.1, limit);
    }
  }

  /** A vector that fits is written to its end and no further. */
  lemma RunOk(kind: Kind, items: seq<Item>, s: nat, start: nat, limit: nat)
    requires s < |items| && Keyed(kind, items) && items[s].mine
    requires Sendable(items, s, RunEnd(kind, items, s + 1))
    requires VectorFits(kind, RunEnd(kind, items, s + 1) - s, start, limit)
    ensures RunReach(kind, items, s, start + 2 + FirstLength(kind), limit)
         == start + VectorLength(kind, RunEnd(kind, items, s + 1) - s)
  {
    hide Inner, Extends, RunEnd, FourReach, VectorFits, VectorLength, Len3, Len4, Sendable;
    var at, n := start + 2 + FirstLength(kind), RunEnd(kind, items, s + 1) - s;
    FitsParts(kind, n, start, limit);
    EventAtIndex(items, s, s + n, s);
    InnerOk(kind, items, s, s + 1, at, limit);
    if FourPacked(kind) {
      FourOk(n, 0, at + Len3(n), limit);
    }
  }

  lemma FitsParts(kind: Kind, n: nat, start: nat, limit: nat)
    requires VectorFits(kind, n, start, limit)
    ensures var at := start + 2 + FirstLength(kind);
            && at + n / 3 + 2 <= limit
            && (FourPacked(kind) && n / 4 > 0 ==> at + Len3(n) + n / 4 + 3 <= limit)
            && start + VectorLength(kind, n) == at + Len3(n) + if FourPacked(kind) then Len4(n) else 0
  {
  }

  /** With no room for an end mark after the first value, only an attribute on its own adds a byte. */
  lemma RunTight(kind: Kind, items: seq<Item>, s: nat, at: nat, limit: nat)
    requires s < |items| && Keyed(kind, items) && items[s].mine && at + 2 > limit && !FourPacked(kind)
    ensures RunReach(kind, items, s, at, limit) == at + if Alone(kind, items, s) then 1 else 0
  {
    hide NextKey;
  }

  predicate Alone(kind: Kind, items: seq<Item>, s: nat)
    requires s < |items| && Keyed(kind, items) && items[s].mine
  {
    items[s].ev.Some? && RunEnd(kind, items, s + 1) == s + 1
  }

  // ---------------------------------------------------------------- The walk

  /** Once a vector has been written, everything that follows stays inside. */
  lemma {:induction false} WalkBound(kind: Kind, items: seq<Item>, i: nat, pos: nat, limit: nat, lva: bool)
    requires i <= |items| && Keyed(kind, items) && 0 < pos && pos + 2 <= limit
    ensures ReachFrom(kind, items, i, pos, limit) <= limit
    ensures EmitFrom(kind, items, i, pos, limit, lva).Emitted? ==> ReachFrom(kind, items, i, pos, limit) + 2 <= limit
    decreases |items| - i
  {
    hide RunReach, RunEnd, Extends, VectorLength, VectorFits, VectorFor, Sendable, VectorSize, FirstLength, HeaderLength, Leads;
    if i == |items| || pos + VectorSize(kind) + 2 >= limit {
    } else if !Leads(items[i]) {
      WalkBound(kind, items, i + 1, pos, limit, lva);
    } else {
      LeadsMine(items[i]);
      var e := RunEnd(kind, items, i + 1);
      WalkRun(kind, items, i, pos, limit, lva);
      if Sendable(items, i, e) && VectorFits(kind, e - i, pos, limit) {
        WalkBound(kind, items, e, pos + VectorLength(kind, e - i), limit, false);
      }
    }
  }

  lemma WalkRun(kind: Kind, items: seq<Item>, i: nat, pos: nat, limit: nat, lva: bool)
    requires i < |items| && Keyed(kind, items) && Leads(items[i]) && 0 < pos && pos + VectorSize(kind) + 2 < limit
    ensures var e := RunEnd(kind, items, i + 1);
            if Sendable(items, i, e) && VectorFits(kind, e - i, pos, limit)
            then var next := pos + VectorLength(kind, e - i);
                 && 0 < next && next + 2 <= limit
                 && ReachFrom(kind, items, i, pos, limit) == ReachFrom(kind, items, e, next, limit)
                 && EmitFrom(kind, items, i, pos, limit, lva).Emitted? == EmitFrom(kind, items, e, next, limit, false).Emitted?
            else ReachFrom(kind, items, i, pos, limit) <= limit && EmitFrom(kind, items, i, pos, limit, lva) == Oops
  {
    hide RunReach, RunEnd, Extends, VectorLength, VectorFits, VectorFor, Sendable, HeaderLength;
    var e := RunEnd(kind, items, i + 1);
    SecondFits(kind, pos, limit);
    RunBound(kind, items, i, pos + 2 + FirstLength(kind), limit);
    if VectorFits(kind, e - i, pos, limit) {
      FitsInLimit(kind, e - i, pos, limit);
    }
  }

  lemma LeadsMine(item: Item)
    requires Leads(item)
    ensures item.mine
  {
  }

  lemma SecondFits(kind: Kind, pos: nat, limit: nat)
    requires pos + VectorSize(kind) + 2 < limit
    ensures pos + 2 + FirstLength(kind) + 2 <= limit
  {
  }

  function FirstLead(items: seq<Item>, i: nat): (k: nat)
    requires i <= |items|
    ensures i <= k <= |items| && (k < |items| ==> Leads(items[k]))
    ensures forall m :: i <= m < k ==> !Leads(items[m])
    decreases |items| - i
  {
    if i == |items| || Leads(items[i]) then i else FirstLead(items, i + 1)
  }

  lemma {:induction false} WalkToLead(kind: Kind, items: seq<Item>, i: nat, limit: nat, lva: bool)
    requires i <= |items| && Keyed(kind, items) && VectorSize(kind) + 2 < limit
    ensures var k := FirstLead(items, i);
            && ReachFrom(kind, items, i, 0, limit) == ReachFrom(kind, items, k, 0, limit)
            && EmitFrom(kind, items, i, 0, limit, lva) == EmitFrom(kind, items, k, 0, limit, lva)
    decreases |items| - i
  {
    hide RunReach, RunEnd, VectorFits, VectorFor, VectorSize;
    if i < |items| && !Leads(items[i]) {
      WalkToLead(kind, items, i + 1, limit, lva);
    }
  }

  /** The first attribute that must be sent is reached by the walk. */
  predicate FindsLead(kind: Kind, items: seq<Item>, limit: nat) {
    VectorSize(kind) + 2 < limit && FirstLead(items, 0) < |items|
  }

  /**
    When the room is large enough: below the smallest vector size nothing is written; a first
    vector needs its header and first value, and one byte more if its attribute is alone; an
    empty LeaveAll needs its header, first value and end mark.
   */
  predicate RoomSuffices(kind: Kind, items: seq<Item>, limit: nat, sendEmpty: bool)
    requires Keyed(kind, items)
  {
    || limit < VectorSize(kind)
    || (if FindsLead(kind, items, limit)
        then HeaderLength(kind) + 2 + FirstLength(kind) + (if Alone(kind, items, FirstLead(items, 0)) then 1 else 0) <= limit
        else sendEmpty ==> HeaderLength(kind) + FirstLength(kind) + 4 <= limit)
  }

  lemma LeadReach(kind: Kind, items: seq<Item>, k: nat, limit: nat, lva: bool)
    requires k < |items| && Keyed(kind, items) && Leads(items[k]) && VectorSize(kind) + 2 < limit
    ensures var at := HeaderLength(kind) + 2 + FirstLength(kind);
            var walked := ReachFrom(kind, items, k, 0, limit);
            if at + 2 <= limit
            then walked <= limit && (EmitFrom(kind, items, k, 0, limit, lva).Emitted? ==> walked + 2 <= limit)
            else EmitFrom(kind, items, k, 0, limit, lva) == Oops && walked == at + if Alone(kind, items, k) then 1 else 0
  {
    hide RunReach, RunEnd, Extends, VectorFor, Sendable, Alone, VectorFits, VectorLength;
    var e, start := RunEnd(kind, items, k + 1), HeaderLength(kind);
    var at := start + 2 + FirstLength(kind);
    var fits := Sendable(items, k, e) && VectorFits(kind, e - k, start, limit);
    if at + 2 <= limit {
      if fits {
        FitsInLimit(kind, e - k, start, limit);
        WalkBound(kind, items, e, start + VectorLength(kind, e - k), limit, false);
      } else {
        RunBound(kind, items, k, at, limit);
      }
    } else {
      TightFits(kind, e - k, start, limit);
      ListenersNeverTight(kind, limit);
      RunTight(kind, items, k, at, limit);
    }
  }

  lemma TightFits(kind: Kind, n: nat, start: nat, limit: nat)
    requires start + 4 + FirstLength(kind) > limit
    ensures !VectorFits(kind, n, start, limit)
  {
  }

  lemma ListenersNeverTight(kind: Kind, limit: nat)
    requires VectorSize(kind) + 2 < limit && HeaderLength(kind) + 4 + FirstLength(kind) > limit
    ensures !FourPacked(kind)
  {
  }

  /** An emitter call stays inside its room if and only if the room suffices, for every list. */
  lemma ReachIff(kind: Kind, items: seq<Item>, limit: nat, lva: bool, sendEmpty: bool)
    requires Keyed(kind, items)
    ensures Reach(kind, items, limit, lva, sendEmpty) <= limit <==> RoomSuffices(kind, items, limit, sendEmpty)
  {
    hide ReachFrom, EmitFrom, Alone, RunEnd;
    var k := FirstLead(items, 0);
    if limit >= VectorSize(kind) {
      if VectorSize(kind) + 2 < limit {
        WalkToLead(kind, items, 0, limit, lva);
        if k < |items| {
          LeadReach(kind, items, k, limit, lva);
          LeadSpeaks(kind, items, k, limit, lva);
        } else {
          WalkEnds(kind, items, k, limit, lva);
        }
      } else {
        WalkEnds(kind, items, 0, limit, lva);
      }
    }
  }

  /** What a call writes behind its room: seven bytes at most, and only as it fails or with an empty LeaveAll. */
  lemma Overrun(kind: Kind, items: seq<Item>, limit: nat, lva: bool, sendEmpty: bool)
    requires Keyed(kind, items)
    ensures var reach, em := Reach(kind, items, limit, lva, sendEmpty), EmitMessage(kind, items, limit, lva, sendEmpty);
            && reach <= limit + 7
            && (reach > limit && em.Emitted? ==>
                  em.vectors == [EmptyLeaveAll(kind)] && reach == HeaderLength(kind) + FirstLength(kind) + 4)
  {
    hide ReachFrom, EmitFrom, Alone, RunEnd, EmptyLeaveAll;
    var k := FirstLead(items, 0);
    if limit >= VectorSize(kind) {
      if VectorSize(kind) + 2 < limit {
        WalkToLead(kind, items, 0, limit, lva);
        if k < |items| {
          LeadReach(kind, items, k, limit, lva);
          LeadSpeaks(kind, items, k, limit, lva);
        } else {
          WalkEnds(kind, items, k, limit, lva);
        }
      } else {
        WalkEnds(kind, items, 0, limit, lva);
      }
    }
  }

  lemma WalkEnds(kind: Kind, items: seq<Item>, i: nat, limit: nat, lva: bool)
    requires i <= |items| && Keyed(kind, items) && (i == |items| || VectorSize(kind) + 2 >= limit)
    ensures ReachFrom(kind, items, i, 0, limit) == 0 && EmitFrom(kind, items, i, 0, limit, lva) == Emitted([], i)
    ensures limit >= VectorSize(kind) ==> limit >= 2
  {
  }

  lemma LeadSpeaks(kind: Kind, items: seq<Item>, k: nat, limit: nat, lva: bool)
    requires k < |items| && Keyed(kind, items) && Leads(items[k]) && VectorSize(kind) + 2 < limit
    ensures var em := EmitFrom(kind, items, k, 0, limit, lva); em.Emitted? ==> em.vectors != []
  {
    hide RunEnd, VectorFor, Sendable, VectorFits;
  }

  /**
    The rooms that do not suffice, type by type: 31 bytes for a lone Talker Advertise, 40 for a
    lone Talker Failed, 8 to 10 for a domain, and those too small for an empty LeaveAll.
   */
  lemma TightRooms(kind: Kind, items: seq<Item>, limit: nat, sendEmpty: bool)
    requires Keyed(kind, items)
    ensures !RoomSuffices(kind, items, limit, sendEmpty) <==>
              if FindsLead(kind, items, limit) then
                var alone := Alone(kind, items, FirstLead(items, 0));
                match kind
                case TalkerAdv => alone && limit == 31
                case TalkerFailed => alone && limit == 40
                case Domain => 8 <= limit <= 9 || (alone && limit == 10)
                case _ => false
              else
                sendEmpty && VectorSize(kind) <= limit < HeaderLength(kind) + FirstLength(kind) + 4
  {
    hide Alone;
  }

  /** Room for an empty LeaveAll message suffices for every list. */
  lemma WideRoom(kind: Kind, items: seq<Item>, limit: nat, lva: bool, sendEmpty: bool)
    requires Keyed(kind, items) && HeaderLength(kind) + FirstLength(kind) + 4 <= limit
    ensures Reach(kind, items, limit, lva, sendEmpty) <= limit
  {
    hide Reach, Alone;
    ReachIff(kind, items, limit, lva, sendEmpty);
  }

  // ---------------------------------------------------------------- What the reach depends on

  lemma {:induction false} InnerSame(kind: Kind, a: seq<Item>, b: seq<Item>, s: nat, j: nat, at: nat, limit: nat)
    requires |a| == |b| && s < j <= |a| && Keyed(kind, a) && Keyed(kind, b)
    requires a[j - 1].mine && b[j - 1].mine && a[j - 1].key == b[j - 1].key
    requires forall k :: j <= k < |a| ==> a[k] == b[k]
    ensures Inner(kind, a, s, j, at, limit) == Inner(kind, b, s, j, at, limit)
    ensures RunEnd(kind, a, j) == RunEnd(kind, b, j)
    decreases |a| - j
  {
    hide NextKey;
    if Extends(kind, a, j) {
      InnerSame(kind, a, b, s, j + 1, at, limit);
    }
  }

  /** Neither earlier attributes nor the first one's flags matter to a run. */
  lemma RunReachSame(kind: Kind, a: seq<Item>, b: seq<Item>, s: nat, at: nat, limit: nat)
    requires |a| == |b| && s < |a| && Keyed(kind, a) && Keyed(kind, b)
    requires a[s].mine && b[s].mine && a[s].key == b[s].key && a[s].ev == b[s].ev
    requires forall k :: s < k < |a| ==> a[k] == b[k]
    ensures RunReach(kind, a, s, at, limit) == RunReach(kind, b, s, at, limit)
  {
    hide Inner, RunEnd, FourReach;
    InnerSame(kind, a, b, s, s + 1, at, limit);
  }

  lemma {:induction false} InnerShift(kind: Kind, items: seq<Item>, s: nat, j: nat, at: nat, limit: nat, base: nat)
    requires s < j <= |items| && Keyed(kind, items) && items[j - 1].mine
    ensures var r, t := Inner(kind, items, s, j, at, limit), Inner(kind, items, s, j, base + at, base + limit);
            t.0 == r.0 && t.1 == base + r.1
    decreases |items| - j
  {
    hide NextKey;
    if Extends(kind, items, j) {
      InnerShift(kind, items, s, j + 1, at, limit, base);
    }
  }

  lemma {:induction false} FourShift(n: nat, q: nat, at: nat, limit: nat, base: nat)
    requires q <= n / 4
    ensures var r, t := FourReach(n, q, at, limit), FourReach(n, q, base + at, base + limit);
            t.0 == r.0 && t.1 == base + r.1
    decreases n / 4 - q
  {
    if q < n / 4 {
      FourShift(n, q + 1, at, limit, base);
    }
  }

  /** Positions count from the message or from the frame alike. */
  lemma RunReachShift(kind: Kind, items: seq<Item>, s: nat, at: nat, limit: nat, base: nat)
    requires s < |items| && Keyed(kind, items) && items[s].mine
    ensures RunReach(kind, items, s, base + at, base + limit) == base + RunReach(kind, items, s, at, limit)
  {
    hide Inner, RunEnd, FourReach;
    InnerShift(kind, items, s, s + 1, at, limit, base);
    var three := ThreeReach(kind, items, s, at, limit);
    FourShift(RunEnd(kind, items, s + 1) - s, 0, three.1, limit, base);
  }
}
