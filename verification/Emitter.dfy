/**
  The vector emitters as they run: a frame buffer written in place through moving positions,
  transmit flags cleared along the way, three pending events packed into a byte at a time.
 */
module Emitter {
  import opened Mrp
  import opened Mrpdu
  import opened Emission
  import opened EmissionReach

  /** Transmit flags may have been cleared; nothing else about the attributes changed. */
  ghost predicate OnlyTxCleared(before: seq<Item>, now: seq<Item>) {
    && |before| == |now|
    && forall k :: 0 <= k < |now| ==> now[k] == before[k] || now[k] == before[k].(tx := false)
  }

  ghost predicate SameOutside(before: seq<byte>, now: seq<byte>, from: nat, to: nat) {
    && |before| == |now|
    && forall k :: 0 <= k < |now| && (k < from || k >= to) ==> now[k] == before[k]
  }

  /** Events s..e of the list are the digits already packed or pending. */
  ghost predicate PackedSoFar(evs: seq<event>, buf: seq<byte>, at: nat, vectidx: nat, vectevt: seq<event>, idx: nat) {
    && vectidx == at + |evs| / 3 && idx == |evs| % 3
    && Packed3(evs, buf, at, |evs| / 3) && Pending(evs, vectevt, 3 * (|evs| / 3))
  }

  /** The first n bytes of the packed events are in place. */
  ghost predicate Packed3(evs: seq<event>, buf: seq<byte>, at: nat, n: nat) {
    at + n <= |buf| && forall k :: 0 <= k < n ==> buf[at + k] == Byte3(evs, k)
  }

  /** The events from i on wait for their byte, filled up with zeros. */
  ghost predicate Pending(evs: seq<event>, vectevt: seq<event>, i: nat) {
    |vectevt| == 3 && forall k :: 0 <= k < 3 ==> vectevt[k] == EventAt(evs, i + k)
  }

  lemma PackedAll(evs: seq<event>, buf: seq<byte>, at: nat, vectidx: nat, end: nat, vectevt: seq<event>, idx: nat)
    requires PackedSoFar(evs, buf, at, vectidx, vectevt, idx) && end == vectidx + (if idx > 0 then 1 else 0) <= |buf|
    requires idx > 0 ==> buf[vectidx] == Encode3(vectevt[0], vectevt[1], vectevt[2])
    ensures end == at + Len3(|evs|) && buf[at..end] == Pack3(evs)
  {
    forall k | 0 <= k < Len3(|evs|) ensures buf[at + k] == Byte3(evs, k) {
    }
  }

  lemma PackMore(evs: seq<event>, x: event, k: nat)
    requires k < |evs| / 3
    ensures Byte3(evs + [x], k) == Byte3(evs, k)
  {
  }

  /** Adds one event to the pending ones, and writes their byte when there are three. */
  method PushEvent(buf: array<byte>, ghost at: nat, ghost evs: seq<event>, vectidx: nat, vectevt: seq<event>, idx: nat, ev: event)
    returns (vectidx': nat, vectevt': seq<event>, idx': nat)
    requires PackedSoFar(evs, buf[..], at, vectidx, vectevt, idx) && (idx == 2 ==> vectidx < buf.Length)
    modifies buf
    ensures PackedSoFar(evs + [ev], buf[..], at, vectidx', vectevt', idx') && vectidx <= vectidx' <= vectidx + 1
    ensures SameOutside(old(buf[..]), buf[..], vectidx, vectidx')
  {
    vectidx', vectevt', idx' := vectidx, vectevt[idx := ev], idx + 1;
    if idx' > 2 {
      buf[vectidx] := Encode3(vectevt'[0], vectevt'[1], vectevt'[2]);
      vectidx', vectevt', idx' := vectidx + 1, [0, 0, 0], 0;
    }
    PackStep(evs, ev, old(buf[..]), buf[..], at, vectidx', vectevt', idx');
  }

  lemma RunEndStep(kind: Kind, items: seq<Item>, j: nat)
    requires 0 < j <= |items| && Keyed(kind, items) && items[j - 1].mine
    ensures |items[j - 1].key| == KeyLength(kind)
    ensures Extends(kind, items, j) ==> items[j].mine && RunEnd(kind, items, j) == RunEnd(kind, items, j + 1)
    ensures !Extends(kind, items, j) ==> RunEnd(kind, items, j) == j
  {
  }

  lemma EventsStep(items: seq<Item>, s: nat, e: nat)
    requires s <= e < |items| && Sendable(items, s, e) && items[e].ev.Some?
    ensures Sendable(items, s, e + 1) && Events(items, s, e + 1) == Events(items, s, e) + [items[e].ev.value]
  {
  }

  ghost function Cleared(items: seq<Item>, s: nat, e: nat): (r: seq<Item>)
    ensures |r| == |items|
  {
    seq<Item>(|items|, k requires 0 <= k < |items| => if s < k < e then items[k].(tx := false) else items[k])
  }

  lemma ClearedStep(items: seq<Item>, s: nat, e: nat)
    requires s < e < |items|
    ensures Cleared(items, s, e)[e] == items[e]
    ensures Cleared(items, s, e + 1) == Cleared(items, s, e)[e := items[e].(tx := false)]
  {
  }

  lemma NothingCleared(items: seq<Item>, s: nat)
    ensures Cleared(items, s, s + 1) == items
  {
  }

  /** Why a run cannot be written: an attribute without an event, or too many events for the frame. */
  ghost predicate CannotPack(kind: Kind, items: seq<Item>, s: nat, at: nat, eof: nat)
    requires s < |items| && Keyed(kind, items) && items[s].mine
  {
    var e := RunEnd(kind, items, s + 1);
    !Sendable(items, s, e) || at + Len3(e - s) + 2 > eof
  }

  ghost predicate PackedRun(kind: Kind, items: seq<Item>, s: nat, e: nat, buf: seq<byte>, at: nat, vectidx: nat,
                            vectevt: seq<event>, idx: nat)
  {
    s < e <= |items| && Sendable(items, s, e) && PackedSoFar(Events(items, s, e), buf, at, vectidx, vectevt, idx)
  }

  method PushItem(buf: array<byte>, ghost kind: Kind, ghost items: seq<Item>, ghost s: nat, ghost e: nat, ghost at: nat,
                  vectidx: nat, vectevt: seq<event>, idx: nat, ev: event)
    returns (vectidx': nat, vectevt': seq<event>, idx': nat)
    requires PackedRun(kind, items, s, e, buf[..], at, vectidx, vectevt, idx) && at + (e + 1 - s) / 3 <= buf.Length
    requires e < |items| && items[e].ev == Some(ev)
    modifies buf
    ensures PackedRun(kind, items, s, e + 1, buf[..], at, vectidx', vectevt', idx')
    ensures vectidx <= vectidx' == at + (e + 1 - s) / 3 && SameOutside(old(buf[..]), buf[..], vectidx, vectidx')
  {
    hide PackedSoFar, Events;
    EventsStep(items, s, e);
    PackedLength(Events(items, s, e), buf[..], at, vectidx, vectevt, idx);
    EventsLength(items, s, e);
    vectidx', vectevt', idx' := PushEvent(buf, at, Events(items, s, e), vectidx, vectevt, idx, ev);
    PackedLength(Events(items, s, e) + [ev], buf[..], at, vectidx', vectevt', idx');
  }

  /** Joins the contiguous attributes after `s` to the vector, packing their events as they come. */
  method PackRun(kind: Kind, items: array<Item>, s: nat, buf: array<byte>, at: nat, eof: nat)
    returns (ok: bool, e: nat, vectidx: nat, vectevt: seq<event>, idx: nat)
    requires s < items.Length && Keyed(kind, items[..]) && items[s].mine && items[s].ev.Some?
    requires Inner(kind, items[..], s, s + 1, at, eof).1 <= buf.Length
    modifies items, buf
    ensures s < e <= items.Length && items[..] == Cleared(old(items[..]), s, e)
    ensures at <= vectidx && SameOutside(old(buf[..]), buf[..], at, vectidx)
    ensures (ok, vectidx) == Inner(kind, old(items[..]), s, s + 1, at, eof)
    ensures ok ==> e == RunEnd(kind, old(items[..]), s + 1)
    ensures ok ==> PackedRun(kind, old(items[..]), s, e, buf[..], at, vectidx, vectevt, idx)
    ensures !ok ==> CannotPack(kind, old(items[..]), s, at, eof)
  {
    hide Packing, PackedRun, RunEnd, Keyed, CannotPack, Cleared, SameOutside, Inner;
    ghost var items0, buf0 := items[..], buf[..];
    ok, e, vectidx, vectevt, idx := true, s + 1, at, [items[s].ev.value, 0, 0], 1;
    var cur, more := items[s].key, Aggregates(kind);
    PackingStarts(kind, items0, s, buf0, at, eof);
    while ok && more && e < items.Length
      invariant Packing(kind, items0, items[..], s, e, buf0, buf[..], at, eof, vectidx, vectevt, idx, cur, ok, more)
      invariant items.Length == |items0|
      decreases items.Length - e, more
    {
      ok, e, vectidx, vectevt, idx, cur, more := PackOne(kind, items, s, e, buf, at, eof, vectidx, vectevt, idx, cur, items0, buf0);
    }
    PackingEnds(kind, items0, items[..], s, e, buf0, buf[..], at, eof, vectidx, vectevt, idx, cur, ok, more);
  }

  /** Packing is under way: events up to `e` are packed, and the run goes on where it did. */
  ghost predicate Packing(kind: Kind, items0: seq<Item>, now: seq<Item>, s: nat, e: nat, buf0: seq<byte>, buf: seq<byte>,
                          at: nat, eof: nat, vectidx: nat, vectevt: seq<event>, idx: nat, cur: seq<byte>, ok: bool, more: bool)
  {
    && s < e <= |items0| && now == Cleared(items0, s, e) && Keyed(kind, items0) && items0[s].mine
    && at <= vectidx <= |buf| && SameOutside(buf0, buf, at, vectidx)
    && (if ok then
          && items0[e - 1].mine && cur == items0[e - 1].key && vectidx == at + (e - s) / 3
          && RunEnd(kind, items0, e) == RunEnd(kind, items0, s + 1)
          && Inner(kind, items0, s, e, at, eof) == Inner(kind, items0, s, s + 1, at, eof)
          && (if more then Aggregates(kind) else RunEnd(kind, items0, e) == e && !Extends(kind, items0, e))
          && PackedRun(kind, items0, s, e, buf, at, vectidx, vectevt, idx)
        else CannotPack(kind, items0, s, at, eof) && Inner(kind, items0, s, s + 1, at, eof) == (false, vectidx))
  }

  lemma PackingStarts(kind: Kind, items: seq<Item>, s: nat, buf: seq<byte>, at: nat, eof: nat)
    requires s < |items| && Keyed(kind, items) && items[s].mine && items[s].ev.Some? && at <= |buf|
    ensures Packing(kind, items, items, s, s + 1, buf, buf, at, eof, at, [items[s].ev.value, 0, 0], 1, items[s].key, true, Aggregates(kind))
  {
    hide PackedRun, RunEnd, Keyed, Cleared, Extends, Inner;
    FirstEvent(kind, items, s, buf, at);
    NothingCleared(items, s);
    RunEndStep(kind, items, s + 1);
    ExtendsWhen(kind, items, s + 1);
    NothingWritten(buf, at);
  }

  lemma PackingEnds(kind: Kind, items0: seq<Item>, now: seq<Item>, s: nat, e: nat, buf0: seq<byte>, buf: seq<byte>,
                    at: nat, eof: nat, vectidx: nat, vectevt: seq<event>, idx: nat, cur: seq<byte>, ok: bool, more: bool)
    requires Packing(kind, items0, now, s, e, buf0, buf, at, eof, vectidx, vectevt, idx, cur, ok, more)
    requires !(ok && more && e < |items0|)
    ensures s < e <= |items0| && now == Cleared(items0, s, e) && Keyed(kind, items0) && items0[s].mine
    ensures at <= vectidx && SameOutside(buf0, buf, at, vectidx)
    ensures (ok, vectidx) == Inner(kind, items0, s, s + 1, at, eof)
    ensures ok ==> e == RunEnd(kind, items0, s + 1)
    ensures ok ==> PackedRun(kind, items0, s, e, buf, at, vectidx, vectevt, idx)
    ensures !ok ==> CannotPack(kind, items0, s, at, eof)
  {
    hide PackedRun, RunEnd, Keyed, Cleared, Extends, CannotPack, Inner;
    if ok {
      if more {
        RunEndStep(kind, items0, e);
        ExtendsWhen(kind, items0, e);
      }
      InnerStops(kind, items0, s, e, at, eof);
    }
  }

  lemma InnerStops(kind: Kind, items: seq<Item>, s: nat, j: nat, at: nat, eof: nat)
    requires s < j <= |items| && Keyed(kind, items) && items[j - 1].mine && !Extends(kind, items, j)
    ensures Inner(kind, items, s, j, at, eof) == (true, at + (j - s) / 3)
  {
  }

  lemma InnerStep(kind: Kind, items: seq<Item>, s: nat, j: nat, at: nat, eof: nat)
    requires s < j <= |items| && Keyed(kind, items) && items[j - 1].mine && Extends(kind, items, j)
    ensures j < |items| && items[j].mine
    ensures items[j].ev.None? ==> Inner(kind, items, s, j, at, eof) == (false, at + (j - s) / 3)
    ensures items[j].ev.Some? ==>
              var next := at + (j + 1 - s) / 3;
              && Inner(kind, items, s, j, at, eof).1 >= next
              && (if next + 2 > eof then Inner(kind, items, s, j, at, eof) == (false, next)
                  else Inner(kind, items, s, j, at, eof) == Inner(kind, items, s, j + 1, at, eof))
  {
    hide NextKey;
  }

  /** One turn of the packing loop. */
  method PackOne(kind: Kind, items: array<Item>, s: nat, e0: nat, buf: array<byte>, at: nat, eof: nat,
                 vectidx0: nat, vectevt0: seq<event>, idx0: nat, cur0: seq<byte>,
                 ghost items0: seq<Item>, ghost buf0: seq<byte>)
    returns (ok: bool, e: nat, vectidx: nat, vectevt: seq<event>, idx: nat, cur: seq<byte>, more: bool)
    requires e0 < items.Length == |items0|
    requires Packing(kind, items0, items[..], s, e0, buf0, buf[..], at, eof, vectidx0, vectevt0, idx0, cur0, true, true)
    requires Keyed(kind, items0) && s < |items0| && items0[s].mine && Inner(kind, items0, s, s + 1, at, eof).1 <= buf.Length
    modifies items, buf
    ensures Packing(kind, items0, items[..], s, e, buf0, buf[..], at, eof, vectidx, vectevt, idx, cur, ok, more)
    ensures e == (if more then e0 + 1 else e0)
  {
    hide NextKey, PackedRun, RunEnd, Keyed, CannotPack, Cleared, Extends, SameOutside, Inner;
    ok, e, vectidx, vectevt, idx := true, e0, vectidx0, vectevt0, idx0;
    RunEndStep(kind, items0, e);
    ClearedStep(items0, s, e);
    ExtendsWhen(kind, items0, e);
    assert items[e] == items[..][e];
    more, cur := NextInRun(kind, items[e], cur0);
    if more {
      ok, vectidx, vectevt, idx := PackNext(kind, items, s, e, buf, at, eof, vectidx, vectevt, idx, cur0, items0, buf0);
      e := e + 1;
    }
  }

  /** The attribute at e continues the run: its flag is cleared and its event packed. */
  method PackNext(kind: Kind, items: array<Item>, s: nat, e: nat, buf: array<byte>, at: nat, eof: nat,
                  vectidx0: nat, vectevt0: seq<event>, idx0: nat, ghost cur0: seq<byte>,
                  ghost items0: seq<Item>, ghost buf0: seq<byte>)
    returns (ok: bool, vectidx: nat, vectevt: seq<event>, idx: nat)
    requires e < items.Length == |items0|
    requires Packing(kind, items0, items[..], s, e, buf0, buf[..], at, eof, vectidx0, vectevt0, idx0, cur0, true, true)
    requires Extends(kind, items0, e) && Inner(kind, items0, s, s + 1, at, eof).1 <= buf.Length
    modifies items, buf
    ensures Packing(kind, items0, items[..], s, e + 1, buf0, buf[..], at, eof, vectidx, vectevt, idx, items0[e].key, ok, true)
  {
    hide NextKey, PackedRun, RunEnd, Keyed, CannotPack, Cleared, Extends, SameOutside, Inner;
    ok, vectidx, vectevt, idx := true, vectidx0, vectevt0, idx0;
    RunEndStep(kind, items0, e);
    ClearedStep(items0, s, e);
    assert items[e] == items[..][e];
    items[e] := items[e].(tx := false);
    assert items[..] == Cleared(items0, s, e + 1);
    RunReaches(kind, items0, e + 1);
    InnerStep(kind, items0, s, e, at, eof);
    if items[e].ev.None? {
      NoEvent(kind, items0, s, e, at, eof);
      ok := false;
    } else {
      ghost var before := buf[..];
      vectidx, vectevt, idx := PushItem(buf, kind, items0, s, e, at, vectidx, vectevt, idx, items[e].ev.value);
      MoreWritten(buf0, before, buf[..], at, vectidx0, vectidx);
      if vectidx + 2 > eof {
        NoRoom(kind, items0, s, e + 1, buf[..], at, eof, vectidx, vectevt, idx);
        ok := false;
      }
    }
  }

  /** Whether an attribute comes right after the one with key `cur` and is due too. */
  method NextInRun(kind: Kind, item: Item, cur: seq<byte>) returns (more: bool, next: seq<byte>)
    requires |cur| >= FirstLength(kind)
    ensures more <==> item.mine && item.tx && item.key == NextKey(kind, cur)
    ensures next == if more then item.key else cur
  {
    more, next := false, cur;
    if item.mine && item.tx {
      var following := NextKey(kind, cur);
      if item.key == following {
        more, next := true, following;
      }
    }
  }

  lemma ExtendsWhen(kind: Kind, items: seq<Item>, j: nat)
    requires 0 < j <= |items| && Keyed(kind, items) && items[j - 1].mine
    ensures Extends(kind, items, j) <==>
              && Aggregates(kind) && j < |items| && items[j].mine && items[j].tx
              && |items[j - 1].key| >= FirstLength(kind) && items[j].key == NextKey(kind, items[j - 1].key)
  {
    hide NextKey;
  }

  lemma RunReaches(kind: Kind, items: seq<Item>, j: nat)
    requires 0 < j <= |items| && Keyed(kind, items) && items[j - 1].mine
    ensures j <= RunEnd(kind, items, j)
  {
    hide Extends;
  }

  lemma NothingWritten(buf: seq<byte>, at: nat)
    ensures SameOutside(buf, buf, at, at)
  {
  }

  lemma MoreWritten(a: seq<byte>, b: seq<byte>, c: seq<byte>, from: nat, mid: nat, to: nat)
    requires SameOutside(a, b, from, mid) && SameOutside(b, c, mid, to) && from <= mid <= to
    ensures SameOutside(a, c, from, to)
  {
  }

  lemma NoEvent(kind: Kind, items: seq<Item>, s: nat, e: nat, at: nat, eof: nat)
    requires s < e < |items| && Keyed(kind, items) && items[s].mine && items[e].ev.None?
    requires e < RunEnd(kind, items, s + 1)
    ensures CannotPack(kind, items, s, at, eof)
  {
    hide RunEnd, Keyed;
  }

  lemma NoRoom(kind: Kind, items: seq<Item>, s: nat, e: nat, buf: seq<byte>, at: nat, eof: nat, vectidx: nat,
               vectevt: seq<event>, idx: nat)
    requires s < e <= |items| && Keyed(kind, items) && items[s].mine
    requires e <= RunEnd(kind, items, s + 1) && PackedRun(kind, items, s, e, buf, at, vectidx, vectevt, idx)
    requires vectidx + 2 > eof
    ensures CannotPack(kind, items, s, at, eof)
  {
    hide RunEnd, Keyed;
    PackedBound(e - s, RunEnd(kind, items, s + 1) - s);
  }

  /** Writes the three-packed events of the run that starts at `s`. */
  method WriteThreePacked(kind: Kind, items: array<Item>, s: nat, buf: array<byte>, at: nat, eof: nat)
    returns (ok: bool, e: nat, end: nat)
    requires s < items.Length && Keyed(kind, items[..]) && items[s].mine
    requires ThreeReach(kind, items[..], s, at, eof).1 <= buf.Length
    modifies items, buf
    ensures s < e <= items.Length && items[..] == Cleared(old(items[..]), s, e)
    ensures at <= end <= buf.Length && SameOutside(old(buf[..]), buf[..], at, end)
    ensures (ok, end) == ThreeReach(kind, old(items[..]), s, at, eof)
    ensures ok ==> e == RunEnd(kind, old(items[..]), s + 1) && Sendable(old(items[..]), s, e)
    ensures ok ==> end == at + Len3(e - s) && buf[at..end] == Pack3(Events(old(items[..]), s, e))
    ensures !ok ==> CannotPack(kind, old(items[..]), s, at, eof)
  {
    hide RunEnd, Encode3, Keyed, PackedSoFar, Pack3, Cleared, Inner;
    ok, e, end := false, s + 1, at;
    NothingCleared(items[..], s);
    if items[s].ev.Some? {
      var vectidx, vectevt, idx;
      InnerWithin(kind, items[..], s, at, eof);
      ok, e, vectidx, vectevt, idx := PackRun(kind, items, s, buf, at, eof);
      end := vectidx;
      if ok {
        ghost var evs, packed := Events(old(items[..]), s, e), buf[..];
        PackedLength(evs, packed, at, vectidx, vectevt, idx);
        if idx > 0 {
          buf[end] := Encode3(vectevt[0], vectevt[1], vectevt[2]);
          end := end + 1;
        }
        PackedKept(evs, packed, buf[..], at, vectidx, vectevt, idx);
        PackedAll(evs, buf[..], at, vectidx, end, vectevt, idx);
      }
    }
  }

  lemma InnerWithin(kind: Kind, items: seq<Item>, s: nat, at: nat, eof: nat)
    requires s < |items| && Keyed(kind, items) && items[s].mine && items[s].ev.Some?
    ensures Inner(kind, items, s, s + 1, at, eof).1 <= ThreeReach(kind, items, s, at, eof).1
  {
    hide Inner, RunEnd, Extends;
    if Inner(kind, items, s, s + 1, at, eof).0 {
      InnerEnd(kind, items, s, s + 1, at, eof);
      Thirds(RunEnd(kind, items, s + 1) - s);
    }
  }

  lemma FirstEvent(kind: Kind, items: seq<Item>, s: nat, buf: seq<byte>, at: nat)
    requires s < |items| && items[s].ev.Some? && at <= |buf|
    ensures PackedRun(kind, items, s, s + 1, buf, at, at, [items[s].ev.value, 0, 0], 1)
  {
  }

  lemma PackedLength(evs: seq<event>, buf: seq<byte>, at: nat, vectidx: nat, vectevt: seq<event>, idx: nat)
    requires PackedSoFar(evs, buf, at, vectidx, vectevt, idx)
    ensures vectidx == at + |evs| / 3 && idx == |evs| % 3 && |vectevt| == 3
  {
  }

  lemma PackedBound(m: nat, n: nat)
    requires m <= n
    ensures m / 3 <= Len3(n)
  {
  }

  lemma PackedKept(evs: seq<event>, before: seq<byte>, now: seq<byte>, at: nat, vectidx: nat, vectevt: seq<event>, idx: nat)
    requires PackedSoFar(evs, before, at, vectidx, vectevt, idx)
    requires SameOutside(before, now, vectidx, vectidx + 1)
    ensures PackedSoFar(evs, now, at, vectidx, vectevt, idx)
  {
  }

  lemma PackStep(was: seq<event>, ev: event, before: seq<byte>, now: seq<byte>, at: nat, vectidx: nat, vectevt: seq<event>, idx: nat)
    requires |before| == |now| && vectidx <= |now|
    requires vectidx == at + (|was| + 1) / 3 && idx == (|was| + 1) % 3
    requires Packed3(was, before, at, |was| / 3) && Pending(was + [ev], vectevt, 3 * ((|was| + 1) / 3))
    requires forall k :: 0 <= k < |now| && !(idx == 0 && k == vectidx - 1) ==> now[k] == before[k]
    requires idx == 0 ==> vectidx > at && now[vectidx - 1] == Byte3(was + [ev], |was| / 3)
    ensures PackedSoFar(was + [ev], now, at, vectidx, vectevt, idx)
  {
    hide Encode3;
    forall k | 0 <= k < |was + [ev]| / 3 ensures now[at + k] == Byte3(was + [ev], k) {
      if k < |was| / 3 {
        PackMore(was, ev, k);
      }
    }
  }

  // ---------------------------------------------------------------- Four-packed substates

  ghost predicate Packed4(declared: seq<substate>, buf: seq<byte>, at: nat, q: nat) {
    at + q <= |buf| && forall k :: 0 <= k < q ==> buf[at + k] == Byte4(declared, k)
  }

  lemma Packed4Step(declared: seq<substate>, before: seq<byte>, buf: seq<byte>, at: nat, q: nat, x: byte)
    requires Packed4(declared, buf, at, q) && at + q < |buf| && x == Byte4(declared, q) && SameOutside(before, buf, at, at + q)
    ensures Packed4(declared, buf[at + q := x], at, q + 1) && SameOutside(before, buf[at + q := x], at, at + q + 1)
  {
    hide Byte4;
  }

  lemma Packed4All(declared: seq<substate>, buf: seq<byte>, at: nat)
    requires Packed4(declared, buf, at, Len4(|declared|))
    ensures buf[at..at + Len4(|declared|)] == Pack4(declared)
  {
    hide Byte4;
  }

  lemma FourStep(n: nat, q: nat, at: nat, eof: nat)
    requires q <= n / 4
    ensures q < n / 4 && at + q + 2 > eof ==> FourReach(n, q, at, eof) == (false, at + q)
    ensures q < n / 4 && at + q + 2 <= eof && at + q + 4 > eof ==> FourReach(n, q, at, eof) == (false, at + q + 1)
    ensures q < n / 4 && at + q + 4 <= eof ==> FourReach(n, q, at, eof) == FourReach(n, q + 1, at, eof)
    ensures q == n / 4 ==> FourReach(n, q, at, eof) == (true, at + Len4(n))
  {
  }

  /** Writes the listener substates, four to a byte. */
  method WriteFourPacked(declared: seq<substate>, buf: array<byte>, at: nat, eof: nat) returns (ok: bool, end: nat)
    requires FourReach(|declared|, 0, at, eof).1 <= buf.Length
    modifies buf
    ensures at <= end <= buf.Length && SameOutside(old(buf[..]), buf[..], at, end)
    ensures (ok, end) == FourReach(|declared|, 0, at, eof)
    ensures ok <==> |declared| < 4 || at + |declared| / 4 + 3 <= eof
    ensures ok ==> end == at + Len4(|declared|) && buf[at..end] == Pack4(declared)
  {
    hide Encode4, FourReach, Packed4, Pack4, SameOutside;
    var full := |declared| / 4;
    var q := 0;
    ok, end := true, at;
    NothingPacked4(declared, buf[..], at, eof);
    while ok && q < full
      invariant 0 <= q <= full && end == at + q && Packed4(declared, buf[..], at, q)
      invariant ok ==> q == 0 || end + 3 <= eof
      invariant !ok ==> full > 0 && at + full + 3 > eof
      invariant if ok then FourReach(|declared|, q, at, eof) == FourReach(|declared|, 0, at, eof)
                else FourReach(|declared|, 0, at, eof) == (false, end)
      invariant end <= buf.Length && SameOutside(old(buf[..]), buf[..], at, end)
      decreases full - q, ok
    {
      FourStep(|declared|, q, at, eof);
      if end + 2 > eof {
        ok := false;
      } else {
        FourStep(|declared|, q + 1, at, eof);
        Packed4Step(declared, old(buf[..]), buf[..], at, q, Byte4(declared, q));
        buf[end] := Encode4(declared[4 * q], declared[4 * q + 1], declared[4 * q + 2], declared[4 * q + 3]);
        end, q := end + 1, q + 1;
        if end + 3 > eof {
          ok := false;
        }
      }
    }
    if ok {
      FourStep(|declared|, full, at, eof);
      if 4 * full < |declared| {
        Packed4Step(declared, old(buf[..]), buf[..], at, q, Byte4(declared, full));
        buf[end] := Byte4(declared, full);
        end := end + 1;
      }
      Packed4All(declared, buf[..], at);
    }
  }

  lemma NothingPacked4(declared: seq<substate>, buf: seq<byte>, at: nat, eof: nat)
    requires FourReach(|declared|, 0, at, eof).1 <= |buf|
    ensures at <= |buf| && Packed4(declared, buf, at, 0) && SameOutside(buf, buf, at, at)
  {
  }

  // ---------------------------------------------------------------- One vector

  lemma {:induction false} RunEndSame(kind: Kind, a: seq<Item>, b: seq<Item>, j: nat)
    requires |a| == |b| && 0 < j <= |a| && Keyed(kind, a) && Keyed(kind, b)
    requires a[j - 1].mine && b[j - 1].mine && a[j - 1].key == b[j - 1].key
    requires forall k :: j <= k < |a| ==> a[k] == b[k]
    ensures RunEnd(kind, a, j) == RunEnd(kind, b, j)
    decreases |a| - j
  {
    hide NextKey;
    if Extends(kind, a, j) {
      RunEndSame(kind, a, b, j + 1);
    }
  }

  ghost function Taken(items: seq<Item>, s: nat): (r: seq<Item>)
    requires s < |items|
  {
    items[s := items[s].(tx := false)]
  }

  /** Clearing the first attribute's flag changes neither its run nor the run's contents. */
  lemma TakenRun(kind: Kind, items: seq<Item>, s: nat)
    requires s < |items| && Keyed(kind, items) && items[s].mine
    ensures Keyed(kind, Taken(items, s)) && Taken(items, s)[s].mine
    ensures RunEnd(kind, Taken(items, s), s + 1) == RunEnd(kind, items, s + 1)
    ensures forall e :: s < e <= |items| ==> Sendable(Taken(items, s), s, e) == Sendable(items, s, e)
    ensures forall e :: s < e <= |items| && Sendable(items, s, e) ==>
                          Events(Taken(items, s), s, e) == Events(items, s, e)
  {
    hide NextKey, RunEnd;
    RunEndSame(kind, items, Taken(items, s), s + 1);
    forall e | s < e <= |items| ensures Sendable(Taken(items, s), s, e) == Sendable(items, s, e) {
      if Sendable(Taken(items, s), s, e) {
        forall k | s <= k < e ensures items[k].ev.Some? {
          assert Taken(items, s)[k].ev.Some?;
        }
      }
    }
  }

  /** What EmitRun does to the transmit flags: the run s..e is cleared. */
  ghost function RunCleared(items: seq<Item>, s: nat, e: nat): (r: seq<Item>)
    requires s < |items|
    ensures |r| == |items|
  {
    Cleared(Taken(items, s), s, e)
  }

  ghost predicate CanEmit(kind: Kind, items: seq<Item>, s: nat, v: nat, eof: nat)
    requires s < |items| && Keyed(kind, items) && items[s].mine
  {
    var e := RunEnd(kind, items, s + 1);
    Sendable(items, s, e) && VectorFits(kind, e - s, v, eof)
  }

  method WriteFirst(buf: array<byte>, at: nat, first: seq<byte>)
    requires at + |first| <= buf.Length
    modifies buf
    ensures buf[at..at + |first|] == first
    ensures SameOutside(old(buf[..]), buf[..], at, at + |first|)
  {
    var k := 0;
    while k < |first|
      invariant 0 <= k <= |first| && forall x :: 0 <= x < k ==> buf[at + x] == first[x]
      invariant SameOutside(old(buf[..]), buf[..], at, at + k)
    {
      buf[at + k] := first[k];
      k := k + 1;
    }
  }

  /** The two packed parts of a vector; the caller has already written the first value. */
  method WriteEvents(kind: Kind, items: array<Item>, s: nat, buf: array<byte>, at: nat, eof: nat)
    returns (ok: bool, e: nat, end: nat)
    requires s < items.Length && Keyed(kind, items[..]) && items[s].mine
    requires RunReach(kind, items[..], s, at, eof) <= buf.Length
    modifies items, buf
    ensures s < e <= items.Length && items[..] == Cleared(old(items[..]), s, e)
    ensures at <= end <= buf.Length && SameOutside(old(buf[..]), buf[..], at, end)
    ensures end == RunReach(kind, old(items[..]), s, at, eof)
    ensures ok ==> e == RunEnd(kind, old(items[..]), s + 1) && Sendable(old(items[..]), s, e)
    ensures ok ==> end == at + Len3(e - s) + (if FourPacked(kind) then Len4(e - s) else 0)
    ensures ok ==> buf[at..end] == Pack3(Events(old(items[..]), s, e)) +
                                   (if FourPacked(kind) then Pack4(Substates(old(items[..]), s, e)) else [])
    ensures ok ==> !FourPacked(kind) || e - s < 4 || at + Len3(e - s) + (e - s) / 4 + 3 <= eof
    ensures !ok ==> CannotPack(kind, old(items[..]), s, at, eof)
                    || (FourPacked(kind)
                        && var n := RunEnd(kind, old(items[..]), s + 1) - s; n >= 4 && at + Len3(n) + n / 4 + 3 > eof)
  {
    hide RunEnd, CannotPack, Pack3, Pack4, Cleared, Keyed, Events, ThreeReach, FourReach;
    ghost var items0 := items[..];
    FourFrom(kind, items0, s, at, eof);
    ok, e, end := WriteThreePacked(kind, items, s, buf, at, eof);
    if ok && FourPacked(kind) {
      ghost var mid, packed := end, buf[..];
      var declared := DeclaredSubstates(items, s, e);
      assert declared == Substates(items0, s, e) by {
        ClearedSubstates(items0, s, e);
      }
      ok, end := WriteFourPacked(declared, buf, end, eof);
      assert buf[at..mid] == packed[at..mid];
      if ok {
        assert buf[at..end] == buf[at..mid] + buf[mid..end];
      }
    }
  }

  lemma FourFrom(kind: Kind, items: seq<Item>, s: nat, at: nat, eof: nat)
    requires s < |items| && Keyed(kind, items) && items[s].mine
    ensures ThreeReach(kind, items, s, at, eof).1 <= RunReach(kind, items, s, at, eof)
  {
    hide ThreeReach, RunEnd;
  }

  lemma ClearedSubstates(items: seq<Item>, s: nat, e: nat)
    requires s < e <= |items|
    ensures Substates(Cleared(items, s, e), s, e) == Substates(items, s, e)
  {
  }

  /** The listen_declare array: the substates of the attributes in the vector. */
  method DeclaredSubstates(items: array<Item>, s: nat, e: nat) returns (declared: seq<substate>)
    requires s <= e <= items.Length
    ensures declared == Substates(items[..], s, e)
  {
    declared := [];
    var k := s;
    while k < e
      invariant s <= k <= e && declared == Substates(items[..], s, k)
    {
      declared := declared + [items[k].sub];
      k := k + 1;
    }
  }

  lemma Unemittable(kind: Kind, items: seq<Item>, s: nat, v: nat, eof: nat)
    requires s < |items| && Keyed(kind, items) && items[s].mine
    requires var at, n := v + 2 + FirstLength(kind), RunEnd(kind, items, s + 1) - s;
             || CannotPack(kind, items, s, at, eof)
             || (FourPacked(kind) && n >= 4 && at + Len3(n) + n / 4 + 3 > eof)
             || v + VectorLength(kind, n) + 2 > eof
    ensures !CanEmit(kind, items, s, v, eof)
  {
    hide RunEnd, Keyed;
  }

  lemma Emittable(kind: Kind, items: seq<Item>, s: nat, v: nat, eof: nat)
    requires s < |items| && Keyed(kind, items) && items[s].mine
    requires var e := RunEnd(kind, items, s + 1);
             && Sendable(items, s, e) && v + VectorLength(kind, e - s) + 2 <= eof
             && (!FourPacked(kind) || e - s < 4 || v + 2 + FirstLength(kind) + Len3(e - s) + (e - s) / 4 + 3 <= eof)
    ensures CanEmit(kind, items, s, v, eof)
  {
    hide RunEnd, Keyed;
  }

  /** The bytes of an encoded vector, put together from its three parts. */
  lemma VectorAssembled(kind: Kind, items: seq<Item>, s: nat, e: nat, lva: bool, bytes: seq<byte>)
    requires s < e <= |items| && Sendable(items, s, e) && Keyed(kind, items) && items[s].mine
    requires WellFormed(kind, VectorFor(kind, items, s, e, lva))
    requires bytes == VectorHeader(lva, e - s) + items[s].key[..FirstLength(kind)] + Packs(kind, items, s, e)
    ensures bytes == EncodeVector(kind, VectorFor(kind, items, s, e, lva))
  {
    hide Pack3, Pack4, VectorHeader, Events, Substates;
  }

  /** The two header bytes go in front of the f bytes of the first value and of what follows them. */
  lemma HeaderPut(old0: seq<byte>, body: seq<byte>, now: seq<byte>, v: nat, end: nat, header: seq<byte>, f: nat)
    requires |header| == 2 && v + 2 + f <= end <= |body| && SameOutside(old0, body, v, end)
    requires now == body[v := header[0]][v + 1 := header[1]]
    ensures now[v..end] == header + body[v + 2..v + 2 + f] + body[v + 2 + f..end]
    ensures SameOutside(old0, now, v, end)
  {
  }

  ghost function Packs(kind: Kind, items: seq<Item>, s: nat, e: nat): seq<byte>
    requires s < e <= |items| && Sendable(items, s, e)
  {
    Pack3(Events(items, s, e)) + (if FourPacked(kind) then Pack4(Substates(items, s, e)) else [])
  }

  /** Everything of the vector but its header, which depends on the number of values. */
  method WriteBody(kind: Kind, items: array<Item>, s: nat, buf: array<byte>, v: nat, eof: nat)
    returns (ok: bool, e: nat, end: nat)
    requires s < items.Length && Keyed(kind, items[..]) && items[s].mine
    requires RunReach(kind, items[..], s, v + 2 + FirstLength(kind), eof) <= buf.Length
    modifies items, buf
    ensures s < e <= items.Length && items[..] == RunCleared(old(items[..]), s, e)
    ensures end == RunReach(kind, old(items[..]), s, v + 2 + FirstLength(kind), eof)
    ensures v + 2 + FirstLength(kind) <= end <= buf.Length && SameOutside(old(buf[..]), buf[..], v, end)
    ensures ok <==> CanEmit(kind, old(items[..]), s, v, eof)
    ensures ok ==> e == RunEnd(kind, old(items[..]), s + 1) && end == v + VectorLength(kind, e - s)
    ensures ok ==> Sendable(old(items[..]), s, e) && |old(items[..])[s].key| >= FirstLength(kind)
    ensures ok ==> buf[v + 2..v + 2 + FirstLength(kind)] == old(items[..])[s].key[..FirstLength(kind)]
    ensures ok ==> buf[v + 2 + FirstLength(kind)..end] == Packs(kind, old(items[..]), s, e)
  {
    hide RunEnd, CannotPack, CanEmit, Pack3, Pack4, Cleared, Keyed, Events, Substates, Sendable, VectorFits, SameOutside, FirstLength, RunReach;
    ghost var items0 := items[..];
    TakenRun(kind, items0, s);
    KeyOf(kind, items0, s);
    items[s] := items[s].(tx := false);
    assert items[..] == Taken(items0, s);
    var f := FirstLength(kind);
    TakenReach(kind, items0, s, v + 2 + f as int, eof);
    ghost var before := buf[..];
    WriteFirst(buf, v + 2, items[s].key[..f]);
    ghost var first := buf[..];
    ok, e, end := WriteEvents(kind, items, s, buf, v + 2 + f, eof);
    BothWritten(before, first, buf[..], v, v + 2, v + 2 + f, end);
    TakenCan(kind, items0, s, v, eof);
    EventsLeft(kind, Taken(items0, s), s, e, v, end, eof, ok);
    ok := ok && end + 2 <= eof;
    if ok {
      TakenSubstates(items0, s, e);
    }
  }

  /** After the events, a vector is good exactly if its end mark still fits. */
  lemma EventsLeft(kind: Kind, items: seq<Item>, s: nat, e: nat, v: nat, end: nat, eof: nat, ok: bool)
    requires s < e <= |items| && Keyed(kind, items) && items[s].mine
    requires var at, n := v + 2 + FirstLength(kind), RunEnd(kind, items, s + 1) - s;
             if ok then
               && e - s == n && Sendable(items, s, e) && end == at + Len3(n) + (if FourPacked(kind) then Len4(n) else 0)
               && (!FourPacked(kind) || n < 4 || at + Len3(n) + n / 4 + 3 <= eof)
             else CannotPack(kind, items, s, at, eof) || (FourPacked(kind) && n >= 4 && at + Len3(n) + n / 4 + 3 > eof)
    ensures (ok && end + 2 <= eof) == CanEmit(kind, items, s, v, eof)
    ensures ok ==> end == v + VectorLength(kind, e - s)
  {
    hide RunEnd, Keyed, CannotPack, CanEmit, Sendable;
    if ok && end + 2 <= eof {
      Emittable(kind, items, s, v, eof);
    } else {
      Unemittable(kind, items, s, v, eof);
    }
  }

  lemma TakenReach(kind: Kind, items: seq<Item>, s: nat, at: nat, eof: nat)
    requires s < |items| && Keyed(kind, items) && items[s].mine && Keyed(kind, Taken(items, s))
    ensures RunReach(kind, Taken(items, s), s, at, eof) == RunReach(kind, items, s, at, eof) >= at
  {
    hide RunReach;
    RunReachSame(kind, items, Taken(items, s), s, at, eof);
    ReachBeyond(kind, items, s, at, eof);
  }

  lemma ReachBeyond(kind: Kind, items: seq<Item>, s: nat, at: nat, eof: nat)
    requires s < |items| && Keyed(kind, items) && items[s].mine
    ensures RunReach(kind, items, s, at, eof) >= at
  {
  }

  lemma BothWritten(a: seq<byte>, b: seq<byte>, c: seq<byte>, v: nat, from: nat, mid: nat, to: nat)
    requires v <= from <= mid <= to <= |c| && SameOutside(a, b, from, mid) && SameOutside(b, c, mid, to)
    ensures SameOutside(a, c, v, to) && |b| == |c| && c[from..mid] == b[from..mid]
  {
  }

  /** Writes the vector that starts at attribute `s`, at buffer position `v`. */
  method EmitRun(kind: Kind, items: array<Item>, s: nat, buf: array<byte>, v: nat, eof: nat, lva: bool)
    returns (ok: bool, e: nat, end: nat)
    requires s < items.Length && Keyed(kind, items[..]) && items[s].mine
    requires RunReach(kind, items[..], s, v + 2 + FirstLength(kind), eof) <= buf.Length && eof <= MAX_FRAME_SIZE
    modifies items, buf
    ensures s < e <= items.Length && items[..] == RunCleared(old(items[..]), s, e)
    ensures end == RunReach(kind, old(items[..]), s, v + 2 + FirstLength(kind), eof)
    ensures v + 2 <= end <= buf.Length && SameOutside(old(buf[..]), buf[..], v, end)
    ensures ok <==> CanEmit(kind, old(items[..]), s, v, eof)
    ensures ok ==> e == RunEnd(kind, old(items[..]), s + 1) && end == v + VectorLength(kind, e - s)
    ensures ok ==> Sendable(old(items[..]), s, e) && WellFormed(kind, VectorFor(kind, old(items[..]), s, e, lva))
    ensures ok ==> buf[v..end] == EncodeVector(kind, VectorFor(kind, old(items[..]), s, e, lva))
  {
    hide RunEnd, CanEmit, RunCleared, Keyed, EncodeVector, Sendable, WellFormed, VectorFor, VectorHeader, Packs, VectorLength, FirstLength, RunReach, SameOutside;
    ok, e, end := WriteBody(kind, items, s, buf, v, eof);
    if ok {
      ghost var body := buf[..];
      CanEmitWellFormed(kind, old(items[..]), s, v, eof, lva);
      var header := VectorHeader(lva, e - s);
      buf[v], buf[v + 1] := header[0], header[1];
      HeaderPut(old(buf[..]), body, buf[..], v, end, header, FirstLength(kind));
      VectorAssembled(kind, old(items[..]), s, e, lva, buf[v..end]);
    }
  }

  lemma SliceOfSlice(a: seq<byte>, v: nat, end: nat, i: nat, j: nat)
    requires v <= end <= |a| && i <= j <= end - v
    ensures a[v..end][i..j] == a[v + i..v + j]
  {
    forall k | 0 <= k < j - i ensures a[v..end][i..j][k] == a[v + i..v + j][k] {
    }
  }

  lemma KeyOf(kind: Kind, items: seq<Item>, s: nat)
    requires s < |items| && Keyed(kind, items) && items[s].mine
    ensures |items[s].key| == KeyLength(kind) >= FirstLength(kind)
  {
  }

  lemma TakenCan(kind: Kind, items: seq<Item>, s: nat, v: nat, eof: nat)
    requires s < |items| && Keyed(kind, items) && items[s].mine
    ensures Keyed(kind, Taken(items, s)) && Taken(items, s)[s].mine
    ensures CanEmit(kind, Taken(items, s), s, v, eof) == CanEmit(kind, items, s, v, eof)
  {
    hide RunEnd, Keyed, Sendable;
    TakenRun(kind, items, s);
  }

  lemma TakenSubstates(items: seq<Item>, s: nat, e: nat)
    requires s < e <= |items|
    ensures Substates(Taken(items, s), s, e) == Substates(items, s, e)
  {
  }

  lemma CanEmitWellFormed(kind: Kind, items: seq<Item>, s: nat, v: nat, eof: nat, lva: bool)
    requires s < |items| && Keyed(kind, items) && items[s].mine && eof <= MAX_FRAME_SIZE
    requires CanEmit(kind, items, s, v, eof)
    ensures WellFormed(kind, VectorFor(kind, items, s, RunEnd(kind, items, s + 1), lva))
  {
    hide RunEnd, Keyed, VectorFits;
    VectorForWellFormed(kind, items, s, RunEnd(kind, items, s + 1), lva, v, eof);
  }

  // ---------------------------------------------------------------- The whole message

  ghost function Append(done: seq<Vector>, rest: Emitted): Emitted {
    match rest
    case Oops => Oops
    case Emitted(vs, stop) => Emitted(done + vs, stop)
  }

  lemma AppendCons(done: seq<Vector>, v: Vector, rest: Emitted)
    ensures Append(done, Cons(v, rest)) == Append(done + [v], rest)
  {
    if rest.Emitted? {
      assert done + ([v] + rest.vectors) == (done + [v]) + rest.vectors;
    }
  }

  lemma {:induction false} EncodeSnoc(kind: Kind, vs: seq<Vector>, v: Vector)
    requires AllWellFormed(kind, vs) && WellFormed(kind, v)
    ensures AllWellFormed(kind, vs + [v])
    ensures EncodeVectors(kind, vs + [v]) == EncodeVectors(kind, vs) + EncodeVector(kind, v)
  {
    hide WellFormed, EncodeVector;
    if vs == [] {
      assert vs + [v] == [v] && [v][1..] == [];
    } else {
      assert (vs + [v])[1..] == vs[1..] + [v];
      EncodeSnoc(kind, vs[1..], v);
    }
  }

  /** The flags already taken: attributes before `e` are done, those from `e` on untouched. */
  ghost predicate Progress(items0: seq<Item>, now: seq<Item>, i: nat, e: nat) {
    && OnlyTxCleared(items0, now) && i <= e <= |now|
    && (forall k :: i <= k < e ==> !Leads(now[k]))
    && (forall k :: e <= k < |now| ==> now[k] == items0[k])
  }

  /** The vectors written so far, `vec` bytes into the message, with zeros behind them. */
  ghost predicate Written(kind: Kind, buf: seq<byte>, base: nat, limit: nat, done: seq<Vector>, ptr: nat) {
    && AllWellFormed(kind, done)
    && base + limit <= |buf|
    && ptr == (if done == [] then 0 else HeaderLength(kind) + |EncodeVectors(kind, done)|)
    && var vec := StartOf(kind, ptr);
       && vec <= limit && HeaderLength(kind) <= vec
       && buf[base + HeaderLength(kind)..base + vec] == EncodeVectors(kind, done)
       && (forall k :: base + vec <= k < base + limit ==> buf[k] == 0)
  }

  /** The bytes of one vector were put at [at, end), and nothing else changed. */
  ghost predicate Stamped(kind: Kind, before: seq<byte>, now: seq<byte>, at: nat, end: nat, v: Vector) {
    && WellFormed(kind, v) && end == at + |EncodeVector(kind, v)| <= |now|
    && SameOutside(before, now, at, end) && now[at..end] == EncodeVector(kind, v)
  }

  lemma WrittenVec(kind: Kind, buf: seq<byte>, base: nat, limit: nat, done: seq<Vector>, ptr: nat)
    requires Written(kind, buf, base, limit, done, ptr)
    ensures AllWellFormed(kind, done) && base + limit <= |buf|
    ensures StartOf(kind, ptr) == HeaderLength(kind) + |EncodeVectors(kind, done)| <= limit
    ensures buf[base + HeaderLength(kind)..base + StartOf(kind, ptr)] == EncodeVectors(kind, done)
    ensures Blank(buf, base + StartOf(kind, ptr), base + limit)
  {
    hide WellFormed, EncodeVector, EncodeVectors, AllWellFormed, HeaderLength;
    EmptyEncoding(kind, done);
  }

  lemma VecWritten(kind: Kind, buf: seq<byte>, base: nat, limit: nat, done: seq<Vector>, vec: nat)
    requires done != [] && AllWellFormed(kind, done) && base + limit <= |buf|
    requires 0 < vec == HeaderLength(kind) + |EncodeVectors(kind, done)| <= limit
    requires buf[base + HeaderLength(kind)..base + vec] == EncodeVectors(kind, done)
    requires Blank(buf, base + vec, base + limit)
    ensures Written(kind, buf, base, limit, done, vec)
  {
    hide WellFormed, EncodeVector, EncodeVectors, AllWellFormed, HeaderLength;
  }

  lemma WrittenMore(kind: Kind, before: seq<byte>, now: seq<byte>, base: nat, limit: nat, done: seq<Vector>, ptr: nat, v: Vector, end: nat)
    requires Written(kind, before, base, limit, done, ptr) && end <= limit
    requires Stamped(kind, before, now, base + StartOf(kind, ptr), base + end, v)
    ensures Written(kind, now, base, limit, done + [v], end)
  {
    hide WellFormed, EncodeVector, EncodeVectors, AllWellFormed, SameOutside, HeaderLength, Written, StartOf;
    WrittenVec(kind, before, base, limit, done, ptr);
    EncodeSnoc(kind, done, v);
    EncodedSome(kind, v);
    SliceGrows(before, now, base + HeaderLength(kind), base + StartOf(kind, ptr), base + end);
    VecWritten(kind, now, base, limit, done + [v], end);
  }

  lemma EncodedSome(kind: Kind, v: Vector)
    requires WellFormed(kind, v)
    ensures |EncodeVector(kind, v)| > 0
  {
  }

  lemma SliceGrows(before: seq<byte>, now: seq<byte>, h: nat, vec: nat, end: nat)
    requires h <= vec <= end <= |before| && SameOutside(before, now, vec, end)
    ensures |now| == |before| && now[h..end] == before[h..vec] + now[vec..end]
    ensures forall k :: end <= k < |now| ==> now[k] == before[k]
  {
    assert now[h..vec] == before[h..vec];
    assert now[h..end] == now[h..vec] + now[vec..end];
  }

  lemma EmptyEncoding(kind: Kind, vs: seq<Vector>)
    requires AllWellFormed(kind, vs)
    ensures vs == [] ==> EncodeVectors(kind, vs) == []
  {
  }

  lemma SkipStep(kind: Kind, items: seq<Item>, e: nat, ptr: nat, limit: nat, lva: bool)
    requires e < |items| && Keyed(kind, items) && !Leads(items[e]) && ptr + VectorSize(kind) + 2 < limit
    ensures EmitFrom(kind, items, e, ptr, limit, lva) == EmitFrom(kind, items, e + 1, ptr, limit, lva)
  {
  }

  lemma RunStep(kind: Kind, items: seq<Item>, s: nat, ptr: nat, base: nat, limit: nat, lva: bool)
    requires s < |items| && Keyed(kind, items) && Leads(items[s]) && ptr + VectorSize(kind) + 2 < limit
    ensures !CanEmit(kind, items, s, base + StartOf(kind, ptr), base + limit) ==>
              EmitFrom(kind, items, s, ptr, limit, lva) == Oops
    ensures CanEmit(kind, items, s, base + StartOf(kind, ptr), base + limit) ==>
              var e, start := RunEnd(kind, items, s + 1), StartOf(kind, ptr);
              EmitFrom(kind, items, s, ptr, limit, lva)
              == Cons(VectorFor(kind, items, s, e, lva),
                      EmitFrom(kind, items, e, start + VectorLength(kind, e - s), limit, false))
  {
    hide RunEnd, Keyed, Sendable, VectorFor;
  }

  lemma ProgressSkip(items0: seq<Item>, now: seq<Item>, i: nat, e: nat)
    requires Progress(items0, now, i, e) && i < |now|
    requires i == e ==> !Leads(now[i])
    ensures Progress(items0, now, i + 1, if i == e then e + 1 else e)
  {
  }

  lemma ProgressClearOne(items0: seq<Item>, now: seq<Item>, i: nat, e: nat)
    requires Progress(items0, now, i, e) && i < |now|
    ensures var next := now[i := now[i].(tx := false)];
            Progress(items0, next, i + 1, if i == e then e + 1 else e)
  {
  }

  lemma ProgressRun(kind: Kind, items0: seq<Item>, now: seq<Item>, s: nat, e: nat)
    requires Progress(items0, now, s, s) && s < e <= |now|
    ensures Progress(items0, RunCleared(now, s, e), s + 1, e)
  {
    var next := RunCleared(now, s, e);
    assert forall k :: 0 <= k < |now| ==> next[k] == if s <= k < e then now[k].(tx := false) else now[k];
  }

  lemma {:induction false} RunIgnoresPast(kind: Kind, items0: seq<Item>, now: seq<Item>, s: nat, v: nat, eof: nat, lva: bool)
    requires Progress(items0, now, s, s) && s < |now| && Keyed(kind, items0) && now[s].mine
    ensures Keyed(kind, now) && RunEnd(kind, now, s + 1) == RunEnd(kind, items0, s + 1)
    ensures CanEmit(kind, now, s, v, eof) == CanEmit(kind, items0, s, v, eof)
    ensures var e := RunEnd(kind, items0, s + 1);
            Sendable(now, s, e) ==> Sendable(items0, s, e) && VectorFor(kind, now, s, e, lva) == VectorFor(kind, items0, s, e, lva)
  {
    hide RunEnd, Sendable, Events, Substates, VectorFits;
    PastKeyed(kind, items0, now);
    RunEndSame(kind, items0, now, s + 1);
    SameRun(items0, now, s, RunEnd(kind, items0, s + 1));
  }

  lemma PastKeyed(kind: Kind, items0: seq<Item>, now: seq<Item>)
    requires OnlyTxCleared(items0, now) && Keyed(kind, items0)
    ensures Keyed(kind, now)
  {
  }

  lemma SameRun(a: seq<Item>, b: seq<Item>, s: nat, e: nat)
    requires |a| == |b| && s <= e <= |a| && forall k :: s <= k < e ==> a[k] == b[k]
    ensures Sendable(a, s, e) == Sendable(b, s, e) && Substates(a, s, e) == Substates(b, s, e)
    ensures Sendable(a, s, e) ==> Events(a, s, e) == Events(b, s, e)
  {
    if Sendable(a, s, e) || Sendable(b, s, e) {
      forall k | s <= k < e ensures a[k].ev.Some? && b[k].ev.Some? {
        assert a[k] == b[k];
      }
    }
  }

  ghost predicate Blank(buf: seq<byte>, from: nat, to: nat) {
    from <= to <= |buf| && forall k :: from <= k < to ==> buf[k] == 0
  }

  /** The loop invariant: attributes before `e` are dealt with and `done` is in the buffer. */
  ghost predicate Looping(kind: Kind, items0: seq<Item>, now: seq<Item>, buf: seq<byte>, base: nat, limit: nat, lva0: bool,
                          i: nat, e: nat, done: seq<Vector>, ptr: nat, lva: bool)
    requires Keyed(kind, items0)
  {
    && Progress(items0, now, i, e)
    && Written(kind, buf, base, limit, done, ptr)
    && EmitFrom(kind, items0, 0, 0, limit, lva0) == Append(done, EmitFrom(kind, items0, e, ptr, limit, lva))
  }

  lemma LoopSkips(kind: Kind, items0: seq<Item>, now: seq<Item>, next: seq<Item>, buf: seq<byte>, base: nat, limit: nat,
                  lva0: bool, i: nat, e: nat, done: seq<Vector>, ptr: nat, lva: bool)
    requires Keyed(kind, items0) && Looping(kind, items0, now, buf, base, limit, lva0, i, e, done, ptr, lva)
    requires i < |now| && !Leads(now[i]) && ptr + VectorSize(kind) + 2 < limit
    requires next == now || next == now[i := now[i].(tx := false)]
    ensures Looping(kind, items0, next, buf, base, limit, lva0, i + 1, if i == e then e + 1 else e, done, ptr, lva)
  {
    hide Keyed, Written, EmitFrom, VectorSize, Append;
    if i == e {
      SkipStep(kind, items0, e, ptr, limit, lva);
    }
    ProgressSkip(items0, now, i, e);
    ProgressClearOne(items0, now, i, e);
  }

  lemma LoopEmits(kind: Kind, items0: seq<Item>, now: seq<Item>, before: seq<byte>, buf: seq<byte>, base: nat, limit: nat,
                  lva0: bool, i: nat, done: seq<Vector>, ptr: nat, lva: bool, next: nat, end: nat)
    requires Keyed(kind, items0) && Looping(kind, items0, now, before, base, limit, lva0, i, i, done, ptr, lva)
    requires i < |now| && Leads(items0[i]) && ptr + VectorSize(kind) + 2 < limit && end <= limit
    requires CanEmit(kind, items0, i, base + StartOf(kind, ptr), base + limit) && next == RunEnd(kind, items0, i + 1)
    requires Stamped(kind, before, buf, base + StartOf(kind, ptr), base + end, VectorFor(kind, items0, i, next, lva))
    ensures Looping(kind, items0, RunCleared(now, i, next), buf, base, limit, lva0, i + 1, next,
                    done + [VectorFor(kind, items0, i, next, lva)], end, false)
  {
    hide Keyed, Written, EmitFrom, VectorSize, RunEnd, Sendable, VectorFits, WellFormed, Progress, RunCleared, EncodeVector, Append, VectorFor, VectorLength, Stamped, StartOf;
    ProgressOnlyTx(items0, now, i, i);
    var v := VectorFor(kind, items0, i, next, lva);
    RunStep(kind, items0, i, ptr, base, limit, lva);
    ProgressRun(kind, items0, now, i, next);
    StampedLength(kind, items0, before, buf, base + StartOf(kind, ptr), base + end, i, next, lva);
    WrittenMore(kind, before, buf, base, limit, done, ptr, v, end);
    AppendCons(done, v, EmitFrom(kind, items0, next, end, limit, false));
  }

  lemma StampedLength(kind: Kind, items: seq<Item>, before: seq<byte>, now: seq<byte>, at: nat, end: nat, s: nat, e: nat, lva: bool)
    requires s < e <= |items| && Sendable(items, s, e) && Keyed(kind, items) && items[s].mine
    requires Stamped(kind, before, now, at, end, VectorFor(kind, items, s, e, lva))
    ensures end == at + VectorLength(kind, e - s)
  {
    hide SameOutside, Sendable, Keyed;
    VectorForLength(kind, items, s, e, lva);
  }

  lemma VectorForLength(kind: Kind, items: seq<Item>, s: nat, e: nat, lva: bool)
    requires s < e <= |items| && Sendable(items, s, e) && Keyed(kind, items) && items[s].mine
    requires WellFormed(kind, VectorFor(kind, items, s, e, lva))
    ensures |EncodeVector(kind, VectorFor(kind, items, s, e, lva))| == VectorLength(kind, e - s)
  {
    hide Pack3, Pack4, VectorHeader, VectorLength, VectorFor, WellFormed, Sendable, Keyed, Events;
    VectorForEvents(kind, items, s, e, lva);
    EventsLength(items, s, e);
  }

  lemma EventsLength(items: seq<Item>, s: nat, e: nat)
    requires s <= e <= |items| && Sendable(items, s, e)
    ensures |Events(items, s, e)| == e - s
  {
  }

  lemma LoopFails(kind: Kind, items0: seq<Item>, now: seq<Item>, buf: seq<byte>, base: nat, limit: nat, lva0: bool,
                  i: nat, done: seq<Vector>, ptr: nat, lva: bool)
    requires Keyed(kind, items0) && Looping(kind, items0, now, buf, base, limit, lva0, i, i, done, ptr, lva)
    requires i < |now| && Leads(items0[i]) && ptr + VectorSize(kind) + 2 < limit
    requires !CanEmit(kind, items0, i, base + StartOf(kind, ptr), base + limit)
    ensures EmitFrom(kind, items0, 0, 0, limit, lva0) == Oops
  {
    hide Keyed, Written, EmitFrom, VectorSize, CanEmit;
    RunStep(kind, items0, i, ptr, base, limit, lva);
  }

  lemma ReachSkips(kind: Kind, items: seq<Item>, e: nat, ptr: nat, limit: nat)
    requires e < |items| && Keyed(kind, items) && !Leads(items[e]) && ptr + VectorSize(kind) + 2 < limit
    ensures ReachFrom(kind, items, e, ptr, limit) == ReachFrom(kind, items, e + 1, ptr, limit)
  {
  }

  /** What a run adds to the reach: all there is if it cannot be emitted, else just its vector. */
  lemma ReachRun(kind: Kind, items: seq<Item>, s: nat, ptr: nat, base: nat, limit: nat)
    requires s < |items| && Keyed(kind, items) && Leads(items[s]) && ptr + VectorSize(kind) + 2 < limit
    ensures var e, start := RunEnd(kind, items, s + 1), StartOf(kind, ptr);
            var r := RunReach(kind, items, s, start + 2 + FirstLength(kind), limit);
            && r <= ReachFrom(kind, items, s, ptr, limit)
            && (if CanEmit(kind, items, s, base + start, base + limit)
                then r == start + VectorLength(kind, e - s) <= limit
                     && ReachFrom(kind, items, s, ptr, limit) == ReachFrom(kind, items, e, r, limit)
                else ReachFrom(kind, items, s, ptr, limit) == r)
  {
    hide RunEnd, RunReach, Sendable, VectorLength, VectorFits;
    var e, start := RunEnd(kind, items, s + 1), StartOf(kind, ptr);
    FitsShift(kind, e - s, start, limit, base);
    if Sendable(items, s, e) && VectorFits(kind, e - s, start, limit) {
      RunOk(kind, items, s, start, limit);
      FitsInLimit(kind, e - s, start, limit);
    }
  }

  lemma FitsShift(kind: Kind, n: nat, start: nat, limit: nat, base: nat)
    ensures VectorFits(kind, n, base + start, base + limit) == VectorFits(kind, n, start, limit)
  {
  }

  lemma ReachUnshifted(kind: Kind, items0: seq<Item>, now: seq<Item>, i: nat, at: nat, limit: nat, base: nat)
    requires Progress(items0, now, i, i) && i < |now| && Keyed(kind, items0) && Keyed(kind, now) && now[i].mine
    ensures items0[i].mine
    ensures RunReach(kind, now, i, base + at, base + limit) == base + RunReach(kind, items0, i, at, limit)
  {
    hide RunReach, Keyed;
    RunReachSame(kind, items0, now, i, base + at, base + limit);
    RunReachShift(kind, items0, i, at, limit, base);
  }

  /** Emits the run at `i`, where the loop has found an attribute that must be sent. */
  method LoopRun(kind: Kind, items: array<Item>, buf: array<byte>, base: nat, limit: nat, ghost lva0: bool,
                 i: nat, ghost done: seq<Vector>, ptr: nat, lva: bool, ghost items0: seq<Item>)
    returns (ok: bool, next: nat, ptr': nat)
    requires Keyed(kind, items0) && Looping(kind, items0, items[..], buf[..], base, limit, lva0, i, i, done, ptr, lva)
    requires i < items.Length && Leads(items[i]) && ptr + VectorSize(kind) + 2 < limit
    requires base + limit <= MAX_FRAME_SIZE && i <= |items0| && base + ReachFrom(kind, items0, i, ptr, limit) <= buf.Length
    modifies items, buf
    ensures OnlyTxCleared(items0, items[..])
    ensures StartOf(kind, ptr) <= ptr' && SameOutside(old(buf[..]), buf[..], base + StartOf(kind, ptr), base + ptr')
    ensures ok ==> i < next <= items.Length && Sendable(items0, i, next) && items0[i].mine && 0 < ptr'
    ensures ok ==> Looping(kind, items0, items[..], buf[..], base, limit, lva0, i + 1, next,
                           done + [VectorFor(kind, items0, i, next, lva)], ptr', false)
    ensures ok ==> ReachFrom(kind, items0, next, ptr', limit) == ReachFrom(kind, items0, i, ptr, limit)
    ensures !ok ==> EmitFrom(kind, items0, 0, 0, limit, lva0) == Oops && ptr' == ReachFrom(kind, items0, i, ptr, limit) > 0
  {
    hide Keyed, Written, EmitFrom, VectorSize, RunEnd, CanEmit, WellFormed, RunCleared, EncodeVector, Append, VectorFor,
         VectorLength, Progress, OnlyTxCleared, Sendable, ReachFrom, RunReach, SameOutside;
    ghost var now, before := items[..], buf[..];
    ProgressLead(items0, now, i, i);
    var vec := StartOf(kind, ptr);
    WrittenStart(kind, before, base, limit, done, ptr);
    RunIgnoresPast(kind, items0, now, i, base + vec, base + limit, lva);
    ReachUnshifted(kind, items0, now, i, vec + 2 + FirstLength(kind) as int, limit, base);
    ReachRun(kind, items0, i, ptr, base, limit);
    var end;
    ok, next, end := EmitRun(kind, items, i, buf, base + vec, base + limit, lva);
    ptr' := end - base;
    ProgressRun(kind, items0, now, i, next);
    ProgressOnlyTx(items0, items[..], i + 1, next);
    if ok {
      VectorForLength(kind, items0, i, next, lva);
      LoopEmits(kind, items0, now, before, buf[..], base, limit, lva0, i, done, ptr, lva, next, ptr');
    } else {
      LoopFails(kind, items0, now, before, base, limit, lva0, i, done, ptr, lva);
    }
  }

  lemma MoreFrom(a: seq<byte>, b: seq<byte>, c: seq<byte>, base: nat, from: nat, mid: nat, to: nat)
    requires SameOutside(a, b, base + from, base + mid) && SameOutside(b, c, base + mid, base + to) && from <= mid <= to
    ensures SameOutside(a, c, base + from, base + to)
  {
  }

  /**
    The emitter's loop over the attribute list. `ptr` is mrpdu_msg_ptr relative to the message,
    `reach` the offset just past the last byte written.
   */
  method WriteVectors(kind: Kind, items: array<Item>, buf: array<byte>, base: nat, limit: nat, lva0: bool)
    returns (ok: bool, ptr: nat, ghost done: seq<Vector>, ghost reach: nat)
    requires Keyed(kind, items[..])
    requires base + limit <= buf.Length && base + limit <= MAX_FRAME_SIZE && HeaderLength(kind) <= limit
    requires base + ReachFrom(kind, items[..], 0, 0, limit) <= buf.Length
    requires Blank(buf[..], base + HeaderLength(kind), base + limit)
    modifies items, buf
    ensures OnlyTxCleared(old(items[..]), items[..])
    ensures reach == ReachFrom(kind, old(items[..]), 0, 0, limit) && (if ok then reach == ptr else reach > 0)
    ensures HeaderLength(kind) <= StartOf(kind, reach)
    ensures SameOutside(old(buf[..]), buf[..], base + HeaderLength(kind), base + StartOf(kind, reach))
    ensures !ok <==> EmitFrom(kind, old(items[..]), 0, 0, limit, lva0) == Oops
    ensures ok ==> EmitFrom(kind, old(items[..]), 0, 0, limit, lva0).vectors == done
    ensures ok ==> Written(kind, buf[..], base, limit, done, ptr)
  {
    hide Keyed, Written, EmitFrom, VectorSize, VectorFor, Looping, OnlyTxCleared, Sendable, ReachFrom, SameOutside;
    ghost var items0 := items[..];
    ghost var e: nat := 0;
    var i, lva := 0, lva0;
    ok, ptr, done, reach := true, 0, [], 0;
    LoopStarts(kind, items0, buf[..], base, limit, lva0);
    NothingWritten(buf[..], base + HeaderLength(kind));
    while ok && ptr + VectorSize(kind) + 2 < limit && i < items.Length
      invariant 0 <= i <= items.Length && items.Length == |items0| && e <= |items0|
      invariant ok ==> Looping(kind, items0, items[..], buf[..], base, limit, lva0, i, e, done, ptr, lva)
      invariant ok ==> reach == ptr && ReachFrom(kind, items0, e, ptr, limit) == ReachFrom(kind, items0, 0, 0, limit)
      invariant OnlyTxCleared(items0, items[..])
      invariant !ok ==> EmitFrom(kind, items0, 0, 0, limit, lva0) == Oops && 0 < reach == ReachFrom(kind, items0, 0, 0, limit)
      invariant HeaderLength(kind) <= StartOf(kind, reach)
      invariant SameOutside(old(buf[..]), buf[..], base + HeaderLength(kind), base + StartOf(kind, reach))
      decreases items.Length - i
    {
      ghost var now := items[..];
      if !Leads(items[i]) {
        LoopSkipsReach(kind, items0, now, buf[..], base, limit, lva0, i, e, done, ptr, lva);
        if items[i].mine && items[i].tx {
          items[i] := items[i].(tx := false);
          assert items[..] == now[i := now[i].(tx := false)];
        }
        LoopSkips(kind, items0, now, items[..], buf[..], base, limit, lva0, i, e, done, ptr, lva);
        e := if i == e then e + 1 else e;
        LoopOnlyTx(kind, items0, items[..], buf[..], base, limit, lva0, i + 1, e, done, ptr, lva);
      } else {
        LoopLeads(kind, items0, now, buf[..], base, limit, lva0, i, e, done, ptr, lva);
        ghost var before := buf[..];
        var next, ptr';
        ok, next, ptr' := LoopRun(kind, items, buf, base, limit, lva0, i, done, ptr, lva, items0);
        MoreFrom(old(buf[..]), before, buf[..], base, HeaderLength(kind), StartOf(kind, ptr), ptr');
        reach := ptr';
        if ok {
          done := done + [VectorFor(kind, items0, i, next, lva)];
          ptr, lva, e := ptr', false, next;
        }
      }
      i := i + 1;
    }
    if ok {
      LoopEnds(kind, items0, items[..], buf[..], base, limit, lva0, i, e, done, ptr, lva);
      ReachEnds(kind, items0, items[..], buf[..], base, limit, lva0, i, e, done, ptr, lva);
    }
  }

  lemma LoopSkipsReach(kind: Kind, items0: seq<Item>, now: seq<Item>, buf: seq<byte>, base: nat, limit: nat, lva0: bool,
                       i: nat, e: nat, done: seq<Vector>, ptr: nat, lva: bool)
    requires Keyed(kind, items0) && Looping(kind, items0, now, buf, base, limit, lva0, i, e, done, ptr, lva)
    requires i < |now| && !Leads(now[i]) && ptr + VectorSize(kind) + 2 < limit
    ensures e <= |items0| && (if i == e then e + 1 else e) <= |items0|
    ensures ReachFrom(kind, items0, if i == e then e + 1 else e, ptr, limit) == ReachFrom(kind, items0, e, ptr, limit)
  {
    hide Keyed, Written, EmitFrom, VectorSize, Append, ReachFrom;
    if i == e {
      ReachSkips(kind, items0, e, ptr, limit);
    }
  }

  lemma ReachEnds(kind: Kind, items0: seq<Item>, now: seq<Item>, buf: seq<byte>, base: nat, limit: nat, lva0: bool,
                  i: nat, e: nat, done: seq<Vector>, ptr: nat, lva: bool)
    requires Keyed(kind, items0) && Looping(kind, items0, now, buf, base, limit, lva0, i, e, done, ptr, lva)
    requires i == |items0| || ptr + VectorSize(kind) + 2 >= limit
    ensures e <= |items0| && ReachFrom(kind, items0, e, ptr, limit) == ptr
  {
    hide Keyed, Written, EmitFrom, Append;
  }

  lemma LoopStarts(kind: Kind, items: seq<Item>, buf: seq<byte>, base: nat, limit: nat, lva: bool)
    requires Keyed(kind, items)
    requires base + limit <= |buf| && HeaderLength(kind) <= limit && Blank(buf, base + HeaderLength(kind), base + limit)
    ensures Looping(kind, items, items, buf, base, limit, lva, 0, 0, [], 0, lva) && OnlyTxCleared(items, items)
  {
    hide EmitFrom, Keyed;
    AppendNothing(EmitFrom(kind, items, 0, 0, limit, lva));
  }

  lemma LoopOnlyTx(kind: Kind, items0: seq<Item>, now: seq<Item>, buf: seq<byte>, base: nat, limit: nat, lva0: bool,
                   i: nat, e: nat, done: seq<Vector>, ptr: nat, lva: bool)
    requires Keyed(kind, items0) && Looping(kind, items0, now, buf, base, limit, lva0, i, e, done, ptr, lva)
    ensures OnlyTxCleared(items0, now)
  {
  }

  lemma LoopLeads(kind: Kind, items0: seq<Item>, now: seq<Item>, buf: seq<byte>, base: nat, limit: nat, lva0: bool,
                  i: nat, e: nat, done: seq<Vector>, ptr: nat, lva: bool)
    requires Keyed(kind, items0) && Looping(kind, items0, now, buf, base, limit, lva0, i, e, done, ptr, lva)
    requires i < |now| && Leads(now[i])
    ensures i == e
  {
  }

  lemma LoopEnds(kind: Kind, items0: seq<Item>, now: seq<Item>, buf: seq<byte>, base: nat, limit: nat, lva0: bool,
                 i: nat, e: nat, done: seq<Vector>, ptr: nat, lva: bool)
    requires Keyed(kind, items0) && Looping(kind, items0, now, buf, base, limit, lva0, i, e, done, ptr, lva)
    requires i == |items0| || ptr + VectorSize(kind) + 2 >= limit
    ensures EmitFrom(kind, items0, 0, 0, limit, lva0) == Emitted(done, e)
    ensures Written(kind, buf, base, limit, done, ptr)
  {
    hide Keyed, Written;
    assert EmitFrom(kind, items0, e, ptr, limit, lva) == Emitted([], e);
    assert done + [] == done;
  }

  lemma AppendNothing(rest: Emitted)
    ensures Append([], rest) == rest
  {
    if rest.Emitted? {
      assert [] + rest.vectors == rest.vectors;
    }
  }

  lemma WrittenStart(kind: Kind, buf: seq<byte>, base: nat, limit: nat, done: seq<Vector>, ptr: nat)
    requires Written(kind, buf, base, limit, done, ptr)
    ensures HeaderLength(kind) <= StartOf(kind, ptr) <= limit
  {
  }

  lemma ProgressLead(items0: seq<Item>, now: seq<Item>, i: nat, e: nat)
    requires Progress(items0, now, i, e) && i < |now| && Leads(now[i])
    ensures i == e && now[i] == items0[i]
  {
  }

  lemma ProgressOnlyTx(items0: seq<Item>, now: seq<Item>, i: nat, e: nat)
    requires Progress(items0, now, i, e)
    ensures OnlyTxCleared(items0, now) && i <= e <= |now|
  {
  }

  /** What is in the buffer once the message is closed. */
  ghost predicate Closed(kind: Kind, buf: seq<byte>, base: nat, limit: nat, vs: seq<Vector>, used: nat) {
    && AllWellFormed(kind, vs) && |EncodeVectors(kind, vs)| + 2 < 65536
    && base + used <= base + limit <= |buf|
    && buf[base..base + used] == EncodeMessage(kind, vs)
    && Blank(buf, base + used, base + limit)
  }

  lemma SplitBytes(bytes: seq<byte>, i: nat)
    requires i <= |bytes|
    ensures bytes == bytes[..i] + bytes[i..]
  {
  }

  lemma MessageAssembled(kind: Kind, bytes: seq<byte>, vs: seq<Vector>)
    requires AllWellFormed(kind, vs) && |EncodeVectors(kind, vs)| + 2 < 65536
    requires var h, n := HeaderLength(kind), |EncodeVectors(kind, vs)|;
             && |bytes| == h + n + 2
             && bytes[0] == AttributeType(kind) && bytes[1] == FirstLength(kind)
             && (kind != Vid ==> bytes[2..4] == Word(n + 2))
             && bytes[h..h + n] == EncodeVectors(kind, vs) && bytes[h + n..] == ENDMARK
    ensures bytes == EncodeMessage(kind, vs)
  {
    hide EncodeVectors, Word;
    var h, n := HeaderLength(kind), |EncodeVectors(kind, vs)|;
    SplitBytes(bytes, h);
    SplitBytes(bytes[h..], n);
    assert bytes[h..][..n] == bytes[h..h + n] && bytes[h..][n..] == bytes[h + n..];
    SplitBytes(bytes[..h], 2);
    assert bytes[..h][..2] == bytes[..2] && bytes[..h][2..] == bytes[2..h];
    assert bytes[..2] == [AttributeType(kind), FirstLength(kind)];
    var body := EncodeVectors(kind, vs) + ENDMARK;
    assert bytes[h..] == body;
    assert kind == Vid ==> bytes[2..h] == [];
  }

  lemma WrittenBytes(kind: Kind, before: seq<byte>, now: seq<byte>, base: nat, limit: nat, vs: seq<Vector>, ptr: nat)
    requires Written(kind, before, base, limit, vs, ptr) && vs != [] && ptr + 2 <= limit <= MAX_FRAME_SIZE
    requires before[base] == AttributeType(kind) && before[base + 1] == FirstLength(kind)
    requires |now| == |before|
    requires forall k :: 0 <= k < |now| && !(kind != Vid && base + 2 <= k < base + 4) ==> now[k] == before[k]
    requires kind != Vid ==> now[base + 2..base + 4] == Word(ptr - 2)
    ensures Closed(kind, now, base, limit, vs, ptr + 2)
  {
    hide EncodeVectors, EncodeMessage, Word;
    var h, n, bytes := HeaderLength(kind), |EncodeVectors(kind, vs)|, now[base..base + ptr + 2];
    assert ptr == h + n;
    assert now[base + h..base + ptr] == before[base + h..base + ptr];
    SliceOfSlice(now, base, base + ptr + 2, h, ptr);
    SliceOfSlice(now, base, base + ptr + 2, ptr, ptr + 2);
    if kind != Vid {
      SliceOfSlice(now, base, base + ptr + 2, 2, 4);
    }
    MessageAssembled(kind, bytes, vs);
  }

  /** End mark, and AttributeListLength for the MSRP types. */
  method CloseMessage(kind: Kind, buf: array<byte>, base: nat, limit: nat, ptr: nat, ghost vs: seq<Vector>) returns (used: nat)
    requires 4 <= ptr < 65536 && base + ptr + 2 <= buf.Length
    requires ptr + 2 <= limit ==> Written(kind, buf[..], base, limit, vs, ptr) && vs != [] && limit <= MAX_FRAME_SIZE
    requires buf[base] == AttributeType(kind) && buf[base + 1] == FirstLength(kind)
    modifies buf
    ensures used == ptr + 2 && SameOutside(old(buf[..]), buf[..], base, base + used)
    ensures used <= limit ==> Closed(kind, buf[..], base, limit, vs, used)
  {
    hide EncodeVectors, Closed, AllWellFormed, Word, FirstLength, AttributeType, Written;
    ghost var before := buf[..];
    buf[base + ptr] := 0;
    buf[base + ptr + 1] := 0;
    ghost var marked := buf[..];
    if ptr + 2 <= limit {
      MarkThere(kind, before, base, limit, vs, ptr);
      assert marked == before;
    }
    if kind != Vid {
      var length := Word(ptr - 2);
      buf[base + 2] := length[0];
      buf[base + 3] := length[1];
      assert buf[base + 2..base + 4] == length;
    }
    used := ptr + 2;
    if used <= limit {
      WrittenBytes(kind, marked, buf[..], base, limit, vs, ptr);
    }
  }

  /** Inside a zeroed room the end mark is already there. */
  lemma MarkThere(kind: Kind, buf: seq<byte>, base: nat, limit: nat, vs: seq<Vector>, ptr: nat)
    requires Written(kind, buf, base, limit, vs, ptr) && vs != [] && ptr + 2 <= limit
    ensures base + limit <= |buf| && buf[base + ptr] == 0 && buf[base + ptr + 1] == 0
  {
    hide EncodeVectors, AllWellFormed;
  }

  /** An empty vector with the LeaveAll flag; its first value is the zeros already there. */
  method WriteEmptyLeaveAll(kind: Kind, buf: array<byte>, base: nat, limit: nat) returns (ptr: nat)
    requires Written(kind, buf[..], base, limit, [], 0)
    requires base + HeaderLength(kind) + FirstLength(kind) + 4 <= buf.Length
    modifies buf
    ensures ptr == HeaderLength(kind) + 2 + FirstLength(kind)
    ensures SameOutside(old(buf[..]), buf[..], base + HeaderLength(kind), base + HeaderLength(kind) + 2)
    ensures ptr + 2 <= limit ==> Written(kind, buf[..], base, limit, [EmptyLeaveAll(kind)], ptr)
  {
    hide VectorHeader, EncodeVectors, EncodeVector, Written;
    var vec, header := HeaderLength(kind), VectorHeader(true, 0);
    buf[base + vec], buf[base + vec + 1] := header[0], header[1];
    ptr := vec + 2 + FirstLength(kind);
    if ptr + 2 <= limit {
      EmptyVectorWritten(kind, old(buf[..]), buf[..], base, limit);
    }
  }

  /** What an emitter call leaves in its room when it returns successfully. */
  ghost predicate MessageLeft(kind: Kind, em: Emitted, buf: seq<byte>, base: nat, limit: nat, used: nat, reach: nat) {
    && em.Emitted?
    && (em.vectors == [] ==> used == 0 && Blank(buf, base + 2, base + limit))
    && (em.vectors != [] ==> used == reach && (used <= limit ==> Closed(kind, buf, base, limit, em.vectors, used)))
  }

  /**
    The emitters: writes one message of the given type at `base`, in a room of `limit` bytes.
    `used` is 0 when there is nothing to send. The bytes it touches have to exist, and it
    touches exactly the first Reach of them: EmissionReach.ReachIff says when that is its room.
   */
  method EmitVectors(kind: Kind, items: array<Item>, buf: array<byte>, base: nat, limit: nat, lva: bool, sendEmpty: bool)
    returns (ok: bool, used: nat, ghost reach: nat)
    requires Keyed(kind, items[..])
    requires base + limit <= buf.Length && base + limit <= MAX_FRAME_SIZE
    requires base + Reach(kind, items[..], limit, lva, sendEmpty) <= buf.Length
    requires limit >= 2 ==> Blank(buf[..], base + 2, base + limit)
    modifies items, buf
    ensures OnlyTxCleared(old(items[..]), items[..])
    ensures reach == Reach(kind, old(items[..]), limit, lva, sendEmpty)
    ensures SameOutside(old(buf[..]), buf[..], base, base + reach)
    ensures ok <==> EmitMessage(kind, old(items[..]), limit, lva, sendEmpty).Emitted?
    ensures ok ==> MessageLeft(kind, EmitMessage(kind, old(items[..]), limit, lva, sendEmpty), buf[..], base, limit, used, reach)
    ensures !ok ==> used == 0
  {
    hide Keyed, EmitFrom, Closed, EncodeVectors, OnlyTxCleared, EncodeVector, WellFormed, VectorHeader, VectorSize, AttributeType, ReachFrom, SameOutside, Written;
    ok, used, reach := false, 0, 0;
    if limit < VectorSize(kind) {
      UnchangedItems(items[..], buf[..], base);
    } else {
      ok, used, reach := EmitInto(kind, items, buf, base, limit, lva, sendEmpty);
    }
  }

  lemma UnchangedItems(items: seq<Item>, buf: seq<byte>, base: nat)
    ensures OnlyTxCleared(items, items) && SameOutside(buf, buf, base, base)
  {
  }

  /** The emitter proper, once the smallest vector is known to fit. */
  method EmitInto(kind: Kind, items: array<Item>, buf: array<byte>, base: nat, limit: nat, lva: bool, sendEmpty: bool)
    returns (ok: bool, used: nat, ghost reach: nat)
    requires Keyed(kind, items[..]) && VectorSize(kind) <= limit
    requires base + limit <= buf.Length && base + limit <= MAX_FRAME_SIZE
    requires base + Reach(kind, items[..], limit, lva, sendEmpty) <= buf.Length
    requires limit >= 2 ==> Blank(buf[..], base + 2, base + limit)
    modifies items, buf
    ensures OnlyTxCleared(old(items[..]), items[..])
    ensures reach == Reach(kind, old(items[..]), limit, lva, sendEmpty)
    ensures SameOutside(old(buf[..]), buf[..], base, base + reach)
    ensures ok <==> EmitMessage(kind, old(items[..]), limit, lva, sendEmpty).Emitted?
    ensures ok ==> MessageLeft(kind, EmitMessage(kind, old(items[..]), limit, lva, sendEmpty), buf[..], base, limit, used, reach)
    ensures !ok ==> used == 0
  {
    hide Keyed, EmitFrom, Closed, EncodeVectors, OnlyTxCleared, EncodeVector, WellFormed, VectorHeader, VectorSize, AttributeType, ReachFrom, SameOutside, Written;
    ghost var items0, buf0 := items[..], buf[..];
    SmallestRoom(kind, limit);
    WalkWithin(kind, items0, limit, lva, sendEmpty);
    buf[base], buf[base + 1] := AttributeType(kind), FirstLength(kind);
    ghost var typed := buf[..];
    TypeWritten(kind, buf0, typed, base, limit);
    used := 0;
    var ptr;
    ghost var done;
    ok, ptr, done, reach := WriteVectors(kind, items, buf, base, limit, lva);
    ghost var walked := buf[..];
    Composed(buf0, typed, walked, base, 2, HeaderLength(kind), StartOf(kind, reach), StartOf(kind, reach));
    TypeStays(typed, walked, base, HeaderLength(kind), StartOf(kind, reach));
    if ok {
      DoneWhen(kind, walked, base, limit, done, ptr);
      WrittenWithin(kind, items0, limit, lva, done);
      if ptr == 0 {
        Composed(buf0, typed, walked, base, 2, HeaderLength(kind), HeaderLength(kind), 2);
        if sendEmpty {
          ptr := WriteEmptyLeaveAll(kind, buf, base, limit);
          Composed(buf0, walked, buf[..], base, 2, HeaderLength(kind), HeaderLength(kind) + 2, ptr);
          TypeStays(walked, buf[..], base, HeaderLength(kind), HeaderLength(kind) + 2);
          ghost var filled := buf[..];
          used := CloseMessage(kind, buf, base, limit, ptr, [EmptyLeaveAll(kind)]);
          Composed(buf0, filled, buf[..], base, ptr, 0, used, used);
          reach := used;
        } else {
          StillBlank(kind, buf0, walked, base, limit);
          reach := 2;
        }
      } else {
        used := CloseMessage(kind, buf, base, limit, ptr, done);
        Composed(buf0, walked, buf[..], base, ptr, 0, used, used);
        reach := used;
      }
    }
  }

  lemma SmallestRoom(kind: Kind, limit: nat)
    requires VectorSize(kind) <= limit
    ensures 2 <= HeaderLength(kind) <= limit
  {
  }

  lemma {:induction false} SilentWalk(kind: Kind, items: seq<Item>, i: nat, pos: nat, limit: nat, lva: bool)
    requires i <= |items| && Keyed(kind, items)
    requires var em := EmitFrom(kind, items, i, pos, limit, lva); em.Emitted? && em.vectors == []
    ensures ReachFrom(kind, items, i, pos, limit) == pos
    decreases |items| - i
  {
    hide RunReach, RunEnd, VectorFits, VectorFor, Sendable, VectorSize;
    if i < |items| && pos + VectorSize(kind) + 2 < limit && !Leads(items[i]) {
      SilentWalk(kind, items, i + 1, pos, limit, lva);
    }
  }

  lemma WalkWithin(kind: Kind, items: seq<Item>, limit: nat, lva: bool, sendEmpty: bool)
    requires Keyed(kind, items) && VectorSize(kind) <= limit
    ensures ReachFrom(kind, items, 0, 0, limit) <= Reach(kind, items, limit, lva, sendEmpty)
    ensures var em := EmitFrom(kind, items, 0, 0, limit, lva);
            em.Emitted? && em.vectors == [] ==> ReachFrom(kind, items, 0, 0, limit) == 0
  {
    hide EmitFrom, ReachFrom;
    var em := EmitFrom(kind, items, 0, 0, limit, lva);
    if em.Emitted? && em.vectors == [] {
      SilentWalk(kind, items, 0, 0, limit, lva);
    }
  }

  lemma TypeWritten(kind: Kind, before: seq<byte>, now: seq<byte>, base: nat, limit: nat)
    requires base + 2 <= base + limit <= |before| == |now| && HeaderLength(kind) <= limit
    requires now == before[base := now[base]][base + 1 := now[base + 1]]
    requires Blank(before, base + 2, base + limit)
    ensures SameOutside(before, now, base, base + 2) && Blank(now, base + HeaderLength(kind), base + limit)
  {
  }

  /** Writes up to `mid` and then between `from` and `to` stay below `hi`. */
  lemma Composed(a: seq<byte>, b: seq<byte>, c: seq<byte>, base: nat, mid: nat, from: nat, to: nat, hi: nat)
    requires SameOutside(a, b, base, base + mid) && SameOutside(b, c, base + from, base + to)
    requires mid <= hi && (to <= hi || from >= to)
    ensures SameOutside(a, c, base, base + hi)
  {
  }

  lemma TypeStays(before: seq<byte>, now: seq<byte>, base: nat, from: nat, to: nat)
    requires SameOutside(before, now, base + from, base + to) && 2 <= from && base + 2 <= |before|
    ensures |now| == |before| && now[base] == before[base] && now[base + 1] == before[base + 1]
  {
  }

  lemma DoneWhen(kind: Kind, buf: seq<byte>, base: nat, limit: nat, done: seq<Vector>, ptr: nat)
    requires Written(kind, buf, base, limit, done, ptr)
    ensures ptr == 0 <==> done == []
    ensures AllWellFormed(kind, done) && (done != [] ==> 4 <= ptr == HeaderLength(kind) + |EncodeVectors(kind, done)|)
  {
    if done != [] {
      assert EncodeVectors(kind, done) == EncodeVector(kind, done[0]) + EncodeVectors(kind, done[1..]);
    }
  }

  lemma StillBlank(kind: Kind, before: seq<byte>, now: seq<byte>, base: nat, limit: nat)
    requires SameOutside(before, now, base, base + 2) && Blank(before, base + 2, base + limit)
    ensures Blank(now, base + 2, base + limit)
  {
  }

  lemma WrittenWithin(kind: Kind, items: seq<Item>, limit: nat, lva: bool, done: seq<Vector>)
    requires Keyed(kind, items) && limit <= MAX_FRAME_SIZE
    requires var em := EmitFrom(kind, items, 0, 0, limit, lva); em.Emitted? && em.vectors == done
    ensures AllWellFormed(kind, done) && (done != [] ==> HeaderLength(kind) + |EncodeVectors(kind, done)| + 2 <= limit)
  {
    hide EmitFrom, EncodeVectors;
    EmitFromWellFormed(kind, items, 0, 0, limit, lva);
  }

  lemma EmptyVectorWritten(kind: Kind, before: seq<byte>, now: seq<byte>, base: nat, limit: nat)
    requires Written(kind, before, base, limit, [], 0) && limit >= HeaderLength(kind) + FirstLength(kind) + 4
    requires var h := base + HeaderLength(kind);
             SameOutside(before, now, h, h + 2) && [now[h], now[h + 1]] == VectorHeader(true, 0)
    ensures Written(kind, now, base, limit, [EmptyLeaveAll(kind)], HeaderLength(kind) + 2 + FirstLength(kind))
  {
    hide VectorHeader, SameOutside, EncodeVector;
    var v := EmptyLeaveAll(kind);
    WiderWritten(before, now, base + HeaderLength(kind), base + HeaderLength(kind) + 2, base + HeaderLength(kind) + 2 + FirstLength(kind));
    EmptyVectorBytes(kind, before, now, base, limit);
    WrittenMore(kind, before, now, base, limit, [], 0, v, HeaderLength(kind) + 2 + FirstLength(kind));
    assert [] + [v] == [v];
  }

  lemma WiderWritten(before: seq<byte>, now: seq<byte>, from: nat, to: nat, wider: nat)
    requires SameOutside(before, now, from, to) && to <= wider
    ensures SameOutside(before, now, from, wider) && |before| == |now|
  {
  }

  lemma EmptyVectorBytes(kind: Kind, before: seq<byte>, now: seq<byte>, base: nat, limit: nat)
    requires base + limit <= |before| == |now| && limit >= HeaderLength(kind) + FirstLength(kind) + 4
    requires Blank(before, base + HeaderLength(kind), base + limit)
    requires var h := base + HeaderLength(kind);
             SameOutside(before, now, h, h + 2) && [now[h], now[h + 1]] == VectorHeader(true, 0)
    ensures var v, h := EmptyLeaveAll(kind), base + HeaderLength(kind);
            && WellFormed(kind, v) && |EncodeVector(kind, v)| == 2 + FirstLength(kind)
            && now[h..h + 2 + FirstLength(kind)] == EncodeVector(kind, v)
  {
    hide VectorHeader, EncodeVector;
    var v, h := EmptyLeaveAll(kind), base + HeaderLength(kind);
    var end := h + 2 + FirstLength(kind);
    EmptyVectorParts(kind);
    assert now[h..end] == now[h..h + 2] + now[h + 2..end];
    assert now[h..h + 2] == [now[h], now[h + 1]];
    assert now[h + 2..end] == v.first;
  }

  lemma EmptyVectorParts(kind: Kind)
    ensures var v := EmptyLeaveAll(kind);
            WellFormed(kind, v) && EncodeVector(kind, v) == VectorHeader(true, 0) + v.first
  {
    hide VectorHeader;
    var none: seq<event> := [];
    assert Pack3(none) == [];
  }
}
