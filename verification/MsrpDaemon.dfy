/**
  msrp.c as it runs: one participant whose list, timers and stream IDs are updated in place,
  proved to do exactly what the model's steps say, so that its state stays valid for ever.
 */
module MsrpDaemon {
  import opened Mrp
  import opened Mrpdu
  import opened MrpduParse
  import Mvrp
  import opened Msrp
  import opened MsrpRuns
  import opened MsrpWire
  import MsrpFrames
  import opened MsrpStations
  import opened MsrpStreamIds
  import opened Emission
  import MsrpReach
  import MsrpTxpdu
  import opened AttribList
  import opened LinkedTable
  import Receiver

  // ---------------------------------------------------------------- Received values

  ghost predicate AllSound(ds: seq<Dispatch>) {
    forall i :: 0 <= i < |ds| ==> if ds[i].LeaveAll? then MsrpKind(ds[i].kind) else Sound(ds[i])
  }

  lemma {:induction false} KeyValuesSound(kind: Kind, b: seq<byte>, base3: nat, base4: nat, i: nat, n: nat, key: seq<byte>, j: nat)
    requires MsrpKind(kind) && i <= n && |key| == FirstLength(kind)
    ensures AllSound(KeyValues(kind, b, base3, base4, i, n, key, j))
    decreases n - i
  {
    hide Digit3, Digit4, NextKey;
    if i < n {
      if Digit3(At(b, base3 + i / 3), 0) > 5 {
        KeyValuesSound(kind, b, base3, base4, Min(i - i % 3 + 3, n), n, key, j);
      } else {
        KeyValuesSound(kind, b, base3, base4, i + 1, n, NextKey(kind, key), j + 1);
      }
    }
  }

  lemma ValuesSound(kind: Kind, b: seq<byte>, pos: nat, n: nat)
    requires MsrpKind(kind)
    ensures AllSound(ValuesAt(kind, b, pos, n))
  {
    hide KeyValues;
    var base := pos + 2 + FirstLength(kind);
    KeyValuesSound(kind, b, base, base + Len3(n), 0, n, FirstValue(kind, b, pos + 2), 0);
  }

  lemma SoundConcat(a: seq<Dispatch>, b: seq<Dispatch>)
    requires AllSound(a) && AllSound(b)
    ensures AllSound(a + b)
  {
    hide Sound;
  }

  lemma AnnouncedSound(kind: Kind, header: nat, saw: bool)
    requires MsrpKind(kind)
    ensures AllSound(Announced(kind, header, saw))
  {
  }

  lemma {:induction false} VectorsSound(kind: Kind, b: seq<byte>, pos: nat, saw: bool)
    requires MsrpKind(kind)
    ensures AllSound(ParseVectors(kind, b, pos, saw).out)
    decreases if pos < |b| then |b| - pos else 0
  {
    hide ValuesAt, HasLeaveAll, NumValues, RunsOff, WordAt, VectorLength, Announced, AllSound;
    var header := WordAt(b, pos);
    var n, seen := NumValues(header), saw || HasLeaveAll(header);
    AnnouncedSound(kind, header, saw);
    NoneSound();
    if header == 0 {
    } else if n == 0 {
      HeaderInside(b, pos);
      VectorsSound(kind, b, pos + 2 + FirstLength(kind), seen);
      SoundConcat(Announced(kind, header, saw), ParseVectors(kind, b, pos + 2 + FirstLength(kind), seen).out);
    } else if !RunsOff(kind, b, pos, n) {
      HeaderInside(b, pos);
      ValuesSound(kind, b, pos, n);
      VectorsSound(kind, b, pos + VectorLength(kind, n), seen);
      SoundConcat(Announced(kind, header, saw), ValuesAt(kind, b, pos, n));
      SoundConcat(Announced(kind, header, saw) + ValuesAt(kind, b, pos, n),
                  ParseVectors(kind, b, pos + VectorLength(kind, n), seen).out);
    }
  }

  lemma NoneSound()
    ensures AllSound([])
  {
  }

  lemma HeaderInside(b: seq<byte>, pos: nat)
    requires WordAt(b, pos) != 0
    ensures pos < |b|
  {
  }

  /** Whatever bytes arrive, the receiver only dispatches well-formed MSRP values. */
  lemma {:induction false} ReceivedSound(b: seq<byte>, pos: nat, endmarks: nat, saw: set<Kind>)
    ensures AllSound(ParseMsrp(b, pos, endmarks, saw).out)
    decreases if pos < |b| then |b| - pos else 0
  {
    hide ParseVectors, ListLengthOk, VectorLength, NumValues;
    if pos + 2 >= |b| {
    } else if WordAt(b, pos) == 0 {
      if endmarks == 0 {
        ReceivedSound(b, pos + 2, 1, saw);
      }
    } else if 1 <= b[pos] <= 4 {
      var kind := KindOfType(b[pos]);
      if b[pos + 1] == FirstLength(kind) {
        if !ListLengthOk(b, pos + 2) {
          ReceivedSound(b, pos + 4 + VectorLength(kind, NumValues(WordAt(b, pos + 4))), 0, saw);
        } else {
          var p := ParseVectors(kind, b, pos + 4, kind in saw);
          VectorsSound(kind, b, pos + 4, kind in saw);
          ReceivedSound(b, p.pos, 0, if p.saw then saw + {kind} else saw);
        }
      }
    }
  }

  function InputsOf(ds: seq<Dispatch>, source: seq<byte>): (r: seq<Input>)
    ensures |r| == |ds|
  {
    seq<Input>(|ds|, i requires 0 <= i < |ds| => InputOf(ds[i], source))
  }

  lemma InputPossible(ds: seq<Dispatch>, source: seq<byte>, i: nat)
    requires AllSound(ds) && i < |ds|
    ensures Possible(InputOf(ds[i], source)) && !InputOf(ds[i], source).Interest?
    ensures ds[i].Value? ==> InputOf(ds[i], source).Apply?
  {
    hide Heard, Arriving;
    if ds[i].Value? {
      HeardArrives(ds[i], source);
    }
  }

  // ---------------------------------------------------------------- What is sent

  /** The frame an input makes the participant send. */
  function FrameAt(p2p: bool, station: Mvrp.mac, db: Db, input: Input): Option<seq<byte>> {
    match input
    case TxTick => MsrpFrames.TxPdu(station, WalkedAll(p2p, db.attribs, Tx, None), db.machine.tx, false)
    case LvaTick => MsrpFrames.TxPdu(station, WalkedAll(p2p, db.attribs, TxLa, None), true, true)
    case _ => None
  }

  /** Every frame sent in a run. */
  function WireAfter(p2p: bool, station: Mvrp.mac, pruning: bool, run: seq<Input>): seq<seq<byte>> {
    if run == [] then []
    else
      var before := run[..|run| - 1];
      WireAfter(p2p, station, pruning, before) + SeqOf(FrameAt(p2p, station, After(p2p, pruning, before), run[|run| - 1]))
  }

  /** Whether the frame an input asks for is built inside its buffer. */
  ghost predicate InsideAt(p2p: bool, db: Db, input: Input) {
    match input
    case TxTick => MsrpReach.StaysInside(WalkedAll(p2p, db.attribs, Tx, None), false)
    case LvaTick => MsrpReach.StaysInside(WalkedAll(p2p, db.attribs, TxLa, None), true)
    case _ => true
  }

  /** Whether every frame of a run was built inside its buffer. */
  ghost predicate InsideAfter(p2p: bool, pruning: bool, run: seq<Input>) {
    run == [] ||
    var before := run[..|run| - 1];
    InsideAfter(p2p, pruning, before) && InsideAt(p2p, After(p2p, pruning, before), run[|run| - 1])
  }

  // ---------------------------------------------------------------- List facts the loops need

  lemma {:induction false} FindAt(s: seq<Attrib>, k: nat, key: Key)
    requires k <= |s| && (forall i :: 0 <= i < k ==> KeyOf(s[i]) != key) && (k < |s| ==> KeyOf(s[k]) == key)
    ensures Find(s, key) == k
  {
    hide KeyOf;
  }

  lemma Assoc(x: seq<Attrib>, y: seq<Attrib>, z: seq<Attrib>)
    ensures x + y + z == x + (y + z)
  {
  }

  lemma {:induction false} KeptSnoc(s: seq<Attrib>, a: Attrib)
    ensures Kept(s + [a]) == Kept(s) + (if Reclaimable(a) then [] else [a])
  {
    hide Reclaimable;
    if s == [] {
      assert s + [a] == [a] && [a][1..] == [];
    } else {
      assert (s + [a])[0] == s[0] && (s + [a])[1..] == s[1..] + [a];
      KeptSnoc(s[1..], a);
      Assoc(if Reclaimable(s[0]) then [] else [s[0]], Kept(s[1..]), if Reclaimable(a) then [] else [a]);
    }
  }

  lemma {:induction false} WithoutSnoc(s: seq<Attrib>, a: Attrib, id: id8)
    ensures WithoutTalkers(s + [a], id) == WithoutTalkers(s, id) + (if KeyOf(a) == TalkerKey(id) then [] else [a])
  {
    hide KeyOf;
    if s == [] {
      assert s + [a] == [a] && [a][1..] == [];
    } else {
      assert (s + [a])[0] == s[0] && (s + [a])[1..] == s[1..] + [a];
      WithoutSnoc(s[1..], a, id);
      Assoc(if KeyOf(s[0]) == TalkerKey(id) then [] else [s[0]], WithoutTalkers(s[1..], id),
            if KeyOf(a) == TalkerKey(id) then [] else [a]);
    }
  }

  /** Replacing and dropping the first unvisited attribute of a partly filtered list. */
  lemma Splice(kept: seq<Attrib>, rest: seq<Attrib>, a: Attrib)
    requires rest != []
    ensures (kept + rest)[|kept|] == rest[0]
    ensures (kept + rest)[|kept| := a] == kept + [a] + rest[1..]
    ensures var list := kept + [a] + rest[1..];
            list[|kept|] == a && Dropped(list, |kept|) == kept + rest[1..]
  {
  }

  /** A list that the leave timer's loop has half visited. */
  ghost function HalfWalked(s: seq<Attrib>, w: seq<Attrib>, done: nat): seq<Attrib>
    requires done <= |s| == |w|
  {
    Kept(w[..done]) + s[done..]
  }

  lemma StartHalfWalked(s: seq<Attrib>, w: seq<Attrib>)
    requires |s| == |w|
    ensures HalfWalked(s, w, 0) == s
  {
    assert w[..0] == [] && s[0..] == s;
  }

  lemma EndHalfWalked(s: seq<Attrib>, w: seq<Attrib>)
    requires |s| == |w|
    ensures HalfWalked(s, w, |s|) == Kept(w)
  {
    assert w[..|s|] == w && s[|s|..] == [];
  }

  lemma HalfWalkedOn(s: seq<Attrib>, w: seq<Attrib>, done: nat, k: nat)
    requires done < |s| == |w| && k + (|s| - done) == |HalfWalked(s, w, done)|
    ensures var list := HalfWalked(s, w, done);
            var updated := list[k := w[done]];
            && list[k] == s[done]
            && (if Reclaimable(w[done]) then Dropped(updated, k) else updated) == HalfWalked(s, w, done + 1)
  {
    hide Reclaimable, Kept, Dropped;
    var kept, rest := Kept(w[..done]), s[done..];
    Splice(kept, rest, w[done]);
    assert rest[1..] == s[done + 1..] && rest[0] == s[done];
    KeptSnoc(w[..done], w[done]);
    assert w[..done + 1] == w[..done] + [w[done]];
  }

  /** A list from which a stream's talkers have been taken up to index `done`. */
  ghost function HalfFiltered(s: seq<Attrib>, id: id8, done: nat): seq<Attrib>
    requires done <= |s|
  {
    WithoutTalkers(s[..done], id) + s[done..]
  }

  lemma FilterBounds(s: seq<Attrib>, id: id8)
    ensures HalfFiltered(s, id, 0) == s && HalfFiltered(s, id, |s|) == WithoutTalkers(s, id)
  {
    assert s[..0] == [] && s[0..] == s && s[..|s|] == s && s[|s|..] == [];
  }

  lemma FilterOn(s: seq<Attrib>, id: id8, done: nat, k: nat)
    requires done < |s| && k + (|s| - done) == |HalfFiltered(s, id, done)|
    ensures var list := HalfFiltered(s, id, done);
            && list[k] == s[done]
            && (if KeyOf(s[done]) == TalkerKey(id) then list[..k] + list[k + 1..] else list) == HalfFiltered(s, id, done + 1)
  {
    hide KeyOf, WithoutTalkers;
    var kept, rest := WithoutTalkers(s[..done], id), s[done..];
    Splice(kept, rest, s[done]);
    assert rest[1..] == s[done + 1..] && rest[0] == s[done];
    WithoutSnoc(s[..done], s[done], id);
    assert s[..done + 1] == s[..done] + [s[done]];
  }

  class Participant {
    const p2p: bool
    const station: Mvrp.mac
    const pruning: bool
    const attribs: Table<Attrib>
    var join: bool
    var lv: bool
    var lva: bool
    var machine: LvaMachine
    const table: StreamTable
    var wire: seq<seq<byte>>
    ghost var inside: bool
    ghost var history: seq<Input>

    ghost function State(): Db
      reads this, attribs, table
    {
      Db(attribs.items, join, lv, lva, machine, table.ids, pruning)
    }

    /**
      The list is soundly linked, the participant is where the model says its history leads, has
      sent what the model says, and `inside` says whether all frames were built in their buffers.
     */
    ghost predicate Follows()
      reads this, attribs, attribs.list, attribs.repr, table, table.keys, table.keys.storage
    {
      && attribs.Valid() && table.Valid()
      && PossibleRun(history) && State() == After(p2p, pruning, history)
      && wire == WireAfter(p2p, station, pruning, history)
      && inside == InsideAfter(p2p, pruning, history)
    }

    /** msrp_init */
    constructor (p2p: bool, station: Mvrp.mac, pruning: bool, max: nat)
      ensures this.p2p == p2p && this.station == station && this.pruning == pruning
      ensures State() == InitialDb(pruning) && history == [] && wire == [] && Follows()
      ensures fresh(attribs) && fresh(attribs.list) && attribs.repr == {}
      ensures fresh(table) && fresh(table.keys) && fresh(table.keys.storage)
      ensures table.keys.storage.Length == if max < 8 then 8 else max
    {
      this.p2p, this.station, this.pruning := p2p, station, pruning;
      attribs := new Table<Attrib>();
      table := new StreamTable(if max < 8 then 8 else max);
      join, lv, lva := false, false, true;
      machine := LvaMachine(false, false, SndNone);
      wire, inside, history := [], true, [];
    }

    // -------------------------------------------------------------- The list

    /** msrp_lookup: the first node with this key, or null. */
    method Lookup(key: Key) returns (n: Node?, ghost k: nat)
      requires attribs.Valid()
      ensures k == Find(attribs.items, key) && attribs.At(n, k)
      ensures n != null <==> Has(attribs.items, key)
    {
      hide KeyOf, Table.Valid, Table.At;
      n := attribs.First();
      k := 0;
      while n != null
        invariant attribs.Valid() && attribs.At(n, k) && k <= |attribs.items| && (n == null <==> k == |attribs.items|)
        invariant forall i :: 0 <= i < k ==> KeyOf(attribs.items[i]) != key
        decreases |attribs.items| - k
      {
        var a := attribs.Get(n, k);
        if KeyOf(a) == key {
          FindAt(attribs.items, k, key);
          return;
        }
        n := attribs.Next(n, k);
        k := k + 1;
      }
      FindAt(attribs.items, k, key);
    }

    /** msrp_add: stitched in next to its own type, in order; at the end of the list if it is the first. */
    method Add(a: Attrib) returns (r: Node, ghost p: nat)
      requires attribs.Valid()
      modifies attribs, attribs.list, attribs.repr
      ensures attribs.Valid() && fresh(attribs.repr - old(attribs.repr)) && p == AddPos(old(attribs.items), a, 0)
      ensures attribs.items == Added(old(attribs.items), a) && attribs.At(r, p)
    {
      hide Table.Valid, Table.At, Precedes;
      ghost var s := attribs.items;
      var first := attribs.First();
      if first == null {
        r := attribs.InsertFirst(a);
        p := 0;
      } else {
        var node, before, k := Stop(first, a);
        p := AddPos(s, a, 0);
        if before {
          r := attribs.InsertBefore(node, k, a);
        } else {
          r := attribs.InsertAfter(node, k, a);
        }
      }
    }

    /** The walk of msrp_add: the node beside which the attribute goes, and on which side. */
    method Stop(first: Node, a: Attrib) returns (node: Node, before: bool, ghost k: nat)
      requires attribs.Valid() && attribs.At(first, 0)
      ensures attribs.At(node, k) && AddPos(attribs.items, a, 0) == if before then k else k + 1
    {
      hide Table.Valid, Table.At, Precedes;
      node, k := first, 0;
      var cur := attribs.Get(node, k);
      var next := attribs.Next(node, k);
      var more := next != null && cur.kind != a.kind;
      if next != null && cur.kind == a.kind && Precedes(cur, a) {
        var following := attribs.Get(next, k + 1);
        more := following.kind == a.kind;
      }
      while more
        invariant attribs.Valid() && attribs.At(node, k) && attribs.At(next, k + 1)
        invariant k < |attribs.items| && cur == attribs.items[k] && (next == null <==> k + 1 == |attribs.items|)
        invariant AddPos(attribs.items, a, 0) == AddPos(attribs.items, a, k)
        invariant more <==> next != null && (cur.kind != a.kind || (Precedes(cur, a) && attribs.items[k + 1].kind == a.kind))
        decreases |attribs.items| - k
      {
        node, k := next, k + 1;
        cur := attribs.Get(node, k);
        next := attribs.Next(node, k);
        more := next != null && cur.kind != a.kind;
        if next != null && cur.kind == a.kind && Precedes(cur, a) {
          var following := attribs.Get(next, k + 1);
          more := following.kind == a.kind;
        }
      }
      before := cur.kind == a.kind && !Precedes(cur, a);
    }

    /** msrp_merge, for the attribute of the node. */
    method Merge(n: Node, ghost k: nat, r: Attrib)
      requires attribs.Valid() && attribs.At(n, k) && k < |attribs.items| && KeyOf(attribs.items[k]) == KeyOf(r)
      modifies attribs`data, attribs`items
      ensures attribs.Valid() && attribs.At(n, k)
      ensures attribs.items == old(attribs.items)[k := Merged(old(attribs.items), old(attribs.items)[k], r)]
    {
      hide Msrp.Find, Table.Valid, Table.At;
      var a := attribs.Get(n, k);
      var force := false;
      a := a.(reg := a.reg.(mac := r.reg.mac));
      if IsTalker(a.kind) {
        if r.declare == a.declare {
          a := a.(talker := a.talker.(code := r.talker.code, bridge := r.talker.bridge));
          force := a.kind != r.kind;
          a := a.(kind := r.kind);
        }
      } else if a.kind == Listener {
        if a.sub != r.sub {
          var missing := false;
          if a.sub == LISTENER_ASKFAILED {
            var t, tk := Lookup(TalkerKey(a.talker.streamId));
            missing := t == null;
          }
          if !missing {
            if r.declare == a.declare {
              a := a.(sub := r.sub);
            }
            force := true;
          }
        }
      } else if a.domain.priority != r.domain.priority || a.domain.vlan != r.domain.vlan {
        a := a.(domain := a.domain.(neighbor := r.domain.priority, vlan := r.domain.vlan));
        force := true;
      }
      if force {
        a := a.(reg := a.reg.(state := MT));
      }
      attribs.Set(n, k, a);
    }

    /** msrp_conditional_reclaim: unlinks the attribute if nobody wants it; returns the next node. */
    method ConditionalReclaim(n: Node, ghost k: nat) returns (next: Node?)
      requires attribs.Valid() && attribs.At(n, k)
      modifies attribs, attribs.list, attribs.repr
      ensures attribs.Valid() && fresh(attribs.repr - old(attribs.repr)) && k < |old(attribs.items)|
      ensures next == null <==> (if Reclaimable(old(attribs.items)[k]) then k else k + 1) == |attribs.items|
      ensures Reclaimable(old(attribs.items)[k]) ==> attribs.At(next, k) && attribs.items == Dropped(old(attribs.items), k)
      ensures !Reclaimable(old(attribs.items)[k]) ==> attribs.At(next, k + 1) && attribs.items == old(attribs.items)
    {
      hide Table.Valid, Table.At, Reclaimable;
      var a := attribs.Get(n, k);
      if Reclaimable(a) {
        next := attribs.Remove(n, k);
      } else {
        next := attribs.Next(n, k);
      }
    }

    /** msrp_reclaim */
    method ReclaimAll()
      requires attribs.Valid()
      modifies attribs, attribs.list, attribs.repr
      ensures attribs.Valid() && fresh(attribs.repr - old(attribs.repr)) && attribs.items == Kept(old(attribs.items))
    {
      hide Reclaimable, Kept, Dropped, HalfWalked, Table.Valid, Table.At;
      ghost var s := attribs.items;
      ghost var done, k := 0, 0;
      var n := attribs.First();
      StartHalfWalked(s, s);
      while n != null
        invariant attribs.Valid() && fresh(attribs.repr - old(attribs.repr)) && attribs.At(n, k) && (n == null <==> k == |attribs.items|)
        invariant 0 <= done <= |s| && attribs.items == HalfWalked(s, s, done)
        invariant k + (|s| - done) == |attribs.items|
        decreases |s| - done
      {
        HalfWalkedOn(s, s, done, k);
        assert attribs.items[k := s[done]] == attribs.items;
        n := ConditionalReclaim(n, k);
        k, done := if Reclaimable(s[done]) then k else k + 1, done + 1;
      }
      EndHalfWalked(s, s);
    }

    /** The leave timer's loop: each registrar takes the event, then the attribute may be reclaimed. */
    method LeaveWalk()
      requires attribs.Valid()
      modifies attribs, attribs.list, attribs.repr
      ensures attribs.Valid() && fresh(attribs.repr - old(attribs.repr)) && attribs.items == Kept(WalkedAll(p2p, old(attribs.items), LvTimer, None))
    {
      hide Walked, Reclaimable, Kept, Dropped, HalfWalked, Table.Valid, Table.At;
      ghost var s, w := attribs.items, WalkedAll(p2p, attribs.items, LvTimer, None);
      ghost var done, k := 0, 0;
      var n := attribs.First();
      StartHalfWalked(s, w);
      while n != null
        invariant attribs.Valid() && fresh(attribs.repr - old(attribs.repr)) && attribs.At(n, k) && (n == null <==> k == |attribs.items|)
        invariant 0 <= done <= |s| == |w| && attribs.items == HalfWalked(s, w, done)
        invariant k + (|s| - done) == |attribs.items|
        decreases |s| - done
      {
        HalfWalkedOn(s, w, done, k);
        var a := attribs.Get(n, k);
        attribs.Set(n, k, Walked(p2p, a, LvTimer, None));
        n := ConditionalReclaim(n, k);
        k, done := if Reclaimable(w[done]) then k else k + 1, done + 1;
      }
      EndHalfWalked(s, w);
    }

    /** The loop of the commands I-S and S-L that takes a stream's talkers out. */
    method RemoveTalkers(id: id8)
      requires attribs.Valid()
      modifies attribs, attribs.list, attribs.repr
      ensures attribs.Valid() && fresh(attribs.repr - old(attribs.repr)) && attribs.items == WithoutTalkers(old(attribs.items), id)
    {
      hide WithoutTalkers, KeyOf, HalfFiltered, Table.Valid, Table.At;
      ghost var s := attribs.items;
      ghost var done, k := 0, 0;
      var n := attribs.First();
      FilterBounds(s, id);
      while n != null
        invariant attribs.Valid() && fresh(attribs.repr - old(attribs.repr)) && attribs.At(n, k) && (n == null <==> k == |attribs.items|)
        invariant 0 <= done <= |s| && attribs.items == HalfFiltered(s, id, done)
        invariant k + (|s| - done) == |attribs.items|
        decreases |s| - done
      {
        FilterOn(s, id, done, k);
        var a := attribs.Get(n, k);
        if KeyOf(a) == TalkerKey(id) {
          n := attribs.Remove(n, k);
        } else {
          n := attribs.Next(n, k);
          k := k + 1;
        }
        done := done + 1;
      }
    }

    // -------------------------------------------------------------- Walks

    /** The loop over the list that most events share; counts the transitions that ask for another Tx. */
    method Walk(e: Event, kind: Option<Kind>) returns (count: nat)
      requires attribs.Valid() && e in {Tx, TxLa, RLa}
      modifies this`lv, attribs`data, attribs`items
      ensures attribs.Valid() && attribs.items == WalkedAll(p2p, old(attribs.items), e, kind)
      ensures lv == (old(lv) || AnyLeaves(old(attribs.items), e, kind))
      ensures count > 0 <==> AnotherTxNeeded(attribs.items)
    {
      hide Walked, TransitionImpliesTx, StartsLeaveTimer, Table.Valid, Table.At;
      ghost var s := attribs.items;
      ghost var k := 0;
      var n := attribs.First();
      count := 0;
      while n != null
        invariant attribs.Valid() && attribs.At(n, k) && |attribs.items| == |s| && k <= |s| && (n == null <==> k == |s|)
        invariant forall i :: 0 <= i < |s| ==> attribs.items[i] == if i < k then Walked(p2p, s[i], e, kind) else s[i]
        invariant lv == (old(lv) || exists i :: 0 <= i < k && (kind.Some? ==> s[i].kind == kind.value) && StartsLeaveTimer(s[i].reg, e))
        invariant count > 0 <==> exists i :: 0 <= i < k && TransitionImpliesTx(attribs.items[i].app)
        decreases |s| - k
      {
        var a := attribs.Get(n, k);
        if (kind.Some? ==> a.kind == kind.value) && StartsLeaveTimer(a.reg, e) {
          lv := true;
        }
        a := Walked(p2p, a, e, kind);
        attribs.Set(n, k, a);
        if TransitionImpliesTx(a.app) {
          count := count + 1;
        }
        n := attribs.Next(n, k);
        k := k + 1;
      }
      assert attribs.items == WalkedAll(p2p, s, e, kind);
    }

    /** The loop at the end of msrp_event: every pending notification is sent and cleared. */
    method Notify()
      requires attribs.Valid()
      modifies attribs`data, attribs`items
      ensures attribs.Valid() && attribs.items == CalmedAll(old(attribs.items))
    {
      hide Table.Valid, Table.At;
      ghost var s := attribs.items;
      ghost var k := 0;
      var n := attribs.First();
      while n != null
        invariant attribs.Valid() && attribs.At(n, k) && |attribs.items| == |s| && k <= |s| && (n == null <==> k == |s|)
        invariant forall i :: 0 <= i < |s| ==> attribs.items[i] == if i < k then Calmed(s[i]) else s[i]
        decreases |s| - k
      {
        var a := attribs.Get(n, k);
        if a.reg.notify != NotifyNone {
          attribs.Set(n, k, Calmed(a));
        }
        n := attribs.Next(n, k);
        k := k + 1;
      }
      assert attribs.items == CalmedAll(s);
    }

    /** msrp_txpdu: builds and sends the frame for the list as it is, then the transmit flags are off. */
    method SendPdu(sendEmpty: bool)
      requires attribs.Valid() && machine.tx == sendEmpty
      modifies this`machine, this`wire, this`inside, attribs`data, attribs`items
      ensures attribs.Valid() && attribs.items == SettledAll(old(attribs.items)) && machine == old(machine).(tx := false)
      ensures wire == old(wire) + SeqOf(MsrpFrames.TxPdu(station, old(attribs.items), sendEmpty, sendEmpty))
      ensures inside == (old(inside) && MsrpReach.StaysInside(old(attribs.items), sendEmpty))
    {
      hide MsrpFrames.TxPdu, MsrpReach.StaysInside, SettledAll, Table.Valid, Table.At;
      var s := attribs.Collect();
      var frame, end := MsrpTxpdu.WriteFrame(station, s, machine.tx);
      machine := machine.(tx := false);
      inside := inside && end <= MAX_FRAME_SIZE;
      if frame.Some? {
        wire := wire + [frame.value];
      }
      ClearFlags();
    }

    method ClearFlags()
      requires attribs.Valid()
      modifies attribs`data, attribs`items
      ensures attribs.Valid() && attribs.items == SettledAll(old(attribs.items))
    {
      hide Table.Valid, Table.At;
      ghost var s := attribs.items;
      ghost var k := 0;
      var n := attribs.First();
      while n != null
        invariant attribs.Valid() && attribs.At(n, k) && |attribs.items| == |s| && k <= |s| && (n == null <==> k == |s|)
        invariant forall i :: 0 <= i < |s| ==> attribs.items[i] == if i < k then Settled(s[i]) else s[i]
        decreases |s| - k
      {
        var a := attribs.Get(n, k);
        attribs.Set(n, k, Settled(a));
        n := attribs.Next(n, k);
        k := k + 1;
      }
      assert attribs.items == SettledAll(s);
    }

    // -------------------------------------------------------------- Events

    /** The pruning test of msrp_event. */
    method IsInterested(r: Attrib) returns (interested: bool)
      requires attribs.Valid() && table.Valid()
      ensures interested == Interested(State(), r)
    {
      hide Msrp.Find, KeyOf, Table.Valid, Table.At;
      interested := true;
      if IsTalker(r.kind) && pruning {
        interested := table.Find(r.talker.streamId);
        if !interested {
          var l, k := Lookup(ListenerKey(r.talker.streamId));
          interested := l != null;
        }
      }
    }

    /** The list gets the attribute the event is about: merged, or added. */
    method Target(r: Attrib, n0: Node?, ghost k0: nat) returns (n: Node, ghost k: nat)
      requires attribs.Valid() && attribs.At(n0, k0) && k0 == Find(attribs.items, KeyOf(r))
      requires n0 != null <==> Has(attribs.items, KeyOf(r))
      modifies attribs, attribs.list, attribs.repr
      ensures attribs.Valid() && fresh(attribs.repr - old(attribs.repr)) && attribs.At(n, k)
      ensures (attribs.items, k) == WithTarget(old(attribs.items), r)
    {
      hide KeyOf, Merged, AddPos, Table.Valid, Table.At;
      if n0 == null {
        n, k := Add(r);
      } else {
        n, k := n0, k0;
        Merge(n, k, r);
      }
    }

    /** Both machines take the event, and the attribute goes if nobody wants it any more. */
    method Touch(n: Node, ghost k: nat, e: Event)
      requires attribs.Valid() && attribs.At(n, k) && k < |attribs.items|
      modifies this`lv, attribs, attribs.list, attribs.repr
      ensures attribs.Valid() && fresh(attribs.repr - old(attribs.repr)) && attribs.items == Touched(p2p, old(attribs.items), k, e)
      ensures lv == (old(lv) || StartsLeaveTimer(old(attribs.items)[k].reg, RegistrarEvent(e, old(attribs.items)[k].reg.state)))
    {
      hide Handled, StartsLeaveTimer, RegistrarEvent, Reclaimable, Table.Valid, Table.At;
      ghost var list := attribs.items;
      var a := attribs.Get(n, k);
      if StartsLeaveTimer(a.reg, RegistrarEvent(e, a.reg.state)) {
        lv := true;
      }
      attribs.Set(n, k, Handled(p2p, a, e));
      assert Dropped(attribs.items, k) == Dropped(list, k);
      var next := ConditionalReclaim(n, k);
    }

    /** The part of msrp_event for an attribute of interest, up to the notification loop. */
    method ApplyTo(e: Event, r: Attrib) returns (ignored: bool)
      requires attribs.Valid()
      modifies this`join, this`lv, attribs, attribs.list, attribs.repr
      ensures attribs.Valid() && fresh(attribs.repr - old(attribs.repr))
      ensures join && (ignored <==> e == RMt && !Has(old(attribs.items), KeyOf(r)))
      ensures ignored ==> attribs.items == old(attribs.items) && lv == old(lv)
      ensures !ignored ==>
                var (list, k) := WithTarget(old(attribs.items), r);
                && attribs.items == Touched(p2p, list, k, e)
                && lv == (old(lv) || StartsLeaveTimer(list[k].reg, RegistrarEvent(e, list[k].reg.state)))
    {
      hide StartsLeaveTimer, RegistrarEvent, KeyOf, Touched, WithTarget, Has, Table.Valid, Table.At;
      join := true;
      var n, k := Lookup(KeyOf(r));
      ignored := n == null && e == RMt;
      if !ignored {
        TargetInside(attribs.items, r);
        n, k := Target(r, n, k);
        Touch(n, k, e);
      }
    }

    /** msrp_event for one attribute. */
    method OnApply(e: Event, r: Attrib)
      requires ValueEvent(e) && attribs.Valid() && table.Valid()
      modifies this`join, this`lv, attribs, attribs.list, attribs.repr
      ensures attribs.Valid() && fresh(attribs.repr - old(attribs.repr)) && State() == ApplyStep(p2p, old(State()), e, r)
    {
      hide StartsLeaveTimer, RegistrarEvent, KeyOf, CalmedAll, Touched, WithTarget, Has, Interested, ValueEvent, Table.Valid, Table.At;
      TargetInside(attribs.items, r);
      var interested := IsInterested(r);
      var ignored := false;
      if interested {
        ignored := ApplyTo(e, r);
      }
      if !ignored {
        Notify();
      }
    }

    method OnLeaveAll(kind: Kind)
      requires attribs.Valid()
      modifies this`join, this`lv, this`lva, this`machine, attribs`data, attribs`items
      ensures attribs.Valid() && State() == Step(p2p, old(State()), LeaveAllHeard(kind))
    {
      hide WalkedAll, CalmedAll, AnyLeaves, AnotherTxNeeded, LvaFsm, Table.Valid, Table.At;
      join := true;
      var count := Walk(RLa, Some(kind));
      machine, lva := LvaFsm(machine, RLa), true;
      Notify();
    }

    method OnTx()
      requires attribs.Valid() && !machine.tx
      modifies this`join, this`lv, this`machine, this`wire, this`inside, attribs`data, attribs`items
      ensures attribs.Valid() && State() == Step(p2p, old(State()), TxTick)
      ensures wire == old(wire)
                      + SeqOf(MsrpFrames.TxPdu(station, WalkedAll(p2p, old(attribs.items), Tx, None), false, false))
      ensures inside == (old(inside) && MsrpReach.StaysInside(WalkedAll(p2p, old(attribs.items), Tx, None), false))
    {
      hide WalkedAll, CalmedAll, SettledAll, AnyLeaves, AnotherTxNeeded, MsrpFrames.TxPdu, MsrpReach.StaysInside, Table.Valid, Table.At;
      join := false;
      ghost var s := attribs.items;
      var count := Walk(Tx, None);
      NobodyLeavesOnTx(s);
      SendPdu(false);
      if count > 0 {
        join := true;
      }
      Notify();
    }

    method OnLeaveTimer()
      requires attribs.Valid()
      modifies this`lv, attribs, attribs.list, attribs.repr
      ensures attribs.Valid() && fresh(attribs.repr - old(attribs.repr)) && State() == Step(p2p, old(State()), LvTick)
    {
      hide WalkedAll, CalmedAll, Kept, Table.Valid, Table.At;
      lv := false;
      LeaveWalk();
      Notify();
    }

    method OnLeaveAllTimer()
      requires attribs.Valid()
      modifies this`join, this`lv, this`lva, this`machine, this`wire, this`inside, attribs`data, attribs`items
      ensures attribs.Valid() && State() == Step(p2p, old(State()), LvaTick)
      ensures wire == old(wire)
                      + SeqOf(MsrpFrames.TxPdu(station, WalkedAll(p2p, old(attribs.items), TxLa, None), true, true))
      ensures inside == (old(inside) && MsrpReach.StaysInside(WalkedAll(p2p, old(attribs.items), TxLa, None), true))
    {
      hide WalkedAll, CalmedAll, SettledAll, AnyLeaves, AnotherTxNeeded, MsrpFrames.TxPdu, LvaFsm, MsrpReach.StaysInside, Table.Valid, Table.At;
      lva, join := false, false;
      var count := Walk(TxLa, None);
      machine, lva := LvaFsm(machine, LvaTimer), true;
      LeaveAllDue(old(machine));
      machine := LvaFsm(machine, Tx);
      SendPdu(true);
      Notify();
    }

    // -------------------------------------------------------------- Commands about stream IDs

    /** I+S: refused without pruning, for a stream ID already there, and when the table is full. */
    method AddInteresting(id: id8) returns (ok: bool)
      requires table.Valid()
      modifies table, table.keys, table.keys.storage
      ensures table.Valid() && ok == (pruning && id !in old(table.ids) && !old(table.keys.IsFull()))
      ensures State() == Step(p2p, old(State()), Interest(id, old(table.keys.IsFull())))
    {
      ok := false;
      if pruning {
        ok := table.Add(id);
      }
    }

    /** I-S: takes the stream's talkers out too, unless a listener wants them. */
    method DropInteresting(id: id8) returns (ok: bool)
      requires attribs.Valid() && table.Valid()
      modifies table, table.keys, table.keys.storage, attribs, attribs.list, attribs.repr
      ensures attribs.Valid() && fresh(attribs.repr - old(attribs.repr))
      ensures table.Valid() && ok == (pruning && id in old(table.ids))
      ensures State() == Step(p2p, old(State()), Uninterest(id))
    {
      hide WithoutTalkers, KeyOf, Holds, Table.Valid, Table.At;
      ok := false;
      if pruning {
        ok := table.Remove(id);
        if ok {
          var l, k := Lookup(ListenerKey(id));
          if l == null {
            RemoveTalkers(id);
          }
        } else {
          assert old(table.ids) - {id} == old(table.ids);
        }
      }
    }

    /** S-L: the listener leaves; its talkers go with it unless the stream is listed. */
    method WithdrawListener(id: id8, mac: seq<int>)
      requires attribs.Valid() && table.Valid()
      modifies this`join, this`lv, attribs, attribs.list, attribs.repr
      ensures attribs.Valid() && fresh(attribs.repr - old(attribs.repr)) && State() == Step(p2p, old(State()), Withdraw(id, mac))
    {
      hide WithoutTalkers, KeyOf, ApplyStep, StreamTable.Valid, Table.Valid, Table.At;
      var n, k := Lookup(ListenerKey(id));
      var r := Fresh(Listener, id, mac);
      if n != null {
        var a := attribs.Get(n, k);
        r := r.(sub := a.sub);
      }
      assert r == WithdrawnListener(attribs.items, id, mac);
      OnApply(Lv, r);
      if pruning {
        var listed := table.Find(id);
        if !listed {
          RemoveTalkers(id);
        }
      }
    }

    // -------------------------------------------------------------- Everything

    /** msrp_event, msrp_reclaim and the stream ID commands: one step of the model. */
    method Event(input: Input)
      requires Possible(input) && Follows()
      requires input.Interest? ==> input.full == table.keys.IsFull()
      modifies this, attribs, attribs.list, attribs.repr, table, table.keys, table.keys.storage
      ensures State() == Step(p2p, old(State()), input) && fresh(attribs.repr - old(attribs.repr))
      ensures wire == old(wire) + SeqOf(FrameAt(p2p, station, old(State()), input))
      ensures inside == (old(inside) && InsideAt(p2p, old(State()), input))
      ensures Follows() && Valid(State()) && history == old(history) + [input]
    {
      hide Step, Valid, After, PossibleRun, Possible, WireAfter, FrameAt, InsideAt, InsideAfter, Table.Valid, Table.At;
      RunKeepsValid(p2p, pruning, history);
      ValidQuiet(State());
      Dispatch(input);
      HistoryGrows(p2p, station, pruning, history, input);
      history := history + [input];
      RunKeepsValid(p2p, pruning, history);
    }

    method Dispatch(input: Input)
      requires Possible(input) && attribs.Valid() && table.Valid() && !machine.tx
      requires input.Interest? ==> input.full == table.keys.IsFull()
      modifies this`join, this`lv, this`lva, this`machine, this`wire, this`inside, attribs, attribs.list, attribs.repr, table, table.keys, table.keys.storage
      ensures attribs.Valid() && fresh(attribs.repr - old(attribs.repr)) && table.Valid() && State() == Step(p2p, old(State()), input)
      ensures wire == old(wire) + SeqOf(FrameAt(p2p, station, old(State()), input))
      ensures inside == (old(inside) && InsideAt(p2p, old(State()), input))
    {
      hide Step, Possible, MsrpFrames.TxPdu, WalkedAll, MsrpReach.StaysInside, StreamTable.Valid, Table.Valid, Table.At;
      if input.TxTick? {
        OnTx();
      } else if input.LvaTick? {
        OnLeaveAllTimer();
      } else {
        Silent(input);
      }
    }

    /** Everything that sends no frame. */
    method Silent(input: Input)
      requires Possible(input) && attribs.Valid() && table.Valid() && !input.TxTick? && !input.LvaTick?
      requires input.Interest? ==> input.full == table.keys.IsFull()
      modifies this`join, this`lv, this`lva, this`machine, attribs, attribs.list, attribs.repr, table, table.keys, table.keys.storage
      ensures attribs.Valid() && fresh(attribs.repr - old(attribs.repr)) && table.Valid() && State() == Step(p2p, old(State()), input)
    {
      hide Step, Possible, ApplyStep, CalmedAll, Kept, WalkedAll, StreamTable.Valid, Table.Valid, Table.At;
      IsPossible(input);
      SmallSteps(p2p, State(), input);
      if input.Apply? {
        OnApply(input.e, input.r);
      } else if input.LeaveAllHeard? {
        OnLeaveAll(input.kind);
      } else if input.LvTick? {
        OnLeaveTimer();
      } else if input.PeriodicTick? {
        Notify();
      } else if input.Reclaim? {
        ReclaimAll();
      } else {
        Command(input);
      }
    }

    /** The commands I+S, I-S, I-A and S-L. */
    method Command(input: Input)
      requires attribs.Valid() && table.Valid()
      requires input.Interest? || input.Uninterest? || input.UninterestAll? || input.Withdraw?
      requires input.Interest? ==> input.full == table.keys.IsFull()
      modifies this`join, this`lv, attribs, attribs.list, attribs.repr, table, table.keys, table.keys.storage
      ensures attribs.Valid() && fresh(attribs.repr - old(attribs.repr)) && table.Valid()
      ensures State() == Step(p2p, old(State()), input)
    {
      hide Step, Table.Valid, Table.At;
      SmallSteps(p2p, State(), input);
      match input {
        case Interest(id, full) => var ok := AddInteresting(id);
        case Uninterest(id) => var ok := DropInteresting(id);
        case UninterestAll => table.Clear();
        case Withdraw(id, mac) => WithdrawListener(id, mac);
      }
    }

    /** msrp_recv_msg: checks the frame, then processes every event it carries. */
    method RecvMsg(frame: seq<byte>) returns (ok: bool)
      requires Follows()
      modifies this, attribs, attribs.list, attribs.repr, table, table.keys, table.keys.storage
      ensures Follows() && fresh(attribs.repr - old(attribs.repr)) && ok == MsrpFrames.ReceiveFrame(frame).ok
      ensures history == old(history)
                         + InputsOf(MsrpFrames.ReceiveFrame(frame).out, if |frame| >= 12 then frame[6..12] else [])
    {
      hide Step, ParseMsrp, After, Follows, InputOf, Valid, Possible;
      var shape := |frame| >= MsrpFrames.ETHERNET + 3 && frame[12..14] == MsrpFrames.MSRP_ETYPE && frame[..6] == MsrpFrames.MSRP_ADDR;
      var r := Received(false, []);
      var source := if |frame| >= 12 then frame[6..12] else [];
      if shape {
        r := Receiver.ReadMsrp(frame[MsrpFrames.ETHERNET + 1..]);
        ReceivedSound(frame[MsrpFrames.ETHERNET + 1..], 0, 0, {});
      }
      ok := r.ok;
      var k := 0;
      ghost var inputs := InputsOf(r.out, source);
      while k < |r.out|
        invariant 0 <= k <= |r.out| && Follows() && fresh(attribs.repr - old(attribs.repr)) && history == old(history) + inputs[..k]
      {
        assert inputs[..k + 1] == inputs[..k] + [inputs[k]];
        InputPossible(r.out, source, k);
        Event(InputOf(r.out[k], source));
        k := k + 1;
      }
      assert inputs[..k] == inputs;
    }
  }

  lemma ValidQuiet(db: Db)
    requires Valid(db)
    ensures !db.machine.tx
  {
  }

  lemma TargetInside(s: seq<Attrib>, r: Attrib)
    ensures WithTarget(s, r).1 < |WithTarget(s, r).0|
  {
  }

  lemma LeaveAllDue(m: LvaMachine)
    ensures LvaFsm(LvaFsm(m, LvaTimer), Tx).tx
  {
  }

  lemma IsPossible(input: Input)
    requires Possible(input)
    ensures input.Apply? ==> ValueEvent(input.e)
  {
    hide Arriving;
  }

  lemma HistoryGrows(p2p: bool, station: Mvrp.mac, pruning: bool, run: seq<Input>, input: Input)
    requires PossibleRun(run) && Possible(input)
    ensures PossibleRun(run + [input]) && After(p2p, pruning, run + [input]) == Step(p2p, After(p2p, pruning, run), input)
    ensures WireAfter(p2p, station, pruning, run + [input])
         == WireAfter(p2p, station, pruning, run) + SeqOf(FrameAt(p2p, station, After(p2p, pruning, run), input))
    ensures InsideAfter(p2p, pruning, run + [input])
       <==> InsideAfter(p2p, pruning, run) && InsideAt(p2p, After(p2p, pruning, run), input)
  {
    hide Step, Possible, FrameAt, InsideAt;
    assert (run + [input])[..|run|] == run;
  }

  lemma SmallSteps(p2p: bool, db: Db, input: Input)
    ensures input == PeriodicTick ==> Step(p2p, db, input) == db.(attribs := CalmedAll(db.attribs))
    ensures input == Reclaim ==> Step(p2p, db, input) == db.(attribs := Kept(db.attribs))
    ensures input == UninterestAll ==> Step(p2p, db, input) == db.(interesting := {})
    ensures input.Apply? ==> Step(p2p, db, input) == ApplyStep(p2p, db, input.e, input.r)
  {
    hide CalmedAll, Kept, ApplyStep;
  }
}
