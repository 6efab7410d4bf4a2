/**
  mvrp.c as it runs: one participant whose list and timers are updated in place, proved to do
  exactly what the model's steps say. `notes` and `wire` log what was sent to the clients and
  to the network.
 */
module MvrpDaemon {
  import opened Mrp
  import opened Mrpdu
  import opened Emission
  import opened EmissionReach
  import opened Emitter
  import opened MrpduParse
  import opened Mvrp
  import opened MvrpFlags
  import opened MvrpPerVid
  import opened MvrpFrames
  import opened MvrpStations
  import opened MvrpRuns
  import opened AttribList
  import opened LinkedTable
  import Receiver

  // ---------------------------------------------------------------- List facts the loops need

  ghost predicate NoneBefore(s: seq<Attrib>, k: nat, v: vid) {
    k <= |s| && forall i :: 0 <= i < k ==> s[i].vid != v
  }

  lemma {:induction false} LookupIndex(s: seq<Attrib>, k: nat, v: vid)
    requires NoneBefore(s, k, v)
    ensures k == |s| ==> Lookup(s, v) == None
    ensures k < |s| && s[k].vid == v ==> Lookup(s, v) == Some(s[k])
  {
    if k > 0 {
      LookupIndex(s[1..], k - 1, v);
    }
  }

  lemma {:induction false} InsertIndex(s: seq<Attrib>, k: nat, a: Attrib)
    requires k <= |s| && (forall i :: 0 <= i < k ==> s[i].vid < a.vid) && (k < |s| ==> s[k].vid >= a.vid)
    ensures Insert(s, a) == s[..k] + [a] + s[k..]
  {
    if k > 0 {
      InsertIndex(s[1..], k - 1, a);
      assert s[..k] == [s[0]] + s[1..][..k - 1];
    }
  }

  lemma {:induction false} UpdateIndex(s: seq<Attrib>, k: nat, a: Attrib)
    requires NoneBefore(s, k, a.vid) && k < |s| && s[k].vid == a.vid
    ensures Update(s, a) == s[k := a]
  {
    if k > 0 {
      UpdateIndex(s[1..], k - 1, a);
    }
  }

  lemma {:induction false} RemoveIndex(s: seq<Attrib>, k: nat, v: vid)
    requires NoneBefore(s, k, v) && k < |s| && s[k].vid == v
    ensures Remove(s, v) == s[..k] + s[k + 1..]
  {
    if k > 0 {
      RemoveIndex(s[1..], k - 1, v);
      assert s[..k] == [s[0]] + s[1..][..k - 1];
    }
  }

  lemma {:induction false} KeptSnoc(s: seq<Attrib>, a: Attrib)
    ensures Kept(s + [a]) == Kept(s) + (if Reclaimable(a) then [] else [a])
    ensures ReclaimNotes(s + [a]) == ReclaimNotes(s) + (if Reclaimable(a) then [Note(a.vid, NotifyLv)] else [])
  {
    hide Reclaimable;
    if s == [] {
      assert s + [a] == [a] && [a][1..] == [];
    } else {
      assert (s + [a])[1..] == s[1..] + [a];
      KeptSnoc(s[1..], a);
    }
  }

  lemma {:induction false} NotesSnoc(s: seq<Attrib>, a: Attrib)
    ensures NotesOf(s + [a]) == NotesOf(s) + NoteOf(a)
  {
    hide NoteOf;
    if s == [] {
      assert s + [a] == [a] && [a][1..] == [];
      NotesCons([a]);
    } else {
      assert (s + [a])[0] == s[0] && (s + [a])[1..] == s[1..] + [a];
      NotesSnoc(s[1..], a);
      NotesCons(s);
      NotesCons(s + [a]);
      NotesAssoc(NoteOf(s[0]), NotesOf(s[1..]), NoteOf(a));
    }
  }

  function NoteOf(a: Attrib): seq<Note> {
    if a.reg.notify != NotifyNone then [Note(a.vid, a.reg.notify)] else []
  }

  lemma NotesCons(s: seq<Attrib>)
    requires s != []
    ensures NotesOf(s) == NoteOf(s[0]) + NotesOf(s[1..]) && NotesOf([]) == []
  {
  }

  lemma NotesAssoc(x: seq<Note>, y: seq<Note>, z: seq<Note>)
    ensures x + y + z == x + (y + z)
  {
  }

  /** Replacing and dropping the first unvisited attribute of a partly reclaimed list. */
  lemma Splice(kept: seq<Attrib>, rest: seq<Attrib>, a: Attrib)
    requires rest != []
    ensures (kept + rest)[|kept|] == rest[0]
    ensures (kept + rest)[|kept| := a] == kept + [a] + rest[1..]
    ensures var list := kept + [a] + rest[1..];
            && list[|kept|] == a
            && list[..|kept|] + list[|kept| + 1..] == kept + rest[1..]
  {
  }

  /** A list that the leave timer's loop has half visited. */
  ghost function HalfWalked(s: seq<Attrib>, w: seq<Attrib>, done: nat): seq<Attrib>
    requires done <= |s| == |w|
  {
    Kept(w[..done]) + s[done..]
  }

  lemma StartHalfWalked(s: seq<Attrib>, w: seq<Attrib>)
    requires |s| == |w|
    ensures HalfWalked(s, w, 0) == s && ReclaimNotes(w[..0]) == []
  {
    assert w[..0] == [] && s[0..] == s;
  }

  lemma EndHalfWalked(s: seq<Attrib>, w: seq<Attrib>)
    requires |s| == |w|
    ensures HalfWalked(s, w, |s|) == Kept(w) && w[..|s|] == w
  {
    assert w[..|s|] == w && s[|s|..] == [];
  }

  lemma HalfWalkedOn(s: seq<Attrib>, w: seq<Attrib>, done: nat, k: nat)
    requires done < |s| == |w| && k + (|s| - done) == |HalfWalked(s, w, done)|
    ensures var list := HalfWalked(s, w, done);
            var updated := list[k := w[done]];
            && list[k] == s[done]
            && (if Reclaimable(w[done]) then updated[..k] + updated[k + 1..] else updated) == HalfWalked(s, w, done + 1)
    ensures ReclaimNotes(w[..done + 1]) == ReclaimNotes(w[..done]) + if Reclaimable(w[done]) then [Note(w[done].vid, NotifyLv)] else []
  {
    hide Reclaimable, Kept, ReclaimNotes;
    var kept, rest := Kept(w[..done]), s[done..];
    Splice(kept, rest, w[done]);
    assert rest[1..] == s[done + 1..] && rest[0] == s[done];
    KeptSnoc(w[..done], w[done]);
    assert w[..done + 1] == w[..done] + [w[done]];
  }

  // ---------------------------------------------------------------- What was sent

  /** A list whose transmit flags came back from the emitter still is the same list otherwise. */
  lemma FlagsBack(s: seq<Attrib>, t: seq<Attrib>, items: seq<Item>)
    requires OnlyTxCleared(ItemsOf(s), items) && |t| == |s|
    requires forall i :: 0 <= i < |s| ==> t[i] == s[i].(app := s[i].app.(tx := items[i].tx))
    ensures SettledAll(t) == SettledAll(s)
  {
  }

  lemma FrameAssembled(station: mac, head: seq<byte>, message: seq<byte>, frame: seq<byte>)
    requires head == MVRP_ADDR + station + MVRP_ETYPE + [0] && |frame| == |head| + |message| + 2
    requires frame[..|head|] == head && frame[|head|..|head| + |message|] == message && frame[|head| + |message|..] == ENDMARK
    ensures frame == FrameOf(station, message)
  {
    assert frame == frame[..|head|] + frame[|head|..|head| + |message|] + frame[|head| + |message|..];
  }

  /** When mvrp_txpdu sends: the emitter succeeded, wrote something, and left room for an end mark. */
  lemma SendsWhen(station: mac, s: seq<Attrib>, lva: bool, sendEmpty: bool, ok: bool, used: nat, reach: nat, buf: seq<byte>)
    requires reach <= ROOM
    requires var em := EmitMessage(Vid, ItemsOf(s), ROOM, lva, sendEmpty);
             && (ok <==> em.Emitted?) && (!ok ==> used == 0)
             && (ok ==> MessageLeft(Vid, em, buf, ETHERNET + 1, ROOM, used, reach))
    ensures used > 0 && used + 2 < ROOM ==>
              var em := EmitMessage(Vid, ItemsOf(s), ROOM, lva, sendEmpty);
              && CarriesMessage(em) && ETHERNET + 1 + used <= |buf|
              && buf[ETHERNET + 1..ETHERNET + 1 + used] == EncodeMessage(Vid, em.vectors)
              && TxPdu(station, s, lva, sendEmpty) == Some(FrameOf(station, EncodeMessage(Vid, em.vectors)))
    ensures !(used > 0 && used + 2 < ROOM) ==> TxPdu(station, s, lva, sendEmpty) == None
  {
    hide EmitMessage, EncodeVectors, FrameOf;
    var em := EmitMessage(Vid, ItemsOf(s), ROOM, lva, sendEmpty);
    if ok && em.vectors != [] {
      ClosedLength(buf, em.vectors, used);
    }
  }

  /** The room of an MVRP frame always suffices. */
  lemma VidRoom(items: seq<Item>, lva: bool, sendEmpty: bool)
    requires Keyed(Vid, items)
    ensures Reach(Vid, items, ROOM, lva, sendEmpty) <= ROOM
  {
    hide Reach, Alone, Keyed;
    ReachIff(Vid, items, ROOM, lva, sendEmpty);
  }

  lemma ClosedLength(buf: seq<byte>, vs: seq<Vector>, used: nat)
    requires Closed(Vid, buf, ETHERNET + 1, ROOM, vs, used)
    ensures |EncodeMessage(Vid, vs)| == used > 0
  {
    hide EncodeVectors;
  }

  /** Everything the clients were told in a run. */
  function ToldAfter(p2p: bool, station: mac, run: seq<Input>): seq<Note> {
    if run == [] then []
    else
      var before := run[..|run| - 1];
      ToldAfter(p2p, station, before) + Step(p2p, station, After(p2p, station, before), run[|run| - 1]).notes
  }

  /** Every frame sent in a run. */
  function WireAfter(p2p: bool, station: mac, run: seq<Input>): seq<seq<byte>> {
    if run == [] then []
    else
      var before := run[..|run| - 1];
      WireAfter(p2p, station, before) + SeqOf(Step(p2p, station, After(p2p, station, before), run[|run| - 1]).frame)
  }

  function InputsOf(ds: seq<Dispatch>, source: seq<byte>): (r: seq<Input>)
    ensures |r| == |ds| && PossibleRun(r)
  {
    seq<Input>(|ds|, i requires 0 <= i < |ds| => InputOf(ds[i], source))
  }

  /** Receiving a frame is running its dispatched events. */
  lemma {:induction false} DeliveryIsRun(p2p: bool, station: mac, run: seq<Input>, ds: seq<Dispatch>, source: seq<byte>)
    ensures Feed(p2p, station, After(p2p, station, run), ds, source) == After(p2p, station, run + InputsOf(ds, source))
    decreases |ds|
  {
    hide Step, InputOf;
    if ds == [] {
      assert run + InputsOf(ds, source) == run;
    } else {
      var first := InputOf(ds[0], source);
      var next := run + [first];
      assert next[..|run|] == run;
      DeliveryIsRun(p2p, station, next, ds[1..], source);
      assert run + InputsOf(ds, source) == next + InputsOf(ds[1..], source);
    }
  }

  class Participant {
    const p2p: bool
    const station: mac
    const attribs: Table<Attrib>
    var join: bool
    var lv: bool
    var lva: bool
    var machine: LvaMachine
    var notes: seq<Note>
    var wire: seq<seq<byte>>
    ghost var history: seq<Input>

    /** The list is soundly linked, and the participant is where the model says its history leads, up to transmit flags. */
    ghost predicate Follows()
      reads this, attribs, attribs.list, attribs.repr
    {
      && attribs.Valid()
      && PossibleRun(history)
      && SettledDb(State()) == SettledDb(After(p2p, station, history))
      && notes == ToldAfter(p2p, station, history)
      && wire == WireAfter(p2p, station, history)
    }

    ghost function State(): Db
      reads this, attribs
    {
      Db(attribs.items, join, lv, lva, machine)
    }

    constructor (p2p: bool, station: mac)
      ensures this.p2p == p2p && this.station == station
      ensures State() == InitialDb && history == [] && Follows()
      ensures fresh(attribs) && fresh(attribs.list) && attribs.repr == {}
    {
      this.p2p, this.station := p2p, station;
      attribs := new Table<Attrib>();
      join, lv, lva := false, false, true;
      machine := LvaMachine(false, false, SndNone);
      notes, wire, history := [], [], [];
    }

    // -------------------------------------------------------------- The list

    /** mvrp_lookup: the first node with this VID, or null. */
    method Find(v: vid) returns (n: Node?, ghost k: nat)
      requires attribs.Valid()
      ensures attribs.At(n, k) && NoneBefore(attribs.items, k, v)
      ensures n != null ==> k < |attribs.items| && attribs.items[k].vid == v && Lookup(attribs.items, v) == Some(attribs.items[k])
      ensures n == null ==> Lookup(attribs.items, v) == None
    {
      hide Table.Valid, Table.At, Lookup;
      n := attribs.First();
      k := 0;
      while n != null
        invariant attribs.Valid() && attribs.At(n, k) && NoneBefore(attribs.items, k, v) && (n == null <==> k == |attribs.items|)
        decreases |attribs.items| - k
      {
        var a := attribs.Get(n, k);
        if a.vid == v {
          LookupIndex(attribs.items, k, v);
          return;
        }
        n := attribs.Next(n, k);
        k := k + 1;
      }
      LookupIndex(attribs.items, k, v);
    }

    /** mvrp_add: walks to the first VID that is not smaller and stitches the attribute in before it, or at the tail. */
    method Add(a: Attrib) returns (r: Node, ghost k: nat)
      requires attribs.Valid()
      modifies attribs, attribs.list, attribs.repr
      ensures attribs.Valid() && fresh(attribs.repr - old(attribs.repr)) && attribs.items == Insert(old(attribs.items), a)
      ensures attribs.At(r, k) && k < |attribs.items| && attribs.items[k] == a
      ensures forall i :: 0 <= i < k ==> attribs.items[i].vid < a.vid
    {
      hide Table.Valid, Table.At, Insert;
      ghost var s := attribs.items;
      var n := attribs.First();
      if n == null {
        InsertIndex(s, 0, a);
        k := 0;
        r := attribs.InsertFirst(a);
        return;
      }
      var node: Node := n;
      k := 0;
      var cur := attribs.Get(node, k);
      var next := attribs.Next(node, k);
      while cur.vid < a.vid && next != null
        invariant attribs.Valid() && attribs.At(node, k) && attribs.At(next, k + 1) && k < |s| && cur == s[k] && (next == null <==> k + 1 == |s|)
        invariant forall i :: 0 <= i < k ==> s[i].vid < a.vid
        decreases |s| - k
        modifies {}
      {
        node, k := next, k + 1;
        cur := attribs.Get(node, k);
        next := attribs.Next(node, k);
      }
      if cur.vid < a.vid {
        InsertIndex(s, k + 1, a);
        r := attribs.InsertAfter(node, k, a);
        k := k + 1;
      } else {
        InsertIndex(s, k, a);
        r := attribs.InsertBefore(node, k, a);
      }
    }

    /** mvrp_conditional_reclaim: unlinks the attribute if nobody wants it; returns the next node. */
    method ConditionalReclaim(n: Node, ghost k: nat) returns (next: Node?)
      requires attribs.Valid() && attribs.At(n, k)
      modifies this`notes, attribs, attribs.list, attribs.repr
      ensures attribs.Valid() && fresh(attribs.repr - old(attribs.repr)) && k < |old(attribs.items)|
      ensures next == null <==> (if Reclaimable(old(attribs.items)[k]) then k else k + 1) == |attribs.items|
      ensures Reclaimable(old(attribs.items)[k]) ==>
                attribs.At(next, k) && attribs.items == Removed(old(attribs.items), k)
                && notes == old(notes) + [Note(old(attribs.items)[k].vid, NotifyLv)]
      ensures !Reclaimable(old(attribs.items)[k]) ==>
                attribs.At(next, k + 1) && attribs.items == old(attribs.items) && notes == old(notes)
    {
      hide Table.Valid, Table.At, Reclaimable, Removed;
      var a := attribs.Get(n, k);
      if Reclaimable(a) {
        notes := notes + [Note(a.vid, NotifyLv)];
        next := attribs.Remove(n, k);
      } else {
        next := attribs.Next(n, k);
      }
    }

    /** mvrp_reclaim */
    method ReclaimAll()
      requires attribs.Valid()
      modifies this`notes, attribs, attribs.list, attribs.repr
      ensures attribs.Valid() && fresh(attribs.repr - old(attribs.repr))
      ensures attribs.items == Kept(old(attribs.items)) && notes == old(notes) + ReclaimNotes(old(attribs.items))
    {
      hide Kept, ReclaimNotes, Reclaimable, HalfWalked, Table.Valid, Table.At;
      ghost var s := attribs.items;
      ghost var done, k := 0, 0;
      var n := attribs.First();
      StartHalfWalked(s, s);
      while n != null
        invariant attribs.Valid() && fresh(attribs.repr - old(attribs.repr)) && attribs.At(n, k) && (n == null <==> k == |attribs.items|)
        invariant 0 <= done <= |s| && attribs.items == HalfWalked(s, s, done)
        invariant k + (|s| - done) == |attribs.items|
        invariant notes == old(notes) + ReclaimNotes(s[..done])
        decreases |s| - done
      {
        HalfWalkedOn(s, s, done, k);
        assert attribs.items[k := s[done]] == attribs.items;
        n := ConditionalReclaim(n, k);
        k, done := if Reclaimable(s[done]) then k else k + 1, done + 1;
      }
      EndHalfWalked(s, s);
    }

    // -------------------------------------------------------------- Walks

    /** The loop over the list that most events share; counts the transitions that ask for another Tx. */
    method Walk(e: Event) returns (count: nat)
      requires attribs.Valid()
      modifies this`lv, attribs`data, attribs`items
      ensures attribs.Valid() && attribs.items == WalkedAll(p2p, old(attribs.items), e)
      ensures lv == (old(lv) || (e in {TxLa, RLa} && AnyLeaves(old(attribs.items), e)))
      ensures count > 0 <==> AnotherTxNeeded(attribs.items)
    {
      hide Walked, TransitionImpliesTx, StartsLeaveTimer, Table.Valid, Table.At;
      ghost var s := attribs.items;
      ghost var k := 0;
      var n := attribs.First();
      count := 0;
      while n != null
        invariant attribs.Valid() && attribs.At(n, k) && |attribs.items| == |s| && k <= |s| && (n == null <==> k == |s|)
        invariant forall i :: 0 <= i < |s| ==> attribs.items[i] == if i < k then Walked(p2p, s[i], e) else s[i]
        invariant lv == (old(lv) || (e in {TxLa, RLa} && exists i :: 0 <= i < k && StartsLeaveTimer(s[i].reg, e)))
        invariant count > 0 <==> exists i :: 0 <= i < k && TransitionImpliesTx(attribs.items[i].app)
        decreases |s| - k
      {
        var a := attribs.Get(n, k);
        if e in {TxLa, RLa} && StartsLeaveTimer(a.reg, e) {
          lv := true;
        }
        a := Walked(p2p, a, e);
        attribs.Set(n, k, a);
        if TransitionImpliesTx(a.app) {
          count := count + 1;
        }
        n := attribs.Next(n, k);
        k := k + 1;
      }
      assert attribs.items == WalkedAll(p2p, s, e);
    }

    /** The leave timer's loop: each registrar takes the event, then the attribute may be reclaimed. */
    method LeaveWalk()
      requires attribs.Valid()
      modifies this`notes, attribs, attribs.list, attribs.repr
      ensures attribs.Valid() && fresh(attribs.repr - old(attribs.repr))
      ensures attribs.items == Kept(WalkedAll(p2p, old(attribs.items), LvTimer))
      ensures notes == old(notes) + ReclaimNotes(WalkedAll(p2p, old(attribs.items), LvTimer))
    {
      hide Walked, Reclaimable, Kept, ReclaimNotes, HalfWalked, Table.Valid, Table.At;
      ghost var s, w := attribs.items, WalkedAll(p2p, attribs.items, LvTimer);
      ghost var done, k := 0, 0;
      var n := attribs.First();
      StartHalfWalked(s, w);
      while n != null
        invariant attribs.Valid() && fresh(attribs.repr - old(attribs.repr)) && attribs.At(n, k) && (n == null <==> k == |attribs.items|)
        invariant 0 <= done <= |s| == |w| && attribs.items == HalfWalked(s, w, done)
        invariant k + (|s| - done) == |attribs.items|
        invariant notes == old(notes) + ReclaimNotes(w[..done])
        decreases |s| - done
      {
        HalfWalkedOn(s, w, done, k);
        var a := attribs.Get(n, k);
        attribs.Set(n, k, Walked(p2p, a, LvTimer));
        n := ConditionalReclaim(n, k);
        k, done := if Reclaimable(w[done]) then k else k + 1, done + 1;
      }
      EndHalfWalked(s, w);
    }

    /** The loop at the end of mvrp_event that tells the clients what changed. */
    method Notify()
      requires attribs.Valid()
      modifies this`notes, attribs`data, attribs`items
      ensures attribs.Valid() && attribs.items == CalmedAll(old(attribs.items)) && notes == old(notes) + NotesOf(old(attribs.items))
    {
      hide Table.Valid, Table.At, NotesOf;
      ghost var s := attribs.items;
      ghost var k := 0;
      var n := attribs.First();
      NoNotes();
      while n != null
        invariant attribs.Valid() && attribs.At(n, k) && |attribs.items| == |s| && k <= |s| && (n == null <==> k == |s|)
        invariant forall i :: 0 <= i < |s| ==> attribs.items[i] == if i < k then Calmed(s[i]) else s[i]
        invariant notes == old(notes) + NotesOf(s[..k])
        decreases |s| - k
      {
        NotesSnoc(s[..k], s[k]);
        assert s[..k + 1] == s[..k] + [s[k]];
        var a := attribs.Get(n, k);
        if a.reg.notify != NotifyNone {
          notes := notes + [Note(a.vid, a.reg.notify)];
          attribs.Set(n, k, Calmed(a));
        }
        n := attribs.Next(n, k);
        k := k + 1;
      }
      assert s[..k] == s;
      assert attribs.items == CalmedAll(s);
    }

    // -------------------------------------------------------------- Transmission

    /** Copies the emitter's cleared flags back into the list. */
    method TakeFlags(items: array<Item>)
      requires attribs.Valid() && items.Length == |attribs.items| && OnlyTxCleared(ItemsOf(attribs.items), items[..])
      modifies attribs`data, attribs`items
      ensures attribs.Valid() && SettledAll(attribs.items) == SettledAll(old(attribs.items))
    {
      hide Table.Valid, Table.At;
      ghost var s := attribs.items;
      var k := 0;
      var n := attribs.First();
      while n != null
        invariant attribs.Valid() && attribs.At(n, k) && |attribs.items| == |s| && k <= |s| && (n == null <==> k == |s|) && |s| == items.Length
        invariant forall i :: 0 <= i < |s| ==> attribs.items[i] == if i < k then s[i].(app := s[i].app.(tx := items[i].tx)) else s[i]
        decreases |s| - k
      {
        var a := attribs.Get(n, k);
        attribs.Set(n, k, a.(app := a.app.(tx := items[k].tx)));
        n := attribs.Next(n, k);
        k := k + 1;
      }
      FlagsBack(s, attribs.items, items[..]);
    }

    /** mvrp_txpdu: builds the frame in a zeroed buffer and sends it unless there is nothing to say. */
    method SendPdu(sendEmpty: bool)
      requires attribs.Valid()
      modifies this`machine, this`wire, attribs`data, attribs`items
      ensures attribs.Valid() && SettledAll(attribs.items) == SettledAll(old(attribs.items))
      ensures machine == old(machine).(tx := false)
      ensures wire == old(wire) + SeqOf(TxPdu(station, old(attribs.items), old(machine.tx), sendEmpty))
    {
      hide EmitMessage, Closed, FrameOf, TxPdu, ItemOf, SettledAll, OnlyTxCleared, Reach, MessageLeft, Table.Valid, Table.At;
      ghost var s := attribs.items;
      var buf := new byte[MAX_FRAME_SIZE](_ => 0);
      var head := MVRP_ADDR + station + MVRP_ETYPE + [0];
      WriteFirst(buf, 0, head);
      var lva := machine.tx;
      machine := machine.(tx := false);
      var due := attribs.Collect();
      var list := ItemsOf(due);
      var items := new Item[|list|](i requires 0 <= i < |list| => list[i]);
      assert items[..] == list;
      VidRoom(list, lva, sendEmpty);
      var ok, used, reach := EmitVectors(Vid, items, buf, ETHERNET + 1, ROOM, lva, sendEmpty);
      TakeFlags(items);
      SendsWhen(station, s, lva, sendEmpty, ok, used, reach, buf[..]);
      if used > 0 && used + 2 < ROOM {
        var frame := EndFrame(buf, used, head);
        wire := wire + [frame];
      }
    }

    /** The end mark behind the message, and the frame as it goes out. */
    method EndFrame(buf: array<byte>, used: nat, ghost head: seq<byte>) returns (frame: seq<byte>)
      requires buf.Length == MAX_FRAME_SIZE && 0 < used && used + 2 < ROOM
      requires head == MVRP_ADDR + station + MVRP_ETYPE + [0] && buf[..ETHERNET + 1] == head
      modifies buf
      ensures frame == FrameOf(station, old(buf[ETHERNET + 1..ETHERNET + 1 + used]))
    {
      hide FrameOf;
      ghost var message := buf[ETHERNET + 1..ETHERNET + 1 + used];
      var end := ETHERNET + 1 + used;
      buf[end], buf[end + 1] := 0, 0;
      frame := buf[..end + 2];
      assert frame[..|head|] == head;
      assert frame[|head|..|head| + |message|] == message;
      assert frame[|head| + |message|..] == ENDMARK;
      FrameAssembled(station, head, message, frame);
    }

    // -------------------------------------------------------------- Events

    /** The part of mvrp_event for one VID, up to the notification loop. `ignored` is the early return. */
    method ApplyTo(e: Event, v: vid, mac: seq<int>) returns (ignored: bool)
      requires attribs.Valid() && ValueEvent(e)
      modifies this`join, this`lv, this`notes, attribs, attribs.list, attribs.repr
      ensures attribs.Valid() && fresh(attribs.repr - old(attribs.repr)) && join
      ensures ignored <==> e == RMt && Lookup(old(attribs.items), v).None?
      ensures ignored ==> attribs.items == old(attribs.items) && lv == old(lv) && notes == old(notes)
      ensures !ignored ==>
                var a := Target(old(attribs.items), v, mac);
                var b, list := Handled(p2p, a, e), WithTarget(old(attribs.items), v, mac);
                && lv == (old(lv) || StartsLeaveTimer(a.reg, RegistrarEvent(e, a.reg.state)))
                && attribs.items == (if Reclaimable(b) then Remove(list, v) else Update(list, b))
                && notes == old(notes) + if Reclaimable(b) then [Note(v, NotifyLv)] else []
    {
      hide Handled, StartsLeaveTimer, RegistrarEvent, Reclaimable, Update, Remove, Lookup, Table.Valid, Table.At, Target, WithTarget;
      join := true;
      ghost var s := attribs.items;
      var n, k := Find(v);
      ignored := n == null && e == RMt;
      if !ignored {
        n, k := Targeted(n, k, v, mac);
        Finish(n, k, e, v);
      }
    }

    /** The attribute that the event acts on: merged if it is listed, added if it is not. */
    method Targeted(n0: Node?, ghost k0: nat, v: vid, mac: seq<int>) returns (n: Node, ghost k: nat)
      requires attribs.Valid() && attribs.At(n0, k0) && NoneBefore(attribs.items, k0, v)
      requires n0 != null ==> k0 < |attribs.items| && attribs.items[k0].vid == v && Lookup(attribs.items, v) == Some(attribs.items[k0])
      requires n0 == null ==> Lookup(attribs.items, v) == None
      modifies attribs, attribs.list, attribs.repr
      ensures attribs.Valid() && fresh(attribs.repr - old(attribs.repr)) && attribs.items == WithTarget(old(attribs.items), v, mac)
      ensures attribs.At(n, k) && k < |attribs.items| && attribs.items[k] == Target(old(attribs.items), v, mac)
      ensures NoneBefore(attribs.items, k, v) && attribs.items[k].vid == v
    {
      hide Lookup, Table.Valid, Table.At, Insert, Update;
      if n0 == null {
        n, k := Add(FreshAttrib(v, mac));
      } else {
        n, k := n0, k0;
        var a := attribs.Get(n, k);
        UpdateIndex(attribs.items, k, Merged(a, mac));
        attribs.Set(n, k, Merged(a, mac));
      }
    }

    /** The machines take the event, then the attribute may be reclaimed. */
    method Finish(n: Node, ghost k: nat, e: Event, v: vid)
      requires attribs.Valid() && attribs.At(n, k) && k < |attribs.items|
      requires NoneBefore(attribs.items, k, v) && attribs.items[k].vid == v
      modifies this`lv, this`notes, attribs, attribs.list, attribs.repr
      ensures attribs.Valid() && fresh(attribs.repr - old(attribs.repr))
      ensures var a, list := old(attribs.items)[k], old(attribs.items);
              var b := Handled(p2p, a, e);
              && lv == (old(lv) || StartsLeaveTimer(a.reg, RegistrarEvent(e, a.reg.state)))
              && attribs.items == (if Reclaimable(b) then Remove(list, v) else Update(list, b))
              && notes == old(notes) + if Reclaimable(b) then [Note(v, NotifyLv)] else []
    {
      hide Handled, StartsLeaveTimer, RegistrarEvent, Reclaimable, Update, Remove, Table.Valid, Table.At;
      ghost var list := attribs.items;
      var a := attribs.Get(n, k);
      if StartsLeaveTimer(a.reg, RegistrarEvent(e, a.reg.state)) {
        lv := true;
      }
      var b := Handled(p2p, a, e);
      HandledVid(p2p, a, e);
      UpdateIndex(list, k, b);
      RemoveIndex(list, k, v);
      attribs.Set(n, k, b);
      assert Removed(list[k := b], k) == list[..k] + list[k + 1..];
      var next := ConditionalReclaim(n, k);
    }

    /** The event's outcome is what the model says, up to transmit flags. */
    twostate predicate Did(out: Outcome)
      reads this, attribs
    {
      && SettledDb(State()) == SettledDb(out.db)
      && notes == old(notes) + out.notes
      && wire == old(wire) + SeqOf(out.frame)
    }

    method OnApply(e: Event, v: vid, mac: seq<int>)
      requires attribs.Valid() && ValueEvent(e)
      modifies this`join, this`lv, this`lva, this`machine, this`notes, this`wire, attribs, attribs.list, attribs.repr
      ensures attribs.Valid() && fresh(attribs.repr - old(attribs.repr))
      ensures Did(Step(p2p, station, old(State()), Apply(e, v, mac)))
    {
      hide Step, Table.Valid, Table.At, SettledAll, CalmedAll, NotesOf, Lookup, Update, Remove, Handled, Target, WithTarget, Reclaimable, StartsLeaveTimer, RegistrarEvent;
      var ignored := ApplyTo(e, v, mac);
      ghost var db := State();
      if !ignored {
        Notify();
      }
      AppliedIs(p2p, station, old(State()), e, v, mac, db);
    }

    method OnLeaveAll()
      requires attribs.Valid()
      modifies this`join, this`lv, this`lva, this`machine, this`notes, this`wire, attribs, attribs.list, attribs.repr
      ensures attribs.Valid() && fresh(attribs.repr - old(attribs.repr))
      ensures Did(Step(p2p, station, old(State()), LeaveAllHeard))
    {
      hide Table.Valid, Table.At, WalkedAll, SettledAll, CalmedAll, NotesOf, AnyLeaves, AnotherTxNeeded;
      join := true;
      var count := Walk(RLa);
      machine, lva := LvaFsm(machine, RLa), true;
      Notify();
    }

    method OnTx()
      requires attribs.Valid()
      modifies this`join, this`lv, this`lva, this`machine, this`notes, this`wire, attribs, attribs.list, attribs.repr
      ensures attribs.Valid() && fresh(attribs.repr - old(attribs.repr))
      ensures Did(Step(p2p, station, old(State()), TxTick))
    {
      hide Step, SettledDb, Table.Valid, Table.At, WalkedAll, TxPdu, SettledAll, CalmedAll, NotesOf, AnyLeaves, AnotherTxNeeded;
      join := false;
      var count := Walk(Tx);
      SendPdu(false);
      if count > 0 {
        join := true;
      }
      ghost var sent := attribs.items;
      Notify();
      SentIs(p2p, station, old(State()), State(), sent);
    }

    method OnLeaveTimer()
      requires attribs.Valid()
      modifies this`join, this`lv, this`lva, this`machine, this`notes, this`wire, attribs, attribs.list, attribs.repr
      ensures attribs.Valid() && fresh(attribs.repr - old(attribs.repr))
      ensures Did(Step(p2p, station, old(State()), LvTick))
    {
      hide Table.Valid, Table.At, WalkedAll, SettledAll, CalmedAll, NotesOf, Kept, ReclaimNotes;
      lv := false;
      LeaveWalk();
      Notify();
    }

    method OnLeaveAllTimer()
      requires attribs.Valid()
      modifies this`join, this`lv, this`lva, this`machine, this`notes, this`wire, attribs, attribs.list, attribs.repr
      ensures attribs.Valid() && fresh(attribs.repr - old(attribs.repr))
      ensures Did(Step(p2p, station, old(State()), LvaTick))
    {
      hide Table.Valid, Table.At, WalkedAll, TxPdu, SettledAll, CalmedAll, NotesOf, AnyLeaves, AnotherTxNeeded, LvaFsm;
      lva, join := false, false;
      var count := Walk(TxLa);
      ghost var walked := attribs.items;
      machine, lva := LvaFsm(machine, LvaTimer), true;
      machine := LvaFsm(machine, Tx);
      SendPdu(true);
      SentThenCalmed(walked, attribs.items);
      Notify();
    }

    method OnPeriodic()
      requires attribs.Valid()
      modifies this`join, this`lv, this`lva, this`machine, this`notes, this`wire, attribs, attribs.list, attribs.repr
      ensures attribs.Valid() && fresh(attribs.repr - old(attribs.repr))
      ensures Did(Step(p2p, station, old(State()), PeriodicTick))
    {
      hide Table.Valid, Table.At, WalkedAll, SettledAll, CalmedAll, NotesOf, AnyLeaves, AnotherTxNeeded;
      var first := attribs.First();
      if first != null {
        join := true;
      }
      var count := Walk(Periodic);
      Notify();
    }

    method OnReclaim()
      requires attribs.Valid()
      modifies this`join, this`lv, this`lva, this`machine, this`notes, this`wire, attribs, attribs.list, attribs.repr
      ensures attribs.Valid() && fresh(attribs.repr - old(attribs.repr))
      ensures Did(Step(p2p, station, old(State()), Reclaim))
    {
      hide Table.Valid, Table.At, SettledAll, Kept, ReclaimNotes;
      ReclaimAll();
    }

    method Dispatch(input: Input)
      requires Possible(input) && attribs.Valid()
      modifies this`join, this`lv, this`lva, this`machine, this`notes, this`wire, attribs, attribs.list, attribs.repr
      ensures attribs.Valid() && fresh(attribs.repr - old(attribs.repr))
      ensures Did(Step(p2p, station, old(State()), input))
    {
      hide Step, SettledDb, Table.Valid, Table.At;
      match input {
        case Apply(e, v, mac) => OnApply(e, v, mac);
        case LeaveAllHeard => OnLeaveAll();
        case TxTick => OnTx();
        case LvTick => OnLeaveTimer();
        case LvaTick => OnLeaveAllTimer();
        case PeriodicTick => OnPeriodic();
        case Reclaim => OnReclaim();
      }
    }

    /** mvrp_event, and mvrp_reclaim for the Reclaim input: one step of the model. */
    method Event(input: Input)
      requires Possible(input) && Follows()
      modifies this, attribs, attribs.list, attribs.repr
      ensures Did(Step(p2p, station, old(State()), input)) && fresh(attribs.repr - old(attribs.repr))
      ensures Follows() && history == old(history) + [input]
      ensures Sorted(attribs.items)
    {
      hide Step, SettledDb, Sorted, After, ToldAfter, WireAfter, PossibleRun, Possible, Table.Valid, Table.At;
      ghost var was, before := State(), After(p2p, station, history);
      Dispatch(input);
      StepsAlike(p2p, station, was, before, input);
      HistoryGrows(p2p, station, history, input);
      history := history + [input];
      StaysAscending(p2p, station, history, State());
    }

    /** mvrp_recv_msg: checks the frame, then processes every event it carries. */
    method RecvMsg(frame: seq<byte>) returns (ok: bool)
      requires Follows()
      modifies this, attribs, attribs.list, attribs.repr
      ensures Follows() && fresh(attribs.repr - old(attribs.repr)) && ok == ReceiveFrame(frame).ok
      ensures history == old(history)
                         + InputsOf(ReceiveFrame(frame).out, if |frame| >= 12 then frame[6..12] else [])
    {
      hide Step, SettledAll, ParseMvrp, After, ToldAfter, WireAfter, Follows, InputOf;
      if |frame| < ETHERNET + 3 || frame[12..14] != MVRP_ETYPE || frame[..6] != MVRP_ADDR {
        ok := false;
        assert InputsOf([], if |frame| >= 12 then frame[6..12] else []) == [];
        return;
      }
      var r := Receiver.ReadMvrp(frame[ETHERNET], frame[ETHERNET + 1..]);
      ok := r.ok;
      var k, source := 0, frame[6..12];
      ghost var inputs := InputsOf(r.out, source);
      while k < |r.out|
        invariant 0 <= k <= |r.out| && Follows() && fresh(attribs.repr - old(attribs.repr)) && history == old(history) + inputs[..k]
      {
        assert inputs[..k + 1] == inputs[..k] + [inputs[k]];
        Event(InputOf(r.out[k], source));
        k := k + 1;
      }
      assert inputs[..k] == inputs;
    }
  }

  /** The step for one VID, from the database it leaves before the clients are notified. */
  lemma AppliedIs(p2p: bool, station: mac, db: Db, e: Event, v: vid, mac: seq<int>, after: Db)
    requires after.join && after.lva == db.lva && after.machine == db.machine
    requires if e == RMt && Lookup(db.attribs, v).None? then after.attribs == db.attribs && after.lv == db.lv
             else
               var a := Target(db.attribs, v, mac);
               var b, list := Handled(p2p, a, e), WithTarget(db.attribs, v, mac);
               && after.lv == (db.lv || StartsLeaveTimer(a.reg, RegistrarEvent(e, a.reg.state)))
               && after.attribs == if Reclaimable(b) then Remove(list, v) else Update(list, b)
    ensures var out := Step(p2p, station, db, Apply(e, v, mac));
            if e == RMt && Lookup(db.attribs, v).None? then out == Outcome(after, [], None)
            else
              var b := Handled(p2p, Target(db.attribs, v, mac), e);
              out == Outcome(after.(attribs := CalmedAll(after.attribs)),
                             (if Reclaimable(b) then [Note(v, NotifyLv)] else []) + NotesOf(after.attribs), None)
  {
    hide CalmedAll, NotesOf, Lookup, Update, Remove, Handled, Target, WithTarget, Reclaimable, StartsLeaveTimer, RegistrarEvent;
  }

  /** The step for a transmit opportunity, from what has become of the walked list. */
  lemma SentIs(p2p: bool, station: mac, db: Db, after: Db, sent: seq<Attrib>)
    requires var walked := WalkedAll(p2p, db.attribs, Tx);
             && SettledAll(sent) == SettledAll(walked)
             && after == Db(CalmedAll(sent), AnotherTxNeeded(walked), db.lv, db.lva, db.machine.(tx := false))
    ensures var walked, out := WalkedAll(p2p, db.attribs, Tx), Step(p2p, station, db, TxTick);
            && SettledDb(after) == SettledDb(out.db) && out.notes == NotesOf(sent)
            && out.frame == TxPdu(station, walked, db.machine.tx, false)
  {
    hide WalkedAll, TxPdu, SettledAll, CalmedAll, NotesOf, AnotherTxNeeded;
    SentThenCalmed(WalkedAll(p2p, db.attribs, Tx), sent);
  }

  lemma HistoryGrows(p2p: bool, station: mac, run: seq<Input>, input: Input)
    requires PossibleRun(run) && Possible(input)
    ensures PossibleRun(run + [input])
    ensures var next, out := run + [input], Step(p2p, station, After(p2p, station, run), input);
            && After(p2p, station, next) == out.db
            && ToldAfter(p2p, station, next) == ToldAfter(p2p, station, run) + out.notes
            && WireAfter(p2p, station, next) == WireAfter(p2p, station, run) + SeqOf(out.frame)
  {
    hide Step, Possible;
    assert (run + [input])[..|run|] == run;
  }

  lemma StepsAlike(p2p: bool, station: mac, a: Db, b: Db, input: Input)
    requires Possible(input) && SettledDb(a) == SettledDb(b)
    ensures var x, y := Step(p2p, station, a, input), Step(p2p, station, b, input);
            SettledDb(x.db) == SettledDb(y.db) && x.notes == y.notes && x.frame == y.frame
  {
    hide Step, SettledAll;
    FlagsAreDead(p2p, station, a, b, input);
  }

  /** The list of a participant that follows the model is strictly ascending. */
  lemma StaysAscending(p2p: bool, station: mac, run: seq<Input>, db: Db)
    requires PossibleRun(run) && SettledDb(db) == SettledDb(After(p2p, station, run))
    ensures Sorted(db.attribs)
  {
    hide After, Valid, Possible;
    RunPerVid(p2p, station, run, 0);
    ValidSorted(After(p2p, station, run));
    var s, t := db.attribs, After(p2p, station, run).attribs;
    assert |SettledAll(s)| == |SettledAll(t)|;
    forall i | 0 <= i < |s| ensures s[i].vid == t[i].vid {
      assert SettledAll(s)[i].vid == SettledAll(t)[i].vid;
    }
  }

  lemma NoNotes()
    ensures NotesOf([]) == []
  {
  }

  lemma SentThenCalmed(walked: seq<Attrib>, sent: seq<Attrib>)
    requires SettledAll(sent) == SettledAll(walked)
    ensures SettledAll(CalmedAll(sent)) == SettledAll(CalmedAll(SettledAll(walked)))
    ensures NotesOf(sent) == NotesOf(SettledAll(walked))
  {
    hide SettledAll, CalmedAll, NotesOf;
    SettledTwice(walked);
    CalmAlike(sent, SettledAll(walked));
  }
}
