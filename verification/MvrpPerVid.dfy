/**
  The list evolves one VID at a time: every event acts on each VID's attribute by itself, and
  keeps the list strictly ascending with no notification pending between events.
 */
module MvrpPerVid {
  import opened Mrp
  import opened Mrpdu
  import opened Mvrp

  ghost predicate Calm(s: seq<Attrib>) {
    forall i :: 0 <= i < |s| ==> s[i].reg.notify == NotifyNone
  }

  ghost predicate Valid(db: Db) {
    Sorted(db.attribs) && Calm(db.attribs) && !db.machine.tx && !db.machine.active
  }

  // ---------------------------------------------------------------- One VID

  function KeptOption(o: Option<Attrib>): Option<Attrib> {
    if o.Some? && Reclaimable(o.value) then None else o
  }

  function Hit(p2p: bool, o: Option<Attrib>, e: Event, v: vid, mac: seq<int>): Attrib {
    Handled(p2p, if o.Some? then Merged(o.value, mac) else FreshAttrib(v, mac), e)
  }

  /** The attribute of `v` once it has taken its part in the event, before reclaiming and notifying. */
  function Moved(p2p: bool, o: Option<Attrib>, input: Input, v: vid): Option<Attrib> {
    match input
    case Apply(e, w, mac) =>
      if v != w || (e == RMt && o.None?) then o else Some(Hit(p2p, o, e, v, mac))
    case LeaveAllHeard => if o.Some? then Some(Walked(p2p, o.value, RLa)) else None
    case TxTick => if o.Some? then Some(Settled(Walked(p2p, o.value, Tx))) else None
    case LvTick => if o.Some? then Some(Walked(p2p, o.value, LvTimer)) else None
    case LvaTick => if o.Some? then Some(Settled(Walked(p2p, o.value, TxLa))) else None
    case PeriodicTick => if o.Some? then Some(Walked(p2p, o.value, Periodic)) else None
    case Reclaim => o
  }

  predicate Reclaims(input: Input, v: vid) {
    input.LvTick? || input.Reclaim? || (input.Apply? && input.vid == v)
  }

  function CalmedOption(o: Option<Attrib>): Option<Attrib> {
    if o.Some? then Some(Calmed(o.value)) else None
  }

  /** What one input does to the attribute of `v`. */
  function VidStep(p2p: bool, o: Option<Attrib>, input: Input, v: vid): Option<Attrib> {
    var m := Moved(p2p, o, input, v);
    CalmedOption(if Reclaims(input, v) then KeptOption(m) else m)
  }

  /** The notification the clients get about `v`, if any. */
  function VidNote(p2p: bool, o: Option<Attrib>, input: Input, v: vid): Option<Notify> {
    var m := Moved(p2p, o, input, v);
    if m.None? then None
    else if Reclaims(input, v) && Reclaimable(m.value) then Some(NotifyLv)
    else if m.value.reg.notify != NotifyNone then Some(m.value.reg.notify)
    else None
  }

  // ---------------------------------------------------------------- List lemmas

  lemma TailSorted(s: seq<Attrib>)
    requires s != [] && Sorted(s)
    ensures Sorted(s[1..]) && forall i :: 0 <= i < |s[1..]| ==> s[0].vid < s[1..][i].vid
  {
  }

  lemma ConsSorted(a: Attrib, s: seq<Attrib>)
    requires Sorted(s) && forall i :: 0 <= i < |s| ==> a.vid < s[i].vid
    ensures Sorted([a] + s)
  {
  }

  lemma {:induction false} LookupAbsent(s: seq<Attrib>, v: vid)
    requires forall i :: 0 <= i < |s| ==> s[i].vid != v
    ensures Lookup(s, v) == None
  {
    if s != [] {
      LookupAbsent(s[1..], v);
    }
  }

  lemma {:induction false} LookupFound(s: seq<Attrib>, v: vid)
    ensures Lookup(s, v).Some? ==> Lookup(s, v).value.vid == v && Lookup(s, v).value in s
  {
    if s != [] {
      LookupFound(s[1..], v);
    }
  }

  lemma {:induction false} LookupAt(s: seq<Attrib>, i: nat)
    requires Sorted(s) && i < |s|
    ensures Lookup(s, s[i].vid) == Some(s[i])
  {
    if i > 0 {
      TailSorted(s);
      LookupAt(s[1..], i - 1);
    }
  }

  lemma {:induction false} InsertLemma(s: seq<Attrib>, a: Attrib)
    requires Sorted(s) && Lookup(s, a.vid) == None
    ensures Sorted(Insert(s, a))
    ensures forall v: vid :: Lookup(Insert(s, a), v) == if v == a.vid then Some(a) else Lookup(s, v)
    ensures forall i :: 0 <= i < |Insert(s, a)| ==> Insert(s, a)[i] == a || Insert(s, a)[i] in s
  {
    if s != [] && s[0].vid < a.vid {
      var r := Insert(s[1..], a);
      TailSorted(s);
      InsertLemma(s[1..], a);
      ConsSorted(s[0], r);
      assert ([s[0]] + r)[1..] == r;
    } else if s != [] {
      assert a.vid < s[0].vid;
      ConsSorted(a, s);
      assert ([a] + s)[1..] == s;
      forall v: vid ensures Lookup(Insert(s, a), v) == if v == a.vid then Some(a) else Lookup(s, v) {
      }
    } else {
      assert ([a] + s)[1..] == s;
    }
  }

  lemma {:induction false} UpdateLemma(s: seq<Attrib>, a: Attrib)
    requires Sorted(s) && Lookup(s, a.vid).Some?
    ensures Sorted(Update(s, a)) && |Update(s, a)| == |s|
    ensures forall v: vid :: Lookup(Update(s, a), v) == if v == a.vid then Some(a) else Lookup(s, v)
    ensures forall i :: 0 <= i < |s| ==> Update(s, a)[i] == if s[i].vid == a.vid then a else s[i]
  {
    TailSorted(s);
    if s[0].vid == a.vid {
      ConsSorted(a, s[1..]);
      assert ([a] + s[1..])[1..] == s[1..];
      LookupAbsent(s[1..], a.vid);
    } else {
      var r := Update(s[1..], a);
      UpdateLemma(s[1..], a);
      ConsSorted(s[0], r);
      assert ([s[0]] + r)[1..] == r;
    }
  }

  lemma {:induction false} RemoveLemma(s: seq<Attrib>, w: vid)
    requires Sorted(s)
    ensures Sorted(Remove(s, w))
    ensures forall v: vid :: Lookup(Remove(s, w), v) == if v == w then None else Lookup(s, v)
    ensures forall i :: 0 <= i < |Remove(s, w)| ==> Remove(s, w)[i] in s && Remove(s, w)[i].vid != w
  {
    if s != [] {
      TailSorted(s);
      if s[0].vid == w {
        LookupAbsent(s[1..], w);
      } else {
        var r := Remove(s[1..], w);
        RemoveLemma(s[1..], w);
        ConsSorted(s[0], r);
        assert ([s[0]] + r)[1..] == r;
      }
    }
  }

  lemma {:induction false} KeptMembers(s: seq<Attrib>)
    ensures forall i :: 0 <= i < |Kept(s)| ==> Kept(s)[i] in s && !Reclaimable(Kept(s)[i])
  {
    if s != [] {
      KeptMembers(s[1..]);
    }
  }

  lemma {:induction false} KeptSorted(s: seq<Attrib>)
    requires Sorted(s)
    ensures Sorted(Kept(s))
  {
    if s != [] {
      TailSorted(s);
      KeptSorted(s[1..]);
      KeptMembers(s[1..]);
      var r := Kept(s[1..]);
      if Reclaimable(s[0]) {
        assert [] + r == r;
      } else {
        ConsSorted(s[0], r);
      }
    }
  }

  lemma {:induction false} KeptLookup(s: seq<Attrib>, v: vid)
    requires Sorted(s)
    ensures Lookup(Kept(s), v) == KeptOption(Lookup(s, v))
  {
    if s != [] {
      TailSorted(s);
      KeptLookup(s[1..], v);
      var r := Kept(s[1..]);
      if Reclaimable(s[0]) {
        assert [] + r == r;
        if s[0].vid == v {
          LookupAbsent(s[1..], v);
        }
      } else {
        assert ([s[0]] + r)[1..] == r;
      }
    }
  }

  /** A walk that keeps VIDs in place is a walk of each VID. */
  lemma {:induction false} MapLemma(s: seq<Attrib>, t: seq<Attrib>, v: vid)
    requires |s| == |t| && forall i :: 0 <= i < |s| ==> t[i].vid == s[i].vid
    ensures Sorted(s) ==> Sorted(t)
    ensures Lookup(s, v).None? <==> Lookup(t, v).None?
    ensures Lookup(s, v).Some? ==> exists i :: 0 <= i < |s| && s[i] == Lookup(s, v).value && t[i] == Lookup(t, v).value
  {
    if s != [] {
      if s[0].vid != v {
        MapLemma(s[1..], t[1..], v);
        if Lookup(s, v).Some? {
          var i :| 0 <= i < |s[1..]| && s[1..][i] == Lookup(s[1..], v).value && t[1..][i] == Lookup(t[1..], v).value;
          assert s[i + 1] == Lookup(s, v).value && t[i + 1] == Lookup(t, v).value;
        }
      } else {
        assert s[0] == Lookup(s, v).value && t[0] == Lookup(t, v).value;
      }
    }
  }

  // ---------------------------------------------------------------- Notes

  /** The last notification about `v` in a list of notifications. */
  function LastNote(notes: seq<Note>, v: vid): Option<Notify> {
    if notes == [] then None
    else
      var later := LastNote(notes[1..], v);
      if later.Some? then later else if notes[0].vid == v then Some(notes[0].notify) else None
  }

  lemma {:induction false} LastNoteConcat(a: seq<Note>, b: seq<Note>, v: vid)
    ensures LastNote(a + b, v) == if LastNote(b, v).Some? then LastNote(b, v) else LastNote(a, v)
  {
    if a == [] {
      assert a + b == b;
    } else {
      assert (a + b)[1..] == a[1..] + b;
      LastNoteConcat(a[1..], b, v);
    }
  }

  function NoteOption(o: Option<Attrib>): Option<Notify> {
    if o.Some? && o.value.reg.notify != NotifyNone then Some(o.value.reg.notify) else None
  }

  function ReclaimNoteOption(o: Option<Attrib>): Option<Notify> {
    if o.Some? && Reclaimable(o.value) then Some(NotifyLv) else None
  }

  lemma {:induction false} NotesOfLemma(s: seq<Attrib>, v: vid)
    requires Sorted(s)
    ensures LastNote(NotesOf(s), v) == NoteOption(Lookup(s, v))
  {
    if s != [] {
      TailSorted(s);
      NotesOfLemma(s[1..], v);
      var head := if s[0].reg.notify != NotifyNone then [Note(s[0].vid, s[0].reg.notify)] else [];
      LastNoteConcat(head, NotesOf(s[1..]), v);
      if s[0].vid == v {
        LookupAbsent(s[1..], v);
      }
    }
  }

  lemma {:induction false} ReclaimNotesLemma(s: seq<Attrib>, v: vid)
    requires Sorted(s)
    ensures LastNote(ReclaimNotes(s), v) == ReclaimNoteOption(Lookup(s, v))
  {
    if s != [] {
      TailSorted(s);
      ReclaimNotesLemma(s[1..], v);
      var head := if Reclaimable(s[0]) then [Note(s[0].vid, NotifyLv)] else [];
      LastNoteConcat(head, ReclaimNotes(s[1..]), v);
      if s[0].vid == v {
        LookupAbsent(s[1..], v);
      }
    }
  }

  // ---------------------------------------------------------------- Every event, one VID at a time

  lemma CalmedAllLemma(s: seq<Attrib>, v: vid)
    requires Sorted(s)
    ensures Sorted(CalmedAll(s)) && Calm(CalmedAll(s))
    ensures Lookup(CalmedAll(s), v) == CalmedOption(Lookup(s, v))
  {
    MapLemma(s, CalmedAll(s), v);
  }

  lemma FinishLemma(db: Db, notes: seq<Note>, frame: Option<seq<byte>>, v: vid)
    requires Sorted(db.attribs)
    ensures var out := Finish(db, notes, frame);
            && Sorted(out.db.attribs) && Calm(out.db.attribs) && out.db.machine == db.machine
            && Lookup(out.db.attribs, v) == CalmedOption(Lookup(db.attribs, v))
            && LastNote(out.notes, v)
               == (if NoteOption(Lookup(db.attribs, v)).Some? then NoteOption(Lookup(db.attribs, v)) else LastNote(notes, v))
  {
    CalmedAllLemma(db.attribs, v);
    NotesOfLemma(db.attribs, v);
    LastNoteConcat(notes, NotesOf(db.attribs), v);
  }

  lemma WalkedAllLemma(p2p: bool, s: seq<Attrib>, e: Event, v: vid)
    requires Sorted(s)
    ensures Sorted(WalkedAll(p2p, s, e)) && Sorted(SettledAll(WalkedAll(p2p, s, e)))
    ensures var o := Lookup(s, v);
            && Lookup(WalkedAll(p2p, s, e), v) == (if o.Some? then Some(Walked(p2p, o.value, e)) else None)
            && Lookup(SettledAll(WalkedAll(p2p, s, e)), v) == if o.Some? then Some(Settled(Walked(p2p, o.value, e))) else None
  {
    hide Walked;
    var t := WalkedAll(p2p, s, e);
    WalkKeepsVids(p2p, s, e);
    MapLemma(s, t, v);
    MapLemma(t, SettledAll(t), v);
  }

  lemma WalkKeepsVids(p2p: bool, s: seq<Attrib>, e: Event)
    ensures forall i :: 0 <= i < |s| ==> WalkedAll(p2p, s, e)[i].vid == s[i].vid
  {
  }

  lemma ApplyPerVid(p2p: bool, db: Db, e: Event, w: vid, mac: seq<int>, v: vid)
    requires Valid(db) && ValueEvent(e)
    ensures var out := ApplyStep(p2p, db, e, w, mac);
            && Valid(out.db)
            && Lookup(out.db.attribs, v) == VidStep(p2p, Lookup(db.attribs, v), Apply(e, w, mac), v)
            && LastNote(out.notes, v) == VidNote(p2p, Lookup(db.attribs, v), Apply(e, w, mac), v)
  {
    hide Handled, Finish, Calm, Reclaimable, Lookup, Update, Remove, Insert, WithTarget, StartsLeaveTimer, RegistrarEvent, Sorted, LastNote;
    var s := db.attribs;
    CalmLookup(s, v);
    LastOfOne(w, v);
    if e == RMt && Lookup(s, w).None? {
    } else {
      var a := Target(s, w, mac);
      var b := Handled(p2p, a, e);
      var list := WithTarget(s, w, mac);
      TargetMoved(p2p, s, e, w, mac, v);
      var lv := db.lv || StartsLeaveTimer(a.reg, RegistrarEvent(e, a.reg.state));
      var db1 := db.(join := true, lv := lv);
      if Reclaimable(b) {
        FinishLemma(db1.(attribs := Remove(list, w)), [Note(w, NotifyLv)], None, v);
      } else {
        FinishLemma(db1.(attribs := Update(list, b)), [], None, v);
      }
    }
  }

  /** The list once the event has acted on the attribute of w, and that attribute is kept or reclaimed. */
  lemma TargetMoved(p2p: bool, s: seq<Attrib>, e: Event, w: vid, mac: seq<int>, v: vid)
    requires Sorted(s)
    ensures var b, list := Handled(p2p, Target(s, w, mac), e), WithTarget(s, w, mac);
            var after := if Reclaimable(b) then Remove(list, w) else Update(list, b);
            Sorted(after) && Lookup(after, v) == if v == w then KeptOption(Some(b)) else Lookup(s, v)
  {
    hide Handled, Lookup, Update, Remove, Insert, WithTarget, Target, Sorted, Reclaimable;
    var a, list := Target(s, w, mac), WithTarget(s, w, mac);
    TargetLemma(s, w, mac);
    HandledVid(p2p, a, e);
    RemoveLemma(list, w);
    UpdateLemma(list, Handled(p2p, a, e));
  }

  lemma LastOfOne(w: vid, v: vid)
    ensures LastNote([Note(w, NotifyLv)], v) == if v == w then Some(NotifyLv) else None
    ensures LastNote([], v) == None
  {
    assert [Note(w, NotifyLv)][1..] == [];
  }

  /** With nothing pending, an attribute that is not touched is not changed by calming either. */
  lemma CalmLookup(s: seq<Attrib>, v: vid)
    requires Calm(s)
    ensures CalmedOption(Lookup(s, v)) == Lookup(s, v) && NoteOption(Lookup(s, v)) == None
  {
    LookupFound(s, v);
  }

  lemma HandledVid(p2p: bool, a: Attrib, e: Event)
    ensures Handled(p2p, a, e).vid == a.vid
  {
  }

  lemma TargetLemma(s: seq<Attrib>, w: vid, mac: seq<int>)
    requires Sorted(s)
    ensures var list := WithTarget(s, w, mac);
            && Sorted(list) && Target(s, w, mac).vid == w
            && (forall v: vid :: Lookup(list, v) == if v == w then Some(Target(s, w, mac)) else Lookup(s, v))
  {
    LookupFound(s, w);
    if Lookup(s, w).Some? {
      UpdateLemma(s, Target(s, w, mac));
    } else {
      InsertLemma(s, Target(s, w, mac));
    }
  }

  /**
    For every database the participant can be in, every input and every VID: the VID's
    attribute afterwards, and the last notification about it, depend on that attribute alone.
   */
  lemma StepPerVid(p2p: bool, station: mac, db: Db, input: Input, v: vid)
    requires Valid(db) && Possible(input)
    ensures var out := Step(p2p, station, db, input);
            && Valid(out.db)
            && Lookup(out.db.attribs, v) == VidStep(p2p, Lookup(db.attribs, v), input, v)
            && LastNote(out.notes, v) == VidNote(p2p, Lookup(db.attribs, v), input, v)
  {
    hide VidStep, VidNote, Lookup, LastNote, Finish, ApplyStep, WalkedAll, SettledAll, Kept, ReclaimNotes, TxPdu, AnyLeaves;
    hide AnotherTxNeeded, LvaFsm, Valid;
    match input
    case Apply(e, w, mac) => ApplyPerVid(p2p, db, e, w, mac, v);
    case LeaveAllHeard => WalkPerVid(p2p, station, db, input, v);
    case PeriodicTick => WalkPerVid(p2p, station, db, input, v);
    case TxTick => TxPerVid(p2p, station, db, input, v);
    case LvaTick => TxPerVid(p2p, station, db, input, v);
    case LvTick => ReclaimPerVid(p2p, station, db, input, v);
    case Reclaim => ReclaimPerVid(p2p, station, db, input, v);
  }

  ghost predicate OwnOnly(p2p: bool, station: mac, db: Db, input: Input, v: vid) {
    var out := Step(p2p, station, db, input);
    && Valid(out.db)
    && Lookup(out.db.attribs, v) == VidStep(p2p, Lookup(db.attribs, v), input, v)
    && LastNote(out.notes, v) == VidNote(p2p, Lookup(db.attribs, v), input, v)
  }

  lemma WalkPerVid(p2p: bool, station: mac, db: Db, input: Input, v: vid)
    requires Valid(db) && (input.LeaveAllHeard? || input.PeriodicTick?)
    ensures OwnOnly(p2p, station, db, input, v)
  {
    hide Finish, Walked, TxPdu, Reclaimable, Settled, ApplyStep, AnyLeaves, AnotherTxNeeded;
    var s := db.attribs;
    if input.LeaveAllHeard? {
      WalkedAllLemma(p2p, s, RLa, v);
      FinishLemma(Db(WalkedAll(p2p, s, RLa), true, db.lv || AnyLeaves(s, RLa), true, LvaFsm(db.machine, RLa)), [], None, v);
    } else {
      WalkedAllLemma(p2p, s, Periodic, v);
      FinishLemma(db.(attribs := WalkedAll(p2p, s, Periodic), join := db.join || s != []), [], None, v);
    }
  }

  lemma TxPerVid(p2p: bool, station: mac, db: Db, input: Input, v: vid)
    requires Valid(db) && (input.TxTick? || input.LvaTick?)
    ensures OwnOnly(p2p, station, db, input, v)
  {
    hide Finish, Walked, TxPdu, Reclaimable, Settled, ApplyStep, AnyLeaves, AnotherTxNeeded;
    var s := db.attribs;
    if input.TxTick? {
      var walked := WalkedAll(p2p, s, Tx);
      WalkedAllLemma(p2p, s, Tx, v);
      FinishLemma(db.(attribs := SettledAll(walked), join := AnotherTxNeeded(walked), machine := db.machine.(tx := false)),
                  [], TxPdu(station, walked, db.machine.tx, false), v);
    } else {
      var walked := WalkedAll(p2p, s, TxLa);
      WalkedAllLemma(p2p, s, TxLa, v);
      var machine := LvaFsm(LvaFsm(db.machine, LvaTimer), Tx);
      FinishLemma(Db(SettledAll(walked), false, db.lv || AnyLeaves(s, TxLa), true, machine.(tx := false)),
                  [], TxPdu(station, walked, machine.tx, true), v);
    }
  }

  lemma ReclaimPerVid(p2p: bool, station: mac, db: Db, input: Input, v: vid)
    requires Valid(db) && (input.LvTick? || input.Reclaim?)
    ensures OwnOnly(p2p, station, db, input, v)
  {
    hide Finish, Walked, TxPdu, Reclaimable, Settled, ApplyStep, AnyLeaves, AnotherTxNeeded;
    var s := if input.LvTick? then WalkedAll(p2p, db.attribs, LvTimer) else db.attribs;
    if input.LvTick? {
      WalkedAllLemma(p2p, db.attribs, LvTimer, v);
    } else {
      CalmLookup(s, v);
      KeptMembers(s);
    }
    KeptSorted(s);
    KeptLookup(s, v);
    ReclaimNotesLemma(s, v);
    if input.LvTick? {
      FinishLemma(db.(attribs := Kept(s), lv := false), ReclaimNotes(s), None, v);
    }
  }
}
