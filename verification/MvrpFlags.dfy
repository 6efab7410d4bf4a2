/**
  Transmit flags are dead between events: two databases that differ only in them go through
  the same states, notify the same clients and send the same frames.
 */
module MvrpFlags {
  import opened Mrp
  import opened Mrpdu
  import opened Mvrp

  function SettledDb(db: Db): Db {
    db.(attribs := SettledAll(db.attribs))
  }

  function SettledOption(o: Option<Attrib>): Option<Attrib> {
    if o.Some? then Some(Settled(o.value)) else None
  }

  lemma SettledTail(s: seq<Attrib>)
    requires s != []
    ensures SettledAll(s)[1..] == SettledAll(s[1..]) && SettledAll(s)[0] == Settled(s[0])
    ensures SettledAll(s) == [Settled(s[0])] + SettledAll(s[1..])
  {
  }

  lemma SettledCons(a: Attrib, s: seq<Attrib>)
    ensures SettledAll([a] + s) == [Settled(a)] + SettledAll(s)
  {
  }

  lemma {:induction false} LookupSettled(s: seq<Attrib>, v: vid)
    ensures Lookup(SettledAll(s), v) == SettledOption(Lookup(s, v))
  {
    hide SettledAll;
    if s != [] {
      SettledTail(s);
      LookupSettled(s[1..], v);
    } else {
      assert SettledAll(s) == [];
    }
  }

  lemma {:induction false} InsertSettled(s: seq<Attrib>, a: Attrib)
    ensures SettledAll(Insert(s, a)) == Insert(SettledAll(s), Settled(a))
  {
    hide SettledAll;
    if s != [] {
      SettledTail(s);
    }
    if s != [] && s[0].vid < a.vid {
      InsertSettled(s[1..], a);
      SettledCons(s[0], Insert(s[1..], a));
    } else {
      SettledCons(a, s);
    }
  }

  lemma {:induction false} UpdateSettled(s: seq<Attrib>, a: Attrib)
    ensures SettledAll(Update(s, a)) == Update(SettledAll(s), Settled(a))
  {
    hide SettledAll;
    if s != [] {
      SettledTail(s);
      UpdateSettled(s[1..], a);
      SettledCons(a, s[1..]);
      SettledCons(s[0], Update(s[1..], a));
    }
  }

  lemma {:induction false} RemoveSettled(s: seq<Attrib>, v: vid)
    ensures SettledAll(Remove(s, v)) == Remove(SettledAll(s), v)
  {
    hide SettledAll;
    if s != [] {
      SettledTail(s);
      RemoveSettled(s[1..], v);
      SettledCons(s[0], Remove(s[1..], v));
    }
  }

  lemma {:induction false} KeptSettled(s: seq<Attrib>)
    ensures SettledAll(Kept(s)) == Kept(SettledAll(s))
    ensures ReclaimNotes(SettledAll(s)) == ReclaimNotes(s)
  {
    hide SettledAll;
    if s != [] {
      SettledTail(s);
      KeptSettled(s[1..]);
      SettledCons(s[0], Kept(s[1..]));
      assert [] + Kept(s[1..]) == Kept(s[1..]);
      assert [] + Kept(SettledAll(s[1..])) == Kept(SettledAll(s[1..]));
    } else {
      assert SettledAll(s) == [];
    }
  }

  lemma {:induction false} NotesSettled(s: seq<Attrib>)
    ensures NotesOf(SettledAll(s)) == NotesOf(s)
  {
    hide SettledAll;
    if s != [] {
      SettledTail(s);
      NotesSettled(s[1..]);
    } else {
      assert SettledAll(s) == [];
    }
  }

  lemma CalmedSettled(s: seq<Attrib>)
    ensures SettledAll(CalmedAll(s)) == CalmedAll(SettledAll(s))
  {
  }

  lemma SettledTwice(s: seq<Attrib>)
    ensures SettledAll(SettledAll(s)) == SettledAll(s)
  {
  }

  /** Two lists that settle to the same list notify alike and stay alike. */
  lemma CalmAlike(s: seq<Attrib>, t: seq<Attrib>)
    requires SettledAll(s) == SettledAll(t)
    ensures SettledAll(CalmedAll(s)) == SettledAll(CalmedAll(t)) && NotesOf(s) == NotesOf(t)
  {
    hide SettledAll, CalmedAll, NotesOf;
    CalmedSettled(s);
    CalmedSettled(t);
    NotesSettled(s);
    NotesSettled(t);
  }

  // ---------------------------------------------------------------- Walks and events

  lemma WalkAlike(p2p: bool, s: seq<Attrib>, t: seq<Attrib>, e: Event)
    requires SettledAll(s) == SettledAll(t)
    ensures e in {Tx, TxLa, RLa, Periodic} ==> WalkedAll(p2p, s, e) == WalkedAll(p2p, t, e)
    ensures SettledAll(WalkedAll(p2p, s, LvTimer)) == SettledAll(WalkedAll(p2p, t, LvTimer))
    ensures e in {TxLa, RLa} ==> AnyLeaves(s, e) == AnyLeaves(t, e)
    ensures s == [] <==> t == []
  {
    hide NextApplicant, Announcement, NextRegistrar, Notification;
    assert |SettledAll(s)| == |SettledAll(t)|;
    forall i | 0 <= i < |s| ensures Settled(s[i]) == Settled(t[i]) && s[i].reg == t[i].reg {
      assert SettledAll(s)[i] == SettledAll(t)[i];
    }
  }

  lemma FinishAlike(x: Db, y: Db, notes: seq<Note>, frame: Option<seq<byte>>)
    requires SettledDb(x) == SettledDb(y)
    ensures SettledDb(Finish(x, notes, frame).db) == SettledDb(Finish(y, notes, frame).db)
    ensures Finish(x, notes, frame).notes == Finish(y, notes, frame).notes
  {
    hide SettledAll, CalmedAll, NotesOf;
    CalmAlike(x.attribs, y.attribs);
  }

  lemma HandledAlike(p2p: bool, a: Attrib, b: Attrib, e: Event)
    requires Settled(a) == Settled(b) && ValueEvent(e)
    ensures Handled(p2p, a, e) == Handled(p2p, b, e)
  {
    hide NextApplicant, Announcement, NextRegistrar, Notification;
  }

  lemma TargetAlike(s: seq<Attrib>, t: seq<Attrib>, v: vid, mac: seq<int>)
    requires SettledAll(s) == SettledAll(t)
    ensures Lookup(s, v).None? == Lookup(t, v).None?
    ensures Settled(Target(s, v, mac)) == Settled(Target(t, v, mac))
    ensures SettledAll(WithTarget(s, v, mac)) == SettledAll(WithTarget(t, v, mac))
  {
    hide SettledAll, Lookup, Update, Insert;
    LookupSettled(s, v);
    LookupSettled(t, v);
    UpdateSettled(s, Target(s, v, mac));
    UpdateSettled(t, Target(t, v, mac));
    InsertSettled(s, Target(s, v, mac));
    InsertSettled(t, Target(t, v, mac));
  }

  lemma ApplyAlike(p2p: bool, x: Db, y: Db, e: Event, v: vid, mac: seq<int>)
    requires SettledDb(x) == SettledDb(y) && ValueEvent(e)
    ensures SettledDb(ApplyStep(p2p, x, e, v, mac).db) == SettledDb(ApplyStep(p2p, y, e, v, mac).db)
    ensures ApplyStep(p2p, x, e, v, mac).notes == ApplyStep(p2p, y, e, v, mac).notes
  {
    hide SettledAll, Lookup, Update, Remove, WithTarget, Target, Handled, Reclaimable, Finish, StartsLeaveTimer, RegistrarEvent;
    var s, t := x.attribs, y.attribs;
    TargetAlike(s, t, v, mac);
    var a, a' := Target(s, v, mac), Target(t, v, mac);
    HandledAlike(p2p, a, a', e);
    assert a.reg == a'.reg;
    var b := Handled(p2p, a, e);
    var m, m' := WithTarget(s, v, mac), WithTarget(t, v, mac);
    RemoveSettled(m, v);
    RemoveSettled(m', v);
    UpdateSettled(m, b);
    UpdateSettled(m', b);
    var lv := x.lv || StartsLeaveTimer(a.reg, RegistrarEvent(e, a.reg.state));
    FinishAlike(x.(join := true, attribs := Remove(m, v), lv := lv), y.(join := true, attribs := Remove(m', v), lv := lv),
                [Note(v, NotifyLv)], None);
    FinishAlike(x.(join := true, attribs := Update(m, b), lv := lv), y.(join := true, attribs := Update(m', b), lv := lv),
                [], None);
  }

  /** One step from databases that differ only in transmit flags. */
  lemma FlagsAreDead(p2p: bool, station: mac, x: Db, y: Db, input: Input)
    requires SettledDb(x) == SettledDb(y) && Possible(input)
    ensures var u, w := Step(p2p, station, x, input), Step(p2p, station, y, input);
            SettledDb(u.db) == SettledDb(w.db) && u.notes == w.notes && u.frame == w.frame
  {
    hide SettledAll, Kept, WalkedAll, Finish, TxPdu, ApplyStep, AnyLeaves, AnotherTxNeeded, ReclaimNotes;
    var s, t := x.attribs, y.attribs;
    match input
    case Apply(e, v, mac) =>
      ApplyAlike(p2p, x, y, e, v, mac);
      ApplySilent(p2p, x, e, v, mac);
      ApplySilent(p2p, y, e, v, mac);
    case LeaveAllHeard => WalkAlike(p2p, s, t, RLa);
    case TxTick => WalkAlike(p2p, s, t, Tx);
    case LvTick =>
      WalkAlike(p2p, s, t, LvTimer);
      var w, w' := WalkedAll(p2p, s, LvTimer), WalkedAll(p2p, t, LvTimer);
      KeptSettled(w);
      KeptSettled(w');
      FinishAlike(x.(attribs := Kept(w), lv := false), y.(attribs := Kept(w'), lv := false), ReclaimNotes(w), None);
      FinishFrame(x.(attribs := Kept(w), lv := false), ReclaimNotes(w), None);
      FinishFrame(y.(attribs := Kept(w'), lv := false), ReclaimNotes(w), None);
    case LvaTick => WalkAlike(p2p, s, t, TxLa);
    case PeriodicTick => WalkAlike(p2p, s, t, Periodic);
    case Reclaim =>
      KeptSettled(s);
      KeptSettled(t);
  }

  lemma FinishFrame(db: Db, notes: seq<Note>, frame: Option<seq<byte>>)
    ensures Finish(db, notes, frame).frame == frame
  {
  }

  lemma ApplySilent(p2p: bool, db: Db, e: Event, v: vid, mac: seq<int>)
    ensures ApplyStep(p2p, db, e, v, mac).frame == None
  {
    hide Lookup, Update, Remove, WithTarget, Target, Handled, Reclaimable;
  }
}
